/** The session manager as the object it is: registries and timers updated in place, one
    database call at a time, returning early on the first failure. Each operation keeps the
    registries consistent, says on the fields what its result means, and is the step the
    lifecycle theorems are about. */
module SessionManager {
  import opened Common
  import opened M = SessionModel
  import opened SessionInvariants
  import opened T = SessionTheorems
  import opened SessionTtl
  import opened SessionOutcomes
  import opened SessionWrites

  class TerminalSessionManager {
    const fate: Fate
    const detachTtl: nat
    var db: Db
    var runtimes: map<SessionId, RuntimeEntry>
    var attachments: map<AttachmentId, AttachmentRuntime>
    var timers: map<TimerId, Timer>
    var nextTimer: TimerId

    ghost function Now(): State
      reads this
    {
      State(db, runtimes, attachments, timers, nextTimer)
    }

    /** Live runtimes, entries, timers and attachments agree with each other and with the rows. */
    ghost predicate Valid()
      reads this
    {
      RegInv(Now())
    }

    constructor (repository: Fate, ttl: nat)
      ensures Valid() && fate == repository && detachTtl == ttl && Now() == M.Initial()
    {
      fate := repository;
      detachTtl := ttl;
      db := Db(map[], map[], Empty, 0, Empty, Empty);
      runtimes, attachments, timers, nextTimer := map[], map[], map[], 0;
    }

    // ---------- repository calls ----------

    method Call() returns (ok: bool)
      modifies this`db
      ensures ok == fate(old(db.calls)) && Now() == Called(old(Now()))
    {
      ok := fate(db.calls);
      db := db.(calls := db.calls + 1);
    }

    method Get(id: SessionId, owner: UserId) returns (r: Result<SessionRow, Error>)
      modifies this`db
      ensures r == GetOwned(fate, old(Now()), id, owner) && Now() == Called(old(Now()))
    {
      var ok := Call();
      if !ok {
        return Err(RepositoryFailed);
      }
      if id in db.rows && db.rows[id].owner == owner {
        return Ok(db.rows[id]);
      }
      r := Err(NotFound);
    }

    method GetAttachmentRow(id: SessionId, a: AttachmentId) returns (r: Result<AttachmentRow, Error>)
      modifies this`db
      ensures r == GetAttachment(fate, old(Now()), id, a) && Now() == Called(old(Now()))
    {
      var ok := Call();
      if !ok {
        return Err(RepositoryFailed);
      }
      if a in db.attachments && db.attachments[a].session == id {
        return Ok(db.attachments[a]);
      }
      r := Err(NotFound);
    }

    method PutStatus(id: SessionId, status: RowStatus, closedAt: Option<Time>) returns (ok: bool)
      modifies this`db
      ensures ok == StatusWriteOk(fate, old(Now()), id)
      ensures Now() == SetStatus(fate, old(Now()), id, status, closedAt)
    {
      ok := Call();
      if ok && id in db.rows {
        db := WriteStatus(db, id, status, closedAt);
      } else {
        ok := false;
      }
    }

    method PutEvent(id: SessionId, kind: EventKind) returns (ok: bool)
      modifies this`db
      ensures ok == fate(old(db.calls)) && Now() == AddEvent(fate, old(Now()), id, kind)
    {
      ok := Call();
      if ok {
        db := db.(events := Append(db.events, Event(id, kind)));
      }
    }

    // ---------- registry mutations ----------

    /** Dropping a live runtime aborts its detach timer. */
    method Abort(e: RuntimeEntry)
      modifies this`timers
      ensures timers == AbortTimer(old(timers), e)
    {
      if e.live.Some? && e.live.value.detachClose.Some? {
        timers := timers - {e.live.value.detachClose.value.timer};
      }
    }

    method Remove(id: SessionId)
      modifies this`runtimes, this`timers
      ensures Now() == RemoveRuntime(old(Now()), id)
    {
      if id in runtimes {
        var removed := runtimes[id];
        runtimes := runtimes - {id};
        Abort(removed);
      }
    }

    /** Drop any partial live runtime. */
    method EndEntry(id: SessionId)
      modifies this`runtimes, this`timers
      ensures Now() == EndRuntime(old(Now()), id)
    {
      if id in runtimes {
        var entry := runtimes[id];
        runtimes := runtimes[id := RuntimeEntry(entry.owner, RuntimeEnded, None)];
        Abort(entry);
      }
    }

    method ForgetAttachments(id: SessionId)
      modifies this`attachments
      ensures Now() == DropAttachments(old(Now()), id)
    {
      attachments := map a | a in attachments && attachments[a].session != id :: attachments[a];
    }

    // ---------- operations ----------

    method Create(id: SessionId, owner: UserId, cols: nat, rows: nat) returns (r: Result<(), Error>)
      requires Valid()
      modifies this
      ensures Valid()
      ensures r.Ok? <==>
        ValidDim(cols) && ValidDim(rows) && id !in old(db.rows) && CallsSucceed(fate, old(db.calls), 2)
      ensures r.Ok? ==> db.rows == old(db.rows)[id := SessionRow(owner, Starting, None)]
      ensures r.Ok? ==> runtimes == old(runtimes)[id := RuntimeEntry(owner, RuntimeStarting, None)]
      ensures r.Err? ==> runtimes == old(runtimes)
      ensures r.Err? && db.rows != old(db.rows) ==> id in db.rows && id !in runtimes
      ensures attachments == old(attachments) && timers == old(timers)
      ensures (Now(), r) == CreateSession(fate, old(Now()), id, owner, cols, rows)
    {
      CreateReg(fate, Now(), id, owner, cols, rows);
      CreateOutcome(fate, Now(), id, owner, cols, rows);
      if !ValidDim(cols) {
        return Err(InvalidDimensions);
      }
      if !ValidDim(rows) {
        return Err(InvalidDimensions);
      }
      var ok := Call();
      if !ok || id in db.rows {
        return Err(RepositoryFailed);
      }
      db := db.(rows := db.rows[id := SessionRow(owner, Starting, None)]);
      ok := PutEvent(id, CreatedEvent);
      if !ok {
        return Err(RepositoryFailed);
      }
      runtimes := runtimes[id := RuntimeEntry(owner, RuntimeStarting, None)];
      r := Ok(());
    }

    method StartLive(owner: UserId, id: SessionId) returns (r: Result<(), Error>)
      requires Valid()
      modifies this
      ensures Valid()
      ensures r.Ok? <==>
        OwnsOpen(old(Now()), owner, id) && id in old(runtimes) && CallsSucceed(fate, old(db.calls), 3)
      ensures r.Ok? ==> id in db.rows && db.rows[id] == SessionRow(owner, Active, None)
      ensures r.Ok? ==> runtimes == old(runtimes)[id := RuntimeEntry(owner, RuntimeLive, Some(LiveRuntime(None)))]
      ensures r.Ok? ==> NoTimerFor(Now(), id)
      ensures r.Err? ==> runtimes == old(runtimes) && timers == old(timers)
      ensures attachments == old(attachments)
      ensures (Now(), r) == StartLivePty(fate, old(Now()), owner, id)
    {
      StartReg(fate, Now(), owner, id);
      StartOutcome(fate, Now(), owner, id);
      var got := Get(id, owner);
      if got.Err? {
        return Err(got.error);
      }
      if got.value.status.Closed? {
        return Err(SessionClosed);
      }
      if id !in runtimes {
        return Err(NotFound);
      }
      var ok := PutStatus(id, Active, None);
      if !ok {
        return Err(RepositoryFailed);
      }
      var updated := Get(id, owner);
      if updated.Err? {
        return Err(updated.error);
      }
      var replaced := runtimes[id];
      runtimes := runtimes[id := RuntimeEntry(replaced.owner, RuntimeLive, Some(LiveRuntime(None)))];
      Abort(replaced);
      r := Ok(());
    }

    method RecordStartFailed(owner: UserId, id: SessionId, now: Time) returns (r: Result<(), Error>)
      requires Valid()
      modifies this
      ensures Valid()
      ensures !HasLive(Now(), id) && NoTimerFor(Now(), id)
      ensures r.Ok? <==>
        || (OwnsOpen(old(Now()), owner, id) && fate(old(db.calls)) && fate(old(db.calls) + 1))
        || (Owns(old(Now()), owner, id) && !OwnsOpen(old(Now()), owner, id) && fate(old(db.calls)))
      ensures db.rows ==
        if r.Ok? && OwnsOpen(old(Now()), owner, id)
        then old(db.rows)[id := SessionRow(owner, Closed, Some(now))] else old(db.rows)
      ensures db.events ==
        Logged(old(db.events), id, ClosedEvent,
               r.Ok? && OwnsOpen(old(Now()), owner, id) && fate(old(db.calls) + 2))
      ensures r.Ok? && OwnsOpen(old(Now()), owner, id) ==> id !in runtimes && !AnyAttached(Now(), id)
      ensures r.Err? ==> attachments == old(attachments)
      ensures (Now(), r) == RecordPtyStartFailed(fate, old(Now()), owner, id, now)
    {
      StartFailedReg(fate, Now(), owner, id, now);
      StartFailedOutcome(fate, Now(), owner, id, now);
      StartFailedWrites(fate, Now(), owner, id, now);
      EndEntry(id);
      var got := Get(id, owner);
      if got.Err? {
        return Err(got.error);
      }
      if got.value.status.Closed? {
        return Ok(());
      }
      var ok := PutStatus(id, Closed, Some(now));
      if !ok {
        return Err(RepositoryFailed);
      }
      var _ := PutEvent(id, ClosedEvent);
      ForgetAttachments(id);
      Remove(id);
      r := Ok(());
    }

    method Close(id: SessionId, owner: UserId, now: Time) returns (r: Result<bool, Error>)
      requires Valid()
      modifies this
      ensures Valid()
      ensures r.Ok? <==>
        Owns(old(Now()), owner, id) && CallsSucceed(fate, old(db.calls), CloseCalls(old(Now()), id))
      ensures r.Ok? ==> id in db.rows && db.rows[id].status.Closed? && id !in runtimes && NoTimerFor(Now(), id)
      ensures r == Ok(false) ==> db.rows[id] == SessionRow(owner, Closed, Some(now)) && !AnyAttached(Now(), id)
      ensures r == Ok(true) ==> db.rows == old(db.rows) && attachments == old(attachments)
      ensures r.Err? ==> runtimes == old(runtimes) && attachments == old(attachments) && timers == old(timers)
      ensures (Now(), r) == CloseSession(fate, old(Now()), id, owner, now)
    {
      CloseReg(fate, Now(), id, owner, now);
      CloseOutcome(fate, Now(), id, owner, now);
      CloseSucceedsIff(fate, Now(), id, owner, now);
      var got := Get(id, owner);
      if got.Err? {
        return Err(got.error);
      }
      if got.value.status.Closed? {
        Remove(id);
        return Ok(true);
      }
      var ok := PutStatus(id, Closed, Some(now));
      if !ok {
        return Err(RepositoryFailed);
      }
      ok := PutEvent(id, ClosedEvent);
      if !ok {
        return Err(RepositoryFailed);
      }
      var updated := Get(id, owner);
      if updated.Err? {
        return Err(updated.error);
      }
      Remove(id);
      ForgetAttachments(id);
      r := Ok(false);
    }

    method CancelPending(id: SessionId) returns (found: bool)
      modifies this`runtimes, this`timers
      ensures found == PendingOf(old(Now()), id).Some? && Now() == CancelPendingClose(old(Now()), id)
    {
      found := false;
      if id in runtimes && runtimes[id].live.Some? && runtimes[id].live.value.detachClose.Some? {
        var entry := runtimes[id];
        runtimes := runtimes[id := entry.(live := Some(LiveRuntime(None)))];
        Abort(entry);
        found := true;
      }
    }

    method Attach(owner: UserId, id: SessionId, a: AttachmentId) returns (r: Result<bool, Error>)
      requires Valid()
      modifies this
      ensures Valid()
      ensures r.Ok? <==>
        && OwnsOpen(old(Now()), owner, id) && a !in old(db.attachments)
        && CallsSucceed(fate, old(db.calls), if PendingOf(old(Now()), id).Some? then 4 else 3)
      ensures r.Ok? ==> a !in old(db.attachments) && attachments == old(attachments)[a := AttachmentRuntime(id, owner)]
      ensures r.Ok? ==> OwnsOpen(Now(), owner, id) && PendingOf(Now(), id).None? && NoTimerFor(Now(), id)
      ensures r.Ok? && PendingOf(old(Now()), id).Some? ==> db.rows[id].status.Active?
      ensures r.Ok? ==> r.value == (id in runtimes && runtimes[id].live.Some?)
      ensures r.Err? ==> attachments == old(attachments)
      ensures (Now(), r) == AttachSession(fate, old(Now()), owner, id, a)
    {
      AttachReg(fate, Now(), owner, id, a);
      AttachOutcome(fate, Now(), owner, id, a);
      AttachSucceeds(fate, Now(), owner, id, a);
      var got := Get(id, owner);
      if got.Err? {
        return Err(got.error);
      }
      if got.value.status.Closed? {
        return Err(SessionClosed);
      }
      var wasPending := CancelPending(id);
      r := AttachRow(owner, id, a, wasPending);
    }

    /** The attachment row and its event, then the rest. */
    method AttachRow(owner: UserId, id: SessionId, a: AttachmentId, wasPending: bool) returns (r: Result<bool, Error>)
      modifies this`db, this`attachments
      ensures (Now(), r) == WriteAttachment(fate, old(Now()), owner, id, a, wasPending)
    {
      var ok := Call();
      if !ok || a in db.attachments {
        return Err(RepositoryFailed);
      }
      db := db.(attachments := db.attachments[a := AttachmentRow(id, false)]);
      var live := id in runtimes && runtimes[id].live.Some?;
      ok := PutEvent(id, AttachedEvent);
      if !ok {
        return Err(RepositoryFailed);
      }
      r := Resume(owner, id, a, wasPending, live);
    }

    /** Back to Active if this attach landed in a detach window; then register. */
    method Resume(owner: UserId, id: SessionId, a: AttachmentId, wasPending: bool, live: bool)
      returns (r: Result<bool, Error>)
      requires live == HasLive(Now(), id)
      modifies this`db, this`attachments
      ensures (Now(), r) == FinishAttach(fate, old(Now()), owner, id, a, wasPending)
    {
      if wasPending {
        var ok := PutStatus(id, Active, None);
        if !ok {
          return Err(RepositoryFailed);
        }
        var _ := PutEvent(id, ReattachedEvent);
      }
      attachments := attachments[a := AttachmentRuntime(id, owner)];
      r := Ok(live);
    }

    method DetachRow(owner: UserId, id: SessionId, a: AttachmentId) returns (r: Result<bool, Error>)
      requires Valid()
      modifies this
      ensures Valid()
      ensures r.Ok? ==> attachments == old(attachments) - {a}
      ensures r.Ok? ==> a in db.attachments && db.attachments[a] == AttachmentRow(id, true)
      ensures r.Err? ==> attachments == old(attachments)
      ensures runtimes == old(runtimes) && timers == old(timers) && db.rows == old(db.rows)
      ensures (Now(), r) == DetachSession(fate, old(Now()), owner, id, a)
    {
      DetachSessionReg(fate, Now(), owner, id, a);
      DetachSessionFrame(fate, Now(), owner, id, a);
      DetachSessionOutcome(fate, Now(), owner, id, a);
      var got := Get(id, owner);
      if got.Err? {
        return Err(got.error);
      }
      var att := GetAttachmentRow(id, a);
      if att.Err? {
        return Err(att.error);
      }
      if att.value.detached {
        attachments := attachments - {a};
        return Ok(true);
      }
      var ok := Call();
      if !ok {
        return Err(RepositoryFailed);
      }
      db := db.(attachments := db.attachments[a := db.attachments[a].(detached := true)]);
      ok := PutEvent(id, DetachedEvent);
      if !ok {
        return Err(RepositoryFailed);
      }
      var updated := GetAttachmentRow(id, a);
      if updated.Err? {
        return Err(updated.error);
      }
      attachments := attachments - {a};
      r := Ok(false);
    }

    method Schedule(id: SessionId, owner: UserId, now: Time) returns (r: Option<DetachInfo>)
      modifies this
      ensures (Now(), r) == ScheduleDetachClose(fate, old(Now()), id, owner, now, detachTtl)
    {
      var _ := PutStatus(id, Detached, None);
      var info := DetachInfo(now, now + detachTtl);
      var handle := nextTimer;
      nextTimer := nextTimer + 1;
      if !(id in runtimes && runtimes[id].live.Some?) {
        return None;
      }
      var live := runtimes[id].live.value;
      if live.detachClose.Some? {
        return Some(live.detachClose.value.info);
      }
      timers := timers[handle := Timer(id, owner, now + detachTtl)];
      runtimes := runtimes[id := runtimes[id].(live := Some(LiveRuntime(Some(PendingClose(info, handle)))))];
      r := Some(info);
    }

    method Detach(owner: UserId, id: SessionId, a: AttachmentId, now: Time)
      returns (r: Result<Option<DetachInfo>, Error>)
      requires Valid()
      modifies this
      ensures Valid()
      ensures r.Ok? ==> attachments == old(attachments) - {a}
      ensures r.Ok? && r.value.Some? ==> !AnyAttached(Now(), id) && PendingOf(Now(), id).Some?
      ensures r.Ok? && r.value.Some? ==> PendingOf(Now(), id).value.info == r.value.value
      ensures r.Ok? && r.value.None? ==> runtimes == old(runtimes) && timers == old(timers)
      ensures r.Err? ==> runtimes == old(runtimes) && attachments == old(attachments) && timers == old(timers)
      ensures (Now(), r) == DetachAttachment(fate, old(Now()), owner, id, a, now, detachTtl)
    {
      DetachReg(fate, Now(), owner, id, a, now, detachTtl);
      DetachOutcome(fate, Now(), owner, id, a, now, detachTtl);
      var detached := DetachRow(owner, id, a);
      if detached.Err? {
        return Err(detached.error);
      }
      if detached.value {
        return Ok(None);
      }
      var anyRemaining := exists b :: b in attachments && attachments[b].session == id;
      var hasLive := id in runtimes && runtimes[id].live.Some?;
      if anyRemaining || !hasLive {
        return Ok(None);
      }
      var info := Schedule(id, owner, now);
      r := Ok(info);
    }

    /** The body of the timer task `t` once it wakes. */
    method ExpireDetachClose(t: TimerId, now: Time)
      requires Valid() && t in timers
      modifies this
      ensures Valid() && old(timers[t].session in db.rows)
      ensures var id := old(timers[t].session);
        if CallsSucceed(fate, old(db.calls), CloseCalls(old(Now()), id)) then Tomb(Now(), id)
        else Stranded(Now(), id) && PendingOf(Now(), id) == PendingOf(old(Now()), id)
      ensures Now() == Expire(fate, old(Now()), t, now)
    {
      FireReg(fate, Now(), t, now);
      ExpireOutcome(fate, Now(), t, now);
      UnarmedReg(Now(), t);
      var Timer(id, owner, _) := timers[t];
      timers := timers - {t};
      var stillPending := id in runtimes && runtimes[id].live.Some? && runtimes[id].live.value.detachClose.Some?;
      if !stillPending {
        return;
      }
      var _ := Close(id, owner, now);
    }

    /** The persisted part of a resize. */
    method Resize(owner: UserId, id: SessionId, cols: nat, rows: nat) returns (r: Result<(), Error>)
      requires Valid()
      modifies this`db
      ensures Valid()
      ensures r.Ok? <==>
        && ValidDim(cols) && ValidDim(rows) && OwnsOpen(old(Now()), owner, id)
        && CallsSucceed(fate, old(db.calls), 2)
      ensures db.rows == old(db.rows) && db.attachments == old(db.attachments)
      ensures db.events == if r.Ok? then Append(old(db.events), Event(id, ResizedEvent)) else old(db.events)
      ensures (Now(), r) == ResizeSession(fate, old(Now()), owner, id, cols, rows)
    {
      ResizeReg(fate, Now(), owner, id, cols, rows);
      ResizeOutcome(fate, Now(), owner, id, cols, rows);
      if !ValidDim(cols) {
        return Err(InvalidDimensions);
      }
      if !ValidDim(rows) {
        return Err(InvalidDimensions);
      }
      var got := Get(id, owner);
      if got.Err? {
        return Err(got.error);
      }
      if got.value.status.Closed? {
        return Err(SessionClosed);
      }
      var ok := PutEvent(id, ResizedEvent);
      if !ok {
        return Err(RepositoryFailed);
      }
      r := Ok(());
    }

    /** What the forwarder does once the bridge is gone. */
    method TearDown(id: SessionId, owner: UserId, now: Time)
      requires Valid()
      modifies this`db
      ensures Valid()
      ensures db.attachments == old(db.attachments)
      ensures db.rows ==
        if OwnsOpen(old(Now()), owner, id) && CallsSucceed(fate, old(db.calls), 2)
        then old(db.rows)[id := SessionRow(owner, Closed, Some(now))] else old(db.rows)
      ensures Now() == ForwarderTeardown(fate, old(Now()), id, owner, now)
    {
      TeardownReg(fate, Now(), id, owner, now);
      TeardownOutcome(fate, Now(), id, owner, now);
      var got := Get(id, owner);
      if got.Err? || got.value.status.Closed? {
        return;
      }
      var _ := PutStatus(id, Closed, Some(now));
      var _ := PutEvent(id, ClosedEvent);
    }
  }
}

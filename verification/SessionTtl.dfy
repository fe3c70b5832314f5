/** The detach timer: its deadline is fixed, it fires only for the detachment that armed it,
    and what its expiry does. */
module SessionTtl {
  import opened Common
  import opened SessionModel
  import opened SessionInvariants
  import opened T = SessionTheorems

  // ---------- the deadline never moves ----------

  ghost predicate SamePending(st: State, st': State, id: SessionId) {
    PendingOf(st, id).Some? && PendingOf(st', id).Some? ==> PendingOf(st', id) == PendingOf(st, id)
  }

  lemma DetachKeepsPending(
    fate: Fate, st: State, owner: UserId, k: SessionId, a: AttachmentId, now: Time, ttl: nat, id: SessionId)
    ensures SamePending(st, DetachAttachment(fate, st, owner, k, a, now, ttl).0, id)
  {
    DetachSessionFrame(fate, st, owner, k, a);
    var st1 := DetachSession(fate, st, owner, k, a).0;
    assert SetStatus(fate, st1, k, Detached, None).runtimes == st.runtimes;
  }

  lemma StartKeepsPending(fate: Fate, st: State, owner: UserId, k: SessionId, id: SessionId)
    ensures SamePending(st, StartLivePty(fate, st, owner, k).0, id)
  {
  }

  lemma StartFailedKeepsPending(fate: Fate, st: State, owner: UserId, k: SessionId, now: Time, id: SessionId)
    ensures SamePending(st, RecordPtyStartFailed(fate, st, owner, k, now).0, id)
  {
  }

  lemma CloseKeepsPending(fate: Fate, st: State, k: SessionId, owner: UserId, now: Time, id: SessionId)
    ensures SamePending(st, CloseSession(fate, st, k, owner, now).0, id)
  {
  }

  lemma AttachKeepsPending(fate: Fate, st: State, owner: UserId, k: SessionId, a: AttachmentId, id: SessionId)
    ensures SamePending(st, AttachSession(fate, st, owner, k, a).0, id)
  {
    AttachRuntimes(fate, st, owner, k, a);
  }

  ghost predicate SameRuntimes(st: State, st': State) {
    st'.runtimes == st.runtimes && st'.timers == st.timers && st'.nextTimer == st.nextTimer
  }

  lemma FinishAttachFrame(fate: Fate, st: State, owner: UserId, k: SessionId, a: AttachmentId, resumed: bool)
    ensures SameRuntimes(st, FinishAttach(fate, st, owner, k, a, resumed).0)
  {
  }

  lemma WriteAttachmentFrame(fate: Fate, st: State, owner: UserId, k: SessionId, a: AttachmentId, resumed: bool)
    ensures SameRuntimes(st, WriteAttachment(fate, st, owner, k, a, resumed).0)
  {
    var st1 := InsertAttachment(Called(st), k, a);
    FinishAttachFrame(fate, AddEvent(fate, st1, k, AttachedEvent), owner, k, a, resumed);
  }

  ghost predicate PassesGate(fate: Fate, st: State, k: SessionId, owner: UserId) {
    GetOwned(fate, st, k, owner).Ok? && !GetOwned(fate, st, k, owner).value.status.Closed?
  }

  /** Attaching changes the runtime registry only by cancelling the pending close. */
  lemma AttachRuntimes(fate: Fate, st: State, owner: UserId, k: SessionId, a: AttachmentId)
    ensures var st' := AttachSession(fate, st, owner, k, a).0;
      var via := if PassesGate(fate, st, k, owner) then CancelPendingClose(Called(st), k) else st;
      st'.nextTimer == st.nextTimer && st'.runtimes == via.runtimes && st'.timers == via.timers
  {
    var st1 := Called(st);
    WriteAttachmentFrame(fate, CancelPendingClose(st1, k), owner, k, a, PendingOf(st1, k).Some?);
  }

  /** Whatever happens in between, a pending close keeps the deadline it was given: no step
      replaces it, in particular not a repeated detach. */
  lemma DeadlineNeverMoves(fate: Fate, ttl: nat, st: State, step: Step, now: Time, id: SessionId)
    requires Possible(st, step, now)
    ensures SamePending(st, Next(fate, ttl, st, step, now), id)
  {
    match step
    case Start(owner, k) => StartKeepsPending(fate, st, owner, k, id);
    case StartFailed(owner, k) => StartFailedKeepsPending(fate, st, owner, k, now, id);
    case Close(k, owner) => CloseKeepsPending(fate, st, k, owner, now, id);
    case Attach(owner, k, a) => AttachKeepsPending(fate, st, owner, k, a, id);
    case DetachOnly(owner, k, a) => DetachSessionFrame(fate, st, owner, k, a);
    case Detach(owner, k, a) => DetachKeepsPending(fate, st, owner, k, a, now, ttl, id);
    case Fire(t) =>
      CloseKeepsPending(fate, st.(timers := st.timers - {t}), st.timers[t].session, st.timers[t].owner, now, id);
    case _ =>
  }

  // ---------- an aborted timer never fires ----------

  ghost predicate Spent(st: State, t: TimerId) {
    t < st.nextTimer && t !in st.timers
  }

  /** No timer is armed and the supply of identifiers does not go back. */
  ghost predicate NoneArmed(st: State, st': State) {
    st'.timers.Keys <= st.timers.Keys && st.nextTimer <= st'.nextTimer
  }

  lemma CloseArmsNone(fate: Fate, st: State, k: SessionId, owner: UserId, now: Time)
    ensures NoneArmed(st, CloseSession(fate, st, k, owner, now).0)
  {
  }

  lemma StartArmsNone(fate: Fate, st: State, owner: UserId, k: SessionId)
    ensures NoneArmed(st, StartLivePty(fate, st, owner, k).0)
  {
  }

  lemma StartFailedArmsNone(fate: Fate, st: State, owner: UserId, k: SessionId, now: Time)
    ensures NoneArmed(st, RecordPtyStartFailed(fate, st, owner, k, now).0)
  {
  }

  lemma DetachArmsFresh(fate: Fate, st: State, owner: UserId, k: SessionId, a: AttachmentId, now: Time, ttl: nat)
    ensures var st' := DetachAttachment(fate, st, owner, k, a, now, ttl).0;
      st'.timers.Keys <= st.timers.Keys + {st.nextTimer} && st.nextTimer <= st'.nextTimer
  {
    DetachSessionFrame(fate, st, owner, k, a);
    var st1 := DetachSession(fate, st, owner, k, a).0;
    var st2 := SetStatus(fate, st1, k, Detached, None);
    assert st2.timers == st.timers && st2.nextTimer == st.nextTimer;
  }

  lemma SpentStays(fate: Fate, ttl: nat, st: State, step: Step, now: Time, t: TimerId)
    requires Possible(st, step, now) && Spent(st, t)
    ensures Spent(Next(fate, ttl, st, step, now), t)
  {
    match step
    case Create(k, owner, cols, rows) =>
    case Start(owner, k) => StartArmsNone(fate, st, owner, k);
    case StartFailed(owner, k) => StartFailedArmsNone(fate, st, owner, k, now);
    case Close(k, owner) => CloseArmsNone(fate, st, k, owner, now);
    case Attach(owner, k, a) => AttachRuntimes(fate, st, owner, k, a);
    case DetachOnly(owner, k, a) => DetachSessionFrame(fate, st, owner, k, a);
    case Detach(owner, k, a) => DetachArmsFresh(fate, st, owner, k, a, now, ttl);
    case Fire(u) =>
      CloseArmsNone(fate, st.(timers := st.timers - {u}), st.timers[u].session, st.timers[u].owner, now);
    case Teardown(k, owner) =>
    case Resize(owner, k, cols, rows) =>
  }

  lemma {:induction false} SpentForever(fate: Fate, ttl: nat, st: State, steps: seq<Timed>, t: TimerId)
    requires Spent(st, t)
    ensures Spent(Run(fate, ttl, st, steps), t)
    decreases |steps|
  {
    if steps != [] {
      var Timed(step, now) := steps[0];
      if Possible(st, step, now) {
        SpentStays(fate, ttl, st, step, now, t);
        SpentForever(fate, ttl, Next(fate, ttl, st, step, now), steps[1..], t);
      } else {
        SpentForever(fate, ttl, st, steps[1..], t);
      }
    }
  }

  /** Reattaching to a session in its detach window disarms the timer for good, even if the
      attach itself then fails: no continuation can fire it. So an expiry only ever closes a
      session with no reattach since its timer was armed. */
  lemma ReattachDisarmsForever(
    fate: Fate, ttl: nat, st: State, owner: UserId, a: AttachmentId, t: TimerId, steps: seq<Timed>)
    requires T.Reachable(fate, ttl, st) && t in st.timers && owner == st.timers[t].owner
    requires fate(st.db.calls) && !T.StaysClosed(st, st.timers[t].session)
    ensures var st1 := AttachSession(fate, st, owner, st.timers[t].session, a).0;
      t !in Run(fate, ttl, st1, steps).timers
  {
    T.ReachableReg(fate, ttl, st);
    var id := st.timers[t].session;
    assert TimerOk(st, t);
    assert EntryOk(st, id);
    AttachRuntimes(fate, st, owner, id, a);
    SpentForever(fate, ttl, AttachSession(fate, st, owner, id, a).0, steps, t);
  }

  // ---------- what arming and expiry do ----------

  /** A detach reports a deadline exactly when it took effect on the last attachment of a live
      session; a failing status write does not matter. It then arms a timer for exactly `ttl`
      from now, unless a close is already pending, whose deadline is then reported. */
  lemma FinalDetachArms(fate: Fate, st: State, owner: UserId, id: SessionId, a: AttachmentId, now: Time, ttl: nat)
    ensures var (st', r) := DetachAttachment(fate, st, owner, id, a, now, ttl);
      && (r.Ok? && r.value.Some? <==>
            T.FinalDetachOfLive(st, owner, id, a) && T.CallsSucceed(fate, st.db.calls, 5))
      && (r.Ok? && r.value.Some? ==>
            && PendingOf(st', id).Some? && PendingOf(st', id).value.info == r.value.value
            && (PendingOf(st, id).None? ==>
                  && r.value.value == DetachInfo(now, now + ttl)
                  && PendingOf(st', id).value.timer in st'.timers
                  && st'.timers[PendingOf(st', id).value.timer] == Timer(id, owner, now + ttl))
            && (PendingOf(st, id).Some? ==> PendingOf(st', id) == PendingOf(st, id)))
  {
    T.FinalDetachOutcome(fate, st, owner, id, a);
    DetachSessionFrame(fate, st, owner, id, a);
    var st1 := DetachSession(fate, st, owner, id, a).0;
    assert SetStatus(fate, st1, id, Detached, None).runtimes == st.runtimes;
  }

  /** When a timer fires, its session is still in the very detach window that armed it, the
      window has run out, and no attachment of it is registered. */
  lemma FiresOnlyUnattended(fate: Fate, ttl: nat, st: State, t: TimerId, now: Time)
    requires T.Reachable(fate, ttl, st) && Possible(st, Fire(t), now)
    ensures var id := st.timers[t].session;
      && PendingOf(st, id).Some? && PendingOf(st, id).value.timer == t
      && PendingOf(st, id).value.info.expiresAt <= now
      && !AnyAttached(st, id)
  {
    T.ReachableReg(fate, ttl, st);
    assert TimerOk(st, t);
  }

  // ---------- a failed expiry strands the session ----------

  ghost predicate NoTimerFor(st: State, id: SessionId) {
    forall u | u in st.timers :: st.timers[u].session != id
  }

  /** A close is pending but no timer is left to carry it out. */
  ghost predicate Stranded(st: State, id: SessionId) {
    PendingOf(st, id).Some? && NoTimerFor(st, id)
  }

  /** The number of calls a close of `id` makes when all succeed. */
  function CloseCalls(st: State, id: SessionId): nat
    requires id in st.db.rows
  {
    if st.db.rows[id].status.Closed? then 1 else 4
  }

  lemma CloseOpenSucceedsIff(fate: Fate, st: State, id: SessionId, owner: UserId, now: Time)
    requires id in st.db.rows && st.db.rows[id].owner == owner
    ensures var (st', r) := CloseOpenRow(fate, st, id, owner, now);
      && (r.Ok? <==> fate(st.db.calls) && fate(st.db.calls + 1) && fate(st.db.calls + 2))
      && (r.Ok? ==> T.Tomb(st', id))
      && (r.Err? ==> SameRegistry(st, st'))
  {
  }

  /** `close_session` succeeds exactly for the owner of a row and when its calls do: one if the row
      is already Closed, four if not. It then leaves a tomb, with or without an entry before; a
      failure leaves the registries as before. */
  lemma CloseSucceedsIff(fate: Fate, st: State, id: SessionId, owner: UserId, now: Time)
    ensures var (st', r) := CloseSession(fate, st, id, owner, now);
      && (r.Ok? <==> id in st.db.rows && st.db.rows[id].owner == owner
                     && T.CallsSucceed(fate, st.db.calls, CloseCalls(st, id)))
      && (r.Ok? ==> T.Tomb(st', id))
      && (r.Err? ==> SameRegistry(st, st'))
  {
    var c := st.db.calls;
    assert T.CallsSucceed(fate, c, 1) <==> fate(c);
    assert T.CallsSucceed(fate, c, 4) <==> fate(c) && fate(c + 1) && fate(c + 2) && fate(c + 3);
    if id in st.db.rows && st.db.rows[id].owner == owner {
      CloseOpenSucceedsIff(fate, Called(st), id, owner, now);
    }
  }

  /** What one expiry leaves of its session: a tomb, or the pending close with no timer. */
  lemma ExpireOutcome(fate: Fate, st: State, t: TimerId, now: Time)
    requires RegInv(st) && t in st.timers
    ensures st.timers[t].session in st.db.rows
    ensures var id := st.timers[t].session;
      var st' := Expire(fate, st, t, now);
      if T.CallsSucceed(fate, st.db.calls, CloseCalls(st, id)) then T.Tomb(st', id)
      else Stranded(st', id) && PendingOf(st', id) == PendingOf(st, id)
  {
    var id := st.timers[t].session;
    var st0 := st.(timers := st.timers - {t});
    assert TimerOk(st, t);
    assert EntryOk(st, id);
    CloseSucceedsIff(fate, st0, id, st.timers[t].owner, now);
    forall u | u in st0.timers ensures st0.timers[u].session != id {
      assert TimerOk(st, u);
    }
  }

  /** Expiry closes the session for good exactly when the repository calls of its close succeed:
      one if the row is already Closed, four if not. Otherwise it strands the session, with the
      pending close as it was. */
  lemma ExpiryClosesOrStrands(fate: Fate, ttl: nat, st: State, t: TimerId, now: Time)
    requires T.Reachable(fate, ttl, st) && Possible(st, Fire(t), now)
    ensures st.timers[t].session in st.db.rows
    ensures var id := st.timers[t].session;
      var st' := Next(fate, ttl, st, Fire(t), now);
      && (T.Tomb(st', id) <==> T.CallsSucceed(fate, st.db.calls, CloseCalls(st, id)))
      && (Stranded(st', id) <==> !T.Tomb(st', id))
      && (Stranded(st', id) ==> PendingOf(st', id) == PendingOf(st, id))
  {
    T.ReachableReg(fate, ttl, st);
    ExpireOutcome(fate, st, t, now);
  }

  /** A step that can end a stranding: the session's own close, attach, start or failed start. */
  predicate Rescues(step: Step, id: SessionId) {
    match step
    case Start(_, k) => k == id
    case StartFailed(_, k) => k == id
    case Close(k, _) => k == id
    case Attach(_, k, _) => k == id
    case _ => false
  }

  /** `st'` has the same entry for `id` and arms no timer for it. */
  ghost predicate StillStranded(st: State, st': State, id: SessionId) {
    Stranded(st', id) && PendingOf(st', id) == PendingOf(st, id)
  }

  lemma ForgettingOtherStrands(st: State, k: SessionId, id: SessionId)
    requires Stranded(st, id) && k != id
    ensures StillStranded(st, RemoveRuntime(st, k), id)
    ensures StillStranded(st, EndRuntime(st, k), id)
    ensures StillStranded(st, CancelPendingClose(st, k), id)
  {
  }

  lemma DbOnlyStrands(st: State, st': State, id: SessionId)
    requires Stranded(st, id) && st'.runtimes == st.runtimes && st'.timers == st.timers
    ensures StillStranded(st, st', id)
  {
  }

  lemma CloseOtherStrands(fate: Fate, st: State, k: SessionId, owner: UserId, now: Time, id: SessionId)
    requires Stranded(st, id) && k != id
    ensures StillStranded(st, CloseSession(fate, st, k, owner, now).0, id)
  {
  }

  lemma StartOtherStrands(fate: Fate, st: State, owner: UserId, k: SessionId, id: SessionId)
    requires Stranded(st, id) && k != id
    ensures StillStranded(st, StartLivePty(fate, st, owner, k).0, id)
  {
  }

  lemma StartFailedOtherStrands(fate: Fate, st: State, owner: UserId, k: SessionId, now: Time, id: SessionId)
    requires Stranded(st, id) && k != id
    ensures StillStranded(st, RecordPtyStartFailed(fate, st, owner, k, now).0, id)
  {
    var st0 := EndRuntime(st, k);
    ForgettingOtherStrands(st, k, id);
    var st2 := SetStatus(fate, Called(st0), k, Closed, Some(now));
    DbOnlyStrands(st0, Called(st0), id);
    DbOnlyStrands(st0, st2, id);
    var st3 := DropAttachments(AddEvent(fate, st2, k, ClosedEvent), k);
    DbOnlyStrands(st0, st3, id);
    ForgettingOtherStrands(st3, k, id);
  }

  lemma AttachOtherStrands(fate: Fate, st: State, owner: UserId, k: SessionId, a: AttachmentId, id: SessionId)
    requires Stranded(st, id) && k != id
    ensures StillStranded(st, AttachSession(fate, st, owner, k, a).0, id)
  {
    AttachRuntimes(fate, st, owner, k, a);
    ForgettingOtherStrands(Called(st), k, id);
  }

  lemma FireOtherStrands(fate: Fate, st: State, t: TimerId, now: Time, id: SessionId)
    requires Stranded(st, id) && t in st.timers
    ensures StillStranded(st, Expire(fate, st, t, now), id)
  {
    CloseOtherStrands(fate, st.(timers := st.timers - {t}), st.timers[t].session, st.timers[t].owner, now, id);
  }

  lemma CreateStrands(fate: Fate, st: State, k: SessionId, owner: UserId, cols: nat, rows: nat, id: SessionId)
    requires RegInv(st) && Stranded(st, id)
    ensures StillStranded(st, CreateSession(fate, st, k, owner, cols, rows).0, id)
  {
    assert EntryOk(st, id);
  }

  /** Detaching from a stranded session finds the pending close and arms nothing. */
  lemma DetachStrands(
    fate: Fate, st: State, owner: UserId, k: SessionId, a: AttachmentId, now: Time, ttl: nat, id: SessionId)
    requires Stranded(st, id)
    ensures StillStranded(st, DetachAttachment(fate, st, owner, k, a, now, ttl).0, id)
  {
    DetachSessionFrame(fate, st, owner, k, a);
    var st1 := DetachSession(fate, st, owner, k, a).0;
    assert SameRuntimes(st1, SetStatus(fate, st1, k, Detached, None));
  }

  lemma TeardownStrands(fate: Fate, st: State, k: SessionId, owner: UserId, now: Time, id: SessionId)
    requires Stranded(st, id)
    ensures StillStranded(st, ForwarderTeardown(fate, st, k, owner, now), id)
  {
    DbOnlyStrands(st, ForwarderTeardown(fate, st, k, owner, now), id);
  }

  lemma ResizeStrands(fate: Fate, st: State, owner: UserId, k: SessionId, cols: nat, rows: nat, id: SessionId)
    requires Stranded(st, id)
    ensures StillStranded(st, ResizeSession(fate, st, owner, k, cols, rows).0, id)
  {
    DbOnlyStrands(st, ResizeSession(fate, st, owner, k, cols, rows).0, id);
  }

  lemma NextStrands(fate: Fate, ttl: nat, st: State, step: Step, now: Time, id: SessionId)
    requires RegInv(st) && Stranded(st, id) && Possible(st, step, now) && !Rescues(step, id)
    ensures StillStranded(st, Next(fate, ttl, st, step, now), id)
  {
    match step
    case Create(k, owner, cols, rows) => CreateStrands(fate, st, k, owner, cols, rows, id);
    case Start(owner, k) => StartOtherStrands(fate, st, owner, k, id);
    case StartFailed(owner, k) => StartFailedOtherStrands(fate, st, owner, k, now, id);
    case Close(k, owner) => CloseOtherStrands(fate, st, k, owner, now, id);
    case Attach(owner, k, a) => AttachOtherStrands(fate, st, owner, k, a, id);
    case DetachOnly(owner, k, a) => DetachSessionFrame(fate, st, owner, k, a);
    case Detach(owner, k, a) => DetachStrands(fate, st, owner, k, a, now, ttl, id);
    case Fire(t) => FireOtherStrands(fate, st, t, now, id);
    case Teardown(k, owner) => TeardownStrands(fate, st, k, owner, now, id);
    case Resize(owner, k, cols, rows) => ResizeStrands(fate, st, owner, k, cols, rows, id);
  }

  lemma {:induction false} RunStrands(fate: Fate, ttl: nat, st: State, steps: seq<Timed>, id: SessionId)
    requires RegInv(st) && Stranded(st, id)
    requires forall i | 0 <= i < |steps| :: !Rescues(steps[i].step, id)
    ensures StillStranded(st, Run(fate, ttl, st, steps), id)
    decreases |steps|
  {
    if steps != [] {
      var Timed(step, now) := steps[0];
      if Possible(st, step, now) {
        NextReg(fate, ttl, st, step, now);
        NextStrands(fate, ttl, st, step, now, id);
        RunStrands(fate, ttl, Next(fate, ttl, st, step, now), steps[1..], id);
      } else {
        RunStrands(fate, ttl, st, steps[1..], id);
      }
    }
  }

  /** A failed expiry is never retried: until the session's own close, attach, start or failed
      start, no run, however long and whatever else it does, ends the stranding. */
  lemma StrandedUntilRescued(fate: Fate, ttl: nat, st: State, steps: seq<Timed>, id: SessionId)
    requires T.Reachable(fate, ttl, st) && Stranded(st, id)
    requires forall i | 0 <= i < |steps| :: !Rescues(steps[i].step, id)
    ensures StillStranded(st, Run(fate, ttl, st, steps), id)
  {
    T.ReachableReg(fate, ttl, st);
    RunStrands(fate, ttl, st, steps, id);
  }

  /** `LiveAttached` after its only attachment left at `t`. */
  function Detaching(owner: UserId, ttl: nat, t: Time): State {
    var st := T.LiveAttached(owner);
    State(st.db.(rows := map[0 := SessionRow(owner, Detached, None)],
                 attachments := map[0 := AttachmentRow(0, true)],
                 events := Append(st.db.events, Event(0, DetachedEvent)), calls := 14),
          map[0 := RuntimeEntry(owner, RuntimeLive, Some(LiveRuntime(Some(PendingClose(DetachInfo(t, t + ttl), 0)))))],
          map[], map[0 := Timer(0, owner, t + ttl)], 1)
  }

  lemma DetachingRun(fate: Fate, ttl: nat, owner: UserId, t: Time)
    requires T.CallsSucceed(fate, 8, 6)
    ensures RunOne(fate, ttl, T.LiveAttached(owner), Detach(owner, 0, 0), t) == Detaching(owner, ttl, t)
  {
    var st := T.LiveAttached(owner);
    var st1 := DetachSession(fate, st, owner, 0, 0).0;
    assert st1.attached == map[] && st1.db.attachments == map[0 := AttachmentRow(0, true)] && st1.db.calls == 13;
    var st2 := SetStatus(fate, st1, 0, Detached, None);
    assert st2.db == Detaching(owner, ttl, t).db;
  }

  /** One failed repository call is enough: a session is created, started, attached to and left,
      and at the deadline the timer's first read fails. The row stays Detached, the live runtime
      stays bound, and no timer is left. */
  lemma FailedReadStrands(fate: Fate, ttl: nat, owner: UserId, t: Time)
    requires T.CallsSucceed(fate, 0, 14) && !fate(14)
    ensures var end := [Timed(Detach(owner, 0, 0), t), Timed(Fire(0), t + ttl)];
      var st := Run(fate, ttl, Initial(), T.AttachFirst(owner, t, end));
      && Stranded(st, 0) && PendingOf(st, 0).value.info == DetachInfo(t, t + ttl)
      && st.db.rows == map[0 := SessionRow(owner, Detached, None)] && st.attached == map[] && st.timers == map[]
  {
    var leave, fire := Timed(Detach(owner, 0, 0), t), Timed(Fire(0), t + ttl);
    T.AttachFirstRun(fate, ttl, owner, t, [leave, fire]);
    T.RunSteps(fate, ttl, T.LiveAttached(owner), leave, fire);
    DetachingRun(fate, ttl, owner, t);
  }
}

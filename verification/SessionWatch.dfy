/** Who watches a live PTY: a registered attachment or an armed detach timer. Exactly which steps
    leave one with neither, and that nothing but a step on the session itself ends that. */
module SessionWatch {
  import opened Common
  import opened SessionModel
  import opened SessionInvariants
  import opened T = SessionTheorems
  import opened SessionTtl
  import opened SessionOutcomes

  /** A live PTY with no registered attachment and no timer to close it. */
  ghost predicate Unwatched(st: State, id: SessionId) {
    HasLive(st, id) && !AnyAttached(st, id) && NoTimerFor(st, id)
  }

  // ---------- two more registry invariants ----------

  /** A registered attachment has a row, of the same session. */
  ghost predicate RegisteredRows(st: State) {
    forall a | a in st.attached ::
      a in st.db.attachments && st.db.attachments[a].session == st.attached[a].session
  }

  /** Pending closes of different sessions have different timers. */
  ghost predicate DistinctTimers(st: State) {
    forall i, j | i != j && PendingOf(st, i).Some? && PendingOf(st, j).Some? ::
      PendingOf(st, i).value.timer != PendingOf(st, j).value.timer
  }

  ghost predicate WatchInv(st: State) {
    RegInv(st) && RegisteredRows(st) && DistinctTimers(st)
  }

  /** `st'` differs from `st` only in session `k`: rows of attachments stay, other sessions keep
      their entries and registrations, and of the timers at most `k`'s own is aborted. */
  ghost predicate OnlySession(st: State, st': State, k: SessionId) {
    && st'.db.attachments == st.db.attachments
    && (forall i | i != k :: i in st'.runtimes <==> i in st.runtimes)
    && (forall i | i != k && i in st.runtimes :: st'.runtimes[i] == st.runtimes[i])
    && (st'.timers == st.timers || (k in st.runtimes && st'.timers == AbortTimer(st.timers, st.runtimes[k])))
    && (forall a | a in st'.attached :: a in st.attached && st'.attached[a] == st.attached[a])
    && (forall a | a in st.attached && st.attached[a].session != k :: a in st'.attached)
    && (PendingOf(st', k).Some? ==> PendingOf(st', k) == PendingOf(st, k))
  }

  ghost predicate Written(st: State, st': State) {
    SameRegistry(st, st') && st'.db.attachments == st.db.attachments
  }

  lemma WrittenOnly(st: State, st': State, k: SessionId)
    requires Written(st, st')
    ensures OnlySession(st, st', k)
  {
  }

  lemma WrittenThen(st: State, st1: State, st': State, k: SessionId)
    requires Written(st, st1) && OnlySession(st1, st', k)
    ensures OnlySession(st, st', k)
  {
    assert PendingOf(st1, k) == PendingOf(st, k);
  }

  lemma EntryOnly(st: State, k: SessionId)
    ensures OnlySession(st, RemoveRuntime(st, k), k)
    ensures OnlySession(st, DropAttachments(RemoveRuntime(st, k), k), k)
    ensures k in st.runtimes ==> OnlySession(st, InstallLive(st, k), k)
  {
  }

  lemma CreateOnly(fate: Fate, st: State, k: SessionId, owner: UserId, cols: nat, rows: nat)
    ensures OnlySession(st, CreateSession(fate, st, k, owner, cols, rows).0, k)
  {
    var st1 := Called(st).(db := Called(st).db.(rows := st.db.rows[k := SessionRow(owner, Starting, None)]));
    var st2 := AddEvent(fate, st1, k, CreatedEvent);
    WrittenOnly(st, st, k);
    WrittenOnly(st, Called(st), k);
    WrittenOnly(st, st2, k);
    var entry := RuntimeEntry(owner, RuntimeStarting, None);
    NewEntryOnly(st2, k, entry);
    WrittenThen(st, st2, st2.(runtimes := st2.runtimes[k := entry]), k);
  }

  lemma NewEntryOnly(st: State, k: SessionId, entry: RuntimeEntry)
    requires entry.live.None?
    ensures OnlySession(st, st.(runtimes := st.runtimes[k := entry]), k)
  {
  }

  lemma ActivateOnly(fate: Fate, st: State, owner: UserId, k: SessionId)
    requires k in st.runtimes
    ensures OnlySession(st, ActivateRow(fate, st, owner, k).0, k)
  {
    var st1 := SetStatus(fate, st, k, Active, None);
    WrittenOnly(st, st1, k);
    WrittenOnly(st, Called(st1), k);
    EntryOnly(Called(st1), k);
    WrittenThen(st, Called(st1), InstallLive(Called(st1), k), k);
  }

  lemma StartOnly(fate: Fate, st: State, owner: UserId, k: SessionId)
    ensures OnlySession(st, StartLivePty(fate, st, owner, k).0, k)
  {
    WrittenOnly(st, Called(st), k);
    if k in st.runtimes {
      ActivateOnly(fate, Called(st), owner, k);
      WrittenThen(st, Called(st), ActivateRow(fate, Called(st), owner, k).0, k);
    }
  }

  lemma EndOnly(st: State, st': State, k: SessionId)
    requires Written(EndRuntime(st, k), st')
    ensures OnlySession(st, st', k) && OnlySession(st, RemoveRuntime(DropAttachments(st', k), k), k)
  {
  }

  /** The status write and event of a close change no registry. */
  lemma CloseWritten(fate: Fate, st: State, k: SessionId, now: Time)
    ensures var st1 := SetStatus(fate, st, k, Closed, Some(now));
      Written(st, st1) && Written(st, AddEvent(fate, st1, k, ClosedEvent))
  {
  }

  lemma StartFailedOnly(fate: Fate, st: State, owner: UserId, k: SessionId, now: Time)
    ensures OnlySession(st, RecordPtyStartFailed(fate, st, owner, k, now).0, k)
  {
    var st0 := EndRuntime(st, k);
    var st1 := Called(st0);
    var st2 := SetStatus(fate, st1, k, Closed, Some(now));
    CloseWritten(fate, st1, k, now);
    assert Written(st0, st1) && Written(st0, st2);
    EndOnly(st, st1, k);
    EndOnly(st, st2, k);
    EndOnly(st, AddEvent(fate, st2, k, ClosedEvent), k);
  }

  lemma CloseOpenRowOnly(fate: Fate, st: State, k: SessionId, owner: UserId, now: Time)
    ensures OnlySession(st, CloseOpenRow(fate, st, k, owner, now).0, k)
  {
    var st1 := SetStatus(fate, st, k, Closed, Some(now));
    var st2 := AddEvent(fate, st1, k, ClosedEvent);
    CloseWritten(fate, st, k, now);
    WrittenOnly(st, st1, k);
    WrittenOnly(st, st2, k);
    WrittenOnly(st, Called(st2), k);
    EntryOnly(Called(st2), k);
    WrittenThen(st, Called(st2), DropAttachments(RemoveRuntime(Called(st2), k), k), k);
  }

  lemma CloseOnly(fate: Fate, st: State, k: SessionId, owner: UserId, now: Time)
    ensures OnlySession(st, CloseSession(fate, st, k, owner, now).0, k)
  {
    var st1 := Called(st);
    WrittenOnly(st, st1, k);
    EntryOnly(st1, k);
    WrittenThen(st, st1, RemoveRuntime(st1, k), k);
    CloseOpenRowOnly(fate, st1, k, owner, now);
    WrittenThen(st, st1, CloseOpenRow(fate, st1, k, owner, now).0, k);
  }

  /** A firing timer is its session's own. */
  lemma ExpireOnly(fate: Fate, st: State, t: TimerId, now: Time)
    requires RegInv(st) && t in st.timers
    ensures OnlySession(st, Expire(fate, st, t, now), st.timers[t].session)
  {
    var k, owner := st.timers[t].session, st.timers[t].owner;
    var st1 := st.(timers := st.timers - {t});
    assert TimerOk(st, t);
    CloseOnly(fate, st1, k, owner, now);
    var st' := CloseSession(fate, st1, k, owner, now).0;
    assert AbortTimer(st1.timers, st1.runtimes[k]) == AbortTimer(st.timers, st.runtimes[k]) == st1.timers;
    assert PendingOf(st1, k) == PendingOf(st, k);
  }

  lemma TeardownOnly(fate: Fate, st: State, k: SessionId, owner: UserId, now: Time)
    ensures OnlySession(st, ForwarderTeardown(fate, st, k, owner, now), k)
  {
    TeardownOutcome(fate, st, k, owner, now);
    WrittenOnly(st, ForwarderTeardown(fate, st, k, owner, now), k);
  }

  lemma ResizeOnly(fate: Fate, st: State, owner: UserId, k: SessionId, cols: nat, rows: nat)
    ensures OnlySession(st, ResizeSession(fate, st, owner, k, cols, rows).0, k)
  {
    ResizeOutcome(fate, st, owner, k, cols, rows);
    WrittenOnly(st, ResizeSession(fate, st, owner, k, cols, rows).0, k);
  }

  /** No close becomes pending. */
  ghost predicate NonePending(st: State, st': State) {
    forall i | PendingOf(st', i).Some? :: PendingOf(st', i) == PendingOf(st, i)
  }

  lemma NonePendingDistinct(st: State, st': State)
    requires DistinctTimers(st) && NonePending(st, st')
    ensures DistinctTimers(st')
  {
  }

  lemma OnlySessionInv(st: State, st': State, k: SessionId)
    requires WatchInv(st) && RegInv(st') && OnlySession(st, st', k)
    ensures WatchInv(st')
  {
    NonePendingDistinct(st, st');
  }

  /** Attachment rows stay with their session, and nothing is registered anew. */
  ghost predicate RowsStay(st: State, st': State) {
    && (forall a | a in st.db.attachments ::
          a in st'.db.attachments && st'.db.attachments[a].session == st.db.attachments[a].session)
    && (forall a | a in st'.attached :: a in st.attached && st'.attached[a] == st.attached[a])
  }

  lemma WriteDetachedQuiet(fate: Fate, st: State, k: SessionId, a: AttachmentId)
    requires a in st.db.attachments
    ensures RowsStay(st, WriteDetached(fate, st, k, a).0)
  {
  }

  lemma DetachSessionQuiet(fate: Fate, st: State, owner: UserId, k: SessionId, a: AttachmentId)
    ensures RowsStay(st, DetachSession(fate, st, owner, k, a).0)
    ensures NonePending(st, DetachSession(fate, st, owner, k, a).0)
  {
    DetachSessionFrame(fate, st, owner, k, a);
    var st2 := Called(Called(st));
    if a in st2.db.attachments {
      WriteDetachedQuiet(fate, st2, k, a);
    }
  }

  lemma DetachSessionInv(fate: Fate, st: State, owner: UserId, k: SessionId, a: AttachmentId)
    requires WatchInv(st)
    ensures WatchInv(DetachSession(fate, st, owner, k, a).0)
  {
    DetachSessionReg(fate, st, owner, k, a);
    DetachSessionQuiet(fate, st, owner, k, a);
    NonePendingDistinct(st, DetachSession(fate, st, owner, k, a).0);
  }

  /** The attachments an attach ends with: on failure as before, on success one more with its row. */
  lemma AttachRegistered(fate: Fate, st: State, owner: UserId, k: SessionId, a: AttachmentId)
    requires WatchInv(st)
    ensures RegisteredRows(AttachSession(fate, st, owner, k, a).0)
  {
    AttachOutcome(fate, st, owner, k, a);
    AttachRowsGrow(fate, st, owner, k, a);
  }

  lemma WriteAttachmentRows(fate: Fate, st: State, owner: UserId, k: SessionId, a: AttachmentId, resumed: bool)
    ensures var db := WriteAttachment(fate, st, owner, k, a, resumed).0.db;
      db.attachments == st.db.attachments
      || (a !in st.db.attachments && db.attachments == st.db.attachments[a := AttachmentRow(k, false)])
  {
  }

  lemma AttachRowsGrow(fate: Fate, st: State, owner: UserId, k: SessionId, a: AttachmentId)
    ensures var db := AttachSession(fate, st, owner, k, a).0.db;
      db.attachments == st.db.attachments
      || (a !in st.db.attachments && db.attachments == st.db.attachments[a := AttachmentRow(k, false)])
  {
    var st1 := Called(st);
    WriteAttachmentRows(fate, CancelPendingClose(st1, k), owner, k, a, PendingOf(st1, k).Some?);
  }

  lemma AttachInv(fate: Fate, st: State, owner: UserId, k: SessionId, a: AttachmentId)
    requires WatchInv(st)
    ensures WatchInv(AttachSession(fate, st, owner, k, a).0)
  {
    AttachReg(fate, st, owner, k, a);
    AttachRegistered(fate, st, owner, k, a);
    AttachRuntimes(fate, st, owner, k, a);
    NonePendingDistinct(st, AttachSession(fate, st, owner, k, a).0);
  }

  /** A close scheduled by a detach gets a timer no other pending close has. */
  lemma DetachInv(fate: Fate, st: State, owner: UserId, k: SessionId, a: AttachmentId, now: Time, ttl: nat)
    requires WatchInv(st)
    ensures WatchInv(DetachAttachment(fate, st, owner, k, a, now, ttl).0)
  {
    DetachReg(fate, st, owner, k, a, now, ttl);
    DetachSessionInv(fate, st, owner, k, a);
    var st1 := DetachSession(fate, st, owner, k, a).0;
    ScheduleInv(fate, st1, k, owner, now, ttl);
  }

  lemma ScheduleInv(fate: Fate, st: State, k: SessionId, owner: UserId, now: Time, ttl: nat)
    requires WatchInv(st)
    ensures var st' := ScheduleDetachClose(fate, st, k, owner, now, ttl).0;
      RegisteredRows(st') && DistinctTimers(st')
  {
    var st1 := SetStatus(fate, st, k, Detached, None);
    assert st1.runtimes == st.runtimes && st1.attached == st.attached && st1.db.attachments == st.db.attachments;
    forall i | PendingOf(st, i).Some? ensures PendingOf(st, i).value.timer < st.nextTimer {
    }
  }

  /** Every step but an attach or a detach changes one session only. */
  function Subject(st: State, step: Step): SessionId {
    match step
    case Fire(t) => if t in st.timers then st.timers[t].session else 0
    case _ => step.id
  }

  lemma NextOnly(fate: Fate, ttl: nat, st: State, step: Step, now: Time)
    requires RegInv(st) && Possible(st, step, now) && !step.Attach? && !step.DetachOnly? && !step.Detach?
    ensures OnlySession(st, Next(fate, ttl, st, step, now), Subject(st, step))
  {
    match step
    case Create(k, owner, cols, rows) => CreateOnly(fate, st, k, owner, cols, rows);
    case Start(owner, k) => StartOnly(fate, st, owner, k);
    case StartFailed(owner, k) => StartFailedOnly(fate, st, owner, k, now);
    case Close(k, owner) => CloseOnly(fate, st, k, owner, now);
    case Fire(t) => ExpireOnly(fate, st, t, now);
    case Teardown(k, owner) => TeardownOnly(fate, st, k, owner, now);
    case Resize(owner, k, cols, rows) => ResizeOnly(fate, st, owner, k, cols, rows);
  }

  lemma NextWatchInv(fate: Fate, ttl: nat, st: State, step: Step, now: Time)
    requires WatchInv(st) && Possible(st, step, now)
    ensures WatchInv(Next(fate, ttl, st, step, now))
  {
    match step
    case Attach(owner, k, a) => AttachInv(fate, st, owner, k, a);
    case DetachOnly(owner, k, a) => DetachSessionInv(fate, st, owner, k, a);
    case Detach(owner, k, a) => DetachInv(fate, st, owner, k, a, now, ttl);
    case _ =>
      NextReg(fate, ttl, st, step, now);
      NextOnly(fate, ttl, st, step, now);
      OnlySessionInv(st, Next(fate, ttl, st, step, now), Subject(st, step));
  }

  lemma {:induction false} RunWatchInv(fate: Fate, ttl: nat, st: State, steps: seq<Timed>)
    requires WatchInv(st)
    ensures WatchInv(Run(fate, ttl, st, steps))
    decreases |steps|
  {
    if steps != [] {
      var Timed(step, now) := steps[0];
      if Possible(st, step, now) {
        NextWatchInv(fate, ttl, st, step, now);
      }
      RunWatchInv(fate, ttl, RunOne(fate, ttl, st, step, now), steps[1..]);
    }
  }

  lemma ReachableWatchInv(fate: Fate, ttl: nat, st: State)
    requires T.Reachable(fate, ttl, st)
    ensures WatchInv(st)
  {
    var steps :| st == Run(fate, ttl, Initial(), steps);
    RunWatchInv(fate, ttl, Initial(), steps);
  }

  // ---------- steps on other sessions ----------

  ghost predicate SameWatch(st: State, st': State, id: SessionId) {
    && (HasLive(st', id) <==> HasLive(st, id))
    && (AnyAttached(st', id) <==> AnyAttached(st, id))
    && (NoTimerFor(st', id) <==> NoTimerFor(st, id))
  }

  /** Aborting one session's timer does not touch another's. */
  lemma AbortElsewhere(st: State, st': State, k: SessionId, id: SessionId)
    requires WatchInv(st) && k != id && k in st.runtimes && st'.timers == AbortTimer(st.timers, st.runtimes[k])
    ensures NoTimerFor(st', id) <==> NoTimerFor(st, id)
  {
    forall u | u in st.timers && st.timers[u].session == id ensures u in st'.timers {
      assert TimerOk(st, u);
      assert PendingOf(st, k).Some? ==> PendingOf(st, k).value.timer != u;
    }
  }

  lemma OtherWatch(st: State, st': State, k: SessionId, id: SessionId)
    requires WatchInv(st) && OnlySession(st, st', k) && k != id
    ensures SameWatch(st, st', id)
  {
    if st'.timers != st.timers {
      AbortElsewhere(st, st', k, id);
    }
    if AnyAttached(st, id) {
      var b :| b in st.attached && st.attached[b].session == id;
      assert b in st'.attached && st'.attached[b] == st.attached[b];
    }
  }

  lemma RegisterElsewhere(st: State, st': State, k: SessionId, a: AttachmentId, owner: UserId, id: SessionId)
    requires a !in st.attached && st'.attached == st.attached[a := AttachmentRuntime(k, owner)] && k != id
    ensures AnyAttached(st', id) <==> AnyAttached(st, id)
  {
    if AnyAttached(st, id) {
      var b :| b in st.attached && st.attached[b].session == id;
      assert b in st'.attached && st'.attached[b] == st.attached[b];
    }
  }

  lemma AttachElsewhere(fate: Fate, st: State, owner: UserId, k: SessionId, a: AttachmentId, id: SessionId)
    requires WatchInv(st) && k != id
    ensures SameWatch(st, AttachSession(fate, st, owner, k, a).0, id)
  {
    var (st', r) := AttachSession(fate, st, owner, k, a);
    AttachRuntimes(fate, st, owner, k, a);
    AttachOutcome(fate, st, owner, k, a);
    if st'.timers != st.timers {
      AbortElsewhere(st, st', k, id);
    }
    if r.Ok? {
      RegisterElsewhere(st, st', k, a, owner, id);
    }
  }

  lemma DetachSessionElsewhere(fate: Fate, st: State, owner: UserId, k: SessionId, a: AttachmentId, id: SessionId)
    requires WatchInv(st) && k != id
    ensures SameWatch(st, DetachSession(fate, st, owner, k, a).0, id)
  {
    var (st', r) := DetachSession(fate, st, owner, k, a);
    DetachSessionFrame(fate, st, owner, k, a);
    DetachSessionOutcome(fate, st, owner, k, a);
    if r.Ok? {
      assert a in st.db.attachments && st.db.attachments[a].session == k;
      OthersStayAttached(st, st', id, a);
    }
  }

  lemma ScheduleElsewhere(fate: Fate, st: State, k: SessionId, owner: UserId, now: Time, ttl: nat, id: SessionId)
    requires WatchInv(st) && k != id
    ensures SameWatch(st, ScheduleDetachClose(fate, st, k, owner, now, ttl).0, id)
  {
    var st1 := SetStatus(fate, st, k, Detached, None);
    assert SameRegistry(st, st1);
    var st' := ScheduleDetachClose(fate, st, k, owner, now, ttl).0;
    assert st.nextTimer !in st.timers by {
      assert st.nextTimer in st.timers ==> TimerOk(st, st.nextTimer);
    }
    forall u | u in st.timers ensures u in st'.timers && st'.timers[u] == st.timers[u] {
    }
  }

  lemma DetachElsewhere(
    fate: Fate, st: State, owner: UserId, k: SessionId, a: AttachmentId, now: Time, ttl: nat, id: SessionId)
    requires WatchInv(st) && k != id
    ensures SameWatch(st, DetachAttachment(fate, st, owner, k, a, now, ttl).0, id)
  {
    var st1 := DetachSession(fate, st, owner, k, a).0;
    DetachSessionElsewhere(fate, st, owner, k, a, id);
    DetachSessionInv(fate, st, owner, k, a);
    ScheduleElsewhere(fate, st1, k, owner, now, ttl, id);
  }

  lemma NextElsewhere(fate: Fate, ttl: nat, st: State, step: Step, now: Time, id: SessionId)
    requires WatchInv(st) && Possible(st, step, now) && Subject(st, step) != id
    ensures SameWatch(st, Next(fate, ttl, st, step, now), id)
  {
    match step
    case Attach(owner, k, a) => AttachElsewhere(fate, st, owner, k, a, id);
    case DetachOnly(owner, k, a) => DetachSessionElsewhere(fate, st, owner, k, a, id);
    case Detach(owner, k, a) => DetachElsewhere(fate, st, owner, k, a, now, ttl, id);
    case _ =>
      NextOnly(fate, ttl, st, step, now);
      OtherWatch(st, Next(fate, ttl, st, step, now), Subject(st, step), id);
  }

  // ---------- steps on the session itself ----------

  /** `a` is the only registered attachment of the owner's live session. */
  ghost predicate SoleAttachment(st: State, owner: UserId, id: SessionId, a: AttachmentId) {
    && HasLive(st, id) && id in st.db.rows && st.db.rows[id].owner == owner
    && a in st.attached && st.attached[a].session == id
    && (forall b | b in st.attached && st.attached[b].session == id :: b == a)
  }

  /** The calls of a detach that unregisters `a`: two if its row is already detached, else five. */
  function DetachCalls(st: State, a: AttachmentId): nat
    requires a in st.db.attachments
  {
    if st.db.attachments[a].detached then 2 else 5
  }

  /** The step leaves the session's PTY live with nobody attached and no timer:
      - a start that succeeds while nobody is attached;
      - an attach in a detach window that passes the gate, and so cancels the timer, and then
        fails in one of its next three calls or on a used attachment identifier;
      - a bare `detach_session` of the sole attachment;
      - a `detach_attachment` of the sole attachment whose row an earlier one already marked;
      - an expiry whose close fails. */
  ghost predicate LosesWatch(fate: Fate, st: State, step: Step, id: SessionId) {
    var c := st.db.calls;
    Subject(st, step) == id &&
    match step
    case Start(owner, _) =>
      OwnsOpen(st, owner, id) && id in st.runtimes && CallsSucceed(fate, c, 3) && !AnyAttached(st, id)
    case Attach(owner, _, a) =>
      && !NoTimerFor(st, id) && OwnsOpen(st, owner, id) && fate(c)
      && (a in st.db.attachments || !CallsSucceed(fate, c + 1, 3))
    case DetachOnly(owner, _, a) =>
      && a in st.db.attachments && SoleAttachment(st, owner, id, a)
      && CallsSucceed(fate, c, DetachCalls(st, a))
    case Detach(owner, _, a) =>
      && a in st.db.attachments && SoleAttachment(st, owner, id, a)
      && st.db.attachments[a].detached && CallsSucceed(fate, c, 2)
    case Fire(t) => t in st.timers && id in st.db.rows && !CallsSucceed(fate, c, CloseCalls(st, id))
    case _ => false
  }

  lemma StartLoses(fate: Fate, st: State, owner: UserId, id: SessionId)
    requires WatchInv(st) && !Unwatched(st, id)
    ensures Unwatched(StartLivePty(fate, st, owner, id).0, id) <==> LosesWatch(fate, st, Start(owner, id), id)
  {
    StartOutcome(fate, st, owner, id);
    var (st', r) := StartLivePty(fate, st, owner, id);
    assert st'.attached == st.attached;
    assert AnyAttached(st', id) <==> AnyAttached(st, id);
  }

  /** In a detach window, past the gate, an attach succeeds exactly for a fresh identifier and
      three more working calls. */
  lemma AttachSucceedsIff(fate: Fate, st: State, owner: UserId, id: SessionId, a: AttachmentId)
    requires OwnsOpen(st, owner, id) && fate(st.db.calls) && PendingOf(st, id).Some?
    ensures AttachSession(fate, st, owner, id, a).1.Ok?
       <==> a !in st.db.attachments && CallsSucceed(fate, st.db.calls + 1, 3)
  {
    FirstCalls(fate, st.db.calls + 1);
    var st2 := CancelPendingClose(Called(st), id);
    assert st2.db == Called(st).db;
  }

  lemma AttachLoses(fate: Fate, st: State, owner: UserId, id: SessionId, a: AttachmentId)
    requires WatchInv(st) && !Unwatched(st, id)
    ensures Unwatched(AttachSession(fate, st, owner, id, a).0, id) <==> LosesWatch(fate, st, Attach(owner, id, a), id)
  {
    var (st', r) := AttachSession(fate, st, owner, id, a);
    AttachOutcome(fate, st, owner, id, a);
    AttachRuntimes(fate, st, owner, id, a);
    if NoTimerFor(st, id) {
      AttachKeepsWatch(fate, st, owner, id, a);
    } else {
      var t :| t in st.timers && st.timers[t].session == id;
      assert TimerOk(st, t);
      assert !AnyAttached(st, id);
      if PassesGate(fate, st, id, owner) {
        AttachSucceedsIff(fate, st, owner, id, a);
        AttachReg(fate, st, owner, id, a);
        NotPendingNoTimer(st', id);
        if r.Ok? {
          assert a in st'.attached && st'.attached[a].session == id;
        } else {
          assert AnyAttached(st', id) <==> AnyAttached(st, id);
        }
      } else {
        assert t in st'.timers;
      }
    }
  }

  lemma AttachKeepsWatch(fate: Fate, st: State, owner: UserId, id: SessionId, a: AttachmentId)
    requires WatchInv(st) && !Unwatched(st, id) && NoTimerFor(st, id)
    ensures !Unwatched(AttachSession(fate, st, owner, id, a).0, id)
  {
    var (st', r) := AttachSession(fate, st, owner, id, a);
    AttachOutcome(fate, st, owner, id, a);
    AttachRuntimes(fate, st, owner, id, a);
    if AnyAttached(st, id) {
      var b :| b in st.attached && st.attached[b].session == id;
      assert b in st'.attached && st'.attached[b].session == id;
    }
  }

  /** A detach unregisters exactly when its caller owns the session, the attachment is one of its
      own and its calls succeed. */
  lemma UnregistersIff(fate: Fate, st: State, owner: UserId, id: SessionId, a: AttachmentId)
    requires a in st.db.attachments && st.db.attachments[a].session == id
    ensures var r := DetachSession(fate, st, owner, id, a).1;
      && (r.Ok? <==> id in st.db.rows && st.db.rows[id].owner == owner
                     && CallsSucceed(fate, st.db.calls, DetachCalls(st, a)))
      && (r == Ok(true) ==> st.db.attachments[a].detached)
      && (r == Ok(false) ==> !st.db.attachments[a].detached)
  {
    FirstCalls(fate, st.db.calls);
    DetachedIff(fate, st, owner, id, a);
  }

  lemma DetachSessionLoses(fate: Fate, st: State, owner: UserId, id: SessionId, a: AttachmentId)
    requires WatchInv(st) && !Unwatched(st, id)
    ensures Unwatched(DetachSession(fate, st, owner, id, a).0, id)
       <==> LosesWatch(fate, st, DetachOnly(owner, id, a), id)
  {
    var (st', r) := DetachSession(fate, st, owner, id, a);
    DetachSessionFrame(fate, st, owner, id, a);
    DetachSessionOutcome(fate, st, owner, id, a);
    if a in st.db.attachments && st.db.attachments[a].session == id {
      UnregistersIff(fate, st, owner, id, a);
    }
    if r.Ok? {
      OthersStayAttached(st, st', id, a);
      AttachedMeansNoTimer(st, id);
    } else {
      assert AnyAttached(st', id) <==> AnyAttached(st, id);
    }
  }

  lemma AttachedMeansNoTimer(st: State, id: SessionId)
    requires RegInv(st)
    ensures AnyAttached(st, id) ==> NoTimerFor(st, id)
  {
    if AnyAttached(st, id) {
      NotPendingNoTimer(st, id);
    }
  }

  lemma DetachLoses(fate: Fate, st: State, owner: UserId, id: SessionId, a: AttachmentId, now: Time, ttl: nat)
    requires WatchInv(st) && !Unwatched(st, id)
    ensures Unwatched(DetachAttachment(fate, st, owner, id, a, now, ttl).0, id)
       <==> LosesWatch(fate, st, Detach(owner, id, a), id)
  {
    var (st1, r) := DetachSession(fate, st, owner, id, a);
    DetachSessionLoses(fate, st, owner, id, a);
    if a in st.db.attachments && st.db.attachments[a].session == id {
      UnregistersIff(fate, st, owner, id, a);
    }
    if r == Ok(false) && !AnyAttached(st1, id) && HasLive(st1, id) {
      DetachArmsOrKeeps(fate, st, owner, id, a, now, ttl);
    }
  }

  /** A final detach of a watched session leaves it with a timer. */
  lemma DetachArmsOrKeeps(fate: Fate, st: State, owner: UserId, id: SessionId, a: AttachmentId, now: Time, ttl: nat)
    requires WatchInv(st) && !Unwatched(st, id)
    requires var (st1, r) := DetachSession(fate, st, owner, id, a);
      r == Ok(false) && !AnyAttached(st1, id) && HasLive(st1, id)
    ensures !NoTimerFor(DetachAttachment(fate, st, owner, id, a, now, ttl).0, id)
  {
    FinalDetachOutcome(fate, st, owner, id, a);
    FinalDetachArms(fate, st, owner, id, a, now, ttl);
    var (st1, _) := DetachSession(fate, st, owner, id, a);
    DetachSessionFrame(fate, st, owner, id, a);
    if PendingOf(st, id).Some? {
      assert !AnyAttached(st, id);
      var u :| u in st.timers && st.timers[u].session == id;
      var st2 := SetStatus(fate, st1, id, Detached, None);
      assert u in st2.timers && st2.timers[u] == st.timers[u];
    }
  }

  lemma FireLoses(fate: Fate, st: State, t: TimerId, now: Time)
    requires WatchInv(st) && t in st.timers
    ensures var id := st.timers[t].session;
      Unwatched(Expire(fate, st, t, now), id) <==> LosesWatch(fate, st, Fire(t), id)
  {
    var id := st.timers[t].session;
    ExpireOutcome(fate, st, t, now);
    FireReg(fate, st, t, now);
  }

  lemma CreateLoses(fate: Fate, st: State, id: SessionId, owner: UserId, cols: nat, rows: nat)
    requires WatchInv(st) && !Unwatched(st, id)
    ensures !Unwatched(CreateSession(fate, st, id, owner, cols, rows).0, id)
  {
    CreateOutcome(fate, st, id, owner, cols, rows);
  }

  lemma NextLoses(fate: Fate, ttl: nat, st: State, step: Step, now: Time, id: SessionId)
    requires WatchInv(st) && Possible(st, step, now) && Subject(st, step) == id && !Unwatched(st, id)
    ensures Unwatched(Next(fate, ttl, st, step, now), id) <==> LosesWatch(fate, st, step, id)
  {
    match step
    case Create(_, owner, cols, rows) => CreateLoses(fate, st, id, owner, cols, rows);
    case Start(owner, _) => StartLoses(fate, st, owner, id);
    case StartFailed(owner, _) => StartFailedOutcome(fate, st, owner, id, now);
    case Close(_, owner) => CloseOutcome(fate, st, id, owner, now);
    case Attach(owner, _, a) => AttachLoses(fate, st, owner, id, a);
    case DetachOnly(owner, _, a) => DetachSessionLoses(fate, st, owner, id, a);
    case Detach(owner, _, a) => DetachLoses(fate, st, owner, id, a, now, ttl);
    case Fire(t) => FireLoses(fate, st, t, now);
    case Teardown(_, owner) => TeardownOutcome(fate, st, id, owner, now);
    case Resize(owner, _, cols, rows) => ResizeOutcome(fate, st, owner, id, cols, rows);
  }

  // ---------- the theorems ----------

  /** Exactly when a step of the manager leaves a live PTY unwatched, for every failure pattern.
      The detach window's promise, that an unattended session is closed in bounded time, holds
      for a session through every step but these. */
  lemma LosesWatchIff(fate: Fate, ttl: nat, st: State, step: Step, now: Time, id: SessionId)
    requires T.Reachable(fate, ttl, st) && Possible(st, step, now) && !Unwatched(st, id)
    ensures Unwatched(Next(fate, ttl, st, step, now), id) <==> LosesWatch(fate, st, step, id)
  {
    ReachableWatchInv(fate, ttl, st);
    if Subject(st, step) == id {
      NextLoses(fate, ttl, st, step, now, id);
    } else {
      NextElsewhere(fate, ttl, st, step, now, id);
    }
  }

  /** A step that can end an unwatched state: one that can end a stranding, or a detach. */
  predicate MayRescue(step: Step, id: SessionId) {
    Rescues(step, id) || (step.Detach? && step.id == id)
  }

  lemma NextStaysUnwatched(fate: Fate, ttl: nat, st: State, step: Step, now: Time, id: SessionId)
    requires WatchInv(st) && Unwatched(st, id) && Possible(st, step, now) && !MayRescue(step, id)
    ensures Unwatched(Next(fate, ttl, st, step, now), id)
  {
    if Subject(st, step) != id {
      NextElsewhere(fate, ttl, st, step, now, id);
    } else {
      match step
      case Create(_, owner, cols, rows) =>
        assert EntryOk(st, id);
        CreateOutcome(fate, st, id, owner, cols, rows);
      case DetachOnly(owner, _, a) => DetachSessionFrame(fate, st, owner, id, a);
      case Teardown(_, owner) => TeardownOutcome(fate, st, id, owner, now);
      case Resize(owner, _, cols, rows) => ResizeOutcome(fate, st, owner, id, cols, rows);
    }
  }

  lemma {:induction false} RunStaysUnwatched(fate: Fate, ttl: nat, st: State, steps: seq<Timed>, id: SessionId)
    requires WatchInv(st) && Unwatched(st, id)
    requires forall i | 0 <= i < |steps| :: !MayRescue(steps[i].step, id)
    ensures Unwatched(Run(fate, ttl, st, steps), id)
    decreases |steps|
  {
    if steps != [] {
      var Timed(step, now) := steps[0];
      if Possible(st, step, now) {
        NextWatchInv(fate, ttl, st, step, now);
        NextStaysUnwatched(fate, ttl, st, step, now, id);
      }
      RunStaysUnwatched(fate, ttl, RunOne(fate, ttl, st, step, now), steps[1..], id);
    }
  }

  /** Until the session's own close, attach, start, failed start or detach, no run, however long
      and whatever else it does, closes the unwatched PTY or arms a timer for it. */
  lemma UnwatchedUntilRescued(fate: Fate, ttl: nat, st: State, steps: seq<Timed>, id: SessionId)
    requires T.Reachable(fate, ttl, st) && Unwatched(st, id)
    requires forall i | 0 <= i < |steps| :: !MayRescue(steps[i].step, id)
    ensures Unwatched(Run(fate, ttl, st, steps), id)
  {
    ReachableWatchInv(fate, ttl, st);
    RunStaysUnwatched(fate, ttl, st, steps, id);
  }

  // ---------- concrete runs ----------

  /** One failed insert: a session is created, started, attached to and left; a reattach cancels
      the timer and then cannot write its attachment row. The row stays Detached, no close is
      pending, and nothing is left to close the PTY. */
  lemma FailedReattachUnwatches(fate: Fate, ttl: nat, owner: UserId, t: Time)
    requires CallsSucceed(fate, 0, 15) && !fate(15)
    ensures var end := [Timed(Detach(owner, 0, 0), t), Timed(Attach(owner, 0, 1), t)];
      var st := Run(fate, ttl, Initial(), AttachFirst(owner, t, end));
      && Unwatched(st, 0) && PendingOf(st, 0).None?
      && st.db.rows == map[0 := SessionRow(owner, Detached, None)]
  {
    var leave, back := Timed(Detach(owner, 0, 0), t), Timed(Attach(owner, 0, 1), t);
    AttachFirstRun(fate, ttl, owner, t, [leave, back]);
    RunSteps(fate, ttl, LiveAttached(owner), leave, back);
    DetachingRun(fate, ttl, owner, t);
  }

  /** No failure at all: the socket's bare `detach_session` of the only attachment. */
  lemma BareDetachUnwatches(fate: Fate, ttl: nat, owner: UserId, t: Time)
    requires CallsSucceed(fate, 0, 13)
    ensures var st := Run(fate, ttl, Initial(), AttachFirst(owner, t, [Timed(DetachOnly(owner, 0, 0), t)]));
      && Unwatched(st, 0) && PendingOf(st, 0).None?
      && st.db.rows == map[0 := SessionRow(owner, Active, None)]
  {
    var leave := Timed(DetachOnly(owner, 0, 0), t);
    AttachFirstRun(fate, ttl, owner, t, [leave]);
    RunSteps(fate, ttl, LiveAttached(owner), leave, leave);
    DetachedIff(fate, LiveAttached(owner), owner, 0, 0);
    DetachSessionFrame(fate, LiveAttached(owner), owner, 0, 0);
  }

  /** `LiveAttached` after a detach whose event could not be written: marked, still registered. */
  function HalfDetached(owner: UserId): State {
    var st := LiveAttached(owner);
    st.(db := st.db.(attachments := map[0 := AttachmentRow(0, true)], calls := 12))
  }

  lemma HalfDetachedRun(fate: Fate, ttl: nat, owner: UserId, t: Time)
    requires CallsSucceed(fate, 8, 3) && !fate(11)
    ensures RunOne(fate, ttl, LiveAttached(owner), Detach(owner, 0, 0), t) == HalfDetached(owner)
  {
    var st := MarkDetached(Called(Called(Called(LiveAttached(owner)))), 0);
    assert st.db.attachments == HalfDetached(owner).db.attachments;
  }

  /** A detach that failed half-way and is retried: the retry finds the row already detached,
      unregisters, and schedules nothing. */
  lemma RetriedDetachUnwatches(fate: Fate, ttl: nat, owner: UserId, t: Time)
    requires CallsSucceed(fate, 0, 11) && !fate(11) && CallsSucceed(fate, 12, 2)
    ensures var leave := Timed(Detach(owner, 0, 0), t);
      var st := Run(fate, ttl, Initial(), AttachFirst(owner, t, [leave, leave]));
      Unwatched(st, 0) && PendingOf(st, 0).None?
  {
    var leave := Timed(Detach(owner, 0, 0), t);
    AttachFirstRun(fate, ttl, owner, t, [leave, leave]);
    RunSteps(fate, ttl, LiveAttached(owner), leave, leave);
    HalfDetachedRun(fate, ttl, owner, t);
  }
}

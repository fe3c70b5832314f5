/** The session lifecycle's guarantees over whole runs, and exactly where they stop. */
module SessionTheorems {
  import opened Common
  import opened SessionModel
  import opened SessionInvariants

  ghost predicate Reachable(fate: Fate, ttl: nat, st: State) {
    exists steps: seq<Timed> :: st == Run(fate, ttl, Initial(), steps)
  }

  lemma ReachableReg(fate: Fate, ttl: nat, st: State)
    requires Reachable(fate, ttl, st)
    ensures RegInv(st)
  {
    var steps :| st == Run(fate, ttl, Initial(), steps);
    RunReg(fate, ttl, Initial(), steps);
  }

  /** Registry invariant in every reachable state: `live` is bound exactly when the runtime
      status is Live, entries belong to their row's owner, and a pending close exists only
      while no attachment of that session is registered. */
  lemma RegistryInvariant(fate: Fate, ttl: nat, st: State)
    requires Reachable(fate, ttl, st)
    ensures forall id | id in st.runtimes ::
      && (st.runtimes[id].live.Some? <==> st.runtimes[id].status.RuntimeLive?)
      && id in st.db.rows && st.db.rows[id].owner == st.runtimes[id].owner
    ensures forall id, a | PendingOf(st, id).Some? && a in st.attached :: st.attached[a].session != id
  {
    ReachableReg(fate, ttl, st);
    forall id | id in st.runtimes ensures EntryOk(st, id) {
    }
  }

  // ---------- Closed is absorbing after a successful close ----------

  /** The session's row is Closed and it has no runtime entry. */
  ghost predicate Tomb(st: State, id: SessionId) {
    id in st.db.rows && st.db.rows[id].status.Closed? && id !in st.runtimes
  }

  function ClosedEvents(st: State, id: SessionId): nat {
    st.db.events.Count(Event(id, ClosedEvent))
  }

  /** `close_session` returning Ok always leaves a tomb, even if the row was already Closed. */
  lemma CloseOkLeavesTomb(fate: Fate, st: State, id: SessionId, owner: UserId, now: Time)
    requires CloseSession(fate, st, id, owner, now).1.Ok?
    ensures Tomb(CloseSession(fate, st, id, owner, now).0, id)
  {
  }

  /** Nothing of a tomb changes: the row, the absent entry, and the Closed events. */
  ghost predicate TombKept(st: State, st': State, id: SessionId) {
    Tomb(st, id) && Tomb(st', id) && st'.db.rows[id] == st.db.rows[id] && ClosedEvents(st', id) == ClosedEvents(st, id)
  }

  lemma OtherEvent(fate: Fate, st: State, k: SessionId, kind: EventKind, id: SessionId)
    requires k != id || !kind.ClosedEvent?
    ensures ClosedEvents(AddEvent(fate, st, k, kind), id) == ClosedEvents(st, id)
  {
  }

  /** Writes aimed at another session leave a tomb alone. */
  lemma OthersKeepTomb(fate: Fate, st: State, k: SessionId, status: RowStatus, at: Option<Time>, id: SessionId)
    requires Tomb(st, id) && k != id
    ensures TombKept(st, SetStatus(fate, st, k, status, at), id)
  {
  }

  lemma TombChain(st: State, st1: State, st2: State, id: SessionId)
    requires TombKept(st, st1, id) && TombKept(st1, st2, id)
    ensures TombKept(st, st2, id)
  {
  }

  lemma EventKeepsTomb(fate: Fate, st: State, k: SessionId, kind: EventKind, id: SessionId)
    requires Tomb(st, id) && (k != id || !kind.ClosedEvent?)
    ensures TombKept(st, AddEvent(fate, st, k, kind), id)
  {
    OtherEvent(fate, st, k, kind, id);
  }

  lemma ForgettingKeepsTomb(st: State, k: SessionId, id: SessionId)
    requires Tomb(st, id)
    ensures TombKept(st, Called(st), id)
    ensures TombKept(st, RemoveRuntime(st, k), id)
    ensures TombKept(st, EndRuntime(st, k), id)
    ensures TombKept(st, DropAttachments(st, k), id)
  {
  }

  /** The status write and event of a close of another session. */
  lemma CloseWritesKeepTomb(fate: Fate, st: State, k: SessionId, now: Time, id: SessionId)
    requires Tomb(st, id) && k != id
    ensures var st1 := SetStatus(fate, st, k, Closed, Some(now));
      TombKept(st, st1, id) && TombKept(st, AddEvent(fate, st1, k, ClosedEvent), id)
  {
    OthersKeepTomb(fate, st, k, Closed, Some(now), id);
    var st1 := SetStatus(fate, st, k, Closed, Some(now));
    EventKeepsTomb(fate, st1, k, ClosedEvent, id);
    TombChain(st, st1, AddEvent(fate, st1, k, ClosedEvent), id);
  }

  lemma CreateKeepsTomb(fate: Fate, st: State, k: SessionId, owner: UserId, cols: nat, rows: nat, id: SessionId)
    requires Tomb(st, id)
    ensures TombKept(st, CreateSession(fate, st, k, owner, cols, rows).0, id)
  {
    var st1 := Called(st).(db := Called(st).db.(rows := st.db.rows[k := SessionRow(owner, Starting, None)]));
    OtherEvent(fate, st1, k, CreatedEvent, id);
  }

  lemma ActivateKeepsTomb(fate: Fate, st: State, owner: UserId, k: SessionId, id: SessionId)
    requires Tomb(st, id) && k != id && k in st.runtimes
    ensures TombKept(st, ActivateRow(fate, st, owner, k).0, id)
  {
    OthersKeepTomb(fate, st, k, Active, None, id);
  }

  lemma StartKeepsTomb(fate: Fate, st: State, owner: UserId, k: SessionId, id: SessionId)
    requires Tomb(st, id)
    ensures TombKept(st, StartLivePty(fate, st, owner, k).0, id)
  {
    if k != id && k in st.runtimes {
      ActivateKeepsTomb(fate, Called(st), owner, k, id);
    }
  }

  lemma StartFailedKeepsTomb(fate: Fate, st: State, owner: UserId, k: SessionId, now: Time, id: SessionId)
    requires Tomb(st, id)
    ensures TombKept(st, RecordPtyStartFailed(fate, st, owner, k, now).0, id)
  {
    var st0 := EndRuntime(st, k);
    ForgettingKeepsTomb(st, k, id);
    ForgettingKeepsTomb(st0, k, id);
    TombChain(st, st0, Called(st0), id);
    if k != id {
      CloseWritesKeepTomb(fate, Called(st0), k, now, id);
      var st2 := SetStatus(fate, Called(st0), k, Closed, Some(now));
      TombChain(st, Called(st0), st2, id);
      var st3 := AddEvent(fate, st2, k, ClosedEvent);
      TombChain(st, Called(st0), st3, id);
      ForgettingKeepsTomb(st3, k, id);
      ForgettingKeepsTomb(DropAttachments(st3, k), k, id);
    }
  }

  lemma CloseTailKeepsTomb(st: State, k: SessionId, id: SessionId)
    requires Tomb(st, id)
    ensures TombKept(st, Called(st), id) && TombKept(st, DropAttachments(RemoveRuntime(Called(st), k), k), id)
  {
    ForgettingKeepsTomb(st, k, id);
    ForgettingKeepsTomb(Called(st), k, id);
    ForgettingKeepsTomb(RemoveRuntime(Called(st), k), k, id);
  }

  lemma CloseOtherKeepsTomb(fate: Fate, st: State, k: SessionId, owner: UserId, now: Time, id: SessionId)
    requires Tomb(st, id) && k != id
    ensures TombKept(st, CloseOpenRow(fate, st, k, owner, now).0, id)
  {
    CloseWritesKeepTomb(fate, st, k, now, id);
    var st2 := AddEvent(fate, SetStatus(fate, st, k, Closed, Some(now)), k, ClosedEvent);
    CloseTailKeepsTomb(st2, k, id);
    TombChain(st, st2, Called(st2), id);
    TombChain(st, st2, DropAttachments(RemoveRuntime(Called(st2), k), k), id);
  }

  lemma CloseKeepsTomb(fate: Fate, st: State, k: SessionId, owner: UserId, now: Time, id: SessionId)
    requires Tomb(st, id)
    ensures TombKept(st, CloseSession(fate, st, k, owner, now).0, id)
  {
    if k != id {
      var st1 := Called(st);
      ForgettingKeepsTomb(st, k, id);
      ForgettingKeepsTomb(st1, k, id);
      TombChain(st, st1, RemoveRuntime(st1, k), id);
      CloseOtherKeepsTomb(fate, st1, k, owner, now, id);
      TombChain(st, st1, CloseOpenRow(fate, st1, k, owner, now).0, id);
    }
  }

  lemma FinishAttachKeepsTomb(
    fate: Fate, st: State, owner: UserId, k: SessionId, a: AttachmentId, resumed: bool, id: SessionId)
    requires Tomb(st, id) && k != id
    ensures TombKept(st, FinishAttach(fate, st, owner, k, a, resumed).0, id)
  {
    OtherEvent(fate, SetStatus(fate, st, k, Active, None), k, ReattachedEvent, id);
  }

  lemma WriteAttachmentKeepsTomb(
    fate: Fate, st: State, owner: UserId, k: SessionId, a: AttachmentId, resumed: bool, id: SessionId)
    requires Tomb(st, id) && k != id
    ensures TombKept(st, WriteAttachment(fate, st, owner, k, a, resumed).0, id)
  {
    var st1 := InsertAttachment(Called(st), k, a);
    OtherEvent(fate, st1, k, AttachedEvent, id);
    FinishAttachKeepsTomb(fate, AddEvent(fate, st1, k, AttachedEvent), owner, k, a, resumed, id);
  }

  lemma AttachKeepsTomb(fate: Fate, st: State, owner: UserId, k: SessionId, a: AttachmentId, id: SessionId)
    requires Tomb(st, id)
    ensures TombKept(st, AttachSession(fate, st, owner, k, a).0, id)
  {
    if k != id {
      var st1 := Called(st);
      WriteAttachmentKeepsTomb(fate, CancelPendingClose(st1, k), owner, k, a, PendingOf(st1, k).Some?, id);
    }
  }

  lemma WriteDetachedKeepsTomb(fate: Fate, st: State, k: SessionId, a: AttachmentId, id: SessionId)
    requires Tomb(st, id) && a in st.db.attachments
    ensures TombKept(st, WriteDetached(fate, st, k, a).0, id)
  {
    OtherEvent(fate, MarkDetached(Called(st), a), k, DetachedEvent, id);
  }

  lemma DetachSessionKeepsTomb(fate: Fate, st: State, owner: UserId, k: SessionId, a: AttachmentId, id: SessionId)
    requires Tomb(st, id)
    ensures TombKept(st, DetachSession(fate, st, owner, k, a).0, id)
  {
    var st2 := Called(Called(st));
    if a in st2.db.attachments {
      WriteDetachedKeepsTomb(fate, st2, k, a, id);
    }
  }

  lemma DetachKeepsTomb(
    fate: Fate, st: State, owner: UserId, k: SessionId, a: AttachmentId, now: Time, ttl: nat, id: SessionId)
    requires Tomb(st, id)
    ensures TombKept(st, DetachAttachment(fate, st, owner, k, a, now, ttl).0, id)
  {
    DetachSessionKeepsTomb(fate, st, owner, k, a, id);
    DetachSessionFrame(fate, st, owner, k, a);
    var st1 := DetachSession(fate, st, owner, k, a).0;
    if k != id {
      OthersKeepTomb(fate, st1, k, Detached, None, id);
    }
  }

  lemma TeardownKeepsTomb(fate: Fate, st: State, k: SessionId, owner: UserId, now: Time, id: SessionId)
    requires Tomb(st, id)
    ensures TombKept(st, ForwarderTeardown(fate, st, k, owner, now), id)
  {
    if k != id {
      OtherEvent(fate, SetStatus(fate, Called(st), k, Closed, Some(now)), k, ClosedEvent, id);
    }
  }

  lemma NextKeepsTomb(fate: Fate, ttl: nat, st: State, step: Step, now: Time, id: SessionId)
    requires Tomb(st, id) && Possible(st, step, now)
    ensures TombKept(st, Next(fate, ttl, st, step, now), id)
  {
    match step
    case Create(k, owner, cols, rows) => CreateKeepsTomb(fate, st, k, owner, cols, rows, id);
    case Start(owner, k) => StartKeepsTomb(fate, st, owner, k, id);
    case StartFailed(owner, k) => StartFailedKeepsTomb(fate, st, owner, k, now, id);
    case Close(k, owner) => CloseKeepsTomb(fate, st, k, owner, now, id);
    case Attach(owner, k, a) => AttachKeepsTomb(fate, st, owner, k, a, id);
    case DetachOnly(owner, k, a) => DetachSessionKeepsTomb(fate, st, owner, k, a, id);
    case Detach(owner, k, a) => DetachKeepsTomb(fate, st, owner, k, a, now, ttl, id);
    case Fire(t) =>
      CloseKeepsTomb(fate, st.(timers := st.timers - {t}), st.timers[t].session, st.timers[t].owner, now, id);
    case Teardown(k, owner) => TeardownKeepsTomb(fate, st, k, owner, now, id);
    case Resize(owner, k, cols, rows) => OtherEvent(fate, Called(st), k, ResizedEvent, id);
  }

  /** Once `close_session` has returned Ok, in every continuation the row stays exactly as it
      is, no runtime entry for the session reappears and no further Closed event is appended. */
  lemma {:induction false} ClosedForever(fate: Fate, ttl: nat, st: State, steps: seq<Timed>, id: SessionId)
    requires Tomb(st, id)
    ensures TombKept(st, Run(fate, ttl, st, steps), id)
    decreases |steps|
  {
    if steps != [] {
      var Timed(step, now) := steps[0];
      if Possible(st, step, now) {
        NextKeepsTomb(fate, ttl, st, step, now, id);
        ClosedForever(fate, ttl, Next(fate, ttl, st, step, now), steps[1..], id);
      } else {
        ClosedForever(fate, ttl, st, steps[1..], id);
      }
    }
  }

  // ---------- exactly how a Closed row can come back ----------

  ghost predicate Healthy(fate: Fate) {
    forall n :: fate(n)
  }

  /** Detaching `a` leaves a bound live runtime with no registered attachment. */
  ghost predicate FinalDetachOfLive(st: State, owner: UserId, id: SessionId, a: AttachmentId) {
    && id in st.db.rows && st.db.rows[id].owner == owner
    && a in st.db.attachments && st.db.attachments[a] == AttachmentRow(id, false)
    && HasLive(st, id)
    && (forall b | b in st.attached && st.attached[b].session == id :: b == a)
  }

  ghost predicate StaysClosed(st: State, id: SessionId) {
    id in st.db.rows && st.db.rows[id].status.Closed?
  }

  lemma StatusElsewhere(fate: Fate, st: State, k: SessionId, status: RowStatus, at: Option<Time>, id: SessionId)
    requires StaysClosed(st, id) && (k != id || status.Closed?)
    ensures StaysClosed(SetStatus(fate, st, k, status, at), id)
  {
  }

  lemma CloseStaysClosed(fate: Fate, st: State, k: SessionId, owner: UserId, now: Time, id: SessionId)
    requires StaysClosed(st, id)
    ensures StaysClosed(CloseSession(fate, st, k, owner, now).0, id)
  {
    StatusElsewhere(fate, Called(st), k, Closed, Some(now), id);
  }

  lemma WriteAttachmentStaysClosed(
    fate: Fate, st: State, owner: UserId, k: SessionId, a: AttachmentId, resumed: bool, id: SessionId)
    requires StaysClosed(st, id) && k != id
    ensures StaysClosed(WriteAttachment(fate, st, owner, k, a, resumed).0, id)
  {
    var st2 := AddEvent(fate, InsertAttachment(Called(st), k, a), k, AttachedEvent);
    StatusElsewhere(fate, st2, k, Active, None, id);
  }

  lemma AttachStaysClosed(fate: Fate, st: State, owner: UserId, k: SessionId, a: AttachmentId, id: SessionId)
    requires StaysClosed(st, id)
    ensures StaysClosed(AttachSession(fate, st, owner, k, a).0, id)
  {
    if k != id {
      var st1 := Called(st);
      WriteAttachmentStaysClosed(fate, CancelPendingClose(st1, k), owner, k, a, PendingOf(st1, k).Some?, id);
    }
  }

  lemma StartStaysClosed(fate: Fate, st: State, owner: UserId, k: SessionId, id: SessionId)
    requires StaysClosed(st, id)
    ensures StaysClosed(StartLivePty(fate, st, owner, k).0, id)
  {
    if k != id {
      StatusElsewhere(fate, Called(st), k, Active, None, id);
    }
  }

  lemma StartFailedStaysClosed(fate: Fate, st: State, owner: UserId, k: SessionId, now: Time, id: SessionId)
    requires StaysClosed(st, id)
    ensures StaysClosed(RecordPtyStartFailed(fate, st, owner, k, now).0, id)
  {
    StatusElsewhere(fate, Called(EndRuntime(st, k)), k, Closed, Some(now), id);
  }

  lemma DetachElsewhereStaysClosed(
    fate: Fate, st: State, owner: UserId, k: SessionId, a: AttachmentId, now: Time, ttl: nat, id: SessionId)
    requires StaysClosed(st, id) && k != id
    ensures StaysClosed(DetachAttachment(fate, st, owner, k, a, now, ttl).0, id)
  {
    DetachSessionFrame(fate, st, owner, k, a);
    StatusElsewhere(fate, DetachSession(fate, st, owner, k, a).0, k, Detached, None, id);
  }

  lemma TeardownStaysClosed(fate: Fate, st: State, k: SessionId, owner: UserId, now: Time, id: SessionId)
    requires StaysClosed(st, id)
    ensures StaysClosed(ForwarderTeardown(fate, st, k, owner, now), id)
  {
    StatusElsewhere(fate, Called(st), k, Closed, Some(now), id);
  }

  lemma CreateStaysClosed(fate: Fate, st: State, k: SessionId, owner: UserId, cols: nat, rows: nat, id: SessionId)
    requires StaysClosed(st, id)
    ensures StaysClosed(CreateSession(fate, st, k, owner, cols, rows).0, id)
  {
  }

  /** Every step but a `detach_attachment` of that very session leaves a Closed row Closed. */
  lemma OnlyDetachReopens(fate: Fate, ttl: nat, st: State, step: Step, now: Time, id: SessionId)
    requires StaysClosed(st, id) && Possible(st, step, now) && !(step.Detach? && step.id == id)
    ensures StaysClosed(Next(fate, ttl, st, step, now), id)
  {
    match step
    case Create(k, owner, cols, rows) => CreateStaysClosed(fate, st, k, owner, cols, rows, id);
    case Start(owner, k) => StartStaysClosed(fate, st, owner, k, id);
    case StartFailed(owner, k) => StartFailedStaysClosed(fate, st, owner, k, now, id);
    case Close(k, owner) => CloseStaysClosed(fate, st, k, owner, now, id);
    case Attach(owner, k, a) => AttachStaysClosed(fate, st, owner, k, a, id);
    case DetachOnly(owner, k, a) => DetachSessionFrame(fate, st, owner, k, a);
    case Detach(owner, k, a) => DetachElsewhereStaysClosed(fate, st, owner, k, a, now, ttl, id);
    case Fire(t) =>
      CloseStaysClosed(fate, st.(timers := st.timers - {t}), st.timers[t].session, st.timers[t].owner, now, id);
    case Teardown(k, owner) => TeardownStaysClosed(fate, st, k, owner, now, id);
    case Resize(owner, k, cols, rows) =>
  }

  lemma OthersStayAttached(st: State, st1: State, id: SessionId, a: AttachmentId)
    requires st1.attached == st.attached - {a}
    ensures AnyAttached(st1, id) <==> exists b :: b in st.attached && st.attached[b].session == id && b != a
  {
    if b :| b in st.attached && st.attached[b].session == id && b != a {
      assert b in st1.attached;
    }
    if AnyAttached(st1, id) {
      var b :| b in st1.attached && st1.attached[b].session == id;
      assert b in st.attached && st.attached[b].session == id && b != a;
    }
  }

  /** The `n` repository calls from number `from` on all succeed. */
  ghost predicate CallsSucceed(fate: Fate, from: nat, n: nat) {
    forall i | from <= i < from + n :: fate(i)
  }

  /** A detach that took effect: exactly when the caller owns the session, the attachment is
      one of its attached ones, and the five calls succeed. */
  lemma DetachedIff(fate: Fate, st: State, owner: UserId, id: SessionId, a: AttachmentId)
    ensures var (st1, r) := DetachSession(fate, st, owner, id, a);
      && (r == Ok(false) <==>
            && id in st.db.rows && st.db.rows[id].owner == owner
            && a in st.db.attachments && st.db.attachments[a] == AttachmentRow(id, false)
            && CallsSucceed(fate, st.db.calls, 5))
      && (r == Ok(false) ==> st1.db.calls == st.db.calls + 5 && st1.attached == st.attached - {a})
  {
    var c := st.db.calls;
    assert CallsSucceed(fate, c, 5) <==> fate(c) && fate(c + 1) && fate(c + 2) && fate(c + 3) && fate(c + 4);
  }

  /** What a detach needs to reach the scheduling branch, and what it then leaves registered. */
  lemma FinalDetachOutcome(fate: Fate, st: State, owner: UserId, id: SessionId, a: AttachmentId)
    ensures var (st1, r) := DetachSession(fate, st, owner, id, a);
      && (r == Ok(false) && !AnyAttached(st1, id) && HasLive(st1, id)
          <==> FinalDetachOfLive(st, owner, id, a) && CallsSucceed(fate, st.db.calls, 5))
      && (r == Ok(false) ==> st1.db.calls == st.db.calls + 5)
  {
    var (st1, r) := DetachSession(fate, st, owner, id, a);
    DetachedIff(fate, st, owner, id, a);
    DetachSessionFrame(fate, st, owner, id, a);
    if r == Ok(false) {
      OthersStayAttached(st, st1, id, a);
    }
  }

  /** The manager's documentation says a session whose PTY the forwarder already tore down is
      never scheduled for a detach close. The code does it: a Closed row is rewritten exactly
      when its last registered attachment is detached while the live runtime is still bound and
      the detach's six calls succeed. */
  lemma ReopensExactlyByFinalDetach(fate: Fate, ttl: nat, st: State, step: Step, now: Time, id: SessionId)
    requires StaysClosed(st, id) && Possible(st, step, now)
    ensures !StaysClosed(Next(fate, ttl, st, step, now), id)
       <==> && step.Detach? && step.id == id && FinalDetachOfLive(st, step.owner, id, step.a)
            && CallsSucceed(fate, st.db.calls, 6)
  {
    if step.Detach? && step.id == id {
      DetachReopensIff(fate, ttl, st, step.owner, id, step.a, now);
    } else {
      OnlyDetachReopens(fate, ttl, st, step, now, id);
    }
  }

  lemma DetachReopensIff(
    fate: Fate, ttl: nat, st: State, owner: UserId, id: SessionId, a: AttachmentId, now: Time)
    requires StaysClosed(st, id)
    ensures !StaysClosed(DetachAttachment(fate, st, owner, id, a, now, ttl).0, id)
       <==> FinalDetachOfLive(st, owner, id, a) && CallsSucceed(fate, st.db.calls, 6)
  {
    var c := st.db.calls;
    FinalDetachOutcome(fate, st, owner, id, a);
    DetachSessionFrame(fate, st, owner, id, a);
    var st1 := DetachSession(fate, st, owner, id, a).0;
    assert StaysClosed(SetStatus(fate, st1, id, Detached, None), id) <==> !fate(st1.db.calls);
    assert CallsSucceed(fate, c, 6) <==> CallsSucceed(fate, c, 5) && fate(c + 5);
  }

  // ---------- concrete runs ----------

  /** Session 0 of `owner`, live, with attachment 0, in an otherwise fresh manager. */
  function LiveAttached(owner: UserId): State {
    State(Db(map[0 := SessionRow(owner, Active, None)], map[0 := AttachmentRow(0, false)],
             Append(Append(Empty, Event(0, CreatedEvent)), Event(0, AttachedEvent)), 8, Empty, Empty),
          map[0 := RuntimeEntry(owner, RuntimeLive, Some(LiveRuntime(None)))],
          map[0 := AttachmentRuntime(0, owner)], map[], 0)
  }

  lemma RunCons(fate: Fate, ttl: nat, st: State, step: Step, now: Time, rest: seq<Timed>)
    ensures Run(fate, ttl, st, [Timed(step, now)] + rest) == Run(fate, ttl, RunOne(fate, ttl, st, step, now), rest)
  {
    assert ([Timed(step, now)] + rest)[1..] == rest;
  }

  lemma RunSteps(fate: Fate, ttl: nat, st: State, x: Timed, y: Timed)
    ensures Run(fate, ttl, st, [x]) == RunOne(fate, ttl, st, x.step, x.now)
    ensures Run(fate, ttl, st, [x, y])
         == RunOne(fate, ttl, RunOne(fate, ttl, st, x.step, x.now), y.step, y.now)
  {
    RunCons(fate, ttl, st, x.step, x.now, []);
    RunCons(fate, ttl, RunOne(fate, ttl, st, x.step, x.now), y.step, y.now, []);
    RunCons(fate, ttl, st, x.step, x.now, [y]);
  }

  /** The steps that bring a fresh manager to `LiveAttached`, followed by `rest`. */
  function AttachFirst(owner: UserId, t: Time, rest: seq<Timed>): seq<Timed> {
    [Timed(Create(0, owner, 80, 24), t)] + ([Timed(Start(owner, 0), t)] + ([Timed(Attach(owner, 0, 0), t)] + rest))
  }

  lemma AttachFirstRun(fate: Fate, ttl: nat, owner: UserId, t: Time, rest: seq<Timed>)
    requires CallsSucceed(fate, 0, 8)
    ensures Run(fate, ttl, Initial(), AttachFirst(owner, t, rest)) == Run(fate, ttl, LiveAttached(owner), rest)
  {
    var st0 := Initial();
    var st1 := RunOne(fate, ttl, st0, Create(0, owner, 80, 24), t);
    assert st1.runtimes == map[0 := RuntimeEntry(owner, RuntimeStarting, None)] && st1.db.calls == 2;
    var st2 := RunOne(fate, ttl, st1, Start(owner, 0), t);
    assert st2.runtimes == LiveAttached(owner).runtimes && st2.db.rows == LiveAttached(owner).db.rows;
    var st3 := RunOne(fate, ttl, st2, Attach(owner, 0, 0), t);
    assert st3 == LiveAttached(owner);
    var rest1 := [Timed(Attach(owner, 0, 0), t)] + rest;
    RunCons(fate, ttl, st2, Attach(owner, 0, 0), t, rest);
    RunCons(fate, ttl, st1, Start(owner, 0), t, rest1);
    RunCons(fate, ttl, st0, Create(0, owner, 80, 24), t, [Timed(Start(owner, 0), t)] + rest1);
  }

  /** `LiveAttached` after the remote shell exited at `t`: the forwarder closed the row. */
  function ShellExited(owner: UserId, t: Time): State {
    var st := LiveAttached(owner);
    st.(db := st.db.(rows := map[0 := SessionRow(owner, Closed, Some(t))],
                     events := Append(st.db.events, Event(0, ClosedEvent)),
                     calls := 11, closings := Append(Empty, 0)))
  }

  lemma ShellExitRun(fate: Fate, ttl: nat, owner: UserId, t: Time)
    requires CallsSucceed(fate, 8, 3)
    ensures RunOne(fate, ttl, LiveAttached(owner), Teardown(0, owner), t) == ShellExited(owner, t)
  {
    var st := SetStatus(fate, Called(LiveAttached(owner)), 0, Closed, Some(t));
    assert st.db.rows == ShellExited(owner, t).db.rows;
  }

  lemma DisconnectReopens(fate: Fate, ttl: nat, owner: UserId, t1: Time, t2: Time)
    requires CallsSucceed(fate, 11, 6)
    ensures var st := RunOne(fate, ttl, ShellExited(owner, t1), Detach(owner, 0, 0), t2);
      0 in st.db.rows && st.db.rows[0] == SessionRow(owner, Detached, None)
  {
    FinalDetachOutcome(fate, ShellExited(owner, t1), owner, 0, 0);
    DetachSessionFrame(fate, ShellExited(owner, t1), owner, 0, 0);
  }

  /** The scenario behind it, from a fresh manager: a session is created, started and attached
      to, the remote shell exits, the forwarder closes the row, and the client's disconnect
      turns the row back to Detached and clears `closed_at`. */
  lemma ShellExitThenDisconnectReopens(fate: Fate, ttl: nat, owner: UserId, t: Time, t1: Time, t2: Time)
    requires CallsSucceed(fate, 0, 17)
    ensures var st := Run(fate, ttl, Initial(), AttachFirst(owner, t, [Timed(Teardown(0, owner), t1)]));
      0 in st.db.rows && st.db.rows[0] == SessionRow(owner, Closed, Some(t1))
    ensures var end := [Timed(Teardown(0, owner), t1), Timed(Detach(owner, 0, 0), t2)];
      var st := Run(fate, ttl, Initial(), AttachFirst(owner, t, end));
      0 in st.db.rows && st.db.rows[0] == SessionRow(owner, Detached, None)
  {
    var exit, leave := Timed(Teardown(0, owner), t1), Timed(Detach(owner, 0, 0), t2);
    ShellExitRun(fate, ttl, owner, t1);
    DisconnectReopens(fate, ttl, owner, t1, t2);
    AttachFirstRun(fate, ttl, owner, t, [exit]);
    AttachFirstRun(fate, ttl, owner, t, [exit, leave]);
    RunSteps(fate, ttl, LiveAttached(owner), exit, leave);
  }
}

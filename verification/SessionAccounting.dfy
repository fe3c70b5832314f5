/** Conservation: Closed events against status transitions, and the quota counts. */
module SessionAccounting {
  import opened Common
  import opened SessionModel
  import opened SessionInvariants
  import opened T = SessionTheorems

  function Closings(db: Db, id: SessionId): nat {
    db.closings.Count(id)
  }

  function Reopenings(db: Db, id: SessionId): nat {
    db.reopenings.Count(id)
  }

  /** Each close of a row is matched by a reopening unless the row is Closed now; only a Closed
      row carries `closed_at`. */
  ghost predicate RowAccount(db: Db, id: SessionId) {
    && Closings(db, id) == Reopenings(db, id) + (if id in db.rows && db.rows[id].status.Closed? then 1 else 0)
    && (id !in db.rows ==> Closings(db, id) == 0)
    && (id in db.rows ==> (db.rows[id].status.Closed? <==> db.rows[id].closedAt.Some?))
  }

  /** Exactly one Closed event per transition into Closed. */
  ghost predicate EventAccount(db: Db, id: SessionId) {
    db.events.Count(Event(id, ClosedEvent)) == Closings(db, id)
  }

  ghost predicate Account(db: Db, id: SessionId) {
    RowAccount(db, id) && EventAccount(db, id)
  }

  ghost predicate SameAccount(db: Db, db': Db, id: SessionId) {
    && Closings(db', id) == Closings(db, id) && Reopenings(db', id) == Reopenings(db, id)
    && (id in db.rows <==> id in db'.rows) && (id in db.rows ==> db'.rows[id] == db.rows[id])
    && db'.events.Count(Event(id, ClosedEvent)) == db.events.Count(Event(id, ClosedEvent))
  }

  lemma SameAccountKeeps(db: Db, db': Db, id: SessionId)
    requires Account(db, id) && SameAccount(db, db', id)
    ensures Account(db', id)
  {
  }

  lemma CalledAccount(st: State, id: SessionId)
    requires Account(st.db, id)
    ensures Account(Called(st).db, id)
  {
    SameAccountKeeps(st.db, Called(st).db, id);
  }

  lemma WriteRowAccount(db: Db, k: SessionId, status: RowStatus, at: Option<Time>, id: SessionId)
    requires RowAccount(db, id) && k in db.rows && (at.Some? <==> status.Closed?)
    ensures RowAccount(WriteStatus(db, k, status, at), id)
  {
    var db' := WriteStatus(db, k, status, at);
    if k == id {
      assert db'.rows[id] == db.rows[id].(status := status, closedAt := at);
    } else {
      assert id in db'.rows <==> id in db.rows;
      assert id in db.rows ==> db'.rows[id] == db.rows[id];
    }
  }

  lemma StatusRowAccount(fate: Fate, st: State, k: SessionId, status: RowStatus, at: Option<Time>, id: SessionId)
    requires RowAccount(st.db, id) && (at.Some? <==> status.Closed?)
    ensures RowAccount(SetStatus(fate, st, k, status, at).db, id)
  {
    var st1 := Called(st);
    assert RowAccount(st1.db, id);
    if StatusWriteOk(fate, st, k) {
      WriteRowAccount(st1.db, k, status, at, id);
    }
  }

  /** A status write that does not close leaves the number of closings, hence the events' match, alone. */
  lemma StatusKeepsClosings(fate: Fate, st: State, k: SessionId, status: RowStatus, at: Option<Time>, id: SessionId)
    requires !status.Closed? || (k in st.db.rows && st.db.rows[k].status.Closed?)
    ensures EventAccount(st.db, id) <==> EventAccount(SetStatus(fate, st, k, status, at).db, id)
  {
  }

  lemma PlainEvent(fate: Fate, st: State, k: SessionId, kind: EventKind, id: SessionId)
    requires !kind.ClosedEvent?
    ensures SameAccount(st.db, AddEvent(fate, st, k, kind).db, id)
  {
  }

  lemma PlainEventAccount(fate: Fate, st: State, k: SessionId, kind: EventKind, id: SessionId)
    requires !kind.ClosedEvent? && Account(st.db, id)
    ensures Account(AddEvent(fate, st, k, kind).db, id)
  {
    PlainEvent(fate, st, k, kind, id);
    SameAccountKeeps(st.db, AddEvent(fate, st, k, kind).db, id);
  }

  /** Closing an open row and appending its event keeps the books. */
  lemma CloseWrites(fate: Fate, st: State, k: SessionId, now: Time, id: SessionId)
    requires T.Healthy(fate) && Account(st.db, id) && k in st.db.rows && !st.db.rows[k].status.Closed?
    ensures Account(AddEvent(fate, SetStatus(fate, st, k, Closed, Some(now)), k, ClosedEvent).db, id)
  {
    StatusRowAccount(fate, st, k, Closed, Some(now), id);
  }

  lemma CreateAccount(fate: Fate, st: State, k: SessionId, owner: UserId, cols: nat, rows: nat, id: SessionId)
    requires Account(st.db, id)
    ensures Account(CreateSession(fate, st, k, owner, cols, rows).0.db, id)
  {
    if k !in st.db.rows {
      var st1 := Called(st).(db := Called(st).db.(rows := st.db.rows[k := SessionRow(owner, Starting, None)]));
      PlainEvent(fate, st1, k, CreatedEvent, id);
    }
  }

  lemma ActivateAccount(fate: Fate, st: State, owner: UserId, k: SessionId, id: SessionId)
    requires Account(st.db, id) && k in st.runtimes
    ensures Account(ActivateRow(fate, st, owner, k).0.db, id)
  {
    StatusRowAccount(fate, st, k, Active, None, id);
    StatusKeepsClosings(fate, st, k, Active, None, id);
    CalledAccount(SetStatus(fate, st, k, Active, None), id);
  }

  lemma StartAccount(fate: Fate, st: State, owner: UserId, k: SessionId, id: SessionId)
    requires Account(st.db, id)
    ensures Account(StartLivePty(fate, st, owner, k).0.db, id)
  {
    CalledAccount(st, id);
    if k in st.runtimes {
      ActivateAccount(fate, Called(st), owner, k, id);
    }
  }

  /** With a working database a close either finds nothing to write or writes both the status and the event. */
  lemma HealthyCloseDb(fate: Fate, st: State, k: SessionId, owner: UserId, now: Time)
    requires T.Healthy(fate)
    ensures var st1 := Called(st);
      var db := CloseSession(fate, st, k, owner, now).0.db;
      || db == st1.db
      || (k in st.db.rows && !st.db.rows[k].status.Closed?
          && db == Called(AddEvent(fate, SetStatus(fate, st1, k, Closed, Some(now)), k, ClosedEvent)).db)
  {
  }

  lemma HealthyStartFailedDb(fate: Fate, st: State, owner: UserId, k: SessionId, now: Time)
    requires T.Healthy(fate)
    ensures var st1 := Called(EndRuntime(st, k));
      var db := RecordPtyStartFailed(fate, st, owner, k, now).0.db;
      || db == st1.db
      || (k in st.db.rows && !st.db.rows[k].status.Closed?
          && db == AddEvent(fate, SetStatus(fate, st1, k, Closed, Some(now)), k, ClosedEvent).db)
  {
  }

  lemma StartFailedAccount(fate: Fate, st: State, owner: UserId, k: SessionId, now: Time, id: SessionId)
    requires T.Healthy(fate) && Account(st.db, id)
    ensures Account(RecordPtyStartFailed(fate, st, owner, k, now).0.db, id)
  {
    HealthyStartFailedDb(fate, st, owner, k, now);
    var st1 := Called(EndRuntime(st, k));
    assert Account(st1.db, id);
    if k in st1.db.rows && !st1.db.rows[k].status.Closed? {
      CloseWrites(fate, st1, k, now, id);
    }
  }

  lemma CloseAccount(fate: Fate, st: State, k: SessionId, owner: UserId, now: Time, id: SessionId)
    requires T.Healthy(fate) && Account(st.db, id)
    ensures Account(CloseSession(fate, st, k, owner, now).0.db, id)
  {
    HealthyCloseDb(fate, st, k, owner, now);
    var st1 := Called(st);
    assert Account(st1.db, id);
    if k in st1.db.rows && !st1.db.rows[k].status.Closed? {
      CloseWrites(fate, st1, k, now, id);
    }
  }

  lemma FinishAttachAccount(
    fate: Fate, st: State, owner: UserId, k: SessionId, a: AttachmentId, resumed: bool, id: SessionId)
    requires Account(st.db, id)
    ensures Account(FinishAttach(fate, st, owner, k, a, resumed).0.db, id)
  {
    if resumed {
      StatusRowAccount(fate, st, k, Active, None, id);
      StatusKeepsClosings(fate, st, k, Active, None, id);
      PlainEventAccount(fate, SetStatus(fate, st, k, Active, None), k, ReattachedEvent, id);
    }
  }

  lemma WriteAttachmentAccount(
    fate: Fate, st: State, owner: UserId, k: SessionId, a: AttachmentId, resumed: bool, id: SessionId)
    requires Account(st.db, id)
    ensures Account(WriteAttachment(fate, st, owner, k, a, resumed).0.db, id)
  {
    CalledAccount(st, id);
    var st1 := InsertAttachment(Called(st), k, a);
    SameAccountKeeps(Called(st).db, st1.db, id);
    PlainEventAccount(fate, st1, k, AttachedEvent, id);
    FinishAttachAccount(fate, AddEvent(fate, st1, k, AttachedEvent), owner, k, a, resumed, id);
  }

  lemma AttachAccount(fate: Fate, st: State, owner: UserId, k: SessionId, a: AttachmentId, id: SessionId)
    requires Account(st.db, id)
    ensures Account(AttachSession(fate, st, owner, k, a).0.db, id)
  {
    var st1 := Called(st);
    CalledAccount(st, id);
    WriteAttachmentAccount(fate, CancelPendingClose(st1, k), owner, k, a, PendingOf(st1, k).Some?, id);
  }

  lemma WriteDetachedAccount(fate: Fate, st: State, k: SessionId, a: AttachmentId, id: SessionId)
    requires Account(st.db, id) && a in st.db.attachments
    ensures Account(WriteDetached(fate, st, k, a).0.db, id)
  {
    CalledAccount(st, id);
    var st1 := MarkDetached(Called(st), a);
    SameAccountKeeps(Called(st).db, st1.db, id);
    PlainEventAccount(fate, st1, k, DetachedEvent, id);
    CalledAccount(AddEvent(fate, st1, k, DetachedEvent), id);
  }

  lemma DetachSessionAccount(fate: Fate, st: State, owner: UserId, k: SessionId, a: AttachmentId, id: SessionId)
    requires Account(st.db, id)
    ensures Account(DetachSession(fate, st, owner, k, a).0.db, id)
  {
    CalledAccount(st, id);
    var st2 := Called(Called(st));
    CalledAccount(Called(st), id);
    if a in st2.db.attachments {
      WriteDetachedAccount(fate, st2, k, a, id);
    }
  }

  lemma DetachAccount(
    fate: Fate, st: State, owner: UserId, k: SessionId, a: AttachmentId, now: Time, ttl: nat, id: SessionId)
    requires Account(st.db, id)
    ensures Account(DetachAttachment(fate, st, owner, k, a, now, ttl).0.db, id)
  {
    DetachSessionAccount(fate, st, owner, k, a, id);
    var st1 := DetachSession(fate, st, owner, k, a).0;
    StatusRowAccount(fate, st1, k, Detached, None, id);
    StatusKeepsClosings(fate, st1, k, Detached, None, id);
  }

  lemma TeardownAccount(fate: Fate, st: State, k: SessionId, owner: UserId, now: Time, id: SessionId)
    requires T.Healthy(fate) && Account(st.db, id)
    ensures Account(ForwarderTeardown(fate, st, k, owner, now).db, id)
  {
    if k in st.db.rows && !st.db.rows[k].status.Closed? {
      CloseWrites(fate, Called(st), k, now, id);
    }
  }

  lemma ResizeAccount(fate: Fate, st: State, owner: UserId, k: SessionId, cols: nat, rows: nat, id: SessionId)
    requires Account(st.db, id)
    ensures Account(ResizeSession(fate, st, owner, k, cols, rows).0.db, id)
  {
    CalledAccount(st, id);
    PlainEventAccount(fate, Called(st), k, ResizedEvent, id);
  }

  lemma NextAccount(fate: Fate, ttl: nat, st: State, step: Step, now: Time, id: SessionId)
    requires T.Healthy(fate) && Possible(st, step, now) && Account(st.db, id)
    ensures Account(Next(fate, ttl, st, step, now).db, id)
  {
    match step
    case Create(k, owner, cols, rows) => CreateAccount(fate, st, k, owner, cols, rows, id);
    case Start(owner, k) => StartAccount(fate, st, owner, k, id);
    case StartFailed(owner, k) => StartFailedAccount(fate, st, owner, k, now, id);
    case Close(k, owner) => CloseAccount(fate, st, k, owner, now, id);
    case Attach(owner, k, a) => AttachAccount(fate, st, owner, k, a, id);
    case DetachOnly(owner, k, a) => DetachSessionAccount(fate, st, owner, k, a, id);
    case Detach(owner, k, a) => DetachAccount(fate, st, owner, k, a, now, ttl, id);
    case Fire(t) =>
      CloseAccount(fate, st.(timers := st.timers - {t}), st.timers[t].session, st.timers[t].owner, now, id);
    case Teardown(k, owner) => TeardownAccount(fate, st, k, owner, now, id);
    case Resize(owner, k, cols, rows) => ResizeAccount(fate, st, owner, k, cols, rows, id);
  }

  lemma {:induction false} RunAccount(fate: Fate, ttl: nat, st: State, steps: seq<Timed>, id: SessionId)
    requires T.Healthy(fate) && Account(st.db, id)
    ensures Account(Run(fate, ttl, st, steps).db, id)
    decreases |steps|
  {
    if steps != [] {
      var Timed(step, now) := steps[0];
      if Possible(st, step, now) {
        NextAccount(fate, ttl, st, step, now, id);
        RunAccount(fate, ttl, Next(fate, ttl, st, step, now), steps[1..], id);
      } else {
        RunAccount(fate, ttl, st, steps[1..], id);
      }
    }
  }

  /** In every state reached with successful writes: a session has exactly as many Closed events
      as its row made transitions into Closed, and that is one more than the times it was
      reopened if the row is Closed now, and as many if it is not. */
  lemma ClosedEventsMatchTransitions(fate: Fate, ttl: nat, st: State, id: SessionId)
    requires T.Healthy(fate) && T.Reachable(fate, ttl, st)
    ensures T.ClosedEvents(st, id) == Closings(st.db, id)
    ensures Closings(st.db, id) == Reopenings(st.db, id) + if T.StaysClosed(st, id) then 1 else 0
    ensures id in st.db.rows ==> (T.StaysClosed(st, id) <==> st.db.rows[id].closedAt.Some?)
  {
    var steps :| st == Run(fate, ttl, Initial(), steps);
    RunAccount(fate, ttl, Initial(), steps, id);
  }

  // ---------- quota counts ----------

  function LiveOf(st: State, owner: UserId): set<SessionId> {
    set id | id in st.runtimes && st.runtimes[id].owner == owner && st.runtimes[id].live.Some?
  }

  function StartingOf(st: State, owner: UserId): set<SessionId> {
    set id |
      && id in st.runtimes && st.runtimes[id].owner == owner
      && st.runtimes[id].live.None? && st.runtimes[id].status.RuntimeStarting?
  }

  function LiveAll(st: State): set<SessionId> {
    set id | id in st.runtimes && st.runtimes[id].live.Some?
  }

  function LiveOfAny(st: State, owners: set<UserId>): set<SessionId> {
    set id | id in st.runtimes && st.runtimes[id].owner in owners && st.runtimes[id].live.Some?
  }

  /** Sum of `count_live_pty_for_user` over a set of owners. */
  ghost function SumOfCounts(st: State, owners: set<UserId>): nat {
    if owners == {} then 0
    else
      var o :| o in owners;
      |LiveOf(st, o)| + SumOfCounts(st, owners - {o})
  }

  lemma CountsSplit(st: State, owners: set<UserId>, o: UserId)
    requires o in owners
    ensures |LiveOfAny(st, owners)| == |LiveOf(st, o)| + |LiveOfAny(st, owners - {o})|
  {
    assert LiveOfAny(st, owners) == LiveOf(st, o) + LiveOfAny(st, owners - {o});
    assert LiveOf(st, o) !! LiveOfAny(st, owners - {o});
  }

  lemma {:induction false} CountsAddUp(st: State, owners: set<UserId>)
    ensures SumOfCounts(st, owners) == |LiveOfAny(st, owners)|
  {
    if owners == {} {
      assert LiveOfAny(st, owners) == {};
    } else {
      var o :| o in owners && SumOfCounts(st, owners) == |LiveOf(st, o)| + SumOfCounts(st, owners - {o});
      CountsAddUp(st, owners - {o});
      CountsSplit(st, owners, o);
    }
  }

  /** Quota conservation: the per-owner live counts over any set of owners that includes every
      registered one add up to the deployment count; and in every reachable state the live
      counts equal the counts by runtime status, so live and starting never count one entry twice. */
  lemma QuotaCountsConserved(fate: Fate, ttl: nat, st: State, owners: set<UserId>, owner: UserId)
    requires T.Reachable(fate, ttl, st)
    requires forall id | id in st.runtimes :: st.runtimes[id].owner in owners
    ensures SumOfCounts(st, owners) == |LiveAll(st)|
    ensures LiveAll(st) == set id | id in st.runtimes && st.runtimes[id].status.RuntimeLive?
    ensures StartingOf(st, owner)
         == set id | id in st.runtimes && st.runtimes[id].owner == owner && st.runtimes[id].status.RuntimeStarting?
    ensures LiveOf(st, owner) !! StartingOf(st, owner)
  {
    T.ReachableReg(fate, ttl, st);
    assert forall id | id in st.runtimes :: EntryOk(st, id);
    CountsAddUp(st, owners);
    assert LiveOfAny(st, owners) == LiveAll(st);
  }
}

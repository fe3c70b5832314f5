/** What each operation answers and what it writes, from any state: the error of each early return
    and, call by call, the rows, attachment rows and events that land. Call `c + i` is the
    operation's i-th repository call. */
module SessionWrites {
  import opened Common
  import opened SessionModel
  import opened SessionInvariants
  import opened T = SessionTheorems
  import opened SessionTtl
  import opened SessionOutcomes

  ghost predicate Owns(st: State, owner: UserId, id: SessionId) {
    id in st.db.rows && st.db.rows[id].owner == owner
  }

  function Logged(events: Log<Event>, id: SessionId, kind: EventKind, landed: bool): Log<Event> {
    if landed then Append(events, Event(id, kind)) else events
  }

  /** The answer of an operation that the first read or its result turns away. A row that is not
      the caller's looks missing. */
  ghost predicate TurnedAway<T>(fate: Fate, st: State, owner: UserId, id: SessionId, r: Result<T, Error>) {
    && (!fate(st.db.calls) ==> r == Err(RepositoryFailed))
    && (fate(st.db.calls) && !Owns(st, owner, id) ==> r == Err(NotFound))
  }

  // ---------- create ----------

  lemma CreateWrites(fate: Fate, st: State, id: SessionId, owner: UserId, cols: nat, rows: nat)
    ensures var c := st.db.calls;
      var (st', r) := CreateSession(fate, st, id, owner, cols, rows);
      var inserted := 1 <= cols <= 4096 && 1 <= rows <= 4096 && fate(c) && id !in st.db.rows;
      && r == (if !(1 <= cols <= 4096 && 1 <= rows <= 4096) then Err(InvalidDimensions)
               else if inserted && fate(c + 1) then Ok(()) else Err(RepositoryFailed))
      && st'.db.rows == (if inserted then st.db.rows[id := SessionRow(owner, Starting, None)] else st.db.rows)
      && st'.db.events == Logged(st.db.events, id, CreatedEvent, inserted && fate(c + 1))
      && st'.db.attachments == st.db.attachments
  {
  }

  // ---------- start ----------

  lemma ActivateWrites(fate: Fate, st: State, owner: UserId, id: SessionId)
    requires id in st.runtimes && OwnsOpen(st, owner, id)
    ensures var c := st.db.calls;
      var (st', r) := ActivateRow(fate, st, owner, id);
      && r == (if fate(c) && fate(c + 1) then Ok(()) else Err(RepositoryFailed))
      && st'.db.rows == (if fate(c) then st.db.rows[id := SessionRow(owner, Active, None)] else st.db.rows)
      && st'.db.events == st.db.events && st'.db.attachments == st.db.attachments
  {
  }

  lemma StartWrites(fate: Fate, st: State, owner: UserId, id: SessionId)
    ensures var c := st.db.calls;
      var (st', r) := StartLivePty(fate, st, owner, id);
      var passes := fate(c) && OwnsOpen(st, owner, id) && id in st.runtimes;
      && TurnedAway(fate, st, owner, id, r)
      && (fate(c) && Owns(st, owner, id) && !OwnsOpen(st, owner, id) ==> r == Err(SessionClosed))
      && (fate(c) && OwnsOpen(st, owner, id) && id !in st.runtimes ==> r == Err(NotFound))
      && (passes ==> r == if fate(c + 1) && fate(c + 2) then Ok(()) else Err(RepositoryFailed))
      && st'.db.rows ==
           (if passes && fate(c + 1) then st.db.rows[id := SessionRow(owner, Active, None)] else st.db.rows)
      && st'.db.events == st.db.events && st'.db.attachments == st.db.attachments
  {
    if OwnsOpen(st, owner, id) && id in st.runtimes {
      ActivateWrites(fate, Called(st), owner, id);
    }
  }

  // ---------- failed start ----------

  lemma EndedRows(st: State, id: SessionId)
    ensures EndRuntime(st, id).db == st.db
  {
  }

  /** The row is closed exactly when the read and the status write succeed, whatever the event
      does; the event lands exactly when its own call succeeds. */
  lemma StartFailedWrites(fate: Fate, st: State, owner: UserId, id: SessionId, now: Time)
    ensures var c := st.db.calls;
      var (st', r) := RecordPtyStartFailed(fate, st, owner, id, now);
      var closes := OwnsOpen(st, owner, id) && fate(c) && fate(c + 1);
      && TurnedAway(fate, st, owner, id, r)
      && (r.Ok? <==> closes || (Owns(st, owner, id) && !OwnsOpen(st, owner, id) && fate(c)))
      && (fate(c) && OwnsOpen(st, owner, id) && !fate(c + 1) ==> r == Err(RepositoryFailed))
      && st'.db.rows == (if closes then st.db.rows[id := SessionRow(owner, Closed, Some(now))] else st.db.rows)
      && st'.db.events == Logged(st.db.events, id, ClosedEvent, closes && fate(c + 2))
      && st'.db.attachments == st.db.attachments
  {
    EndedRows(st, id);
  }

  /** The entry ends first, whatever follows; it is removed exactly when the row is closed. */
  lemma StartFailedEntry(fate: Fate, st: State, owner: UserId, id: SessionId, now: Time)
    ensures var c := st.db.calls;
      var st' := RecordPtyStartFailed(fate, st, owner, id, now).0;
      if OwnsOpen(st, owner, id) && fate(c) && fate(c + 1) then st'.runtimes == st.runtimes - {id}
      else if id in st.runtimes then
        st'.runtimes == st.runtimes[id := RuntimeEntry(st.runtimes[id].owner, RuntimeEnded, None)]
      else st'.runtimes == st.runtimes
  {
    EndedRows(st, id);
  }

  // ---------- close ----------

  lemma CloseOpenRowWrites(fate: Fate, st: State, id: SessionId, owner: UserId, now: Time)
    requires OwnsOpen(st, owner, id)
    ensures var c := st.db.calls;
      var (st', r) := CloseOpenRow(fate, st, id, owner, now);
      && r == (if fate(c) && fate(c + 1) && fate(c + 2) then Ok(false) else Err(RepositoryFailed))
      && st'.db.rows == (if fate(c) then st.db.rows[id := SessionRow(owner, Closed, Some(now))] else st.db.rows)
      && st'.db.events == Logged(st.db.events, id, ClosedEvent, fate(c) && fate(c + 1))
      && st'.db.attachments == st.db.attachments
  {
  }

  lemma CloseAnswers(fate: Fate, st: State, id: SessionId, owner: UserId, now: Time)
    ensures var c := st.db.calls;
      var (st', r) := CloseSession(fate, st, id, owner, now);
      var closes := OwnsOpen(st, owner, id) && fate(c) && fate(c + 1);
      && TurnedAway(fate, st, owner, id, r)
      && (fate(c) && Owns(st, owner, id) && !OwnsOpen(st, owner, id) ==> r == Ok(true))
      && (fate(c) && OwnsOpen(st, owner, id) ==>
            r == if fate(c + 1) && fate(c + 2) && fate(c + 3) then Ok(false) else Err(RepositoryFailed))
      && st'.db.rows == (if closes then st.db.rows[id := SessionRow(owner, Closed, Some(now))] else st.db.rows)
      && st'.db.events == Logged(st.db.events, id, ClosedEvent, closes && fate(c + 2))
      && st'.db.attachments == st.db.attachments
  {
    if OwnsOpen(st, owner, id) {
      CloseOpenRowWrites(fate, Called(st), id, owner, now);
    }
  }

  // ---------- attach ----------

  lemma FinishAttachWrites(fate: Fate, st: State, owner: UserId, id: SessionId, a: AttachmentId, resumed: bool)
    requires OwnsOpen(st, owner, id)
    ensures var c := st.db.calls;
      var (st', r) := FinishAttach(fate, st, owner, id, a, resumed);
      && (r.Ok? <==> resumed ==> fate(c))
      && (r.Err? ==> r == Err(RepositoryFailed))
      && st'.db.rows ==
           (if resumed && fate(c) then st.db.rows[id := SessionRow(owner, Active, None)] else st.db.rows)
      && st'.db.events == Logged(st.db.events, id, ReattachedEvent, resumed && fate(c) && fate(c + 1))
  {
  }

  lemma WriteAttachmentWrites(fate: Fate, st: State, owner: UserId, id: SessionId, a: AttachmentId, resumed: bool)
    requires OwnsOpen(st, owner, id)
    ensures var c := st.db.calls;
      var (st', r) := WriteAttachment(fate, st, owner, id, a, resumed);
      var inserted := a !in st.db.attachments && fate(c);
      var resumes := inserted && fate(c + 1) && resumed && fate(c + 2);
      && (r.Ok? <==> inserted && fate(c + 1) && (resumed ==> fate(c + 2)))
      && (r.Err? ==> r == Err(RepositoryFailed))
      && st'.db.attachments ==
           (if inserted then st.db.attachments[a := AttachmentRow(id, false)] else st.db.attachments)
      && st'.db.rows == (if resumes then st.db.rows[id := SessionRow(owner, Active, None)] else st.db.rows)
      && st'.db.events == Logged(Logged(st.db.events, id, AttachedEvent, inserted && fate(c + 1)),
                                 id, ReattachedEvent, resumes && fate(c + 3))
  {
    if a !in st.db.attachments && fate(st.db.calls) {
      var st1 := AddEvent(fate, InsertAttachment(Called(st), id, a), id, AttachedEvent);
      FinishAttachWrites(fate, st1, owner, id, a, resumed);
      FinishAttachOutcome(fate, st1, owner, id, a, resumed);
    }
  }

  /** An attach past the gate succeeds exactly for an unused identifier and working insert and
      event calls, plus, in a detach window, a working status write. The Reattached event is
      best-effort. */
  lemma AttachWrites(fate: Fate, st: State, owner: UserId, id: SessionId, a: AttachmentId)
    ensures var c := st.db.calls;
      var (st', r) := AttachSession(fate, st, owner, id, a);
      var resumed := PendingOf(st, id).Some?;
      var inserted := OwnsOpen(st, owner, id) && fate(c) && a !in st.db.attachments && fate(c + 1);
      var resumes := inserted && fate(c + 2) && resumed && fate(c + 3);
      && TurnedAway(fate, st, owner, id, r)
      && (fate(c) && Owns(st, owner, id) && !OwnsOpen(st, owner, id) ==> r == Err(SessionClosed))
      && (r.Ok? <==> inserted && fate(c + 2) && (resumed ==> fate(c + 3)))
      && (r.Err? && OwnsOpen(st, owner, id) ==> r == Err(RepositoryFailed))
      && st'.db.attachments ==
           (if inserted then st.db.attachments[a := AttachmentRow(id, false)] else st.db.attachments)
      && st'.db.rows == (if resumes then st.db.rows[id := SessionRow(owner, Active, None)] else st.db.rows)
      && st'.db.events == Logged(Logged(st.db.events, id, AttachedEvent, inserted && fate(c + 2)),
                                 id, ReattachedEvent, resumes && fate(c + 4))
  {
    var st1 := Called(st);
    var st2 := CancelPendingClose(st1, id);
    assert st2.db == st1.db;
    if OwnsOpen(st, owner, id) {
      WriteAttachmentWrites(fate, st2, owner, id, a, PendingOf(st1, id).Some?);
    }
  }

  lemma AttachSucceeds(fate: Fate, st: State, owner: UserId, id: SessionId, a: AttachmentId)
    ensures AttachSession(fate, st, owner, id, a).1.Ok?
       <==> && OwnsOpen(st, owner, id) && a !in st.db.attachments
            && CallsSucceed(fate, st.db.calls, if PendingOf(st, id).Some? then 4 else 3)
  {
    var c := st.db.calls;
    AttachWrites(fate, st, owner, id, a);
    assert CallsSucceed(fate, c, 3) <==> fate(c) && fate(c + 1) && fate(c + 2);
    assert CallsSucceed(fate, c, 4) <==> fate(c) && fate(c + 1) && fate(c + 2) && fate(c + 3);
  }

  // ---------- detach ----------

  ghost predicate AttachmentOf(st: State, id: SessionId, a: AttachmentId) {
    a in st.db.attachments && st.db.attachments[a].session == id
  }

  lemma WriteDetachedWrites(fate: Fate, st: State, id: SessionId, a: AttachmentId)
    requires AttachmentOf(st, id, a)
    ensures var c := st.db.calls;
      var (st', r) := WriteDetached(fate, st, id, a);
      && r == (if fate(c) && fate(c + 1) && fate(c + 2) then Ok(false) else Err(RepositoryFailed))
      && st'.db.attachments ==
           (if fate(c) then st.db.attachments[a := AttachmentRow(id, true)] else st.db.attachments)
      && st'.db.events == Logged(st.db.events, id, DetachedEvent, fate(c) && fate(c + 1))
  {
  }

  lemma DetachSessionWrites(fate: Fate, st: State, owner: UserId, id: SessionId, a: AttachmentId)
    ensures var c := st.db.calls;
      var (st', r) := DetachSession(fate, st, owner, id, a);
      var found := fate(c) && Owns(st, owner, id) && fate(c + 1) && AttachmentOf(st, id, a);
      var marks := found && !st.db.attachments[a].detached && fate(c + 2);
      && TurnedAway(fate, st, owner, id, r)
      && (fate(c) && Owns(st, owner, id) && !fate(c + 1) ==> r == Err(RepositoryFailed))
      && (fate(c) && Owns(st, owner, id) && fate(c + 1) && !AttachmentOf(st, id, a) ==> r == Err(NotFound))
      && (found && st.db.attachments[a].detached ==> r == Ok(true))
      && (found && !st.db.attachments[a].detached ==>
            r == if marks && fate(c + 3) && fate(c + 4) then Ok(false) else Err(RepositoryFailed))
      && st'.db.attachments ==
           (if marks then st.db.attachments[a := AttachmentRow(id, true)] else st.db.attachments)
      && st'.db.events == Logged(st.db.events, id, DetachedEvent, marks && fate(c + 3))
  {
    if AttachmentOf(st, id, a) {
      WriteDetachedWrites(fate, Called(Called(st)), id, a);
    }
  }

  /** `detach_attachment` adds one write: the row becomes Detached exactly at a final detach of a
      live session whose sixth call succeeds too. */
  lemma DetachWrites(fate: Fate, st: State, owner: UserId, id: SessionId, a: AttachmentId, now: Time, ttl: nat)
    ensures var (st1, r1) := DetachSession(fate, st, owner, id, a);
      var (st', r) := DetachAttachment(fate, st, owner, id, a, now, ttl);
      && (r1.Err? ==> r == Err(r1.error)) && (r.Ok? <==> r1.Ok?)
      && st'.db.rows ==
           (if FinalDetachOfLive(st, owner, id, a) && CallsSucceed(fate, st.db.calls, 6)
            then st.db.rows[id := SessionRow(owner, Detached, None)] else st.db.rows)
      && st'.db.attachments == st1.db.attachments && st'.db.events == st1.db.events
  {
    var c := st.db.calls;
    FinalDetachOutcome(fate, st, owner, id, a);
    DetachSessionFrame(fate, st, owner, id, a);
    var st1 := DetachSession(fate, st, owner, id, a).0;
    var st2 := SetStatus(fate, st1, id, Detached, None);
    assert st2.db.attachments == st1.db.attachments && st2.db.events == st1.db.events;
    assert CallsSucceed(fate, c, 6) <==> CallsSucceed(fate, c, 5) && fate(c + 5);
  }

  // ---------- teardown and resize ----------

  /** The forwarder's two writes are independent: the event lands even if the status write failed. */
  lemma TeardownWrites(fate: Fate, st: State, id: SessionId, owner: UserId, now: Time)
    ensures var c := st.db.calls;
      var db := ForwarderTeardown(fate, st, id, owner, now).db;
      && db.rows == (if OwnsOpen(st, owner, id) && fate(c) && fate(c + 1)
                     then st.db.rows[id := SessionRow(owner, Closed, Some(now))] else st.db.rows)
      && db.events == Logged(st.db.events, id, ClosedEvent, OwnsOpen(st, owner, id) && fate(c) && fate(c + 2))
  {
  }

  lemma ResizeAnswers(fate: Fate, st: State, owner: UserId, id: SessionId, cols: nat, rows: nat)
    ensures var c := st.db.calls;
      var r := ResizeSession(fate, st, owner, id, cols, rows).1;
      if !(1 <= cols <= 4096 && 1 <= rows <= 4096) then r == Err(InvalidDimensions)
      else
        && TurnedAway(fate, st, owner, id, r)
        && (fate(c) && Owns(st, owner, id) && !OwnsOpen(st, owner, id) ==> r == Err(SessionClosed))
        && (fate(c) && OwnsOpen(st, owner, id) ==> r == if fate(c + 1) then Ok(()) else Err(RepositoryFailed))
  {
  }
}

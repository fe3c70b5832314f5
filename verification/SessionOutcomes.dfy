/** What each operation's result tells its caller, from any state with consistent registries and
    for every pattern of database failures. */
module SessionOutcomes {
  import opened Common
  import opened SessionModel
  import opened SessionInvariants
  import opened T = SessionTheorems
  import opened SessionTtl

  /** The caller's row, with a status other than Closed. */
  ghost predicate OwnsOpen(st: State, owner: UserId, id: SessionId) {
    id in st.db.rows && st.db.rows[id].owner == owner && !st.db.rows[id].status.Closed?
  }

  lemma FirstCalls(fate: Fate, c: nat)
    ensures CallsSucceed(fate, c, 2) <==> fate(c) && fate(c + 1)
    ensures CallsSucceed(fate, c, 3) <==> fate(c) && fate(c + 1) && fate(c + 2)
  {
  }

  /** `create_session` succeeds exactly for valid dimensions, an unused identifier and two
      working calls; a failure registers nothing but may leave the row behind, without entry. */
  lemma CreateOutcome(fate: Fate, st: State, id: SessionId, owner: UserId, cols: nat, rows: nat)
    requires RegInv(st)
    ensures var (st', r) := CreateSession(fate, st, id, owner, cols, rows);
      && (r == Err(InvalidDimensions) <==> !ValidDim(cols) || !ValidDim(rows))
      && (r.Ok? <==> ValidDim(cols) && ValidDim(rows) && id !in st.db.rows && CallsSucceed(fate, st.db.calls, 2))
      && (r.Ok? ==> st'.db.rows == st.db.rows[id := SessionRow(owner, Starting, None)])
      && (r.Ok? ==> st'.runtimes == st.runtimes[id := RuntimeEntry(owner, RuntimeStarting, None)])
      && (r.Err? ==> SameRegistry(st, st'))
      && (r.Err? && st'.db.rows != st.db.rows ==>
            st'.db.rows == st.db.rows[id := SessionRow(owner, Starting, None)] && id !in st'.runtimes)
  {
    FirstCalls(fate, st.db.calls);
    if id !in st.db.rows {
      NoEntryWithoutRow(st, id);
    }
  }

  /** Aborting an entry's timer leaves none for its session. */
  lemma AbortLeavesNone(st: State, st': State, id: SessionId)
    requires RegInv(st) && id in st.runtimes && st'.timers == AbortTimer(st.timers, st.runtimes[id])
    ensures NoTimerFor(st', id)
  {
    forall u | u in st'.timers ensures st'.timers[u].session != id {
      assert TimerOk(st, u);
    }
  }

  lemma NotPendingNoTimer(st: State, id: SessionId)
    requires RegInv(st) && PendingOf(st, id).None?
    ensures NoTimerFor(st, id)
  {
    forall u | u in st.timers ensures st.timers[u].session != id {
      assert TimerOk(st, u);
    }
  }

  lemma ActivateOutcome(fate: Fate, st: State, owner: UserId, id: SessionId)
    requires id in st.runtimes && id in st.db.rows && st.db.rows[id].owner == owner
    ensures var (st', r) := ActivateRow(fate, st, owner, id);
      && (r.Ok? <==> fate(st.db.calls) && fate(st.db.calls + 1))
      && (r.Ok? ==> id in st'.db.rows && st'.db.rows[id] == SessionRow(owner, Active, None))
      && (r.Ok? ==> st'.runtimes
                    == st.runtimes[id := RuntimeEntry(st.runtimes[id].owner, RuntimeLive, Some(LiveRuntime(None)))])
      && (r.Ok? ==> st'.timers == AbortTimer(st.timers, st.runtimes[id]) && st'.attached == st.attached)
      && (r.Err? ==> SameRegistry(st, st'))
  {
  }

  /** `start_live_pty` succeeds exactly for an open row of the caller with an entry and three
      working calls; the session is then Active and live with no close pending. */
  lemma StartOutcome(fate: Fate, st: State, owner: UserId, id: SessionId)
    requires RegInv(st)
    ensures var (st', r) := StartLivePty(fate, st, owner, id);
      && (r.Ok? <==> OwnsOpen(st, owner, id) && id in st.runtimes && CallsSucceed(fate, st.db.calls, 3))
      && (r.Ok? ==> id in st'.db.rows && st'.db.rows[id] == SessionRow(owner, Active, None))
      && (r.Ok? ==> st'.runtimes == st.runtimes[id := RuntimeEntry(owner, RuntimeLive, Some(LiveRuntime(None)))])
      && (r.Ok? ==> NoTimerFor(st', id) && st'.attached == st.attached)
      && (r.Err? ==> SameRegistry(st, st'))
  {
    FirstCalls(fate, st.db.calls);
    if OwnsOpen(st, owner, id) && id in st.runtimes {
      ActivateOutcome(fate, Called(st), owner, id);
      assert EntryOk(st, id);
      var (st', r) := ActivateRow(fate, Called(st), owner, id);
      if r.Ok? {
        AbortLeavesNone(st, st', id);
      }
    }
  }

  /** After `record_pty_start_failed`, whether or not it could write, the session has no live
      runtime and no timer; on success its row is Closed. */
  lemma StartFailedOutcome(fate: Fate, st: State, owner: UserId, id: SessionId, now: Time)
    requires RegInv(st)
    ensures var (st', r) := RecordPtyStartFailed(fate, st, owner, id, now);
      && !HasLive(st', id) && NoTimerFor(st', id)
      && (r.Ok? ==> StaysClosed(st', id))
      && (r.Ok? && OwnsOpen(st, owner, id) ==> id !in st'.runtimes && !AnyAttached(st', id))
      && (r.Err? ==> st'.attached == st.attached)
  {
    StartFailedReg(fate, st, owner, id, now);
    assert !HasLive(EndRuntime(st, id), id);
    NotPendingNoTimer(RecordPtyStartFailed(fate, st, owner, id, now).0, id);
  }

  lemma CloseOpenRowOutcome(fate: Fate, st: State, id: SessionId, owner: UserId, now: Time)
    requires OwnsOpen(st, owner, id)
    ensures var (st', r) := CloseOpenRow(fate, st, id, owner, now);
      && r != Ok(true)
      && (r.Ok? ==> id in st'.db.rows && st'.db.rows[id] == SessionRow(owner, Closed, Some(now)))
      && (r.Ok? ==> id !in st'.runtimes && !AnyAttached(st', id))
      && (r.Err? ==> SameRegistry(st, st'))
  {
  }

  /** `close_session` reporting success leaves a tomb without timer; when it closed the row
      itself, without attachments too. A failure forgets nothing. */
  lemma CloseOutcome(fate: Fate, st: State, id: SessionId, owner: UserId, now: Time)
    requires RegInv(st)
    ensures var (st', r) := CloseSession(fate, st, id, owner, now);
      && (r.Ok? ==> Tomb(st', id) && NoTimerFor(st', id))
      && (r == Ok(false) ==> st'.db.rows[id] == SessionRow(owner, Closed, Some(now)) && !AnyAttached(st', id))
      && (r == Ok(true) ==> st'.db.rows == st.db.rows && st'.attached == st.attached)
      && (r == Ok(false) ==> OwnsOpen(st, owner, id))
      && (r.Err? ==> SameRegistry(st, st'))
  {
    CloseReg(fate, st, id, owner, now);
    var (st', r) := CloseSession(fate, st, id, owner, now);
    if OwnsOpen(st, owner, id) {
      CloseOpenRowOutcome(fate, Called(st), id, owner, now);
    }
    if r.Ok? {
      NotPendingNoTimer(st', id);
    }
  }

  lemma FinishAttachOutcome(fate: Fate, st: State, owner: UserId, id: SessionId, a: AttachmentId, resumed: bool)
    requires OwnsOpen(st, owner, id)
    ensures var (st', r) := FinishAttach(fate, st, owner, id, a, resumed);
      && (r.Ok? ==> st'.attached == st.attached[a := AttachmentRuntime(id, owner)] && r.value == HasLive(st, id))
      && (r.Ok? ==> OwnsOpen(st', owner, id) && (resumed ==> st'.db.rows[id].status.Active?))
      && (r.Err? ==> st'.attached == st.attached)
      && st'.db.attachments == st.db.attachments
  {
  }

  lemma WriteAttachmentOutcome(fate: Fate, st: State, owner: UserId, id: SessionId, a: AttachmentId, resumed: bool)
    requires OwnsOpen(st, owner, id)
    ensures var (st', r) := WriteAttachment(fate, st, owner, id, a, resumed);
      && (r.Ok? ==> st'.attached == st.attached[a := AttachmentRuntime(id, owner)] && r.value == HasLive(st, id))
      && (r.Ok? ==> st'.db.attachments == st.db.attachments[a := AttachmentRow(id, false)] && a !in st.db.attachments)
      && (r.Ok? ==> OwnsOpen(st', owner, id) && (resumed ==> st'.db.rows[id].status.Active?))
      && (r.Err? ==> st'.attached == st.attached)
  {
    var st1 := AddEvent(fate, InsertAttachment(Called(st), id, a), id, AttachedEvent);
    FinishAttachOutcome(fate, st1, owner, id, a, resumed);
  }

  /** `attach_session` reporting success registered a fresh attachment of an open session, left
      no close pending and no timer, and reports whether the PTY is live; a failure registers
      nothing. */
  lemma AttachOutcome(fate: Fate, st: State, owner: UserId, id: SessionId, a: AttachmentId)
    requires RegInv(st)
    ensures var (st', r) := AttachSession(fate, st, owner, id, a);
      && (r.Ok? ==> st'.attached == st.attached[a := AttachmentRuntime(id, owner)] && r.value == HasLive(st', id))
      && (r.Ok? ==> st'.db.attachments == st.db.attachments[a := AttachmentRow(id, false)] && a !in st.db.attachments)
      && (r.Ok? ==> OwnsOpen(st', owner, id) && PendingOf(st', id).None? && NoTimerFor(st', id))
      && (r.Ok? && PendingOf(st, id).Some? ==> st'.db.rows[id].status.Active?)
      && (r.Err? ==> st'.attached == st.attached)
  {
    AttachReg(fate, st, owner, id, a);
    var (st', r) := AttachSession(fate, st, owner, id, a);
    AttachRuntimes(fate, st, owner, id, a);
    if PassesGate(fate, st, id, owner) {
      WriteAttachmentOutcome(fate, CancelPendingClose(Called(st), id), owner, id, a, PendingOf(Called(st), id).Some?);
      NotPendingNoTimer(st', id);
    }
  }

  lemma WriteDetachedOutcome(fate: Fate, st: State, id: SessionId, a: AttachmentId)
    requires a in st.db.attachments && st.db.attachments[a].session == id
    ensures var (st', r) := WriteDetached(fate, st, id, a);
      && (r.Ok? ==> st'.attached == st.attached - {a})
      && (r.Ok? ==> st'.db.attachments == st.db.attachments[a := AttachmentRow(id, true)])
      && (r.Err? ==> st'.attached == st.attached)
  {
  }

  /** `detach_session` reporting success leaves the attachment marked detached and unregistered;
      a failure leaves it registered. */
  lemma DetachSessionOutcome(fate: Fate, st: State, owner: UserId, id: SessionId, a: AttachmentId)
    ensures var (st', r) := DetachSession(fate, st, owner, id, a);
      && (r.Ok? ==> st'.attached == st.attached - {a})
      && (r.Ok? ==> a in st'.db.attachments && st'.db.attachments[a] == AttachmentRow(id, true))
      && (r.Err? ==> st'.attached == st.attached)
  {
    var st2 := Called(Called(st));
    if a in st2.db.attachments && st2.db.attachments[a].session == id {
      WriteDetachedOutcome(fate, st2, id, a);
    }
  }

  /** `detach_attachment` reporting a deadline left exactly that close pending on an unattended
      session; otherwise no close was scheduled. */
  lemma DetachOutcome(fate: Fate, st: State, owner: UserId, id: SessionId, a: AttachmentId, now: Time, ttl: nat)
    ensures var (st', r) := DetachAttachment(fate, st, owner, id, a, now, ttl);
      && (r.Ok? ==> st'.attached == st.attached - {a})
      && (r.Ok? && r.value.Some? ==> !AnyAttached(st', id) && PendingOf(st', id).Some?)
      && (r.Ok? && r.value.Some? ==> PendingOf(st', id).value.info == r.value.value)
      && (r.Ok? && r.value.None? ==> st'.runtimes == st.runtimes && st'.timers == st.timers)
      && (r.Err? ==> SameRegistry(st, st'))
  {
    DetachSessionOutcome(fate, st, owner, id, a);
    DetachSessionFrame(fate, st, owner, id, a);
    FinalDetachArms(fate, st, owner, id, a, now, ttl);
  }

  /** The forwarder's teardown touches no registry and closes an open row exactly when the read
      and the status write succeed. */
  lemma TeardownOutcome(fate: Fate, st: State, id: SessionId, owner: UserId, now: Time)
    ensures var st' := ForwarderTeardown(fate, st, id, owner, now);
      && SameRegistry(st, st') && st'.db.attachments == st.db.attachments
      && st'.db.rows ==
           if OwnsOpen(st, owner, id) && CallsSucceed(fate, st.db.calls, 2)
           then st.db.rows[id := SessionRow(owner, Closed, Some(now))] else st.db.rows
  {
    FirstCalls(fate, st.db.calls);
  }

  /** A resize leaves registries and rows alone; it succeeds exactly for valid dimensions, an
      open row of the caller and two working calls, and then logs one event. */
  lemma ResizeOutcome(fate: Fate, st: State, owner: UserId, id: SessionId, cols: nat, rows: nat)
    ensures var (st', r) := ResizeSession(fate, st, owner, id, cols, rows);
      && SameRegistry(st, st') && st'.db.rows == st.db.rows && st'.db.attachments == st.db.attachments
      && (r.Ok? <==>
            ValidDim(cols) && ValidDim(rows) && OwnsOpen(st, owner, id) && CallsSucceed(fate, st.db.calls, 2))
      && st'.db.events == if r.Ok? then Append(st.db.events, Event(id, ResizedEvent)) else st.db.events
  {
    FirstCalls(fate, st.db.calls);
  }
}

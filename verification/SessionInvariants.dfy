/** What every step of the session manager keeps, for every pattern of database failures. */
module SessionInvariants {
  import opened Common
  import opened SessionModel

  // ---------- the registries ----------

  ghost predicate EntryOk(st: State, id: SessionId)
    requires id in st.runtimes
  {
    && (st.runtimes[id].live.Some? <==> st.runtimes[id].status.RuntimeLive?)
    && id in st.db.rows
    && st.db.rows[id].owner == st.runtimes[id].owner
  }

  /** An armed timer belongs to the pending close of its session and carries its deadline. */
  ghost predicate TimerOk(st: State, t: TimerId)
    requires t in st.timers
  {
    var timer := st.timers[t];
    var p := PendingOf(st, timer.session);
    && t < st.nextTimer
    && p.Some?
    && p.value.timer == t
    && p.value.info.expiresAt == timer.deadline
    && timer.owner == st.runtimes[timer.session].owner
  }

  /** `live` is bound exactly when the runtime status says so; armed timers belong to pending
      closes; and a pending close exists only while no attachment of its session is registered. */
  ghost predicate RegInv(st: State) {
    && (forall id | id in st.runtimes :: EntryOk(st, id))
    && (forall t | t in st.timers :: TimerOk(st, t))
    && (forall id | id in st.runtimes && PendingOf(st, id).Some? :: PendingOf(st, id).value.timer < st.nextTimer)
    && (forall a | a in st.attached :: PendingOf(st, st.attached[a].session).None?)
  }

  ghost predicate SameRegistry(st: State, st': State) {
    && st'.runtimes == st.runtimes && st'.attached == st.attached
    && st'.timers == st.timers && st'.nextTimer == st.nextTimer
  }

  ghost predicate SameOwners(st: State, st': State) {
    forall id | id in st.db.rows :: id in st'.db.rows && st'.db.rows[id].owner == st.db.rows[id].owner
  }

  lemma DbOnly(st: State, st': State)
    requires RegInv(st) && SameRegistry(st, st') && SameOwners(st, st')
    ensures RegInv(st')
  {
    forall t | t in st'.timers ensures TimerOk(st', t) {
      assert TimerOk(st, t);
    }
    forall id | id in st'.runtimes ensures EntryOk(st', id) {
      assert EntryOk(st, id);
    }
  }

  lemma SetStatusReg(fate: Fate, st: State, id: SessionId, status: RowStatus, at: Option<Time>)
    requires RegInv(st)
    ensures RegInv(SetStatus(fate, st, id, status, at))
  {
    DbOnly(st, SetStatus(fate, st, id, status, at));
  }

  lemma AddEventReg(fate: Fate, st: State, id: SessionId, kind: EventKind)
    requires RegInv(st)
    ensures RegInv(AddEvent(fate, st, id, kind))
  {
    DbOnly(st, AddEvent(fate, st, id, kind));
  }

  lemma CalledReg(st: State)
    requires RegInv(st)
    ensures RegInv(Called(st))
  {
    DbOnly(st, Called(st));
  }

  /** Replacing or removing one entry's live part, with its timer aborted, is safe. */
  lemma EntryChanged(st: State, st': State, id: SessionId)
    requires RegInv(st) && id in st.runtimes
    requires st'.db == st.db && st'.attached == st.attached && st'.nextTimer == st.nextTimer
    requires st'.timers == AbortTimer(st.timers, st.runtimes[id])
    requires forall k | k != id :: k in st'.runtimes <==> k in st.runtimes
    requires forall k | k != id && k in st.runtimes :: st'.runtimes[k] == st.runtimes[k]
    requires id in st'.runtimes ==> EntryOk(st', id)
    requires PendingOf(st', id).None?
    ensures RegInv(st')
  {
    forall t | t in st'.timers ensures TimerOk(st', t) {
      assert TimerOk(st, t);
    }
    forall k | k in st'.runtimes ensures EntryOk(st', k) {
      if k != id {
        assert EntryOk(st, k);
      }
    }
  }

  lemma RemoveRuntimeReg(st: State, id: SessionId)
    requires RegInv(st)
    ensures RegInv(RemoveRuntime(st, id))
  {
    if id in st.runtimes {
      EntryChanged(st, RemoveRuntime(st, id), id);
    }
  }

  lemma EndRuntimeReg(st: State, id: SessionId)
    requires RegInv(st)
    ensures RegInv(EndRuntime(st, id))
  {
    if id in st.runtimes {
      assert EntryOk(st, id);
      EntryChanged(st, EndRuntime(st, id), id);
    }
  }

  lemma InstallLiveReg(st: State, id: SessionId)
    requires RegInv(st) && id in st.runtimes
    ensures RegInv(InstallLive(st, id))
  {
    assert EntryOk(st, id);
    EntryChanged(st, InstallLive(st, id), id);
  }

  lemma CancelReg(st: State, id: SessionId)
    requires RegInv(st)
    ensures RegInv(CancelPendingClose(st, id)) && PendingOf(CancelPendingClose(st, id), id).None?
    ensures CancelPendingClose(st, id).db == st.db
  {
    if PendingOf(st, id).Some? {
      assert EntryOk(st, id);
      EntryChanged(st, CancelPendingClose(st, id), id);
    }
  }

  lemma AttachedShrinks(st: State, st': State)
    requires RegInv(st) && st' == st.(attached := st'.attached)
    requires forall a | a in st'.attached :: a in st.attached && st'.attached[a] == st.attached[a]
    ensures RegInv(st')
  {
    forall t | t in st'.timers ensures TimerOk(st', t) {
      assert TimerOk(st, t);
    }
    forall k | k in st'.runtimes ensures EntryOk(st', k) {
      assert EntryOk(st, k);
    }
  }

  lemma RegisterReg(st: State, id: SessionId, a: AttachmentId, owner: UserId)
    requires RegInv(st) && PendingOf(st, id).None?
    ensures RegInv(Register(st, id, a, owner))
  {
    var st' := Register(st, id, a, owner);
    forall t | t in st'.timers ensures TimerOk(st', t) {
      assert TimerOk(st, t);
    }
    forall k | k in st'.runtimes ensures EntryOk(st', k) {
      assert EntryOk(st, k);
    }
  }

  lemma ArmTimerReg(st: State, id: SessionId, owner: UserId, now: Time, ttl: nat)
    requires RegInv(st) && HasLive(st, id) && PendingOf(st, id).None? && !AnyAttached(st, id)
    requires owner == st.runtimes[id].owner
    ensures RegInv(ArmTimer(st, id, owner, now, ttl))
  {
    var st' := ArmTimer(st, id, owner, now, ttl);
    forall t | t in st'.timers ensures TimerOk(st', t) {
      if t != st.nextTimer {
        assert TimerOk(st, t);
      }
    }
    forall k | k in st'.runtimes ensures EntryOk(st', k) {
      assert EntryOk(st, k);
    }
  }

  // ---------- operation by operation ----------

  lemma CreateReg(fate: Fate, st: State, id: SessionId, owner: UserId, cols: nat, rows: nat)
    requires RegInv(st)
    ensures RegInv(CreateSession(fate, st, id, owner, cols, rows).0)
  {
    CalledReg(st);
    if ValidDim(cols) && ValidDim(rows) && fate(st.db.calls) && id !in st.db.rows {
      var st1 := Called(st).(db := Called(st).db.(rows := st.db.rows[id := SessionRow(owner, Starting, None)]));
      DbOnly(st, st1);
      AddEventReg(fate, st1, id, CreatedEvent);
      var st2 := AddEvent(fate, st1, id, CreatedEvent);
      NoEntryWithoutRow(st, id);
      NewEntryReg(st2, id, owner);
    }
  }

  lemma NoEntryWithoutRow(st: State, id: SessionId)
    requires RegInv(st) && id !in st.db.rows
    ensures id !in st.runtimes
  {
  }

  lemma NewEntryReg(st: State, id: SessionId, owner: UserId)
    requires RegInv(st) && id !in st.runtimes && id in st.db.rows && st.db.rows[id].owner == owner
    ensures RegInv(st.(runtimes := st.runtimes[id := RuntimeEntry(owner, RuntimeStarting, None)]))
  {
    var st' := st.(runtimes := st.runtimes[id := RuntimeEntry(owner, RuntimeStarting, None)]);
    forall t | t in st'.timers ensures TimerOk(st', t) {
      assert TimerOk(st, t);
    }
    forall k | k in st'.runtimes ensures EntryOk(st', k) {
      if k != id {
        assert EntryOk(st, k);
      }
    }
  }

  lemma ActivateRowReg(fate: Fate, st: State, owner: UserId, id: SessionId)
    requires RegInv(st) && id in st.runtimes
    ensures RegInv(ActivateRow(fate, st, owner, id).0)
  {
    SetStatusReg(fate, st, id, Active, None);
    var st1 := SetStatus(fate, st, id, Active, None);
    CalledReg(st1);
    InstallLiveReg(Called(st1), id);
  }

  lemma StartReg(fate: Fate, st: State, owner: UserId, id: SessionId)
    requires RegInv(st)
    ensures RegInv(StartLivePty(fate, st, owner, id).0)
  {
    CalledReg(st);
    if id in st.runtimes {
      ActivateRowReg(fate, Called(st), owner, id);
    }
  }

  lemma StartFailedReg(fate: Fate, st: State, owner: UserId, id: SessionId, now: Time)
    requires RegInv(st)
    ensures RegInv(RecordPtyStartFailed(fate, st, owner, id, now).0)
  {
    var st0 := EndRuntime(st, id);
    EndRuntimeReg(st, id);
    CalledReg(st0);
    var st2 := SetStatus(fate, Called(st0), id, Closed, Some(now));
    SetStatusReg(fate, Called(st0), id, Closed, Some(now));
    AddEventReg(fate, st2, id, ClosedEvent);
    var st3 := AddEvent(fate, st2, id, ClosedEvent);
    AttachedShrinks(st3, DropAttachments(st3, id));
    RemoveRuntimeReg(DropAttachments(st3, id), id);
  }

  lemma CloseOpenRowReg(fate: Fate, st: State, id: SessionId, owner: UserId, now: Time)
    requires RegInv(st)
    ensures RegInv(CloseOpenRow(fate, st, id, owner, now).0)
  {
    var st1 := SetStatus(fate, st, id, Closed, Some(now));
    SetStatusReg(fate, st, id, Closed, Some(now));
    var st2 := AddEvent(fate, st1, id, ClosedEvent);
    AddEventReg(fate, st1, id, ClosedEvent);
    CalledReg(st2);
    var st3 := RemoveRuntime(Called(st2), id);
    RemoveRuntimeReg(Called(st2), id);
    AttachedShrinks(st3, DropAttachments(st3, id));
  }

  lemma CloseReg(fate: Fate, st: State, id: SessionId, owner: UserId, now: Time)
    requires RegInv(st)
    ensures RegInv(CloseSession(fate, st, id, owner, now).0)
  {
    CalledReg(st);
    RemoveRuntimeReg(Called(st), id);
    CloseOpenRowReg(fate, Called(st), id, owner, now);
  }

  lemma FinishAttachReg(fate: Fate, st: State, owner: UserId, id: SessionId, a: AttachmentId, resumed: bool)
    requires RegInv(st) && PendingOf(st, id).None?
    ensures RegInv(FinishAttach(fate, st, owner, id, a, resumed).0)
  {
    RegisterReg(st, id, a, owner);
    SetStatusReg(fate, st, id, Active, None);
    var st1 := SetStatus(fate, st, id, Active, None);
    AddEventReg(fate, st1, id, ReattachedEvent);
    RegisterReg(AddEvent(fate, st1, id, ReattachedEvent), id, a, owner);
  }

  lemma WriteAttachmentReg(fate: Fate, st: State, owner: UserId, id: SessionId, a: AttachmentId, resumed: bool)
    requires RegInv(st) && PendingOf(st, id).None?
    ensures RegInv(WriteAttachment(fate, st, owner, id, a, resumed).0)
  {
    CalledReg(st);
    var st1 := InsertAttachment(Called(st), id, a);
    DbOnly(Called(st), st1);
    AddEventReg(fate, st1, id, AttachedEvent);
    FinishAttachReg(fate, AddEvent(fate, st1, id, AttachedEvent), owner, id, a, resumed);
  }

  lemma AttachReg(fate: Fate, st: State, owner: UserId, id: SessionId, a: AttachmentId)
    requires RegInv(st)
    ensures RegInv(AttachSession(fate, st, owner, id, a).0)
  {
    CalledReg(st);
    CancelReg(Called(st), id);
    WriteAttachmentReg(fate, CancelPendingClose(Called(st), id), owner, id, a, PendingOf(Called(st), id).Some?);
  }

  /** `st'` differs from `st` in attachment rows, events, calls and possibly the registration of `a`. */
  ghost predicate OnlyForgets(st: State, st': State, a: AttachmentId) {
    && st'.runtimes == st.runtimes && st'.timers == st.timers && st'.nextTimer == st.nextTimer
    && st'.db.rows == st.db.rows
    && (st'.attached == st.attached || st'.attached == st.attached - {a})
  }

  lemma WriteDetachedFrame(fate: Fate, st: State, id: SessionId, a: AttachmentId)
    requires a in st.db.attachments
    ensures OnlyForgets(st, WriteDetached(fate, st, id, a).0, a)
  {
  }

  /** Detaching only forgets an attachment and writes to the database. */
  lemma DetachSessionFrame(fate: Fate, st: State, owner: UserId, id: SessionId, a: AttachmentId)
    ensures OnlyForgets(st, DetachSession(fate, st, owner, id, a).0, a)
  {
    var st2 := Called(Called(st));
    if a in st2.db.attachments {
      WriteDetachedFrame(fate, st2, id, a);
    }
  }

  lemma DetachSessionReg(fate: Fate, st: State, owner: UserId, id: SessionId, a: AttachmentId)
    requires RegInv(st)
    ensures RegInv(DetachSession(fate, st, owner, id, a).0)
  {
    var st' := DetachSession(fate, st, owner, id, a).0;
    DetachSessionFrame(fate, st, owner, id, a);
    var mid := st.(db := st'.db);
    DbOnly(st, mid);
    AttachedShrinks(mid, st');
  }

  lemma BumpTimerReg(st: State)
    requires RegInv(st)
    ensures RegInv(st.(nextTimer := st.nextTimer + 1))
  {
    var st' := st.(nextTimer := st.nextTimer + 1);
    forall t | t in st'.timers ensures TimerOk(st', t) {
      assert TimerOk(st, t);
    }
    forall k | k in st'.runtimes ensures EntryOk(st', k) {
      assert EntryOk(st, k);
    }
  }

  lemma ScheduleReg(fate: Fate, st: State, id: SessionId, owner: UserId, now: Time, ttl: nat)
    requires RegInv(st) && HasLive(st, id) && !AnyAttached(st, id) && owner == st.runtimes[id].owner
    ensures RegInv(ScheduleDetachClose(fate, st, id, owner, now, ttl).0)
  {
    SetStatusReg(fate, st, id, Detached, None);
    var st1 := SetStatus(fate, st, id, Detached, None);
    BumpTimerReg(st1);
    if PendingOf(st1, id).None? {
      ArmTimerReg(st1, id, owner, now, ttl);
    }
  }

  lemma DetachReg(fate: Fate, st: State, owner: UserId, id: SessionId, a: AttachmentId, now: Time, ttl: nat)
    requires RegInv(st)
    ensures RegInv(DetachAttachment(fate, st, owner, id, a, now, ttl).0)
  {
    var (st1, r) := DetachSession(fate, st, owner, id, a);
    DetachSessionReg(fate, st, owner, id, a);
    if r.Ok? && !r.value && !AnyAttached(st1, id) && HasLive(st1, id) {
      DetachSessionFrame(fate, st, owner, id, a);
      assert EntryOk(st1, id);
      assert GetOwned(fate, st, id, owner).Ok?;
      ScheduleReg(fate, st1, id, owner, now, ttl);
    }
  }

  lemma UnarmedReg(st: State, t: TimerId)
    requires RegInv(st)
    ensures RegInv(st.(timers := st.timers - {t}))
  {
    var st1 := st.(timers := st.timers - {t});
    forall u | u in st1.timers ensures TimerOk(st1, u) {
      assert TimerOk(st, u);
    }
    forall k | k in st1.runtimes ensures EntryOk(st1, k) {
      assert EntryOk(st, k);
    }
  }

  lemma FireReg(fate: Fate, st: State, t: TimerId, now: Time)
    requires RegInv(st) && t in st.timers
    ensures RegInv(Expire(fate, st, t, now))
  {
    UnarmedReg(st, t);
    CloseReg(fate, st.(timers := st.timers - {t}), st.timers[t].session, st.timers[t].owner, now);
  }

  lemma TeardownReg(fate: Fate, st: State, id: SessionId, owner: UserId, now: Time)
    requires RegInv(st)
    ensures RegInv(ForwarderTeardown(fate, st, id, owner, now))
  {
    var st1 := Called(st);
    CalledReg(st);
    SetStatusReg(fate, st1, id, Closed, Some(now));
    AddEventReg(fate, SetStatus(fate, st1, id, Closed, Some(now)), id, ClosedEvent);
  }

  lemma ResizeReg(fate: Fate, st: State, owner: UserId, id: SessionId, cols: nat, rows: nat)
    requires RegInv(st)
    ensures RegInv(ResizeSession(fate, st, owner, id, cols, rows).0)
  {
    CalledReg(st);
    AddEventReg(fate, Called(st), id, ResizedEvent);
  }

  lemma NextReg(fate: Fate, ttl: nat, st: State, step: Step, now: Time)
    requires RegInv(st) && Possible(st, step, now)
    ensures RegInv(Next(fate, ttl, st, step, now))
  {
    match step
    case Create(id, owner, cols, rows) => CreateReg(fate, st, id, owner, cols, rows);
    case Start(owner, id) => StartReg(fate, st, owner, id);
    case StartFailed(owner, id) => StartFailedReg(fate, st, owner, id, now);
    case Close(id, owner) => CloseReg(fate, st, id, owner, now);
    case Attach(owner, id, a) => AttachReg(fate, st, owner, id, a);
    case DetachOnly(owner, id, a) => DetachSessionReg(fate, st, owner, id, a);
    case Detach(owner, id, a) => DetachReg(fate, st, owner, id, a, now, ttl);
    case Fire(t) => FireReg(fate, st, t, now);
    case Teardown(id, owner) => TeardownReg(fate, st, id, owner, now);
    case Resize(owner, id, cols, rows) => ResizeReg(fate, st, owner, id, cols, rows);
  }

  lemma {:induction false} RunReg(fate: Fate, ttl: nat, st: State, steps: seq<Timed>)
    requires RegInv(st)
    ensures RegInv(Run(fate, ttl, st, steps))
    decreases |steps|
  {
    if steps != [] {
      var Timed(step, now) := steps[0];
      if Possible(st, step, now) {
        NextReg(fate, ttl, st, step, now);
        RunReg(fate, ttl, Next(fate, ttl, st, step, now), steps[1..]);
      } else {
        RunReg(fate, ttl, st, steps[1..]);
      }
    }
  }
}

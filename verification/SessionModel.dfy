/** The session manager's operations as functions of its whole state: the database, the
    runtime registry, the attachment registry and the armed detach timers. Each database
    call may fail; the n-th call succeeds when `fate(n)` does. */
module SessionModel {
  import opened Common

  type SessionId = nat
  type UserId = nat
  type AttachmentId = nat
  type TimerId = nat
  type Time = int

  datatype RowStatus = Starting | Active | Detached | Closed

  datatype SessionRow = SessionRow(owner: UserId, status: RowStatus, closedAt: Option<Time>)

  datatype AttachmentRow = AttachmentRow(session: SessionId, detached: bool)

  datatype EventKind = CreatedEvent | AttachedEvent | ReattachedEvent | DetachedEvent | ResizedEvent | ClosedEvent

  datatype Event = Event(session: SessionId, kind: EventKind)

  /** An append-only log. */
  datatype Log<X(==)> = Empty | Append(earlier: Log<X>, last: X) {
    function Count(x: X): nat {
      match this
      case Empty => 0
      case Append(earlier, last) => earlier.Count(x) + if last == x then 1 else 0
    }
  }

  /** The persisted tables. `closings` and `reopenings` log every status write that turned a
      row Closed or un-Closed it; the program does not read them. */
  datatype Db = Db(
    rows: map<SessionId, SessionRow>,
    attachments: map<AttachmentId, AttachmentRow>,
    events: Log<Event>,
    calls: nat,
    closings: Log<SessionId>,
    reopenings: Log<SessionId>)

  datatype DetachInfo = DetachInfo(detachedAt: Time, expiresAt: Time)

  /** `DetachClose`: the deadline and the timer that closes the session at it. */
  datatype PendingClose = PendingClose(info: DetachInfo, timer: TimerId)

  datatype LiveRuntime = LiveRuntime(detachClose: Option<PendingClose>)

  datatype RuntimeStatus = RuntimeStarting | RuntimeLive | RuntimeEnded

  datatype RuntimeEntry = RuntimeEntry(owner: UserId, status: RuntimeStatus, live: Option<LiveRuntime>)

  datatype AttachmentRuntime = AttachmentRuntime(session: SessionId, owner: UserId)

  datatype Timer = Timer(session: SessionId, owner: UserId, deadline: Time)

  /** `timers` holds the detach-close tasks that are neither aborted nor fired. */
  datatype State = State(
    db: Db,
    runtimes: map<SessionId, RuntimeEntry>,
    attached: map<AttachmentId, AttachmentRuntime>,
    timers: map<TimerId, Timer>,
    nextTimer: TimerId)

  datatype Error = InvalidDimensions | NotFound | SessionClosed | RepositoryFailed

  const MIN_DIM: nat := 1
  const MAX_DIM: nat := 4096

  function Initial(): State {
    State(Db(map[], map[], Empty, 0, Empty, Empty), map[], map[], map[], 0)
  }

  // ---------- database calls ----------

  function Called(st: State): State {
    st.(db := st.db.(calls := st.db.calls + 1))
  }

  /** `get(id)` filtered on the owner: a foreign row looks like a missing one. */
  function GetOwned(fate: Fate, st: State, id: SessionId, owner: UserId): Result<SessionRow, Error> {
    if !fate(st.db.calls) then Err(RepositoryFailed)
    else if id in st.db.rows && st.db.rows[id].owner == owner then Ok(st.db.rows[id])
    else Err(NotFound)
  }

  function WriteStatus(db: Db, id: SessionId, status: RowStatus, closedAt: Option<Time>): Db
    requires id in db.rows
  {
    var was := db.rows[id].status;
    db.(rows := db.rows[id := db.rows[id].(status := status, closedAt := closedAt)],
        closings := if status.Closed? && !was.Closed? then Append(db.closings, id) else db.closings,
        reopenings := if was.Closed? && !status.Closed? then Append(db.reopenings, id) else db.reopenings)
  }

  predicate StatusWriteOk(fate: Fate, st: State, id: SessionId) {
    fate(st.db.calls) && id in st.db.rows
  }

  /** `set_status`. */
  function SetStatus(fate: Fate, st: State, id: SessionId, status: RowStatus, closedAt: Option<Time>): State {
    var st1 := Called(st);
    if StatusWriteOk(fate, st, id) then st1.(db := WriteStatus(st1.db, id, status, closedAt)) else st1
  }

  /** Append a lifecycle event; it lands when `fate` lets it. */
  function AddEvent(fate: Fate, st: State, id: SessionId, kind: EventKind): State {
    var st1 := Called(st);
    if fate(st.db.calls) then st1.(db := st1.db.(events := Append(st1.db.events, Event(id, kind)))) else st1
  }

  // ---------- registry helpers ----------

  /** The timers left after dropping an entry's live runtime: its own is aborted. */
  function AbortTimer(timers: map<TimerId, Timer>, e: RuntimeEntry): map<TimerId, Timer> {
    if e.live.Some? && e.live.value.detachClose.Some? then timers - {e.live.value.detachClose.value.timer} else timers
  }

  function RemoveRuntime(st: State, id: SessionId): State {
    if id in st.runtimes then st.(runtimes := st.runtimes - {id}, timers := AbortTimer(st.timers, st.runtimes[id]))
    else st
  }

  function DropAttachments(st: State, id: SessionId): State {
    st.(attached := map a | a in st.attached && st.attached[a].session != id :: st.attached[a])
  }

  predicate HasLive(st: State, id: SessionId) {
    id in st.runtimes && st.runtimes[id].live.Some?
  }

  function PendingOf(st: State, id: SessionId): Option<PendingClose> {
    if HasLive(st, id) then st.runtimes[id].live.value.detachClose else None
  }

  predicate AnyAttached(st: State, id: SessionId) {
    exists a :: a in st.attached && st.attached[a].session == id
  }

  // ---------- operations ----------

  predicate ValidDim(v: nat) {
    MIN_DIM <= v <= MAX_DIM
  }

  /** `create_session`; `id` is the fresh identifier, and inserting a taken one fails. */
  function CreateSession(fate: Fate, st: State, id: SessionId, owner: UserId, cols: nat, rows: nat)
    : (State, Result<(), Error>)
  {
    if !ValidDim(cols) || !ValidDim(rows) then (st, Err(InvalidDimensions))
    else if !fate(st.db.calls) || id in st.db.rows then (Called(st), Err(RepositoryFailed))
    else
      var st1 := Called(st).(db := Called(st).db.(rows := st.db.rows[id := SessionRow(owner, Starting, None)]));
      var st2 := AddEvent(fate, st1, id, CreatedEvent);
      if !fate(st1.db.calls) then (st2, Err(RepositoryFailed))
      else (st2.(runtimes := st2.runtimes[id := RuntimeEntry(owner, RuntimeStarting, None)]), Ok(()))
  }

  /** The registry half of `start_live_pty`. */
  function InstallLive(st: State, id: SessionId): State
    requires id in st.runtimes
  {
    var e := st.runtimes[id];
    st.(runtimes := st.runtimes[id := RuntimeEntry(e.owner, RuntimeLive, Some(LiveRuntime(None)))],
        timers := AbortTimer(st.timers, e))
  }

  /** `start_live_pty` past its checks: write Active, read the row back, install. */
  function ActivateRow(fate: Fate, st: State, owner: UserId, id: SessionId): (State, Result<(), Error>)
    requires id in st.runtimes
  {
    var st1 := SetStatus(fate, st, id, Active, None);
    if !StatusWriteOk(fate, st, id) then (st1, Err(RepositoryFailed))
    else
      var again := GetOwned(fate, st1, id, owner);
      if again.Err? then (Called(st1), Err(again.error)) else (InstallLive(Called(st1), id), Ok(()))
  }

  /** `start_live_pty` as one step. */
  function StartLivePty(fate: Fate, st: State, owner: UserId, id: SessionId): (State, Result<(), Error>) {
    var got := GetOwned(fate, st, id, owner);
    var st1 := Called(st);
    if got.Err? then (st1, Err(got.error))
    else if got.value.status.Closed? then (st1, Err(SessionClosed))
    else if id !in st1.runtimes then (st1, Err(NotFound))
    else ActivateRow(fate, st1, owner, id)
  }

  /** Drop any partial live runtime. */
  function EndRuntime(st: State, id: SessionId): State {
    if id in st.runtimes then
      st.(runtimes := st.runtimes[id := RuntimeEntry(st.runtimes[id].owner, RuntimeEnded, None)],
          timers := AbortTimer(st.timers, st.runtimes[id]))
    else st
  }

  /** `record_pty_start_failed`; the event is best-effort. */
  function RecordPtyStartFailed(fate: Fate, st: State, owner: UserId, id: SessionId, now: Time)
    : (State, Result<(), Error>)
  {
    var st0 := EndRuntime(st, id);
    var got := GetOwned(fate, st0, id, owner);
    var st1 := Called(st0);
    if got.Err? then (st1, Err(got.error))
    else if got.value.status.Closed? then (st1, Ok(()))
    else
      var st2 := SetStatus(fate, st1, id, Closed, Some(now));
      if !StatusWriteOk(fate, st1, id) then (st2, Err(RepositoryFailed))
      else (RemoveRuntime(DropAttachments(AddEvent(fate, st2, id, ClosedEvent), id), id), Ok(()))
  }

  /** `close_session` on a row found open: status, event and read-back must all succeed
      before anything is forgotten. */
  function CloseOpenRow(fate: Fate, st: State, id: SessionId, owner: UserId, now: Time): (State, Result<bool, Error>) {
    var st1 := SetStatus(fate, st, id, Closed, Some(now));
    if !StatusWriteOk(fate, st, id) then (st1, Err(RepositoryFailed))
    else
      var st2 := AddEvent(fate, st1, id, ClosedEvent);
      if !fate(st1.db.calls) then (st2, Err(RepositoryFailed))
      else
        var again := GetOwned(fate, st2, id, owner);
        if again.Err? then (Called(st2), Err(again.error))
        else (DropAttachments(RemoveRuntime(Called(st2), id), id), Ok(false))
  }

  /** `close_session`; `Ok(true)` reports a row that was already Closed. */
  function CloseSession(fate: Fate, st: State, id: SessionId, owner: UserId, now: Time): (State, Result<bool, Error>) {
    var got := GetOwned(fate, st, id, owner);
    var st1 := Called(st);
    if got.Err? then (st1, Err(got.error))
    else if got.value.status.Closed? then (RemoveRuntime(st1, id), Ok(true))
    else CloseOpenRow(fate, st1, id, owner, now)
  }

  /** `cancel_pending_close`. */
  function CancelPendingClose(st: State, id: SessionId): State {
    if PendingOf(st, id).Some? then
      st.(runtimes := st.runtimes[id := st.runtimes[id].(live := Some(LiveRuntime(None)))],
          timers := AbortTimer(st.timers, st.runtimes[id]))
    else st
  }

  function Register(st: State, id: SessionId, a: AttachmentId, owner: UserId): State {
    st.(attached := st.attached[a := AttachmentRuntime(id, owner)])
  }

  /** The tail of `attach_session` once the attachment row and its event are written. */
  function FinishAttach(fate: Fate, st: State, owner: UserId, id: SessionId, a: AttachmentId, resumed: bool)
    : (State, Result<bool, Error>)
  {
    if !resumed then (Register(st, id, a, owner), Ok(HasLive(st, id)))
    else
      var st1 := SetStatus(fate, st, id, Active, None);
      if !StatusWriteOk(fate, st, id) then (st1, Err(RepositoryFailed))
      else (Register(AddEvent(fate, st1, id, ReattachedEvent), id, a, owner), Ok(HasLive(st, id)))
  }

  function InsertAttachment(st: State, id: SessionId, a: AttachmentId): State {
    st.(db := st.db.(attachments := st.db.attachments[a := AttachmentRow(id, false)]))
  }

  /** `attach_session` past its gate and with any pending close cancelled. */
  function WriteAttachment(fate: Fate, st: State, owner: UserId, id: SessionId, a: AttachmentId, resumed: bool)
    : (State, Result<bool, Error>)
  {
    if !fate(st.db.calls) || a in st.db.attachments then (Called(st), Err(RepositoryFailed))
    else
      var st1 := InsertAttachment(Called(st), id, a);
      var st2 := AddEvent(fate, st1, id, AttachedEvent);
      if !fate(st1.db.calls) then (st2, Err(RepositoryFailed))
      else FinishAttach(fate, st2, owner, id, a, resumed)
  }

  /** `attach_session`; `a` is the fresh attachment identifier. `Ok` carries whether a live PTY is bound. */
  function AttachSession(fate: Fate, st: State, owner: UserId, id: SessionId, a: AttachmentId)
    : (State, Result<bool, Error>)
  {
    var got := GetOwned(fate, st, id, owner);
    var st1 := Called(st);
    if got.Err? then (st1, Err(got.error))
    else if got.value.status.Closed? then (st1, Err(SessionClosed))
    else WriteAttachment(fate, CancelPendingClose(st1, id), owner, id, a, PendingOf(st1, id).Some?)
  }

  /** `get_attachment(a)` filtered on the session. */
  function GetAttachment(fate: Fate, st: State, id: SessionId, a: AttachmentId): Result<AttachmentRow, Error> {
    if !fate(st.db.calls) then Err(RepositoryFailed)
    else if a in st.db.attachments && st.db.attachments[a].session == id then Ok(st.db.attachments[a])
    else Err(NotFound)
  }

  function Unregister(st: State, a: AttachmentId): State {
    st.(attached := st.attached - {a})
  }

  function MarkDetached(st: State, a: AttachmentId): State
    requires a in st.db.attachments
  {
    st.(db := st.db.(attachments := st.db.attachments[a := st.db.attachments[a].(detached := true)]))
  }

  /** `detach_session` on a row found attached. */
  function WriteDetached(fate: Fate, st: State, id: SessionId, a: AttachmentId): (State, Result<bool, Error>)
    requires a in st.db.attachments
  {
    if !fate(st.db.calls) then (Called(st), Err(RepositoryFailed))
    else
      var st1 := MarkDetached(Called(st), a);
      var st2 := AddEvent(fate, st1, id, DetachedEvent);
      if !fate(st1.db.calls) then (st2, Err(RepositoryFailed))
      else
        var again := GetAttachment(fate, st2, id, a);
        if again.Err? then (Called(st2), Err(again.error)) else (Unregister(Called(st2), a), Ok(false))
  }

  /** `detach_session`; `Ok(true)` reports a row that was already detached. */
  function DetachSession(fate: Fate, st: State, owner: UserId, id: SessionId, a: AttachmentId)
    : (State, Result<bool, Error>)
  {
    var got := GetOwned(fate, st, id, owner);
    var st1 := Called(st);
    if got.Err? then (st1, Err(got.error))
    else
      var att := GetAttachment(fate, st1, id, a);
      var st2 := Called(st1);
      if att.Err? then (st2, Err(att.error))
      else if att.value.detached then (Unregister(st2, a), Ok(true))
      else WriteDetached(fate, st2, id, a)
  }

  function ArmTimer(st: State, id: SessionId, owner: UserId, now: Time, ttl: nat): State
    requires HasLive(st, id)
  {
    var info := DetachInfo(now, now + ttl);
    var live := LiveRuntime(Some(PendingClose(info, st.nextTimer)));
    st.(runtimes := st.runtimes[id := st.runtimes[id].(live := Some(live))],
        timers := st.timers[st.nextTimer := Timer(id, owner, now + ttl)],
        nextTimer := st.nextTimer + 1)
  }

  /** `schedule_detach_close`: a failed status write is tolerated, an existing deadline kept,
      and the freshly spawned task aborted whenever it is not installed. */
  function ScheduleDetachClose(fate: Fate, st: State, id: SessionId, owner: UserId, now: Time, ttl: nat)
    : (State, Option<DetachInfo>)
  {
    var st1 := SetStatus(fate, st, id, Detached, None);
    if !HasLive(st1, id) then (st1.(nextTimer := st1.nextTimer + 1), None)
    else if PendingOf(st1, id).Some? then (st1.(nextTimer := st1.nextTimer + 1), Some(PendingOf(st1, id).value.info))
    else (ArmTimer(st1, id, owner, now, ttl), Some(DetachInfo(now, now + ttl)))
  }

  /** `detach_attachment`: detach, then schedule a close when that left a live PTY unattended. */
  function DetachAttachment(fate: Fate, st: State, owner: UserId, id: SessionId, a: AttachmentId, now: Time, ttl: nat)
    : (State, Result<Option<DetachInfo>, Error>)
  {
    var (st1, r) := DetachSession(fate, st, owner, id, a);
    if r.Err? then (st1, Err(r.error))
    else if r.value || AnyAttached(st1, id) || !HasLive(st1, id) then (st1, Ok(None))
    else
      var (st2, info) := ScheduleDetachClose(fate, st1, id, owner, now, ttl);
      (st2, Ok(info))
  }

  /** `expire_detach_close`, run by the timer task `t` once its deadline has passed. */
  function Expire(fate: Fate, st: State, t: TimerId, now: Time): State
    requires t in st.timers
  {
    var Timer(id, owner, _) := st.timers[t];
    var st1 := st.(timers := st.timers - {t});
    if PendingOf(st1, id).None? then st1 else CloseSession(fate, st1, id, owner, now).0
  }

  /** The end of `forward_pty_output`: both writes are best-effort. */
  function ForwarderTeardown(fate: Fate, st: State, id: SessionId, owner: UserId, now: Time): State {
    var got := GetOwned(fate, st, id, owner);
    var st1 := Called(st);
    if got.Err? || got.value.status.Closed? then st1
    else AddEvent(fate, SetStatus(fate, st1, id, Closed, Some(now)), id, ClosedEvent)
  }

  /** `resize_session`, as far as it is persisted. */
  function ResizeSession(fate: Fate, st: State, owner: UserId, id: SessionId, cols: nat, rows: nat)
    : (State, Result<(), Error>)
  {
    if !ValidDim(cols) || !ValidDim(rows) then (st, Err(InvalidDimensions))
    else
      var got := GetOwned(fate, st, id, owner);
      var st1 := Called(st);
      if got.Err? then (st1, Err(got.error))
      else if got.value.status.Closed? then (st1, Err(SessionClosed))
      else
        var st2 := AddEvent(fate, st1, id, ResizedEvent);
        (st2, if fate(st1.db.calls) then Ok(()) else Err(RepositoryFailed))
  }

  // ---------- the step system ----------

  /** One atomic step: a manager operation, a forwarder reaching the end of its stream, or a timer firing. */
  datatype Step =
    | Create(id: SessionId, owner: UserId, cols: nat, rows: nat)
    | Start(owner: UserId, id: SessionId)
    | StartFailed(owner: UserId, id: SessionId)
    | Close(id: SessionId, owner: UserId)
    | Attach(owner: UserId, id: SessionId, a: AttachmentId)
    | DetachOnly(owner: UserId, id: SessionId, a: AttachmentId)
    | Detach(owner: UserId, id: SessionId, a: AttachmentId)
    | Fire(t: TimerId)
    | Teardown(id: SessionId, owner: UserId)
    | Resize(owner: UserId, id: SessionId, cols: nat, rows: nat)

  /** A timer may fire only while armed and past its deadline; every other step may be tried at any time. */
  predicate Possible(st: State, step: Step, now: Time) {
    step.Fire? ==> step.t in st.timers && st.timers[step.t].deadline <= now
  }

  function Next(fate: Fate, ttl: nat, st: State, step: Step, now: Time): State
    requires Possible(st, step, now)
  {
    match step
    case Create(id, owner, cols, rows) => CreateSession(fate, st, id, owner, cols, rows).0
    case Start(owner, id) => StartLivePty(fate, st, owner, id).0
    case StartFailed(owner, id) => RecordPtyStartFailed(fate, st, owner, id, now).0
    case Close(id, owner) => CloseSession(fate, st, id, owner, now).0
    case Attach(owner, id, a) => AttachSession(fate, st, owner, id, a).0
    case DetachOnly(owner, id, a) => DetachSession(fate, st, owner, id, a).0
    case Detach(owner, id, a) => DetachAttachment(fate, st, owner, id, a, now, ttl).0
    case Fire(t) => Expire(fate, st, t, now)
    case Teardown(id, owner) => ForwarderTeardown(fate, st, id, owner, now)
    case Resize(owner, id, cols, rows) => ResizeSession(fate, st, owner, id, cols, rows).0
  }

  datatype Timed = Timed(step: Step, now: Time)

  function RunOne(fate: Fate, ttl: nat, st: State, step: Step, now: Time): State {
    if Possible(st, step, now) then Next(fate, ttl, st, step, now) else st
  }

  /** A run: a timer that cannot fire when its turn comes does nothing. */
  function Run(fate: Fate, ttl: nat, st: State, steps: seq<Timed>): State
    decreases |steps|
  {
    if steps == [] then st
    else Run(fate, ttl, RunOne(fate, ttl, st, steps[0].step, steps[0].now), steps[1..])
  }
}

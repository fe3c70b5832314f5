/** The markers of a recording: which calls are accepted, and that exactly those are written, in
    order, each behind the rows of every frame taken before it. */
module RecordingMarkers {
  import opened Common
  import opened RecordingModel
  import opened RecordingLedger
  import opened RecordingWriter
  import opened RecordingSystem
  import opened T = RecordingTheorems

  // ---------- what the channel accepts ----------

  /** `record_marker` queues its marker, last and unchanged, exactly when the channel is open and
      uncongested with fewer than 256 commands queued and the seq is in `1..=i64::MAX`, or 0 for
      `started`. The pending gap is not touched. */
  lemma MarkerQueuedIff(
    p: Producer, receiverOpen: bool, congested: bool, kind: MarkerKind, seqNo: nat, payload: Payload)
    ensures RecordMarker(p, receiverOpen, congested, kind, seqNo, payload) ==
      if receiverOpen && !congested && |p.queue| < 256
         && seqNo <= 0x7FFF_FFFF_FFFF_FFFF && (seqNo == 0 ==> kind.Started?)
      then Producer(p.pendingGap, p.queue + [Marker(kind, seqNo, payload)])
      else p
  {
  }

  /** `record_output` keeps a frame exactly when it fits the cap and the channel is open and
      uncongested with fewer than 256 commands queued. It is then last in the queue, with its
      bytes and the gap that was pending, and no gap is pending any more. */
  lemma FrameKeptIff(
    hardCap: nat, p: Producer, receiverOpen: bool, congested: bool, seqNo: nat, data: Bytes)
    ensures VerdictOf(hardCap, p.queue, receiverOpen, congested, data).Kept?
       <==> |data| <= hardCap && receiverOpen && !congested && |p.queue| < 256
    ensures var p' := RecordOutput(hardCap, p, receiverOpen, congested, seqNo, data);
      if VerdictOf(hardCap, p.queue, receiverOpen, congested, data).Kept?
      then p' == Producer(None, p.queue + [Output(seqNo, data, p.pendingGap)])
      else p'.queue == p.queue
  {
  }

  /** The smallest range over both, under `reason`. */
  ghost predicate Hull(g: PendingGap, a: PendingGap, b: PendingGap, reason: GapReason) {
    && g.reason == reason
    && g.fromSeq <= a.fromSeq && g.fromSeq <= b.fromSeq && (g.fromSeq == a.fromSeq || g.fromSeq == b.fromSeq)
    && g.toSeq >= a.toSeq && g.toSeq >= b.toSeq && (g.toSeq == a.toSeq || g.toSeq == b.toSeq)
  }

  /** A gap put back into an occupied slot is merged into the smallest range over both, under the
      slot's reason; into an empty slot it goes unchanged. */
  lemma RestoreMerges(slot: Option<PendingGap>, gap: PendingGap)
    ensures var r := RestoreGap(slot, gap);
      r.Some? && if slot.Some? then Hull(r.value, slot.value, gap, slot.value.reason) else r.value == gap
  {
  }

  /** A frame not kept becomes part of the pending gap, under the earliest reason, except on a
      closed channel, which also drops the gap that was pending. */
  lemma UnkeptFrameInGap(
    hardCap: nat, p: Producer, receiverOpen: bool, congested: bool, seqNo: nat, data: Bytes)
    requires !VerdictOf(hardCap, p.queue, receiverOpen, congested, data).Kept?
    ensures var gap := RecordOutput(hardCap, p, receiverOpen, congested, seqNo, data).pendingGap;
      var reason := if |data| > hardCap then FrameOversized else WriterOverflow;
      if |data| <= hardCap && !receiverOpen then gap.None?
      else
        && gap.Some?
        && if p.pendingGap.Some? then
             Hull(gap.value, p.pendingGap.value, PendingGap(seqNo, seqNo, reason), p.pendingGap.value.reason)
           else gap.value == PendingGap(seqNo, seqNo, reason)
  {
  }

  // ---------- what one write leaves ----------

  /** A gap marker is attempted exactly when both ends fit `i64`, at the range's upper end. */
  lemma GapWrittenIff(fate: Fate, log: seq<Attempt>, gap: PendingGap)
    ensures WriteGap(fate, log, gap) ==
      if gap.fromSeq <= 0x7FFF_FFFF_FFFF_FFFF && gap.toSeq <= 0x7FFF_FFFF_FFFF_FFFF
      then log + [Attempt(MarkerRow(ReplayGap, Max(1, gap.toSeq), GapRange(gap)), fate(|log|))]
      else log
  {
  }

  /** The writer's own guard: a frame above the cap that reaches it is bracketed, not written. The
      batch is flushed and a `frame_oversized` gap over exactly that seq comes last. */
  lemma OversizedAtWriter(cfg: Config, fate: Fate, w: Writer, n: nat, data: Bytes)
    requires |data| > cfg.hardCap && n <= 0x7FFF_FFFF_FFFF_FFFF
    ensures var w' := HandleOutput(cfg, fate, w, n, data, None);
      && w'.open.None? && |w'.log| > 0
      && w'.log[..|w'.log| - 1] == Flush(fate, w).log
      && w'.log[|w'.log| - 1].row
         == MarkerRow(ReplayGap, Max(1, n), GapRange(PendingGap(n, n, FrameOversized)))
  {
    var log := Flush(fate, w).log;
    GapWrittenIff(fate, log, PendingGap(n, n, FrameOversized));
    var w' := HandleOutput(cfg, fate, w, n, data, None);
    assert w'.log[..|log|] == log;
  }

  /** The step is a marker call the channel accepts. */
  predicate Accepts(s: System, step: Step) {
    && step.AddMarker? && Possible(s, step) && !s.mode.Stopped?
    && !step.congested && |s.producer.queue| < 256 && 1 <= step.seqNo <= 0x7FFF_FFFF_FFFF_FFFF
  }

  /** The accepted markers of a run, in send order. */
  function Accepted(cfg: Config, fate: Fate, s: System, steps: seq<Step>): seq<Row>
    decreases |steps|
  {
    if steps == [] then []
    else
      var rest := Accepted(cfg, fate, RunOne(cfg, fate, s, steps[0]), steps[1..]);
      if Accepts(s, steps[0]) then [MarkerRow(steps[0].kind, steps[0].seqNo, steps[0].payload)] + rest else rest
  }

  // ---------- what the log and the queue hold ----------

  /** The attempted marker rows that are not gaps, in order. */
  function PlainRows(log: seq<Attempt>): seq<Row> {
    if log == [] then []
    else
      var rest := PlainRows(log[..|log| - 1]);
      if IsPlainMarker(log[|log| - 1].row) then rest + [log[|log| - 1].row] else rest
  }

  lemma PlainSnoc(log: seq<Attempt>, a: Attempt)
    ensures PlainRows(log + [a]) == PlainRows(log) + if IsPlainMarker(a.row) then [a.row] else []
  {
    assert (log + [a])[..|log|] == log;
  }

  lemma {:induction false} DataKeepsPlain(log: seq<Attempt>, log': seq<Attempt>)
    requires AddsData(log, log')
    ensures PlainRows(log') == PlainRows(log)
    decreases |log'|
  {
    if |log| < |log'| {
      var init := log'[..|log'| - 1];
      assert log <= init;
      assert forall i | |log| <= i < |init| :: init[i] == log'[i];
      DataKeepsPlain(log, init);
      PlainSnoc(init, log'[|log'| - 1]);
      assert log' == init + [log'[|log'| - 1]];
    } else {
      assert log' == log;
    }
  }

  lemma MarkerAddsPlain(fate: Fate, w: Writer, row: Row)
    requires IsPlainMarker(row)
    ensures PlainRows(AppendRow(fate, Flush(fate, w).log, row)) == PlainRows(w.log) + [row]
  {
    FlushAddsData(fate, w);
    var log := Flush(fate, w).log;
    DataKeepsPlain(w.log, log);
    PlainSnoc(log, Attempt(row, fate(|log|)));
  }

  /** The queued markers, as the rows they will become. */
  function QueuedMarkers(q: seq<Command>): seq<Row> {
    if q == [] then []
    else
      (if q[0].Marker? then [MarkerRow(q[0].kind, q[0].seqNo, q[0].payload)] else []) + QueuedMarkers(q[1..])
  }

  lemma {:induction false} QueuedSnoc(q: seq<Command>, c: Command)
    ensures QueuedMarkers(q + [c])
         == QueuedMarkers(q) + if c.Marker? then [MarkerRow(c.kind, c.seqNo, c.payload)] else []
  {
    if q == [] {
      assert (q + [c])[1..] == [];
    } else {
      assert (q + [c])[0] == q[0] && (q + [c])[1..] == q[1..] + [c];
      QueuedSnoc(q[1..], c);
    }
  }

  /** Every marker written or still queued. */
  function Markers(s: System): seq<Row> {
    PlainRows(s.writer.log) + QueuedMarkers(s.producer.queue)
  }

  lemma Assoc(a: seq<Row>, b: seq<Row>, c: seq<Row>)
    ensures (a + b) + c == a + (b + c)
  {
  }

  lemma HeadMarkers(q: seq<Command>)
    requires q != []
    ensures QueuedMarkers(q) ==
      (if q[0].Marker? then [MarkerRow(q[0].kind, q[0].seqNo, q[0].payload)] else []) + QueuedMarkers(q[1..])
  {
  }

  /** The plain rows one command adds. */
  lemma TakenPlain(cfg: Config, fate: Fate, s: System)
    requires TruthInv(cfg, s) && (s.mode.Running? || s.mode.Draining?) && s.producer.queue != []
    ensures var c := s.producer.queue[0];
      PlainRows(TakeCommand(cfg, fate, s).writer.log) == PlainRows(s.writer.log) +
        if c.Marker? then [MarkerRow(c.kind, c.seqNo, c.payload)] else []
  {
    assert CommandOk(s.producer.queue[0], |s.h.frames|);
    match s.producer.queue[0]
    case Output(n, data, g) =>
      OutputAddsData(cfg, fate, s.writer, n, data, g);
      DataKeepsPlain(s.writer.log, HandleOutput(cfg, fate, s.writer, n, data, g).log);
    case Marker(kind, n, payload) => MarkerAddsPlain(fate, s.writer, MarkerRow(kind, n, payload));
    case Shutdown(_) =>
  }

  lemma TakeMarkers(cfg: Config, fate: Fate, s: System)
    requires TruthInv(cfg, s) && (s.mode.Running? || s.mode.Draining?) && s.producer.queue != []
    ensures Markers(TakeCommand(cfg, fate, s)) == Markers(s)
  {
    var c, q := s.producer.queue[0], s.producer.queue[1..];
    var head := if c.Marker? then [MarkerRow(c.kind, c.seqNo, c.payload)] else [];
    TakenPlain(cfg, fate, s);
    HeadMarkers(s.producer.queue);
    assert TakeCommand(cfg, fate, s).producer.queue == q;
    Assoc(PlainRows(s.writer.log), head, QueuedMarkers(q));
  }

  lemma NextMarkers(cfg: Config, fate: Fate, s: System, step: Step)
    requires TruthInv(cfg, s) && Possible(s, step) && !Next(cfg, fate, s, step).mode.Stopped?
    ensures Markers(Next(cfg, fate, s, step)) == Markers(s) +
      if Accepts(s, step) then [MarkerRow(step.kind, step.seqNo, step.payload)] else []
  {
    match step
    case Stamp(_) =>
    case Record(congested) =>
      FrameKeptIff(cfg.hardCap, s.producer, true, congested, |s.h.verdicts| + 1, s.h.frames[|s.h.verdicts|]);
      QueuedSnoc(s.producer.queue, Output(|s.h.verdicts| + 1, s.h.frames[|s.h.verdicts|], s.producer.pendingGap));
    case AddMarker(kind, n, payload, congested) =>
      MarkerQueuedIff(s.producer, true, congested, kind, n, payload);
      QueuedSnoc(s.producer.queue, Marker(kind, n, payload));
    case SendShutdown(lastSeq) => QueuedSnoc(s.producer.queue, Shutdown(Min(lastSeq, I64_MAX)));
    case Receive =>
      if s.producer.queue != [] {
        TakeMarkers(cfg, fate, s);
      }
  }

  lemma {:induction false} StaysStopped(cfg: Config, fate: Fate, s: System, steps: seq<Step>)
    requires s.mode.Stopped?
    ensures Run(cfg, fate, s, steps).mode.Stopped?
    decreases |steps|
  {
    if steps != [] {
      StaysStopped(cfg, fate, RunOne(cfg, fate, s, steps[0]), steps[1..]);
    }
  }

  lemma FirstAccepted(cfg: Config, fate: Fate, s: System, steps: seq<Step>)
    requires steps != []
    ensures Accepted(cfg, fate, s, steps) ==
      (if Accepts(s, steps[0]) then [MarkerRow(steps[0].kind, steps[0].seqNo, steps[0].payload)] else [])
      + Accepted(cfg, fate, RunOne(cfg, fate, s, steps[0]), steps[1..])
  {
  }

  lemma OneMarkers(cfg: Config, fate: Fate, s: System, step: Step)
    requires Inv(cfg, s) && !RunOne(cfg, fate, s, step).mode.Stopped?
    ensures Inv(cfg, RunOne(cfg, fate, s, step))
    ensures Markers(RunOne(cfg, fate, s, step)) == Markers(s) +
      if Accepts(s, step) then [MarkerRow(step.kind, step.seqNo, step.payload)] else []
  {
    if Possible(s, step) {
      NextInv(cfg, fate, s, step);
      NextMarkers(cfg, fate, s, step);
    }
  }

  lemma {:induction false} RunMarkers(cfg: Config, fate: Fate, s: System, steps: seq<Step>)
    requires Inv(cfg, s) && !Run(cfg, fate, s, steps).mode.Stopped?
    ensures Markers(Run(cfg, fate, s, steps)) == Markers(s) + Accepted(cfg, fate, s, steps)
    decreases |steps|
  {
    if steps != [] {
      var s1 := RunOne(cfg, fate, s, steps[0]);
      assert !s1.mode.Stopped? by {
        if s1.mode.Stopped? {
          StaysStopped(cfg, fate, s1, steps[1..]);
        }
      }
      var head := if Accepts(s, steps[0])
        then [MarkerRow(steps[0].kind, steps[0].seqNo, steps[0].payload)] else [];
      OneMarkers(cfg, fate, s, steps[0]);
      RunMarkers(cfg, fate, s1, steps[1..]);
      FirstAccepted(cfg, fate, s, steps);
      Assoc(Markers(s), head, Accepted(cfg, fate, s1, steps[1..]));
    }
  }

  // ---------- the theorems ----------

  /** While the task runs: the markers written so far, then those still queued, are `started`
      followed by exactly the accepted ones, in send order, each with its kind, seq and payload. */
  lemma MarkersInOrder(cfg: Config, fate: Fate, steps: seq<Step>)
    requires !Run(cfg, fate, Initial(), steps).mode.Stopped?
    ensures var s := Run(cfg, fate, Initial(), steps);
      PlainRows(s.writer.log) + QueuedMarkers(s.producer.queue)
      == [MarkerRow(Started, 0, EmptyObject)] + Accepted(cfg, fate, Initial(), steps)
  {
    InitialInv(cfg);
    RunMarkers(cfg, fate, Initial(), steps);
    assert Initial().producer.queue[1..] == [];
  }

  /** A clean exit adds the `closed` row and no other marker, so the finished recording's markers
      are `started`, exactly the accepted markers the writer took, and `closed`. */
  lemma FinishedMarkers(cfg: Config, fate: Fate, steps: seq<Step>, step: Step)
    requires StopsCleanly(cfg, fate, Run(cfg, fate, Initial(), steps), step)
    ensures var s := Run(cfg, fate, Initial(), steps);
      var closed :=
        if step.FinishClose? then MarkerRow(Closed, Max(1, s.mode.lastSeq), SessionClose)
        else MarkerRow(Closed, Min(Max(s.writer.highest, 1), 0x7FFF_FFFF_FFFF_FFFF), WriterDropped);
      && PlainRows(Next(cfg, fate, s, step).writer.log) == PlainRows(s.writer.log) + [closed]
      && PlainRows(s.writer.log) + QueuedMarkers(s.producer.queue)
         == [MarkerRow(Started, 0, EmptyObject)] + Accepted(cfg, fate, Initial(), steps)
      && (step.SendersGone? ==> QueuedMarkers(s.producer.queue) == [])
  {
    var s := Run(cfg, fate, Initial(), steps);
    MarkersInOrder(cfg, fate, steps);
    if step.FinishClose? {
      MarkerAddsPlain(fate, s.writer, MarkerRow(Closed, Max(1, s.mode.lastSeq), SessionClose));
    } else {
      var closeSeq := Min(Max(s.writer.highest, 1), I64_MAX);
      MarkerAddsPlain(fate, s.writer, MarkerRow(Closed, closeSeq, WriterDropped));
    }
  }

  /** Taking a marker writes it behind the rows of every frame taken before it: the batch is
      flushed, the rows before the marker account for all those frames, and the marker is last. */
  lemma MarkerFollowsItsFrames(cfg: Config, fate: Fate, s: System)
    requires cfg.hardCap <= 0x7FFF_FFFF && T.Reachable(cfg, fate, s) && Possible(s, Receive)
    requires s.producer.queue != [] && s.producer.queue[0].Marker?
    ensures var c, w := s.producer.queue[0], Next(cfg, fate, s, Receive).writer;
      && w.open.None? && |s.writer.log| < |w.log| && s.writer.log == w.log[..|s.writer.log|]
      && w.log[|w.log| - 1].row == MarkerRow(c.kind, c.seqNo, c.payload)
      && s.h.Valid() && s.processed <= |s.h.verdicts|
      && Accounted(w.log[..|w.log| - 1], s.h, s.processed)
  {
    T.ReachableInv(cfg, fate, s);
    FlushKeeps(cfg, fate, s.writer, s.h, s.processed);
    FlushAppends(fate, s.writer);
    var w := Next(cfg, fate, s, Receive).writer;
    assert w.log[..|w.log| - 1] == Flush(fate, s.writer).log;
  }

  lemma HandledAppends(cfg: Config, fate: Fate, s: System)
    requires (s.mode.Running? || s.mode.Draining?) && s.producer.queue != []
    ensures s.writer.log <= TakeCommand(cfg, fate, s).writer.log
  {
    FlushAppends(fate, s.writer);
    match s.producer.queue[0]
    case Output(n, data, g) => OutputAddsData(cfg, fate, s.writer, n, data, g);
    case Marker(_, _, _) =>
    case Shutdown(_) =>
  }

  /** Rows are only ever appended. */
  lemma {:induction false} RowsOnlyAppended(cfg: Config, fate: Fate, s: System, steps: seq<Step>)
    ensures s.writer.log <= Run(cfg, fate, s, steps).writer.log
    decreases |steps|
  {
    if steps != [] {
      var s1 := RunOne(cfg, fate, s, steps[0]);
      FlushAppends(fate, s.writer);
      if Possible(s, steps[0]) && steps[0].Receive? && s.producer.queue != [] {
        HandledAppends(cfg, fate, s);
      }
      RowsOnlyAppended(cfg, fate, s1, steps[1..]);
    }
  }

  // ---------- the seq of `closed` on shutdown ----------

  function FirstShutdown(q: seq<Command>): Option<nat> {
    if q == [] then None else if q[0].Shutdown? then Some(q[0].lastSeq) else FirstShutdown(q[1..])
  }

  lemma {:induction false} FirstShutdownSnoc(q: seq<Command>, c: Command)
    ensures FirstShutdown(q + [c]) ==
      if FirstShutdown(q).Some? then FirstShutdown(q) else if c.Shutdown? then Some(c.lastSeq) else None
  {
    if q == [] {
      assert (q + [c])[1..] == [];
    } else {
      assert (q + [c])[0] == q[0] && (q + [c])[1..] == q[1..] + [c];
      FirstShutdownSnoc(q[1..], c);
    }
  }

  /** The `last_seq` the task is closing with, or will. */
  function CloseRequest(s: System): Option<nat> {
    match s.mode
    case Running => FirstShutdown(s.producer.queue)
    case Draining(n) => Some(n)
    case Closing(n) => Some(n)
    case Stopped(_) => None
  }

  /** The `last_seq` of the first shutdown a run sends. */
  function FirstRequest(cfg: Config, fate: Fate, s: System, steps: seq<Step>): Option<nat>
    decreases |steps|
  {
    if steps == [] then None
    else if steps[0].SendShutdown? && Possible(s, steps[0]) then Some(steps[0].lastSeq)
    else FirstRequest(cfg, fate, RunOne(cfg, fate, s, steps[0]), steps[1..])
  }

  lemma NextCloseRequest(cfg: Config, fate: Fate, s: System, step: Step)
    requires TruthInv(cfg, s) && Possible(s, step) && !Next(cfg, fate, s, step).mode.Stopped?
    ensures CloseRequest(Next(cfg, fate, s, step)) ==
      if CloseRequest(s).None? && step.SendShutdown? then Some(step.lastSeq) else CloseRequest(s)
  {
    match step
    case Record(congested) =>
      FrameKeptIff(cfg.hardCap, s.producer, true, congested, |s.h.verdicts| + 1, s.h.frames[|s.h.verdicts|]);
      FirstShutdownSnoc(s.producer.queue,
                        Output(|s.h.verdicts| + 1, s.h.frames[|s.h.verdicts|], s.producer.pendingGap));
    case AddMarker(kind, n, payload, congested) =>
      MarkerQueuedIff(s.producer, true, congested, kind, n, payload);
      FirstShutdownSnoc(s.producer.queue, Marker(kind, n, payload));
    case SendShutdown(lastSeq) => FirstShutdownSnoc(s.producer.queue, Shutdown(Min(lastSeq, I64_MAX)));
    case _ =>
  }

  lemma {:induction false} RunCloseRequest(cfg: Config, fate: Fate, s: System, steps: seq<Step>)
    requires Inv(cfg, s) && !Run(cfg, fate, s, steps).mode.Stopped?
    ensures CloseRequest(Run(cfg, fate, s, steps)) ==
      if CloseRequest(s).Some? then CloseRequest(s) else FirstRequest(cfg, fate, s, steps)
    decreases |steps|
  {
    if steps != [] {
      var s1 := RunOne(cfg, fate, s, steps[0]);
      assert !s1.mode.Stopped? by {
        if s1.mode.Stopped? {
          StaysStopped(cfg, fate, s1, steps[1..]);
        }
      }
      if Possible(s, steps[0]) {
        NextInv(cfg, fate, s, steps[0]);
        NextCloseRequest(cfg, fate, s, steps[0]);
      }
      RunCloseRequest(cfg, fate, s1, steps[1..]);
    }
  }

  /** On the shutdown exit the `closed` row sits at the `last_seq` of the first shutdown sent,
      raised to 1 if it was 0. */
  lemma ClosedAtFirstRequest(cfg: Config, fate: Fate, steps: seq<Step>)
    requires Run(cfg, fate, Initial(), steps).mode.Closing?
    ensures FirstRequest(cfg, fate, Initial(), steps).Some?
    ensures var log := Next(cfg, fate, Run(cfg, fate, Initial(), steps), FinishClose).writer.log;
      log != [] && log[|log| - 1].row ==
        MarkerRow(Closed, Max(1, FirstRequest(cfg, fate, Initial(), steps).value), SessionClose)
  {
    InitialInv(cfg);
    RunCloseRequest(cfg, fate, Initial(), steps);
    assert Initial().producer.queue[1..] == [];
  }
}

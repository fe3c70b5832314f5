/** The whole recording pipeline as a step system: the forwarder stamping frames and
    teeing them, callers adding markers, the shutdown path, and the writer task taking
    one command at a time, with every queue-full and repository outcome allowed. */
module RecordingSystem {
  import opened Common
  import opened RecordingModel
  import opened RecordingLedger
  import opened RecordingWriter

  // ---------- the producer's gap tracker ----------

  /** Seq of the last queued frame, or 0. */
  function LastKept(v: seq<Verdict>): (n: nat)
    ensures n <= |v|
    ensures n > 0 ==> v[n - 1].Kept?
    ensures forall i | n <= i < |v| :: !v[i].Kept?
  {
    if v == [] then 0
    else if v[|v| - 1].Kept? then |v|
    else LastKept(v[..|v| - 1])
  }

  /** The gap the tracker should hold: everything since the last queued frame, under
      the cause that dropped the first of it. */
  function GapAfter(v: seq<Verdict>): Option<PendingGap> {
    var k := LastKept(v);
    if k < |v| && v[k].Dropped? then Some(PendingGap(k + 1, |v|, v[k].reason)) else None
  }

  /** What `record_output` decides for a frame. */
  function VerdictOf(hardCap: nat, queue: seq<Command>, receiverOpen: bool, congested: bool, data: Bytes): Verdict {
    if |data| > hardCap then Dropped(FrameOversized)
    else
      match TrySend(queue, receiverOpen, congested)
      case Sent => Kept
      case Full => Dropped(WriterOverflow)
      case ChannelClosed => Lost
  }

  /** Every verdict so far was a queueing or a drop with a producer-side cause. */
  ghost predicate ProducerVerdicts(v: seq<Verdict>) {
    forall i | 0 <= i < |v| :: v[i].Kept? || (v[i].Dropped? && !v[i].reason.WriterError?)
  }

  lemma LastKeptSnoc(v: seq<Verdict>, x: Verdict)
    ensures LastKept(v + [x]) == if x.Kept? then |v| + 1 else LastKept(v)
  {
    assert (v + [x])[..|v|] == v;
  }

  /** Producer invariant, one step: the tracker always holds exactly the run of frames
      dropped since the last queued one, under the earliest cause, and a queued frame
      carries exactly that run as its `gap_before`. */
  lemma TrackerStep(hardCap: nat, p: Producer, h: History, congested: bool)
    requires h.Valid() && |h.verdicts| < |h.frames| && ProducerVerdicts(h.verdicts)
    requires p.pendingGap == GapAfter(h.verdicts)
    ensures var s := |h.verdicts| + 1;
      var data := h.frames[s - 1];
      var v := VerdictOf(hardCap, p.queue, true, congested, data);
      var p' := RecordOutput(hardCap, p, true, congested, s, data);
      && p'.pendingGap == GapAfter(h.verdicts + [v])
      && (v.Kept? ==> p'.queue == p.queue + [Output(s, data, p.pendingGap)])
      && (v.Kept? ==> LastKept(h.verdicts + [v]) == s)
      && (!v.Kept? ==> p'.queue == p.queue && LastKept(h.verdicts + [v]) == LastKept(h.verdicts))
  {
    var v := VerdictOf(hardCap, p.queue, true, congested, h.frames[|h.verdicts|]);
    LastKeptSnoc(h.verdicts, v);
  }

  lemma TrackedGapMatches(h: History, h': History)
    requires h.Valid() && h'.Valid() && h'.verdicts == h.verdicts + [Kept] && ProducerVerdicts(h.verdicts)
    ensures GapMatches(h', LastKept(h.verdicts), |h'.verdicts|, GapAfter(h.verdicts))
  {
    assert forall i | 0 <= i < |h.verdicts| :: h'.verdicts[i] == h.verdicts[i];
  }

  // ---------- the queue between the halves ----------

  /** The queued frames are exactly the kept ones after `prev`, each with its own bytes
      and the gap since its predecessor. */
  ghost predicate Chain(hardCap: nat, h: History, q: seq<Command>, prev: nat)
    requires h.Valid()
    decreases |q|
  {
    if q == [] then prev == LastKept(h.verdicts)
    else if q[0].Output? then
      && prev < q[0].seqNo <= |h.verdicts|
      && h.verdicts[q[0].seqNo - 1].Kept?
      && q[0].data == h.frames[q[0].seqNo - 1]
      && |q[0].data| <= hardCap
      && GapMatches(h, prev, q[0].seqNo, q[0].gapBefore)
      && Chain(hardCap, h, q[1..], q[0].seqNo)
    else Chain(hardCap, h, q[1..], prev)
  }

  lemma GapMatchesExtends(h: History, h': History, prev: nat, s: nat, g: Option<PendingGap>)
    requires Extends(h, h') && prev < s <= |h.verdicts| && GapMatches(h, prev, s, g)
    ensures GapMatches(h', prev, s, g)
  {
  }

  lemma {:induction false} ChainExtends(hardCap: nat, h: History, h': History, q: seq<Command>, prev: nat)
    requires h.Valid() && h'.Valid() && Extends(h, h') && LastKept(h'.verdicts) == LastKept(h.verdicts)
    requires Chain(hardCap, h, q, prev)
    ensures Chain(hardCap, h', q, prev)
    decreases |q|
  {
    if q != [] {
      if q[0].Output? {
        GapMatchesExtends(h, h', prev, q[0].seqNo, q[0].gapBefore);
        ChainExtends(hardCap, h, h', q[1..], q[0].seqNo);
      } else {
        ChainExtends(hardCap, h, h', q[1..], prev);
      }
    }
  }

  /** Queueing the frame just stamped extends the chain. */
  lemma {:induction false} ChainPush(hardCap: nat, h: History, h': History, q: seq<Command>, prev: nat)
    requires h.Valid() && h'.Valid() && h'.frames == h.frames && h'.verdicts == h.verdicts + [Kept]
    requires ProducerVerdicts(h.verdicts) && |h'.frames[|h.verdicts|]| <= hardCap
    requires Chain(hardCap, h, q, prev)
    ensures Chain(hardCap, h', q + [Output(|h'.verdicts|, h'.frames[|h.verdicts|], GapAfter(h.verdicts))], prev)
    decreases |q|
  {
    var c := Output(|h'.verdicts|, h'.frames[|h.verdicts|], GapAfter(h.verdicts));
    var all := q + [c];
    if q == [] {
      TrackedGapMatches(h, h');
      assert all[0] == c && all[1..] == [];
    } else {
      assert all[0] == q[0] && all[1..] == q[1..] + [c];
      if q[0].Output? {
        GapMatchesExtends(h, h', prev, q[0].seqNo, q[0].gapBefore);
        ChainPush(hardCap, h, h', q[1..], q[0].seqNo);
      } else {
        ChainPush(hardCap, h, h', q[1..], prev);
      }
    }
  }

  lemma {:induction false} ChainPushOther(hardCap: nat, h: History, q: seq<Command>, c: Command, prev: nat)
    requires h.Valid() && !c.Output? && Chain(hardCap, h, q, prev)
    ensures Chain(hardCap, h, q + [c], prev)
    decreases |q|
  {
    if q == [] {
      assert (q + [c])[1..] == [];
    } else {
      assert (q + [c])[0] == q[0] && (q + [c])[1..] == q[1..] + [c];
      ChainPushOther(hardCap, h, q[1..], c, if q[0].Output? then q[0].seqNo else prev);
    }
  }

  // ---------- the step system ----------

  /** `Closing` is the shutdown arm after its last empty `try_recv`: the final writes are under
      way and the channel still accepts sends, but nothing more is received. */
  datatype Mode = Running | Draining(lastSeq: nat) | Closing(lastSeq: nat) | Stopped(clean: bool)

  /** `processed` is the seq of the last frame the writer took from the queue. */
  datatype System = System(h: History, producer: Producer, writer: Writer, mode: Mode, processed: nat)

  datatype Step =
    | Stamp(data: Bytes)                    // the forwarder stamps a frame and stores `last_seq`
    | Record(congested: bool)               // ... and tees it
    | AddMarker(kind: MarkerKind, seqNo: nat, payload: Payload, congested: bool) // only `enabled` sends `started`
    | SendShutdown(lastSeq: nat)
    | Receive                               // the writer takes one command, or finds its drain done
    | FinishClose                           // flush, `closed` marker, receiver dropped with its queue
    | SendersGone
    | AbortTask

  function Initial(): System {
    System(History([], []), Enabled(), Writer(None, 0, []), Running, 0)
  }

  predicate Possible(s: System, step: Step) {
    match step
    case Stamp(_) => |s.h.verdicts| == |s.h.frames| && |s.h.frames| < I64_MAX
    case Record(_) => |s.h.verdicts| < |s.h.frames|
    case AddMarker(kind, seqNo, payload, _) =>
      !kind.Started? && seqNo <= Max(1, |s.h.frames|) && !payload.GapRange?
    case SendShutdown(lastSeq) =>
      !s.mode.Stopped? && |s.producer.queue| < QUEUE_CAPACITY && lastSeq <= |s.h.frames|
    case Receive => (s.mode.Running? && s.producer.queue != []) || s.mode.Draining?
    case FinishClose => s.mode.Closing?
    case SendersGone => s.mode.Running? && s.producer.queue == []
    case AbortTask => !s.mode.Stopped?
  }

  function TakeCommand(cfg: Config, fate: Fate, s: System): System
    requires (s.mode.Running? || s.mode.Draining?) && s.producer.queue != []
  {
    var c := s.producer.queue[0];
    var s1 := s.(producer := s.producer.(queue := s.producer.queue[1..]),
                 processed := if c.Output? then c.seqNo else s.processed);
    if s.mode.Draining? then s1.(writer := HandleDraining(cfg, fate, s.writer, c))
    else if c.Shutdown? then s1.(mode := Draining(c.lastSeq))
    else s1.(writer := Handle(cfg, fate, s.writer, c))
  }

  function Next(cfg: Config, fate: Fate, s: System, step: Step): System
    requires Possible(s, step)
  {
    var alive := !s.mode.Stopped?;
    match step
    case Stamp(data) => s.(h := s.h.(frames := s.h.frames + [data]))
    case Record(congested) =>
      var data := s.h.frames[|s.h.verdicts|];
      var v := VerdictOf(cfg.hardCap, s.producer.queue, alive, congested, data);
      s.(h := s.h.(verdicts := s.h.verdicts + [v]),
         producer := RecordOutput(cfg.hardCap, s.producer, alive, congested, |s.h.verdicts| + 1, data))
    case AddMarker(kind, seqNo, payload, congested) =>
      s.(producer := RecordMarker(s.producer, alive, congested, kind, seqNo, payload))
    case SendShutdown(lastSeq) =>
      s.(producer := s.producer.(queue := s.producer.queue + [Shutdown(Min(lastSeq, I64_MAX))]))
    case Receive =>
      if s.producer.queue != [] then TakeCommand(cfg, fate, s) else s.(mode := Closing(s.mode.lastSeq))
    case FinishClose => Exit(s, CloseOnShutdown(fate, s.writer, s.mode.lastSeq), true)
    case SendersGone => Exit(s, CloseOnDrop(fate, s.writer), true)
    case AbortTask => Exit(s, s.writer, false)
  }

  /** Dropping the receiver drops whatever is still queued. */
  function Exit(s: System, w: Writer, clean: bool): System {
    s.(writer := w, mode := Stopped(clean), producer := s.producer.(queue := []))
  }

  function RunOne(cfg: Config, fate: Fate, s: System, step: Step): System {
    if Possible(s, step) then Next(cfg, fate, s, step) else s
  }

  /** A run: steps that are not possible when their turn comes do nothing. */
  function Run(cfg: Config, fate: Fate, s: System, steps: seq<Step>): System
    decreases |steps|
  {
    if steps == [] then s
    else Run(cfg, fate, RunOne(cfg, fate, s, steps[0]), steps[1..])
  }

  // ---------- truth: the queue and every row are what they say, for any cap ----------

  predicate CommandOk(c: Command, stamped: nat) {
    match c
    case Output(_, _, _) => true
    case Marker(kind, seqNo, payload) =>
      !payload.GapRange? && seqNo <= Max(1, stamped) && (seqNo == 0 ==> kind.Started?)
    case Shutdown(lastSeq) => lastSeq <= stamped
  }

  ghost predicate CommandsOk(q: seq<Command>, stamped: nat) {
    forall i | 0 <= i < |q| :: CommandOk(q[i], stamped)
  }

  lemma CommandsOkPush(q: seq<Command>, c: Command, stamped: nat)
    requires CommandsOk(q, stamped) && CommandOk(c, stamped)
    ensures CommandsOk(q + [c], stamped)
  {
  }

  ghost predicate QueueInv(cfg: Config, s: System)
    requires s.h.Valid()
  {
    && ProducerVerdicts(s.h.verdicts)
    && s.producer.pendingGap == GapAfter(s.h.verdicts)
    && |s.producer.queue| <= QUEUE_CAPACITY
    && Chain(cfg.hardCap, s.h, s.producer.queue, s.processed)
    && CommandsOk(s.producer.queue, |s.h.frames|)
  }

  ghost predicate TruthInv(cfg: Config, s: System) {
    && s.h.Valid()
    && |s.h.frames| <= I64_MAX
    && s.processed <= |s.h.verdicts|
    && Truthful(s.writer, s.h, s.processed)
    && (!s.mode.Stopped? ==> QueueInv(cfg, s))
    && (s.mode.Draining? || s.mode.Closing? ==> s.mode.lastSeq <= |s.h.frames|)
  }

  lemma KeptQueue(cfg: Config, s: System, s': System)
    requires s.h.Valid() && QueueInv(cfg, s) && |s.h.verdicts| < |s.h.frames|
    requires |s.producer.queue| < QUEUE_CAPACITY && |s.h.frames[|s.h.verdicts|]| <= cfg.hardCap
    requires s'.h == s.h.(verdicts := s.h.verdicts + [Kept]) && s'.processed == s.processed
    requires var c := Output(|s.h.verdicts| + 1, s.h.frames[|s.h.verdicts|], s.producer.pendingGap);
      s'.producer == Producer(GapAfter(s'.h.verdicts), s.producer.queue + [c])
    ensures QueueInv(cfg, s')
  {
    ChainPush(cfg.hardCap, s.h, s'.h, s.producer.queue, s.processed);
    CommandsOkPush(s.producer.queue, s'.producer.queue[|s.producer.queue|], |s.h.frames|);
  }

  lemma RecordQueue(cfg: Config, fate: Fate, s: System, congested: bool)
    requires s.h.Valid() && QueueInv(cfg, s) && Possible(s, Record(congested)) && !s.mode.Stopped?
    ensures QueueInv(cfg, Next(cfg, fate, s, Record(congested)))
  {
    var s' := Next(cfg, fate, s, Record(congested));
    TrackerStep(cfg.hardCap, s.producer, s.h, congested);
    if VerdictOf(cfg.hardCap, s.producer.queue, true, congested, s.h.frames[|s.h.verdicts|]).Kept? {
      KeptQueue(cfg, s, s');
    } else {
      ChainExtends(cfg.hardCap, s.h, s'.h, s.producer.queue, s.processed);
    }
  }

  lemma EnqueueQueue(cfg: Config, s: System, c: Command)
    requires s.h.Valid() && QueueInv(cfg, s) && |s.producer.queue| < QUEUE_CAPACITY
    requires !c.Output? && CommandOk(c, |s.h.frames|)
    ensures QueueInv(cfg, s.(producer := s.producer.(queue := s.producer.queue + [c])))
  {
    ChainPushOther(cfg.hardCap, s.h, s.producer.queue, c, s.processed);
    CommandsOkPush(s.producer.queue, c, |s.h.frames|);
  }

  lemma DequeueQueue(cfg: Config, s: System, s': System)
    requires s.h.Valid() && QueueInv(cfg, s) && s.producer.queue != [] && s'.h == s.h
    requires s'.producer == s.producer.(queue := s.producer.queue[1..])
    requires s'.processed == if s.producer.queue[0].Output? then s.producer.queue[0].seqNo else s.processed
    ensures QueueInv(cfg, s')
  {
    var q' := s.producer.queue[1..];
    assert forall i | 0 <= i < |q'| :: q'[i] == s.producer.queue[i + 1];
  }

  lemma HandledTruth(cfg: Config, fate: Fate, s: System)
    requires TruthInv(cfg, s) && (s.mode.Running? || s.mode.Draining?) && s.producer.queue != []
    ensures var s' := TakeCommand(cfg, fate, s);
      s'.processed <= |s.h.verdicts| && Truthful(s'.writer, s.h, s'.processed)
  {
    match s.producer.queue[0]
    case Output(n, data, g) => OutputTruthful(cfg, fate, s.writer, s.h, s.processed, n, g);
    case Marker(kind, n, payload) =>
      assert CommandOk(s.producer.queue[0], |s.h.frames|);
      PlainRowTruthful(fate, s.writer, s.h, s.processed, MarkerRow(kind, n, payload));
    case Shutdown(_) =>
  }

  lemma TakeTruth(cfg: Config, fate: Fate, s: System)
    requires TruthInv(cfg, s) && (s.mode.Running? || s.mode.Draining?) && s.producer.queue != []
    ensures TruthInv(cfg, TakeCommand(cfg, fate, s))
  {
    assert CommandOk(s.producer.queue[0], |s.h.frames|);
    HandledTruth(cfg, fate, s);
    DequeueQueue(cfg, s, TakeCommand(cfg, fate, s));
  }

  lemma ProducerTruth(cfg: Config, fate: Fate, s: System, step: Step)
    requires TruthInv(cfg, s) && Possible(s, step) && (step.Stamp? || step.Record?)
    ensures TruthInv(cfg, Next(cfg, fate, s, step))
  {
    var s' := Next(cfg, fate, s, step);
    TruthfulExtends(s.writer, s.h, s'.h, s.processed);
    if !s.mode.Stopped? {
      if step.Stamp? {
        ChainExtends(cfg.hardCap, s.h, s'.h, s.producer.queue, s.processed);
      } else {
        RecordQueue(cfg, fate, s, step.congested);
      }
    }
  }

  lemma NextTruth(cfg: Config, fate: Fate, s: System, step: Step)
    requires TruthInv(cfg, s) && Possible(s, step)
    ensures TruthInv(cfg, Next(cfg, fate, s, step))
  {
    match step
    case Stamp(_) => ProducerTruth(cfg, fate, s, step);
    case Record(_) => ProducerTruth(cfg, fate, s, step);
    case AddMarker(kind, seqNo, payload, congested) =>
      if Next(cfg, fate, s, step) != s {
        EnqueueQueue(cfg, s, Marker(kind, seqNo, payload));
      }
    case SendShutdown(lastSeq) => EnqueueQueue(cfg, s, Shutdown(Min(lastSeq, I64_MAX)));
    case Receive =>
      if s.producer.queue != [] {
        TakeTruth(cfg, fate, s);
      }
    case FinishClose =>
      PlainRowTruthful(fate, s.writer, s.h, s.processed, MarkerRow(Closed, Max(s.mode.lastSeq, 1), SessionClose));
    case SendersGone =>
      var closeSeq := Min(Max(s.writer.highest, 1), I64_MAX);
      PlainRowTruthful(fate, s.writer, s.h, s.processed, MarkerRow(Closed, closeSeq, WriterDropped));
    case AbortTask =>
  }

  // ---------- shape: sizes, order of seqs, the first row ----------

  ghost predicate StartedFirst(s: System) {
    if s.writer.log == [] then
      && s.writer.open.None?
      && (!s.mode.Stopped? ==>
            s.mode.Running? && s.producer.queue != [] && s.producer.queue[0] == Marker(Started, 0, EmptyObject))
    else s.writer.log[0].row == MarkerRow(Started, 0, EmptyObject)
  }

  /** A seq no row may pass: in the main loop `highest_seq_observed` itself. */
  function Top(s: System): nat {
    if s.mode.Running? then s.writer.highest else Max(1, |s.h.frames|)
  }

  /** The open batch, if any, is shorter than the target. */
  ghost predicate BelowTarget(cfg: Config, w: Writer) {
    w.open.Some? ==> |w.open.value.payload| < cfg.target
  }

  ghost predicate ShapeInv(cfg: Config, s: System) {
    && WriterShaped(cfg, s.h, s.writer, Top(s))
    && BelowTarget(cfg, s.writer)
    && s.writer.highest <= Max(1, |s.h.frames|)
    && StartedFirst(s)
  }

  lemma FlushAppends(fate: Fate, w: Writer)
    ensures w.log <= Flush(fate, w).log
  {
  }

  lemma OutputAppends(cfg: Config, fate: Fate, w: Writer, n: nat, data: Bytes, g: Option<PendingGap>)
    ensures w.log <= HandleOutput(cfg, fate, w, n, data, g).log
  {
    var w1 := Bracket(fate, w, g);
    FlushAppends(fate, w);
    FlushAppends(fate, w1);
    FlushAppends(fate, Accumulate(cfg, fate, w1, n, data));
  }

  lemma OutputHighest(cfg: Config, fate: Fate, w: Writer, n: nat, data: Bytes, g: Option<PendingGap>)
    ensures HandleOutput(cfg, fate, w, n, data, g).highest == Max(w.highest, n)
  {
  }

  /** The shape after taking a command, for any writer state with the stated properties. */
  lemma TookShape(cfg: Config, s: System, w': Writer)
    requires TruthInv(cfg, s) && ShapeInv(cfg, s) && (s.mode.Running? || s.mode.Draining?)
    requires s.producer.queue != [] && !s.producer.queue[0].Shutdown?
    requires s.producer.queue[0].seqNo <= Max(1, |s.h.frames|)
    requires WriterShaped(cfg, s.h, w', Max(Top(s), s.producer.queue[0].seqNo)) && BelowTarget(cfg, w')
    requires s.writer.log <= w'.log && w'.highest <= Max(s.writer.highest, s.producer.queue[0].seqNo)
    requires s.mode.Running? ==> w'.highest == Max(s.writer.highest, s.producer.queue[0].seqNo)
    requires s.writer.log == [] ==> w'.log != [] && w'.log[0].row == MarkerRow(Started, 0, EmptyObject)
    ensures ShapeInv(cfg, s.(producer := s.producer.(queue := s.producer.queue[1..]),
                             processed := if s.producer.queue[0].Output? then s.producer.queue[0].seqNo
                                          else s.processed,
                             writer := w'))
  {
  }

  lemma TakeOutputShape(cfg: Config, fate: Fate, s: System)
    requires TruthInv(cfg, s) && ShapeInv(cfg, s) && cfg.hardCap <= U32_MAX
    requires (s.mode.Running? || s.mode.Draining?) && s.producer.queue != [] && s.producer.queue[0].Output?
    ensures ShapeInv(cfg, TakeCommand(cfg, fate, s))
  {
    var Output(n, data, g) := s.producer.queue[0];
    var w' := HandleOutput(cfg, fate, s.writer, n, data, g);
    ShapedExtends(cfg, s.h, s.h, s.writer, Top(s), Max(Top(s), n));
    OutputShaped(cfg, fate, s.h, s.writer, n, g, Max(Top(s), n));
    OutputAppends(cfg, fate, s.writer, n, data, g);
    OutputHighest(cfg, fate, s.writer, n, data, g);
    TookShape(cfg, s, w');
  }

  lemma TakeMarkerShape(cfg: Config, fate: Fate, s: System)
    requires TruthInv(cfg, s) && ShapeInv(cfg, s)
    requires (s.mode.Running? || s.mode.Draining?) && s.producer.queue != [] && s.producer.queue[0].Marker?
    ensures ShapeInv(cfg, TakeCommand(cfg, fate, s))
  {
    var Marker(kind, n, payload) := s.producer.queue[0];
    assert CommandOk(s.producer.queue[0], |s.h.frames|);
    var top := Max(Top(s), n);
    ShapedExtends(cfg, s.h, s.h, s.writer, Top(s), top);
    MarkerShaped(cfg, fate, s.h, s.writer, MarkerRow(kind, n, payload), top);
    FlushAppends(fate, s.writer);
    var w' := HandleMarker(fate, s.writer, kind, n, payload);
    if s.mode.Running? {
      TookShape(cfg, s, w');
    } else {
      TookShape(cfg, s, w'.(highest := s.writer.highest));
    }
  }

  lemma CloseShape(cfg: Config, fate: Fate, s: System, closeSeq: nat, payload: Payload)
    requires TruthInv(cfg, s) && ShapeInv(cfg, s) && !s.mode.Stopped? && s.writer.log != []
    requires 1 <= closeSeq <= Max(1, |s.h.frames|)
    ensures ShapeInv(cfg, Exit(s, CloseWith(fate, s.writer, closeSeq, payload), true))
  {
    var top := Max(1, |s.h.frames|);
    ShapedExtends(cfg, s.h, s.h, s.writer, Top(s), top);
    MarkerShaped(cfg, fate, s.h, s.writer, MarkerRow(Closed, closeSeq, payload), top);
    FlushAppends(fate, s.writer);
  }

  lemma ReceiveShape(cfg: Config, fate: Fate, s: System)
    requires TruthInv(cfg, s) && ShapeInv(cfg, s) && cfg.hardCap <= U32_MAX && Possible(s, Receive)
    ensures ShapeInv(cfg, Next(cfg, fate, s, Receive))
  {
    if s.producer.queue != [] {
      match s.producer.queue[0]
      case Output(_, _, _) => TakeOutputShape(cfg, fate, s);
      case Marker(_, _, _) => TakeMarkerShape(cfg, fate, s);
      case Shutdown(_) => ShapedExtends(cfg, s.h, s.h, s.writer, Top(s), Max(1, |s.h.frames|));
    }
  }

  lemma NextShape(cfg: Config, fate: Fate, s: System, step: Step)
    requires TruthInv(cfg, s) && ShapeInv(cfg, s) && cfg.hardCap <= U32_MAX && Possible(s, step)
    ensures ShapeInv(cfg, Next(cfg, fate, s, step))
  {
    var s' := Next(cfg, fate, s, step);
    match step
    case Stamp(_) => ShapedExtends(cfg, s.h, s'.h, s.writer, Top(s), Top(s'));
    case Record(_) => ShapedExtends(cfg, s.h, s'.h, s.writer, Top(s), Top(s'));
    case AddMarker(_, _, _, _) =>
    case SendShutdown(_) =>
    case Receive => ReceiveShape(cfg, fate, s);
    case FinishClose => CloseShape(cfg, fate, s, Max(s.mode.lastSeq, 1), SessionClose);
    case SendersGone => CloseShape(cfg, fate, s, Min(Max(s.writer.highest, 1), I64_MAX), WriterDropped);
    case AbortTask => ShapedExtends(cfg, s.h, s.h, s.writer, Top(s), Max(1, |s.h.frames|));
  }

  // ---------- one `started` row ----------

  predicate IsStarted(r: Row) {
    r.MarkerRow? && r.kind.Started?
  }

  /** No row past the first is `started`, and no queued marker but the very first one. */
  ghost predicate OneStarted(s: System) {
    && (forall i | 0 < i < |s.writer.log| :: !IsStarted(s.writer.log[i].row))
    && (forall i | (if s.writer.log == [] then 1 else 0) <= i < |s.producer.queue| ::
          s.producer.queue[i].Marker? ==> !s.producer.queue[i].kind.Started?)
  }

  /** The rows after the old log are chunks and gaps only. */
  ghost predicate AddsData(log: seq<Attempt>, log': seq<Attempt>) {
    log <= log' && (forall i | |log| <= i < |log'| :: !IsPlainMarker(log'[i].row))
  }

  lemma AddsChain(a: seq<Attempt>, b: seq<Attempt>, c: seq<Attempt>)
    requires AddsData(a, b) && AddsData(b, c)
    ensures AddsData(a, c)
  {
    assert forall i | |a| <= i < |b| :: c[i] == b[i];
  }

  lemma FlushAddsData(fate: Fate, w: Writer)
    ensures AddsData(w.log, Flush(fate, w).log)
  {
  }

  lemma BracketAddsData(fate: Fate, w: Writer, g: Option<PendingGap>)
    ensures AddsData(w.log, Bracket(fate, w, g).log)
  {
    if g.Some? {
      FlushAddsData(fate, w);
      AddsChain(w.log, Flush(fate, w).log, Bracket(fate, w, g).log);
    }
  }

  lemma AccumulateAddsData(cfg: Config, fate: Fate, w: Writer, n: nat, data: Bytes)
    ensures AddsData(w.log, FlushAtTarget(cfg, fate, Accumulate(cfg, fate, w, n, data)).log)
  {
    var w1 := Accumulate(cfg, fate, w, n, data);
    FlushAddsData(fate, w);
    FlushAddsData(fate, w1);
    AddsChain(w.log, w1.log, FlushAtTarget(cfg, fate, w1).log);
  }

  lemma OutputAddsData(cfg: Config, fate: Fate, w: Writer, n: nat, data: Bytes, g: Option<PendingGap>)
    ensures AddsData(w.log, HandleOutput(cfg, fate, w, n, data, g).log)
  {
    var w1 := Bracket(fate, w, g);
    BracketAddsData(fate, w, g);
    BracketAddsData(fate, w1, Some(PendingGap(n, n, FrameOversized)));
    AccumulateAddsData(cfg, fate, w1, n, data);
    AddsChain(w.log, w1.log, HandleOutput(cfg, fate, w, n, data, g).log);
  }

  lemma MarkerAddsNoStarted(fate: Fate, w: Writer, row: Row)
    requires !IsStarted(row)
    ensures var log' := AppendRow(fate, Flush(fate, w).log, row);
      w.log <= log' && (forall i | |w.log| <= i < |log'| :: !IsStarted(log'[i].row))
  {
    FlushAddsData(fate, w);
  }

  lemma TakeOneStarted(cfg: Config, fate: Fate, s: System)
    requires OneStarted(s) && StartedFirst(s) && (s.mode.Running? || s.mode.Draining?) && s.producer.queue != []
    ensures OneStarted(TakeCommand(cfg, fate, s))
  {
    var c, q := s.producer.queue[0], s.producer.queue[1..];
    assert forall i | 0 <= i < |q| :: q[i] == s.producer.queue[i + 1];
    if s.writer.log != [] {
      match c
      case Output(n, data, g) => OutputAddsData(cfg, fate, s.writer, n, data, g);
      case Marker(kind, n, payload) => MarkerAddsNoStarted(fate, s.writer, MarkerRow(kind, n, payload));
      case Shutdown(_) =>
    }
  }

  lemma NextOneStarted(cfg: Config, fate: Fate, s: System, step: Step)
    requires OneStarted(s) && StartedFirst(s) && Possible(s, step)
    ensures OneStarted(Next(cfg, fate, s, step))
  {
    match step
    case Receive =>
      if s.producer.queue != [] {
        TakeOneStarted(cfg, fate, s);
      }
    case FinishClose => MarkerAddsNoStarted(fate, s.writer, MarkerRow(Closed, Max(s.mode.lastSeq, 1), SessionClose));
    case SendersGone =>
      var closeSeq := Min(Max(s.writer.highest, 1), I64_MAX);
      MarkerAddsNoStarted(fate, s.writer, MarkerRow(Closed, closeSeq, WriterDropped));
    case _ =>
  }

  // ---------- batching, for any cap ----------

  lemma TakeBatched(cfg: Config, fate: Fate, s: System)
    requires TruthInv(cfg, s) && Batched(cfg, s.h, s.writer.log)
    requires (s.mode.Running? || s.mode.Draining?) && s.producer.queue != []
    ensures Batched(cfg, s.h, TakeCommand(cfg, fate, s).writer.log)
  {
    match s.producer.queue[0]
    case Output(n, data, g) => OutputBatched(cfg, fate, s.writer, s.h, s.processed, n, g);
    case Marker(kind, n, payload) => MarkerBatched(cfg, fate, s.h, s.writer, MarkerRow(kind, n, payload));
    case Shutdown(_) =>
  }

  lemma NextBatched(cfg: Config, fate: Fate, s: System, step: Step)
    requires TruthInv(cfg, s) && Batched(cfg, s.h, s.writer.log) && Possible(s, step)
    ensures var s' := Next(cfg, fate, s, step); Batched(cfg, s'.h, s'.writer.log)
  {
    match step
    case Receive =>
      if s.producer.queue != [] {
        TakeBatched(cfg, fate, s);
      }
    case FinishClose =>
      MarkerBatched(cfg, fate, s.h, s.writer, MarkerRow(Closed, Max(s.mode.lastSeq, 1), SessionClose));
    case SendersGone =>
      var closeSeq := Min(Max(s.writer.highest, 1), I64_MAX);
      MarkerBatched(cfg, fate, s.h, s.writer, MarkerRow(Closed, closeSeq, WriterDropped));
    case _ =>
      BatchedExtends(cfg, s.h, Next(cfg, fate, s, step).h, s.writer.log);
  }

  // ---------- coverage: nothing is silently missing, for caps within the column ----------

  ghost predicate CoverInv(cfg: Config, s: System)
    requires s.h.Valid() && s.processed <= |s.h.verdicts|
  {
    && Fits(cfg, s.h)
    && Keeps(cfg, s.writer, s.h, s.processed)
    && (s.mode == Stopped(true) ==> s.writer.open.None?)
  }

  lemma TakeCover(cfg: Config, fate: Fate, s: System)
    requires TruthInv(cfg, s) && CoverInv(cfg, s)
    requires (s.mode.Running? || s.mode.Draining?) && s.producer.queue != []
    ensures TakeCommand(cfg, fate, s).processed <= |s.h.verdicts| && CoverInv(cfg, TakeCommand(cfg, fate, s))
  {
    var c := s.producer.queue[0];
    assert CommandOk(c, |s.h.frames|);
    match c
    case Output(n, data, g) => OutputKeeps(cfg, fate, s.writer, s.h, s.processed, n, g);
    case Marker(kind, n, payload) => MarkerKeeps(cfg, fate, s.writer, s.h, s.processed, kind, n, payload);
    case Shutdown(_) =>
  }

  lemma NextCover(cfg: Config, fate: Fate, s: System, step: Step)
    requires TruthInv(cfg, s) && CoverInv(cfg, s) && Possible(s, step)
    ensures TruthInv(cfg, Next(cfg, fate, s, step)) && CoverInv(cfg, Next(cfg, fate, s, step))
  {
    NextTruth(cfg, fate, s, step);
    var s' := Next(cfg, fate, s, step);
    match step
    case Stamp(_) => KeepsExtends(cfg, s.writer, s.h, s'.h, s.processed);
    case Record(_) => KeepsExtends(cfg, s.writer, s.h, s'.h, s.processed);
    case AddMarker(_, _, _, _) =>
    case SendShutdown(_) =>
    case Receive =>
      if s.producer.queue != [] {
        TakeCover(cfg, fate, s);
      }
    case FinishClose =>
      CloseKeeps(cfg, fate, s.writer, s.h, s.processed, Max(s.mode.lastSeq, 1), SessionClose);
    case SendersGone =>
      CloseKeeps(cfg, fate, s.writer, s.h, s.processed, Min(Max(s.writer.highest, 1), I64_MAX), WriterDropped);
    case AbortTask =>
  }

  // ---------- over whole runs ----------

  lemma InitialInv(cfg: Config)
    ensures TruthInv(cfg, Initial()) && ShapeInv(cfg, Initial()) && OneStarted(Initial())
    ensures Batched(cfg, Initial().h, Initial().writer.log)
    ensures cfg.hardCap <= I32_MAX ==> CoverInv(cfg, Initial())
  {
    assert Initial().producer.queue[1..] == [];
  }

  /** The invariants, each on the caps it holds for. */
  ghost predicate Inv(cfg: Config, s: System) {
    && TruthInv(cfg, s)
    && Batched(cfg, s.h, s.writer.log)
    && (cfg.hardCap <= U32_MAX ==> ShapeInv(cfg, s) && OneStarted(s))
    && (cfg.hardCap <= I32_MAX ==> CoverInv(cfg, s))
  }

  /** Every possible step keeps the invariants. */
  lemma NextInv(cfg: Config, fate: Fate, s: System, step: Step)
    requires Inv(cfg, s) && Possible(s, step)
    ensures Inv(cfg, Next(cfg, fate, s, step))
  {
    NextTruth(cfg, fate, s, step);
    NextBatched(cfg, fate, s, step);
    if cfg.hardCap <= U32_MAX {
      NextShape(cfg, fate, s, step);
      NextOneStarted(cfg, fate, s, step);
    }
    if cfg.hardCap <= I32_MAX {
      NextCover(cfg, fate, s, step);
    }
  }

  lemma {:induction false} RunInv(cfg: Config, fate: Fate, s: System, steps: seq<Step>)
    requires Inv(cfg, s)
    ensures Inv(cfg, Run(cfg, fate, s, steps))
    decreases |steps|
  {
    if steps != [] {
      if Possible(s, steps[0]) {
        NextInv(cfg, fate, s, steps[0]);
      }
      RunInv(cfg, fate, RunOne(cfg, fate, s, steps[0]), steps[1..]);
    }
  }
}

/** The recording's end-to-end guarantees, for every run of the pipeline. */
module RecordingTheorems {
  import opened Common
  import opened RecordingModel
  import opened RecordingLedger
  import opened RecordingWriter
  import opened RecordingSystem

  ghost predicate Reachable(cfg: Config, fate: Fate, s: System) {
    exists steps: seq<Step> :: s == Run(cfg, fate, Initial(), steps)
  }

  lemma ReachableInv(cfg: Config, fate: Fate, s: System)
    requires Reachable(cfg, fate, s)
    ensures Inv(cfg, s)
  {
    var steps :| s == Run(cfg, fate, Initial(), steps);
    InitialInv(cfg);
    RunInv(cfg, fate, Initial(), steps);
  }

  /** Last seq the rows answer for: the open batch is not yet among them. */
  function AnsweredUpTo(s: System): nat {
    if s.writer.open.Some? then Pred(s.writer.open.value.seqStart) else s.processed
  }

  /** In every reachable state the durable rows play back as the PTY stream with holes
      exactly where the durable gap markers say; with no byteless frame, chunk and gap
      ranges tile `1..=AnsweredUpTo` in row order. Any queue-full pattern and any
      pattern of chunk-write failures is allowed; gap-marker writes must land. */
  lemma RecordingIsStreamWithHoles(cfg: Config, fate: Fate, s: System)
    requires cfg.hardCap <= 0x7FFF_FFFF && Reachable(cfg, fate, s) && GapsLanded(s.writer.log)
    ensures s.h.Valid() && AnsweredUpTo(s) <= |s.h.verdicts|
    ensures Played(Durable(s.writer.log)) == StreamWithHoles(s.h.frames, Durable(s.writer.log), AnsweredUpTo(s))
    ensures AllCarryBytes(s.h.frames, AnsweredUpTo(s)) ==> Tiles(Durable(s.writer.log), AnsweredUpTo(s))
  {
    ReachableInv(cfg, fate, s);
    PlaysStreamWithHoles(s.writer.log, s.h, AnsweredUpTo(s));
    if AllCarryBytes(s.h.frames, AnsweredUpTo(s)) {
      NonemptyFramesTile(s.writer.log, s.h, AnsweredUpTo(s));
    }
  }

  /** Whatever fails and whatever the cap, every chunk that lands holds exactly the frames it names, all of
      them kept by the producer: no chunk spans a dropped frame. And every gap marker
      names frames that are really missing, under the cause that dropped the first. */
  lemma RowsAreHonest(cfg: Config, fate: Fate, s: System, i: nat)
    requires Reachable(cfg, fate, s)
    requires i < |s.writer.log| && Answers(s.writer.log[i]).Some?
    ensures s.h.Valid()
    ensures var r := Answers(s.writer.log[i]).value;
      1 <= r.first <= r.last <= |s.h.verdicts| && Honest(s.h, s.writer.log[i].row, r)
  {
    ReachableInv(cfg, fate, s);
    assert HonestAttempt(s.h, s.writer.log[i]);
  }

  /** Every byte-carrying frame the rows claim to cover is answered for by exactly one
      attempted row, even when marker writes fail. */
  lemma ExactlyOneAnswer(cfg: Config, fate: Fate, s: System, n: nat)
    requires cfg.hardCap <= 0x7FFF_FFFF && Reachable(cfg, fate, s)
    requires 1 <= n <= AnsweredUpTo(s) && n <= |s.h.frames| && s.h.frames[n - 1] != []
    ensures exists i ::
              && 0 <= i < |s.writer.log| && InRange(Answers(s.writer.log[i]), n)
              && (forall j | 0 <= j < |s.writer.log| && InRange(Answers(s.writer.log[j]), n) :: j == i)
  {
    ReachableInv(cfg, fate, s);
    var i := BytesAnswered(s.writer.log, s.h, AnsweredUpTo(s), n);
    forall j | 0 <= j < |s.writer.log| && InRange(Answers(s.writer.log[j]), n) ensures j == i {
      OneAnswer(s.writer.log, s.h, AnsweredUpTo(s), n, i, j);
    }
  }

  /** With failing marker writes: a byte-carrying frame is absent from the durable rows exactly
      when the gap marker written for it did not land. */
  lemma MissingIffGapMarkerLost(cfg: Config, fate: Fate, s: System, n: nat)
    requires cfg.hardCap <= 0x7FFF_FFFF && Reachable(cfg, fate, s)
    requires 1 <= n <= AnsweredUpTo(s) && n <= |s.h.frames| && s.h.frames[n - 1] != []
    ensures (exists i :: 0 <= i < |s.writer.log| && s.writer.log[i].ok && InRange(RowRange(s.writer.log[i].row), n))
       <==> !(exists i :: 0 <= i < |s.writer.log| && !s.writer.log[i].ok
                && IsGapRow(s.writer.log[i].row) && InRange(RowRange(s.writer.log[i].row), n))
  {
    ReachableInv(cfg, fate, s);
    HiddenIffGapMarkerFailed(s.writer.log, s.h, AnsweredUpTo(s), n);
  }

  /** Producer invariant, in every state with an open channel and for any cap: the pending gap is exactly the run
      from the frame after the last queued one to the last teed one, under the cause that
      dropped the first of them; and the queue holds exactly the kept frames the writer has not
      taken, each with its own bytes and with the gap since the kept frame before it. */
  lemma ProducerInvariant(cfg: Config, fate: Fate, s: System)
    requires Reachable(cfg, fate, s) && !s.mode.Stopped?
    ensures var v, g := s.h.verdicts, s.producer.pendingGap;
      var k := LastKept(v);
      && (g.None? <==> k == |v|)
      && (g.Some? ==> k < |v| && v[k].Dropped? && g.value == PendingGap(k + 1, |v|, v[k].reason))
    ensures s.h.Valid() && Chain(cfg.hardCap, s.h, s.producer.queue, s.processed)
    ensures |s.producer.queue| <= QUEUE_CAPACITY
  {
    ReachableInv(cfg, fate, s);
  }

  lemma {:induction false} AccountedPrefix(log: seq<Attempt>, h: History, upTo: nat, k: nat) returns (u: nat)
    requires h.Valid() && upTo <= |h.verdicts| && Accounted(log, h, upTo) && k <= |log|
    ensures u <= upTo && Accounted(log[..k], h, u)
  {
    if k == |log| {
      assert log[..k] == log;
      u := upTo;
    } else {
      var rest := log[..|log| - 1];
      assert rest[..k] == log[..k];
      match Answers(log[|log| - 1])
      case None => u := AccountedPrefix(rest, h, upTo, k);
      case Some(r) => u := AccountedPrefix(rest, h, r.first - 1, k);
    }
  }

  /** The writer may be aborted between any two of its writes. What it has written by then is a
      prefix of the rows of some reachable state, and every such prefix, also one that ends in
      the middle of a command, accounts for a prefix of the stream. */
  lemma EveryPrefixAccounted(cfg: Config, fate: Fate, s: System, k: nat) returns (u: nat)
    requires cfg.hardCap <= 0x7FFF_FFFF && Reachable(cfg, fate, s) && k <= |s.writer.log|
    ensures s.h.Valid() && u <= AnsweredUpTo(s) <= |s.h.verdicts| && Accounted(s.writer.log[..k], s.h, u)
  {
    ReachableInv(cfg, fate, s);
    u := AccountedPrefix(s.writer.log, s.h, AnsweredUpTo(s), k);
  }

  // ---------- what shutdown leaves behind ----------

  ghost predicate StopsCleanly(cfg: Config, fate: Fate, s: System, step: Step) {
    Possible(s, step) && !s.mode.Stopped? && Next(cfg, fate, s, step).mode == Stopped(true)
  }

  predicate InGapSlot(g: Option<PendingGap>, n: nat) {
    g.Some? && g.value.fromSeq <= n <= g.value.toSeq
  }

  /** Frame `n` sits in a queued command, as its frame or in its `gap_before`. */
  ghost predicate Queued(q: seq<Command>, n: nat) {
    exists i :: 0 <= i < |q| && q[i].Output? && (q[i].seqNo == n || InGapSlot(q[i].gapBefore, n))
  }

  /** Frame `n` sits in the gap slot or in the queue, where an exit leaves it. */
  ghost predicate LeftBehind(p: Producer, n: nat) {
    InGapSlot(p.pendingGap, n) || Queued(p.queue, n)
  }

  lemma QueuedStep(c: Command, rest: seq<Command>, q: seq<Command>, n: nat)
    requires q == [c] + rest
    ensures Queued(q, n) <==> (c.Output? && (c.seqNo == n || InGapSlot(c.gapBefore, n))) || Queued(rest, n)
  {
    if Queued(rest, n) {
      var i :| 0 <= i < |rest| && rest[i].Output? && (rest[i].seqNo == n || InGapSlot(rest[i].gapBefore, n));
      assert q[i + 1] == rest[i];
    }
    assert q[0] == c;
  }

  /** The chain carries every frame after `prev` up to the last kept one, and no other. */
  lemma {:induction false} ChainQueues(hardCap: nat, h: History, q: seq<Command>, prev: nat, n: nat)
    requires h.Valid() && Chain(hardCap, h, q, prev)
    ensures prev <= LastKept(h.verdicts)
    ensures Queued(q, n) <==> prev < n <= LastKept(h.verdicts)
    decreases |q|
  {
    if q != [] {
      var c := q[0];
      ChainQueues(hardCap, h, q[1..], if c.Output? then c.seqNo else prev, n);
      QueuedStep(c, q[1..], q, n);
    }
  }

  lemma LeftBehindIff(cfg: Config, s: System, n: nat)
    requires s.h.Valid() && QueueInv(cfg, s) && 1 <= n <= |s.h.verdicts|
    ensures LeftBehind(s.producer, n) <==> s.processed < n
  {
    ChainQueues(cfg.hardCap, s.h, s.producer.queue, s.processed, n);
  }

  /** At a clean exit the rows account for everything the writer took. The teed frames they do
      not account for are exactly those left behind: the pending gap, and the frames queued
      since the drain ended, each with the gap it carries. */
  lemma UnaccountedIffLeftBehind(cfg: Config, fate: Fate, s: System, step: Step)
    requires cfg.hardCap <= 0x7FFF_FFFF && Reachable(cfg, fate, s) && StopsCleanly(cfg, fate, s, step)
    ensures var s' := Next(cfg, fate, s, step);
      && s'.h == s.h && s.h.Valid() && s.processed <= |s.h.verdicts|
      && Accounted(s'.writer.log, s.h, s.processed)
      && Chain(cfg.hardCap, s.h, s.producer.queue, s.processed)
    ensures forall n: nat | 1 <= n <= |s.h.verdicts| :: LeftBehind(s.producer, n) <==> s.processed < n
  {
    ReachableInv(cfg, fate, s);
    NextInv(cfg, fate, s, step);
    forall n: nat | 1 <= n <= |s.h.verdicts| ensures LeftBehind(s.producer, n) <==> s.processed < n {
      LeftBehindIff(cfg, s, n);
    }
  }

  /** Some attempted row answers for frame `n`. */
  ghost predicate Answered(log: seq<Attempt>, n: nat) {
    exists i :: 0 <= i < |log| && InRange(Answers(log[i]), n)
  }

  /** A byte-carrying frame ends up in some row, as content or as a gap, exactly when the exit
      does not leave it behind. */
  lemma AnsweredIffNotLeftBehind(cfg: Config, fate: Fate, s: System, step: Step, n: nat)
    requires cfg.hardCap <= 0x7FFF_FFFF && Reachable(cfg, fate, s) && StopsCleanly(cfg, fate, s, step)
    requires 1 <= n <= |s.h.verdicts| <= |s.h.frames| && s.h.frames[n - 1] != []
    ensures var log := Next(cfg, fate, s, step).writer.log;
      Answered(log, n) <==> !LeftBehind(s.producer, n)
  {
    UnaccountedIffLeftBehind(cfg, fate, s, step);
    var log := Next(cfg, fate, s, step).writer.log;
    if n <= s.processed {
      var i := BytesAnswered(log, s.h, s.processed, n);
      assert InRange(Answers(log[i]), n);
    } else if i :| 0 <= i < |log| && InRange(Answers(log[i]), n) {
      RangesBounded(log, s.h, s.processed, i);
    }
  }

  ghost predicate NoFrameQueued(q: seq<Command>) {
    forall i | 0 <= i < |q| :: !q[i].Output?
  }

  // ---------- and what comes after the exit ----------

  lemma RecordAfterExit(cfg: Config, fate: Fate, s: System, congested: bool)
    requires s.mode.Stopped? && Possible(s, Record(congested))
    ensures var v := Next(cfg, fate, s, Record(congested)).h.verdicts;
      v == s.h.verdicts + [if |s.h.frames[|s.h.verdicts|]| > cfg.hardCap then Dropped(FrameOversized) else Lost]
  {
  }

  /** Once the task has stopped nothing is written or received any more. A frame teed then is
      refused as oversized or lost on the closed channel; none is kept. */
  lemma {:induction false} AfterExit(cfg: Config, fate: Fate, s: System, rest: seq<Step>)
    requires s.h.Valid() && s.mode.Stopped?
    ensures var end := Run(cfg, fate, s, rest);
      && end.h.Valid() && Extends(s.h, end.h)
      && end.writer == s.writer && end.mode == s.mode && end.processed == s.processed
      && (forall i | |s.h.verdicts| <= i < |end.h.verdicts| ::
            end.h.verdicts[i] == if |end.h.frames[i]| > cfg.hardCap then Dropped(FrameOversized) else Lost)
    decreases |rest|
  {
    if rest != [] {
      var s1 := RunOne(cfg, fate, s, rest[0]);
      if Possible(s, rest[0]) && rest[0].Record? {
        RecordAfterExit(cfg, fate, s, rest[0].congested);
      }
      AfterExit(cfg, fate, s1, rest[1..]);
    }
  }

  /** In a cleanly stopped state, whenever it is looked at, a byte-carrying frame is in some row,
      as content or as a gap, exactly when the writer took it or its gap from the queue. */
  lemma AnsweredIffProcessed(cfg: Config, fate: Fate, s: System, n: nat)
    requires cfg.hardCap <= 0x7FFF_FFFF && Reachable(cfg, fate, s) && s.mode == Stopped(true)
    requires 1 <= n <= |s.h.frames| && s.h.frames[n - 1] != []
    ensures Answered(s.writer.log, n) <==> n <= s.processed
  {
    ReachableInv(cfg, fate, s);
    var log := s.writer.log;
    if n <= s.processed {
      var i := BytesAnswered(log, s.h, s.processed, n);
      assert InRange(Answers(log[i]), n);
    } else if i :| 0 <= i < |log| && InRange(Answers(log[i]), n) {
      RangesBounded(log, s.h, s.processed, i);
    }
  }

  /** Every silent omission, at any time after a clean exit: a byte-carrying frame has no row
      exactly when the exit left it behind in the gap slot or the queue, or when it had not been
      teed by then. */
  lemma MissingIffLeftBehindOrLate(cfg: Config, fate: Fate, s: System, step: Step, rest: seq<Step>, n: nat)
    requires cfg.hardCap <= 0x7FFF_FFFF && Reachable(cfg, fate, s) && StopsCleanly(cfg, fate, s, step)
    requires var end := Run(cfg, fate, Next(cfg, fate, s, step), rest);
      1 <= n <= |end.h.frames| && end.h.frames[n - 1] != []
    ensures var end := Run(cfg, fate, Next(cfg, fate, s, step), rest);
      !Answered(end.writer.log, n) <==> LeftBehind(s.producer, n) || |s.h.verdicts| < n
  {
    var s' := Next(cfg, fate, s, step);
    var end := Run(cfg, fate, s', rest);
    UnaccountedIffLeftBehind(cfg, fate, s, step);
    AfterExit(cfg, fate, s', rest);
    var log := end.writer.log;
    AccountedExtends(log, s.h, end.h, s.processed);
    if n <= s.processed {
      var i := BytesAnswered(log, end.h, s.processed, n);
      assert InRange(Answers(log[i]), n);
    } else if i :| 0 <= i < |log| && InRange(Answers(log[i]), n) {
      RangesBounded(log, end.h, s.processed, i);
    }
  }

  /** The documented promise that a gap is never a silent omission holds after a clean exit if
      and only if, when the exit began, no drop was pending and no frame had been queued behind
      the finished drain, and no frame has been teed since: the exit writes neither of the first
      two, and the closed channel takes nothing. */
  lemma ShutdownCompleteIffNothingLeft(cfg: Config, fate: Fate, s: System, step: Step, rest: seq<Step>)
    requires cfg.hardCap <= 0x7FFF_FFFF && Reachable(cfg, fate, s) && StopsCleanly(cfg, fate, s, step)
    requires var end := Run(cfg, fate, Next(cfg, fate, s, step), rest);
      end.h.Valid() && AllCarryBytes(end.h.frames, |end.h.verdicts|)
    ensures var end := Run(cfg, fate, Next(cfg, fate, s, step), rest);
      Accounted(end.writer.log, end.h, |end.h.verdicts|)
      <==> && s.producer.pendingGap.None? && NoFrameQueued(s.producer.queue)
           && |end.h.verdicts| == |s.h.verdicts|
  {
    UnaccountedIffLeftBehind(cfg, fate, s, step);
    var s' := Next(cfg, fate, s, step);
    AfterExit(cfg, fate, s', rest);
    var end := Run(cfg, fate, s', rest);
    var log, v := end.writer.log, |end.h.verdicts|;
    AccountedExtends(log, s.h, end.h, s.processed);
    ReachableInv(cfg, fate, s);
    NothingLeftIff(cfg, s);
    if s.processed < v && Accounted(log, end.h, v) {
      var i := BytesAnswered(log, end.h, v, s.processed + 1);
      RangesBounded(log, end.h, s.processed, i);
    }
  }

  lemma NothingLeftIff(cfg: Config, s: System)
    requires s.h.Valid() && QueueInv(cfg, s) && s.processed <= |s.h.verdicts|
    ensures s.processed == |s.h.verdicts| <==> s.producer.pendingGap.None? && NoFrameQueued(s.producer.queue)
  {
    var q, last := s.producer.queue, LastKept(s.h.verdicts);
    ChainQueues(cfg.hardCap, s.h, q, s.processed, last);
    forall i | 0 <= i < |q| && q[i].Output? ensures s.processed < q[i].seqNo <= last {
      ChainQueues(cfg.hardCap, s.h, q, s.processed, q[i].seqNo);
    }
  }

  /** The single frame `[b]`, dropped on a full queue, with shutdown already requested. */
  function DroppedThenShutdown(b: Byte): System {
    System(History([[b]], [Dropped(WriterOverflow)]),
           Producer(Some(PendingGap(1, 1, WriterOverflow)), [Marker(Started, 0, EmptyObject), Shutdown(1)]),
           Writer(None, 0, []), Running, 0)
  }

  lemma DropRun(cfg: Config, fate: Fate, b: Byte)
    requires 1 <= cfg.hardCap
    ensures Run(cfg, fate, Initial(), [Stamp([b]), Record(true), SendShutdown(1)]) == DroppedThenShutdown(b)
  {
    var s0 := Initial();
    var s1 := RunOne(cfg, fate, s0, Stamp([b]));
    assert s1.h == History([[b]], []);
    var s2 := RunOne(cfg, fate, s1, Record(true));
    assert s2.h == History([[b]], [Dropped(WriterOverflow)]);
    var s3 := RunOne(cfg, fate, s2, SendShutdown(1));
    assert s3.producer.queue == [Marker(Started, 0, EmptyObject), Shutdown(1)];
    RunCons(cfg, fate, s2, SendShutdown(1), []);
    RunCons(cfg, fate, s1, Record(true), [SendShutdown(1)]);
    RunCons(cfg, fate, s0, Stamp([b]), [Record(true), SendShutdown(1)]);
  }

  /** One frame, one full queue, then close: the run ends cleanly, its only frame was
      dropped, and no row, landed or attempted, answers for it. */
  lemma TrailingDropIsSilent(cfg: Config, fate: Fate, b: Byte)
    requires 1 <= cfg.hardCap
    ensures Run(cfg, fate, Initial(), [Stamp([b]), Record(true), SendShutdown(1)]) == DroppedThenShutdown(b)
    ensures var s := Run(cfg, fate, DroppedThenShutdown(b), [Receive, Receive, Receive, FinishClose]);
      s.mode == Stopped(true) && (forall i | 0 <= i < |s.writer.log| :: RowRange(s.writer.log[i].row).None?)
  {
    DropRun(cfg, fate, b);
    var s3 := DroppedThenShutdown(b);
    var s4 := RunOne(cfg, fate, s3, Receive);
    assert s4.producer.queue == [Shutdown(1)];
    var s5 := RunOne(cfg, fate, s4, Receive);
    assert s5.producer.queue == [] && s5.mode == Draining(1);
    var s6 := RunOne(cfg, fate, s5, Receive);
    RunCons(cfg, fate, s6, FinishClose, []);
    RunCons(cfg, fate, s5, Receive, [FinishClose]);
    RunCons(cfg, fate, s4, Receive, [Receive, FinishClose]);
    RunCons(cfg, fate, s3, Receive, [Receive, Receive, FinishClose]);
  }

  /** The drain of an empty session has just ended; its final writes are still to come. */
  function DrainEnded(fate: Fate): System {
    System(History([], []), Producer(None, []),
           Writer(None, 0, [Attempt(MarkerRow(Started, 0, EmptyObject), fate(0))]), Closing(0), 0)
  }

  lemma DrainEndedRun(cfg: Config, fate: Fate)
    ensures Run(cfg, fate, Initial(), [SendShutdown(0), Receive, Receive, Receive]) == DrainEnded(fate)
  {
    var s0 := Initial();
    var s1 := RunOne(cfg, fate, s0, SendShutdown(0));
    assert s1.producer.queue == [Marker(Started, 0, EmptyObject), Shutdown(0)];
    var s2 := RunOne(cfg, fate, s1, Receive);
    assert s2.producer.queue == [Shutdown(0)];
    var s3 := RunOne(cfg, fate, s2, Receive);
    assert s3.producer.queue == [] && s3.mode == Draining(0);
    var s4 := RunOne(cfg, fate, s3, Receive);
    assert s4 == DrainEnded(fate);
    RunCons(cfg, fate, s3, Receive, []);
    RunCons(cfg, fate, s2, Receive, [Receive]);
    RunCons(cfg, fate, s1, Receive, [Receive, Receive]);
    RunCons(cfg, fate, s0, SendShutdown(0), [Receive, Receive, Receive]);
  }

  /** A frame teed after the drain ended and before the receiver was dropped: the send succeeds,
      no drop is pending, the exit is clean, and no row answers for the frame. */
  lemma QueuedTooLateIsSilent(cfg: Config, fate: Fate, b: Byte)
    requires 1 <= cfg.hardCap
    ensures Run(cfg, fate, Initial(), [SendShutdown(0), Receive, Receive, Receive]) == DrainEnded(fate)
    ensures var s := Run(cfg, fate, DrainEnded(fate), [Stamp([b]), Record(false), FinishClose]);
      && s.mode == Stopped(true) && s.h == History([[b]], [Kept]) && s.producer == Producer(None, [])
      && (forall i | 0 <= i < |s.writer.log| :: RowRange(s.writer.log[i].row).None?)
  {
    DrainEndedRun(cfg, fate);
    var s4 := DrainEnded(fate);
    var s5 := RunOne(cfg, fate, s4, Stamp([b]));
    assert s5.h == History([[b]], []);
    var s6 := RunOne(cfg, fate, s5, Record(false));
    assert s6.h == History([[b]], [Kept]) && s6.producer.pendingGap.None?;
    RunCons(cfg, fate, s6, FinishClose, []);
    RunCons(cfg, fate, s5, Record(false), [FinishClose]);
    RunCons(cfg, fate, s4, Stamp([b]), [Record(false), FinishClose]);
  }

  /** A frame teed after the receiver was dropped: nothing was pending or queued when the exit
      began and the exit was clean, but the closed channel loses the frame without a row. */
  lemma TeedAfterExitIsSilent(cfg: Config, fate: Fate, b: Byte)
    requires 1 <= cfg.hardCap
    ensures Run(cfg, fate, Initial(), [SendShutdown(0), Receive, Receive, Receive]) == DrainEnded(fate)
    ensures var s := Run(cfg, fate, DrainEnded(fate), [FinishClose, Stamp([b]), Record(false)]);
      && s.mode == Stopped(true) && s.h == History([[b]], [Lost]) && s.producer == Producer(None, [])
      && (forall i | 0 <= i < |s.writer.log| :: RowRange(s.writer.log[i].row).None?)
  {
    DrainEndedRun(cfg, fate);
    var s4 := DrainEnded(fate);
    var s5 := RunOne(cfg, fate, s4, FinishClose);
    var s6 := RunOne(cfg, fate, s5, Stamp([b]));
    assert s6.h == History([[b]], []);
    var s7 := RunOne(cfg, fate, s6, Record(false));
    assert s7.h == History([[b]], [Lost]);
    RunCons(cfg, fate, s6, Record(false), []);
    RunCons(cfg, fate, s5, Stamp([b]), [Record(false)]);
    RunCons(cfg, fate, s4, FinishClose, [Stamp([b]), Record(false)]);
  }

  lemma RunCons(cfg: Config, fate: Fate, s: System, step: Step, rest: seq<Step>)
    ensures Run(cfg, fate, s, [step] + rest) == Run(cfg, fate, RunOne(cfg, fate, s, step), rest)
  {
    assert ([step] + rest)[1..] == rest;
  }

  // ---------- sizes and shape ----------

  /** Between commands the open batch is short of the target; every chunk written is
      nonempty, within the hard cap, and within `target - 1` plus its last frame; a failed
      chunk is bracketed at once; the first row is `started` at 0, no later row is `started`
      and no later row is at 0. */
  lemma LogShape(cfg: Config, fate: Fate, s: System)
    requires cfg.hardCap <= 0xFFFF_FFFF && Reachable(cfg, fate, s)
    ensures s.writer.open.Some? ==> |s.writer.open.value.payload| < cfg.target
    ensures forall i | 0 <= i < |s.writer.log| :: Sized(cfg, s.h, s.writer.log[i].row)
    ensures FailuresBracketed(s.writer.log)
    ensures s.writer.log != [] ==> s.writer.log[0].row == MarkerRow(Started, 0, EmptyObject)
    ensures forall i | 0 < i < |s.writer.log| :: s.writer.log[i].row.LastSeq() >= 1 && !IsStarted(s.writer.log[i].row)
  {
    ReachableInv(cfg, fate, s);
  }

  /** The writer batches, for every target and cap: a landed chunk that is followed directly by
      another chunk, or by nothing yet, has reached the target, or the very next frame would have
      taken it past the hard cap. Any other flush leaves a marker or gap row behind it. */
  lemma ChunksAreFull(cfg: Config, fate: Fate, s: System, i: nat)
    requires Reachable(cfg, fate, s) && i < |s.writer.log|
    requires s.writer.log[i].row.ChunkRow? && s.writer.log[i].ok
    requires i + 1 < |s.writer.log| ==> s.writer.log[i + 1].row.ChunkRow?
    ensures var r := s.writer.log[i].row;
      |r.bytes| >= cfg.target || (r.seqEnd < |s.h.frames| && |r.bytes| + |s.h.frames[r.seqEnd]| > cfg.hardCap)
  {
    ReachableInv(cfg, fate, s);
    assert RunsOn(s.writer.log, i);
  }

  /** No attempted row has a seq above `top`. */
  ghost predicate RowsBelow(log: seq<Attempt>, top: nat) {
    forall i | 0 <= i < |log| :: log[i].row.LastSeq() <= top
  }

  /** On the dropped-senders exit the final `closed` row's seq bounds every row. */
  lemma ClosedBoundsRowsOnDrop(cfg: Config, fate: Fate, s: System)
    requires cfg.hardCap <= 0xFFFF_FFFF && Reachable(cfg, fate, s) && Possible(s, SendersGone)
    ensures var log := Next(cfg, fate, s, SendersGone).writer.log;
      && log != [] && log[|log| - 1].row.MarkerRow? && log[|log| - 1].row.kind.Closed?
      && RowsBelow(log, log[|log| - 1].row.LastSeq())
  {
    ReachableInv(cfg, fate, s);
    var top := Max(s.writer.highest, 1);
    ShapedExtends(cfg, s.h, s.h, s.writer, s.writer.highest, top);
    MarkerShaped(cfg, fate, s.h, s.writer, MarkerRow(Closed, top, WriterDropped), top);
  }

  /** On the shutdown exit the `closed` row bounds every row when the forwarder barrier
      completed, that is, when no frame was stamped after `last_seq` was read. */
  lemma ClosedBoundsRowsOnShutdown(cfg: Config, fate: Fate, s: System)
    requires cfg.hardCap <= 0xFFFF_FFFF && Reachable(cfg, fate, s) && s.mode == Closing(|s.h.frames|)
    ensures var log := Next(cfg, fate, s, FinishClose).writer.log;
      && log != [] && log[|log| - 1].row.MarkerRow? && log[|log| - 1].row.kind.Closed?
      && RowsBelow(log, log[|log| - 1].row.LastSeq())
  {
    ReachableInv(cfg, fate, s);
    var top := Max(1, |s.h.frames|);
    MarkerShaped(cfg, fate, s.h, s.writer, MarkerRow(Closed, top, SessionClose), top);
  }

  ghost predicate PlainMarkersBelow(log: seq<Attempt>, top: nat) {
    forall i | 0 <= i < |log| && IsPlainMarker(log[i].row) :: log[i].row.seqNo <= top
  }

  /** Without the barrier, and when the last drained frame carries bytes: the `closed` row bounds
      every row if and only if nothing drained, frame or marker, lies above it. */
  lemma ClosedBoundsRowsIff(cfg: Config, fate: Fate, s: System)
    requires cfg.hardCap <= 0x7FFF_FFFF && Reachable(cfg, fate, s) && s.mode.Closing?
    requires s.processed <= |s.h.frames| && (s.processed > 0 ==> s.h.frames[s.processed - 1] != [])
    ensures var top := Max(1, s.mode.lastSeq);
      RowsBelow(Next(cfg, fate, s, FinishClose).writer.log, top)
      <==> s.processed <= top && PlainMarkersBelow(s.writer.log, top)
  {
    var s', top := Next(cfg, fate, s, FinishClose), Max(1, s.mode.lastSeq);
    var log, log' := s.writer.log, s'.writer.log;
    UnaccountedIffLeftBehind(cfg, fate, s, FinishClose);
    FlushAppends(fate, s.writer);
    assert forall i | 0 <= i < |log| :: log'[i] == log[i];
    if RowsBelow(log', top) {
      if s.processed > 0 {
        var i := BytesAnswered(log', s.h, s.processed, s.processed);
        AnsweringRowEnds(log', s.h, s.processed, i);
      }
    } else if s.processed <= top {
      ReachableInv(cfg, fate, s);
      NextInv(cfg, fate, s, FinishClose);
      forall i | 0 <= i < |log'| && PlainMarkersBelow(log, top) ensures log'[i].row.LastSeq() <= top {
        RowEndsBelow(fate, s, log', i, top);
      }
    }
  }

  /** An answering row's own seq is the last seq it answers for. */
  lemma AnsweringRowEnds(log: seq<Attempt>, h: History, upTo: nat, i: nat)
    requires h.Valid() && upTo <= |h.verdicts| && Accounted(log, h, upTo)
    requires i < |log| && Answers(log[i]).Some?
    ensures log[i].row.LastSeq() == Answers(log[i]).value.last <= upTo
  {
    RangesBounded(log, h, upTo, i);
  }

  /** The rows the exit adds are the open batch's and the `closed` row at `top`. */
  lemma RowEndsBelow(fate: Fate, s: System, log: seq<Attempt>, i: nat, top: nat)
    requires s.h.Valid() && s.processed <= |s.h.verdicts| && s.processed <= top
    requires s.mode.Closing? && top == Max(1, s.mode.lastSeq)
    requires log == CloseOnShutdown(fate, s.writer, s.mode.lastSeq).log && Accounted(log, s.h, s.processed)
    requires FailuresBracketed(log) && PlainMarkersBelow(s.writer.log, top) && i < |log|
    ensures log[i].row.LastSeq() <= top
  {
    if Answers(log[i]).Some? {
      AnsweringRowEnds(log, s.h, s.processed, i);
    } else if log[i].row.ChunkRow? {
      AnsweringRowEnds(log, s.h, s.processed, i + 1);
    } else {
      assert i < |s.writer.log| ==> log[i] == s.writer.log[i];
    }
  }

  /** The barrier is needed: a byte-carrying frame drained past `last_seq` always leaves a
      row above the `closed` marker. */
  lemma DrainedPastCloseIsAboveClosed(cfg: Config, fate: Fate, s: System, n: nat)
    requires cfg.hardCap <= 0x7FFF_FFFF && Reachable(cfg, fate, s) && s.mode.Closing?
    requires Max(1, s.mode.lastSeq) < n <= s.processed && n <= |s.h.frames| && s.h.frames[n - 1] != []
    ensures !RowsBelow(Next(cfg, fate, s, FinishClose).writer.log, Max(1, s.mode.lastSeq))
  {
    UnaccountedIffLeftBehind(cfg, fate, s, FinishClose);
    var log := Next(cfg, fate, s, FinishClose).writer.log;
    var i := BytesAnswered(log, s.h, s.processed, n);
    AnsweringRowEnds(log, s.h, s.processed, i);
  }
}

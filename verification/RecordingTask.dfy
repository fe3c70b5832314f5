/** The recording writer in the form the source has: a handle whose gap slot and queue
    change in place, and a task that loops over received commands, with the duplicated
    drain loop inside its shutdown arm. */
module RecordingTask {
  import opened Common
  import opened M = RecordingModel
  import opened RecordingLedger
  import W = RecordingWriter
  import S = RecordingSystem

  /** The producer's half: `EnabledHandle` plus the channel it sends into. */
  class RecordingHandle {
    const hardCap: nat
    var pendingGap: Option<PendingGap>
    var queue: seq<Command>
    var receiverOpen: bool

    ghost function State(): Producer
      reads this
    {
      Producer(pendingGap, queue)
    }

    constructor (cap: nat)
      ensures hardCap == cap && receiverOpen && State() == M.Enabled()
    {
      hardCap := cap;
      pendingGap := None;
      receiverOpen := true;
      queue := [Marker(Started, 0, EmptyObject)];
    }

    method TakeGap() returns (gap: Option<PendingGap>)
      modifies this`pendingGap
      ensures gap == old(pendingGap) && pendingGap.None?
    {
      gap := pendingGap;
      pendingGap := None;
    }

    method RestoreGap(gap: PendingGap)
      modifies this`pendingGap
      ensures pendingGap == M.RestoreGap(old(pendingGap), gap)
    {
      if pendingGap.Some? {
        pendingGap := Some(MergeGaps(pendingGap.value, gap));
      } else {
        pendingGap := Some(gap);
      }
    }

    method ExtendGap(seqNo: nat, reason: GapReason)
      modifies this`pendingGap
      ensures pendingGap == M.ExtendGap(old(pendingGap), seqNo, reason)
    {
      if pendingGap.Some? {
        var g := pendingGap.value;
        pendingGap := Some(PendingGap(Min(g.fromSeq, seqNo), Max(g.toSeq, seqNo), g.reason));
      } else {
        pendingGap := Some(PendingGap(seqNo, seqNo, reason));
      }
    }

    method TrySend(cmd: Command, congested: bool) returns (outcome: SendOutcome)
      modifies this`queue
      ensures outcome == M.TrySend(old(queue), receiverOpen, congested)
      ensures queue == if outcome.Sent? then old(queue) + [cmd] else old(queue)
    {
      if !receiverOpen {
        return ChannelClosed;
      }
      if congested || |queue| >= QUEUE_CAPACITY {
        return Full;
      }
      queue := queue + [cmd];
      outcome := Sent;
    }

    /** Tee one frame; never waits. */
    method RecordOutput(seqNo: nat, data: Bytes, congested: bool)
      modifies this`pendingGap, this`queue
      ensures State() == M.RecordOutput(hardCap, old(State()), receiverOpen, congested, seqNo, data)
    {
      if |data| > hardCap {
        ExtendGap(seqNo, FrameOversized);
        return;
      }
      var gapBefore := TakeGap();
      var outcome := TrySend(Output(seqNo, data, gapBefore), congested);
      match outcome
      case Sent =>
      case Full =>
        if gapBefore.Some? {
          RestoreGap(gapBefore.value);
        }
        ExtendGap(seqNo, WriterOverflow);
      case ChannelClosed =>
    }

    method RecordMarker(kind: MarkerKind, seqNo: nat, payload: Payload, congested: bool)
      modifies this`queue
      ensures queue ==
        if receiverOpen && !congested && |old(queue)| < 256
           && seqNo <= 0x7FFF_FFFF_FFFF_FFFF && (seqNo == 0 ==> kind.Started?)
        then old(queue) + [Marker(kind, seqNo, payload)] else old(queue)
      ensures State() == M.RecordMarker(old(State()), receiverOpen, congested, kind, seqNo, payload)
    {
      if seqNo == 0 && !kind.AllowsSeqZero() {
        return;
      }
      if seqNo > I64_MAX {
        return;
      }
      var _ := TrySend(Marker(kind, seqNo, payload), congested);
    }
  }

  // ---------- the writer task as a function of the commands it receives ----------

  function Drain(cfg: Config, fate: Fate, w: Writer, cmds: seq<Command>): Writer
    decreases |cmds|
  {
    if cmds == [] then w else Drain(cfg, fate, HandleDraining(cfg, fate, w, cmds[0]), cmds[1..])
  }

  /** `cmds` is every command the writer ever receives; after a `Shutdown` the rest are drained. */
  function RunTask(cfg: Config, fate: Fate, w: Writer, cmds: seq<Command>): Writer
    decreases |cmds|
  {
    if cmds == [] then CloseOnDrop(fate, w)
    else if cmds[0].Shutdown? then CloseOnShutdown(fate, Drain(cfg, fate, w, cmds[1..]), cmds[0].lastSeq)
    else RunTask(cfg, fate, Handle(cfg, fate, w, cmds[0]), cmds[1..])
  }

  class WriterTask {
    const cfg: Config
    const fate: Fate
    var open: Option<Batch>
    var highest: nat
    var log: seq<Attempt>

    ghost function State(): Writer
      reads this
    {
      Writer(open, highest, log)
    }

    constructor (config: Config, repository: Fate)
      ensures cfg == config && fate == repository && State() == Writer(None, 0, [])
    {
      cfg := config;
      fate := repository;
      open := None;
      highest := 0;
      log := [];
    }

    method Append(row: Row) returns (ok: bool)
      modifies this`log
      ensures log == AppendRow(fate, old(log), row) && ok == fate(|old(log)|)
    {
      ok := fate(|log|);
      log := log + [Attempt(row, ok)];
    }

    method WriteMarker(kind: MarkerKind, seqNo: nat, payload: Payload)
      modifies this`log
      ensures log == AppendRow(fate, old(log), MarkerRow(kind, seqNo, payload))
    {
      var _ := Append(MarkerRow(kind, seqNo, payload));
    }

    method WriteReplayGap(gap: PendingGap)
      modifies this`log
      ensures log == WriteGap(fate, old(log), gap)
    {
      if gap.fromSeq > I64_MAX {
        return;
      }
      if gap.toSeq > I64_MAX {
        return;
      }
      WriteMarker(ReplayGap, Max(gap.toSeq, 1), GapRange(gap));
    }

    /** Flush what `open.take()` yields. */
    method FlushOpen()
      modifies this`log, this`open
      ensures State() == Flush(fate, old(State()))
    {
      var batch := open;
      open := None;
      if batch.None? {
        return;
      }
      var b := batch.value;
      if b.payload == [] {
        return;
      }
      if |b.payload| > I32_MAX {
        return;
      }
      if b.seqStart > I64_MAX {
        return;
      }
      if b.seqEnd > I64_MAX {
        return;
      }
      var ok := Append(ChunkRow(b.seqStart, b.seqEnd, |b.payload|, b.payload));
      if !ok {
        WriteReplayGap(PendingGap(b.seqStart, b.seqEnd, WriterError));
      }
    }

    /** The body of `writer_task`. */
    method Run(cmds: seq<Command>)
      modifies this
      ensures State() == RunTask(cfg, fate, old(State()), cmds)
    {
      var i := 0;
      while i < |cmds|
        invariant 0 <= i <= |cmds|
        invariant RunTask(cfg, fate, old(State()), cmds) == RunTask(cfg, fate, State(), cmds[i..])
      {
        assert cmds[i..][0] == cmds[i] && cmds[i..][1..] == cmds[i + 1..];
        match cmds[i] {
          case Output(seqNo, data, gapBefore) =>
            if gapBefore.Some? {
              FlushOpen();
              WriteReplayGap(gapBefore.value);
            }
            if |data| > cfg.hardCap {
              FlushOpen();
              WriteReplayGap(PendingGap(seqNo, seqNo, FrameOversized));
              highest := Max(highest, seqNo);
              i := i + 1;
              continue;
            }
            if open.Some? {
              if WouldOvershootHardCap(open.value, |data|, cfg.hardCap) {
                FlushOpen();
                open := Some(Batch(seqNo, seqNo, data));
              } else {
                open := Some(Batch(open.value.seqStart, seqNo, open.value.payload + data));
              }
            } else {
              open := Some(Batch(seqNo, seqNo, data));
            }
            if open.Some? && |open.value.payload| >= cfg.target {
              FlushOpen();
            }
            highest := Max(highest, seqNo);
          case Marker(kind, seqNo, payload) =>
            FlushOpen();
            WriteMarker(kind, seqNo, payload);
            highest := Max(highest, seqNo);
          case Shutdown(lastSeq) =>
            DrainQueue(cmds[i + 1..]);
            FlushOpen();
            var closeSeq := if lastSeq >= 1 then lastSeq else 1;
            WriteMarker(Closed, closeSeq, SessionClose);
            return;
        }
        i := i + 1;
      }
      FlushOpen();
      WriteMarker(Closed, Min(Max(highest, 1), I64_MAX), WriterDropped);
    }

    /** The loop inside the shutdown arm. */
    method DrainQueue(cmds: seq<Command>)
      modifies this
      ensures State() == Drain(cfg, fate, old(State()), cmds)
    {
      var i := 0;
      while i < |cmds|
        invariant 0 <= i <= |cmds|
        invariant Drain(cfg, fate, old(State()), cmds) == Drain(cfg, fate, State(), cmds[i..])
      {
        assert cmds[i..][0] == cmds[i] && cmds[i..][1..] == cmds[i + 1..];
        match cmds[i] {
          case Output(seqNo, data, gapBefore) =>
            if gapBefore.Some? {
              FlushOpen();
              WriteReplayGap(gapBefore.value);
            }
            if |data| > cfg.hardCap {
              FlushOpen();
              WriteReplayGap(PendingGap(seqNo, seqNo, FrameOversized));
              highest := Max(highest, seqNo);
              i := i + 1;
              continue;
            }
            if open.Some? {
              if WouldOvershootHardCap(open.value, |data|, cfg.hardCap) {
                FlushOpen();
                open := Some(Batch(seqNo, seqNo, data));
              } else {
                open := Some(Batch(open.value.seqStart, seqNo, open.value.payload + data));
              }
            } else {
              open := Some(Batch(seqNo, seqNo, data));
            }
            if open.Some? && |open.value.payload| >= cfg.target {
              FlushOpen();
            }
            highest := Max(highest, seqNo);
          case Marker(kind, seqNo, payload) =>
            FlushOpen();
            WriteMarker(kind, seqNo, payload);
          case Shutdown(_) =>
        }
        i := i + 1;
      }
    }
  }

  // ---------- the drain loop refines the main loop ----------

  function WithoutShutdowns(cmds: seq<Command>): seq<Command> {
    if cmds == [] then []
    else (if cmds[0].Shutdown? then [] else [cmds[0]]) + WithoutShutdowns(cmds[1..])
  }

  /** Same open batch and rows; `highest_seq_observed` may differ. */
  ghost predicate SameRows(w: Writer, w': Writer) {
    w.open == w'.open && w.log == w'.log
  }

  lemma HandleSameRows(cfg: Config, fate: Fate, w: Writer, w': Writer, c: Command)
    requires SameRows(w, w') && !c.Shutdown?
    ensures SameRows(HandleDraining(cfg, fate, w, c), Handle(cfg, fate, w', c))
  {
    if c.Output? {
      var w1, w1' := Bracket(fate, w, c.gapBefore), Bracket(fate, w', c.gapBefore);
      assert SameRows(w1, w1');
    }
  }

  lemma {:induction false} DrainLikeMainLoop(
    cfg: Config, fate: Fate, w: Writer, w': Writer, cmds: seq<Command>, lastSeq: nat)
    requires SameRows(w, w')
    ensures SameRows(CloseOnShutdown(fate, Drain(cfg, fate, w, cmds), lastSeq),
                     RunTask(cfg, fate, w', WithoutShutdowns(cmds) + [Shutdown(lastSeq)]))
    decreases |cmds|
  {
    var stop := [Shutdown(lastSeq)];
    if cmds == [] {
      assert WithoutShutdowns(cmds) + stop == stop;
      assert stop[1..] == [];
    } else if cmds[0].Shutdown? {
      assert WithoutShutdowns(cmds) == WithoutShutdowns(cmds[1..]);
      DrainLikeMainLoop(cfg, fate, w, w', cmds[1..], lastSeq);
    } else {
      HandleSameRows(cfg, fate, w, w', cmds[0]);
      var rest := WithoutShutdowns(cmds[1..]) + stop;
      assert WithoutShutdowns(cmds) + stop == [cmds[0]] + rest;
      assert ([cmds[0]] + rest)[1..] == rest;
      var w1, w1' := HandleDraining(cfg, fate, w, cmds[0]), Handle(cfg, fate, w', cmds[0]);
      DrainLikeMainLoop(cfg, fate, w1, w1', cmds[1..], lastSeq);
    }
  }

  /** Commands queued behind `Shutdown` produce the rows they would have produced had the
      main loop taken them first and shut down afterwards. */
  lemma DrainRefinesMainLoop(cfg: Config, fate: Fate, w: Writer, cmds: seq<Command>, lastSeq: nat)
    ensures RunTask(cfg, fate, w, [Shutdown(lastSeq)] + cmds).log
         == RunTask(cfg, fate, w, WithoutShutdowns(cmds) + [Shutdown(lastSeq)]).log
  {
    assert ([Shutdown(lastSeq)] + cmds)[1..] == cmds;
    DrainLikeMainLoop(cfg, fate, w, w, cmds, lastSeq);
  }

  // ---------- the writer keeps the ledger ----------

  ghost predicate NoForgedGaps(cmds: seq<Command>) {
    forall i | 0 <= i < |cmds| :: cmds[i].Marker? ==> !cmds[i].payload.GapRange?
  }

  lemma {:induction false} DrainKeeps(cfg: Config, fate: Fate, w: Writer, h: History, cmds: seq<Command>, m: nat)
    requires h.Valid() && m <= |h.verdicts| && W.Fits(cfg, h) && W.Keeps(cfg, w, h, m)
    requires S.Chain(cfg.hardCap, h, cmds, m) && NoForgedGaps(cmds)
    ensures W.Keeps(cfg, Drain(cfg, fate, w, cmds), h, S.LastKept(h.verdicts))
    decreases |cmds|
  {
    if cmds != [] {
      assert NoForgedGaps(cmds[1..]) by {
        assert forall i | 0 <= i < |cmds[1..]| :: cmds[1..][i] == cmds[i + 1];
      }
      var w1 := HandleDraining(cfg, fate, w, cmds[0]);
      match cmds[0]
      case Output(s, data, g) =>
        W.OutputKeeps(cfg, fate, w, h, m, s, g);
        DrainKeeps(cfg, fate, w1, h, cmds[1..], s);
      case Marker(kind, s, payload) =>
        W.MarkerKeeps(cfg, fate, w, h, m, kind, s, payload);
        DrainKeeps(cfg, fate, w1, h, cmds[1..], m);
      case Shutdown(_) => DrainKeeps(cfg, fate, w1, h, cmds[1..], m);
    }
  }

  /** Fed the producer's command stream, the finished log accounts for every frame
      up to the last queued one, wherever the shutdown falls. */
  lemma {:induction false} TaskAccounts(cfg: Config, fate: Fate, w: Writer, h: History, cmds: seq<Command>, m: nat)
    requires h.Valid() && m <= |h.verdicts| && W.Fits(cfg, h) && W.Keeps(cfg, w, h, m)
    requires S.Chain(cfg.hardCap, h, cmds, m) && NoForgedGaps(cmds)
    ensures Accounted(RunTask(cfg, fate, w, cmds).log, h, S.LastKept(h.verdicts))
    decreases |cmds|
  {
    if cmds == [] {
      W.CloseKeeps(cfg, fate, w, h, m, Min(Max(w.highest, 1), I64_MAX), WriterDropped);
    } else {
      assert NoForgedGaps(cmds[1..]) by {
        assert forall i | 0 <= i < |cmds[1..]| :: cmds[1..][i] == cmds[i + 1];
      }
      match cmds[0]
      case Output(s, data, g) =>
        W.OutputKeeps(cfg, fate, w, h, m, s, g);
        TaskAccounts(cfg, fate, Handle(cfg, fate, w, cmds[0]), h, cmds[1..], s);
      case Marker(kind, s, payload) =>
        W.MarkerKeeps(cfg, fate, w, h, m, kind, s, payload);
        TaskAccounts(cfg, fate, Handle(cfg, fate, w, cmds[0]), h, cmds[1..], m);
      case Shutdown(lastSeq) =>
        DrainKeeps(cfg, fate, w, h, cmds[1..], m);
        W.CloseKeeps(cfg, fate, Drain(cfg, fate, w, cmds[1..]), h, S.LastKept(h.verdicts),
                     if lastSeq >= 1 then lastSeq else 1, SessionClose);
    }
  }
}

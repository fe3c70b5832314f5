/** The recording writer's data and its two halves as functions on values: the
    producer side (`record_output` and its gap tracker) and the writer task's
    handling of one command. The imperative forms in RecordingTask.dfy are
    proved equal to these functions. */
module RecordingModel {
  import opened Common

  datatype GapReason = WriterOverflow | WriterError | FrameOversized

  /** An inclusive range of output sequence numbers dropped from the recording. */
  datatype PendingGap = PendingGap(fromSeq: nat, toSeq: nat, reason: GapReason)

  datatype MarkerKind = Started | Attached | Detached | Reattached | Resized | Closed | ReplayGap {
    predicate AllowsSeqZero() {
      Started?
    }
  }

  datatype Payload =
    | EmptyObject
    | Dimensions(cols: nat, rows: nat)
    | GapRange(gap: PendingGap)
    | SessionClose
    | WriterDropped

  datatype Command =
    | Output(seqNo: nat, data: Bytes, gapBefore: Option<PendingGap>)
    | Marker(kind: MarkerKind, seqNo: nat, payload: Payload)
    | Shutdown(lastSeq: nat)

  datatype Row =
    | ChunkRow(seqStart: nat, seqEnd: nat, byteLen: nat, bytes: Bytes)
    | MarkerRow(kind: MarkerKind, seqNo: nat, payload: Payload)
  {
    /** The seq a reader pages this row by: a chunk's last frame, a marker's own seq. */
    function LastSeq(): nat {
      if ChunkRow? then seqEnd else seqNo
    }
  }

  /** One repository write and whether it landed; the durable log is the sequence of landed rows. */
  datatype Attempt = Attempt(row: Row, ok: bool)

  datatype Batch = Batch(seqStart: nat, seqEnd: nat, payload: Bytes)

  datatype Config = Config(target: nat, hardCap: nat)

  /** The writer task's locals plus every repository write it has attempted. */
  datatype Writer = Writer(open: Option<Batch>, highest: nat, log: seq<Attempt>)

  /** The handle's gap slot and the bounded command queue. */
  datatype Producer = Producer(pendingGap: Option<PendingGap>, queue: seq<Command>)

  const QUEUE_CAPACITY: nat := 256

  // ---------- repository writes ----------

  function AppendRow(fate: Fate, log: seq<Attempt>, row: Row): seq<Attempt> {
    log + [Attempt(row, fate(|log|))]
  }

  function GapRow(gap: PendingGap): Row {
    MarkerRow(ReplayGap, Max(gap.toSeq, 1), GapRange(gap))
  }

  /** `write_replay_gap`: a range outside `i64` is abandoned without a row. */
  function WriteGap(fate: Fate, log: seq<Attempt>, gap: PendingGap): seq<Attempt> {
    if gap.fromSeq > I64_MAX || gap.toSeq > I64_MAX then log
    else AppendRow(fate, log, GapRow(gap))
  }

  function ChunkOf(b: Batch): Row {
    ChunkRow(b.seqStart, b.seqEnd, |b.payload|, b.payload)
  }

  /** `flush_chunk`: a failed chunk write is bracketed by a `writer_error` gap. */
  function FlushLog(fate: Fate, log: seq<Attempt>, batch: Option<Batch>): seq<Attempt> {
    if batch.None? || |batch.value.payload| == 0 then log
    else if |batch.value.payload| > I32_MAX || batch.value.seqStart > I64_MAX || batch.value.seqEnd > I64_MAX then log
    else
      var b := batch.value;
      var log1 := AppendRow(fate, log, ChunkOf(b));
      if fate(|log|) then log1
      else WriteGap(fate, log1, PendingGap(b.seqStart, b.seqEnd, WriterError))
  }

  function Flush(fate: Fate, w: Writer): Writer {
    w.(open := None, log := FlushLog(fate, w.log, w.open))
  }

  // ---------- one writer command ----------

  predicate WouldOvershootHardCap(b: Batch, frameLen: nat, hardCap: nat) {
    SatAdd(|b.payload|, frameLen) > hardCap
  }

  /** Add a frame to the open batch, flushing first when it would pass the hard cap. */
  function Accumulate(cfg: Config, fate: Fate, w: Writer, seqNo: nat, data: Bytes): Writer {
    if w.open.None? then w.(open := Some(Batch(seqNo, seqNo, data)))
    else if WouldOvershootHardCap(w.open.value, |data|, cfg.hardCap) then
      Flush(fate, w).(open := Some(Batch(seqNo, seqNo, data)))
    else
      w.(open := Some(w.open.value.(seqEnd := seqNo, payload := w.open.value.payload + data)))
  }

  function FlushAtTarget(cfg: Config, fate: Fate, w: Writer): Writer {
    if w.open.Some? && |w.open.value.payload| >= cfg.target then Flush(fate, w) else w
  }

  function Bracket(fate: Fate, w: Writer, gapBefore: Option<PendingGap>): Writer {
    if gapBefore.None? then w
    else
      var flushed := Flush(fate, w);
      flushed.(log := WriteGap(fate, flushed.log, gapBefore.value))
  }

  function HandleOutput(cfg: Config, fate: Fate, w: Writer, seqNo: nat, data: Bytes, gapBefore: Option<PendingGap>)
    : Writer
  {
    var w1 := Bracket(fate, w, gapBefore);
    var w2 :=
      if |data| > cfg.hardCap then Bracket(fate, w1, Some(PendingGap(seqNo, seqNo, FrameOversized)))
      else FlushAtTarget(cfg, fate, Accumulate(cfg, fate, w1, seqNo, data));
    w2.(highest := Max(w2.highest, seqNo))
  }

  function HandleMarker(fate: Fate, w: Writer, kind: MarkerKind, seqNo: nat, payload: Payload): Writer {
    var flushed := Flush(fate, w);
    flushed.(log := AppendRow(fate, flushed.log, MarkerRow(kind, seqNo, payload)), highest := Max(w.highest, seqNo))
  }

  /** The main loop's treatment of one non-shutdown command. */
  function Handle(cfg: Config, fate: Fate, w: Writer, c: Command): Writer
    requires !c.Shutdown?
  {
    match c
    case Output(s, data, gap) => HandleOutput(cfg, fate, w, s, data, gap)
    case Marker(kind, s, payload) => HandleMarker(fate, w, kind, s, payload)
  }

  /** The drain loop's treatment of one command: markers leave `highest_seq_observed`
      alone and a second `Shutdown` is only acknowledged. */
  function HandleDraining(cfg: Config, fate: Fate, w: Writer, c: Command): Writer {
    match c
    case Output(s, data, gap) => HandleOutput(cfg, fate, w, s, data, gap)
    case Marker(kind, s, payload) => HandleMarker(fate, w, kind, s, payload).(highest := w.highest)
    case Shutdown(_) => w
  }

  function CloseWith(fate: Fate, w: Writer, closeSeq: nat, payload: Payload): Writer {
    var flushed := Flush(fate, w);
    flushed.(log := AppendRow(fate, flushed.log, MarkerRow(Closed, closeSeq, payload)))
  }

  /** End of the shutdown path. */
  function CloseOnShutdown(fate: Fate, w: Writer, lastSeq: nat): Writer {
    CloseWith(fate, w, if lastSeq >= 1 then lastSeq else 1, SessionClose)
  }

  /** End of the path taken when every sender was dropped. */
  function CloseOnDrop(fate: Fate, w: Writer): Writer {
    CloseWith(fate, w, Min(Max(w.highest, 1), I64_MAX), WriterDropped)
  }

  // ---------- the gap tracker ----------

  function MergeGaps(a: PendingGap, b: PendingGap): PendingGap {
    PendingGap(Min(a.fromSeq, b.fromSeq), Max(a.toSeq, b.toSeq), a.reason)
  }

  function RestoreGap(slot: Option<PendingGap>, gap: PendingGap): Option<PendingGap> {
    Some(if slot.Some? then MergeGaps(slot.value, gap) else gap)
  }

  function ExtendGap(slot: Option<PendingGap>, seqNo: nat, reason: GapReason): Option<PendingGap> {
    Some(
      if slot.Some? then PendingGap(Min(slot.value.fromSeq, seqNo), Max(slot.value.toSeq, seqNo), slot.value.reason)
      else PendingGap(seqNo, seqNo, reason))
  }

  // ---------- the producer ----------

  datatype SendOutcome = Sent | Full | ChannelClosed

  /** `try_send`. `congested` lets the channel report `Full` below capacity, as it
      does while a waiting sender holds the last permit. */
  function TrySend(queue: seq<Command>, receiverOpen: bool, congested: bool): SendOutcome {
    if !receiverOpen then ChannelClosed
    else if congested || |queue| >= QUEUE_CAPACITY then Full
    else Sent
  }

  /** `record_output`. */
  function RecordOutput(hardCap: nat, p: Producer, receiverOpen: bool, congested: bool, seqNo: nat, data: Bytes)
    : Producer
  {
    if |data| > hardCap then p.(pendingGap := ExtendGap(p.pendingGap, seqNo, FrameOversized))
    else
      match TrySend(p.queue, receiverOpen, congested)
      case Sent => Producer(None, p.queue + [Output(seqNo, data, p.pendingGap)])
      case Full =>
        var restored := if p.pendingGap.Some? then RestoreGap(None, p.pendingGap.value) else None;
        p.(pendingGap := ExtendGap(restored, seqNo, WriterOverflow))
      case ChannelClosed => p.(pendingGap := None)
  }

  /** `record_marker`. */
  function RecordMarker(
    p: Producer, receiverOpen: bool, congested: bool, kind: MarkerKind, seqNo: nat, payload: Payload)
    : Producer
  {
    if (seqNo == 0 && !kind.AllowsSeqZero()) || seqNo > I64_MAX then p
    else if TrySend(p.queue, receiverOpen, congested).Sent? then p.(queue := p.queue + [Marker(kind, seqNo, payload)])
    else p
  }

  /** `RecordingWriter::enabled`: the `started` marker is queued before any frame. */
  function Enabled(): Producer {
    Producer(None, [Marker(Started, 0, EmptyObject)])
  }
}

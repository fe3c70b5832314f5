/** The writer task keeps the account: what every command it handles preserves. */
module RecordingWriter {
  import opened Common
  import opened RecordingModel
  import opened RecordingLedger

  /** Row sizes fit the `i32`/`i64` columns, so no flush is abandoned half-way. */
  ghost predicate Fits(cfg: Config, h: History) {
    cfg.hardCap <= I32_MAX && |h.frames| <= I64_MAX
  }

  /** The batch holds exactly the kept frames from its start to seq `m`. */
  ghost predicate OpenSpan(b: Batch, h: History, m: nat)
    requires h.Valid() && m <= |h.verdicts|
  {
    && 1 <= b.seqStart <= b.seqEnd == m
    && AllKept(h, b.seqStart, m)
    && b.payload == Span(h.frames, b.seqStart, m)
  }

  ghost predicate OpenBatch(cfg: Config, b: Batch, h: History, m: nat)
    requires h.Valid() && m <= |h.verdicts|
  {
    OpenSpan(b, h, m) && |b.payload| <= cfg.hardCap
  }

  /** All frames up to seq `m` are accounted for or sit in the open batch. */
  ghost predicate Keeps(cfg: Config, w: Writer, h: History, m: nat)
    requires h.Valid() && m <= |h.verdicts|
  {
    match w.open
    case None => Accounted(w.log, h, m)
    case Some(b) => OpenBatch(cfg, b, h, m) && Accounted(w.log, h, b.seqStart - 1)
  }

  /** `g` is the gap between consecutive kept frames `prev` and `s`. */
  ghost predicate GapMatches(h: History, prev: nat, s: nat, g: Option<PendingGap>)
    requires prev < s <= |h.verdicts| + 1
  {
    if s == prev + 1 then g.None?
    else
      && g.Some?
      && g.value.fromSeq == prev + 1
      && g.value.toSeq == s - 1
      && !g.value.reason.WriterError?
      && DroppedFor(h, prev + 1, s - 1, g.value.reason)
  }

  lemma AccountedSnoc(log: seq<Attempt>, a: Attempt, h: History, upTo: nat)
    requires h.Valid() && upTo <= |h.verdicts|
    requires
      match Answers(a)
      case None => Accounted(log, h, upTo)
      case Some(r) => 1 <= r.first <= r.last == upTo && Honest(h, a.row, r) && Accounted(log, h, r.first - 1)
    ensures Accounted(log + [a], h, upTo)
  {
    assert (log + [a])[..|log|] == log;
  }

  /** A nonempty batch, written or bracketed, answers for its frames. */
  lemma FlushBatchKeeps(cfg: Config, fate: Fate, log: seq<Attempt>, b: Batch, h: History, m: nat)
    requires h.Valid() && m <= |h.verdicts| && Fits(cfg, h) && OpenBatch(cfg, b, h, m) && b.payload != []
    requires Accounted(log, h, b.seqStart - 1)
    ensures Accounted(FlushLog(fate, log, Some(b)), h, m)
  {
    var chunk := Attempt(ChunkOf(b), fate(|log|));
    if chunk.ok {
      AccountedSnoc(log, chunk, h, m);
    } else {
      AccountedSnoc(log, chunk, h, b.seqStart - 1);
      var gap := PendingGap(b.seqStart, m, WriterError);
      AccountedSnoc(log + [chunk], Attempt(GapRow(gap), fate(|log| + 1)), h, m);
    }
  }

  lemma FlushKeeps(cfg: Config, fate: Fate, w: Writer, h: History, m: nat)
    requires h.Valid() && m <= |h.verdicts| && Fits(cfg, h) && Keeps(cfg, w, h, m)
    ensures Accounted(Flush(fate, w).log, h, m)
  {
    if w.open.Some? {
      var b := w.open.value;
      if b.payload == [] {
        SpanEmpty(h.frames, b.seqStart, m);
        AccountedSilence(w.log, h, b.seqStart - 1, m);
      } else {
        FlushBatchKeeps(cfg, fate, w.log, b, h, m);
      }
    }
  }

  lemma BracketKeeps(cfg: Config, fate: Fate, w: Writer, h: History, m: nat, s: nat, g: Option<PendingGap>)
    requires h.Valid() && m < s <= |h.verdicts| && Fits(cfg, h) && Keeps(cfg, w, h, m)
    requires GapMatches(h, m, s, g)
    ensures Keeps(cfg, Bracket(fate, w, g), h, s - 1)
  {
    if g.Some? {
      FlushKeeps(cfg, fate, w, h, m);
      var log := Flush(fate, w).log;
      AccountedSnoc(log, Attempt(GapRow(g.value), fate(|log|)), h, s - 1);
    }
  }

  lemma SingleFrameSpan(h: History, s: nat)
    requires h.Valid() && 1 <= s <= |h.verdicts| && h.verdicts[s - 1].Kept?
    ensures OpenSpan(Batch(s, s, h.frames[s - 1]), h, s)
  {
    assert Span(h.frames, s, s - 1) == [];
  }

  lemma OpenSpanGrows(b: Batch, h: History, s: nat)
    requires h.Valid() && 1 <= s <= |h.verdicts| && OpenSpan(b, h, s - 1) && h.verdicts[s - 1].Kept?
    ensures OpenSpan(Batch(b.seqStart, s, b.payload + h.frames[s - 1]), h, s)
  {
  }

  lemma AccumulateKeeps(cfg: Config, fate: Fate, w: Writer, h: History, s: nat)
    requires h.Valid() && 1 <= s <= |h.verdicts| && Fits(cfg, h) && Keeps(cfg, w, h, s - 1)
    requires h.verdicts[s - 1].Kept? && |h.frames[s - 1]| <= cfg.hardCap
    ensures Keeps(cfg, Accumulate(cfg, fate, w, s, h.frames[s - 1]), h, s)
    ensures Accumulate(cfg, fate, w, s, h.frames[s - 1]).open.Some?
  {
    SingleFrameSpan(h, s);
    if w.open.Some? {
      if WouldOvershootHardCap(w.open.value, |h.frames[s - 1]|, cfg.hardCap) {
        FlushKeeps(cfg, fate, w, h, s - 1);
      } else {
        OpenSpanGrows(w.open.value, h, s);
      }
    }
  }

  /** Handling the next kept frame, with its gap, extends the account to that frame. */
  lemma OutputKeeps(cfg: Config, fate: Fate, w: Writer, h: History, m: nat, s: nat, g: Option<PendingGap>)
    requires h.Valid() && m < s <= |h.verdicts| && Fits(cfg, h) && Keeps(cfg, w, h, m)
    requires h.verdicts[s - 1].Kept? && |h.frames[s - 1]| <= cfg.hardCap && GapMatches(h, m, s, g)
    ensures Keeps(cfg, HandleOutput(cfg, fate, w, s, h.frames[s - 1], g), h, s)
  {
    BracketKeeps(cfg, fate, w, h, m, s, g);
    var w1 := Bracket(fate, w, g);
    AccumulateKeeps(cfg, fate, w1, h, s);
    var w2 := Accumulate(cfg, fate, w1, s, h.frames[s - 1]);
    FlushKeeps(cfg, fate, w2, h, s);
  }

  lemma MarkerRowKeeps(fate: Fate, log: seq<Attempt>, h: History, m: nat, kind: MarkerKind, s: nat, payload: Payload)
    requires h.Valid() && m <= |h.verdicts| && Accounted(log, h, m) && !payload.GapRange?
    ensures Accounted(AppendRow(fate, log, MarkerRow(kind, s, payload)), h, m)
  {
    AccountedSnoc(log, Attempt(MarkerRow(kind, s, payload), fate(|log|)), h, m);
  }

  lemma MarkerKeeps(cfg: Config, fate: Fate, w: Writer, h: History, m: nat, kind: MarkerKind, s: nat, payload: Payload)
    requires h.Valid() && m <= |h.verdicts| && Fits(cfg, h) && Keeps(cfg, w, h, m) && !payload.GapRange?
    ensures Keeps(cfg, HandleMarker(fate, w, kind, s, payload), h, m)
  {
    FlushKeeps(cfg, fate, w, h, m);
    MarkerRowKeeps(fate, Flush(fate, w).log, h, m, kind, s, payload);
  }

  lemma CloseKeeps(cfg: Config, fate: Fate, w: Writer, h: History, m: nat, closeSeq: nat, payload: Payload)
    requires h.Valid() && m <= |h.verdicts| && Fits(cfg, h) && Keeps(cfg, w, h, m) && !payload.GapRange?
    ensures Accounted(CloseWith(fate, w, closeSeq, payload).log, h, m)
  {
    FlushKeeps(cfg, fate, w, h, m);
    MarkerRowKeeps(fate, Flush(fate, w).log, h, m, Closed, closeSeq, payload);
  }

  lemma KeepsExtends(cfg: Config, w: Writer, h: History, h': History, m: nat)
    requires h.Valid() && h'.Valid() && Extends(h, h') && m <= |h.verdicts| && Keeps(cfg, w, h, m)
    ensures Keeps(cfg, w, h', m)
  {
    match w.open
    case None => AccountedExtends(w.log, h, h', m);
    case Some(b) =>
      SpanExtends(h.frames, h'.frames, b.seqStart, m);
      AccountedExtends(w.log, h, h', b.seqStart - 1);
  }

  // ---------- the truth of the rows, for any cap ----------

  /** If the attempt answers for a range, the range exists and the row is honest about it. */
  ghost predicate HonestAttempt(h: History, a: Attempt)
    requires h.Valid()
  {
    Answers(a).Some? ==>
      var r := Answers(a).value;
      1 <= r.first <= r.last <= |h.verdicts| && Honest(h, a.row, r)
  }

  /** Every answering row is honest, and the open batch is what it says; nothing about coverage. */
  ghost predicate Truthful(w: Writer, h: History, m: nat)
    requires h.Valid() && m <= |h.verdicts|
  {
    && (forall i | 0 <= i < |w.log| :: HonestAttempt(h, w.log[i]))
    && (w.open.Some? ==> OpenSpan(w.open.value, h, m))
  }

  lemma TruthfulSnoc(log: seq<Attempt>, a: Attempt, h: History)
    requires h.Valid() && (forall i | 0 <= i < |log| :: HonestAttempt(h, log[i])) && HonestAttempt(h, a)
    ensures forall i | 0 <= i < |log + [a]| :: HonestAttempt(h, (log + [a])[i])
  {
  }

  lemma FlushTruthful(fate: Fate, w: Writer, h: History, m: nat)
    requires h.Valid() && m <= |h.verdicts| && Truthful(w, h, m)
    ensures Truthful(Flush(fate, w), h, m)
  {
    if FlushLog(fate, w.log, w.open) != w.log {
      var b := w.open.value;
      var chunk := Attempt(ChunkOf(b), fate(|w.log|));
      TruthfulSnoc(w.log, chunk, h);
      if !chunk.ok {
        var gap := PendingGap(b.seqStart, b.seqEnd, WriterError);
        TruthfulSnoc(w.log + [chunk], Attempt(GapRow(gap), fate(|w.log| + 1)), h);
      }
    }
  }

  lemma BracketTruthful(fate: Fate, w: Writer, h: History, m: nat, s: nat, g: Option<PendingGap>)
    requires h.Valid() && m < s <= |h.verdicts| && Truthful(w, h, m) && GapMatches(h, m, s, g)
    ensures Truthful(Bracket(fate, w, g), h, s - 1)
  {
    if g.Some? {
      FlushTruthful(fate, w, h, m);
      var log := Flush(fate, w).log;
      TruthfulSnoc(log, Attempt(GapRow(g.value), fate(|log|)), h);
    }
  }

  lemma AccumulateTruthful(cfg: Config, fate: Fate, w: Writer, h: History, s: nat)
    requires h.Valid() && 1 <= s <= |h.verdicts| && Truthful(w, h, s - 1) && h.verdicts[s - 1].Kept?
    ensures Truthful(Accumulate(cfg, fate, w, s, h.frames[s - 1]), h, s)
  {
    SingleFrameSpan(h, s);
    FlushTruthful(fate, w, h, s - 1);
    if w.open.Some? {
      OpenSpanGrows(w.open.value, h, s);
    }
  }

  /** Handling the next kept frame keeps every row honest, whatever the target and the cap. */
  lemma OutputTruthful(cfg: Config, fate: Fate, w: Writer, h: History, m: nat, s: nat, g: Option<PendingGap>)
    requires h.Valid() && m < s <= |h.verdicts| && Truthful(w, h, m) && GapMatches(h, m, s, g)
    requires h.verdicts[s - 1].Kept? && |h.frames[s - 1]| <= cfg.hardCap
    ensures Truthful(HandleOutput(cfg, fate, w, s, h.frames[s - 1], g), h, s)
  {
    BracketTruthful(fate, w, h, m, s, g);
    var w1 := Bracket(fate, w, g);
    AccumulateTruthful(cfg, fate, w1, h, s);
    FlushTruthful(fate, Accumulate(cfg, fate, w1, s, h.frames[s - 1]), h, s);
  }

  lemma PlainRowTruthful(fate: Fate, w: Writer, h: History, m: nat, row: Row)
    requires h.Valid() && m <= |h.verdicts| && Truthful(w, h, m) && row.MarkerRow? && !row.payload.GapRange?
    ensures var flushed := Flush(fate, w);
      Truthful(flushed.(log := AppendRow(fate, flushed.log, row)), h, m)
  {
    FlushTruthful(fate, w, h, m);
    var log := Flush(fate, w).log;
    TruthfulSnoc(log, Attempt(row, fate(|log|)), h);
  }

  lemma TruthfulExtends(w: Writer, h: History, h': History, m: nat)
    requires h.Valid() && h'.Valid() && Extends(h, h') && m <= |h.verdicts| && Truthful(w, h, m)
    ensures Truthful(w, h', m)
  {
    forall i | 0 <= i < |w.log| ensures HonestAttempt(h', w.log[i]) {
      assert HonestAttempt(h, w.log[i]);
      if Answers(w.log[i]).Some? {
        var r := Answers(w.log[i]).value;
        SpanExtends(h.frames, h'.frames, r.first, r.last);
      }
    }
    if w.open.Some? {
      SpanExtends(h.frames, h'.frames, w.open.value.seqStart, m);
    }
  }

  // ---------- the shape of the rows ----------

  function Pred(n: nat): nat {
    if n == 0 then 0 else n - 1
  }

  /** A chunk is nonempty, within the hard cap, and short of the target but for its last frame. */
  ghost predicate Sized(cfg: Config, h: History, r: Row) {
    r.ChunkRow? ==>
      && 1 <= r.seqStart <= r.seqEnd <= |h.frames|
      && 0 < |r.bytes| == r.byteLen
      && |r.bytes| <= cfg.hardCap
      && |r.bytes| <= Pred(cfg.target) + |h.frames[r.seqEnd - 1]|
  }

  /** Only a `started` marker sits at seq 0. */
  ghost predicate SeqZeroIsStarted(r: Row) {
    r.LastSeq() == 0 ==> r.MarkerRow? && r.kind.Started?
  }

  /** Everything true of each attempted row; `top` bounds the seqs. */
  ghost predicate Shaped(cfg: Config, h: History, log: seq<Attempt>, top: nat) {
    forall i | 0 <= i < |log| ::
      Sized(cfg, h, log[i].row) && SeqZeroIsStarted(log[i].row) && log[i].row.LastSeq() <= top
  }

  /** A failed chunk write is followed at once by the `writer_error` gap over its range. */
  ghost predicate FailuresBracketed(log: seq<Attempt>) {
    forall i | 0 <= i < |log| && log[i].row.ChunkRow? && !log[i].ok ::
      && i + 1 < |log|
      && log[i + 1].row == GapRow(PendingGap(log[i].row.seqStart, log[i].row.seqEnd, WriterError))
  }

  /** The batch left open is short of the target before and, between commands, after its last frame. */
  ghost predicate BatchShaped(cfg: Config, h: History, b: Batch, top: nat) {
    && 1 <= b.seqStart <= b.seqEnd <= |h.frames|
    && b.seqEnd <= top
    && |b.payload| <= cfg.hardCap
    && |b.payload| <= Pred(cfg.target) + |h.frames[b.seqEnd - 1]|
  }

  ghost predicate WriterShaped(cfg: Config, h: History, w: Writer, top: nat) {
    && Shaped(cfg, h, w.log, top)
    && FailuresBracketed(w.log)
    && (w.open.Some? ==> BatchShaped(cfg, h, w.open.value, top))
  }

  lemma ShapedSnoc(cfg: Config, fate: Fate, h: History, log: seq<Attempt>, row: Row, top: nat)
    requires Shaped(cfg, h, log, top) && FailuresBracketed(log)
    requires Sized(cfg, h, row) && SeqZeroIsStarted(row) && row.LastSeq() <= top
    ensures Shaped(cfg, h, AppendRow(fate, log, row), top)
    ensures !(row.ChunkRow? && !fate(|log|)) ==> FailuresBracketed(AppendRow(fate, log, row))
  {
    var log' := AppendRow(fate, log, row);
    assert forall i | 0 <= i < |log| :: log'[i] == log[i];
  }

  lemma FlushShaped(cfg: Config, fate: Fate, h: History, w: Writer, top: nat)
    requires WriterShaped(cfg, h, w, top)
    ensures WriterShaped(cfg, h, Flush(fate, w), top)
  {
    if w.open.Some? && FlushLog(fate, w.log, w.open) != w.log {
      var b := w.open.value;
      ShapedSnoc(cfg, fate, h, w.log, ChunkOf(b), top);
      if !fate(|w.log|) {
        var log1 := AppendRow(fate, w.log, ChunkOf(b));
        var row := GapRow(PendingGap(b.seqStart, b.seqEnd, WriterError));
        var log2 := AppendRow(fate, log1, row);
        assert forall i | 0 <= i < |w.log| :: log2[i] == w.log[i] == log1[i];
        assert log2[|w.log|] == log1[|w.log|] && log2[|w.log| + 1].row == row;
      }
    }
  }

  lemma BracketShaped(cfg: Config, fate: Fate, h: History, w: Writer, g: Option<PendingGap>, top: nat)
    requires WriterShaped(cfg, h, w, top)
    requires g.Some? ==> 1 <= g.value.toSeq <= top
    ensures WriterShaped(cfg, h, Bracket(fate, w, g), top)
  {
    if g.Some? {
      FlushShaped(cfg, fate, h, w, top);
      ShapedSnoc(cfg, fate, h, Flush(fate, w).log, GapRow(g.value), top);
    }
  }

  /** Handling a frame keeps every size bound, and leaves less than a target's worth open. */
  lemma OutputShaped(cfg: Config, fate: Fate, h: History, w: Writer, s: nat, g: Option<PendingGap>, top: nat)
    requires WriterShaped(cfg, h, w, top) && 1 <= s <= |h.frames| && s <= top
    requires cfg.hardCap < USIZE_MAX && |h.frames[s - 1]| <= cfg.hardCap
    requires g.Some? ==> 1 <= g.value.toSeq <= top
    requires w.open.Some? ==> |w.open.value.payload| < cfg.target && w.open.value.seqEnd < s
    ensures var w' := HandleOutput(cfg, fate, w, s, h.frames[s - 1], g);
      && WriterShaped(cfg, h, w', top)
      && (w'.open.Some? ==> |w'.open.value.payload| < cfg.target)
  {
    var data := h.frames[s - 1];
    BracketShaped(cfg, fate, h, w, g, top);
    var w1 := Bracket(fate, w, g);
    FlushShaped(cfg, fate, h, w1, top);
    var w2 := Accumulate(cfg, fate, w1, s, data);
    assert WriterShaped(cfg, h, w2, top);
    FlushShaped(cfg, fate, h, w2, top);
  }

  lemma MarkerShaped(cfg: Config, fate: Fate, h: History, w: Writer, row: Row, top: nat)
    requires WriterShaped(cfg, h, w, top) && row.MarkerRow? && row.LastSeq() <= top && SeqZeroIsStarted(row)
    ensures var log := Flush(fate, w).log;
      WriterShaped(cfg, h, Flush(fate, w).(log := AppendRow(fate, log, row)), top)
  {
    FlushShaped(cfg, fate, h, w, top);
    ShapedSnoc(cfg, fate, h, Flush(fate, w).log, row, top);
  }

  lemma ShapedExtends(cfg: Config, h: History, h': History, w: Writer, top: nat, top': nat)
    requires Extends(h, h') && top <= top' && WriterShaped(cfg, h, w, top)
    ensures WriterShaped(cfg, h', w, top')
  {
    forall i | 0 <= i < |w.log| ensures Sized(cfg, h', w.log[i].row) {
      assert Sized(cfg, h, w.log[i].row);
    }
  }

  // ---------- batching: no chunk is cut short ----------

  /** The chunk reached the target, or the frame after its last would have passed the cap. */
  ghost predicate Full(cfg: Config, h: History, r: Row)
    requires r.ChunkRow?
  {
    |r.bytes| >= cfg.target || (r.seqEnd < |h.frames| && |r.bytes| + |h.frames[r.seqEnd]| > cfg.hardCap)
  }

  /** Landed chunk `i` is not cut off by a marker row right after it. */
  ghost predicate RunsOn(log: seq<Attempt>, i: nat)
    requires i < |log|
  {
    && log[i].row.ChunkRow? && log[i].ok
    && (i + 1 == |log| || log[i + 1].row.ChunkRow?)
  }

  ghost predicate Batched(cfg: Config, h: History, log: seq<Attempt>) {
    forall i | 0 <= i < |log| && RunsOn(log, i) :: Full(cfg, h, log[i].row)
  }

  /** The same but for a chunk in last position. */
  ghost predicate BatchedInit(cfg: Config, h: History, log: seq<Attempt>) {
    forall i | 0 <= i < |log| - 1 && RunsOn(log, i) :: Full(cfg, h, log[i].row)
  }

  lemma BatchedSnoc(cfg: Config, h: History, log: seq<Attempt>, a: Attempt)
    requires if a.row.ChunkRow? then Batched(cfg, h, log) else BatchedInit(cfg, h, log)
    ensures BatchedInit(cfg, h, log + [a])
    ensures (a.row.ChunkRow? && a.ok ==> Full(cfg, h, a.row)) ==> Batched(cfg, h, log + [a])
  {
    var all := log + [a];
    forall i | 0 <= i < |all| - 1 && RunsOn(all, i) ensures Full(cfg, h, all[i].row) {
      assert all[i] == log[i] && RunsOn(log, i);
    }
  }

  lemma FlushBatched(cfg: Config, fate: Fate, h: History, w: Writer)
    requires Batched(cfg, h, w.log)
    requires w.open.Some? ==> w.open.value.seqStart <= I64_MAX && w.open.value.seqEnd <= I64_MAX
    ensures BatchedInit(cfg, h, Flush(fate, w).log)
    ensures (w.open.Some? ==> Full(cfg, h, ChunkOf(w.open.value))) ==> Batched(cfg, h, Flush(fate, w).log)
  {
    if FlushLog(fate, w.log, w.open) != w.log {
      var b := w.open.value;
      var chunk := Attempt(ChunkOf(b), fate(|w.log|));
      BatchedSnoc(cfg, h, w.log, chunk);
      if !chunk.ok {
        var gap := Attempt(GapRow(PendingGap(b.seqStart, b.seqEnd, WriterError)), fate(|w.log| + 1));
        BatchedSnoc(cfg, h, w.log + [chunk], gap);
      }
    }
  }

  /** A flush followed by a marker row leaves no cut-off chunk unexplained. */
  lemma MarkerBatched(cfg: Config, fate: Fate, h: History, w: Writer, row: Row)
    requires Batched(cfg, h, w.log) && row.MarkerRow?
    requires w.open.Some? ==> w.open.value.seqStart <= I64_MAX && w.open.value.seqEnd <= I64_MAX
    ensures Batched(cfg, h, AppendRow(fate, Flush(fate, w).log, row))
  {
    FlushBatched(cfg, fate, h, w);
    var log := Flush(fate, w).log;
    BatchedSnoc(cfg, h, log, Attempt(row, fate(|log|)));
  }

  lemma BracketBatched(cfg: Config, fate: Fate, h: History, w: Writer, g: Option<PendingGap>)
    requires Batched(cfg, h, w.log)
    requires w.open.Some? ==> w.open.value.seqStart <= I64_MAX && w.open.value.seqEnd <= I64_MAX
    requires g.Some? ==> g.value.fromSeq <= I64_MAX && g.value.toSeq <= I64_MAX
    ensures Batched(cfg, h, Bracket(fate, w, g).log)
  {
    if g.Some? {
      MarkerBatched(cfg, fate, h, w, GapRow(g.value));
    }
  }

  /** A batch flushed for the cap is full: the frame that follows it did not fit. */
  lemma AccumulateBatched(cfg: Config, fate: Fate, h: History, w: Writer, s: nat)
    requires Batched(cfg, h, w.log) && 1 <= s <= |h.frames| <= I64_MAX
    requires w.open.Some? ==> w.open.value.seqStart <= w.open.value.seqEnd == s - 1
    ensures Batched(cfg, h, Accumulate(cfg, fate, w, s, h.frames[s - 1]).log)
  {
    if w.open.Some? && WouldOvershootHardCap(w.open.value, |h.frames[s - 1]|, cfg.hardCap) {
      FlushBatched(cfg, fate, h, w);
    }
  }

  lemma TargetBatched(cfg: Config, fate: Fate, h: History, w: Writer)
    requires Batched(cfg, h, w.log)
    requires w.open.Some? ==> w.open.value.seqStart <= I64_MAX && w.open.value.seqEnd <= I64_MAX
    ensures Batched(cfg, h, FlushAtTarget(cfg, fate, w).log)
  {
    if w.open.Some? && |w.open.value.payload| >= cfg.target {
      FlushBatched(cfg, fate, h, w);
    }
  }

  lemma OutputBatched(cfg: Config, fate: Fate, w: Writer, h: History, m: nat, s: nat, g: Option<PendingGap>)
    requires h.Valid() && m < s <= |h.verdicts| && |h.frames| <= I64_MAX
    requires Truthful(w, h, m) && GapMatches(h, m, s, g) && Batched(cfg, h, w.log)
    requires h.verdicts[s - 1].Kept? && |h.frames[s - 1]| <= cfg.hardCap
    ensures Batched(cfg, h, HandleOutput(cfg, fate, w, s, h.frames[s - 1], g).log)
  {
    BracketBatched(cfg, fate, h, w, g);
    BracketTruthful(fate, w, h, m, s, g);
    var w1 := Bracket(fate, w, g);
    AccumulateBatched(cfg, fate, h, w1, s);
    AccumulateTruthful(cfg, fate, w1, h, s);
    TargetBatched(cfg, fate, h, Accumulate(cfg, fate, w1, s, h.frames[s - 1]));
  }

  lemma BatchedExtends(cfg: Config, h: History, h': History, log: seq<Attempt>)
    requires Extends(h, h') && Batched(cfg, h, log)
    ensures Batched(cfg, h', log)
  {
    forall i | 0 <= i < |log| && RunsOn(log, i) ensures Full(cfg, h', log[i].row) {
      assert Full(cfg, h, log[i].row);
    }
  }

  /** A flush leaves a trace of the batch exactly when the batch has bytes and fits
      its columns; otherwise it vanishes without even a gap marker. */
  lemma FlushLeavesTraceIff(fate: Fate, log: seq<Attempt>, b: Batch)
    requires b.seqStart <= b.seqEnd
    ensures FlushLog(fate, log, Some(b)) != log
       <==> 0 < |b.payload| <= 0x7FFF_FFFF && b.seqEnd <= 0x7FFF_FFFF_FFFF_FFFF
    ensures FlushLog(fate, log, Some(b)) != log ==> FlushLog(fate, log, Some(b))[|log|].row == ChunkOf(b)
  {
    var log' := FlushLog(fate, log, Some(b));
    if 0 < |b.payload| <= I32_MAX && b.seqEnd <= I64_MAX {
      assert |log'| > |log|;
    }
  }
}

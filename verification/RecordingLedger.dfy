/** What the recording promises a reader, stated on the attempted rows and on the
    stream of frames the forwarder stamped, without mentioning the writer. */
module RecordingLedger {
  import opened Common
  import opened RecordingModel

  /** What `record_output` did with a frame: queued it, dropped it under a recorded
      cause, or lost it because the writer task had already exited. */
  datatype Verdict = Kept | Dropped(reason: GapReason) | Lost

  /** Every frame stamped so far (the frame with seq `s` is `frames[s-1]`) and the
      verdicts of those already handed to `record_output`. */
  datatype History = History(frames: seq<Bytes>, verdicts: seq<Verdict>) {
    ghost predicate Valid() {
      |verdicts| <= |frames|
    }
  }

  /** Bytes of the frames stamped `first..=last`. */
  function Span(frames: seq<Bytes>, first: nat, last: nat): Bytes
    requires 1 <= first && last <= |frames|
    decreases last
  {
    if last < first then [] else Span(frames, first, last - 1) + frames[last - 1]
  }

  /** No frame with seq in `lo+1..=hi` carries a byte. */
  ghost predicate Silent(frames: seq<Bytes>, lo: nat, hi: nat)
    requires hi <= |frames|
  {
    forall i | lo <= i < hi :: frames[i] == []
  }

  ghost predicate AllKept(h: History, first: nat, last: nat)
    requires 1 <= first && last <= |h.verdicts|
  {
    forall i | first - 1 <= i < last :: h.verdicts[i].Kept?
  }

  /** The producer dropped all of `first..=last`, the first of them for `reason`. */
  ghost predicate DroppedFor(h: History, first: nat, last: nat, reason: GapReason)
    requires 1 <= first <= last <= |h.verdicts|
  {
    && (forall i | first - 1 <= i < last :: h.verdicts[i].Dropped?)
    && h.verdicts[first - 1] == Dropped(reason)
  }

  datatype Range = Range(first: nat, last: nat)

  predicate IsGapRow(r: Row) {
    r.MarkerRow? && r.kind.ReplayGap? && r.payload.GapRange?
  }

  /** A marker row other than a gap. */
  predicate IsPlainMarker(r: Row) {
    r.MarkerRow? && !IsGapRow(r)
  }

  /** The seqs a row speaks for: a chunk's frames or a gap marker's range. */
  function RowRange(r: Row): Option<Range> {
    if r.ChunkRow? then Some(Range(r.seqStart, r.seqEnd))
    else if IsGapRow(r) then Some(Range(r.payload.gap.fromSeq, r.payload.gap.toSeq))
    else None
  }

  /** An attempt answers for its range unless it is a chunk write that failed. */
  function Answers(a: Attempt): Option<Range> {
    if a.row.ChunkRow? && !a.ok then None else RowRange(a.row)
  }

  /** The row tells the truth about its range: a chunk holds exactly those frames'
      bytes, and a gap's reason is what really became of them. */
  ghost predicate Honest(h: History, r: Row, range: Range)
    requires h.Valid() && 1 <= range.first <= range.last <= |h.verdicts|
  {
    match r
    case ChunkRow(_, _, byteLen, bytes) =>
      && AllKept(h, range.first, range.last)
      && bytes == Span(h.frames, range.first, range.last)
      && byteLen == |bytes|
      && byteLen > 0
    case MarkerRow(_, s, payload) =>
      && s == range.last
      && payload.GapRange?
      && (if payload.gap.reason.WriterError? then AllKept(h, range.first, range.last)
          else DroppedFor(h, range.first, range.last, payload.gap.reason))
  }

  /** Read backwards, the answering rows are honest and walk down from `upTo` to 1
      without overlap, stepping over byteless frames only. */
  ghost predicate Accounted(log: seq<Attempt>, h: History, upTo: nat)
    requires h.Valid() && upTo <= |h.verdicts|
  {
    if log == [] then Silent(h.frames, 0, upTo)
    else
      var last := log[|log| - 1];
      var rest := log[..|log| - 1];
      match Answers(last)
      case None => Accounted(rest, h, upTo)
      case Some(r) =>
        && 1 <= r.first <= r.last <= upTo
        && Silent(h.frames, r.last, upTo)
        && Honest(h, last.row, r)
        && Accounted(rest, h, r.first - 1)
  }

  // ---------- the predicate is robust ----------

  ghost predicate Extends(h: History, h': History) {
    h.frames <= h'.frames && h.verdicts <= h'.verdicts
  }

  lemma {:induction false} SpanExtends(frames: seq<Bytes>, frames': seq<Bytes>, first: nat, last: nat)
    requires 1 <= first && last <= |frames| && frames <= frames'
    ensures Span(frames, first, last) == Span(frames', first, last)
    decreases last
  {
    if first <= last {
      SpanExtends(frames, frames', first, last - 1);
    }
  }

  /** Later frames never disturb an account already given. */
  lemma {:induction false} AccountedExtends(log: seq<Attempt>, h: History, h': History, upTo: nat)
    requires h.Valid() && h'.Valid() && Extends(h, h') && upTo <= |h.verdicts|
    requires Accounted(log, h, upTo)
    ensures Accounted(log, h', upTo)
  {
    if log != [] {
      var last := log[|log| - 1];
      match Answers(last)
      case None => AccountedExtends(log[..|log| - 1], h, h', upTo);
      case Some(r) =>
        SpanExtends(h.frames, h'.frames, r.first, r.last);
        AccountedExtends(log[..|log| - 1], h, h', r.first - 1);
    }
  }

  lemma {:induction false} AccountedSilence(log: seq<Attempt>, h: History, upTo: nat, upTo': nat)
    requires h.Valid() && upTo <= upTo' <= |h.verdicts|
    requires Accounted(log, h, upTo) && Silent(h.frames, upTo, upTo')
    ensures Accounted(log, h, upTo')
  {
    if log != [] && Answers(log[|log| - 1]).None? {
      AccountedSilence(log[..|log| - 1], h, upTo, upTo');
    }
  }

  lemma {:induction false} SpanEmpty(frames: seq<Bytes>, first: nat, last: nat)
    requires 1 <= first && last <= |frames|
    requires Span(frames, first, last) == []
    ensures Silent(frames, first - 1, last)
    decreases last
  {
    if first <= last {
      assert |Span(frames, first, last)| == |Span(frames, first, last - 1)| + |frames[last - 1]|;
      SpanEmpty(frames, first, last - 1);
    }
  }

  // ---------- what a reader gets from it ----------

  /** Every answering range lies in `1..=upTo`. */
  lemma {:induction false} RangesBounded(log: seq<Attempt>, h: History, upTo: nat, i: nat)
    requires h.Valid() && upTo <= |h.verdicts| && Accounted(log, h, upTo)
    requires i < |log| && Answers(log[i]).Some?
    ensures 1 <= Answers(log[i]).value.first <= Answers(log[i]).value.last <= upTo
    ensures Honest(h, log[i].row, Answers(log[i]).value)
  {
    if i < |log| - 1 {
      var rest := log[..|log| - 1];
      assert rest[i] == log[i];
      match Answers(log[|log| - 1])
      case None => RangesBounded(rest, h, upTo, i);
      case Some(r) => RangesBounded(rest, h, r.first - 1, i);
    }
  }

  /** Row order is seq order and no seq is answered for twice. */
  lemma {:induction false} RangesAscend(log: seq<Attempt>, h: History, upTo: nat, i: nat, j: nat)
    requires h.Valid() && upTo <= |h.verdicts| && Accounted(log, h, upTo)
    requires i < j < |log| && Answers(log[i]).Some? && Answers(log[j]).Some?
    ensures Answers(log[i]).value.last < Answers(log[j]).value.first
  {
    var rest := log[..|log| - 1];
    assert rest[i] == log[i];
    match Answers(log[|log| - 1])
    case None =>
      assert rest[j] == log[j];
      RangesAscend(rest, h, upTo, i, j);
    case Some(r) =>
      if j == |log| - 1 {
        RangesBounded(rest, h, r.first - 1, i);
      } else {
        assert rest[j] == log[j];
        RangesAscend(rest, h, r.first - 1, i, j);
      }
  }

  predicate InRange(r: Option<Range>, s: nat) {
    r.Some? && r.value.first <= s <= r.value.last
  }

  /** Every frame that carries a byte is answered for. */
  lemma {:induction false} BytesAnswered(log: seq<Attempt>, h: History, upTo: nat, s: nat) returns (i: nat)
    requires h.Valid() && upTo <= |h.verdicts| && Accounted(log, h, upTo)
    requires 1 <= s <= upTo && h.frames[s - 1] != []
    ensures i < |log| && InRange(Answers(log[i]), s)
  {
    i := 0;
    if log == [] {
      assert false;
    } else {
      var rest := log[..|log| - 1];
      match Answers(log[|log| - 1])
      case None =>
        i := BytesAnswered(rest, h, upTo, s);
        assert rest[i] == log[i];
      case Some(r) =>
        if r.first <= s {
          i := |log| - 1;
        } else {
          i := BytesAnswered(rest, h, r.first - 1, s);
          assert rest[i] == log[i];
        }
    }
  }

  // ---------- the durable rows ----------

  /** The rows that actually landed, in order. */
  function Durable(log: seq<Attempt>): seq<Row> {
    if log == [] then []
    else
      var last := log[|log| - 1];
      Durable(log[..|log| - 1]) + if last.ok then [last.row] else []
  }

  ghost predicate GapsLanded(log: seq<Attempt>) {
    forall i | 0 <= i < |log| && IsGapRow(log[i].row) :: log[i].ok
  }

  ghost predicate InGap(rows: seq<Row>, s: nat) {
    exists i :: 0 <= i < |rows| && IsGapRow(rows[i]) && InRange(RowRange(rows[i]), s)
  }

  /** What a player shows: the payloads of the chunk rows, in row order. */
  function Played(rows: seq<Row>): Bytes {
    if rows == [] then []
    else
      var last := rows[|rows| - 1];
      Played(rows[..|rows| - 1]) + if last.ChunkRow? then last.bytes else []
  }

  /** The frame stamped `s`, or nothing where the rows have a gap. */
  ghost function Shown(frames: seq<Bytes>, rows: seq<Row>, s: nat): Bytes
    requires 1 <= s <= |frames|
  {
    if InGap(rows, s) then [] else frames[s - 1]
  }

  /** The first `upTo` frames of the stream with the rows' gap ranges cut out. */
  ghost function StreamWithHoles(frames: seq<Bytes>, rows: seq<Row>, upTo: nat): Bytes
    requires upTo <= |frames|
  {
    if upTo == 0 then [] else StreamWithHoles(frames, rows, upTo - 1) + Shown(frames, rows, upTo)
  }

  lemma InGapStep(rows: seq<Row>, r: Row, s: nat)
    ensures InGap(rows + [r], s) <==> InGap(rows, s) || (IsGapRow(r) && InRange(RowRange(r), s))
  {
    var all := rows + [r];
    if InGap(rows, s) {
      var i :| 0 <= i < |rows| && IsGapRow(rows[i]) && InRange(RowRange(rows[i]), s);
      assert all[i] == rows[i];
    }
    if IsGapRow(r) && InRange(RowRange(r), s) {
      assert all[|rows|] == r;
    }
  }

  lemma {:induction false} HolesAgree(frames: seq<Bytes>, rows: seq<Row>, rows': seq<Row>, upTo: nat)
    requires upTo <= |frames|
    requires forall s: nat | 1 <= s <= upTo :: InGap(rows, s) <==> InGap(rows', s)
    ensures StreamWithHoles(frames, rows, upTo) == StreamWithHoles(frames, rows', upTo)
    decreases upTo
  {
    if upTo > 0 {
      HolesAgree(frames, rows, rows', upTo - 1);
    }
  }

  lemma {:induction false} HolesOverSilence(frames: seq<Bytes>, rows: seq<Row>, lo: nat, hi: nat)
    requires lo <= hi <= |frames| && Silent(frames, lo, hi)
    ensures StreamWithHoles(frames, rows, hi) == StreamWithHoles(frames, rows, lo)
    decreases hi
  {
    if lo < hi {
      HolesOverSilence(frames, rows, lo, hi - 1);
    }
  }

  lemma {:induction false} HolesOverGap(frames: seq<Bytes>, rows: seq<Row>, first: nat, last: nat)
    requires 1 <= first && first <= last + 1 && last <= |frames|
    requires forall s: nat | first <= s <= last :: InGap(rows, s)
    ensures StreamWithHoles(frames, rows, last) == StreamWithHoles(frames, rows, first - 1)
    decreases last
  {
    if first <= last {
      HolesOverGap(frames, rows, first, last - 1);
    }
  }

  lemma Concat3(a: Bytes, b: Bytes, c: Bytes)
    ensures (a + b) + c == a + (b + c)
  {
  }

  lemma ShownStep(frames: seq<Bytes>, rows: seq<Row>, s: nat, before: Bytes)
    requires 1 <= s <= |frames| && !InGap(rows, s) && StreamWithHoles(frames, rows, s - 1) == before
    ensures StreamWithHoles(frames, rows, s) == before + frames[s - 1]
  {
  }

  lemma {:induction false} HolesOverSpan(frames: seq<Bytes>, rows: seq<Row>, first: nat, last: nat)
    requires 1 <= first && first <= last + 1 && last <= |frames|
    requires forall s: nat | first <= s <= last :: !InGap(rows, s)
    ensures StreamWithHoles(frames, rows, last) == StreamWithHoles(frames, rows, first - 1) + Span(frames, first, last)
    decreases last
  {
    if first <= last {
      HolesOverSpan(frames, rows, first, last - 1);
      var before, body := StreamWithHoles(frames, rows, first - 1), Span(frames, first, last - 1);
      ShownStep(frames, rows, last, before + body);
      Concat3(before, body, frames[last - 1]);
    }
  }

  /** Durable gap rows come from the log, so they are bounded like the log's ranges. */
  lemma {:induction false} DurableGapsBounded(log: seq<Attempt>, h: History, upTo: nat, s: nat)
    requires h.Valid() && upTo <= |h.verdicts| && Accounted(log, h, upTo)
    requires InGap(Durable(log), s)
    ensures 1 <= s <= upTo
  {
    if log == [] {
      assert false;
    }
    var last, rest := log[|log| - 1], log[..|log| - 1];
    if last.ok {
      InGapStep(Durable(rest), last.row, s);
    } else {
      assert Durable(log) == Durable(rest);
    }
    if InGap(Durable(rest), s) {
      match Answers(last)
      case None => DurableGapsBounded(rest, h, upTo, s);
      case Some(r) => DurableGapsBounded(rest, h, r.first - 1, s);
    }
  }

  lemma PlayedStep(rows: seq<Row>, r: Row)
    ensures Played(rows + [r]) == Played(rows) + if r.ChunkRow? then r.bytes else []
  {
    assert (rows + [r])[..|rows|] == rows;
  }

  lemma PlainRowKeepsHoles(rows: seq<Row>, a: Attempt, frames: seq<Bytes>, upTo: nat)
    requires upTo <= |frames| && Answers(a).None?
    ensures a.ok ==> StreamWithHoles(frames, rows + [a.row], upTo) == StreamWithHoles(frames, rows, upTo)
  {
    forall s | 1 <= s <= upTo ensures a.ok ==> (InGap(rows + [a.row], s) <==> InGap(rows, s)) {
      InGapStep(rows, a.row, s);
    }
    if a.ok {
      HolesAgree(frames, rows + [a.row], rows, upTo);
    }
  }

  lemma DurableSnoc(rest: seq<Attempt>, a: Attempt)
    ensures Durable(rest + [a]) == if a.ok then Durable(rest) + [a.row] else Durable(rest)
  {
    assert (rest + [a])[..|rest|] == rest;
  }

  lemma PlainRowPlays(rest: seq<Attempt>, a: Attempt, frames: seq<Bytes>, upTo: nat)
    requires upTo <= |frames| && Answers(a).None?
    requires Played(Durable(rest)) == StreamWithHoles(frames, Durable(rest), upTo)
    ensures Played(Durable(rest + [a])) == StreamWithHoles(frames, Durable(rest + [a]), upTo)
  {
    DurableSnoc(rest, a);
    if a.ok {
      PlayedStep(Durable(rest), a.row);
      PlainRowKeepsHoles(Durable(rest), a, frames, upTo);
    }
  }

  /** Adding a row for `first..=last`, above every earlier gap, decides the holes there alone. */
  lemma RowDecidesItsRange(rest: seq<Attempt>, row: Row, h: History, r: Range)
    requires h.Valid() && 1 <= r.first <= r.last <= |h.verdicts| && RowRange(row) == Some(r)
    requires Accounted(rest, h, r.first - 1)
    ensures forall s: nat | s < r.first :: InGap(Durable(rest) + [row], s) <==> InGap(Durable(rest), s)
    ensures forall s: nat | r.first <= s <= r.last :: InGap(Durable(rest) + [row], s) <==> IsGapRow(row)
  {
    var rows := Durable(rest);
    forall s: nat ensures InGap(rows + [row], s) <==> InGap(rows, s) || (IsGapRow(row) && r.first <= s <= r.last) {
      InGapStep(rows, row, s);
    }
    forall s: nat | InGap(rows, s) ensures s < r.first {
      DurableGapsBounded(rest, h, r.first - 1, s);
    }
  }

  lemma ChunkPlays(frames: seq<Bytes>, rows: seq<Row>, rows': seq<Row>, r: Range, upTo: nat)
    requires 1 <= r.first <= r.last <= upTo <= |frames| && Silent(frames, r.last, upTo)
    requires forall s: nat | s < r.first :: InGap(rows', s) <==> InGap(rows, s)
    requires forall s: nat | r.first <= s <= r.last :: !InGap(rows', s)
    ensures StreamWithHoles(frames, rows', upTo)
         == StreamWithHoles(frames, rows, r.first - 1) + Span(frames, r.first, r.last)
  {
    HolesAgree(frames, rows', rows, r.first - 1);
    HolesOverSpan(frames, rows', r.first, r.last);
    HolesOverSilence(frames, rows', r.last, upTo);
  }

  lemma GapPlays(frames: seq<Bytes>, rows: seq<Row>, rows': seq<Row>, r: Range, upTo: nat)
    requires 1 <= r.first <= r.last <= upTo <= |frames| && Silent(frames, r.last, upTo)
    requires forall s: nat | s < r.first :: InGap(rows', s) <==> InGap(rows, s)
    requires forall s: nat | r.first <= s <= r.last :: InGap(rows', s)
    ensures StreamWithHoles(frames, rows', upTo) == StreamWithHoles(frames, rows, r.first - 1)
  {
    HolesAgree(frames, rows', rows, r.first - 1);
    HolesOverGap(frames, rows', r.first, r.last);
    HolesOverSilence(frames, rows', r.last, upTo);
  }

  lemma AnsweringRowPlays(rest: seq<Attempt>, a: Attempt, h: History, upTo: nat)
    requires h.Valid() && upTo <= |h.verdicts| && Answers(a).Some?
    requires Accounted(rest + [a], h, upTo) && a.ok
    ensures StreamWithHoles(h.frames, Durable(rest) + [a.row], upTo)
         == StreamWithHoles(h.frames, Durable(rest), Answers(a).value.first - 1)
            + if a.row.ChunkRow? then a.row.bytes else []
  {
    var r := Answers(a).value;
    assert (rest + [a])[..|rest|] == rest;
    RowDecidesItsRange(rest, a.row, h, r);
    if a.row.ChunkRow? {
      ChunkPlays(h.frames, Durable(rest), Durable(rest) + [a.row], r, upTo);
    } else {
      GapPlays(h.frames, Durable(rest), Durable(rest) + [a.row], r, upTo);
    }
  }

  lemma AnsweredRowPlays(rest: seq<Attempt>, a: Attempt, h: History, upTo: nat)
    requires h.Valid() && upTo <= |h.verdicts| && Answers(a).Some? && a.ok && Accounted(rest + [a], h, upTo)
    requires Answers(a).value.first <= |h.frames| + 1
    requires Played(Durable(rest)) == StreamWithHoles(h.frames, Durable(rest), Answers(a).value.first - 1)
    ensures Played(Durable(rest + [a])) == StreamWithHoles(h.frames, Durable(rest + [a]), upTo)
  {
    AnsweringRowPlays(rest, a, h, upTo);
    DurableSnoc(rest, a);
    PlayedStep(Durable(rest), a.row);
  }

  lemma GapsLandedInit(rest: seq<Attempt>, a: Attempt)
    requires GapsLanded(rest + [a])
    ensures GapsLanded(rest) && (Answers(a).Some? ==> a.ok)
  {
    assert (rest + [a])[|rest|] == a;
    assert forall i | 0 <= i < |rest| :: rest[i] == (rest + [a])[i];
  }

  /** The headline: the durable recording plays back as the PTY stream with holes
      exactly where its own gap markers say. */
  lemma {:induction false} PlaysStreamWithHoles(log: seq<Attempt>, h: History, upTo: nat)
    requires h.Valid() && upTo <= |h.verdicts| && Accounted(log, h, upTo) && GapsLanded(log)
    ensures Played(Durable(log)) == StreamWithHoles(h.frames, Durable(log), upTo)
  {
    if log == [] {
      HolesOverSilence(h.frames, [], 0, upTo);
    } else {
      var last, rest := log[|log| - 1], log[..|log| - 1];
      assert log == rest + [last];
      GapsLandedInit(rest, last);
      match Answers(last)
      case None =>
        PlaysStreamWithHoles(rest, h, upTo);
        PlainRowPlays(rest, last, h.frames, upTo);
      case Some(r) =>
        PlaysStreamWithHoles(rest, h, r.first - 1);
        AnsweredRowPlays(rest, last, h, upTo);
    }
  }

  /** The durable ranges, in row order, tile `1..=upTo` with no hole and no overlap. */
  ghost predicate Tiles(rows: seq<Row>, upTo: nat) {
    if rows == [] then upTo == 0
    else
      var rest := rows[..|rows| - 1];
      match RowRange(rows[|rows| - 1])
      case None => Tiles(rest, upTo)
      case Some(r) => 1 <= r.first <= r.last == upTo && Tiles(rest, r.first - 1)
  }

  ghost predicate AllCarryBytes(frames: seq<Bytes>, upTo: nat)
    requires upTo <= |frames|
  {
    forall i | 0 <= i < upTo :: frames[i] != []
  }

  lemma CarryingIsNotSilent(frames: seq<Bytes>, lo: nat, hi: nat)
    requires lo < hi <= |frames| && AllCarryBytes(frames, hi)
    ensures !Silent(frames, lo, hi)
  {
    assert frames[lo] != [];
  }

  /** With no byteless frame the account is an exact tiling. */
  lemma {:induction false} NonemptyFramesTile(log: seq<Attempt>, h: History, upTo: nat)
    requires h.Valid() && upTo <= |h.verdicts| && Accounted(log, h, upTo) && GapsLanded(log)
    requires AllCarryBytes(h.frames, upTo)
    ensures Tiles(Durable(log), upTo)
  {
    if log == [] {
      if 0 < upTo { CarryingIsNotSilent(h.frames, 0, upTo); }
    } else {
      var last, rest := log[|log| - 1], log[..|log| - 1];
      assert GapsLanded(rest) by {
        assert forall i | 0 <= i < |rest| :: rest[i] == log[i];
      }
      if last.ok {
        assert (Durable(rest) + [last.row])[..|Durable(rest)|] == Durable(rest);
      } else {
        assert Durable(log) == Durable(rest);
      }
      match Answers(last)
      case None => NonemptyFramesTile(rest, h, upTo);
      case Some(r) =>
        if r.last < upTo { CarryingIsNotSilent(h.frames, r.last, upTo); }
        NonemptyFramesTile(rest, h, r.first - 1);
    }
  }

  /** Without `GapsLanded`: a frame carrying bytes is missing from the durable rows
      exactly when the gap marker answering for it failed to land. */
  lemma HiddenIffGapMarkerFailed(log: seq<Attempt>, h: History, upTo: nat, s: nat)
    requires h.Valid() && upTo <= |h.verdicts| && Accounted(log, h, upTo)
    requires 1 <= s <= upTo && h.frames[s - 1] != []
    ensures (exists i :: 0 <= i < |log| && log[i].ok && InRange(RowRange(log[i].row), s))
       <==> !(exists i :: 0 <= i < |log| && !log[i].ok && IsGapRow(log[i].row) && InRange(RowRange(log[i].row), s))
  {
    var k := BytesAnswered(log, h, upTo, s);
    if i :| 0 <= i < |log| && log[i].ok && InRange(RowRange(log[i].row), s) {
      assert InRange(Answers(log[i]), s);
      forall j | 0 <= j < |log| && IsGapRow(log[j].row) && InRange(RowRange(log[j].row), s) ensures j == i {
        OneAnswer(log, h, upTo, s, i, j);
      }
    }
  }

  lemma OneAnswer(log: seq<Attempt>, h: History, upTo: nat, s: nat, i: nat, j: nat)
    requires h.Valid() && upTo <= |h.verdicts| && Accounted(log, h, upTo)
    requires i < |log| && j < |log| && InRange(Answers(log[i]), s) && InRange(Answers(log[j]), s)
    ensures i == j
  {
    if i < j {
      RangesAscend(log, h, upTo, i, j);
    } else if j < i {
      RangesAscend(log, h, upTo, j, i);
    }
  }
}

/** The bounded replay ring and its agreement with the full push history. */
module Replay {
  import opened Common

  datatype OutputFrame = OutputFrame(seqNo: U64, data: Bytes)

  datatype RingConfig = RingConfig(maxFrames: nat, maxBytes: nat)

  datatype ReplayRange = ReplayRange(frames: seq<OutputFrame>, latestSeq: U64)

  datatype WindowLost = WindowLost(requested: U64, oldestAvailable: Option<U64>, latest: U64)

  function SumLen(frames: seq<OutputFrame>): nat {
    if frames == [] then 0 else |frames[0].data| + SumLen(frames[1..])
  }

  lemma {:induction false} SumLenSnoc(frames: seq<OutputFrame>, f: OutputFrame)
    ensures SumLen(frames + [f]) == SumLen(frames) + |f.data|
  {
    if frames == [] {
      assert (frames + [f])[1..] == [];
    } else {
      assert (frames + [f])[1..] == frames[1..] + [f];
      SumLenSnoc(frames[1..], f);
    }
  }

  // ---------- the reference: which suffix of the history is retained ----------

  predicate Fits(cfg: RingConfig, frames: seq<OutputFrame>) {
    |frames| <= cfg.maxFrames && SumLen(frames) <= cfg.maxBytes
  }

  /** `ring` is the longest suffix of the whole push history within both limits, or the
      last frame alone when even that does not fit. */
  ghost predicate IsWindow(cfg: RingConfig, history: seq<OutputFrame>, ring: seq<OutputFrame>) {
    && |ring| <= |history|
    && ring == history[|history| - |ring|..]
    && (history != [] ==> ring != [])
    && (|ring| > 1 ==> Fits(cfg, ring))
    && (forall k | 0 <= k < |history| - |ring| :: !Fits(cfg, history[k..]))
  }

  lemma LongerDoesNotFit(cfg: RingConfig, history: seq<OutputFrame>, ring: seq<OutputFrame>, k: int)
    requires IsWindow(cfg, history, ring) && 0 <= k < |history| - |ring|
    ensures !Fits(cfg, history[k..])
  {
  }

  /** The window is unique, so `IsWindow` determines the ring. */
  lemma WindowUnique(cfg: RingConfig, history: seq<OutputFrame>, a: seq<OutputFrame>, b: seq<OutputFrame>)
    requires IsWindow(cfg, history, a) && IsWindow(cfg, history, b)
    ensures a == b
  {
    if |a| < |b| {
      LongerDoesNotFit(cfg, history, a, |history| - |b|);
    } else if |b| < |a| {
      LongerDoesNotFit(cfg, history, b, |history| - |a|);
    }
  }

  lemma FitsInit(cfg: RingConfig, frames: seq<OutputFrame>, f: OutputFrame)
    requires Fits(cfg, frames + [f])
    ensures Fits(cfg, frames)
  {
    SumLenSnoc(frames, f);
  }

  /** A longer history only ever shrinks what fits: nothing evicted could come back. */
  lemma EvictedStaysEvicted(cfg: RingConfig, history: seq<OutputFrame>, ring: seq<OutputFrame>, f: OutputFrame, k: nat)
    requires IsWindow(cfg, history, ring) && k < |history| - |ring|
    ensures !Fits(cfg, (history + [f])[k..])
  {
    assert (history + [f])[k..] == history[k..] + [f];
    if Fits(cfg, history[k..] + [f]) {
      FitsInit(cfg, history[k..], f);
    }
  }

  /** A window that may still hold too much: what the eviction loop shrinks. */
  ghost predicate Shrinking(cfg: RingConfig, history: seq<OutputFrame>, ring: seq<OutputFrame>) {
    && 1 <= |ring| <= |history|
    && ring == history[|history| - |ring|..]
    && (forall k | 0 <= k < |history| - |ring| :: !Fits(cfg, history[k..]))
  }

  lemma AppendShrinking(cfg: RingConfig, history: seq<OutputFrame>, ring: seq<OutputFrame>, f: OutputFrame)
    requires IsWindow(cfg, history, ring)
    ensures Shrinking(cfg, history + [f], ring + [f])
  {
    forall k | 0 <= k < |history| - |ring| ensures !Fits(cfg, (history + [f])[k..]) {
      EvictedStaysEvicted(cfg, history, ring, f, k);
    }
  }

  lemma EvictShrinking(cfg: RingConfig, history: seq<OutputFrame>, ring: seq<OutputFrame>)
    requires Shrinking(cfg, history, ring) && !Fits(cfg, ring) && |ring| > 1
    ensures Shrinking(cfg, history, ring[1..])
  {
    assert ring[1..] == history[|history| - |ring| + 1..];
  }

  /** The eviction loop as a function: drop the oldest frame until the rest fits or one is left. */
  function Evict(cfg: RingConfig, ring: seq<OutputFrame>): seq<OutputFrame> {
    if |ring| > 1 && !Fits(cfg, ring) then Evict(cfg, ring[1..]) else ring
  }

  /** Pushing and evicting turns the window of a history into the window of the longer one. */
  lemma {:induction false} EvictIsWindow(cfg: RingConfig, history: seq<OutputFrame>, ring: seq<OutputFrame>)
    requires Shrinking(cfg, history, ring)
    ensures IsWindow(cfg, history, Evict(cfg, ring))
    decreases |ring|
  {
    if |ring| > 1 && !Fits(cfg, ring) {
      EvictShrinking(cfg, history, ring);
      EvictIsWindow(cfg, history, ring[1..]);
    }
  }

  // ---------- the ring itself ----------

  class ReplayBuffer {
    const config: RingConfig
    var frames: seq<OutputFrame>
    var bytes: nat
    var latestSeq: U64
    /** Every frame ever pushed. */
    ghost var history: seq<OutputFrame>

    ghost predicate Valid()
      reads this
    {
      && IsWindow(config, history, frames)
      && bytes == SumLen(frames)
      && latestSeq == if history == [] then 0 else history[|history| - 1].seqNo
    }

    constructor (cfg: RingConfig)
      ensures Valid() && history == [] && config == cfg
    {
      config := cfg;
      frames := [];
      bytes := 0;
      latestSeq := 0;
      history := [];
    }

    /** Append and evict from the front. The retained frames and the new one are in
        memory together, so their total length is a `usize`. */
    method Push(frame: OutputFrame)
      requires Valid() && SumLen(frames) + |frame.data| <= USIZE_MAX
      modifies this
      ensures Valid() && history == old(history) + [frame]
      ensures frames == Evict(config, old(frames) + [frame])
    {
      SumLenSnoc(frames, frame);
      AppendShrinking(config, history, frames, frame);
      EvictIsWindow(config, history + [frame], frames + [frame]);
      bytes := SatAdd(bytes, |frame.data|);
      latestSeq := frame.seqNo;
      frames := frames + [frame];
      while |frames| > config.maxFrames || bytes > config.maxBytes
        invariant history == old(history) && latestSeq == frame.seqNo
        invariant Evict(config, frames) == Evict(config, old(frames) + [frame])
        invariant bytes == SumLen(frames)
        decreases |frames|
      {
        if |frames| <= 1 {
          break;
        }
        bytes := SatSub(bytes, |frames[0].data|);
        frames := frames[1..];
      }
      history := history + [frame];
    }
  }

  // ---------- the query ----------

  function NewerThan(frames: seq<OutputFrame>, bookmark: U64): seq<OutputFrame> {
    if frames == [] then []
    else (if frames[0].seqNo > bookmark then [frames[0]] else []) + NewerThan(frames[1..], bookmark)
  }

  /** `replay_since`; `bookmark + 1` is checked not to overflow. */
  function ReplaySince(frames: seq<OutputFrame>, latestSeq: U64, lastSeen: Option<U64>): Result<ReplayRange, WindowLost>
  {
    var bookmark := if lastSeen.Some? then lastSeen.value else 0;
    if frames == [] then Ok(ReplayRange([], latestSeq))
    else if bookmark >= latestSeq then Ok(ReplayRange([], latestSeq))
    else if bookmark > 0 && bookmark + 1 < frames[0].seqNo then
      Err(WindowLost(bookmark, Some(frames[0].seqNo), latestSeq))
    else Ok(ReplayRange(NewerThan(frames, bookmark), latestSeq))
  }

  /** Frames carry consecutive seqs from `base + 1`, as the forwarder stamps them. */
  ghost predicate Consecutive(frames: seq<OutputFrame>, base: nat) {
    forall i | 0 <= i < |frames| :: frames[i].seqNo as int == base + 1 + i
  }

  lemma TailConsecutive(frames: seq<OutputFrame>, base: nat)
    requires Consecutive(frames, base) && frames != []
    ensures Consecutive(frames[1..], base + 1)
  {
  }

  lemma {:induction false} NewerThanIsSuffix(frames: seq<OutputFrame>, base: nat, bookmark: U64)
    requires Consecutive(frames, base)
    ensures var k := Min(Max(bookmark as int - base, 0), |frames|);
      NewerThan(frames, bookmark) == frames[k..]
  {
    if frames != [] {
      var tail := frames[1..];
      TailConsecutive(frames, base);
      NewerThanIsSuffix(tail, base + 1, bookmark);
      assert frames[0].seqNo as int == base + 1;
      if bookmark as int <= base {
        assert tail[0..] == tail && frames[0..] == [frames[0]] + tail;
      } else {
        var k := Min(bookmark as int - base, |frames|);
        assert tail[k - 1..] == frames[k..];
      }
    }
  }

  /** In a run of consecutive seqs, membership of a seq is a range test. */
  lemma HasSeqIff(frames: seq<OutputFrame>, base: nat, n: nat)
    requires Consecutive(frames, base)
    ensures (exists f :: f in frames && f.seqNo as int == n) <==> base < n <= base + |frames|
  {
    if base < n <= base + |frames| {
      assert frames[n - base - 1] in frames;
    }
  }

  lemma WindowIsConsecutive(cfg: RingConfig, history: seq<OutputFrame>, ring: seq<OutputFrame>, base: nat)
    requires IsWindow(cfg, history, ring) && Consecutive(history, base)
    ensures Consecutive(ring, base + |history| - |ring|)
    ensures history != [] ==> ring != [] && ring[|ring| - 1] == history[|history| - 1]
  {
    assert forall i | 0 <= i < |ring| :: ring[i] == history[|history| - |ring| + i];
  }

  ghost predicate Retains(ring: seq<OutputFrame>, n: nat) {
    exists f :: f in ring && f.seqNo as int == n
  }

  /** `ReplayWindowLost` fires exactly when a resuming caller is behind and the frame it
      needs next is no longer retained; a caller without a bookmark never sees it. */
  lemma WindowLostIffNextFrameEvicted(
    cfg: RingConfig, history: seq<OutputFrame>, ring: seq<OutputFrame>, base: nat, lastSeen: Option<U64>)
    requires IsWindow(cfg, history, ring) && Consecutive(history, base) && history != []
    ensures ring != []
    ensures
      var latest := history[|history| - 1].seqNo;
      var b := if lastSeen.Some? then lastSeen.value else 0;
      var r := ReplaySince(ring, latest, lastSeen);
      && (r.Err? <==> 0 < b < latest && !Retains(ring, b as nat + 1))
      && (r.Err? ==> r.error == WindowLost(b, Some(ring[0].seqNo), latest))
  {
    WindowIsConsecutive(cfg, history, ring, base);
    var b := if lastSeen.Some? then lastSeen.value else 0;
    HasSeqIff(ring, base + |history| - |ring|, b as nat + 1);
    assert ring[0].seqNo as int == base + |history| - |ring| + 1;
  }

  /** From a bookmark inside it, the ring and the history have the same newer frames. */
  lemma RingTail(history: seq<OutputFrame>, d: nat, base: nat, b: U64)
    requires d <= |history| && Consecutive(history, base) && base + d <= b as int
    ensures NewerThan(history[d..], b) == NewerThan(history, b)
    ensures b as int >= base + |history| ==> NewerThan(history, b) == []
  {
    var ring := history[d..];
    assert forall i | 0 <= i < |ring| :: ring[i] == history[d + i];
    NewerThanIsSuffix(ring, base + d, b);
    NewerThanIsSuffix(history, base, b);
    var k := Min(b as int - base, |history|);
    assert ring[k - d..] == history[k..];
  }

  lemma NothingSeen(frames: seq<OutputFrame>, base: nat)
    requires Consecutive(frames, base)
    ensures NewerThan(frames, 0) == frames
  {
    NewerThanIsSuffix(frames, base, 0);
    assert frames[0..] == frames;
  }

  lemma AnswerForBookmark(history: seq<OutputFrame>, ring: seq<OutputFrame>, base: nat, b: U64)
    requires |ring| <= |history| && ring == history[|history| - |ring|..] && ring != [] && Consecutive(history, base)
    requires 0 < b
    ensures var r := ReplaySince(ring, history[|history| - 1].seqNo, Some(b));
      r.Ok? ==> r.value.frames == NewerThan(history, b)
  {
    var d := |history| - |ring|;
    assert ring[0].seqNo as int == base + d + 1;
    if base + d <= b as int {
      RingTail(history, d, base, b);
    }
  }

  /** An `Ok` answer is the one the unbounded history would give: every frame ever pushed
      after the bookmark, up to the latest. Without a bookmark it is the whole ring. */
  lemma ReplayAgreesWithHistory(
    cfg: RingConfig, history: seq<OutputFrame>, ring: seq<OutputFrame>, base: nat, lastSeen: Option<U64>)
    requires IsWindow(cfg, history, ring) && Consecutive(history, base) && history != []
    ensures
      var latest := history[|history| - 1].seqNo;
      var b := if lastSeen.Some? then lastSeen.value else 0;
      var r := ReplaySince(ring, latest, lastSeen);
      && (r.Ok? ==> r.value.latestSeq == latest)
      && (r.Ok? && b > 0 ==> r.value.frames == NewerThan(history, b))
      && (b == 0 ==> r.Ok? && r.value.frames == ring)
  {
    WindowIsConsecutive(cfg, history, ring, base);
    if lastSeen.Some? && lastSeen.value > 0 {
      AnswerForBookmark(history, ring, base, lastSeen.value);
    } else {
      NothingSeen(ring, base + |history| - |ring|);
      assert history[|history| - 1].seqNo > 0;
    }
  }
}

/** The forwarder loop: one stamp per output event, and the same frame to the ring, to the
    broadcast and to the recorder, in that order. */
module Forwarder {
  import opened Common
  import opened Replay

  datatype ClosedReason = RemoteEof | TransportError | LocalClose

  datatype PtyEvent = Output(data: Bytes) | Exit(status: int) | Closed(reason: ClosedReason)

  /** The ring sizing the manager uses. */
  const DEFAULT_RING := RingConfig(1024, 1024 * 1024)

  /** Rust bounds every allocation by `isize::MAX` bytes. */
  const ISIZE_MAX: nat := I64_MAX

  ghost predicate Allocatable(events: seq<PtyEvent>) {
    forall i | 0 <= i < |events| && events[i].Output? :: |events[i].data| <= ISIZE_MAX
  }

  ghost predicate StampsFit(events: seq<PtyEvent>, base: nat) {
    base + |events| < 0x1_0000_0000_0000_0000
  }

  /** The output frames of an event stream, stamped consecutively from `base + 1`. */
  ghost function Stamped(events: seq<PtyEvent>, base: nat): (frames: seq<OutputFrame>)
    requires StampsFit(events, base)
    ensures |frames| <= |events|
  {
    if events == [] then []
    else
      var frames := Stamped(events[..|events| - 1], base);
      var last := events[|events| - 1];
      if last.Output? then frames + [OutputFrame((base + |frames| + 1) as U64, last.data)] else frames
  }

  /** The stamps are gap-free, whatever else is in the stream. */
  lemma {:induction false} StampedConsecutive(events: seq<PtyEvent>, base: nat)
    requires StampsFit(events, base)
    ensures Consecutive(Stamped(events, base), base)
  {
    if events != [] {
      StampedConsecutive(events[..|events| - 1], base);
    }
  }

  /** The payloads of the output events, in order. */
  function Outputs(events: seq<PtyEvent>): seq<Bytes> {
    if events == [] then []
    else (if events[0].Output? then [events[0].data] else []) + Outputs(events[1..])
  }

  lemma {:induction false} OutputsSnoc(events: seq<PtyEvent>, e: PtyEvent)
    ensures Outputs(events + [e]) == Outputs(events) + if e.Output? then [e.data] else []
  {
    if events == [] {
      assert (events + [e])[1..] == [];
    } else {
      assert (events + [e])[0] == events[0] && (events + [e])[1..] == events[1..] + [e];
      OutputsSnoc(events[1..], e);
    }
  }

  /** Every output event's payload is stamped, in order and unchanged, whatever `Exit` or `Closed`
      events come before it. */
  lemma {:induction false} StampedPayloads(events: seq<PtyEvent>, base: nat)
    requires StampsFit(events, base)
    ensures |Stamped(events, base)| == |Outputs(events)|
    ensures forall i | 0 <= i < |Outputs(events)| :: Stamped(events, base)[i].data == Outputs(events)[i]
  {
    if events != [] {
      var init, last := events[..|events| - 1], events[|events| - 1];
      StampedPayloads(init, base);
      OutputsSnoc(init, last);
      assert events == init + [last];
    }
  }

  /** The reason reported at teardown: the last one announced, `local_close` if none was. */
  function TeardownReason(events: seq<PtyEvent>): ClosedReason {
    if events == [] then LocalClose
    else if events[|events| - 1].Closed? then events[|events| - 1].reason
    else TeardownReason(events[..|events| - 1])
  }

  lemma {:induction false} TeardownReasonIsLast(events: seq<PtyEvent>, i: nat)
    requires i <= |events|
    requires forall j | i <= j < |events| :: !events[j].Closed?
    ensures i == 0 ==> TeardownReason(events) == LocalClose
    ensures i > 0 && events[i - 1].Closed? ==> TeardownReason(events) == events[i - 1].reason
  {
    if i < |events| {
      TeardownReasonIsLast(events[..|events| - 1], i);
    }
  }

  lemma PrefixStep(events: seq<PtyEvent>, i: nat, base: nat)
    requires i < |events| && StampsFit(events, base)
    ensures var frames := Stamped(events[..i], base);
      Stamped(events[..i + 1], base) ==
        if events[i].Output? then frames + [OutputFrame((base + |frames| + 1) as U64, events[i].data)] else frames
    ensures TeardownReason(events[..i + 1]) ==
      if events[i].Closed? then events[i].reason else TeardownReason(events[..i])
  {
    assert events[..i + 1][..i] == events[..i];
  }

  ghost predicate AllSmall(frames: seq<OutputFrame>) {
    forall i | 0 <= i < |frames| :: |frames[i].data| <= ISIZE_MAX
  }

  /** The ring and one more frame together fit a `usize`. */
  lemma RetainedFits(history: seq<OutputFrame>, ring: seq<OutputFrame>, data: Bytes)
    requires IsWindow(DEFAULT_RING, history, ring) && AllSmall(history) && |data| <= ISIZE_MAX
    ensures SumLen(ring) + |data| <= USIZE_MAX
  {
    if |ring| == 1 {
      assert ring[0] == history[|history| - 1];
      assert ring[1..] == [];
    }
  }

  class Bridge {
    const ring: ReplayBuffer
    var nextSeq: nat
    var lastSeq: nat
    var broadcast: seq<OutputFrame>
    var teed: seq<OutputFrame>

    /** A fresh ring and channels over a counter that survives an earlier runtime. */
    constructor (base: nat)
      ensures nextSeq == base + 1 && lastSeq == 0 && broadcast == [] && teed == []
      ensures fresh(ring) && ring.Valid() && ring.history == [] && ring.config == RingConfig(1024, 1048576)
    {
      ring := new ReplayBuffer(DEFAULT_RING);
      nextSeq := base + 1;
      lastSeq := 0;
      broadcast, teed := [], [];
    }

    /** Stamp one frame and hand it on. */
    method Fanout(data: Bytes)
      requires ring.Valid() && ring.config == DEFAULT_RING && AllSmall(ring.history) && |data| <= ISIZE_MAX
      requires nextSeq < 0x1_0000_0000_0000_0000
      modifies this, ring
      ensures ring.Valid() && AllSmall(ring.history) && nextSeq == old(nextSeq) + 1 && lastSeq == old(nextSeq)
      ensures var frame := OutputFrame(old(nextSeq) as U64, data);
        && ring.history == old(ring.history) + [frame]
        && broadcast == old(broadcast) + [frame]
        && teed == old(teed) + [frame]
    {
      var stamp := nextSeq;
      nextSeq := nextSeq + 1;
      var frame := OutputFrame(stamp as U64, data);
      RetainedFits(ring.history, ring.frames, data);
      ring.Push(frame);
      broadcast := broadcast + [frame];
      lastSeq := stamp;
      teed := teed + [frame];
    }

    /** Drain the event stream. Ring, broadcast and recorder each receive exactly the stamped
        frames, `last_seq` ends at the last stamp, and output after `Closed` is still forwarded. */
    method Forward(events: seq<PtyEvent>, base: nat) returns (reason: ClosedReason)
      requires ring.Valid() && ring.config == DEFAULT_RING
      requires ring.history == [] && broadcast == [] && teed == [] && lastSeq == 0
      requires nextSeq == base + 1 && StampsFit(events, base) && Allocatable(events)
      modifies this, ring
      ensures ring.Valid()
      ensures ring.history == Stamped(events, base)
      ensures broadcast == ring.history && teed == ring.history
      ensures nextSeq == base + |teed| + 1
      ensures lastSeq == if teed == [] then 0 else nextSeq - 1
      ensures reason == TeardownReason(events)
    {
      reason := LocalClose;
      var i := 0;
      while i < |events|
        invariant 0 <= i <= |events|
        invariant ring.Valid() && AllSmall(ring.history)
        invariant ring.history == Stamped(events[..i], base)
        invariant broadcast == ring.history && teed == ring.history
        invariant nextSeq == base + |teed| + 1
        invariant lastSeq == if teed == [] then 0 else nextSeq - 1
        invariant reason == TeardownReason(events[..i])
      {
        PrefixStep(events, i, base);
        match events[i] {
          case Output(data) => Fanout(data);
          case Exit(_) =>
          case Closed(r) => reason := r;
        }
        i := i + 1;
      }
      assert events[..i] == events;
    }
  }
}

/** Attaching to a live session: the forwarder pushes each frame into the ring and then
    broadcasts it, while a client subscribes, sends its resume bookmark, and receives. */
module Attach {
  import opened Common
  import opened Replay
  import Codec

  /** Capacity of the per-session broadcast. */
  const FANOUT_CAPACITY: nat := 256

  /** The outcome of the client's one `Attach` frame. The client's stream since then
      starts at history index `start`; frames below index `floor` come from the snapshot
      or are skipped, later ones arrive live. `at` is how far the receiver had read. */
  datatype Handshake = Handshake(bookmark: U64, lost: bool, start: nat, floor: nat, at: nat)

  /** The socket task's view. `read` is the history index of the next broadcast frame the
      receiver will yield; `early` and `delivered` are the frames handed to the socket's sender
      before and since the handshake, of which `OnWire` reach the client. */
  datatype Client = Client(
    joined: nat,
    read: nat,
    queue: seq<OutputFrame>,
    lagged: bool,
    minLive: U64,
    handshake: Option<Handshake>,
    early: seq<OutputFrame>,
    delivered: seq<OutputFrame>)

  predicate Encodable(f: OutputFrame) {
    |f.data| <= Codec.MAX_PAYLOAD_LEN
  }

  /** `send_binary_output` skips a frame the encoder refuses. */
  function OnWire(frames: seq<OutputFrame>): seq<OutputFrame> {
    if frames == [] then []
    else OnWire(frames[..|frames| - 1]) + if Encodable(frames[|frames| - 1]) then [frames[|frames| - 1]] else []
  }

  lemma {:induction false} OnWireMember(frames: seq<OutputFrame>, f: OutputFrame)
    ensures f in OnWire(frames) <==> f in frames && Encodable(f)
  {
    if frames != [] {
      OnWireMember(frames[..|frames| - 1], f);
      assert frames == frames[..|frames| - 1] + [frames[|frames| - 1]];
    }
  }

  /** `sent` counts the frames already broadcast. */
  datatype Link = Link(history: seq<OutputFrame>, ring: seq<OutputFrame>, sent: nat, client: Option<Client>)

  datatype Step =
    | Push(data: Bytes)
    | Broadcast
    | Subscribe
    | AttachFrame(lastSeen: Option<U64>)
    | Deliver

  function Latest(l: Link): U64 {
    if l.history == [] then 0 else l.history[|l.history| - 1].seqNo
  }

  predicate Possible(base: nat, l: Link, step: Step) {
    match step
    case Push(_) => l.sent == |l.history| && base + |l.history| + 1 < 0x1_0000_0000_0000_0000
    case Broadcast => l.sent < |l.history|
    case Subscribe => l.client.None?
    case AttachFrame(_) => l.client.Some? && l.client.value.handshake.None?
    case Deliver => l.client.Some? && l.client.value.queue != []
  }

  /** A full receiver loses its oldest frame. */
  function Fanout(c: Client, f: OutputFrame): Client {
    if |c.queue| >= FANOUT_CAPACITY then c.(queue := c.queue[1..] + [f], read := c.read + 1, lagged := true)
    else c.(queue := c.queue + [f])
  }

  /** The socket task's handling of `Attach`: no bookmark means no replay; otherwise the
      live floor is raised to the snapshot's latest seq and the replayed frames are sent. */
  function OnAttach(base: nat, l: Link, c: Client, lastSeen: Option<U64>): Client {
    var b := if lastSeen.Some? then lastSeen.value else 0;
    if b == 0 then c.(handshake := Some(Handshake(0, false, c.read, c.read, c.read)))
    else Answered(base, l, c, b, ReplaySince(l.ring, Latest(l), lastSeen))
  }

  function Answered(base: nat, l: Link, c: Client, b: U64, answer: Result<ReplayRange, WindowLost>): Client {
    var n := |l.history|;
    var floor := if c.minLive < Latest(l) then Latest(l) else c.minLive;
    match answer
    case Ok(range) =>
      c.(handshake := Some(Handshake(b, false, Min(Max(b as int - base, 0), n), n, c.read)),
         minLive := floor, delivered := c.delivered + range.frames)
    case Err(_) =>
      c.(handshake := Some(Handshake(b, true, n, n, c.read)), minLive := floor)
  }

  function OnDeliver(c: Client): Client
    requires c.queue != []
  {
    var f := c.queue[0];
    var c1 := c.(queue := c.queue[1..], read := c.read + 1);
    if f.seqNo <= c.minLive then c1
    else if c.handshake.None? then c1.(early := c.early + [f])
    else c1.(delivered := c.delivered + [f])
  }

  function Next(cfg: RingConfig, base: nat, l: Link, step: Step): Link
    requires Possible(base, l, step)
  {
    match step
    case Push(data) =>
      var f := OutputFrame((base + |l.history| + 1) as U64, data);
      l.(history := l.history + [f], ring := Evict(cfg, l.ring + [f]))
    case Broadcast =>
      l.(sent := l.sent + 1, client := if l.client.Some? then Some(Fanout(l.client.value, l.history[l.sent])) else None)
    case Subscribe => l.(client := Some(Client(l.sent, l.sent, [], false, 0, None, [], [])))
    case AttachFrame(lastSeen) => l.(client := Some(OnAttach(base, l, l.client.value, lastSeen)))
    case Deliver => l.(client := Some(OnDeliver(l.client.value)))
  }

  function RunOne(cfg: RingConfig, base: nat, l: Link, step: Step): Link {
    if Possible(base, l, step) then Next(cfg, base, l, step) else l
  }

  function Run(cfg: RingConfig, base: nat, l: Link, steps: seq<Step>): Link
    decreases |steps|
  {
    if steps == [] then l else Run(cfg, base, RunOne(cfg, base, l, steps[0]), steps[1..])
  }

  function Fresh(): Link {
    Link([], [], 0, None)
  }

  // ---------- invariants ----------

  ghost predicate LinkInv(cfg: RingConfig, base: nat, l: Link) {
    && IsWindow(cfg, l.history, l.ring)
    && Consecutive(l.history, base)
    && l.sent <= |l.history| <= l.sent + 1
  }

  ghost predicate Ascending(frames: seq<OutputFrame>, base: nat, below: nat) {
    && (forall i, j | 0 <= i < j < |frames| :: frames[i].seqNo < frames[j].seqNo)
    && (forall i | 0 <= i < |frames| :: frames[i].seqNo as int <= base + below)
  }

  /** How much of the history has reached the client's stream since the handshake. */
  function Seen(c: Client): nat {
    if c.handshake.None? then c.read else Max(c.read, c.handshake.value.floor)
  }

  ghost predicate ClientInv(base: nat, l: Link, c: Client) {
    && c.joined <= c.read <= l.sent <= |l.history|
    && c.queue == l.history[c.read..l.sent]
    && Ascending(c.delivered, base, Seen(c))
    && match c.handshake
       case None =>
         c.minLive == 0 && c.delivered == [] && (!c.lagged ==> c.early == l.history[c.joined..c.read])
       case Some(hs) =>
         && hs.start <= hs.floor <= |l.history|
         && c.joined <= hs.at <= c.read
         && (c.minLive as int == base + hs.floor || (c.minLive as int <= base + c.read && hs.floor <= c.read))
         && (!c.lagged ==> c.early == l.history[c.joined..hs.at])
         && (!c.lagged ==> c.delivered == l.history[hs.start..Seen(c)])
         && (0 < hs.bookmark && !hs.lost ==>
               hs.start == Min(Max(hs.bookmark as int - base, 0), hs.floor))
         && (hs.lost ==> hs.start == hs.floor)
  }

  ghost predicate Inv(cfg: RingConfig, base: nat, l: Link) {
    LinkInv(cfg, base, l) && (l.client.Some? ==> ClientInv(base, l, l.client.value))
  }

  lemma PushLinkInv(cfg: RingConfig, base: nat, l: Link, f: OutputFrame)
    requires LinkInv(cfg, base, l) && l.sent == |l.history| && f.seqNo as int == base + |l.history| + 1
    ensures LinkInv(cfg, base, l.(history := l.history + [f], ring := Evict(cfg, l.ring + [f])))
  {
    AppendShrinking(cfg, l.history, l.ring, f);
    EvictIsWindow(cfg, l.history + [f], l.ring + [f]);
  }

  lemma PushInv(cfg: RingConfig, base: nat, l: Link, data: Bytes)
    requires Inv(cfg, base, l) && Possible(base, l, Push(data))
    ensures Inv(cfg, base, Next(cfg, base, l, Push(data)))
  {
    var f := OutputFrame((base + |l.history| + 1) as U64, data);
    PushLinkInv(cfg, base, l, f);
    if l.client.Some? {
      HistoryGrows(base, l, Next(cfg, base, l, Push(data)), l.client.value);
    }
  }

  lemma HistoryGrows(base: nat, l: Link, l': Link, c: Client)
    requires ClientInv(base, l, c) && l.history <= l'.history && l'.sent == l.sent
    ensures ClientInv(base, l', c)
  {
    assert forall i: nat, j: nat | i <= j <= |l.history| :: l'.history[i..j] == l.history[i..j];
  }

  lemma BroadcastQueued(base: nat, l: Link, c: Client, queue: seq<OutputFrame>)
    requires ClientInv(base, l, c) && l.sent < |l.history| && queue == l.history[c.read..l.sent + 1]
    ensures ClientInv(base, l.(sent := l.sent + 1), c.(queue := queue))
  {
  }

  /** Once lagged, only order is still promised. */
  lemma BroadcastLagged(base: nat, l: Link, c: Client, queue: seq<OutputFrame>)
    requires ClientInv(base, l, c) && c.read < l.sent < |l.history| && queue == l.history[c.read + 1..l.sent + 1]
    ensures ClientInv(base, l.(sent := l.sent + 1), c.(queue := queue, read := c.read + 1, lagged := true))
  {
  }

  lemma BroadcastInv(base: nat, l: Link, c: Client)
    requires ClientInv(base, l, c) && l.sent < |l.history|
    ensures ClientInv(base, l.(sent := l.sent + 1), Fanout(c, l.history[l.sent]))
  {
    var f := l.history[l.sent];
    SliceSnoc(l.history, c.read, l.sent);
    if |c.queue| >= FANOUT_CAPACITY {
      assert c.queue[1..] + [f] == l.history[c.read + 1..l.sent + 1];
      BroadcastLagged(base, l, c, c.queue[1..] + [f]);
    } else {
      BroadcastQueued(base, l, c, c.queue + [f]);
    }
  }

  lemma AscendingSlice(history: seq<OutputFrame>, base: nat, i: nat, j: nat)
    requires Consecutive(history, base) && i <= j <= |history|
    ensures Ascending(history[i..j], base, j)
  {
  }

  lemma AscendingSnoc(frames: seq<OutputFrame>, base: nat, below: nat, f: OutputFrame)
    requires Ascending(frames, base, below) && f.seqNo as int > base + below
    ensures Ascending(frames + [f], base, f.seqNo as int - base)
  {
  }

  lemma SliceSnoc(history: seq<OutputFrame>, i: nat, j: nat)
    requires i <= j < |history|
    ensures history[i..j] + [history[j]] == history[i..j + 1]
  {
  }

  lemma DeliverEarly(base: nat, l: Link, c: Client)
    requires ClientInv(base, l, c) && c.queue != [] && Consecutive(l.history, base) && c.handshake.None?
    ensures ClientInv(base, l, OnDeliver(c))
  {
    assert c.queue[0] == l.history[c.read];
    assert c.queue[1..] == l.history[c.read + 1..l.sent];
    SliceSnoc(l.history, c.joined, c.read);
  }

  /** After the handshake the next broadcast frame is either below the floor and skipped, or
      exactly the next frame of the client's stream. */
  lemma DeliverLate(base: nat, l: Link, c: Client)
    requires ClientInv(base, l, c) && c.queue != [] && Consecutive(l.history, base) && c.handshake.Some?
    ensures ClientInv(base, l, OnDeliver(c))
  {
    var f, hs := c.queue[0], c.handshake.value;
    assert f == l.history[c.read] && f.seqNo as int == base + 1 + c.read;
    assert c.queue[1..] == l.history[c.read + 1..l.sent];
    if f.seqNo > c.minLive {
      assert Seen(c) == c.read && Seen(OnDeliver(c)) == c.read + 1;
      AscendingSnoc(c.delivered, base, c.read, f);
      SliceSnoc(l.history, hs.start, c.read);
    } else {
      assert Seen(OnDeliver(c)) == Seen(c);
    }
  }

  lemma DeliverInv(base: nat, l: Link, c: Client)
    requires ClientInv(base, l, c) && c.queue != [] && Consecutive(l.history, base)
    ensures ClientInv(base, l, OnDeliver(c))
  {
    if c.handshake.None? {
      DeliverEarly(base, l, c);
    } else {
      DeliverLate(base, l, c);
    }
  }

  /** What the handshake sees in the ring, in terms of the history. */
  lemma Snapshot(cfg: RingConfig, base: nat, l: Link, b: U64)
    requires LinkInv(cfg, base, l) && b > 0
    ensures l.history != [] ==> Latest(l) as int == base + |l.history|
    ensures var r := ReplaySince(l.ring, Latest(l), Some(b));
      r.Ok? ==> r.value.frames == l.history[Min(Max(b as int - base, 0), |l.history|)..|l.history|]
  {
    if l.history != [] {
      ReplayAgreesWithHistory(cfg, l.history, l.ring, base, Some(b));
      NewerThanIsSuffix(l.history, base, b);
      TailIsSlice(l.history, Min(Max(b as int - base, 0), |l.history|));
    }
  }

  lemma TailIsSlice(frames: seq<OutputFrame>, k: nat)
    requires k <= |frames|
    ensures frames[k..] == frames[k..|frames|]
  {
  }

  lemma HandshakeInv(base: nat, l: Link, c: Client, hs: Handshake, minLive: U64)
    requires Consecutive(l.history, base) && ClientInv(base, l, c) && c.handshake.None?
    requires hs.start <= hs.floor && c.read <= hs.floor <= |l.history| && hs.at == c.read
    requires minLive as int == base + hs.floor || (minLive == 0 && hs.floor == c.read)
    requires 0 < hs.bookmark && !hs.lost ==> hs.start == Min(Max(hs.bookmark as int - base, 0), hs.floor)
    requires hs.lost ==> hs.start == hs.floor
    ensures var replayed := l.history[hs.start..hs.floor];
      ClientInv(base, l, c.(handshake := Some(hs), minLive := minLive, delivered := replayed))
  {
    AscendingSlice(l.history, base, hs.start, hs.floor);
  }

  lemma AnsweredInv(base: nat, l: Link, c: Client, b: U64, answer: Result<ReplayRange, WindowLost>)
    requires Consecutive(l.history, base) && ClientInv(base, l, c) && c.handshake.None? && b > 0
    requires l.history != [] ==> Latest(l) as int == base + |l.history|
    requires answer.Ok? ==> answer.value.frames == l.history[Min(Max(b as int - base, 0), |l.history|)..|l.history|]
    ensures ClientInv(base, l, Answered(base, l, c, b, answer))
  {
    var n := |l.history|;
    var start := if answer.Ok? then Min(Max(b as int - base, 0), n) else n;
    HandshakeInv(base, l, c, Handshake(b, answer.Err?, start, n, c.read), Latest(l));
    assert [] + l.history[start..n] == l.history[start..n];
  }

  lemma ResumeInv(cfg: RingConfig, base: nat, l: Link, c: Client, b: U64)
    requires LinkInv(cfg, base, l) && ClientInv(base, l, c) && c.handshake.None? && b > 0
    ensures ClientInv(base, l, Answered(base, l, c, b, ReplaySince(l.ring, Latest(l), Some(b))))
  {
    Snapshot(cfg, base, l, b);
    AnsweredInv(base, l, c, b, ReplaySince(l.ring, Latest(l), Some(b)));
  }

  lemma NoBookmarkInv(base: nat, l: Link, c: Client)
    requires Consecutive(l.history, base) && ClientInv(base, l, c) && c.handshake.None?
    ensures ClientInv(base, l, c.(handshake := Some(Handshake(0, false, c.read, c.read, c.read))))
  {
    HandshakeInv(base, l, c, Handshake(0, false, c.read, c.read, c.read), 0);
  }

  lemma OnAttachInv(cfg: RingConfig, base: nat, l: Link, c: Client, lastSeen: Option<U64>)
    requires LinkInv(cfg, base, l) && ClientInv(base, l, c) && c.handshake.None?
    ensures ClientInv(base, l, OnAttach(base, l, c, lastSeen))
  {
    if lastSeen.Some? && lastSeen.value > 0 {
      ResumeInv(cfg, base, l, c, lastSeen.value);
    } else {
      NoBookmarkInv(base, l, c);
    }
  }

  lemma NextInv(cfg: RingConfig, base: nat, l: Link, step: Step)
    requires Inv(cfg, base, l) && Possible(base, l, step)
    ensures Inv(cfg, base, Next(cfg, base, l, step))
  {
    match step
    case Push(data) => PushInv(cfg, base, l, data);
    case Broadcast =>
      if l.client.Some? {
        BroadcastInv(base, l, l.client.value);
      }
    case Subscribe =>
    case AttachFrame(lastSeen) => OnAttachInv(cfg, base, l, l.client.value, lastSeen);
    case Deliver => DeliverInv(base, l, l.client.value);
  }

  lemma {:induction false} RunInv(cfg: RingConfig, base: nat, l: Link, steps: seq<Step>)
    requires Inv(cfg, base, l)
    ensures Inv(cfg, base, Run(cfg, base, l, steps))
    decreases |steps|
  {
    if steps != [] {
      if Possible(base, l, steps[0]) {
        NextInv(cfg, base, l, steps[0]);
        RunInv(cfg, base, Next(cfg, base, l, steps[0]), steps[1..]);
      } else {
        RunInv(cfg, base, l, steps[1..]);
      }
    }
  }

  ghost predicate Reachable(cfg: RingConfig, base: nat, l: Link) {
    exists steps: seq<Step> :: l == Run(cfg, base, Fresh(), steps)
  }

  lemma ReachableInv(cfg: RingConfig, base: nat, l: Link)
    requires Reachable(cfg, base, l)
    ensures Inv(cfg, base, l)
  {
    var steps :| l == Run(cfg, base, Fresh(), steps);
    RunInv(cfg, base, Fresh(), steps);
  }

  // ---------- the guarantees ----------

  /** No-hole attach. For every interleaving: a client that resumed from bookmark `b` inside
      the window and never lagged has, since the handshake, been given exactly the frames of
      this runtime after `b` in order, each once, up to a point; whatever it still lacks is the
      rest of the history, and once its receiver has read everything it lacks none of it. */
  lemma ResumeHasNoHole(cfg: RingConfig, base: nat, l: Link)
    requires Reachable(cfg, base, l) && l.client.Some? && l.client.value.handshake.Some?
    requires var hs := l.client.value.handshake.value; 0 < hs.bookmark && !hs.lost
    requires !l.client.value.lagged
    ensures var c := l.client.value;
      var hs := c.handshake.value;
      && hs.start <= Seen(c) <= |l.history|
      && c.delivered == l.history[hs.start..Seen(c)]
      && hs.start == Min(Max(hs.bookmark as int - base, 0), hs.floor)
      && (c.read == |l.history| ==> c.delivered == l.history[hs.start..])
  {
    ReachableInv(cfg, base, l);
  }

  /** After a lost window, or with no bookmark, the live stream is still gap-free from the
      announced point on. */
  lemma LiveStreamHasNoHole(cfg: RingConfig, base: nat, l: Link)
    requires Reachable(cfg, base, l) && l.client.Some? && !l.client.value.lagged
    ensures var c := l.client.value;
      match c.handshake
      case None => c.joined <= c.read <= |l.history| && c.early == l.history[c.joined..c.read]
      case Some(hs) =>
        && c.joined <= hs.at && hs.start <= Seen(c) <= |l.history| && hs.at <= |l.history|
        && c.early == l.history[c.joined..hs.at]
        && c.delivered == l.history[hs.start..Seen(c)]
        && (hs.lost ==> hs.start == hs.floor)
  {
    ReachableInv(cfg, base, l);
  }

  /** Lagging may lose frames but never reorders or repeats one: since the handshake the
      client's seqs strictly increase. */
  lemma DeliveredAscends(cfg: RingConfig, base: nat, l: Link)
    requires Reachable(cfg, base, l) && l.client.Some?
    ensures forall i, j | 0 <= i < j < |l.client.value.delivered| ::
              l.client.value.delivered[i].seqNo < l.client.value.delivered[j].seqNo
  {
    ReachableInv(cfg, base, l);
  }

  // ---------- the guarantees by seq ----------

  /** The client has been sent the frame with seq `n`. */
  ghost predicate Received(frames: seq<OutputFrame>, n: nat) {
    exists f :: f in OnWire(frames) && f.seqNo as int == n
  }

  lemma SliceReceives(history: seq<OutputFrame>, base: nat, start: nat, n: nat)
    requires Consecutive(history, base) && start <= |history| && base + start < n <= base + |history|
    ensures Received(history[start..], n) <==> Encodable(history[n - base - 1])
  {
    var f, tail := history[n - base - 1], history[start..];
    assert tail[n - base - 1 - start] == f;
    OnWireMember(tail, f);
    if g :| g in OnWire(tail) && g.seqNo as int == n {
      OnWireMember(tail, g);
      var i :| 0 <= i < |tail| && tail[i] == g;
      assert tail[i] == history[start + i];
    }
  }

  lemma SliceAbove(history: seq<OutputFrame>, base: nat, start: nat, f: OutputFrame)
    requires Consecutive(history, base) && start <= |history| && f in OnWire(history[start..])
    ensures f.seqNo as int > base + start
  {
    var tail := history[start..];
    OnWireMember(tail, f);
    var i :| 0 <= i < |tail| && tail[i] == f;
    assert tail[i] == history[start + i];
  }

  lemma SliceMisses(history: seq<OutputFrame>, base: nat, start: nat, n: nat)
    requires Consecutive(history, base) && start <= |history| && n <= base + start
    ensures !Received(history[start..], n)
  {
    forall f | f in OnWire(history[start..]) ensures f.seqNo as int > n {
      SliceAbove(history, base, start, f);
    }
  }

  /** A client that resumed, never lagged and has caught up has been sent a newer seq exactly when
      this runtime stamped it and the encoder takes it. */
  lemma ResumedReceivesIff(cfg: RingConfig, base: nat, l: Link, n: nat)
    requires Reachable(cfg, base, l) && l.client.Some? && l.client.value.handshake.Some?
    requires var hs := l.client.value.handshake.value; 0 < hs.bookmark as int < n && !hs.lost
    requires !l.client.value.lagged && l.client.value.read == |l.history| && l.history != []
    requires n <= Latest(l) as int
    ensures Latest(l) as int == base + |l.history|
    ensures Received(l.client.value.delivered, n) <==> base < n && Encodable(l.history[n - base - 1])
  {
    ReachableInv(cfg, base, l);
    ResumeHasNoHole(cfg, base, l);
    var start := l.client.value.handshake.value.start;
    if base + start < n {
      SliceReceives(l.history, base, start, n);
    } else {
      SliceMisses(l.history, base, start, n);
    }
  }

  /** Every seq in `b+1..=latest` has been sent. */
  ghost predicate ReceivedAll(frames: seq<OutputFrame>, b: nat, latest: nat) {
    forall n: nat | b < n <= latest :: Received(frames, n)
  }

  ghost predicate EncodableAfter(history: seq<OutputFrame>, b: nat) {
    forall i | 0 <= i < |history| && history[i].seqNo as int > b :: Encodable(history[i])
  }

  lemma ReceivedAllIff(history: seq<OutputFrame>, base: nat, frames: seq<OutputFrame>, b: nat)
    requires Consecutive(history, base) && history != []
    requires forall n: nat | b < n <= base + |history| ::
      Received(frames, n) <==> base < n && Encodable(history[n - base - 1])
    ensures ReceivedAll(frames, b, base + |history|) <==> base <= b && EncodableAfter(history, b)
  {
    if b < base {
      assert !Received(frames, b + 1);
    }
    if ReceivedAll(frames, b, base + |history|) {
      forall i | 0 <= i < |history| && history[i].seqNo as int > b ensures Encodable(history[i]) {
        assert Received(frames, base + 1 + i);
      }
    } else {
      var n: nat :| b < n <= base + |history| && !Received(frames, n);
      if base < n {
        assert history[n - base - 1].seqNo as int == n;
      }
    }
  }

  /** Such a client lacks no seq after its bookmark if and only if the bookmark is not older than
      this runtime and the encoder takes every frame after it. The seq counter outlives a
      runtime but the ring does not, and an empty ring answers any bookmark without a loss. */
  lemma ResumeCompleteIff(cfg: RingConfig, base: nat, l: Link)
    requires Reachable(cfg, base, l) && l.client.Some? && l.client.value.handshake.Some?
    requires var hs := l.client.value.handshake.value; 0 < hs.bookmark && !hs.lost
    requires !l.client.value.lagged && l.client.value.read == |l.history| && l.history != []
    ensures var b := l.client.value.handshake.value.bookmark as nat;
      ReceivedAll(l.client.value.delivered, b, Latest(l) as nat) <==> base <= b && EncodableAfter(l.history, b)
  {
    ReachableInv(cfg, base, l);
    var b, frames := l.client.value.handshake.value.bookmark as nat, l.client.value.delivered;
    assert Latest(l) as int == base + |l.history|;
    forall n: nat | b < n <= base + |l.history|
      ensures Received(frames, n) <==> base < n && Encodable(l.history[n - base - 1])
    {
      ResumedReceivesIff(cfg, base, l, n);
    }
    ReceivedAllIff(l.history, base, frames, b);
  }

  // ---------- frames sent twice ----------

  /** `f` is the history's frame with that seq, among the first `cut`. */
  ghost predicate Among(history: seq<OutputFrame>, base: nat, f: OutputFrame, cut: nat)
    requires cut <= |history|
  {
    base < f.seqNo as int <= base + cut && history[f.seqNo as int - base - 1] == f
  }

  /** How far the receiver had read before the handshake. */
  function EarlyCut(c: Client): nat {
    if c.handshake.None? then c.read else c.handshake.value.at
  }

  /** Lagged or not: `early` comes from before the handshake, and `delivered` is the replay up to
      the floor followed by frames above it. */
  ghost predicate SplitInv(base: nat, l: Link, c: Client)
    requires ClientInv(base, l, c)
  {
    && (forall i | 0 <= i < |c.early| :: Among(l.history, base, c.early[i], EarlyCut(c)))
    && match c.handshake
       case None => true
       case Some(hs) =>
         && hs.at <= hs.floor
         && (hs.bookmark == 0 ==> hs.start == hs.floor)
         && hs.floor - hs.start <= |c.delivered|
         && c.delivered[..hs.floor - hs.start] == l.history[hs.start..hs.floor]
         && (forall i | hs.floor - hs.start <= i < |c.delivered| :: c.delivered[i].seqNo as int > base + hs.floor)
  }

  lemma SplitGrows(base: nat, l: Link, l': Link, c: Client)
    requires ClientInv(base, l, c) && SplitInv(base, l, c) && ClientInv(base, l', c) && l.history <= l'.history
    ensures SplitInv(base, l', c)
  {
    forall i | 0 <= i < |c.early| ensures Among(l'.history, base, c.early[i], EarlyCut(c)) {
      assert Among(l.history, base, c.early[i], EarlyCut(c));
    }
  }

  lemma BroadcastSplit(base: nat, l: Link, l': Link, c: Client, f: OutputFrame)
    requires ClientInv(base, l, c) && SplitInv(base, l, c) && l'.history == l.history
    requires ClientInv(base, l', Fanout(c, f))
    ensures SplitInv(base, l', Fanout(c, f))
  {
    var c' := Fanout(c, f);
    forall i | 0 <= i < |c'.early| ensures Among(l'.history, base, c'.early[i], EarlyCut(c')) {
      assert Among(l.history, base, c.early[i], EarlyCut(c));
    }
  }

  lemma DeliverEarlySplit(base: nat, l: Link, c: Client)
    requires ClientInv(base, l, c) && SplitInv(base, l, c) && Consecutive(l.history, base)
    requires c.queue != [] && c.handshake.None? && ClientInv(base, l, OnDeliver(c))
    ensures SplitInv(base, l, OnDeliver(c))
  {
    var c', f := OnDeliver(c), c.queue[0];
    assert f == l.history[c.read];
    forall i | 0 <= i < |c'.early| ensures Among(l.history, base, c'.early[i], c'.read) {
      if i < |c.early| {
        assert Among(l.history, base, c.early[i], c.read);
      }
    }
  }

  /** The split depends on what was handed over, not on the queue. */
  lemma SameHandedOverSplit(base: nat, l: Link, c: Client, c': Client)
    requires ClientInv(base, l, c) && SplitInv(base, l, c) && ClientInv(base, l, c') && c.handshake.Some?
    requires c'.handshake == c.handshake && c'.early == c.early && c'.delivered == c.delivered
    ensures SplitInv(base, l, c')
  {
    assert EarlyCut(c') == EarlyCut(c);
  }

  lemma HandedOverSplit(base: nat, l: Link, c: Client, c': Client, f: OutputFrame)
    requires ClientInv(base, l, c) && SplitInv(base, l, c) && ClientInv(base, l, c') && c.handshake.Some?
    requires c'.handshake == c.handshake && c'.early == c.early && c'.delivered == c.delivered + [f]
    requires f.seqNo as int > base + c.handshake.value.floor
    ensures SplitInv(base, l, c')
  {
    var k := c.handshake.value.floor - c.handshake.value.start;
    assert c'.delivered[..k] == c.delivered[..k];
    assert EarlyCut(c') == EarlyCut(c);
  }

  lemma DeliverLateSplit(base: nat, l: Link, c: Client)
    requires ClientInv(base, l, c) && SplitInv(base, l, c) && Consecutive(l.history, base)
    requires c.queue != [] && c.handshake.Some? && ClientInv(base, l, OnDeliver(c))
    ensures SplitInv(base, l, OnDeliver(c))
  {
    var f := c.queue[0];
    assert f == l.history[c.read] && f.seqNo as int == base + 1 + c.read;
    if f.seqNo > c.minLive {
      HandedOverSplit(base, l, c, OnDeliver(c), f);
    } else {
      SameHandedOverSplit(base, l, c, OnDeliver(c));
    }
  }

  lemma HandshakeSplit(base: nat, l: Link, c: Client, hs: Handshake, minLive: U64, replayed: seq<OutputFrame>)
    requires ClientInv(base, l, c) && SplitInv(base, l, c) && c.handshake.None?
    requires hs.start <= hs.floor <= |l.history| && hs.at == c.read <= hs.floor
    requires hs.bookmark == 0 ==> hs.start == hs.floor
    requires replayed == l.history[hs.start..hs.floor]
    requires ClientInv(base, l, c.(handshake := Some(hs), minLive := minLive, delivered := replayed))
    ensures SplitInv(base, l, c.(handshake := Some(hs), minLive := minLive, delivered := replayed))
  {
    var c' := c.(handshake := Some(hs), minLive := minLive, delivered := replayed);
    assert replayed[..hs.floor - hs.start] == replayed;
    assert EarlyCut(c') == EarlyCut(c) && c'.early == c.early;
  }

  lemma AnsweredSplit(base: nat, l: Link, c: Client, b: U64, answer: Result<ReplayRange, WindowLost>)
    requires Consecutive(l.history, base) && ClientInv(base, l, c) && SplitInv(base, l, c)
    requires c.handshake.None? && b > 0
    requires l.history != [] ==> Latest(l) as int == base + |l.history|
    requires answer.Ok? ==> answer.value.frames == l.history[Min(Max(b as int - base, 0), |l.history|)..|l.history|]
    ensures var c' := Answered(base, l, c, b, answer);
      ClientInv(base, l, c') && SplitInv(base, l, c')
  {
    AnsweredInv(base, l, c, b, answer);
    var n := |l.history|;
    var start := if answer.Ok? then Min(Max(b as int - base, 0), n) else n;
    var replayed := l.history[start..n];
    assert [] + replayed == replayed;
    var c' := Answered(base, l, c, b, answer);
    assert c' == c.(handshake := Some(Handshake(b, answer.Err?, start, n, c.read)),
                    minLive := c'.minLive, delivered := replayed);
    HandshakeSplit(base, l, c, Handshake(b, answer.Err?, start, n, c.read), c'.minLive, replayed);
  }

  lemma ResumeSplit(cfg: RingConfig, base: nat, l: Link, c: Client, b: U64)
    requires LinkInv(cfg, base, l) && ClientInv(base, l, c) && SplitInv(base, l, c) && c.handshake.None? && b > 0
    ensures var c' := Answered(base, l, c, b, ReplaySince(l.ring, Latest(l), Some(b)));
      ClientInv(base, l, c') && SplitInv(base, l, c')
  {
    Snapshot(cfg, base, l, b);
    AnsweredSplit(base, l, c, b, ReplaySince(l.ring, Latest(l), Some(b)));
  }

  lemma NoBookmarkSplit(base: nat, l: Link, c: Client)
    requires Consecutive(l.history, base) && ClientInv(base, l, c) && SplitInv(base, l, c) && c.handshake.None?
    ensures var c' := c.(handshake := Some(Handshake(0, false, c.read, c.read, c.read)));
      ClientInv(base, l, c') && SplitInv(base, l, c')
  {
    NoBookmarkInv(base, l, c);
    HandshakeSplit(base, l, c, Handshake(0, false, c.read, c.read, c.read), c.minLive, []);
  }

  lemma OnAttachSplit(cfg: RingConfig, base: nat, l: Link, c: Client, lastSeen: Option<U64>)
    requires LinkInv(cfg, base, l) && ClientInv(base, l, c) && SplitInv(base, l, c) && c.handshake.None?
    ensures var c' := OnAttach(base, l, c, lastSeen);
      ClientInv(base, l, c') && SplitInv(base, l, c')
  {
    if lastSeen.Some? && lastSeen.value > 0 {
      ResumeSplit(cfg, base, l, c, lastSeen.value);
    } else {
      NoBookmarkSplit(base, l, c);
    }
  }

  lemma DeliverSplit(base: nat, l: Link, c: Client)
    requires ClientInv(base, l, c) && SplitInv(base, l, c) && Consecutive(l.history, base) && c.queue != []
    ensures ClientInv(base, l, OnDeliver(c)) && SplitInv(base, l, OnDeliver(c))
  {
    DeliverInv(base, l, c);
    if c.handshake.None? {
      DeliverEarlySplit(base, l, c);
    } else {
      DeliverLateSplit(base, l, c);
    }
  }

  lemma PushSplit(cfg: RingConfig, base: nat, l: Link, data: Bytes)
    requires Inv(cfg, base, l) && Possible(base, l, Push(data))
    requires l.client.Some? && SplitInv(base, l, l.client.value)
    ensures var l' := Next(cfg, base, l, Push(data));
      ClientInv(base, l', l.client.value) && SplitInv(base, l', l.client.value)
  {
    var l' := Next(cfg, base, l, Push(data));
    HistoryGrows(base, l, l', l.client.value);
    SplitGrows(base, l, l', l.client.value);
  }

  /** The whole invariant, with the split of a connected client. */
  ghost predicate WholeInv(cfg: RingConfig, base: nat, l: Link) {
    Inv(cfg, base, l) && (l.client.Some? ==> SplitInv(base, l, l.client.value))
  }

  lemma SameLinkSplit(base: nat, l: Link, l': Link, c: Client)
    requires l'.history == l.history && ClientInv(base, l, c) && SplitInv(base, l, c) && ClientInv(base, l', c)
    ensures SplitInv(base, l', c)
  {
    SplitGrows(base, l, l', c);
  }

  lemma BroadcastWhole(cfg: RingConfig, base: nat, l: Link)
    requires WholeInv(cfg, base, l) && l.sent < |l.history| && l.client.Some?
    requires Inv(cfg, base, Next(cfg, base, l, Broadcast))
    ensures WholeInv(cfg, base, Next(cfg, base, l, Broadcast))
  {
    BroadcastSplit(base, l, Next(cfg, base, l, Broadcast), l.client.value, l.history[l.sent]);
  }

  lemma ClientWhole(cfg: RingConfig, base: nat, l: Link, c: Client)
    requires ClientInv(base, l, c) && SplitInv(base, l, c) && Inv(cfg, base, l.(client := Some(c)))
    ensures WholeInv(cfg, base, l.(client := Some(c)))
  {
    SameLinkSplit(base, l, l.(client := Some(c)), c);
  }

  lemma NextWhole(cfg: RingConfig, base: nat, l: Link, step: Step)
    requires WholeInv(cfg, base, l) && Possible(base, l, step)
    ensures WholeInv(cfg, base, Next(cfg, base, l, step))
  {
    NextInv(cfg, base, l, step);
    match step
    case Push(data) =>
      if l.client.Some? {
        PushSplit(cfg, base, l, data);
      }
    case Broadcast =>
      if l.client.Some? {
        BroadcastWhole(cfg, base, l);
      }
    case Subscribe =>
    case AttachFrame(lastSeen) =>
      OnAttachSplit(cfg, base, l, l.client.value, lastSeen);
      ClientWhole(cfg, base, l, OnAttach(base, l, l.client.value, lastSeen));
    case Deliver =>
      DeliverSplit(base, l, l.client.value);
      ClientWhole(cfg, base, l, OnDeliver(l.client.value));
  }

  lemma {:induction false} RunWhole(cfg: RingConfig, base: nat, l: Link, steps: seq<Step>)
    requires WholeInv(cfg, base, l)
    ensures WholeInv(cfg, base, Run(cfg, base, l, steps))
    decreases |steps|
  {
    if steps != [] {
      if Possible(base, l, steps[0]) {
        NextWhole(cfg, base, l, steps[0]);
      }
      RunWhole(cfg, base, RunOne(cfg, base, l, steps[0]), steps[1..]);
    }
  }

  lemma ReachableSplit(cfg: RingConfig, base: nat, l: Link)
    requires Reachable(cfg, base, l) && l.client.Some?
    ensures Inv(cfg, base, l) && SplitInv(base, l, l.client.value)
  {
    var steps :| l == Run(cfg, base, Fresh(), steps);
    RunWhole(cfg, base, Fresh(), steps);
  }

  lemma InSliceIff(history: seq<OutputFrame>, base: nat, f: OutputFrame, start: nat, floor: nat)
    requires Consecutive(history, base) && start <= floor <= |history| && Among(history, base, f, floor)
    ensures f in history[start..floor] <==> base + start < f.seqNo as int
  {
    var slice, i := history[start..floor], f.seqNo as int - base - 1;
    if start <= i {
      assert slice[i - start] == f;
    }
    if x :| 0 <= x < |slice| && slice[x] == f {
      assert slice[x] == history[start + x];
    }
  }

  /** A frame forwarded before the handshake is handed over again exactly when the client
      resumed from an older bookmark inside the window, also for a client that lagged. */
  lemma HandedOverAgainIff(cfg: RingConfig, base: nat, l: Link, f: OutputFrame)
    requires Reachable(cfg, base, l) && l.client.Some? && l.client.value.handshake.Some?
    requires f in l.client.value.early
    ensures var hs := l.client.value.handshake.value;
      f in l.client.value.delivered <==> 0 < hs.bookmark < f.seqNo && !hs.lost
  {
    ReachableSplit(cfg, base, l);
    var c := l.client.value;
    var hs := c.handshake.value;
    var k := hs.floor - hs.start;
    assert Among(l.history, base, f, hs.at);
    InSliceIff(l.history, base, f, hs.start, hs.floor);
    assert f in c.delivered <==> f in c.delivered[..k] by {
      if x :| 0 <= x < |c.delivered| && c.delivered[x] == f {
        assert x < k && c.delivered[..k][x] == f;
      }
    }
  }

  /** The floor does not cover frames forwarded before the client's `Attach` frame arrived: over
      the whole connection some frame is sent twice exactly when the client resumed inside the
      window and a frame newer than its bookmark had already been sent. For a client that never
      lagged that is a matter of positions alone. */
  lemma RepeatedIffDeliveredBeforeHandshake(cfg: RingConfig, base: nat, l: Link)
    requires Reachable(cfg, base, l) && l.client.Some? && l.client.value.handshake.Some?
    ensures var c := l.client.value;
      var hs := c.handshake.value;
      (exists f :: f in OnWire(c.early) && f in OnWire(c.delivered))
      <==> 0 < hs.bookmark && !hs.lost && (exists f :: f in OnWire(c.early) && f.seqNo > hs.bookmark)
    ensures var c := l.client.value;
      var hs := c.handshake.value;
      !c.lagged && 0 < hs.bookmark ==>
        ((exists f :: f in c.early && f in c.delivered) <==> Max(c.joined, hs.start) < hs.at)
  {
    ReachableInv(cfg, base, l);
    var c := l.client.value;
    var hs := c.handshake.value;
    forall f | f in OnWire(c.early)
      ensures f in OnWire(c.delivered) <==> 0 < hs.bookmark < f.seqNo && !hs.lost
    {
      OnWireMember(c.early, f);
      OnWireMember(c.delivered, f);
      HandedOverAgainIff(cfg, base, l, f);
    }
    if !c.lagged && 0 < hs.bookmark {
      SlicesMeetIff(l.history, base, c.joined, hs.at, hs.start, Seen(c));
    }
  }

  // ---------- lag ----------

  /** A receiver holds at most 256 frames, and a lagged client joined more broadcasts ago. */
  ghost predicate LagInv(l: Link) {
    l.client.Some? ==>
      && |l.client.value.queue| <= 256
      && l.client.value.joined <= l.client.value.read <= l.sent
      && |l.client.value.queue| == l.sent - l.client.value.read
      && (l.client.value.lagged ==> l.sent - l.client.value.joined > 256)
  }

  lemma NextLag(cfg: RingConfig, base: nat, l: Link, step: Step)
    requires LagInv(l) && Possible(base, l, step)
    ensures LagInv(Next(cfg, base, l, step))
  {
  }

  lemma {:induction false} RunLag(cfg: RingConfig, base: nat, l: Link, steps: seq<Step>)
    requires LagInv(l)
    ensures LagInv(Run(cfg, base, l, steps))
    decreases |steps|
  {
    if steps != [] {
      if Possible(base, l, steps[0]) {
        NextLag(cfg, base, l, steps[0]);
      }
      RunLag(cfg, base, RunOne(cfg, base, l, steps[0]), steps[1..]);
    }
  }

  /** A receiver never holds more than 256 frames, and a client loses nothing to lag while at most
      256 frames have been broadcast since it joined, however slowly it reads. */
  lemma NoLagWithin256(cfg: RingConfig, base: nat, l: Link)
    requires Reachable(cfg, base, l) && l.client.Some?
    ensures |l.client.value.queue| <= 256
    ensures l.sent <= l.client.value.joined + 256 ==> !l.client.value.lagged
  {
    var steps :| l == Run(cfg, base, Fresh(), steps);
    RunLag(cfg, base, Fresh(), steps);
  }

  // ---------- concrete runs ----------

  lemma RunCons(cfg: RingConfig, base: nat, l: Link, step: Step, rest: seq<Step>)
    ensures Run(cfg, base, l, [step] + rest) == Run(cfg, base, RunOne(cfg, base, l, step), rest)
  {
    assert ([step] + rest)[1..] == rest;
  }

  /** Frame 1 pushed and broadcast, then a client that is sent frame 2 before its `Attach`. */
  function EagerSteps(rest: seq<Step>, x: Bytes, y: Bytes): seq<Step> {
    [Push(x)] + ([Broadcast] + ([Subscribe] + ([Push(y)] + ([Broadcast] + ([Deliver] + rest)))))
  }

  function EagerLink(cfg: RingConfig, x: Bytes, y: Bytes): Link {
    var f1, f2 := OutputFrame(1, x), OutputFrame(2, y);
    Link([f1, f2], Evict(cfg, Evict(cfg, [f1]) + [f2]), 2,
         Some(Client(1, 2, [], false, 0, None, [f2], [])))
  }

  lemma EagerRun(cfg: RingConfig, x: Bytes, y: Bytes, rest: seq<Step>)
    ensures Run(cfg, 0, Fresh(), EagerSteps(rest, x, y)) == Run(cfg, 0, EagerLink(cfg, x, y), rest)
  {
    var f1, f2 := OutputFrame(1, x), OutputFrame(2, y);
    var l1 := RunOne(cfg, 0, Fresh(), Push(x));
    assert [] + [f1] == [f1];
    assert l1 == Link([f1], Evict(cfg, [f1]), 0, None);
    var l2 := RunOne(cfg, 0, l1, Broadcast);
    var l3 := RunOne(cfg, 0, l2, Subscribe);
    var c := Client(1, 1, [], false, 0, None, [], []);
    assert l3 == l1.(sent := 1, client := Some(c));
    var l4 := RunOne(cfg, 0, l3, Push(y));
    assert [f1] + [f2] == [f1, f2];
    assert l4 == Link([f1, f2], Evict(cfg, l1.ring + [f2]), 1, Some(c));
    var l5 := RunOne(cfg, 0, l4, Broadcast);
    assert [] + [f2] == [f2];
    assert l5 == l4.(sent := 2, client := Some(c.(queue := [f2])));
    var l6 := RunOne(cfg, 0, l5, Deliver);
    assert [f2][1..] == [];
    assert l6 == EagerLink(cfg, x, y);
    RunCons(cfg, 0, l5, Deliver, rest);
    RunCons(cfg, 0, l4, Broadcast, [Deliver] + rest);
    RunCons(cfg, 0, l3, Push(y), [Broadcast] + ([Deliver] + rest));
    RunCons(cfg, 0, l2, Subscribe, [Push(y)] + ([Broadcast] + ([Deliver] + rest)));
    RunCons(cfg, 0, l1, Broadcast, [Subscribe] + ([Push(y)] + ([Broadcast] + ([Deliver] + rest))));
    RunCons(cfg, 0, Fresh(), Push(x),
            [Broadcast] + ([Subscribe] + ([Push(y)] + ([Broadcast] + ([Deliver] + rest)))));
  }

  lemma LastSlice(history: seq<OutputFrame>)
    requires history != []
    ensures history[|history| - 1..|history|] == [history[|history| - 1]]
  {
  }

  /** A bookmark one frame behind is always answered with that frame: the ring keeps its last. */
  lemma LastFrameReplayed(cfg: RingConfig, base: nat, l: Link, b: U64)
    requires LinkInv(cfg, base, l) && l.history != [] && b > 0 && b as int + 1 == Latest(l) as int
    ensures var r := ReplaySince(l.ring, Latest(l), Some(b));
      r.Ok? && r.value.frames == [l.history[|l.history| - 1]]
  {
    WindowIsConsecutive(cfg, l.history, l.ring, base);
    assert l.ring[|l.ring| - 1].seqNo as int == b as int + 1;
    assert Retains(l.ring, b as nat + 1);
    WindowLostIffNextFrameEvicted(cfg, l.history, l.ring, base, Some(b));
    Snapshot(cfg, base, l, b);
    LastSlice(l.history);
  }

  lemma EagerInv(cfg: RingConfig, x: Bytes, y: Bytes)
    ensures LinkInv(cfg, 0, EagerLink(cfg, x, y))
  {
    EagerRun(cfg, x, y, []);
    ReachableInv(cfg, 0, EagerLink(cfg, x, y));
  }

  lemma EagerReplay(cfg: RingConfig, x: Bytes, y: Bytes)
    ensures var r := ReplaySince(EagerLink(cfg, x, y).ring, 2, Some(1));
      r.Ok? && r.value.frames == [OutputFrame(2, y)]
  {
    EagerInv(cfg, x, y);
    LastFrameReplayed(cfg, 0, EagerLink(cfg, x, y), 1);
  }

  /** It happens, for every ring configuration: the client resumes from frame 1 after frame 2 was
      already forwarded to it, and is sent frame 2 a second time. */
  lemma SecondFrameSentTwice(cfg: RingConfig, x: Bytes, y: Bytes)
    ensures var l := Run(cfg, 0, Fresh(), EagerSteps([AttachFrame(Some(1))], x, y));
      && l.client.Some? && !l.client.value.lagged
      && l.client.value.early == [OutputFrame(2, y)] && l.client.value.delivered == [OutputFrame(2, y)]
  {
    EagerReplay(cfg, x, y);
    EagerRun(cfg, x, y, [AttachFrame(Some(1))]);
    RunCons(cfg, 0, EagerLink(cfg, x, y), AttachFrame(Some(1)), []);
  }

  /** A client whose bookmark is older than this runtime attaches before its first frame. */
  function StaleSteps(b: U64, data: Bytes): seq<Step> {
    [Subscribe] + ([AttachFrame(Some(b))] + ([Push(data)] + ([Broadcast] + [Deliver])))
  }

  /** No window loss is reported and the client lags behind nothing, but of the seqs after its
      bookmark it is sent only this runtime's first: those in between never arrive. */
  lemma StaleBookmarkLeavesHole(cfg: RingConfig, base: nat, b: U64, data: Bytes)
    requires 0 < b as int < base && base + 1 < 0x1_0000_0000_0000_0000
    ensures var l := Run(cfg, base, Fresh(), StaleSteps(b, data));
      && l.client.Some? && l.client.value.handshake.Some? && !l.client.value.handshake.value.lost
      && !l.client.value.lagged && l.client.value.read == |l.history| == 1
      && l.client.value.delivered == [OutputFrame((base + 1) as U64, data)]
  {
    var f := OutputFrame((base + 1) as U64, data);
    var l1 := RunOne(cfg, base, Fresh(), Subscribe);
    var l2 := RunOne(cfg, base, l1, AttachFrame(Some(b)));
    var none: seq<OutputFrame> := [];
    assert none + none == none;
    var c := Client(0, 0, [], false, 0, Some(Handshake(b, false, 0, 0, 0)), [], []);
    assert l2 == Link([], [], 0, Some(c));
    var l3 := RunOne(cfg, base, l2, Push(data));
    assert l3.history == [f] && l3.client == Some(c) && l3.sent == 0;
    var l4 := RunOne(cfg, base, l3, Broadcast);
    assert [] + [f] == [f];
    assert l4.client == Some(c.(queue := [f]));
    RunCons(cfg, base, l4, Deliver, []);
    RunCons(cfg, base, l3, Broadcast, [Deliver]);
    RunCons(cfg, base, l2, Push(data), [Broadcast] + [Deliver]);
    RunCons(cfg, base, l1, AttachFrame(Some(b)), [Push(data)] + ([Broadcast] + [Deliver]));
    RunCons(cfg, base, Fresh(), Subscribe, [AttachFrame(Some(b))] + ([Push(data)] + ([Broadcast] + [Deliver])));
  }

  /** Two slices of a history with distinct seqs share a frame exactly when they overlap. */
  lemma SlicesMeetIff(history: seq<OutputFrame>, base: nat, i: nat, j: nat, k: nat, n: nat)
    requires Consecutive(history, base) && i <= j <= n <= |history| && k <= n
    ensures (exists f :: f in history[i..j] && f in history[k..n]) <==> Max(i, k) < j
  {
    var a, b, lo := history[i..j], history[k..n], Max(i, k);
    if lo < j {
      assert a[lo - i] == history[lo] && b[lo - k] == history[lo];
      assert history[lo] in a && history[lo] in b;
    }
    if f :| f in a && f in b {
      var x :| 0 <= x < |a| && a[x] == f;
      var y :| 0 <= y < |b| && b[y] == f;
      assert history[i + x].seqNo == history[k + y].seqNo;
      assert i + x == k + y;
    }
  }
}

/** The login throttler: its per-key state, its operations, and the class that holds the map. */
module Throttle {
  import opened Common

  type Key = string

  /** Instants and durations in nanoseconds. */
  type Time = int

  const NANOS_PER_SECOND: int := 1_000_000_000

  const MAX_TRACKED_KEYS: nat := 10_000

  datatype Config = Config(maxFailures: nat, window: int, block: int)

  datatype AttemptState = AttemptState(failures: seq<Time>, blockedUntil: Option<Time>) {
    predicate IsBlocked(now: Time) {
      blockedUntil.Some? && now < blockedUntil.value
    }

    predicate IsIdle(now: Time, window: int) {
      !IsBlocked(now) && Live(failures, now - window) == []
    }
  }

  type Table = map<Key, AttemptState>

  datatype Decision = Allowed | Throttled(retryAfterSeconds: nat)

  /** The failures strictly after `cutoff`, in order. */
  function Live(failures: seq<Time>, cutoff: Time): (r: seq<Time>)
    ensures |r| <= |failures|
  {
    if failures == [] then []
    else
      var rest := Live(failures[..|failures| - 1], cutoff);
      if failures[|failures| - 1] > cutoff then rest + [failures[|failures| - 1]] else rest
  }

  function Check(m: Table, key: Key, now: Time): Decision {
    if key in m && m[key].IsBlocked(now) then
      Throttled(Max((m[key].blockedUntil.value - now) / NANOS_PER_SECOND, 1))
    else Allowed
  }

  /** `cleanup`: keep entries with a live block or a live failure. */
  function Sweep(cfg: Config, m: Table, now: Time): Table {
    map k | k in m && !m[k].IsIdle(now, cfg.window) :: m[k]
  }

  /** The capped vector has room for one more. */
  predicate HasRoom(cfg: Config, n: nat) {
    n < SatAdd(cfg.maxFailures, 1)
  }

  /** The vector after a failure at `now`: pruned to the window, then extended if there is room. */
  function Pushed(cfg: Config, failures: seq<Time>, now: Time): seq<Time> {
    var live := Live(failures, now - cfg.window);
    if HasRoom(cfg, |live|) then live + [now] else live
  }

  /** Start a block once `count` reaches the threshold; never shorten one. */
  function Reblock(cfg: Config, prev: Option<Time>, count: nat, now: Time): Option<Time> {
    var until := now + cfg.block;
    if count < cfg.maxFailures then prev
    else if prev.Some? && prev.value > until then prev
    else Some(until)
  }

  /** One failure against one entry. */
  function Fail(cfg: Config, s: AttemptState, now: Time): AttemptState {
    var failures := Pushed(cfg, s.failures, now);
    AttemptState(failures, Reblock(cfg, s.blockedUntil, |failures|, now))
  }

  const FreshState := AttemptState([], None)

  function MakeRoom(cfg: Config, m: Table, now: Time): Table {
    if |m| >= MAX_TRACKED_KEYS then Sweep(cfg, m, now) else m
  }

  /** The saturated map refuses this new key. */
  predicate Refused(cfg: Config, m: Table, key: Key, now: Time) {
    var roomy := MakeRoom(cfg, m, now);
    key !in roomy && |roomy| >= MAX_TRACKED_KEYS
  }

  function RecordFailure(cfg: Config, m: Table, key: Key, now: Time): Table {
    var roomy := MakeRoom(cfg, m, now);
    if Refused(cfg, m, key, now) then roomy
    else roomy[key := Fail(cfg, if key in roomy then roomy[key] else FreshState, now)]
  }

  function RecordSuccess(m: Table, key: Key): Table {
    m - {key}
  }

  class LoginThrottler {
    const config: Config
    var inner: Table

    constructor (cfg: Config)
      ensures config == cfg && inner == map[]
    {
      config := cfg;
      inner := map[];
    }

    method Cleanup(now: Time)
      modifies this
      ensures inner == Sweep(config, old(inner), now)
    {
      inner := map k | k in inner && !inner[k].IsIdle(now, config.window) :: inner[k];
    }

    method Failure(key: Key, now: Time)
      modifies this
      ensures inner == RecordFailure(config, old(inner), key, now)
    {
      if |inner| >= MAX_TRACKED_KEYS {
        Cleanup(now);
      }
      if key !in inner {
        if |inner| >= MAX_TRACKED_KEYS {
          return;
        }
        inner := inner[key := AttemptState([], None)];
      }
      var state := inner[key];
      state := state.(failures := Live(state.failures, now - config.window));
      if HasRoom(config, |state.failures|) {
        state := state.(failures := state.failures + [now]);
      }
      if |state.failures| >= config.maxFailures {
        var newUntil := now + config.block;
        if !(state.blockedUntil.Some? && state.blockedUntil.value > newUntil) {
          state := state.(blockedUntil := Some(newUntil));
        }
      }
      inner := inner[key := state];
    }

    method Success(key: Key)
      modifies this
      ensures inner == RecordSuccess(old(inner), key)
    {
      inner := inner - {key};
    }
  }

  // ---------- runs ----------

  datatype Event = Failure(key: Key, at: Time) | Success(key: Key) | Cleanup(at: Time)

  function Apply(cfg: Config, m: Table, e: Event): Table {
    match e
    case Failure(key, at) => RecordFailure(cfg, m, key, at)
    case Success(key) => RecordSuccess(m, key)
    case Cleanup(at) => Sweep(cfg, m, at)
  }

  function Run(cfg: Config, events: seq<Event>): Table {
    if events == [] then map[] else Apply(cfg, Run(cfg, events[..|events| - 1]), events[|events| - 1])
  }

  /** The clock never runs backwards, and has not passed `now`. */
  ghost predicate Timely(events: seq<Event>, now: Time) {
    if events == [] then true
    else
      var e := events[|events| - 1];
      var rest := events[..|events| - 1];
      if e.Success? then Timely(rest, now) else e.at <= now && Timely(rest, e.at)
  }

  // ---------- memory bound ----------

  lemma SweepShrinks(cfg: Config, m: Table, now: Time)
    ensures |Sweep(cfg, m, now)| <= |m|
    ensures forall k | k in Sweep(cfg, m, now) :: k in m && Sweep(cfg, m, now)[k] == m[k]
  {
    var kept := Sweep(cfg, m, now);
    assert kept.Keys <= m.Keys;
    CardinalityMonotone(kept.Keys, m.Keys);
    assert |kept| == |kept.Keys| && |m| == |m.Keys|;
  }

  lemma {:induction false} CardinalityMonotone<T>(a: set<T>, b: set<T>)
    requires a <= b
    ensures |a| <= |b|
  {
    if a != {} {
      var x :| x in a;
      CardinalityMonotone(a - {x}, b - {x});
    }
  }

  /** In every run the map stays within 10,000 keys and each vector within `max_failures + 1`. */
  lemma {:induction false} MemoryBounded(cfg: Config, events: seq<Event>)
    ensures |Run(cfg, events)| <= 10_000
    ensures forall k | k in Run(cfg, events) :: |Run(cfg, events)[k].failures| <= cfg.maxFailures + 1
  {
    if events != [] {
      var rest, e := events[..|events| - 1], events[|events| - 1];
      var m := Run(cfg, rest);
      MemoryBounded(cfg, rest);
      match e
      case Failure(key, at) => FailureBounded(cfg, m, key, at);
      case Success(key) =>
        CardinalityMonotone((m - {key}).Keys, m.Keys);
        assert |m - {key}| == |(m - {key}).Keys| && |m| == |m.Keys|;
      case Cleanup(at) => SweepShrinks(cfg, m, at);
    }
  }

  lemma FailureBounded(cfg: Config, m: Table, key: Key, now: Time)
    requires |m| <= MAX_TRACKED_KEYS
    requires forall k | k in m :: |m[k].failures| <= cfg.maxFailures + 1
    ensures |RecordFailure(cfg, m, key, now)| <= MAX_TRACKED_KEYS
    ensures forall k | k in RecordFailure(cfg, m, key, now) ::
              |RecordFailure(cfg, m, key, now)[k].failures| <= cfg.maxFailures + 1
  {
    SweepShrinks(cfg, m, now);
    var roomy := MakeRoom(cfg, m, now);
    var m' := RecordFailure(cfg, m, key, now);
    if key in roomy {
      assert m'.Keys == roomy.Keys;
      assert |m'| == |m'.Keys| && |roomy| == |roomy.Keys|;
    } else if !Refused(cfg, m, key, now) {
      assert m'.Keys == roomy.Keys + {key};
      assert |m'| == |m'.Keys| && |roomy| == |roomy.Keys|;
    }
  }
}

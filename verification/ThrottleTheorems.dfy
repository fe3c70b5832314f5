/** What the throttler means: eviction is invisible, a block is always earned and always
    served, and for logins that do not overlap the state is the exact sliding window. */
module ThrottleTheorems {
  import opened Common
  import opened Throttle

  // ---------- facts about the sliding window ----------

  lemma LiveSnoc(failures: seq<Time>, t: Time, cutoff: Time)
    ensures Live(failures + [t], cutoff) == Live(failures, cutoff) + if t > cutoff then [t] else []
  {
    assert (failures + [t])[..|failures|] == failures;
  }

  lemma {:induction false} LiveMember(failures: seq<Time>, cutoff: Time, t: Time)
    requires t in Live(failures, cutoff)
    ensures t > cutoff && t in failures
  {
    if t != failures[|failures| - 1] || t <= cutoff {
      LiveMember(failures[..|failures| - 1], cutoff, t);
    }
  }

  lemma {:induction false} LiveLater(failures: seq<Time>, c: Time, later: Time)
    requires c <= later
    ensures Live(Live(failures, c), later) == Live(failures, later)
  {
    if failures != [] {
      var rest, t := failures[..|failures| - 1], failures[|failures| - 1];
      LiveLater(rest, c, later);
      LiveSnoc(Live(rest, c), t, later);
    }
  }

  lemma {:induction false} LiveMultiset(failures: seq<Time>, cutoff: Time, x: Time)
    ensures multiset(Live(failures, cutoff))[x] == if x > cutoff then multiset(failures)[x] else 0
  {
    if failures != [] {
      var rest, t := failures[..|failures| - 1], failures[|failures| - 1];
      assert failures == rest + [t];
      LiveMultiset(rest, cutoff, x);
    }
  }

  lemma LiveCount(a: seq<Time>, b: seq<Time>, cutoff: Time)
    requires multiset(a) <= multiset(b)
    ensures multiset(Live(a, cutoff)) <= multiset(Live(b, cutoff))
    ensures |Live(a, cutoff)| <= |Live(b, cutoff)|
  {
    forall x ensures multiset(Live(a, cutoff))[x] <= multiset(Live(b, cutoff))[x] {
      LiveMultiset(a, cutoff, x);
      LiveMultiset(b, cutoff, x);
    }
    var la, lb := multiset(Live(a, cutoff)), multiset(Live(b, cutoff));
    assert lb == la + (lb - la);
  }

  // ---------- eviction is invisible ----------

  function Entry(m: Table, key: Key): AttemptState {
    if key in m then m[key] else FreshState
  }

  /** What of an entry can still matter at or after `now`. */
  function View(cfg: Config, m: Table, key: Key, now: Time): AttemptState {
    var s := Entry(m, key);
    AttemptState(Live(s.failures, now - cfg.window), if s.IsBlocked(now) then s.blockedUntil else None)
  }

  /** A throttler that never evicts and has no capacity. */
  function Unbounded(cfg: Config, m: Table, e: Event): Table {
    match e
    case Failure(key, at) => m[key := Fail(cfg, Entry(m, key), at)]
    case Success(key) => RecordSuccess(m, key)
    case Cleanup(_) => m
  }

  function RunUnbounded(cfg: Config, events: seq<Event>): Table {
    if events == [] then map[]
    else Unbounded(cfg, RunUnbounded(cfg, events[..|events| - 1]), events[|events| - 1])
  }

  /** No failure was turned away by a saturated map. */
  ghost predicate NoneRefused(cfg: Config, events: seq<Event>) {
    if events == [] then true
    else
      var rest, e := events[..|events| - 1], events[|events| - 1];
      NoneRefused(cfg, rest) && (e.Failure? ==> !Refused(cfg, Run(cfg, rest), e.key, e.at))
  }

  /** Every key some failure names. */
  function FailureKeys(events: seq<Event>): set<Key> {
    if events == [] then {}
    else
      var rest, e := FailureKeys(events[..|events| - 1]), events[|events| - 1];
      if e.Failure? then rest + {e.key} else rest
  }

  lemma {:induction false} TrackedKeysFailed(cfg: Config, events: seq<Event>)
    ensures Run(cfg, events).Keys <= FailureKeys(events)
  {
    if events != [] {
      TrackedKeysFailed(cfg, events[..|events| - 1]);
    }
  }

  /** A refusal means the map is full of other keys that failed. */
  lemma RefusalCountsKeys(cfg: Config, m: Table, key: Key, now: Time, keys: set<Key>)
    requires m.Keys <= keys && key in keys && |keys| <= 10_000
    ensures !Refused(cfg, m, key, now)
  {
    var roomy := MakeRoom(cfg, m, now);
    assert |roomy| == |roomy.Keys|;
    if key !in roomy {
      assert roomy.Keys <= keys - {key};
      CardinalityMonotone(roomy.Keys, keys - {key});
    }
  }

  /** No failure is refused as long as the run's failures name at most 10,000 different keys. */
  lemma {:induction false} FewKeysNoneRefused(cfg: Config, events: seq<Event>)
    requires |FailureKeys(events)| <= 10_000
    ensures NoneRefused(cfg, events)
  {
    if events != [] {
      var rest, e := events[..|events| - 1], events[|events| - 1];
      CardinalityMonotone(FailureKeys(rest), FailureKeys(events));
      FewKeysNoneRefused(cfg, rest);
      TrackedKeysFailed(cfg, rest);
      if e.Failure? {
        RefusalCountsKeys(cfg, Run(cfg, rest), e.key, e.at, FailureKeys(events));
      }
    }
  }

  /** The keys with a live block or a live failure. */
  function LiveKeys(cfg: Config, m: Table, now: Time): set<Key> {
    set k | k in m && (m[k].IsBlocked(now) || Live(m[k].failures, now - cfg.window) != [])
  }

  lemma SweepKeepsLive(cfg: Config, m: Table, now: Time)
    ensures Sweep(cfg, m, now).Keys == LiveKeys(cfg, m, now)
    ensures |LiveKeys(cfg, m, now)| <= |m|
  {
    SweepShrinks(cfg, m, now);
    var kept := Sweep(cfg, m, now);
    assert |kept| == |kept.Keys|;
  }

  lemma RefusedByTable(cfg: Config, m: Table, live: set<Key>, key: Key, now: Time)
    requires |m| <= 10_000 && live == LiveKeys(cfg, m, now)
    ensures Refused(cfg, m, key, now) <==> key !in live && |live| == 10_000
  {
    SweepKeepsLive(cfg, m, now);
    var kept := Sweep(cfg, m, now);
    assert |kept| == |kept.Keys| && (key in kept <==> key in live);
  }

  /** In every run: a failure is refused exactly when its key has neither a live block nor a live
      failure and 10,000 other keys have one. */
  lemma RefusedIff(cfg: Config, events: seq<Event>, key: Key, now: Time)
    ensures var live := LiveKeys(cfg, Run(cfg, events), now);
      Refused(cfg, Run(cfg, events), key, now) <==> key !in live && |live| == 10_000
  {
    MemoryBounded(cfg, events);
    RefusedByTable(cfg, Run(cfg, events), LiveKeys(cfg, Run(cfg, events), now), key, now);
  }

  lemma ViewLater(cfg: Config, a: Table, b: Table, key: Key, now: Time, later: Time)
    requires View(cfg, a, key, now) == View(cfg, b, key, now) && now <= later
    ensures View(cfg, a, key, later) == View(cfg, b, key, later)
  {
    LiveLater(Entry(a, key).failures, now - cfg.window, later - cfg.window);
    LiveLater(Entry(b, key).failures, now - cfg.window, later - cfg.window);
  }

  lemma SweepView(cfg: Config, m: Table, key: Key, now: Time)
    ensures View(cfg, Sweep(cfg, m, now), key, now) == View(cfg, m, key, now)
  {
  }

  /** A failure sees nothing of an entry but its view. */
  lemma FailView(cfg: Config, a: AttemptState, b: AttemptState, now: Time)
    requires Live(a.failures, now - cfg.window) == Live(b.failures, now - cfg.window)
    requires (if a.IsBlocked(now) then a.blockedUntil else None) == (if b.IsBlocked(now) then b.blockedUntil else None)
    ensures var a', b' := Fail(cfg, a, now), Fail(cfg, b, now);
      && a'.failures == b'.failures
      && (if a'.IsBlocked(now) then a'.blockedUntil else None) == (if b'.IsBlocked(now) then b'.blockedUntil else None)
  {
  }

  lemma FailureView(cfg: Config, roomy: Table, b: Table, k: Key, key: Key, now: Time)
    requires View(cfg, roomy, key, now) == View(cfg, b, key, now)
    ensures View(cfg, roomy[k := Fail(cfg, Entry(roomy, k), now)], key, now)
         == View(cfg, b[k := Fail(cfg, Entry(b, k), now)], key, now)
  {
    if k == key {
      FailView(cfg, Entry(roomy, k), Entry(b, k), now);
    }
  }

  lemma StepView(cfg: Config, a: Table, b: Table, e: Event, key: Key, now: Time)
    requires View(cfg, a, key, now) == View(cfg, b, key, now)
    requires e.Success? || e.at == now
    requires e.Failure? ==> !Refused(cfg, a, e.key, e.at)
    ensures View(cfg, Apply(cfg, a, e), key, now) == View(cfg, Unbounded(cfg, b, e), key, now)
  {
    match e
    case Failure(k, at) =>
      SweepView(cfg, a, key, now);
      FailureView(cfg, MakeRoom(cfg, a, now), b, k, key, now);
    case Success(k) =>
    case Cleanup(at) =>
      SweepView(cfg, a, key, now);
  }

  lemma {:induction false} RunsAgree(cfg: Config, events: seq<Event>, key: Key, now: Time)
    requires Timely(events, now) && NoneRefused(cfg, events)
    ensures View(cfg, Run(cfg, events), key, now) == View(cfg, RunUnbounded(cfg, events), key, now)
    decreases |events|
  {
    if events != [] {
      var rest, e := events[..|events| - 1], events[|events| - 1];
      var then_ := if e.Success? then now else e.at;
      RunsAgree(cfg, rest, key, then_);
      StepView(cfg, Run(cfg, rest), RunUnbounded(cfg, rest), e, key, then_);
      ViewLater(cfg, Run(cfg, events), RunUnbounded(cfg, events), key, then_, now);
    }
  }

  /** Eviction is invisible: with any cleanups anywhere, opportunistic or requested, every
      `check` answers as a throttler that never evicts, as long as saturation refused no
      failure. */
  lemma EvictionInvisible(cfg: Config, events: seq<Event>, key: Key, now: Time)
    requires Timely(events, now) && NoneRefused(cfg, events)
    ensures Check(Run(cfg, events), key, now) == Check(RunUnbounded(cfg, events), key, now)
  {
    RunsAgree(cfg, events, key, now);
    var a, b := Run(cfg, events), RunUnbounded(cfg, events);
    assert Check(a, key, now).Throttled? <==> View(cfg, a, key, now).blockedUntil.Some?;
    assert Check(b, key, now).Throttled? <==> View(cfg, b, key, now).blockedUntil.Some?;
  }

  // ---------- a block is earned ----------

  /** Every failure of `key` since its last success, oldest first: the ground truth. */
  function FailuresSince(events: seq<Event>, key: Key): seq<Time> {
    if events == [] then []
    else
      var rest := FailuresSince(events[..|events| - 1], key);
      match events[|events| - 1]
      case Failure(k, at) => if k == key then rest + [at] else rest
      case Success(k) => if k == key then [] else rest
      case Cleanup(_) => rest
  }

  /** The `j`-th failure made `max_failures` of them within one window ending at it. */
  predicate Trips(cfg: Config, fs: seq<Time>, j: nat)
    requires j < |fs|
  {
    |Live(fs[..j], fs[j] - cfg.window)| + 1 >= cfg.maxFailures
  }

  /** A later failure changes no earlier verdict. */
  lemma TripsSnoc(cfg: Config, fs: seq<Time>, t: Time, j: nat)
    requires j <= |fs|
    ensures j < |fs| ==> (fs + [t])[j] == fs[j] && (Trips(cfg, fs + [t], j) <==> Trips(cfg, fs, j))
    ensures Trips(cfg, fs + [t], |fs|) <==> |Live(fs, t - cfg.window)| + 1 >= cfg.maxFailures
  {
    assert (fs + [t])[..j] == fs[..j];
    assert (fs + [t])[..|fs|] == fs;
  }

  ghost predicate Earned(cfg: Config, fs: seq<Time>, s: AttemptState) {
    && multiset(s.failures) <= multiset(fs)
    && (s.blockedUntil.Some? ==>
          exists j: nat :: j < |fs| && s.blockedUntil.value == fs[j] + cfg.block && Trips(cfg, fs, j))
  }

  lemma EarnedGrows(cfg: Config, fs: seq<Time>, t: Time, s: AttemptState)
    requires Earned(cfg, fs, s)
    ensures Earned(cfg, fs + [t], s)
  {
    var fs' := fs + [t];
    if s.blockedUntil.Some? {
      var j: nat :| j < |fs| && s.blockedUntil.value == fs[j] + cfg.block && Trips(cfg, fs, j);
      TripsSnoc(cfg, fs, t, j);
      assert fs'[j] == fs[j] && Trips(cfg, fs', j);
    }
  }

  lemma LiveSubset(v: seq<Time>, fs: seq<Time>, c: Time)
    requires multiset(v) <= multiset(fs)
    ensures multiset(Live(v, c)) <= multiset(fs)
  {
    forall x ensures multiset(Live(v, c))[x] <= multiset(fs)[x] {
      LiveMultiset(v, c, x);
    }
  }

  lemma SnocSubset(a: seq<Time>, b: seq<Time>, t: Time)
    requires multiset(a) <= multiset(b)
    ensures multiset(a) <= multiset(b + [t]) && multiset(a + [t]) <= multiset(b + [t])
  {
    assert multiset(a + [t]) == multiset(a) + multiset{t};
    assert multiset(b + [t]) == multiset(b) + multiset{t};
  }

  lemma PushedSubset(cfg: Config, fs: seq<Time>, v: seq<Time>, t: Time)
    requires multiset(v) <= multiset(fs)
    ensures multiset(Pushed(cfg, v, t)) <= multiset(fs + [t])
  {
    var live := Live(v, t - cfg.window);
    LiveSubset(v, fs, t - cfg.window);
    SnocSubset(live, fs, t);
    assert Pushed(cfg, v, t) == live || Pushed(cfg, v, t) == live + [t];
  }

  lemma FailEarned(cfg: Config, fs: seq<Time>, s: AttemptState, t: Time)
    requires Earned(cfg, fs, s)
    ensures Earned(cfg, fs + [t], Fail(cfg, s, t))
  {
    var s' := Fail(cfg, s, t);
    PushedSubset(cfg, fs, s.failures, t);
    if s'.blockedUntil == s.blockedUntil {
      EarnedGrows(cfg, fs, t, s);
    } else {
      LiveCount(s.failures, fs, t - cfg.window);
      TripsSnoc(cfg, fs, t, |fs|);
      assert (fs + [t])[|fs|] == t;
    }
  }

  lemma {:induction false} EveryEntryEarned(cfg: Config, events: seq<Event>, key: Key)
    ensures Earned(cfg, FailuresSince(events, key), Entry(Run(cfg, events), key))
  {
    if events != [] {
      var rest, e := events[..|events| - 1], events[|events| - 1];
      EveryEntryEarned(cfg, rest, key);
      var m := Run(cfg, rest);
      var fs := FailuresSince(rest, key);
      if e.Failure? {
        FailureEarned(cfg, m, e.key, e.at, key, fs);
      }
    }
  }

  lemma FailureEarned(cfg: Config, m: Table, k: Key, at: Time, key: Key, fs: seq<Time>)
    requires Earned(cfg, fs, Entry(m, key))
    ensures Earned(cfg, if k == key then fs + [at] else fs, Entry(RecordFailure(cfg, m, k, at), key))
  {
    var s := Entry(MakeRoom(cfg, m, at), key);
    assert Earned(cfg, fs, s);
    if k == key {
      FailEarned(cfg, fs, s, at);
      EarnedGrows(cfg, fs, at, s);
    }
  }

  /** A block is never spurious: if `check` throttles, then since the key's last success
      there were `max_failures` real failures within one window, the last of them less than
      one block duration ago. */
  lemma BlockIsEarned(cfg: Config, events: seq<Event>, key: Key, now: Time)
    requires Check(Run(cfg, events), key, now).Throttled?
    ensures exists j: nat :: j < |FailuresSince(events, key)| && Trips(cfg, FailuresSince(events, key), j)
              && now < FailuresSince(events, key)[j] + cfg.block
  {
    EveryEntryEarned(cfg, events, key);
    var fs := FailuresSince(events, key);
    var s := Run(cfg, events)[key];
    var j: nat :| j < |fs| && s.blockedUntil.value == fs[j] + cfg.block && Trips(cfg, fs, j);
  }

  /** The reported wait is documented as an upper bound on what remains of the block. It is
      never more than a second away from that, but because it is truncated it covers the
      remainder if and only if that is at most one second or a whole number of seconds. */
  lemma RetryAfterCoversIff(m: Table, key: Key, now: Time)
    requires Check(m, key, now).Throttled?
    ensures var left := m[key].blockedUntil.value - now;
      var wait := Check(m, key, now).retryAfterSeconds * 1_000_000_000;
      && wait > 0 && left - 1_000_000_000 < wait < left + 1_000_000_000
      && (wait >= left <==> left <= 1_000_000_000 || left % 1_000_000_000 == 0)
  {
    var left := m[key].blockedUntil.value - now;
    assert left == left / NANOS_PER_SECOND * NANOS_PER_SECOND + left % NANOS_PER_SECOND;
  }

  // ---------- a block is served ----------

  ghost predicate BlockedAtLeast(m: Table, key: Key, until: Time) {
    key in m && m[key].blockedUntil.Some? && m[key].blockedUntil.value >= until
  }

  lemma BlockStep(cfg: Config, m: Table, e: Event, key: Key, until: Time)
    requires BlockedAtLeast(m, key, until) && e != Success(key) && (!e.Success? ==> e.at < until)
    ensures BlockedAtLeast(Apply(cfg, m, e), key, until)
  {
  }

  lemma RunSnoc(cfg: Config, events: seq<Event>, more: seq<Event>)
    requires more != []
    ensures Run(cfg, events + more) == Apply(cfg, Run(cfg, events + more[..|more| - 1]), more[|more| - 1])
  {
    assert (events + more)[..|events + more| - 1] == events + more[..|more| - 1];
  }

  lemma {:induction false} BlockPersists(
    cfg: Config, events: seq<Event>, more: seq<Event>, key: Key, until: Time, now: Time)
    requires BlockedAtLeast(Run(cfg, events), key, until)
    requires Timely(more, now) && now < until && Success(key) !in more
    ensures BlockedAtLeast(Run(cfg, events + more), key, until)
    decreases |more|
  {
    if more == [] {
      assert events + more == events;
    } else {
      var rest, e := more[..|more| - 1], more[|more| - 1];
      assert e in more;
      BlockPersists(cfg, events, rest, key, until, if e.Success? then now else e.at);
      BlockStep(cfg, Run(cfg, events + rest), e, key, until);
      RunSnoc(cfg, events, more);
    }
  }

  /** A block holds until its deadline through anything but that key's own success: other
      keys, cleanups, saturation and further failures cannot lift or shorten it. */
  lemma BlockHolds(cfg: Config, events: seq<Event>, more: seq<Event>, key: Key, until: Time, now: Time)
    requires BlockedAtLeast(Run(cfg, events), key, until)
    requires Timely(more, now) && now < until && Success(key) !in more
    ensures Check(Run(cfg, events + more), key, now).Throttled?
  {
    BlockPersists(cfg, events, more, key, until, now);
  }

  // ---------- the exact sliding window ----------

  /** The discipline of logins that do not overlap: a failure is recorded only for an attempt
      `check` allowed. The route reads the clock once, checks, verifies the password and then
      records with that reading, so overlapping logins may break both this and `Timely`. */
  ghost predicate Disciplined(cfg: Config, events: seq<Event>) {
    if events == [] then true
    else
      var rest, e := events[..|events| - 1], events[|events| - 1];
      Disciplined(cfg, rest) && (e.Failure? ==> Check(Run(cfg, rest), e.key, e.at).Allowed?)
  }

  /** Reference decision from the ground truth alone. */
  ghost predicate ShouldBlock(cfg: Config, fs: seq<Time>, now: Time) {
    exists j: nat :: j < |fs| && Trips(cfg, fs, j) && now < fs[j] + cfg.block
  }

  /** The entry is the exact sliding window of the ground truth `fs` at `now`. */
  ghost predicate Exact(cfg: Config, fs: seq<Time>, s: AttemptState, now: Time) {
    && Live(s.failures, now - cfg.window) == Live(fs, now - cfg.window)
    && (forall t | t >= now :: s.IsBlocked(t) <==> ShouldBlock(cfg, fs, t))
  }

  /** Holds in every timely run: a full vector has already caused a block from its last push. */
  ghost predicate FullMeansBlocked(cfg: Config, s: AttemptState, now: Time) {
    && (forall t | t in s.failures :: t <= now)
    && (s.failures != [] && |s.failures| >= cfg.maxFailures ==>
          s.blockedUntil.Some? && (forall t | t in s.failures :: t + cfg.block <= s.blockedUntil.value))
  }

  lemma FailFull(cfg: Config, s: AttemptState, before: Time, now: Time)
    requires FullMeansBlocked(cfg, s, before) && before <= now
    ensures FullMeansBlocked(cfg, Fail(cfg, s, now), now)
  {
    var live := Live(s.failures, now - cfg.window);
    forall t | t in live ensures t <= now {
      LiveMember(s.failures, now - cfg.window, t);
    }
  }

  lemma {:induction false} EveryEntryFull(cfg: Config, events: seq<Event>, key: Key, now: Time)
    requires Timely(events, now)
    ensures FullMeansBlocked(cfg, Entry(Run(cfg, events), key), now)
    decreases |events|
  {
    if events != [] {
      var rest, e := events[..|events| - 1], events[|events| - 1];
      EveryEntryFull(cfg, rest, key, if e.Success? then now else e.at);
      if e.Failure? {
        var s := Entry(MakeRoom(cfg, Run(cfg, rest), e.at), key);
        assert FullMeansBlocked(cfg, s, e.at);
        FailFull(cfg, s, e.at, e.at);
      }
    }
  }

  /** Once a full vector's block has run out, none of its failures is still in the window. */
  lemma FullHasNoneLive(cfg: Config, s: AttemptState, now: Time)
    requires FullMeansBlocked(cfg, s, now) && !s.IsBlocked(now) && cfg.window <= cfg.block
    requires s.failures != [] && |s.failures| >= cfg.maxFailures
    ensures Live(s.failures, now - cfg.window) == []
  {
    var live := Live(s.failures, now - cfg.window);
    if live != [] {
      LiveMember(s.failures, now - cfg.window, live[0]);
    }
  }

  /** An allowed attempt always finds room in the capped vector. */
  lemma AllowedHasRoom(cfg: Config, s: AttemptState, now: Time)
    requires FullMeansBlocked(cfg, s, now) && !s.IsBlocked(now) && cfg.window <= cfg.block && cfg.maxFailures <= U32_MAX
    ensures HasRoom(cfg, |Live(s.failures, now - cfg.window)|)
  {
    if |Live(s.failures, now - cfg.window)| > cfg.maxFailures {
      FullHasNoneLive(cfg, s, now);
    }
  }

  lemma ShouldBlockSnoc(cfg: Config, fs: seq<Time>, t: Time, now: Time)
    ensures ShouldBlock(cfg, fs + [t], now) <==>
      ShouldBlock(cfg, fs, now) || (|Live(fs, t - cfg.window)| + 1 >= cfg.maxFailures && now < t + cfg.block)
  {
    var fs' := fs + [t];
    TripsSnoc(cfg, fs, t, |fs|);
    if ShouldBlock(cfg, fs, now) {
      var j: nat :| j < |fs| && Trips(cfg, fs, j) && now < fs[j] + cfg.block;
      TripsSnoc(cfg, fs, t, j);
      assert Trips(cfg, fs', j) && fs'[j] == fs[j];
    }
    if ShouldBlock(cfg, fs', now) {
      var j: nat :| j < |fs'| && Trips(cfg, fs', j) && now < fs'[j] + cfg.block;
      TripsSnoc(cfg, fs, t, j);
    }
  }

  lemma FailExact(cfg: Config, fs: seq<Time>, s: AttemptState, now: Time)
    requires Exact(cfg, fs, s, now) && HasRoom(cfg, |Live(s.failures, now - cfg.window)|)
    ensures Exact(cfg, fs + [now], Fail(cfg, s, now), now)
  {
    PushWindow(cfg, s.failures, fs, now);
    forall t | t >= now ensures Fail(cfg, s, now).IsBlocked(t) <==> ShouldBlock(cfg, fs + [now], t) {
      FailBlocksExact(cfg, fs, s, now, t);
    }
  }

  lemma FailBlocks(cfg: Config, s: AttemptState, n: nat, now: Time, t: Time)
    requires n == |Live(s.failures, now - cfg.window)| && HasRoom(cfg, n)
    ensures Fail(cfg, s, now).IsBlocked(t) <==> s.IsBlocked(t) || (n + 1 >= cfg.maxFailures && t < now + cfg.block)
  {
    ReblockExact(cfg, s.blockedUntil, n + 1, now, t);
    assert |Pushed(cfg, s.failures, now)| == n + 1;
  }

  lemma FailBlocksExact(cfg: Config, fs: seq<Time>, s: AttemptState, now: Time, t: Time)
    requires |Live(s.failures, now - cfg.window)| == |Live(fs, now - cfg.window)|
    requires HasRoom(cfg, |Live(s.failures, now - cfg.window)|)
    requires s.IsBlocked(t) <==> ShouldBlock(cfg, fs, t)
    ensures Fail(cfg, s, now).IsBlocked(t) <==> ShouldBlock(cfg, fs + [now], t)
  {
    FailBlocks(cfg, s, |Live(fs, now - cfg.window)|, now, t);
    ShouldBlockSnoc(cfg, fs, now, t);
  }

  /** Re-blocking takes the later of the two deadlines. */
  lemma ReblockExact(cfg: Config, prev: Option<Time>, n: nat, now: Time, t: Time)
    ensures var b := Reblock(cfg, prev, n, now);
      (b.Some? && t < b.value) <==> (prev.Some? && t < prev.value) || (n >= cfg.maxFailures && t < now + cfg.block)
  {
  }

  /** Pushing with room keeps the vector's window equal to the truth's. */
  lemma PushWindow(cfg: Config, v: seq<Time>, fs: seq<Time>, now: Time)
    requires Live(v, now - cfg.window) == Live(fs, now - cfg.window) && HasRoom(cfg, |Live(v, now - cfg.window)|)
    ensures Live(Pushed(cfg, v, now), now - cfg.window) == Live(fs + [now], now - cfg.window)
  {
    var c := now - cfg.window;
    var live := Live(v, c);
    LiveSnoc(fs, now, c);
    LiveSnoc(live, now, c);
    LiveLater(v, c, c);
    assert Pushed(cfg, v, now) == live + [now];
  }

  lemma ExactLater(cfg: Config, fs: seq<Time>, s: AttemptState, now: Time, later: Time)
    requires Exact(cfg, fs, s, now) && now <= later
    ensures Exact(cfg, fs, s, later)
  {
    LiveLater(s.failures, now - cfg.window, later - cfg.window);
    LiveLater(fs, now - cfg.window, later - cfg.window);
  }

  lemma SweepExact(cfg: Config, fs: seq<Time>, m: Table, key: Key, now: Time)
    requires Exact(cfg, fs, Entry(m, key), now)
    ensures Exact(cfg, fs, Entry(Sweep(cfg, m, now), key), now)
  {
    var s, s' := Entry(m, key), Entry(Sweep(cfg, m, now), key);
    if s' != s {
      forall t | t >= now ensures s'.IsBlocked(t) <==> ShouldBlock(cfg, fs, t) {
        assert s.IsBlocked(t) <==> ShouldBlock(cfg, fs, t);
      }
    }
  }

  lemma {:induction false} EveryEntryExact(cfg: Config, events: seq<Event>, key: Key, now: Time)
    requires Timely(events, now) && NoneRefused(cfg, events) && Disciplined(cfg, events)
    requires cfg.window <= cfg.block && cfg.maxFailures <= U32_MAX
    ensures Exact(cfg, FailuresSince(events, key), Entry(Run(cfg, events), key), now)
    decreases |events|
  {
    if events != [] {
      var rest, e := events[..|events| - 1], events[|events| - 1];
      var m, fs := Run(cfg, rest), FailuresSince(rest, key);
      var at := if e.Success? then now else e.at;
      EveryEntryExact(cfg, rest, key, at);
      if !e.Success? {
        SweepExact(cfg, fs, m, key, at);
      }
      if e.Failure? && e.key == key {
        EveryEntryFull(cfg, rest, key, at);
        var s := Entry(MakeRoom(cfg, m, at), key);
        AllowedHasRoom(cfg, s, at);
        FailExact(cfg, fs, s, at);
      }
      ExactLater(cfg, FailuresSince(events, key), Entry(Run(cfg, events), key), at, now);
    }
  }

  /** Exact meaning: when failures are recorded only after an allowed check, the block is at
      least as long as the window, and saturation refused nothing, the throttler blocks a
      key exactly when the ground truth says so, and its vector is the exact window. */
  lemma ThrottlerIsExactSlidingWindow(cfg: Config, events: seq<Event>, key: Key, now: Time)
    requires Timely(events, now) && NoneRefused(cfg, events) && Disciplined(cfg, events)
    requires cfg.window <= cfg.block && cfg.maxFailures <= U32_MAX
    ensures Check(Run(cfg, events), key, now).Throttled? <==> ShouldBlock(cfg, FailuresSince(events, key), now)
    ensures Live(Entry(Run(cfg, events), key).failures, now - cfg.window)
         == Live(FailuresSince(events, key), now - cfg.window)
  {
    EveryEntryExact(cfg, events, key, now);
  }

  /** The same without mention of refusals, for runs whose failures name at most 10,000 keys. */
  lemma ExactForTenThousandKeys(cfg: Config, events: seq<Event>, key: Key, now: Time)
    requires Timely(events, now) && Disciplined(cfg, events) && |FailureKeys(events)| <= 10_000
    requires cfg.window <= cfg.block && cfg.maxFailures <= U32_MAX
    ensures Check(Run(cfg, events), key, now).Throttled? <==> ShouldBlock(cfg, FailuresSince(events, key), now)
  {
    FewKeysNoneRefused(cfg, events);
    ThrottlerIsExactSlidingWindow(cfg, events, key, now);
  }

  /** One recorded failure keeps an exact window exact if and only if the capped vector has
      room for it: the cap keeps the oldest failures and turns the newest away. */
  lemma StaysExactIffRoom(cfg: Config, fs: seq<Time>, v: seq<Time>, now: Time)
    requires Live(v, now - cfg.window) == Live(fs, now - cfg.window) && cfg.window > 0
    ensures Live(Pushed(cfg, v, now), now - cfg.window) == Live(fs + [now], now - cfg.window)
       <==> HasRoom(cfg, |Live(fs, now - cfg.window)|)
  {
    var c := now - cfg.window;
    if HasRoom(cfg, |Live(fs, c)|) {
      PushWindow(cfg, v, fs, now);
    } else {
      RefusedIsShort(cfg, v, now);
      LiveSnoc(fs, now, c);
    }
  }

  lemma RefusedIsShort(cfg: Config, v: seq<Time>, now: Time)
    requires !HasRoom(cfg, |Live(v, now - cfg.window)|)
    ensures |Live(Pushed(cfg, v, now), now - cfg.window)| <= |Live(v, now - cfg.window)|
  {
  }

  function Zeros(n: nat): seq<Time> {
    if n == 0 then [] else Zeros(n - 1) + [0]
  }

  lemma {:induction false} LiveZeros(n: nat, c: Time)
    ensures Live(Zeros(n), c) == (if c < 0 then Zeros(n) else []) && |Zeros(n)| == n
  {
    if n > 0 {
      LiveZeros(n - 1, c);
      LiveSnoc(Zeros(n - 1), 0, c);
      assert Zeros(n) == Zeros(n - 1) + [0];
    }
  }

  const TWO_PER_TEN := Config(2, 10, 10)

  lemma FailAtZero(n: nat)
    requires n < 3
    ensures Pushed(TWO_PER_TEN, Zeros(n), 0) == Zeros(n + 1) && |Zeros(n + 1)| == n + 1
  {
    LiveZeros(n, -10);
    LiveZeros(n + 1, -10);
  }

  lemma FailAfterZeros()
    ensures Pushed(TWO_PER_TEN, Zeros(3), 9) == Zeros(3) && Pushed(TWO_PER_TEN, Zeros(3), 11) == [11]
  {
    LiveZeros(3, -1);
    LiveZeros(3, 1);
  }

  /** `events` ends with a failure of `key` at `t`, and `key` alone is tracked, with entry `s`
      and ground truth `fs`. */
  ghost predicate OnlyKey(events: seq<Event>, key: Key, s: AttemptState, fs: seq<Time>, t: Time) {
    && events != [] && events[|events| - 1] == Failure(key, t)
    && Run(TWO_PER_TEN, events) == map[key := s]
    && FailuresSince(events, key) == fs
    && Timely(events, t) && NoneRefused(TWO_PER_TEN, events)
  }

  lemma FirstFailure(key: Key, at: Time)
    ensures OnlyKey([Failure(key, at)], key, Fail(TWO_PER_TEN, FreshState, at), [at], at)
  {
    assert [Failure(key, at)][..0] == [];
    assert Run(TWO_PER_TEN, []) == map[] && NoneRefused(TWO_PER_TEN, []) && FailuresSince([], key) == [];
  }

  lemma AnotherFailure(events: seq<Event>, key: Key, s: AttemptState, fs: seq<Time>, t: Time, at: Time)
    requires OnlyKey(events, key, s, fs, t) && t <= at
    ensures OnlyKey(events + [Failure(key, at)], key, Fail(TWO_PER_TEN, s, at), fs + [at], at)
  {
    assert (events + [Failure(key, at)])[..|events|] == events;
    assert |map[key := s]| == 1;
    assert map[key := s][key := Fail(TWO_PER_TEN, s, at)] == map[key := Fail(TWO_PER_TEN, s, at)];
  }

  lemma UndisciplinedSnoc(cfg: Config, events: seq<Event>, e: Event)
    requires !Disciplined(cfg, events) || (e.Failure? && Check(Run(cfg, events), e.key, e.at).Throttled?)
    ensures !Disciplined(cfg, events + [e])
  {
    assert (events + [e])[..|events|] == events;
  }

  lemma EntryAtZero()
    ensures Fail(TWO_PER_TEN, FreshState, 0) == AttemptState(Zeros(1), None)
    ensures Fail(TWO_PER_TEN, AttemptState(Zeros(1), None), 0) == AttemptState(Zeros(2), Some(10))
    ensures Fail(TWO_PER_TEN, AttemptState(Zeros(2), Some(10)), 0) == AttemptState(Zeros(3), Some(10))
  {
    FailAtZero(0);
    FailAtZero(1);
    FailAtZero(2);
  }

  /** The entry after three failures at 0, one at 9 and one at 11. */
  lemma EntryUndercounts()
    ensures Fail(TWO_PER_TEN, AttemptState(Zeros(3), Some(10)), 9) == AttemptState(Zeros(3), Some(19))
    ensures Fail(TWO_PER_TEN, AttemptState(Zeros(3), Some(19)), 11) == AttemptState([11], Some(19))
  {
    FailAfterZeros();
    LiveZeros(3, 1);
  }

  lemma TruthBlocks()
    ensures ShouldBlock(TWO_PER_TEN, Zeros(3) + [9] + [11], 20)
  {
    LiveZeros(3, 1);
    LiveSnoc(Zeros(3), 9, 1);
    ShouldBlockSnoc(TWO_PER_TEN, Zeros(3) + [9], 11, 20);
  }

  lemma SecondZero(events: seq<Event>, key: Key)
    requires OnlyKey(events, key, AttemptState(Zeros(1), None), Zeros(1), 0)
    ensures OnlyKey(events + [Failure(key, 0)], key, AttemptState(Zeros(2), Some(10)), Zeros(2), 0)
  {
    EntryAtZero();
    AnotherFailure(events, key, AttemptState(Zeros(1), None), Zeros(1), 0, 0);
  }

  /** The third failure at 0 is recorded while the key is blocked. */
  lemma ThirdZero(events: seq<Event>, key: Key)
    requires OnlyKey(events, key, AttemptState(Zeros(2), Some(10)), Zeros(2), 0)
    ensures OnlyKey(events + [Failure(key, 0)], key, AttemptState(Zeros(3), Some(10)), Zeros(3), 0)
    ensures !Disciplined(TWO_PER_TEN, events + [Failure(key, 0)])
  {
    EntryAtZero();
    AnotherFailure(events, key, AttemptState(Zeros(2), Some(10)), Zeros(2), 0, 0);
    UndisciplinedSnoc(TWO_PER_TEN, events, Failure(key, 0));
  }

  lemma NineAndEleven(events: seq<Event>, key: Key)
    requires OnlyKey(events, key, AttemptState(Zeros(3), Some(10)), Zeros(3), 0) && !Disciplined(TWO_PER_TEN, events)
    ensures var all := events + [Failure(key, 9)] + [Failure(key, 11)];
      && OnlyKey(all, key, AttemptState([11], Some(19)), Zeros(3) + [9] + [11], 11)
      && !Disciplined(TWO_PER_TEN, all)
  {
    EntryUndercounts();
    AnotherFailure(events, key, AttemptState(Zeros(3), Some(10)), Zeros(3), 0, 9);
    AnotherFailure(events + [Failure(key, 9)], key, AttemptState(Zeros(3), Some(19)), Zeros(3) + [9], 9, 11);
    UndisciplinedSnoc(TWO_PER_TEN, events, Failure(key, 9));
    UndisciplinedSnoc(TWO_PER_TEN, events + [Failure(key, 9)], Failure(key, 11));
  }

  lemma OnlyKeyAllowed(events: seq<Event>, key: Key, s: AttemptState, fs: seq<Time>, t: Time, now: Time)
    requires OnlyKey(events, key, s, fs, t) && t <= now && !s.IsBlocked(now)
    ensures Check(Run(TWO_PER_TEN, events), key, now).Allowed? && Timely(events, now)
  {
  }

  /** Three failures of `key` at 0, one at 9 and one at 11. */
  function FiveFailures(key: Key): seq<Event> {
    [Failure(key, 0)] + [Failure(key, 0)] + [Failure(key, 0)] + [Failure(key, 9)] + [Failure(key, 11)]
  }

  /** Without the discipline the cap undercounts. Two failures per 10 time units, block 10:
      three recorded at 0 fill the vector, the one at 9 is turned away, so the one at 11
      stands alone, and at 20 the key is allowed although 9 and 11 are within 10. The clock is
      in order and no key was refused; only the third failure, recorded while the key was
      blocked, breaks the discipline. */
  lemma CapUndercounts(key: Key)
    ensures Check(Run(TWO_PER_TEN, FiveFailures(key)), key, 20).Allowed?
    ensures ShouldBlock(TWO_PER_TEN, FailuresSince(FiveFailures(key), key), 20)
    ensures Timely(FiveFailures(key), 20) && NoneRefused(TWO_PER_TEN, FiveFailures(key))
    ensures !Disciplined(TWO_PER_TEN, FiveFailures(key))
  {
    var one := [Failure(key, 0)];
    var two := one + [Failure(key, 0)];
    var three := two + [Failure(key, 0)];
    FirstFailure(key, 0);
    EntryAtZero();
    assert Zeros(1) == [0];
    SecondZero(one, key);
    ThirdZero(two, key);
    NineAndEleven(three, key);
    TruthBlocks();
    OnlyKeyAllowed(FiveFailures(key), key, AttemptState([11], Some(19)), Zeros(3) + [9] + [11], 11, 20);
  }
}

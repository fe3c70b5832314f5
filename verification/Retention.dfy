/** The bounded retention sweep, for any repository behaviour and against the repository's
    transactional contract. */
module Retention {
  import opened Common

  type SessionId = nat

  /** What one `purge_for_retention` call returned. */
  datatype Answer = Purged(chunkCount: nat, markerCount: nat, bytes: nat) | NotEligible | Failed

  datatype Summary = Summary(
    candidateCount: nat,
    purgedSessions: nat,
    chunksPurged: nat,
    markersPurged: nat,
    bytesPurged: nat,
    errors: nat,
    batchTruncated: bool)

  type Answers = nat -> Answer

  // ---------- the sweep, for any repository ----------

  /** Number of candidates handled before the first failed purge. */
  function Visited(answers: Answers, n: nat): (v: nat)
    ensures v <= n
    ensures forall i | 0 <= i < v :: !answers(i).Failed?
    ensures v < n ==> answers(v).Failed?
  {
    if n == 0 then 0
    else
      var v := Visited(answers, n - 1);
      if v < n - 1 || answers(n - 1).Failed? then v else n
  }

  function Count(answers: Answers, n: nat): nat {
    if n == 0 then 0 else Count(answers, n - 1) + if answers(n - 1).Purged? then 1 else 0
  }

  lemma {:induction false} CountIsPurged(answers: Answers, n: nat)
    ensures Count(answers, n) == |set i: nat | i < n && answers(i).Purged?|
  {
    if n > 0 {
      CountIsPurged(answers, n - 1);
      var before := set i: nat | i < n - 1 && answers(i).Purged?;
      var now := set i: nat | i < n && answers(i).Purged?;
      assert now == if answers(n - 1).Purged? then before + {n - 1} else before;
    } else {
      assert (set i: nat | i < 0 && answers(i).Purged?) == {};
    }
  }

  function ChunkSum(answers: Answers, n: nat): nat {
    if n == 0 then 0 else ChunkSum(answers, n - 1) + if answers(n - 1).Purged? then answers(n - 1).chunkCount else 0
  }

  function MarkerSum(answers: Answers, n: nat): nat {
    if n == 0 then 0 else MarkerSum(answers, n - 1) + if answers(n - 1).Purged? then answers(n - 1).markerCount else 0
  }

  function ByteSum(answers: Answers, n: nat): nat {
    if n == 0 then 0 else ByteSum(answers, n - 1) + if answers(n - 1).Purged? then answers(n - 1).bytes else 0
  }

  /** `run_recording_retention_sweep`. `listing` and `answers` are what the repository
      returned; the i-th purge call is for `listing.value[i]`, and calls stop at the first
      failure. Every total is over exactly the candidates visited before it, and
      `batchTruncated` means a full listing with no error at all. */
  method RunSweep(listing: Result<seq<SessionId>, ()>, answers: Answers, batchSize: nat) returns (s: Summary)
    ensures listing.Err? ==> s == Summary(0, 0, 0, 0, 0, 1, false)
    ensures listing.Ok? ==>
      var n := |listing.value|;
      var v := Visited(answers, n);
      && s.candidateCount == n
      && s.purgedSessions == Count(answers, v)
      && s.chunksPurged == ChunkSum(answers, v)
      && s.markersPurged == MarkerSum(answers, v)
      && s.bytesPurged == ByteSum(answers, v)
      && s.errors == (if v < n then 1 else 0)
      && (s.batchTruncated <==> n == batchSize && s.errors == 0)
  {
    s := Summary(0, 0, 0, 0, 0, 0, false);
    if listing.Err? {
      s := s.(errors := 1);
      return;
    }
    var candidates := listing.value;
    s := s.(candidateCount := |candidates|, batchTruncated := |candidates| == batchSize);
    if |candidates| == 0 {
      return;
    }
    var i := 0;
    while i < |candidates|
      invariant 0 <= i <= |candidates|
      invariant forall j | 0 <= j < i :: !answers(j).Failed?
      invariant s == Summary(|candidates|, Count(answers, i), ChunkSum(answers, i), MarkerSum(answers, i),
                             ByteSum(answers, i), 0, |candidates| == batchSize)
    {
      match answers(i) {
        case Purged(chunkCount, markerCount, bytes) =>
          s := s.(purgedSessions := s.purgedSessions + 1,
                  chunksPurged := s.chunksPurged + chunkCount,
                  markersPurged := s.markersPurged + markerCount,
                  bytesPurged := s.bytesPurged + bytes);
        case NotEligible =>
        case Failed =>
          s := s.(errors := 1, batchTruncated := false);
          break;
      }
      i := i + 1;
    }
  }

  // ---------- the repository's contract ----------

  datatype Recording = Recording(closedAt: Option<int>, chunks: seq<nat>, markers: nat) {
    predicate HasRows() {
      chunks != [] || markers > 0
    }
  }

  /** The policy in force: retention period and the sweep's fixed instant. */
  datatype Policy = Policy(retention: int, now: int)

  datatype AuditRow = AuditRow(session: SessionId, chunkCount: nat, markerCount: nat, bytes: nat)

  datatype Repo = Repo(recordings: map<SessionId, Recording>, audit: seq<AuditRow>)

  predicate Eligible(repo: Repo, p: Policy, id: SessionId) {
    && id in repo.recordings
    && repo.recordings[id].closedAt.Some?
    && repo.recordings[id].closedAt.value + p.retention <= p.now
    && repo.recordings[id].HasRows()
  }

  function Backlog(repo: Repo, p: Policy): set<SessionId> {
    set id | id in repo.recordings && Eligible(repo, p, id)
  }

  function Total(lens: seq<nat>): nat {
    if lens == [] then 0 else lens[0] + Total(lens[1..])
  }

  lemma TotalOne(n: nat)
    ensures Total([]) == 0 && Total([n]) == n
  {
  }

  /** `Total` is the sum: nothing for no chunk, a chunk's own length, and additive. */
  lemma {:induction false} TotalAdds(a: seq<nat>, b: seq<nat>)
    ensures Total(a + b) == Total(a) + Total(b)
  {
    if a == [] {
      assert a + b == b;
    } else {
      assert (a + b)[1..] == a[1..] + b;
      TotalAdds(a[1..], b);
    }
  }

  /** One purge transaction: delete the session's rows and append one audit row, or nothing. */
  function Purge(repo: Repo, p: Policy, id: SessionId): Repo {
    if Eligible(repo, p, id) then
      var r := repo.recordings[id];
      Repo(repo.recordings[id := r.(chunks := [], markers := 0)],
           repo.audit + [AuditRow(id, |r.chunks|, r.markers, Total(r.chunks))])
    else repo
  }

  function PurgeAnswer(repo: Repo, p: Policy, id: SessionId): Answer {
    if Eligible(repo, p, id) then
      var r := repo.recordings[id];
      Purged(|r.chunks|, r.markers, Total(r.chunks))
    else NotEligible
  }

  /** The repository after the first `k` purges of a sweep. */
  function After(repo: Repo, p: Policy, ids: seq<SessionId>, k: nat): Repo
    requires k <= |ids|
  {
    if k == 0 then repo else Purge(After(repo, p, ids, k - 1), p, ids[k - 1])
  }

  /** What the repository answers, call by call, when nothing else touches it. */
  function CleanAnswers(repo: Repo, p: Policy, ids: seq<SessionId>): Answers {
    (i: nat) => if i < |ids| then PurgeAnswer(After(repo, p, ids, i), p, ids[i]) else NotEligible
  }

  ghost predicate Distinct(ids: seq<SessionId>) {
    forall i, j | 0 <= i < j < |ids| :: ids[i] != ids[j]
  }

  /** Distinct sessions, all of them eligible. */
  ghost predicate Listed(repo: Repo, p: Policy, ids: seq<SessionId>) {
    Distinct(ids) && forall i | 0 <= i < |ids| :: Eligible(repo, p, ids[i])
  }

  /** The recording may be purged: closed, at least the retention period ago, and not empty. */
  predicate Expired(r: Recording, p: Policy) {
    r.closedAt.Some? && r.closedAt.value <= p.now - p.retention && (|r.chunks| > 0 || r.markers > 0)
  }

  lemma {:induction false} UnexpiredKept(repo: Repo, p: Policy, ids: seq<SessionId>, k: nat, id: SessionId)
    requires k <= |ids| && id in repo.recordings && !Expired(repo.recordings[id], p)
    ensures var after := After(repo, p, ids, k).recordings;
      id in after && after[id] == repo.recordings[id]
  {
    if k > 0 {
      UnexpiredKept(repo, p, ids, k - 1, id);
    }
  }

  /** Whatever a sweep is asked to purge, stale or wrong ids included: a recording that is still
      open, or was closed less than the retention period ago, keeps every row. */
  lemma OpenOrRecentKept(repo: Repo, p: Policy, ids: seq<SessionId>, k: nat, id: SessionId)
    requires k <= |ids| && id in repo.recordings
    requires repo.recordings[id].closedAt.None? || repo.recordings[id].closedAt.value > p.now - p.retention
    ensures var after := After(repo, p, ids, k).recordings;
      id in after && after[id] == repo.recordings[id]
  {
    UnexpiredKept(repo, p, ids, k, id);
  }

  /** And an expired one that the sweep visits loses all of them, keeping its close time. */
  lemma {:induction false} ExpiredPurged(repo: Repo, p: Policy, ids: seq<SessionId>, k: nat, id: SessionId)
    requires k <= |ids| && id in repo.recordings && Expired(repo.recordings[id], p)
    ensures var after := After(repo, p, ids, k).recordings;
      id in after && after[id] ==
        if id in ids[..k] then Recording(repo.recordings[id].closedAt, [], 0) else repo.recordings[id]
  {
    if k > 0 {
      ExpiredPurged(repo, p, ids, k - 1, id);
      assert ids[..k] == ids[..k - 1] + [ids[k - 1]];
    }
  }

  /** The backlog is exactly the expired recordings. */
  lemma BacklogIsExpired(repo: Repo, p: Policy, id: SessionId)
    ensures id in Backlog(repo, p) <==> id in repo.recordings && Expired(repo.recordings[id], p)
  {
  }

  /** A listing: distinct eligible ids, as many as there are up to the limit. */
  ghost predicate IsListing(repo: Repo, p: Policy, ids: seq<SessionId>, limit: nat) {
    && Listed(repo, p, ids)
    && |ids| == Min(limit, |Backlog(repo, p)|)
  }

  function IdSet(ids: seq<SessionId>): set<SessionId> {
    set id | id in ids
  }

  lemma {:induction false} IdSetSize(ids: seq<SessionId>)
    requires Distinct(ids)
    ensures |IdSet(ids)| == |ids|
  {
    if ids != [] {
      var init, last := ids[..|ids| - 1], ids[|ids| - 1];
      IdSetSize(init);
      assert IdSet(ids) == IdSet(init) + {last};
    }
  }

  /** After `k` purges the visited recordings are empty and every other one is untouched. */
  lemma {:induction false} PurgesExactlyVisited(repo: Repo, p: Policy, ids: seq<SessionId>, k: nat)
    requires Listed(repo, p, ids) && k <= |ids|
    ensures After(repo, p, ids, k).recordings.Keys == repo.recordings.Keys
    ensures forall id | id in repo.recordings ::
      After(repo, p, ids, k).recordings[id] ==
        if id in ids[..k] then repo.recordings[id].(chunks := [], markers := 0) else repo.recordings[id]
  {
    if k > 0 {
      PurgesExactlyVisited(repo, p, ids, k - 1);
      assert ids[..k] == ids[..k - 1] + [ids[k - 1]];
      assert ids[k - 1] !in ids[..k - 1];
    }
  }

  /** The counts a session holds, as an audit row for purging it. */
  function AuditFor(repo: Repo, id: SessionId): AuditRow {
    if id !in repo.recordings then AuditRow(id, 0, 0, 0)
    else
      var r := repo.recordings[id];
      AuditRow(id, |r.chunks|, r.markers, Total(r.chunks))
  }

  /** When its turn comes a listed session still has all its rows. */
  lemma TurnFindsRows(repo: Repo, p: Policy, ids: seq<SessionId>, i: nat)
    requires Listed(repo, p, ids) && i < |ids|
    ensures Eligible(repo, p, ids[i]) && Eligible(After(repo, p, ids, i), p, ids[i])
    ensures After(repo, p, ids, i).recordings[ids[i]] == repo.recordings[ids[i]]
  {
    PurgesExactlyVisited(repo, p, ids, i);
    assert ids[i] !in ids[..i];
  }

  lemma CleanAnswer(repo: Repo, p: Policy, ids: seq<SessionId>, i: nat)
    requires Listed(repo, p, ids) && i < |ids|
    ensures var row := AuditFor(repo, ids[i]);
      CleanAnswers(repo, p, ids)(i) == Purged(row.chunkCount, row.markerCount, row.bytes)
  {
    TurnFindsRows(repo, p, ids, i);
  }

  /** What the listed sessions held before the sweep, session by session. */
  function Holdings(repo: Repo, ids: seq<SessionId>): seq<AuditRow> {
    seq(|ids|, i requires 0 <= i < |ids| => AuditFor(repo, ids[i]))
  }

  function BytesHeld(rows: seq<AuditRow>): nat {
    if rows == [] then 0 else BytesHeld(rows[..|rows| - 1]) + rows[|rows| - 1].bytes
  }

  function ChunksHeld(rows: seq<AuditRow>): nat {
    if rows == [] then 0 else ChunksHeld(rows[..|rows| - 1]) + rows[|rows| - 1].chunkCount
  }

  function MarkersHeld(rows: seq<AuditRow>): nat {
    if rows == [] then 0 else MarkersHeld(rows[..|rows| - 1]) + rows[|rows| - 1].markerCount
  }

  lemma {:induction false} SumsOfRows(a: Answers, rows: seq<AuditRow>)
    requires forall i | 0 <= i < |rows| :: a(i) == Purged(rows[i].chunkCount, rows[i].markerCount, rows[i].bytes)
    ensures Visited(a, |rows|) == |rows| && Count(a, |rows|) == |rows|
    ensures ChunkSum(a, |rows|) == ChunksHeld(rows) && MarkerSum(a, |rows|) == MarkersHeld(rows)
    ensures ByteSum(a, |rows|) == BytesHeld(rows)
  {
    if rows != [] {
      SumsOfRows(a, rows[..|rows| - 1]);
    }
  }

  /** Conservation: a clean sweep purges every candidate, none fails, and its totals are exactly
      what those sessions held. */
  lemma CleanSweepConserves(repo: Repo, p: Policy, ids: seq<SessionId>)
    requires Listed(repo, p, ids)
    ensures var a, n := CleanAnswers(repo, p, ids), |ids|;
      && Visited(a, n) == n && Count(a, n) == n
      && ChunkSum(a, n) == ChunksHeld(Holdings(repo, ids))
      && MarkerSum(a, n) == MarkersHeld(Holdings(repo, ids))
      && ByteSum(a, n) == BytesHeld(Holdings(repo, ids))
  {
    forall i: nat | i < |ids| ensures
      var row := AuditFor(repo, ids[i]);
      CleanAnswers(repo, p, ids)(i) == Purged(row.chunkCount, row.markerCount, row.bytes)
    {
      CleanAnswer(repo, p, ids, i);
    }
    SumsOfRows(CleanAnswers(repo, p, ids), Holdings(repo, ids));
  }

  /** Each purge of a clean sweep leaves exactly one audit row, with the counts it deleted. */
  lemma {:induction false} OneAuditRowEach(repo: Repo, p: Policy, ids: seq<SessionId>, k: nat)
    requires Listed(repo, p, ids) && k <= |ids|
    ensures After(repo, p, ids, k).audit == repo.audit + Holdings(repo, ids)[..k]
  {
    if k > 0 {
      OneAuditRowEach(repo, p, ids, k - 1);
      TurnFindsRows(repo, p, ids, k - 1);
      assert Holdings(repo, ids)[..k] == Holdings(repo, ids)[..k - 1] + [AuditFor(repo, ids[k - 1])];
    }
  }

  /** A clean sweep removes exactly its listing from the backlog. */
  lemma SweepShrinksBacklog(repo: Repo, p: Policy, ids: seq<SessionId>, limit: nat)
    requires IsListing(repo, p, ids, limit)
    ensures Backlog(After(repo, p, ids, |ids|), p) == Backlog(repo, p) - IdSet(ids)
    ensures |Backlog(After(repo, p, ids, |ids|), p)| == |Backlog(repo, p)| - |ids|
  {
    PurgesExactlyVisited(repo, p, ids, |ids|);
    assert ids[..|ids|] == ids;
    var repo' := After(repo, p, ids, |ids|);
    forall id ensures id in Backlog(repo', p) <==> id in Backlog(repo, p) && id !in ids {
    }
    IdSetSize(ids);
    assert IdSet(ids) <= Backlog(repo, p);
  }

  /** A run of clean sweeps at one instant, each over some listing of the backlog it found. */
  ghost predicate SweepRun(repos: seq<Repo>, p: Policy, batch: nat) {
    && repos != []
    && (forall i | 0 <= i < |repos| - 1 :: SweepStep(repos[i], repos[i + 1], p, batch))
  }

  ghost predicate SweepStep(repo: Repo, repo': Repo, p: Policy, batch: nat) {
    exists ids :: IsListing(repo, p, ids, batch) && repo' == After(repo, p, ids, |ids|)
  }

  lemma StepShrinksBacklog(repo: Repo, repo': Repo, p: Policy, batch: nat)
    requires SweepStep(repo, repo', p, batch)
    ensures |Backlog(repo', p)| == |Backlog(repo, p)| - Min(batch, |Backlog(repo, p)|)
  {
    var ids :| IsListing(repo, p, ids, batch) && repo' == After(repo, p, ids, |ids|);
    SweepShrinksBacklog(repo, p, ids, batch);
  }

  /** After `k` sweeps exactly `max(0, n - k * batch)` eligible sessions remain. */
  lemma {:induction false} BacklogAfter(repos: seq<Repo>, p: Policy, batch: nat, k: nat)
    requires SweepRun(repos, p, batch) && k < |repos|
    ensures |Backlog(repos[k], p)| == Max(0, |Backlog(repos[0], p)| - k * batch)
  {
    if k > 0 {
      BacklogAfter(repos, p, batch, k - 1);
      assert SweepStep(repos[k - 1], repos[k - 1 + 1], p, batch);
      StepShrinksBacklog(repos[k - 1], repos[k], p, batch);
      DrainArithmetic(|Backlog(repos[0], p)|, batch, k);
    }
  }

  lemma DrainArithmetic(n: nat, batch: nat, k: nat)
    requires k > 0
    ensures var left := Max(0, n - (k - 1) * batch); left - Min(batch, left) == Max(0, n - k * batch)
  {
    assert k * batch == (k - 1) * batch + batch;
  }

  /** `n` eligible sessions take exactly `ceil(n / batch)` sweeps: that many drain the backlog
      and no fewer do. */
  lemma DrainsInCeil(repos: seq<Repo>, p: Policy, batch: nat, k: nat)
    requires SweepRun(repos, p, batch) && k < |repos| && batch > 0
    ensures Backlog(repos[k], p) == {} <==> k >= (|Backlog(repos[0], p)| + batch - 1) / batch
  {
    BacklogAfter(repos, p, batch, k);
    CeilCovers(|Backlog(repos[0], p)|, batch, k);
  }

  lemma CeilCovers(n: nat, batch: nat, k: nat)
    requires batch > 0
    ensures k * batch >= n <==> k >= (n + batch - 1) / batch
  {
    var q := (n + batch - 1) / batch;
    assert q * batch <= n + batch - 1 < q * batch + batch;
    if k >= q {
      assert (k - q) * batch >= 0;
      assert k * batch == q * batch + (k - q) * batch;
    } else {
      assert (q - 1 - k) * batch >= 0;
      assert q * batch == k * batch + batch + (q - 1 - k) * batch;
    }
  }

  /** The worker may trust the flag: if anything is still eligible after a clean sweep, the
      sweep reported a full batch. */
  lemma UntruncatedMeansDrained(repo: Repo, p: Policy, ids: seq<SessionId>, batch: nat)
    requires IsListing(repo, p, ids, batch)
    ensures |ids| != batch ==> Backlog(After(repo, p, ids, |ids|), p) == {}
  {
    SweepShrinksBacklog(repo, p, ids, batch);
  }
}

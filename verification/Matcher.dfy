// Worker selection (crates/decentgpu-master/src/scheduler/matcher.rs), over exact rationals.
module Matcher {
  import opened Types

  datatype Gpu = Gpu(vramMb: nat, backend: GpuBackend)

  datatype WorkerCandidate = WorkerCandidate(peer: PeerId, gpus: seq<Gpu>, uptime: real, jobs: nat, busy: bool)

  datatype MatchRequest = MatchRequest(backend: GpuBackend, memoryMb: nat)

  // ── Filters and scores ─────────────────────────────────────────────────────────────────

  predicate BackendMatches(c: WorkerCandidate, required: GpuBackend) {
    required == CpuOnly || exists g :: g in c.gpus && g.backend == required
  }

  predicate HasEnoughVram(c: WorkerCandidate, memoryMb: nat) {
    exists g :: g in c.gpus && g.vramMb >= memoryMb
  }

  predicate Eligible(c: WorkerCandidate, request: MatchRequest) {
    && !c.busy
    && BackendMatches(c, request.backend)
    && (request.backend != CpuOnly ==> HasEnoughVram(c, request.memoryMb))
  }

  function Clamp(x: real): real {
    if x < 0.0 then 0.0 else if x > 1.0 then 1.0 else x
  }

  function Abs(x: real): real {
    if x < 0.0 then -x else x
  }

  /** The smallest VRAM that still fits, or 0 when none does. */
  function BestVram(gpus: seq<Gpu>, memoryMb: nat): nat {
    if gpus == [] then 0
    else
      var rest := BestVram(gpus[1..], memoryMb);
      var fitsLater := exists g :: g in gpus[1..] && g.vramMb >= memoryMb;
      if gpus[0].vramMb >= memoryMb && (!fitsLater || gpus[0].vramMb < rest) then gpus[0].vramMb else rest
  }

  /** `BestVram` is the least fitting VRAM; only a list without a fitting GPU gives a misfit. */
  lemma {:induction false} BestVramMeaning(gpus: seq<Gpu>, memoryMb: nat)
    ensures if exists g :: g in gpus && g.vramMb >= memoryMb
            then (exists g :: g in gpus && g.vramMb == BestVram(gpus, memoryMb) >= memoryMb)
                 && forall g :: g in gpus && g.vramMb >= memoryMb ==> BestVram(gpus, memoryMb) <= g.vramMb
            else BestVram(gpus, memoryMb) == 0
  {
    if gpus != [] {
      BestVramMeaning(gpus[1..], memoryMb);
      assert gpus == [gpus[0]] + gpus[1..];
      assert gpus[0] in gpus && forall g :: g in gpus[1..] ==> g in gpus;
    }
  }

  /** Highest when the job would use 70% of the chosen GPU's VRAM. */
  function ResourceMatchScore(c: WorkerCandidate, request: MatchRequest): real {
    if request.backend == CpuOnly then 1.0
    else
      var available := BestVram(c.gpus, request.memoryMb);
      if available == 0 then 0.0
      else Clamp(1.0 - Abs(request.memoryMb as real / available as real - 0.7) * 2.0)
  }

  /** The normalising denominator: the largest job count among all candidates, but at least 1. */
  function MaxJobs(candidates: seq<WorkerCandidate>): (m: nat)
    ensures m >= 1
  {
    if candidates == [] then 1
    else
      var rest := MaxJobs(candidates[..|candidates| - 1]);
      var last := candidates[|candidates| - 1].jobs;
      if last > rest then last else rest
  }

  function JobsComponent(jobs: nat, maxJobs: nat): real
    requires maxJobs >= 1
  {
    var share := jobs as real / maxJobs as real;
    if share > 1.0 then 1.0 else share
  }

  function Score(c: WorkerCandidate, request: MatchRequest, maxJobs: nat): real
    requires maxJobs >= 1
  {
    Clamp(c.uptime / 100.0) * 0.40 + JobsComponent(c.jobs, maxJobs) * 0.30 + ResourceMatchScore(c, request) * 0.30
  }

  // ── The stable descending sort ─────────────────────────────────────────────────────────

  /** A scored candidate, named by its position among the candidates. */
  datatype Scored = Scored(score: real, position: nat)

  /** The order a stable descending sort leaves: higher score first, ties in candidate order. */
  predicate Before(a: Scored, b: Scored) {
    a.score > b.score || (a.score == b.score && a.position < b.position)
  }

  predicate InOrder(s: seq<Scored>) {
    forall i, j :: 0 <= i < j < |s| ==> Before(s[i], s[j])
  }

  /** Puts `x` after every entry whose score is not lower. */
  function Insert(x: Scored, s: seq<Scored>): seq<Scored> {
    if s == [] then [x]
    else if s[0].score < x.score then [x] + s
    else [s[0]] + Insert(x, s[1..])
  }

  function StableSortDesc(s: seq<Scored>): seq<Scored> {
    if s == [] then [] else Insert(s[|s| - 1], StableSortDesc(s[..|s| - 1]))
  }

  lemma {:induction false} InsertAdds(x: Scored, s: seq<Scored>)
    ensures multiset(Insert(x, s)) == multiset(s) + multiset{x}
  {
    if s != [] {
      assert s == [s[0]] + s[1..];
      InsertAdds(x, s[1..]);
    }
  }

  lemma {:induction false} InsertKeepsOrder(x: Scored, s: seq<Scored>)
    requires InOrder(s) && forall i :: 0 <= i < |s| ==> s[i].position < x.position
    ensures InOrder(Insert(x, s))
  {
    if s != [] && s[0].score >= x.score {
      var t := Insert(x, s[1..]);
      InsertKeepsOrder(x, s[1..]);
      InsertAdds(x, s[1..]);
      forall j | 0 <= j < |t|
        ensures Before(s[0], t[j])
      {
        assert t[j] in multiset(t);
        if t[j] != x {
          assert t[j] in s[1..];
        }
      }
    }
  }

  predicate Ascending(s: seq<Scored>) {
    forall i, j :: 0 <= i < j < |s| ==> s[i].position < s[j].position
  }

  lemma {:induction false} SortSorts(s: seq<Scored>)
    requires Ascending(s)
    ensures InOrder(StableSortDesc(s)) && multiset(StableSortDesc(s)) == multiset(s)
  {
    if s != [] {
      var before, last := s[..|s| - 1], s[|s| - 1];
      SortSorts(before);
      var sorted := StableSortDesc(before);
      forall i | 0 <= i < |sorted|
        ensures sorted[i].position < last.position
      {
        assert sorted[i] in multiset(sorted) && sorted[i] in before;
      }
      InsertKeepsOrder(last, sorted);
      InsertAdds(last, sorted);
      assert s == before + [last];
    }
  }

  // ── Selection ──────────────────────────────────────────────────────────────────────────

  /** The filtered and scored candidates, in candidate order. */
  function ScoredUpTo(candidates: seq<WorkerCandidate>, request: MatchRequest, n: nat): (s: seq<Scored>)
    requires n <= |candidates|
    ensures Ascending(s)
    ensures forall x :: x in s <==>
              x.position < n && Eligible(candidates[x.position], request)
              && x.score == Score(candidates[x.position], request, MaxJobs(candidates))
  {
    if n == 0 then []
    else
      var before := ScoredUpTo(candidates, request, n - 1);
      var c := candidates[n - 1];
      if Eligible(c, request) then before + [Scored(Score(c, request, MaxJobs(candidates)), n - 1)] else before
  }

  function Ranking(candidates: seq<WorkerCandidate>, request: MatchRequest): seq<Scored> {
    StableSortDesc(ScoredUpTo(candidates, request, |candidates|))
  }

  function Truncate(s: seq<Scored>, n: nat): seq<Scored> {
    if |s| <= n then s else s[..n]
  }

  /** The positions of the selected workers, best first. */
  function Selected(candidates: seq<WorkerCandidate>, request: MatchRequest): seq<nat> {
    var best := Truncate(Ranking(candidates, request), 3);
    seq(|best|, i requires 0 <= i < |best| => best[i].position)
  }

  function PeersAt(positions: seq<nat>, candidates: seq<WorkerCandidate>): seq<PeerId>
    requires forall i :: 0 <= i < |positions| ==> positions[i] < |candidates|
  {
    seq(|positions|, i requires 0 <= i < |positions| => candidates[positions[i]].peer)
  }

  /** A declarative top three: as many eligible candidates as there are, up to three, in order of
      score with ties in candidate order, and nobody left out who comes before one of them. */
  ghost predicate IsTopThree(chosen: seq<nat>, candidates: seq<WorkerCandidate>, request: MatchRequest) {
    |chosen| <= 3 && Ranked(chosen, candidates, request) && LeavesOutOnlyWorse(chosen, candidates, request)
  }

  ghost predicate Ranked(chosen: seq<nat>, candidates: seq<WorkerCandidate>, request: MatchRequest) {
    && (forall i :: 0 <= i < |chosen| ==> chosen[i] < |candidates| && Eligible(candidates[chosen[i]], request))
    && (forall i, j :: 0 <= i < j < |chosen| ==> Outranks(chosen[i], chosen[j], candidates, request))
  }

  ghost predicate LeavesOutOnlyWorse(chosen: seq<nat>, candidates: seq<WorkerCandidate>, request: MatchRequest)
    requires Ranked(chosen, candidates, request)
  {
    forall k :: 0 <= k < |candidates| && Eligible(candidates[k], request) && k !in chosen ==>
      |chosen| == 3 && forall i :: 0 <= i < |chosen| ==> Outranks(chosen[i], k, candidates, request)
  }

  predicate Outranks(i: nat, k: nat, candidates: seq<WorkerCandidate>, request: MatchRequest)
    requires i < |candidates| && k < |candidates|
  {
    var maxJobs := MaxJobs(candidates);
    var a, b := Score(candidates[i], request, maxJobs), Score(candidates[k], request, maxJobs);
    a > b || (a == b && i < k)
  }

  /** Every entry of the ranking is an eligible candidate with its score, and all are there. */
  lemma RankingMeaning(candidates: seq<WorkerCandidate>, request: MatchRequest)
    ensures InOrder(Ranking(candidates, request))
    ensures forall x :: x in Ranking(candidates, request) <==>
              x.position < |candidates| && Eligible(candidates[x.position], request)
              && x.score == Score(candidates[x.position], request, MaxJobs(candidates))
  {
    var scored := ScoredUpTo(candidates, request, |candidates|);
    SortSorts(scored);
    forall x
      ensures x in Ranking(candidates, request) <==> x in scored
    {
      assert x in multiset(Ranking(candidates, request)) <==> x in multiset(scored);
    }
  }

  lemma SelectionIsTopThree(candidates: seq<WorkerCandidate>, request: MatchRequest)
    ensures IsTopThree(Selected(candidates, request), candidates, request)
  {
    RankingMeaning(candidates, request);
    var ranking := Ranking(candidates, request);
    var chosen := Selected(candidates, request);
    assert forall i :: 0 <= i < |chosen| ==> ranking[i] in ranking && chosen[i] == ranking[i].position;
    forall k | 0 <= k < |candidates| && Eligible(candidates[k], request) && k !in chosen
      ensures |chosen| == 3 && forall i :: 0 <= i < |chosen| ==> Outranks(chosen[i], k, candidates, request)
    {
      var x := Scored(Score(candidates[k], request, MaxJobs(candidates)), k);
      assert x in ranking;
      var p :| 0 <= p < |ranking| && ranking[p] == x;
      assert p >= |chosen|;
    }
  }

  /** An idle worker that can take the job: any for a CPU job, and otherwise one with a GPU of the
      right backend and a GPU, the same or another, with enough memory. */
  predicate Suits(c: WorkerCandidate, request: MatchRequest) {
    && !c.busy
    && (request.backend == CpuOnly
        || ((exists g :: g in c.gpus && g.backend == request.backend)
            && (exists g :: g in c.gpus && g.vramMb >= request.memoryMb)))
  }

  /** The filters of the selection let exactly these workers through. */
  lemma EligibleSuits(c: WorkerCandidate, request: MatchRequest)
    ensures Eligible(c, request) <==> Suits(c, request)
  {
  }

  /** Scores, sorts and truncates a local vector; the result is the one declarative top three of the
      workers that suit the job. */
  method SelectWorkers(candidates: seq<WorkerCandidate>, request: MatchRequest) returns (peers: seq<PeerId>)
    ensures IsTopThree(Selected(candidates, request), candidates, request)
    ensures |peers| == |Selected(candidates, request)| <= 3
    ensures forall i :: 0 <= i < |peers| ==>
              && Selected(candidates, request)[i] < |candidates|
              && var c := candidates[Selected(candidates, request)[i]]; peers[i] == c.peer && Suits(c, request)
    ensures forall k :: 0 <= k < |candidates| && Suits(candidates[k], request) ==>
              k in Selected(candidates, request) || |peers| == 3
  {
    SelectionIsTopThree(candidates, request);
    var scored := ScoredUpTo(candidates, request, |candidates|);
    scored := StableSortDesc(scored);
    scored := Truncate(scored, 3);
    peers := PeersAt(seq(|scored|, i requires 0 <= i < |scored| => scored[i].position), candidates);
  }

  /** The declarative top three leaves no choice. */
  lemma TopThreeIsUnique(a: seq<nat>, b: seq<nat>, candidates: seq<WorkerCandidate>, request: MatchRequest)
    requires IsTopThree(a, candidates, request) && IsTopThree(b, candidates, request)
    ensures a == b
  {
    TopThreeAgree(a, b, candidates, request, if |a| < |b| then |a| else |b|);
    assert a[..|a|] == a && b[..|b|] == b;
    if |a| < |b| {
      FullIfContinued(a, b, candidates, request);
    } else if |b| < |a| {
      FullIfContinued(b, a, candidates, request);
    }
  }

  /** A top three that a longer ranking goes on from is full. */
  lemma FullIfContinued(a: seq<nat>, b: seq<nat>, candidates: seq<WorkerCandidate>, request: MatchRequest)
    requires Ranked(a, candidates, request) && LeavesOutOnlyWorse(a, candidates, request)
    requires Ranked(b, candidates, request) && |a| < |b| && a == b[..|a|]
    ensures |a| == 3
  {
    forall i | 0 <= i < |a|
      ensures a[i] != b[|a|]
    {
      assert a[i] == b[i] && Outranks(b[i], b[|a|], candidates, request);
    }
    assert Eligible(candidates[b[|a|]], request) && b[|a|] !in a;
  }

  lemma {:induction false} TopThreeAgree(a: seq<nat>, b: seq<nat>, candidates: seq<WorkerCandidate>,
                                         request: MatchRequest, n: nat)
    requires IsTopThree(a, candidates, request) && IsTopThree(b, candidates, request)
    requires n <= |a| && n <= |b|
    ensures a[..n] == b[..n]
  {
    if n > 0 {
      TopThreeAgree(a, b, candidates, request, n - 1);
      if a[n - 1] != b[n - 1] {
        FirstDifferenceOutranks(a, b, candidates, request, n - 1);
        FirstDifferenceOutranks(b, a, candidates, request, n - 1);
        assert false;
      }
    }
  }

  /** Where a ranking first differs from a top three, the top three has the better candidate. */
  lemma FirstDifferenceOutranks(a: seq<nat>, b: seq<nat>, candidates: seq<WorkerCandidate>,
                                request: MatchRequest, i: nat)
    requires Ranked(a, candidates, request) && IsTopThree(b, candidates, request)
    requires i < |a| && i < |b| && a[..i] == b[..i] && a[i] != b[i]
    ensures Outranks(b[i], a[i], candidates, request)
  {
    if a[i] in b {
      var j :| 0 <= j < |b| && b[j] == a[i];
      assert forall q :: 0 <= q < i ==> a[..i][q] == b[..i][q] && Outranks(a[q], a[i], candidates, request);
      assert Outranks(b[i], b[j], candidates, request);
    } else {
      assert Outranks(b[i], a[i], candidates, request);
    }
  }

  /** All three components are shares of one, so the score is too. */
  lemma ScoreInUnitInterval(c: WorkerCandidate, request: MatchRequest, maxJobs: nat)
    requires maxJobs >= 1
    ensures 0.0 <= Score(c, request, maxJobs) <= 1.0
  {
    assert c.jobs as real / maxJobs as real >= 0.0;
  }

  /** A score is full exactly for a worker who is full in all three respects. */
  lemma FullScore(c: WorkerCandidate, request: MatchRequest, maxJobs: nat)
    requires maxJobs >= 1
    ensures Score(c, request, maxJobs) == 1.0
        <==> c.uptime >= 100.0 && c.jobs >= maxJobs && ResourceMatchScore(c, request) == 1.0
  {
    var share := c.jobs as real / maxJobs as real;
    assert share * maxJobs as real == c.jobs as real;
    if share >= 1.0 {
      Cancel(1.0, share, 1.0);
      assert (share - 1.0) * maxJobs as real >= 0.0;
    } else {
      assert (1.0 - share) * maxJobs as real > 0.0;
    }
  }

  /** A point of uptime, of the hundred, is worth 0.004. */
  lemma UptimeIsWorth(c: WorkerCandidate, uptime: real, request: MatchRequest, maxJobs: nat)
    requires maxJobs >= 1 && 0.0 <= c.uptime <= uptime <= 100.0
    ensures Score(c.(uptime := uptime), request, maxJobs) - Score(c, request, maxJobs) == 0.004 * (uptime - c.uptime)
  {
  }

  /** Uptimes outside 0 to 100 count as the nearer end. */
  lemma UptimeIsBounded(c: WorkerCandidate, request: MatchRequest, maxJobs: nat)
    requires maxJobs >= 1
    ensures c.uptime < 0.0 ==> Score(c, request, maxJobs) == Score(c.(uptime := 0.0), request, maxJobs)
    ensures c.uptime > 100.0 ==> Score(c, request, maxJobs) == Score(c.(uptime := 100.0), request, maxJobs)
  {
  }

  lemma ShareOfMost(jobs: nat, most: nat)
    requires most >= 1 && jobs <= most
    ensures JobsComponent(jobs, most) * most as real == jobs as real
  {
    var share := jobs as real / most as real;
    QuotientTimes(jobs as real, most as real);
    if share > 1.0 {
      assert (share - 1.0) * most as real > 0.0;
    }
  }

  lemma QuotientTimes(x: real, y: real)
    requires y != 0.0
    ensures x / y * y == x
  {
  }

  /** A completed job, of the most that any candidate has, is worth 0.3 over that most. */
  lemma JobsAreWorth(c: WorkerCandidate, jobs: nat, request: MatchRequest, most: nat)
    requires most >= 1 && c.jobs <= jobs <= most
    ensures (Score(c.(jobs := jobs), request, most) - Score(c, request, most)) * most as real
         == 0.3 * (jobs as real - c.jobs as real)
  {
    ShareOfMost(c.jobs, most);
    ShareOfMost(jobs, most);
    var x, y := JobsComponent(c.jobs, most), JobsComponent(jobs, most);
    assert Score(c.(jobs := jobs), request, most) - Score(c, request, most) == 0.3 * (y - x);
    Distribute(x, y, most as real);
  }

  lemma Distribute(x: real, y: real, m: real)
    ensures 0.3 * (y - x) * m == 0.3 * (y * m - x * m)
  {
  }

  /** A worker without uptime or completed jobs scores 0.3 for a CPU job, and for a GPU job 0.3 less 0.6
      for each unit that the use of its GPU is away from 0.7, but not less than nothing. */
  lemma FitIsWorth(c: WorkerCandidate, request: MatchRequest, maxJobs: nat)
    requires maxJobs >= 1 && c.uptime == 0.0 && c.jobs == 0
    ensures request.backend == CpuOnly ==> Score(c, request, maxJobs) == 0.3
    ensures request.backend != CpuOnly && BestVram(c.gpus, request.memoryMb) == 0 ==> Score(c, request, maxJobs) == 0.0
    ensures request.backend != CpuOnly && BestVram(c.gpus, request.memoryMb) > 0 ==>
              var away := request.memoryMb as real / BestVram(c.gpus, request.memoryMb) as real - 0.7;
              var distance := if away < 0.0 then -away else away;
              Score(c, request, maxJobs) == if distance < 0.5 then 0.3 - 0.6 * distance else 0.0
  {
    assert 0.0 / maxJobs as real == 0.0;
    assert JobsComponent(0, maxJobs) == 0.0;
  }

  /** How far the job is from using 70% of the GPU chosen for it. */
  function Misfit(c: WorkerCandidate, request: MatchRequest): real
    requires BestVram(c.gpus, request.memoryMb) > 0
  {
    Abs(request.memoryMb as real / BestVram(c.gpus, request.memoryMb) as real - 0.7)
  }

  lemma QuotientIs(x: real, y: real, k: real)
    requires y > 0.0
    ensures x / y == k <==> x == k * y
  {
    var q := x / y;
    assert q * y == x;
    if x == k * y {
      assert (q - k) * y == 0.0;
    }
  }

  lemma Tenths(memory: nat, vram: nat)
    ensures memory as real == 0.7 * vram as real <==> 10 * memory == 7 * vram
  {
  }

  lemma SeventyPercent(memory: nat, vram: nat)
    requires vram > 0
    ensures memory as real / vram as real == 0.7 <==> 10 * memory == 7 * vram
  {
    QuotientIs(memory as real, vram as real, 0.7);
    Tenths(memory, vram);
  }

  lemma FitIsMisfit(c: WorkerCandidate, request: MatchRequest)
    requires request.backend != CpuOnly && BestVram(c.gpus, request.memoryMb) > 0
    ensures ResourceMatchScore(c, request) == Clamp(1.0 - Misfit(c, request) * 2.0)
    ensures Misfit(c, request) == 0.0 <==> 10 * request.memoryMb == 7 * BestVram(c.gpus, request.memoryMb)
  {
    SeventyPercent(request.memoryMb, BestVram(c.gpus, request.memoryMb));
  }

  /** Of two workers for a GPU job, the one whose GPU comes closer to 70% use never scores lower on
      resources, and the score is full exactly at 70%. */
  lemma CloserFitScoresHigher(c: WorkerCandidate, d: WorkerCandidate, request: MatchRequest)
    requires request.backend != CpuOnly
    requires BestVram(c.gpus, request.memoryMb) > 0 && BestVram(d.gpus, request.memoryMb) > 0
    ensures Misfit(c, request) <= Misfit(d, request) ==>
              ResourceMatchScore(c, request) >= ResourceMatchScore(d, request)
    ensures ResourceMatchScore(c, request) == 1.0
        <==> 10 * request.memoryMb == 7 * BestVram(c.gpus, request.memoryMb)
  {
    FitIsMisfit(c, request);
    FitIsMisfit(d, request);
  }

  /** Whoever comes first is eligible and has a maximal score; nobody comes first only when
      nobody is eligible. */
  lemma BestComesFirst(candidates: seq<WorkerCandidate>, request: MatchRequest)
    ensures Selected(candidates, request) == [] <==> forall c :: c in candidates ==> !Eligible(c, request)
    ensures Selected(candidates, request) != [] ==>
              var first := Selected(candidates, request)[0];
              && first < |candidates| && Eligible(candidates[first], request)
              && forall c :: c in candidates && Eligible(c, request) ==>
                   Score(c, request, MaxJobs(candidates)) <= Score(candidates[first], request, MaxJobs(candidates))
  {
    SelectionIsTopThree(candidates, request);
    var chosen := Selected(candidates, request);
    forall c | c in candidates && Eligible(c, request)
      ensures chosen != []
      ensures Score(c, request, MaxJobs(candidates)) <= Score(candidates[chosen[0]], request, MaxJobs(candidates))
    {
      var k :| 0 <= k < |candidates| && candidates[k] == c;
      if k in chosen {
        var j :| 0 <= j < |chosen| && chosen[j] == k;
        assert j > 0 ==> Outranks(chosen[0], chosen[j], candidates, request);
      } else {
        assert Outranks(chosen[0], k, candidates, request);
      }
    }
  }

  // ── Monotonicity ───────────────────────────────────────────────────────────────────────

  /** `MaxJobs` is the least bound of 1 and all job counts. */
  lemma {:induction false} MaxJobsMeaning(candidates: seq<WorkerCandidate>)
    ensures forall c :: c in candidates ==> c.jobs <= MaxJobs(candidates)
    ensures MaxJobs(candidates) == 1 || exists c :: c in candidates && c.jobs == MaxJobs(candidates)
  {
    if candidates != [] {
      var before, last := candidates[..|candidates| - 1], candidates[|candidates| - 1];
      MaxJobsMeaning(before);
      assert candidates == before + [last];
      assert last in candidates;
    }
  }

  /** `c'` differs from `c` only by a higher uptime or job count. */
  predicate Improves(c: WorkerCandidate, c': WorkerCandidate) {
    c' == c.(uptime := c'.uptime, jobs := c'.jobs) && c'.uptime >= c.uptime && c'.jobs >= c.jobs
  }

  lemma Cancel(x: real, y: real, m: real)
    requires m > 0.0 && x * m <= y * m
    ensures x <= y
  {
    assert (x - y) * m <= 0.0;
  }

  lemma ShareShrinks(jobs: nat, m: nat, m': nat)
    requires 1 <= m <= m'
    ensures JobsComponent(jobs, m') <= JobsComponent(jobs, m)
  {
    var x, y := jobs as real / m as real, jobs as real / m' as real;
    assert x * m as real == y * m' as real == jobs as real;
    assert y * m as real <= y * m' as real;
    Cancel(y, x, m as real);
  }

  lemma ShareGrows(jobs: nat, jobs': nat, m: nat, m': nat)
    requires 1 <= m && 1 <= m' && jobs <= jobs'
    requires m' == m || m' == jobs'
    ensures JobsComponent(jobs, m) <= JobsComponent(jobs', m')
  {
    if m' == m {
      var x, y := jobs as real / m as real, jobs' as real / m as real;
      assert x * m as real == jobs as real && y * m as real == jobs' as real;
      Cancel(x, y, m as real);
    } else {
      assert jobs' as real / jobs' as real == 1.0;
    }
  }

  /** Improving one candidate raises the common denominator to its own job count or not at all. */
  lemma MaxJobsAfterImprovement(candidates: seq<WorkerCandidate>, k: nat, c': WorkerCandidate)
    requires k < |candidates| && Improves(candidates[k], c')
    ensures MaxJobs(candidates) <= MaxJobs(candidates[k := c'])
    ensures MaxJobs(candidates[k := c']) == MaxJobs(candidates) || MaxJobs(candidates[k := c']) == c'.jobs
  {
    var improved := candidates[k := c'];
    MaxJobsMeaning(candidates);
    MaxJobsMeaning(improved);
    forall c | c in candidates
      ensures c.jobs <= MaxJobs(improved)
    {
      var i :| 0 <= i < |candidates| && candidates[i] == c;
      assert improved[i] in improved;
    }
    forall c | c in improved && c != c'
      ensures c in candidates
    {
      var i :| 0 <= i < |improved| && improved[i] == c;
      assert candidates[i] == c;
    }
  }

  /** Nobody newly outranks a candidate that improves. */
  lemma ImprovementLosesNoRank(candidates: seq<WorkerCandidate>, request: MatchRequest, k: nat,
                               c': WorkerCandidate, j: nat)
    requires k < |candidates| && j < |candidates| && j != k && Improves(candidates[k], c')
    requires Outranks(j, k, candidates[k := c'], request)
    ensures Outranks(j, k, candidates, request)
  {
    var m, m' := MaxJobs(candidates), MaxJobs(candidates[k := c']);
    MaxJobsAfterImprovement(candidates, k, c');
    ShareShrinks(candidates[j].jobs, m, m');
    ShareGrows(candidates[k].jobs, c'.jobs, m, m');
    assert ResourceMatchScore(c', request) == ResourceMatchScore(candidates[k], request);
    assert Score(candidates[j], request, m') <= Score(candidates[j], request, m);
    assert Score(candidates[k], request, m) <= Score(c', request, m');
  }

  /** A selected worker whose uptime or job count rises stays selected, although its job count
      may change the score of everyone. */
  lemma SelectionIsMonotone(candidates: seq<WorkerCandidate>, request: MatchRequest, k: nat, c': WorkerCandidate)
    requires k < |candidates| && k in Selected(candidates, request)
    requires Improves(candidates[k], c')
    ensures k in Selected(candidates[k := c'], request)
  {
    var improved := candidates[k := c'];
    SelectionIsTopThree(candidates, request);
    SelectionIsTopThree(improved, request);
    var old3, new3 := Selected(candidates, request), Selected(improved, request);
    assert Eligible(c', request);
    if k !in new3 {
      // The three that now come before it came before it already.
      assert Outranks(new3[0], new3[1], improved, request) && Outranks(new3[1], new3[2], improved, request);
      ImprovementLosesNoRank(candidates, request, k, c', new3[0]);
      ImprovementLosesNoRank(candidates, request, k, c', new3[1]);
      ImprovementLosesNoRank(candidates, request, k, c', new3[2]);
      OutrankedByThree(candidates, request, k, new3[0], new3[1], new3[2]);
    }
  }

  /** Whoever outranks a selected candidate is selected, and earlier. */
  lemma AheadOfSelected(candidates: seq<WorkerCandidate>, request: MatchRequest, p: nat, i: nat) returns (q: nat)
    requires p < |Selected(candidates, request)| && Selected(candidates, request)[p] < |candidates|
    requires i < |candidates| && Eligible(candidates[i], request)
    requires Outranks(i, Selected(candidates, request)[p], candidates, request)
    ensures q < p && Selected(candidates, request)[q] == i
  {
    SelectionIsTopThree(candidates, request);
    var chosen := Selected(candidates, request);
    assert i in chosen;
    assert forall r :: p < r < |chosen| ==> Outranks(chosen[p], chosen[r], candidates, request);
    q :| 0 <= q < |chosen| && chosen[q] == i;
  }

  /** A candidate with three distinct eligible ones before it is not selected. */
  lemma OutrankedByThree(candidates: seq<WorkerCandidate>, request: MatchRequest, k: nat, x: nat, y: nat, z: nat)
    requires k < |candidates| && x < |candidates| && y < |candidates| && z < |candidates|
    requires x != y && y != z && x != z
    requires Eligible(candidates[x], request) && Outranks(x, k, candidates, request)
    requires Eligible(candidates[y], request) && Outranks(y, k, candidates, request)
    requires Eligible(candidates[z], request) && Outranks(z, k, candidates, request)
    ensures k !in Selected(candidates, request)
  {
    var chosen := Selected(candidates, request);
    if k in chosen {
      var p :| 0 <= p < |chosen| && chosen[p] == k;
      var qx := AheadOfSelected(candidates, request, p, x);
      var qy := AheadOfSelected(candidates, request, p, y);
      var qz := AheadOfSelected(candidates, request, p, z);
      assert false;
    }
  }
}

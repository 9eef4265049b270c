/** The aggregates behind the analytics pages. */
module Analytics {
  import opened Prelude
  import opened Domain
  import opened Rounding
  import opened Scoring
  import opened Persistence
  import opened Text

  datatype PlatformBreakdown = PlatformBreakdown(
    source: string, jobsDiscovered: nat, jobsQueued: nat, jobsRejected: nat, applications: nat)

  /** The portal an application's job came from. */
  function AppSource(jobById: map<string, JobRow>, a: AppRow): string {
    if a.jobId != "" && a.jobId in jobById then jobById[a.jobId].job.source else "unknown"
  }

  /** `{job.id: job for job in jobs}` */
  function ById(jobs: seq<JobRow>): map<string, JobRow> {
    if jobs == [] then map[] else ById(jobs[..|jobs| - 1])[jobs[|jobs| - 1].job.id := jobs[|jobs| - 1]]
  }

  function JobsFrom(jobs: seq<JobRow>, source: string): seq<JobRow> {
    Filter(jobs, (j: JobRow) => j.job.source == source)
  }

  /** How many applications belong to `source`, looking jobs up in `jobById`. */
  function AppsBy(jobById: map<string, JobRow>, apps: seq<AppRow>, source: string): nat {
    Count(apps, (a: AppRow) => AppSource(jobById, a) == source)
  }

  function Breakdown(jobs: seq<JobRow>, apps: seq<AppRow>, source: string): PlatformBreakdown {
    PlatformBreakdown(
      source, |JobsFrom(jobs, source)|,
      Count(JobsFrom(jobs, source), (j: JobRow) => j.status == Queued),
      Count(JobsFrom(jobs, source), (j: JobRow) => j.status == Rejected),
      AppsBy(ById(jobs), apps, source))
  }

  function TotalJobs(platforms: seq<PlatformBreakdown>): nat {
    if platforms == [] then 0 else TotalJobs(platforms[..|platforms| - 1]) + platforms[|platforms| - 1].jobsDiscovered
  }

  function TotalApplications(platforms: seq<PlatformBreakdown>): nat {
    if platforms == [] then 0 else TotalApplications(platforms[..|platforms| - 1]) + platforms[|platforms| - 1].applications
  }

  lemma AppsByStep(jobById: map<string, JobRow>, apps: seq<AppRow>, i: nat, source: string)
    requires i < |apps|
    ensures AppsBy(jobById, apps[..i + 1], source)
            == AppsBy(jobById, apps[..i], source) + if AppSource(jobById, apps[i]) == source then 1 else 0
  {
    FilterStep(apps, i, (a: AppRow) => AppSource(jobById, a) == source);
  }

  method IndexJobs(jobs: seq<JobRow>) returns (jobById: map<string, JobRow>)
    ensures jobById == ById(jobs)
  {
    jobById := map[];
    for i := 0 to |jobs|
      invariant jobById == ById(jobs[..i])
    {
      assert jobs[..i + 1][..i] == jobs[..i];
      jobById := jobById[jobs[i].job.id := jobs[i]];
    }
    assert jobs[..|jobs|] == jobs;
  }

  /** The applications of each source, as a table with no zero entries. */
  method CountApplications(jobById: map<string, JobRow>, apps: seq<AppRow>) returns (bySource: map<string, nat>)
    ensures forall s :: AppsBy(jobById, apps, s) == if s in bySource then bySource[s] else 0
    ensures forall a :: a in apps ==> AppSource(jobById, a) in bySource
  {
    hide AppsBy, AppSource;
    bySource := map[];
    NoApplications(jobById);
    assert apps[..0] == [];
    for i := 0 to |apps|
      invariant forall s :: AppsBy(jobById, apps[..i], s) == if s in bySource then bySource[s] else 0
      invariant forall k :: 0 <= k < i ==> AppSource(jobById, apps[k]) in bySource
    {
      var source := AppSource(jobById, apps[i]);
      ghost var before := bySource;
      bySource := bySource[source := (if source in bySource then bySource[source] else 0) + 1];
      forall s ensures AppsBy(jobById, apps[..i + 1], s) == if s in bySource then bySource[s] else 0 {
        AppsByStep(jobById, apps, i, s);
      }
    }
    assert apps[..|apps|] == apps;
  }

  lemma NoApplications(jobById: map<string, JobRow>)
    ensures forall s :: AppsBy(jobById, [], s) == 0
  {
  }

  /** The first of a set of strings. */
  ghost predicate IsFirstOf(x: string, names: set<string>) {
    x in names && forall y :: y in names && y != x ==> Before(x, y)
  }

  lemma {:induction false} FirstExists(names: set<string>) returns (x: string)
    requires names != {}
    ensures IsFirstOf(x, names)
  {
    var y :| y in names;
    if names == {y} {
      x := y;
    } else {
      var z := FirstExists(names - {y});
      BeforeTotal(y, z);
      x := if Before(y, z) then y else z;
      forall w | w in names && w != x ensures Before(x, w) {
        if w != y && w != z && x == y { BeforeTransitive(y, z, w); }
      }
    }
  }

  method FirstOf(names: set<string>) returns (x: string)
    requires names != {}
    ensures IsFirstOf(x, names)
  {
    ghost var first := FirstExists(names);
    assert IsFirstOf(first, names);
    x :| x in names && forall y :: y in names && y != x ==> Before(x, y);
  }

  /** Rows are listed by source name, each source once. */
  ghost predicate SortedBySource(platforms: seq<PlatformBreakdown>) {
    forall i, j :: 0 <= i < j < |platforms| ==> Before(platforms[i].source, platforms[j].source)
  }

  lemma SortedOnce(platforms: seq<PlatformBreakdown>)
    requires SortedBySource(platforms)
    ensures OneRowEach(platforms)
  {
    forall i, j | 0 <= i < j < |platforms| ensures platforms[i].source != platforms[j].source {
      BeforeTotal(platforms[i].source, platforms[j].source);
    }
  }

  /** Each source of `sources` gets one row with its own counts, in the order of their names. */
  method ListPlatforms(sources: set<string>, jobs: seq<JobRow>, bySource: map<string, nat>, ghost apps: seq<AppRow>)
    returns (platforms: seq<PlatformBreakdown>)
    requires forall s :: AppsBy(ById(jobs), apps, s) == if s in bySource then bySource[s] else 0
    ensures SortedBySource(platforms)
    ensures forall p :: p in platforms ==> p.source in sources && p == Breakdown(jobs, apps, p.source)
    ensures forall s :: s in sources ==> Listed(platforms, s)
  {
    hide AppsBy, JobsFrom;
    var remaining := sources;
    platforms := [];
    while remaining != {}
      invariant remaining <= sources
      invariant SortedBySource(platforms)
      invariant forall p, s :: p in platforms && s in remaining ==> Before(p.source, s)
      invariant forall p :: p in platforms ==> p.source in sources && p.source !in remaining && p == Breakdown(jobs, apps, p.source)
      invariant forall s :: s in sources && s !in remaining ==> Listed(platforms, s)
      decreases |remaining|
    {
      var source := FirstOf(remaining);
      remaining := remaining - {source};
      var own := JobsFrom(jobs, source);
      var row := PlatformBreakdown(
        source, |own|,
        Count(own, (j: JobRow) => j.status == Queued), Count(own, (j: JobRow) => j.status == Rejected),
        if source in bySource then bySource[source] else 0);
      ghost var before := platforms;
      platforms := platforms + [row];
      assert platforms[..|platforms| - 1] == before;
      forall k | 0 <= k < |before| ensures Before(before[k].source, source) {
        assert before[k] in before;
      }
      SortedOnce(platforms);
      ListedStep(platforms);
    }
  }

  /** Every portal with a job or an application is listed once, by name, with its own counts, and nothing is counted twice or left out. */
  method ComputePlatformStats(jobs: seq<JobRow>, apps: seq<AppRow>) returns (platforms: seq<PlatformBreakdown>)
    ensures SortedBySource(platforms)
    ensures forall p :: p in platforms ==> p == Breakdown(jobs, apps, p.source)
    ensures forall j :: j in jobs ==> Listed(platforms, j.job.source)
    ensures forall a :: a in apps ==> Listed(platforms, AppSource(ById(jobs), a))
    ensures TotalJobs(platforms) == |jobs|
    ensures TotalApplications(platforms) == |apps|
  {
    hide AppsBy, AppSource, ById, Listed, Breakdown;
    var jobById := IndexJobs(jobs);
    var bySource := CountApplications(jobById, apps);
    var sources := (set j | j in jobs :: j.job.source) + bySource.Keys;
    platforms := ListPlatforms(sources, jobs, bySource, apps);
    SortedOnce(platforms);
    PlatformsCoverJobs(jobs, apps, platforms);
    PlatformsCoverApps(jobs, apps, platforms);
  }

  /** No source is listed twice. */
  ghost predicate OneRowEach(platforms: seq<PlatformBreakdown>) {
    forall i, j :: 0 <= i < j < |platforms| ==> platforms[i].source != platforms[j].source
  }

  ghost predicate Listed(platforms: seq<PlatformBreakdown>, source: string) {
    exists p :: p in platforms && p.source == source
  }

  lemma PlatformsCoverJobs(jobs: seq<JobRow>, apps: seq<AppRow>, platforms: seq<PlatformBreakdown>)
    requires OneRowEach(platforms)
    requires forall p :: p in platforms ==> p == Breakdown(jobs, apps, p.source)
    requires forall j :: j in jobs ==> Listed(platforms, j.job.source)
    ensures TotalJobs(platforms) == |jobs|
  {
    CountListedJobs(jobs, apps, platforms);
    FilterAll(jobs, (j: JobRow) => Listed(platforms, j.job.source));
  }

  lemma {:induction false} CountListedJobs(jobs: seq<JobRow>, apps: seq<AppRow>, platforms: seq<PlatformBreakdown>)
    requires OneRowEach(platforms)
    requires forall p :: p in platforms ==> p == Breakdown(jobs, apps, p.source)
    ensures TotalJobs(platforms) == Count(jobs, (j: JobRow) => Listed(platforms, j.job.source))
  {
    if platforms == [] {
      FilterAll(jobs, (j: JobRow) => Listed(platforms, j.job.source));
    } else {
      var n := |platforms| - 1;
      var before, last := platforms[..n], platforms[n];
      CountListedJobs(jobs, apps, before);
      ListedStep(platforms);
      assert last in platforms;
      CountDisjoint(jobs, (j: JobRow) => Listed(before, j.job.source), (j: JobRow) => j.job.source == last.source,
                    (j: JobRow) => Listed(platforms, j.job.source));
    }
  }

  lemma ListedStep(platforms: seq<PlatformBreakdown>)
    requires platforms != [] && OneRowEach(platforms)
    ensures var before, last := platforms[..|platforms| - 1], platforms[|platforms| - 1];
            && (forall s :: Listed(platforms, s) <==> Listed(before, s) || s == last.source)
            && !Listed(before, last.source)
  {
    var n := |platforms| - 1;
    var before, last := platforms[..n], platforms[n];
    assert platforms == before + [last];
    forall s ensures Listed(platforms, s) <==> Listed(before, s) || s == last.source {
      if Listed(before, s) {
        var p :| p in before && p.source == s;
        assert p in platforms;
      }
      if s == last.source { assert last in platforms; }
    }
  }

  /** Counting what passes either of two tests that exclude each other. */
  lemma {:induction false} CountDisjoint<T>(list: seq<T>, p: T -> bool, q: T -> bool, either: T -> bool)
    requires forall x :: x in list ==> !(p(x) && q(x)) && (either(x) <==> p(x) || q(x))
    ensures Count(list, either) == Count(list, p) + Count(list, q)
  {
    if list != [] {
      var n := |list| - 1;
      assert list[n] in list;
      CountDisjoint(list[..n], p, q, either);
    }
  }

  lemma PlatformsCoverApps(jobs: seq<JobRow>, apps: seq<AppRow>, platforms: seq<PlatformBreakdown>)
    requires OneRowEach(platforms)
    requires forall p :: p in platforms ==> p == Breakdown(jobs, apps, p.source)
    requires forall a :: a in apps ==> Listed(platforms, AppSource(ById(jobs), a))
    ensures TotalApplications(platforms) == |apps|
  {
    CountListedApps(jobs, apps, platforms);
    FilterAll(apps, (a: AppRow) => Listed(platforms, AppSource(ById(jobs), a)));
  }

  lemma {:induction false} CountListedApps(jobs: seq<JobRow>, apps: seq<AppRow>, platforms: seq<PlatformBreakdown>)
    requires OneRowEach(platforms)
    requires forall p :: p in platforms ==> p == Breakdown(jobs, apps, p.source)
    ensures TotalApplications(platforms) == Count(apps, (a: AppRow) => Listed(platforms, AppSource(ById(jobs), a)))
  {
    hide AppSource, ById;
    if platforms == [] {
      FilterAll(apps, (a: AppRow) => Listed(platforms, AppSource(ById(jobs), a)));
    } else {
      var n := |platforms| - 1;
      var before, last := platforms[..n], platforms[n];
      CountListedApps(jobs, apps, before);
      ListedStep(platforms);
      assert last in platforms;
      CountDisjoint(apps, (a: AppRow) => Listed(before, AppSource(ById(jobs), a)),
                    (a: AppRow) => AppSource(ById(jobs), a) == last.source,
                    (a: AppRow) => Listed(platforms, AppSource(ById(jobs), a)));
    }
  }

  // --- score statistics ---

  datatype Bucket = From90 | From80 | From75 | From60 | Below60

  function ScoreBucket(score: real): Bucket {
    if score >= 90.0 then From90
    else if score >= 80.0 then From80
    else if score >= 75.0 then From75
    else if score >= 60.0 then From60
    else Below60
  }

  function InBucket(scores: seq<real>, b: Bucket): nat {
    Count(scores, (s: real) => ScoreBucket(s) == b)
  }

  lemma InBucketStep(scores: seq<real>, i: nat, b: Bucket)
    requires i < |scores|
    ensures InBucket(scores[..i + 1], b) == InBucket(scores[..i], b) + if ScoreBucket(scores[i]) == b then 1 else 0
  {
    FilterStep(scores, i, (s: real) => ScoreBucket(s) == b);
  }

  /** `Counter(_score_bucket(s) for s in scores)` */
  method CountBuckets(scores: seq<real>) returns (buckets: map<Bucket, nat>)
    ensures forall b :: InBucket(scores, b) == if b in buckets then buckets[b] else 0
  {
    buckets := map[];
    assert forall b :: InBucket(scores[..0], b) == 0;
    for i := 0 to |scores|
      invariant forall b :: InBucket(scores[..i], b) == if b in buckets then buckets[b] else 0
    {
      var bucket := ScoreBucket(scores[i]);
      ghost var before := buckets;
      buckets := buckets[bucket := (if bucket in buckets then buckets[bucket] else 0) + 1];
      forall b ensures InBucket(scores[..i + 1], b) == if b in buckets then buckets[b] else 0 {
        InBucketStep(scores, i, b);
      }
    }
    assert scores[..|scores|] == scores;
  }

  /** Each scored job is in exactly one bucket. */
  lemma {:induction false} BucketsConserve(scores: seq<real>)
    ensures InBucket(scores, From90) + InBucket(scores, From80) + InBucket(scores, From75)
            + InBucket(scores, From60) + InBucket(scores, Below60) == |scores|
  {
    if scores != [] { BucketsConserve(scores[..|scores| - 1]); }
  }

  /** The bucket of a recommendation under the shipped thresholds. */
  function BucketOf(r: Recommendation): Bucket {
    match r
    case PriorityApply => From90
    case NormalApply => From80
    case ApplyIfCapacity => From75
    case HumanReview => From60
    case Reject => Below60
  }

  /** With the shipped thresholds the score buckets are the scorer's recommendations; with any others some score falls elsewhere. */
  lemma BucketsAreRecommendations(t: Thresholds)
    ensures (forall score :: ScoreBucket(score) == BucketOf(RecommendationFor(t, score))) <==> t == SHIPPED_THRESHOLDS
  {
    if forall score :: ScoreBucket(score) == BucketOf(RecommendationFor(t, score)) {
      BucketEdge(t, 90.0);
      BucketEdge(t, 80.0);
      BucketEdge(t, 75.0);
      BucketEdge(t, 60.0);
      BucketEdge(t, t.priorityApply);
      BucketEdge(t, t.normalApply);
      BucketEdge(t, t.applyIfCapacity);
      BucketEdge(t, t.humanReview);
      BucketEdge(t, (t.normalApply + 80.0) / 2.0);
      BucketEdge(t, (t.applyIfCapacity + 75.0) / 2.0);
      BucketEdge(t, (t.humanReview + 60.0) / 2.0);
      BucketEdge(t, (t.priorityApply + 90.0) / 2.0);
    }
  }

  lemma BucketEdge(t: Thresholds, score: real)
    requires forall s :: ScoreBucket(s) == BucketOf(RecommendationFor(t, s))
    ensures ScoreBucket(score) == BucketOf(RecommendationFor(t, score))
  {
  }

  function SumOf(scores: seq<real>): real {
    if scores == [] then 0.0 else SumOf(scores[..|scores| - 1]) + scores[|scores| - 1]
  }

  function Mean(scores: seq<real>): real
    requires scores != []
  {
    SumOf(scores) / |scores| as real
  }

  function Insert(x: real, sorted: seq<real>): (r: seq<real>)
    ensures multiset(r) == multiset(sorted) + multiset{x} && |r| == |sorted| + 1
  {
    if sorted == [] || x <= sorted[0] then [x] + sorted
    else
      assert sorted == [sorted[0]] + sorted[1..];
      [sorted[0]] + Insert(x, sorted[1..])
  }

  function Sort(scores: seq<real>): (r: seq<real>)
    ensures multiset(r) == multiset(scores) && |r| == |scores|
  {
    if scores == [] then []
    else
      assert scores == [scores[0]] + scores[1..];
      Insert(scores[0], Sort(scores[1..]))
  }

  ghost predicate Ascending(s: seq<real>) {
    forall i, j :: 0 <= i < j < |s| ==> s[i] <= s[j]
  }

  lemma {:induction false} InsertAscending(x: real, sorted: seq<real>)
    requires Ascending(sorted)
    ensures Ascending(Insert(x, sorted))
  {
    if sorted != [] && x > sorted[0] {
      InsertAscending(x, sorted[1..]);
      var rest := Insert(x, sorted[1..]);
      forall k | 0 <= k < |rest| ensures sorted[0] <= rest[k] {
        assert rest[k] in multiset(sorted[1..]) + multiset{x};
      }
    }
  }

  lemma {:induction false} SortAscending(scores: seq<real>)
    ensures Ascending(Sort(scores))
  {
    if scores != [] {
      SortAscending(scores[1..]);
      InsertAscending(scores[0], Sort(scores[1..]));
    }
  }

  /** `statistics.median` */
  function Median(scores: seq<real>): real
    requires scores != []
  {
    var s := Sort(scores);
    var n := |s|;
    if n % 2 == 1 then s[n / 2] else (s[n / 2 - 1] + s[n / 2]) / 2.0
  }

  /** `min` and `max`: the ends of the sorted list. */
  function Least(scores: seq<real>): real
    requires scores != []
  {
    Sort(scores)[0]
  }

  function Greatest(scores: seq<real>): real
    requires scores != []
  {
    Sort(scores)[|scores| - 1]
  }

  lemma EndsAreBounds(scores: seq<real>)
    requires scores != []
    ensures Least(scores) in scores && Greatest(scores) in scores
    ensures forall s :: s in scores ==> Least(scores) <= s <= Greatest(scores)
  {
    var t := Sort(scores);
    SortAscending(scores);
    forall s | s in scores ensures Least(scores) <= s <= Greatest(scores) {
      assert s in multiset(t);
      var k :| 0 <= k < |t| && t[k] == s;
    }
    assert t[0] in multiset(t) && t[|scores| - 1] in multiset(t);
  }

  lemma {:induction false} SumBounds(scores: seq<real>, lo: real, hi: real)
    requires forall i :: 0 <= i < |scores| ==> lo <= scores[i] <= hi
    ensures lo * |scores| as real <= SumOf(scores) <= hi * |scores| as real
  {
    if scores != [] {
      var n := |scores| - 1;
      SumBounds(scores[..n], lo, hi);
      assert lo * |scores| as real == lo * n as real + lo;
      assert hi * |scores| as real == hi * n as real + hi;
    }
  }

  lemma CancelDivision(x: real, n: nat)
    requires n > 0
    ensures x * n as real / n as real == x
  {
  }

  lemma QuotientBounds(sum: real, n: nat, lo: real, hi: real)
    requires n > 0 && lo * n as real <= sum <= hi * n as real
    ensures lo <= sum / n as real <= hi
  {
    CancelDivision(lo, n);
    CancelDivision(hi, n);
    ShareMonotone(lo * n as real, sum, n as real);
    ShareMonotone(sum, hi * n as real, n as real);
  }

  /** The mean and the median lie between the extremes before they are rounded. */
  lemma CentresBetween(scores: seq<real>)
    requires scores != []
    ensures Least(scores) <= Mean(scores) <= Greatest(scores)
    ensures Least(scores) <= Median(scores) <= Greatest(scores)
  {
    hide Least, Greatest, SumOf, Median;
    EndsAreBounds(scores);
    forall i | 0 <= i < |scores| ensures Least(scores) <= scores[i] <= Greatest(scores) {
      assert scores[i] in scores;
    }
    SumBounds(scores, Least(scores), Greatest(scores));
    QuotientBounds(SumOf(scores), |scores|, Least(scores), Greatest(scores));
    MedianBetween(scores);
  }

  lemma MedianBetween(scores: seq<real>)
    requires scores != []
    ensures Least(scores) <= Median(scores) <= Greatest(scores)
  {
    hide Sort;
    SortAscending(scores);
  }

  /** The reported mean and median lie between the reported extremes, for every list of scores from a given range of values. */
  ghost predicate ReportedCentresBetween(possible: real -> bool) {
    forall scores: seq<real> :: scores != [] && (forall s :: s in scores ==> possible(s)) ==>
      && Least(scores) <= Round2(Mean(scores)) <= Greatest(scores)
      && Least(scores) <= Round2(Median(scores)) <= Greatest(scores)
  }

  /** Rounding keeps the centres between the extremes exactly when every possible score is a whole number of hundredths. */
  lemma ReportedCentresExact(possible: real -> bool)
    ensures ReportedCentresBetween(possible) <==> forall s :: possible(s) ==> OnGrid(s)
  {
    hide Mean, Median, Least, Greatest, Round2, OnGrid;
    if forall s :: possible(s) ==> OnGrid(s) {
      forall scores: seq<real> | scores != [] && forall s :: s in scores ==> possible(s)
        ensures Least(scores) <= Round2(Mean(scores)) <= Greatest(scores) && Least(scores) <= Round2(Median(scores)) <= Greatest(scores)
      {
        EndsAreBounds(scores);
        CentresBetween(scores);
        Round2Between(Least(scores), Mean(scores), Greatest(scores));
        Round2Between(Least(scores), Median(scores), Greatest(scores));
      }
    }
    if ReportedCentresBetween(possible) {
      forall s | possible(s) ensures OnGrid(s) {
        OneScore(s);
        Round2Fixed(s);
      }
    }
  }

  lemma OneScore(s: real)
    ensures Mean([s]) == s && Least([s]) == s && Greatest([s]) == s
  {
    assert Sort([s]) == Insert(s, []);
    assert SumOf([s]) == SumOf([]) + s;
  }

  lemma {:induction false} SumExactly(a: seq<real>, b: seq<real>, x: real)
    ensures SumOf([]) == 0.0 && SumOf([x]) == x && SumOf(a + b) == SumOf(a) + SumOf(b)
  {
    assert [x][..0] == [];
    if b == [] {
      assert a + b == a;
    } else {
      var n := |b| - 1;
      assert (a + b)[..|a + b| - 1] == a + b[..n];
      SumExactly(a, b[..n], x);
    }
  }

  /** The mean times the number of scores is their sum. */
  lemma MeanExactly(scores: seq<real>)
    requires scores != []
    ensures Mean(scores) * |scores| as real == SumOf(scores)
  {
    hide SumOf;
    QuotientTimes(SumOf(scores), |scores| as real);
  }

  /** Two ascending lists of the same scores are the same list. */
  lemma {:induction false} AscendingUnique(a: seq<real>, b: seq<real>)
    requires Ascending(a) && Ascending(b) && multiset(a) == multiset(b)
    ensures a == b
  {
    SameLength(a, b);
    if a != [] {
      SameFirst(a, b);
      TailOf(a);
      TailOf(b);
      AscendingUnique(a[1..], b[1..]);
      assert a == [a[0]] + a[1..] && b == [b[0]] + b[1..];
    }
  }

  lemma SameFirst(a: seq<real>, b: seq<real>)
    requires a != [] && b != [] && Ascending(a) && Ascending(b) && multiset(a) == multiset(b)
    ensures a[0] == b[0]
  {
    assert a[0] in multiset(b) && b[0] in multiset(a);
  }

  lemma TailOf(a: seq<real>)
    requires a != [] && Ascending(a)
    ensures Ascending(a[1..]) && multiset(a[1..]) == multiset(a) - multiset{a[0]}
  {
    assert a == [a[0]] + a[1..];
  }

  lemma SameLength(a: seq<real>, b: seq<real>)
    requires multiset(a) == multiset(b)
    ensures |a| == |b|
  {
    assert |multiset(a)| == |a| && |multiset(b)| == |b|;
  }

  /** The median is the middle of the scores in ascending order, or halfway between the two middle ones. */
  lemma MedianExactly(scores: seq<real>, ordered: seq<real>)
    requires scores != [] && Ascending(ordered) && multiset(ordered) == multiset(scores)
    ensures |ordered| == |scores|
    ensures |scores| % 2 == 1 ==> Median(scores) == ordered[|scores| / 2]
    ensures |scores| % 2 == 0 ==> Median(scores) * 2.0 == ordered[|scores| / 2 - 1] + ordered[|scores| / 2]
  {
    SortAscending(scores);
    AscendingUnique(ordered, Sort(scores));
    hide Sort;
  }

  /** An application counts for the portal of the last job row with its job id, and for "unknown" without one. */
  lemma SourceExactly(jobs: seq<JobRow>, a: AppRow)
    requires forall i, j :: 0 <= i < j < |jobs| ==> jobs[i].job.id != jobs[j].job.id
    ensures forall i :: 0 <= i < |jobs| && a.jobId != "" && jobs[i].job.id == a.jobId ==> AppSource(ById(jobs), a) == jobs[i].job.source
    ensures (forall i :: 0 <= i < |jobs| ==> jobs[i].job.id != a.jobId) || a.jobId == "" ==> AppSource(ById(jobs), a) == "unknown"
  {
    ByIdExactly(jobs, a.jobId);
    hide ById;
  }

  lemma {:induction false} ByIdExactly(jobs: seq<JobRow>, id: string)
    requires forall i, j :: 0 <= i < j < |jobs| ==> jobs[i].job.id != jobs[j].job.id
    ensures id in ById(jobs) <==> exists i :: 0 <= i < |jobs| && jobs[i].job.id == id
    ensures forall i :: 0 <= i < |jobs| && jobs[i].job.id == id ==> id in ById(jobs) && ById(jobs)[id] == jobs[i]
  {
    if jobs != [] { ByIdExactly(jobs[..|jobs| - 1], id); }
  }

  /** The counts of a portal are those of its own jobs, by status. */
  lemma CountsExactly(jobs: seq<JobRow>, apps: seq<AppRow>, source: string)
    ensures var b := Breakdown(jobs, apps, source);
            && b.source == source
            && b.jobsDiscovered == Count(jobs, (j: JobRow) => j.job.source == source)
            && b.jobsQueued == Count(jobs, (j: JobRow) => j.job.source == source && j.status == Queued)
            && b.jobsRejected == Count(jobs, (j: JobRow) => j.job.source == source && j.status == Rejected)
            && b.applications == Count(apps, (a: AppRow) => AppSource(ById(jobs), a) == source)
  {
    hide ById, AppSource;
    FilterTwice(jobs, (j: JobRow) => j.job.source == source, (j: JobRow) => j.status == Queued,
                (j: JobRow) => j.job.source == source && j.status == Queued);
    FilterTwice(jobs, (j: JobRow) => j.job.source == source, (j: JobRow) => j.status == Rejected,
                (j: JobRow) => j.job.source == source && j.status == Rejected);
  }

  lemma {:induction false} FilterTwice<T>(s: seq<T>, p: T -> bool, q: T -> bool, both: T -> bool)
    requires forall x :: both(x) <==> p(x) && q(x)
    ensures Filter(Filter(s, p), q) == Filter(s, both)
  {
    if s != [] {
      var n := |s| - 1;
      FilterTwice(s[..n], p, q, both);
      FilterConcat(Filter(s[..n], p), if p(s[n]) then [s[n]] else [], q);
      assert Filter([s[n]], q) == if q(s[n]) then [s[n]] else [];
    }
  }

  // --- time windows ---

  const DAY := 86400

  /** The start of today, of this week and of this month, from the clock and the calendar position of today. */
  function TodayStart(now: nat): int { now - now % DAY }
  function WeekStart(now: nat, weekday: nat): int { TodayStart(now) - weekday * DAY }
  function MonthStart(now: nat, dayOfMonth: nat): int { TodayStart(now) - (dayOfMonth - 1) * DAY }

  function CreatedSince(apps: seq<AppRow>, start: int): nat {
    Count(apps, (a: AppRow) => a.createdAt >= start)
  }

  /** Today starts at the last midnight, the week as many days earlier as the weekday says, the month on its first day. */
  lemma WindowsExactly(now: nat, weekday: nat, dayOfMonth: nat)
    ensures TodayStart(now) % 86400 == 0 && TodayStart(now) <= now < TodayStart(now) + 86400
    ensures WeekStart(now, weekday) + weekday * 86400 == TodayStart(now)
    ensures MonthStart(now, dayOfMonth) + dayOfMonth * 86400 == TodayStart(now) + 86400
  {
  }

  /** Today's applications are among this week's and among this month's. */
  lemma WindowsNest(apps: seq<AppRow>, now: nat, weekday: nat, dayOfMonth: nat)
    requires dayOfMonth >= 1
    ensures CreatedSince(apps, TodayStart(now)) <= CreatedSince(apps, WeekStart(now, weekday)) <= |apps|
    ensures CreatedSince(apps, TodayStart(now)) <= CreatedSince(apps, MonthStart(now, dayOfMonth)) <= |apps|
  {
    var today := TodayStart(now);
    assert weekday * DAY >= 0 && (dayOfMonth - 1) * DAY >= 0;
    CountMonotone(apps, (a: AppRow) => a.createdAt >= today, (a: AppRow) => a.createdAt >= WeekStart(now, weekday));
    CountMonotone(apps, (a: AppRow) => a.createdAt >= today, (a: AppRow) => a.createdAt >= MonthStart(now, dayOfMonth));
  }
}

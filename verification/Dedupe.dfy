/** Normalising raw postings and collapsing the same opportunity seen on several portals. */
module Dedupe {
  import opened Prelude
  import opened Text
  import opened Domain
  import opened TitleMatching

  /** A posting as a portal returns it. `wellTyped` says the optional fields pass the schema. */
  datatype RawJob = RawJob(
    source: string,
    externalJobId: Option<string>,
    url: Option<string>,
    title: Option<string>,
    company: Option<string>,
    wellTyped: bool,
    location: Option<string>,
    workMode: Option<string>,
    salaryMin: Option<real>,
    salaryMax: Option<real>,
    salaryCurrency: Option<string>,
    description: string,
    requiredSkills: seq<string>,
    preferredSkills: seq<string>,
    minimumExperience: Option<real>,
    maximumExperience: Option<real>,
    industry: Option<string>)

  predicate Present(field: Option<string>) {
    field.Some? && field.value != []
  }

  /** The text whose hash is the job's id. */
  function StableId(raw: RawJob): string
    requires Present(raw.url)
  {
    raw.source + ":" + if Present(raw.externalJobId) then raw.externalJobId.value else raw.url.value
  }

  function NormalizeJob(raw: RawJob): Option<Job> {
    if !Present(raw.url) || !Present(raw.title) || !Present(raw.company) || !raw.wellTyped then None
    else Some(Job(
      StableId(raw), raw.source, raw.url.value, raw.title.value, raw.company.value, raw.location, raw.workMode,
      raw.salaryMin, raw.salaryMax, raw.salaryCurrency, raw.description, raw.requiredSkills, raw.preferredSkills,
      raw.minimumExperience, raw.maximumExperience, raw.industry))
  }

  /** A posting becomes a job exactly when it has an address, a title and a company and its optional fields pass the schema; the job
      then says what the posting said, and its id comes from the source with the portal's own id, or with the address where that is
      missing or empty. */
  lemma NormalizeExactly(raw: RawJob)
    ensures NormalizeJob(raw).Some? <==>
            && raw.url.Some? && raw.url.value != [] && raw.title.Some? && raw.title.value != []
            && raw.company.Some? && raw.company.value != [] && raw.wellTyped
    ensures NormalizeJob(raw).Some? ==>
              var job := NormalizeJob(raw).value;
              && job.source == raw.source && job.url == raw.url.value && job.title == raw.title.value && job.company == raw.company.value
              && job.location == raw.location && job.workMode == raw.workMode && job.salaryMin == raw.salaryMin
              && job.salaryMax == raw.salaryMax && job.salaryCurrency == raw.salaryCurrency && job.description == raw.description
              && job.requiredSkills == raw.requiredSkills && job.preferredSkills == raw.preferredSkills
              && job.minimumExperience == raw.minimumExperience && job.maximumExperience == raw.maximumExperience
              && job.industry == raw.industry
              && job.id == raw.source + ":" + (if raw.externalJobId.Some? && raw.externalJobId.value != [] then raw.externalJobId.value
                                               else raw.url.value)
  {
  }

  /** The same posting found again gets the same id: two postings of one portal share an id exactly when they share the portal's id,
      or the address where that is missing. */
  lemma SameIdExactly(a: RawJob, b: RawJob)
    requires NormalizeJob(a).Some? && NormalizeJob(b).Some? && a.source == b.source
    ensures NormalizeJob(a).value.id == NormalizeJob(b).value.id <==>
            (if a.externalJobId.Some? && a.externalJobId.value != [] then a.externalJobId.value else a.url.value)
            == (if b.externalJobId.Some? && b.externalJobId.value != [] then b.externalJobId.value else b.url.value)
  {
    var front := a.source + ":";
    var x := if a.externalJobId.Some? && a.externalJobId.value != [] then a.externalJobId.value else a.url.value;
    var y := if b.externalJobId.Some? && b.externalJobId.value != [] then b.externalJobId.value else b.url.value;
    assert (front + x)[|front|..] == x && (front + y)[|front|..] == y;
  }

  /** The postings that fail normalisation. */
  function Malformed(raws: seq<RawJob>): seq<RawJob> {
    Filter(raws, (r: RawJob) => NormalizeJob(r).None?)
  }

  /** The jobs of the postings that pass, in order. */
  function Normalized(raws: seq<RawJob>): seq<Job> {
    if raws == [] then []
    else
      var n := |raws| - 1;
      Normalized(raws[..n]) + match NormalizeJob(raws[n]) case Some(job) => [job] case None => []
  }

  method NormalizeJobs(raws: seq<RawJob>) returns (normalized: seq<Job>, errors: seq<RawJob>)
    ensures normalized == Normalized(raws) && errors == Malformed(raws)
    ensures |normalized| + |errors| == |raws|
  {
    normalized, errors := [], [];
    for i := 0 to |raws|
      invariant normalized == Normalized(raws[..i])
      invariant errors == Malformed(raws[..i])
      invariant |normalized| + |errors| == i
    {
      FilterStep(raws, i, (r: RawJob) => NormalizeJob(r).None?);
      assert raws[..i + 1][..i] == raws[..i];
      match NormalizeJob(raws[i]) {
        case Some(job) => normalized := normalized + [job];
        case None => errors := errors + [raws[i]];
      }
    }
    assert raws[..|raws|] == raws;
  }

  lemma {:induction false} NormalizationLosesNothing(raws: seq<RawJob>)
    ensures |Normalized(raws)| + |Malformed(raws)| == |raws|
  {
    if raws != [] {
      NormalizationLosesNothing(raws[..|raws| - 1]);
    }
  }

  lemma {:induction false} NormalizedConcat(a: seq<RawJob>, b: seq<RawJob>)
    ensures Normalized(a + b) == Normalized(a) + Normalized(b)
  {
    if b == [] {
      assert a + b == a;
    } else {
      var n := |b| - 1;
      assert (a + b)[..|a + b| - 1] == a + b[..n];
      NormalizedConcat(a, b[..n]);
    }
  }

  lemma SplitAround(front: seq<RawJob>, x: RawJob, back: seq<RawJob>)
    ensures multiset(Normalized(front + [x] + back)) == multiset(Normalized(front + back)) + multiset(Normalized([x]))
  {
    hide Normalized;
    NormalizedConcat(front, [x]);
    NormalizedConcat(front + [x], back);
    NormalizedConcat(front, back);
  }

  lemma {:induction false} NormalizedPermutation(a: seq<RawJob>, b: seq<RawJob>)
    requires multiset(a) == multiset(b)
    ensures multiset(Normalized(a)) == multiset(Normalized(b))
  {
    hide Normalized;
    if a == [] {
      assert |multiset(b)| == 0;
    } else {
      var x := a[|a| - 1];
      var front, back := LocateLast(a, b);
      NormalizedPermutation(a[..|a| - 1], front + back);
      assert a == a[..|a| - 1] + [x] + [] && a[..|a| - 1] == a[..|a| - 1] + [];
      SplitAround(a[..|a| - 1], x, []);
      SplitAround(front, x, back);
    }
  }

  type Key = (string, string, string)

  /** Company, title family (or the title itself) and location, trimmed and in small letters. */
  function DedupeKey(job: Job): Key {
    var family := TitleFamily(job.title);
    (Lower(Strip(job.company)),
     Lower(Strip(if family.Some? then family.value else job.title)),
     Lower(Strip(if job.location.Some? then job.location.value else "")))
  }

  /** The location as it is compared: trimmed, in small letters, empty when absent. */
  function Place(job: Job): string {
    Lower(Strip(if job.location.Some? then job.location.value else ""))
  }

  /** Same company, same place, and same title family - or, outside the known families, the same title. */
  predicate SameOpportunity(a: Job, b: Job) {
    && Lower(Strip(a.company)) == Lower(Strip(b.company))
    && Place(a) == Place(b)
    && TitleFamily(a.title) == TitleFamily(b.title)
    && (TitleFamily(a.title).None? ==> Lower(Strip(a.title)) == Lower(Strip(b.title)))
  }

  /** The key stands for the opportunity: a family's own name never collides with another family or with a title outside them. */
  lemma SameKeyExactly(a: Job, b: Job)
    ensures DedupeKey(a) == DedupeKey(b) <==> SameOpportunity(a, b)
  {
    hide Strip, Lower;
    var fa, fb := TitleFamily(a.title), TitleFamily(b.title);
    if fa.Some? { FamilyNamesItself(a.title); }
    if fb.Some? { FamilyNamesItself(b.title); }
  }

  function Keys(jobs: seq<Job>): set<Key> {
    set j | j in jobs :: DedupeKey(j)
  }

  function Kept(jobs: seq<Job>): seq<Job> {
    if jobs == [] then []
    else
      var n := |jobs| - 1;
      Kept(jobs[..n]) + if DedupeKey(jobs[n]) in Keys(jobs[..n]) then [] else [jobs[n]]
  }

  function Duplicates(jobs: seq<Job>): seq<Job> {
    if jobs == [] then []
    else
      var n := |jobs| - 1;
      Duplicates(jobs[..n]) + if DedupeKey(jobs[n]) in Keys(jobs[..n]) then [jobs[n]] else []
  }

  method DedupeJobs(jobs: seq<Job>) returns (unique: seq<Job>, duplicates: seq<Job>)
    ensures unique == Kept(jobs) && duplicates == Duplicates(jobs)
    ensures multiset(unique) + multiset(duplicates) == multiset(jobs)
  {
    hide DedupeKey;
    var seen: map<Key, Job> := map[];
    unique, duplicates := [], [];
    for i := 0 to |jobs|
      invariant seen.Keys == Keys(jobs[..i])
      invariant unique == Kept(jobs[..i]) && duplicates == Duplicates(jobs[..i])
    {
      assert jobs[..i + 1][..i] == jobs[..i];
      KeysSnoc(jobs[..i], jobs[i]);
      assert jobs[..i + 1] == jobs[..i] + [jobs[i]];
      var key := DedupeKey(jobs[i]);
      if key in seen {
        duplicates := duplicates + [jobs[i]];
      } else {
        seen := seen[key := jobs[i]];
        unique := unique + [jobs[i]];
      }
    }
    assert jobs[..|jobs|] == jobs;
    DedupeSplits(jobs);
  }

  lemma KeysSnoc(jobs: seq<Job>, job: Job)
    ensures Keys(jobs + [job]) == Keys(jobs) + {DedupeKey(job)}
  {
    hide DedupeKey;
    var all := jobs + [job];
    assert all[|jobs|] == job;
    forall k ensures k in Keys(all) <==> k in Keys(jobs) || k == DedupeKey(job) {
      if k in Keys(jobs) {
        var j :| j in jobs && DedupeKey(j) == k;
        assert j in all;
      }
    }
  }

  lemma LastKey(jobs: seq<Job>)
    requires jobs != []
    ensures Keys(jobs) == Keys(jobs[..|jobs| - 1]) + {DedupeKey(jobs[|jobs| - 1])}
  {
    assert jobs == jobs[..|jobs| - 1] + [jobs[|jobs| - 1]];
    KeysSnoc(jobs[..|jobs| - 1], jobs[|jobs| - 1]);
  }

  lemma DedupeEmpty()
    ensures Kept([]) == [] && Duplicates([]) == [] && Keys([]) == {}
  {
  }

  lemma DedupeUnfold(jobs: seq<Job>)
    requires jobs != []
    ensures var n := |jobs| - 1;
            if DedupeKey(jobs[n]) in Keys(jobs[..n]) then
              Kept(jobs) == Kept(jobs[..n]) && Duplicates(jobs) == Duplicates(jobs[..n]) + [jobs[n]]
            else
              Kept(jobs) == Kept(jobs[..n]) + [jobs[n]] && Duplicates(jobs) == Duplicates(jobs[..n])
  {
    hide DedupeKey, Keys;
  }

  /** Kept and duplicate jobs together are the input, rearranged. */
  lemma {:induction false} DedupeSplits(jobs: seq<Job>)
    ensures multiset(Kept(jobs)) + multiset(Duplicates(jobs)) == multiset(jobs)
    ensures |Kept(jobs)| + |Duplicates(jobs)| == |jobs|
  {
    hide *;
    if jobs == [] {
      DedupeEmpty();
    } else {
      var n := |jobs| - 1;
      DedupeSplits(jobs[..n]);
      DedupeUnfold(jobs);
      assert jobs == jobs[..n] + [jobs[n]];
    }
  }

  /** No earlier job has the key of job `i`. */
  ghost predicate IsFirst(jobs: seq<Job>, i: int) {
    0 <= i < |jobs| && forall j :: 0 <= j < i ==> DedupeKey(jobs[j]) != DedupeKey(jobs[i])
  }

  /** `at` lists, in order, exactly the positions below `n` that are first with their key. */
  ghost predicate ListsFirsts(jobs: seq<Job>, n: int, at: seq<int>) {
    && (forall k :: 0 <= k < |at| ==> at[k] < n && IsFirst(jobs, at[k]))
    && (forall k, m :: 0 <= k < m < |at| ==> at[k] < at[m])
    && (forall i :: 0 <= i < n && IsFirst(jobs, i) ==> i in at)
  }

  lemma ListsFirstsStep(jobs: seq<Job>, n: nat, before: seq<int>)
    requires n < |jobs| && ListsFirsts(jobs, n, before)
    ensures ListsFirsts(jobs, n + 1, if IsFirst(jobs, n) then before + [n] else before)
  {
    hide IsFirst;
    var at := if IsFirst(jobs, n) then before + [n] else before;
    forall i | 0 <= i < n + 1 && IsFirst(jobs, i) ensures i in at {
      if i < n {
        assert i in before;
      } else {
        assert at[|at| - 1] == i;
      }
    }
  }

  /** Dedupe keeps exactly the first job of each key, in order. */
  lemma {:induction false} KeptAreFirsts(jobs: seq<Job>, n: nat) returns (at: seq<int>)
    requires n <= |jobs|
    ensures ListsFirsts(jobs, n, at)
    ensures |at| == |Kept(jobs[..n])| && forall k :: 0 <= k < |at| ==> 0 <= at[k] < |jobs| && Kept(jobs[..n])[k] == jobs[at[k]]
  {
    hide *;
    if n == 0 {
      at := [];
      NoFirsts(jobs);
      assert jobs[..0] == [];
      DedupeEmpty();
    } else {
      var before := KeptAreFirsts(jobs, n - 1);
      FirstIffNew(jobs, n - 1);
      KeptStep(jobs, n - 1);
      ListsFirstsStep(jobs, n - 1, before);
      FirstInRange(jobs, n - 1);
      at := if IsFirst(jobs, n - 1) then before + [n - 1] else before;
    }
  }

  lemma NoFirsts(jobs: seq<Job>)
    ensures ListsFirsts(jobs, 0, [])
  {
  }

  lemma FirstInRange(jobs: seq<Job>, i: int)
    ensures IsFirst(jobs, i) ==> 0 <= i < |jobs|
  {
  }

  lemma KeptStep(jobs: seq<Job>, i: nat)
    requires i < |jobs|
    ensures Kept(jobs[..i + 1]) == Kept(jobs[..i]) + if DedupeKey(jobs[i]) in Keys(jobs[..i]) then [] else [jobs[i]]
  {
    hide DedupeKey, Keys;
    assert jobs[..i + 1][..i] == jobs[..i];
  }

  lemma FirstIffNew(jobs: seq<Job>, i: nat)
    requires i < |jobs|
    ensures IsFirst(jobs, i) <==> DedupeKey(jobs[i]) !in Keys(jobs[..i])
  {
    hide DedupeKey;
    if DedupeKey(jobs[i]) in Keys(jobs[..i]) {
      var j :| j in jobs[..i] && DedupeKey(j) == DedupeKey(jobs[i]);
      var k :| 0 <= k < i && jobs[k] == j;
      assert !IsFirst(jobs, i);
    } else {
      forall k | 0 <= k < i ensures DedupeKey(jobs[k]) != DedupeKey(jobs[i]) {
        assert jobs[..i][k] == jobs[k];
        assert DedupeKey(jobs[k]) in Keys(jobs[..i]);
      }
    }
  }

  /** No earlier job is the same opportunity as job `i`. */
  ghost predicate FirstOfItsKind(jobs: seq<Job>, i: int) {
    0 <= i < |jobs| && forall j :: 0 <= j < i ==> !SameOpportunity(jobs[j], jobs[i])
  }

  /** Dedupe keeps, in order, exactly the jobs that no earlier job agrees with in company, place and title family or title. */
  lemma KeptExactly(jobs: seq<Job>) returns (at: seq<int>)
    ensures forall k :: 0 <= k < |at| ==> 0 <= at[k] < |jobs|
    ensures forall k, m :: 0 <= k < m < |at| ==> at[k] < at[m]
    ensures forall i :: 0 <= i < |jobs| ==> (i in at <==> FirstOfItsKind(jobs, i))
    ensures |Kept(jobs)| == |at| && forall k :: 0 <= k < |at| ==> Kept(jobs)[k] == jobs[at[k]]
  {
    hide DedupeKey, SameOpportunity, Kept;
    at := KeptAreFirsts(jobs, |jobs|);
    assert jobs[..|jobs|] == jobs;
    forall i, j | 0 <= j < i < |jobs|
      ensures DedupeKey(jobs[j]) != DedupeKey(jobs[i]) <==> !SameOpportunity(jobs[j], jobs[i])
    {
      SameKeyExactly(jobs[j], jobs[i]);
    }
    forall i | 0 <= i < |jobs| ensures IsFirst(jobs, i) <==> FirstOfItsKind(jobs, i) {
    }
  }

  /** Two jobs are both kept exactly when they differ in company, place or title. */
  lemma TwoJobs(a: Job, b: Job)
    ensures Kept([a, b]) == if SameOpportunity(a, b) then [a] else [a, b]
    ensures Duplicates([a, b]) == if SameOpportunity(a, b) then [b] else []
  {
    hide DedupeKey, SameOpportunity;
    SameKeyExactly(a, b);
    assert [a, b][..1] == [a] && [a][..0] == [];
    DedupeUnfold([a]);
    DedupeUnfold([a, b]);
    LastKey([a]);
    DedupeEmpty();
  }

  /** One kept job for each key, and every key has one. */
  lemma {:induction false} OneKeptPerKey(jobs: seq<Job>)
    ensures Keys(Kept(jobs)) == Keys(jobs)
    ensures |Kept(jobs)| == |Keys(jobs)|
  {
    hide DedupeKey;
    if jobs == [] {
      assert Keys([]) == {};
    } else {
      var n := |jobs| - 1;
      OneKeptPerKey(jobs[..n]);
      LastKey(jobs);
      KeysSnoc(Kept(jobs[..n]), jobs[n]);
    }
  }

  lemma DedupeSnoc(jobs: seq<Job>, job: Job)
    requires DedupeKey(job) !in Keys(jobs)
    ensures Kept(jobs + [job]) == Kept(jobs) + [job] && Duplicates(jobs + [job]) == Duplicates(jobs)
  {
    hide DedupeKey, Keys;
    assert (jobs + [job])[..|jobs|] == jobs;
  }

  /** Deduplicating twice changes nothing. */
  lemma {:induction false} DedupeIdempotent(jobs: seq<Job>)
    ensures Kept(Kept(jobs)) == Kept(jobs) && Duplicates(Kept(jobs)) == []
  {
    hide *;
    if jobs == [] {
      DedupeEmpty();
    } else {
      var n := |jobs| - 1;
      DedupeUnfold(jobs);
      DedupeIdempotent(jobs[..n]);
      OneKeptPerKey(jobs[..n]);
      if DedupeKey(jobs[n]) !in Keys(jobs[..n]) {
        DedupeSnoc(Kept(jobs[..n]), jobs[n]);
      }
    }
  }

  /** The order in which portals append their jobs decides neither the kept keys nor how many duplicates there are. */
  lemma DedupeOrderIndependent(a: seq<Job>, b: seq<Job>)
    requires multiset(a) == multiset(b)
    ensures Keys(Kept(a)) == Keys(Kept(b))
    ensures |Kept(a)| == |Kept(b)| && |Duplicates(a)| == |Duplicates(b)|
  {
    hide DedupeKey, Kept, Duplicates;
    OneKeptPerKey(a);
    OneKeptPerKey(b);
    DedupeSplits(a);
    DedupeSplits(b);
    assert |multiset(a)| == |a| && |multiset(b)| == |b|;
    assert forall j :: j in a <==> j in multiset(a);
    assert forall j :: j in b <==> j in multiset(b);
    assert Keys(a) == Keys(b);
  }
}

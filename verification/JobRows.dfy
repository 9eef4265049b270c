/** What the jobs table says after a run has been written. */
module JobRows {
  import opened Prelude
  import opened Domain
  import opened Dedupe
  import opened Persistence
  import Discovery
  import PolicyGuard
  import Scoring

  ghost predicate Mentions(entries: seq<Entry>, id: string) {
    exists i :: 0 <= i < |entries| && entries[i].job.id == id
  }

  /** Entry `i` is the last one for its job id. */
  ghost predicate IsLast(entries: seq<Entry>, i: int) {
    0 <= i < |entries| && forall j :: i < j < |entries| ==> entries[j].job.id != entries[i].job.id
  }

  /** The match result a row ends with: the last one written for the id, or the one stored before. */
  function LastResult(entries: seq<Entry>, id: string, before: Option<MatchResult>): Option<MatchResult> {
    if entries == [] then before
    else
      var e := entries[|entries| - 1];
      if e.job.id == id && e.result.Some? then e.result else LastResult(entries[..|entries| - 1], id, before)
  }

  function StoredResult(jobs: map<string, JobRow>, id: string): Option<MatchResult> {
    if id in jobs then jobs[id].result else None
  }

  function LastEntry(entries: seq<Entry>, id: string): Option<Entry> {
    if entries == [] then None
    else if entries[|entries| - 1].job.id == id then Some(entries[|entries| - 1])
    else LastEntry(entries[..|entries| - 1], id)
  }

  /** The row of `id` after a list of entries has been written. */
  function RowAfter(jobs: map<string, JobRow>, runId: string, entries: seq<Entry>, id: string): Option<JobRow> {
    match LastEntry(entries, id)
    case None => Find(jobs, id)
    case Some(e) => Some(JobRow(runId, e.job, e.status, LastResult(entries, id, StoredResult(jobs, id))))
  }

  /** A row shows its last entry, and an id that is not mentioned keeps its row. */
  lemma {:induction false} LastWriteWins(jobs: map<string, JobRow>, runId: string, entries: seq<Entry>, id: string)
    ensures Find(UpsertAll(jobs, runId, entries), id) == RowAfter(jobs, runId, entries, id)
    ensures StoredResult(UpsertAll(jobs, runId, entries), id) == LastResult(entries, id, StoredResult(jobs, id))
  {
    if entries != [] {
      LastWriteWins(jobs, runId, entries[..|entries| - 1], id);
    }
  }

  lemma {:induction false} LastEntryIsLast(entries: seq<Entry>, id: string)
    ensures LastEntry(entries, id).None? <==> !Mentions(entries, id)
    ensures LastEntry(entries, id).Some? ==> exists i :: IsLast(entries, i) && entries[i] == LastEntry(entries, id).value
    ensures LastEntry(entries, id).Some? ==> LastEntry(entries, id).value.job.id == id
  {
    if entries != [] {
      var n := |entries| - 1;
      if entries[n].job.id == id {
        assert IsLast(entries, n);
      } else {
        LastEntryIsLast(entries[..n], id);
        if Mentions(entries, id) {
          var k :| 0 <= k < |entries| && entries[k].job.id == id;
          assert entries[..n][k].job.id == id;
        }
        if LastEntry(entries[..n], id).Some? {
          var i :| IsLast(entries[..n], i) && entries[..n][i] == LastEntry(entries[..n], id).value;
          StillLast(entries, i);
          assert entries[i].job.id == id;
        }
      }
    }
  }

  lemma StillLast(entries: seq<Entry>, i: int)
    requires entries != [] && IsLast(entries[..|entries| - 1], i) && entries[|entries| - 1].job.id != entries[i].job.id
    ensures IsLast(entries, i)
  {
    forall j | i < j < |entries| ensures entries[j].job.id != entries[i].job.id {
      if j < |entries| - 1 { assert entries[..|entries| - 1][j] == entries[j]; }
    }
  }

  /** A pass either writes a result for the id or leaves the stored one. */
  lemma {:induction false} ResultWrittenOrKept(entries: seq<Entry>, id: string, b1: Option<MatchResult>, b2: Option<MatchResult>)
    ensures LastResult(entries, id, b1) == LastResult(entries, id, b2) || (LastResult(entries, id, b1) == b1 && LastResult(entries, id, b2) == b2)
  {
    if entries != [] { ResultWrittenOrKept(entries[..|entries| - 1], id, b1, b2); }
  }

  /** Writing the same state a second time changes nothing, repeated ids or not. */
  lemma RewriteChangesNothing(jobs: map<string, JobRow>, runId: string, entries: seq<Entry>)
    ensures UpsertAll(UpsertAll(jobs, runId, entries), runId, entries) == UpsertAll(jobs, runId, entries)
  {
    hide UpsertAll, LastResult, LastEntry;
    var once := UpsertAll(jobs, runId, entries);
    var twice := UpsertAll(once, runId, entries);
    forall id ensures Find(twice, id) == Find(once, id) {
      LastWriteWins(jobs, runId, entries, id);
      LastWriteWins(once, runId, entries, id);
      ResultWrittenOrKept(entries, id, StoredResult(jobs, id), StoredResult(once, id));
    }
    assert forall id :: id in twice <==> Find(twice, id).Some?;
    assert forall id :: id in once <==> Find(once, id).Some?;
    assert forall id :: id in once ==> Find(twice, id).value == twice[id];
  }

  /** No two entries with one id carry different statuses. */
  ghost predicate StatusesAgree(entries: seq<Entry>) {
    forall i, j :: 0 <= i < j < |entries| && entries[i].job.id == entries[j].job.id ==> entries[i].status == entries[j].status
  }

  /** Every job's row shows the status of the list the job is in. */
  ghost predicate RowsShowTheirList(jobs: map<string, JobRow>, entries: seq<Entry>) {
    forall i :: 0 <= i < |entries| ==> entries[i].job.id in jobs && jobs[entries[i].job.id].status == entries[i].status
  }

  /** The table shows every job under the status of its list exactly when no id sits in lists of different status. */
  lemma RowsShowTheirListExact(jobs: map<string, JobRow>, runId: string, entries: seq<Entry>)
    ensures RowsShowTheirList(UpsertAll(jobs, runId, entries), entries) <==> StatusesAgree(entries)
  {
    hide UpsertAll, LastResult, LastEntry;
    var after := UpsertAll(jobs, runId, entries);
    if StatusesAgree(entries) {
      forall i | 0 <= i < |entries| ensures entries[i].job.id in after && after[entries[i].job.id].status == entries[i].status {
        var id := entries[i].job.id;
        LastWriteWins(jobs, runId, entries, id);
        LastEntryIsLast(entries, id);
        var k :| IsLast(entries, k) && entries[k] == LastEntry(entries, id).value;
        assert k >= i;
      }
    }
  }

  /** The ids a run wrote whose row has status `s`. */
  ghost function IdsWith(jobs: map<string, JobRow>, entries: seq<Entry>, s: JobStatus): set<string> {
    set e | e in entries && e.job.id in jobs && jobs[e.job.id].status == s :: e.job.id
  }

  ghost predicate DistinctIds(entries: seq<Entry>) {
    forall i, j :: 0 <= i < j < |entries| ==> entries[i].job.id != entries[j].job.id
  }

  function IdsOf(entries: seq<Entry>): seq<string> {
    Map(entries, (e: Entry) => e.job.id)
  }

  lemma {:induction false} DistinctSetSize(ids: seq<string>)
    requires forall i, j :: 0 <= i < j < |ids| ==> ids[i] != ids[j]
    ensures |set x | x in ids| == |ids|
  {
    if ids != [] {
      var n := |ids| - 1;
      DistinctSetSize(ids[..n]);
      assert ids == ids[..n] + [ids[n]];
      assert (set x | x in ids) == (set x | x in ids[..n]) + {ids[n]};
      assert ids[n] !in ids[..n];
    }
  }

  lemma {:induction false} FilterKeepsDistinct(entries: seq<Entry>, p: Entry -> bool)
    requires DistinctIds(entries)
    ensures DistinctIds(Filter(entries, p))
  {
    if entries != [] {
      var n := |entries| - 1;
      FilterKeepsDistinct(entries[..n], p);
      var before := Filter(entries[..n], p);
      forall k | 0 <= k < |before| ensures before[k].job.id != entries[n].job.id {
        assert before[k] in before;
        FilterMember(entries[..n], p, before[k]);
      }
    }
  }

  /** With pairwise distinct ids, each job has one row, exactly as its list says, and per-status counts equal list sizes. */
  lemma DistinctRunWritten(jobs: map<string, JobRow>, runId: string, entries: seq<Entry>)
    requires DistinctIds(entries)
    ensures var after := UpsertAll(jobs, runId, entries);
            && (forall e :: e in entries ==>
                  var row := JobRow(runId, e.job, e.status, if e.result.Some? then e.result else StoredResult(jobs, e.job.id));
                  Find(after, e.job.id) == Some(row))
            && (forall id :: !Mentions(entries, id) ==> Find(after, id) == Find(jobs, id))
            && (forall s :: |IdsWith(after, entries, s)| == Count(entries, (e: Entry) => e.status == s))
  {
    hide UpsertAll, LastResult, LastEntry;
    var after := UpsertAll(jobs, runId, entries);
    forall e | e in entries
      ensures Find(after, e.job.id) ==
              Some(JobRow(runId, e.job, e.status, if e.result.Some? then e.result else StoredResult(jobs, e.job.id)))
    {
      var i :| 0 <= i < |entries| && entries[i] == e;
      LastWriteWins(jobs, runId, entries, e.job.id);
      LastEntryIsLast(entries, e.job.id);
      var k :| IsLast(entries, k) && entries[k] == LastEntry(entries, e.job.id).value;
      assert k == i;
      OnlyResult(entries, i, StoredResult(jobs, e.job.id));
    }
    forall id | !Mentions(entries, id) ensures Find(after, id) == Find(jobs, id) {
      LastWriteWins(jobs, runId, entries, id);
      LastEntryIsLast(entries, id);
    }
    forall e | e in entries ensures e.job.id in after && after[e.job.id].status == e.status {
      assert Find(after, e.job.id).Some?;
    }
    forall s ensures |IdsWith(after, entries, s)| == Count(entries, (e: Entry) => e.status == s) {
      StatusCount(after, entries, s);
    }
  }

  lemma {:induction false} OnlyResult(entries: seq<Entry>, i: int, before: Option<MatchResult>)
    requires DistinctIds(entries) && 0 <= i < |entries|
    ensures LastResult(entries, entries[i].job.id, before) == if entries[i].result.Some? then entries[i].result else before
  {
    var n := |entries| - 1;
    if i < n {
      OnlyResult(entries[..n], i, before);
    } else {
      NoResult(entries[..n], entries[i].job.id, before);
    }
  }

  lemma {:induction false} NoResult(entries: seq<Entry>, id: string, before: Option<MatchResult>)
    requires forall j :: 0 <= j < |entries| ==> entries[j].job.id != id
    ensures LastResult(entries, id, before) == before
  {
    if entries != [] { NoResult(entries[..|entries| - 1], id, before); }
  }

  lemma StatusCount(after: map<string, JobRow>, entries: seq<Entry>, s: JobStatus)
    requires DistinctIds(entries) && forall e :: e in entries ==> e.job.id in after && after[e.job.id].status == e.status
    ensures |IdsWith(after, entries, s)| == Count(entries, (e: Entry) => e.status == s)
  {
    var chosen := Filter(entries, (e: Entry) => e.status == s);
    FilterKeepsDistinct(entries, (e: Entry) => e.status == s);
    var ids := IdsOf(chosen);
    DistinctSetSize(ids);
    forall id ensures id in IdsWith(after, entries, s) <==> id in ids {
      if id in ids {
        var k :| 0 <= k < |ids| && ids[k] == id;
        assert chosen[k] in chosen;
        FilterMember(entries, (e: Entry) => e.status == s, chosen[k]);
      }
      if id in IdsWith(after, entries, s) {
        var e :| e in entries && e.job.id == id && after[e.job.id].status == s;
        FilterMember(entries, (e: Entry) => e.status == s, e);
        var k :| 0 <= k < |chosen| && chosen[k] == e;
        assert ids[k] == id;
      }
    }
    assert IdsWith(after, entries, s) == set x | x in ids;
  }

  /** The list sizes a completed run reports are the per-status counts of its entries. */
  lemma EntryCounts(st: Discovery.RunState)
    ensures Count(Entries(st), (e: Entry) => e.status == Queued) == |st.queue|
    ensures Count(Entries(st), (e: Entry) => e.status == Rejected) == |st.rejected|
    ensures Count(Entries(st), (e: Entry) => e.status == JobStatus.HumanReview) == |st.review|
    ensures Count(Entries(st), (e: Entry) => e.status == Duplicate) == |st.duplicates|
  {
    EntryCount(st, Queued);
    EntryCount(st, Rejected);
    EntryCount(st, JobStatus.HumanReview);
    EntryCount(st, Duplicate);
  }

  lemma EntryCount(st: Discovery.RunState, s: JobStatus)
    ensures Count(Entries(st), (e: Entry) => e.status == s) ==
            match s case Queued => |st.queue| case Rejected => |st.rejected| case HumanReview => |st.review| case Duplicate => |st.duplicates|
  {
    hide Count;
    var p := (e: Entry) => e.status == s;
    var a, b, c, d := ScoredEntries(st.queue, Queued), ScoredEntries(st.rejected, Rejected),
                      ScoredEntries(st.review, JobStatus.HumanReview), DuplicateEntries(st.duplicates);
    CountConcat(a + b + c, d, p);
    CountConcat(a + b, c, p);
    CountConcat(a, b, p);
    CountUniform(a, Queued, s);
    CountUniform(b, Rejected, s);
    CountUniform(c, JobStatus.HumanReview, s);
    CountUniform(d, Duplicate, s);
  }

  lemma CountConcat(a: seq<Entry>, b: seq<Entry>, p: Entry -> bool)
    ensures Count(a + b, p) == Count(a, p) + Count(b, p)
  {
    FilterConcat(a, b, p);
  }

  lemma CountUniform(entries: seq<Entry>, own: JobStatus, s: JobStatus)
    requires forall i :: 0 <= i < |entries| ==> entries[i].status == own
    ensures Count(entries, (e: Entry) => e.status == s) == if own == s then |entries| else 0
  {
    FilterAll(entries, (e: Entry) => e.status == s);
  }

  // --- a whole run ---

  function JobIds(jobs: seq<Job>): seq<string> {
    Map(jobs, (j: Job) => j.id)
  }

  ghost predicate AllDistinct(ids: seq<string>) {
    forall i, j :: 0 <= i < j < |ids| ==> ids[i] != ids[j]
  }

  lemma {:induction false} DistinctByCount(ids: seq<string>)
    ensures AllDistinct(ids) <==> forall id :: multiset(ids)[id] <= 1
  {
    if ids != [] {
      var n := |ids| - 1;
      var before, last := ids[..n], ids[n];
      assert ids == before + [last];
      DistinctByCount(before);
      assert AllDistinct(ids) <==> AllDistinct(before) && last !in before;
      assert forall id :: multiset(ids)[id] == multiset(before)[id] + if id == last then 1 else 0;
      if last in before { assert multiset(ids)[last] >= 2; }
    }
  }

  lemma IdsConcat(a: seq<Entry>, b: seq<Entry>)
    ensures IdsOf(a + b) == IdsOf(a) + IdsOf(b)
  {
    MapConcat(a, b, (e: Entry) => e.job.id);
  }

  lemma EntriesIds(st: Discovery.RunState)
    ensures IdsOf(Entries(st)) == JobIds(PolicyGuard.Jobs(st.queue) + PolicyGuard.Jobs(st.rejected) + PolicyGuard.Jobs(st.review) + st.duplicates)
  {
    var a, b, c, d := ScoredEntries(st.queue, Queued), ScoredEntries(st.rejected, Rejected),
                      ScoredEntries(st.review, JobStatus.HumanReview), DuplicateEntries(st.duplicates);
    ScoredIds(st.queue, Queued);
    ScoredIds(st.rejected, Rejected);
    ScoredIds(st.review, JobStatus.HumanReview);
    assert IdsOf(d) == JobIds(st.duplicates);
    hide IdsOf, JobIds, ScoredEntries, DuplicateEntries, PolicyGuard.Jobs;
    IdsConcat(a + b + c, d);
    IdsConcat(a + b, c);
    IdsConcat(a, b);
    var q, r, v := PolicyGuard.Jobs(st.queue), PolicyGuard.Jobs(st.rejected), PolicyGuard.Jobs(st.review);
    JobIdsConcat(q + r + v, st.duplicates);
    JobIdsConcat(q + r, v);
    JobIdsConcat(q, r);
  }

  lemma ScoredIds(list: seq<ScoredJob>, s: JobStatus)
    ensures IdsOf(ScoredEntries(list, s)) == JobIds(PolicyGuard.Jobs(list))
  {
  }

  lemma JobIdsConcat(a: seq<Job>, b: seq<Job>)
    ensures JobIds(a + b) == JobIds(a) + JobIds(b)
  {
    MapConcat(a, b, (j: Job) => j.id);
  }

  /** The well-formed postings of a run. */
  function Postings(env: Discovery.Env): seq<Job> {
    Normalized(Discovery.Accumulated(env.arrivals))
  }

  /** A completed run files every kept posting in its queue, rejected or review list. */
  lemma RunFilesKept(env: Discovery.Env, answer: Option<PolicyGuard.Decisions>)
    requires env.profile.Some? && Discovery.Run(env, answer).Completed?
    ensures var st := Discovery.Run(env, answer).state;
            multiset(PolicyGuard.Jobs(st.queue)) + multiset(PolicyGuard.Jobs(st.rejected)) + multiset(PolicyGuard.Jobs(st.review))
            == multiset(Kept(Postings(env)))
  {
    hide PolicyGuard.Guard, PolicyGuard.Jobs, Duplicates, Kept, Normalized, Discovery.Accumulated, Discovery.ScoreAll, Malformed;
    var scored := Discovery.Prepared(env).scored;
    ScoredJobs(env, Kept(Postings(env)));
    if PolicyGuard.Guard(scored, env.profile, env.limits, []).Done? {
      PolicyGuard.GuardLosesNothing(scored, env.profile, env.limits, []);
    } else {
      PolicyGuard.GuardLosesNothing(scored, env.profile, env.limits, [] + [answer.value]);
    }
  }

  /** A completed run files every well-formed posting once: in its queue, rejected, review or duplicate list. */
  lemma RunFilesEveryPosting(env: Discovery.Env, answer: Option<PolicyGuard.Decisions>)
    requires env.profile.Some? && Discovery.Run(env, answer).Completed?
    ensures var st := Discovery.Run(env, answer).state;
            multiset(PolicyGuard.Jobs(st.queue) + PolicyGuard.Jobs(st.rejected) + PolicyGuard.Jobs(st.review) + st.duplicates)
            == multiset(Postings(env))
  {
    hide Discovery.Run, PolicyGuard.Jobs, Duplicates, Kept, Postings;
    RunFilesKept(env, answer);
    RunKeepsDuplicates(env, answer);
    DedupeSplits(Postings(env));
  }

  lemma ScoredJobs(env: Discovery.Env, jobs: seq<Job>)
    requires env.profile.Some?
    ensures PolicyGuard.Jobs(Discovery.ScoreAll(env, jobs)) == jobs
  {
    hide Scoring.ScoreJob;
  }

  /** A completed run writes pairwise distinct ids exactly when the portals returned pairwise distinct postings. */
  lemma RunIdsDistinctExactly(env: Discovery.Env, answer: Option<PolicyGuard.Decisions>)
    requires env.profile.Some? && Discovery.Run(env, answer).Completed?
    ensures DistinctIds(Entries(Discovery.Run(env, answer).state)) <==> AllDistinct(JobIds(Postings(env)))
  {
    hide Discovery.Run, Postings, Entries, JobIds;
    var st := Discovery.Run(env, answer).state;
    RunFilesEveryPosting(env, answer);
    EntriesIds(st);
    var all := PolicyGuard.Jobs(st.queue) + PolicyGuard.Jobs(st.rejected) + PolicyGuard.Jobs(st.review) + st.duplicates;
    SameIds(all, Postings(env));
    DistinctByCount(IdsOf(Entries(st)));
    DistinctByCount(JobIds(Postings(env)));
    assert DistinctIds(Entries(st)) <==> AllDistinct(IdsOf(Entries(st)));
  }

  lemma SameIds(a: seq<Job>, b: seq<Job>)
    requires multiset(a) == multiset(b)
    ensures multiset(JobIds(a)) == multiset(JobIds(b))
  {
    MapPermutation(a, b, (j: Job) => j.id);
  }

  /** After a completed run over distinct postings, the table shows each job under its list's status with its score, leaves other ids
      alone, and holds as many rows of each status as the run reports. */
  lemma DistinctPostingsWritten(env: Discovery.Env, answer: Option<PolicyGuard.Decisions>, jobs: map<string, JobRow>, runId: string)
    requires env.profile.Some? && Discovery.Run(env, answer).Completed? && AllDistinct(JobIds(Postings(env)))
    ensures var st := Discovery.Run(env, answer).state;
            var entries, after := Entries(st), UpsertAll(jobs, runId, Entries(st));
            && (forall s :: s in st.queue ==> Find(after, s.job.id) == Some(JobRow(runId, s.job, Queued, Some(s.result))))
            && (forall s :: s in st.rejected ==> Find(after, s.job.id) == Some(JobRow(runId, s.job, Rejected, Some(s.result))))
            && (forall s :: s in st.review ==> Find(after, s.job.id) == Some(JobRow(runId, s.job, JobStatus.HumanReview, Some(s.result))))
            && (forall id :: id !in JobIds(Postings(env)) ==> Find(after, id) == Find(jobs, id))
            && |IdsWith(after, entries, Queued)| == st.metrics.value.queued
            && |IdsWith(after, entries, Rejected)| == st.metrics.value.rejected
            && |IdsWith(after, entries, JobStatus.HumanReview)| == st.metrics.value.humanReviewPending
            && |IdsWith(after, entries, Duplicate)| == st.metrics.value.duplicates
  {
    hide Discovery.Run, Postings, UpsertAll, IdsWith, Count, Discovery.Measure, Entries, JobIds;
    var st := Discovery.Run(env, answer).state;
    var entries := Entries(st);
    RunIdsDistinctExactly(env, answer);
    DistinctRunWritten(jobs, runId, entries);
    EntryCounts(st);
    ReportedCounts(env, answer);
    forall s | s in st.queue ensures Entry(s.job, Queued, Some(s.result)) in entries { ListedEntry(st, s); }
    forall s | s in st.rejected ensures Entry(s.job, Rejected, Some(s.result)) in entries { ListedEntry(st, s); }
    forall s | s in st.review ensures Entry(s.job, JobStatus.HumanReview, Some(s.result)) in entries { ListedEntry(st, s); }
    forall id | id !in JobIds(Postings(env)) ensures !Mentions(entries, id) {
      NotMentioned(env, answer, id);
    }
  }

  lemma ReportedCounts(env: Discovery.Env, answer: Option<PolicyGuard.Decisions>)
    requires Discovery.Run(env, answer).Completed?
    ensures var st := Discovery.Run(env, answer).state; st.metrics == Some(Discovery.Measure(st))
    ensures var st := Discovery.Run(env, answer).state; var m := Discovery.Measure(st);
            m.queued == |st.queue| && m.rejected == |st.rejected| && m.humanReviewPending == |st.review| && m.duplicates == |st.duplicates|
  {
    hide Discovery.Run;
    Discovery.MetricsConserve(env, answer);
  }

  lemma ListedEntry(st: Discovery.RunState, s: ScoredJob)
    ensures s in st.queue ==> Entry(s.job, Queued, Some(s.result)) in Entries(st)
    ensures s in st.rejected ==> Entry(s.job, Rejected, Some(s.result)) in Entries(st)
    ensures s in st.review ==> Entry(s.job, JobStatus.HumanReview, Some(s.result)) in Entries(st)
  {
    EntryOf(st.queue, Queued, s);
    EntryOf(st.rejected, Rejected, s);
    EntryOf(st.review, JobStatus.HumanReview, s);
    hide ScoredEntries, DuplicateEntries;
  }

  lemma EntryOf(list: seq<ScoredJob>, status: JobStatus, s: ScoredJob)
    ensures s in list ==> Entry(s.job, status, Some(s.result)) in ScoredEntries(list, status)
  {
    if s in list {
      var i :| 0 <= i < |list| && list[i] == s;
      assert ScoredEntries(list, status)[i] == Entry(s.job, status, Some(s.result));
    }
  }

  lemma NotMentioned(env: Discovery.Env, answer: Option<PolicyGuard.Decisions>, id: string)
    requires env.profile.Some? && Discovery.Run(env, answer).Completed? && id !in JobIds(Postings(env))
    ensures !Mentions(Entries(Discovery.Run(env, answer).state), id)
  {
    hide Discovery.Run, Postings, Entries, JobIds;
    var st := Discovery.Run(env, answer).state;
    RunFilesEveryPosting(env, answer);
    EntriesIds(st);
    SameIds(PolicyGuard.Jobs(st.queue) + PolicyGuard.Jobs(st.rejected) + PolicyGuard.Jobs(st.review) + st.duplicates, Postings(env));
    var ids := IdsOf(Entries(st));
    assert id !in multiset(ids);
    forall i | 0 <= i < |Entries(st)| ensures Entries(st)[i].job.id != id {
      assert ids[i] in multiset(ids);
    }
  }

  // --- the same posting listed twice ---

  lemma {:induction false} RepeatIsDuplicate(jobs: seq<Job>, i: nat, j: nat)
    requires i < j < |jobs| && DedupeKey(jobs[i]) == DedupeKey(jobs[j])
    ensures jobs[j] in Duplicates(jobs)
  {
    hide *;
    var n := |jobs| - 1;
    DedupeUnfold(jobs);
    if j == n {
      KeyOccurs(jobs[..n], i);
    } else {
      RepeatIsDuplicate(jobs[..n], i, j);
    }
  }

  lemma KeyOccurs(jobs: seq<Job>, i: nat)
    requires i < |jobs|
    ensures DedupeKey(jobs[i]) in Keys(jobs)
  {
    hide DedupeKey;
    assert jobs[i] in jobs;
  }

  /** Duplicates are written last, so a job whose id also occurs among the duplicates is shown as a duplicate even when it is queued. */
  lemma DuplicateMasksKept(jobs: map<string, JobRow>, runId: string, st: Discovery.RunState, d: Job)
    requires d in st.duplicates
    ensures var after := UpsertAll(jobs, runId, Entries(st)); d.id in after && after[d.id].status == Duplicate
  {
    hide UpsertAll, LastResult, LastEntry;
    var entries := Entries(st);
    LastWriteWins(jobs, runId, entries, d.id);
    LastEntryIsLast(entries, d.id);
    var k :| 0 <= k < |st.duplicates| && st.duplicates[k] == d;
    var offset := |entries| - |st.duplicates|;
    assert entries[offset + k].job.id == d.id;
    var i :| IsLast(entries, i) && entries[i] == LastEntry(entries, d.id).value;
    assert i >= offset + k;
    assert entries[i].status == Duplicate;
  }

  lemma RunKeepsDuplicates(env: Discovery.Env, answer: Option<PolicyGuard.Decisions>)
    ensures Discovery.Run(env, answer).state.duplicates == Duplicates(Postings(env))
  {
    hide PolicyGuard.Guard, Duplicates, Normalized, Discovery.Accumulated, Kept, Malformed, Discovery.ScoreAll;
  }

  /** The row of a posting that is found twice reads "duplicate", whatever the run decides about it. */
  lemma RepeatedPostingMasked(env: Discovery.Env, answer: Option<PolicyGuard.Decisions>, jobs: map<string, JobRow>, runId: string, i: nat, j: nat)
    requires var found := Postings(env); i < j < |found| && found[i] == found[j]
    ensures var found, st := Postings(env), Discovery.Run(env, answer).state;
            && found[i].id in UpsertAll(jobs, runId, Entries(st))
            && UpsertAll(jobs, runId, Entries(st))[found[i].id].status == Duplicate
  {
    hide UpsertAll, Entries, Duplicates, DedupeKey, Postings, Discovery.Run;
    RunKeepsDuplicates(env, answer);
    var found := Postings(env);
    RepeatIsDuplicate(found, i, j);
    DuplicateMasksKept(jobs, runId, Discovery.Run(env, answer).state, found[j]);
  }

  lemma FirstIsKept(jobs: seq<Job>, i: nat)
    requires IsFirst(jobs, i)
    ensures jobs[i] in Kept(jobs)
  {
    hide Kept, IsFirst;
    FirstInRange(jobs, i);
    var at := KeptAreFirsts(jobs, |jobs|);
    assert jobs[..|jobs|] == jobs;
    var k :| 0 <= k < |at| && at[k] == i;
    assert Kept(jobs)[k] == jobs[i];
  }

  lemma ListedAsScored(st: Discovery.RunState, job: Job)
    requires job in multiset(PolicyGuard.Jobs(st.queue)) + multiset(PolicyGuard.Jobs(st.rejected)) + multiset(PolicyGuard.Jobs(st.review))
    ensures exists i :: 0 <= i < |Entries(st)| && Entries(st)[i].job == job && Entries(st)[i].status != Duplicate
  {
    var list := if job in PolicyGuard.Jobs(st.queue) then st.queue else if job in PolicyGuard.Jobs(st.rejected) then st.rejected else st.review;
    assert job in PolicyGuard.Jobs(list);
    var k :| 0 <= k < |list| && list[k].job == job;
    ListedEntry(st, list[k]);
  }

  /** If the first copy of a repeated posting is the one the run keeps, some row contradicts the list its job is in. */
  lemma RepeatedPostingContradicts(env: Discovery.Env, answer: Option<PolicyGuard.Decisions>, jobs: map<string, JobRow>, runId: string, i: nat, j: nat)
    requires env.profile.Some? && Discovery.Run(env, answer).Completed?
    requires i < j < |Postings(env)| && Postings(env)[i] == Postings(env)[j] && IsFirst(Postings(env), i)
    ensures var entries := Entries(Discovery.Run(env, answer).state); !RowsShowTheirList(UpsertAll(jobs, runId, entries), entries)
  {
    hide Discovery.Run, Postings, Entries, UpsertAll, Kept, PolicyGuard.Jobs, IsFirst;
    var st, job := Discovery.Run(env, answer).state, Postings(env)[i];
    FirstIsKept(Postings(env), i);
    RunFilesKept(env, answer);
    assert job in multiset(Kept(Postings(env)));
    ListedAsScored(st, job);
    RepeatedPostingMasked(env, answer, jobs, runId, i, j);
  }
}

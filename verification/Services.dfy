/** Starting and resuming runs and applications: duplicate check, record, graph step, table write, in that order. */
module Services {
  import opened Prelude
  import opened Persistence
  import opened FormMapping
  import opened PolicyGuard
  import Apply = ApplyGraph
  import Discovery

  /** A checkpointed application; `history` is every answer it has been given. */
  datatype AppRecord = AppRecord(env: Apply.Env, history: seq<Answer>, thread: Apply.Thread)

  /** A checkpointed run; `answer` is the human decision it has been given, if any. */
  datatype RunRecord = RunRecord(env: Discovery.Env, answer: Option<Decisions>, thread: Discovery.Thread)

  /** The tables together with the checkpoints they are meant to mirror. */
  datatype World = World(tables: Tables, apps: map<string, AppRecord>, runs: map<string, RunRecord>)

  const FRESH := World(Tables(map[], map[], map[], []), map[], map[])

  /** The calls a client can make. Ids are fresh; `now` is the clock. */
  datatype Call =
    | StartApplication(appId: string, hasProfile: bool, appEnv: Apply.Env, formPageUrl: string, now: nat)
    | ResumeApplication(appId: string, answer: Answer, now: nat)
    | StartRun(runId: string, runEnv: Discovery.Env, now: nat)
    | ResumeRun(runId: string, decisions: Decisions, now: nat)

  datatype Response =
    | NotFound
    | DuplicateApplication
    | GraphRaised
    | DatabaseRaised
    | AppShown(view: Apply.View)
    | RunShown(thread: Discovery.Thread)

  /** What the graph call hands to the table write. */
  function Returned(t: Apply.Thread): AppResult
    requires !t.Crashed?
  {
    if t.Paused? then Interrupted(t.payload) else Finished(t.state.status)
  }

  /** Write an application's new position, unless its graph raised. */
  function Record(w: World, id: string, rec: AppRecord, now: nat): (World, Response) {
    var stepped := w.(apps := w.apps[id := rec]);
    if rec.thread.Crashed? then (stepped, GraphRaised)
    else
      match PersistApplication(w.tables, id, Returned(rec.thread), now)
      case None => (stepped, DatabaseRaised)
      case Some(tables) => (stepped.(tables := tables), AppShown(Apply.ThreadView(rec.thread)))
  }

  function RecordRun(w: World, id: string, rec: RunRecord, now: nat): (World, Response) {
    var stepped := w.(runs := w.runs[id := rec]);
    match PersistRun(w.tables, id, rec.thread, now)
    case None => (stepped, DatabaseRaised)
    case Some(tables) => (stepped.(tables := tables), RunShown(rec.thread))
  }

  function Serve(w: World, c: Call): (World, Response)
    requires Allowed(w, c)
  {
    match c
    case StartApplication(id, hasProfile, env, url, now) =>
      if !hasProfile then (w, NotFound)
      else if HasApplication(w.tables, env.job.id) then (w, DuplicateApplication)
      else
        var created := w.(tables := w.tables.(applications := w.tables.applications[id := NewApplication(env.job, url, now)]));
        Record(created, id, AppRecord(env, [], Apply.Start(env)), now)
    case ResumeApplication(id, answer, now) =>
      if id !in w.apps then (w, NotFound)
      else
        var rec := w.apps[id];
        Record(w, id, AppRecord(rec.env, rec.history + [answer], Apply.Resume(rec.env, rec.thread, answer)), now)
    case StartRun(id, env, now) => RecordRun(w, id, RunRecord(env, None, Discovery.Start(env)), now)
    case ResumeRun(id, decisions, now) =>
      if id !in w.runs then (w, NotFound)
      else
        var rec := w.runs[id];
        RecordRun(w, id, RunRecord(rec.env, Some(decisions), Discovery.Resume(rec.env, rec.thread, decisions)), now)
  }

  /** New ids are fresh, and no thread is resumed after its end. An application whose graph raised may be resumed. */
  predicate Allowed(w: World, c: Call) {
    match c
    case StartApplication(id, _, _, _, _) => id !in w.apps && id !in w.tables.applications
    case ResumeApplication(id, _, _) => id in w.apps ==> !w.apps[id].thread.Completed?
    case StartRun(id, _, _) => id !in w.runs && id !in w.tables.runs
    case ResumeRun(id, _, _) => id in w.runs ==> w.runs[id].thread.Paused?
  }

  /** The services as the program runs them: tables in a database, threads in a checkpoint store. */
  class Backend {
    const db: Database
    var apps: map<string, AppRecord>
    var runs: map<string, RunRecord>

    function Contents(): World
      reads this, db
    {
      World(db.Contents(), apps, runs)
    }

    constructor ()
      ensures Contents() == FRESH && fresh(db)
    {
      db := new Database();
      apps, runs := map[], map[];
    }

    method StartApplication(id: string, hasProfile: bool, env: Apply.Env, url: string, now: nat) returns (r: Response)
      requires Allowed(Contents(), Call.StartApplication(id, hasProfile, env, url, now))
      modifies this, db
      ensures (Contents(), r) == Serve(old(Contents()), Call.StartApplication(id, hasProfile, env, url, now))
    {
      hide Apply.Execute, PersistApplication;
      if !hasProfile {
        return NotFound;
      }
      var existing := db.GetApplicationByJobId(env.job.id);
      if existing.Some? {
        return DuplicateApplication;
      }
      db.CreateApplicationRecord(id, env.job, url, now);
      var thread := Apply.Start(env);
      apps := apps[id := AppRecord(env, [], thread)];
      if thread.Crashed? {
        return GraphRaised;
      }
      var ok := db.PersistApplicationResult(id, Returned(thread), now);
      r := if ok then AppShown(Apply.ThreadView(thread)) else DatabaseRaised;
    }

    method ResumeApplication(id: string, answer: Answer, now: nat) returns (r: Response)
      requires Allowed(Contents(), Call.ResumeApplication(id, answer, now))
      modifies this, db
      ensures (Contents(), r) == Serve(old(Contents()), Call.ResumeApplication(id, answer, now))
    {
      hide Apply.Execute, PersistApplication;
      if id !in apps {
        return NotFound;
      }
      var rec := apps[id];
      var thread := Apply.Resume(rec.env, rec.thread, answer);
      apps := apps[id := AppRecord(rec.env, rec.history + [answer], thread)];
      if thread.Crashed? {
        return GraphRaised;
      }
      var ok := db.PersistApplicationResult(id, Returned(thread), now);
      r := if ok then AppShown(Apply.ThreadView(thread)) else DatabaseRaised;
    }

    method StartRun(id: string, env: Discovery.Env, now: nat) returns (r: Response)
      requires Allowed(Contents(), Call.StartRun(id, env, now))
      modifies this, db
      ensures (Contents(), r) == Serve(old(Contents()), Call.StartRun(id, env, now))
    {
      hide Discovery.GuardOnwards, Discovery.Prepared, PersistRun;
      var st := Discovery.ReachGuard(env);
      var thread := Discovery.ExecuteGuard(env, st, []);
      runs := runs[id := RunRecord(env, None, thread)];
      var ok := db.PersistRunResult(id, thread, now);
      r := if ok then RunShown(thread) else DatabaseRaised;
    }

    method ResumeRun(id: string, decisions: Decisions, now: nat) returns (r: Response)
      requires Allowed(Contents(), Call.ResumeRun(id, decisions, now))
      modifies this, db
      ensures (Contents(), r) == Serve(old(Contents()), Call.ResumeRun(id, decisions, now))
    {
      hide Discovery.GuardOnwards, PersistRun;
      if id !in runs {
        return NotFound;
      }
      var rec := runs[id];
      var thread := Discovery.ExecuteGuard(rec.env, rec.thread.state, rec.thread.answers + [decisions]);
      runs := runs[id := RunRecord(rec.env, Some(decisions), thread)];
      var ok := db.PersistRunResult(id, thread, now);
      r := if ok then RunShown(thread) else DatabaseRaised;
    }
  }

  /** The graph ends only through its last node, which sets the status. */
  lemma CompletedHasStatus(env: Apply.Env, node: Apply.Node, st: Apply.State, answers: seq<Answer>)
    ensures var t := Apply.Execute(env, node, st, answers); t.Completed? ==> t.state.status.Some?
    decreases 4 - Apply.Position(node)
  {
    hide Apply.AutoApproves, Apply.ChallengesFrom, Apply.FillAndValidate, Apply.DetectAndMap;
    match node
    case Detect =>
      var out := Apply.DetectAndMap(env, answers);
      if out.Done? { CompletedHasStatus(env, Apply.Filling, st.(mappings := out.value), []); }
    case Filling =>
      var out := Apply.FillAndValidate(env, st.mappings);
      if out.Done? { CompletedHasStatus(env, Apply.Challenges, st.(warnings := st.warnings + out.value), []); }
    case Challenges =>
      var out := Apply.ChallengesFrom(env.challenges, 0, answers, Apply.NO_CHALLENGE);
      if out.Done? { CompletedHasStatus(env, Apply.Approval, st.(challenge := out.value), []); }
    case Approval =>
      var out := Apply.ManualApproval(env, st.mappings, answers);
      if out.Done? { CompletedHasStatus(env, Apply.Finalization, st.(approved := Some(out.value)), []); }
    case Finalization =>
  }
}

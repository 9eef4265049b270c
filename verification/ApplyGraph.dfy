/** The per-application graph. A paused node is executed again from its first line; its nth interrupt
    receives the nth recorded answer, and the first unanswered one pauses. */
module ApplyGraph {
  import opened Prelude
  import opened Text
  import opened Domain
  import opened FormMapping
  import opened FormFilling

  datatype ChallengePage = ChallengePage(url: string, otpPresent: bool, captchaPresent: bool)

  datatype ApprovalConfig = ApprovalConfig(mode: string, hybridMinScore: real, hybridMinConfidence: real)

  /** Everything an application reads from outside; none of it changes while the application is in flight. */
  datatype Env = Env(
    job: Job,
    profile: Profile,
    matchScore: Option<real>,
    fields: seq<DetectedField>,
    refusals: Refusals,
    invalidAfterFill: seq<string>,
    challenges: seq<ChallengePage>,
    threshold: real,
    approval: ApprovalConfig,
    dryRun: bool)

  datatype Payload =
    | UnknownFields(fields: seq<string>)
    | OtpRequired(page: string)
    | CaptchaRequired(page: string)
    | ApprovalRequired(jobId: string, mappings: seq<FieldMapping>)

  function Reason(p: Payload): string {
    match p
    case UnknownFields(_) => "UNKNOWN_REQUIRED_FIELD"
    case OtpRequired(_) => "OTP_REQUIRED"
    case CaptchaRequired(_) => "CAPTCHA_REQUIRED"
    case ApprovalRequired(_, _) => "MANUAL_APPROVAL_REQUIRED"
  }

  datatype Status = RejectedByHuman | DryRunReady | SubmittedMock

  datatype ChallengeResult = ChallengeResult(otpCode: Option<string>, captchaResolved: bool)

  datatype Warning = FieldFailed(name: string) | StillInvalid(names: seq<string>)

  datatype State = State(
    mappings: seq<FieldMapping>,
    warnings: seq<Warning>,
    challenge: ChallengeResult,
    approved: Option<bool>,
    status: Option<Status>)

  const NO_CHALLENGE := ChallengeResult(None, false)
  const EMPTY := State([], [], NO_CHALLENGE, None, None)

  /** What executing a node yields. */
  datatype Outcome<+T> = Pause(payload: Payload) | Done(value: T) | Raise(failure: Failure)

  /** `str(x).lower() in ("true", "yes", "1")` */
  predicate Affirmative(a: Answer, key: string) {
    key in a && Lower(a[key]) in {"true", "yes", "1"}
  }

  function Entry(a: Answer, key: string): Option<string> {
    if key in a then Some(a[key]) else None
  }

  // --- the five nodes ---

  function FieldNames(mappings: seq<FieldMapping>): seq<string> {
    Map(mappings, (m: FieldMapping) => m.field)
  }

  function DetectAndMap(env: Env, answers: seq<Answer>): Outcome<seq<FieldMapping>> {
    var mappings := MapFields(env.fields, env.profile, env.threshold);
    var unknown := NeedHuman(mappings);
    if unknown == [] then Done(mappings)
    else if answers == [] then Pause(UnknownFields(FieldNames(unknown)))
    else Done(AnswerMappings(mappings, answers[0]))
  }

  /** The fields that failed, then the fields the page still finds invalid. */
  function FillWarnings(env: Env, result: FillResult): seq<Warning> {
    Map(result.errors, (n: string) => FieldFailed(n))
    + if env.invalidAfterFill == [] then [] else [StillInvalid(env.invalidAfterFill)]
  }

  function FillAndValidate(env: Env, mappings: seq<FieldMapping>): Outcome<seq<Warning>> {
    match Fill(env.fields, mappings, env.refusals)
    case Raised(failure) => Raise(failure)
    case Filled(result) => Done(FillWarnings(env, result))
  }

  predicate Recognised(page: ChallengePage) {
    page.otpPresent || page.captchaPresent
  }

  /** The interrupt a recognised page raises; a one-time-password field takes precedence. */
  function ChallengePayload(page: ChallengePage): Payload {
    if page.otpPresent then OtpRequired(page.url) else CaptchaRequired(page.url)
  }

  /** What the answer for a recognised page changes. */
  function Absorb(page: ChallengePage, a: Answer, acc: ChallengeResult): ChallengeResult {
    if page.otpPresent then acc.(otpCode := Entry(a, "otp_code"))
    else acc.(captchaResolved := Affirmative(a, "solved"))
  }

  /** The challenge loop from page `i` on, with the answers not yet consumed. */
  function ChallengesFrom(pages: seq<ChallengePage>, i: nat, answers: seq<Answer>, acc: ChallengeResult): Outcome<ChallengeResult>
    requires i <= |pages|
    decreases |pages| - i
  {
    if i == |pages| then Done(acc)
    else if !Recognised(pages[i]) then ChallengesFrom(pages, i + 1, answers, acc)
    else if answers == [] then Pause(ChallengePayload(pages[i]))
    else ChallengesFrom(pages, i + 1, answers[1..], Absorb(pages[i], answers[0], acc))
  }

  method CheckChallenges(pages: seq<ChallengePage>, answers: seq<Answer>) returns (out: Outcome<ChallengeResult>)
    ensures out == ChallengesFrom(pages, 0, answers, NO_CHALLENGE)
  {
    var otpCode: Option<string>, captchaResolved := None, false;
    var k := 0;
    for i := 0 to |pages|
      invariant k <= |answers|
      invariant ChallengesFrom(pages, 0, answers, NO_CHALLENGE)
                == ChallengesFrom(pages, i, answers[k..], ChallengeResult(otpCode, captchaResolved))
    {
      var page := pages[i];
      if page.otpPresent || page.captchaPresent {
        if k == |answers| {
          return Pause(if page.otpPresent then OtpRequired(page.url) else CaptchaRequired(page.url));
        }
        assert answers[k..][1..] == answers[k + 1..];
        var response := answers[k];
        k := k + 1;
        if page.otpPresent {
          otpCode := Entry(response, "otp_code");
        } else {
          captchaResolved := Affirmative(response, "solved");
        }
      }
    }
    out := Done(ChallengeResult(otpCode, captchaResolved));
  }

  function ConfidenceSum(mappings: seq<FieldMapping>): real {
    if mappings == [] then 0.0 else ConfidenceSum(mappings[..|mappings| - 1]) + mappings[|mappings| - 1].confidence
  }

  predicate HybridAutoApproves(env: Env, mappings: seq<FieldMapping>) {
    && env.matchScore.Some? && env.matchScore.value >= env.approval.hybridMinScore
    && NeedHuman(mappings) == []
    && mappings != []
    && ConfidenceSum(mappings) / |mappings| as real >= env.approval.hybridMinConfidence
  }

  /** No human decision is asked for. */
  predicate AutoApproves(env: Env, mappings: seq<FieldMapping>) {
    env.approval.mode == "automatic" || (env.approval.mode == "hybrid" && HybridAutoApproves(env, mappings))
  }

  function ManualApproval(env: Env, mappings: seq<FieldMapping>, answers: seq<Answer>): Outcome<bool> {
    if AutoApproves(env, mappings) then Done(true)
    else if answers == [] then Pause(ApprovalRequired(env.job.id, mappings))
    else Done(Affirmative(answers[0], "approved"))
  }

  function Finalize(env: Env, approved: bool): Status {
    if !approved then RejectedByHuman else if env.dryRun then DryRunReady else SubmittedMock
  }

  // --- the graph, with checkpoints and replay ---

  datatype Node = Detect | Filling | Challenges | Approval | Finalization

  /** The position of a node in the linear edge list. */
  function Position(n: Node): nat {
    match n case Detect => 0 case Filling => 1 case Challenges => 2 case Approval => 3 case Finalization => 4
  }

  /** A checkpointed application: waiting inside a node, at the end, or stopped by an exception. */
  datatype Thread =
    | Paused(node: Node, state: State, answers: seq<Answer>, payload: Payload)
    | Completed(state: State)
    | Crashed(node: Node, state: State, failure: Failure)

  /** Execute `node` from its first line with `answers` recorded, then the nodes after it, until one pauses. */
  function Execute(env: Env, node: Node, st: State, answers: seq<Answer>): Thread
    decreases 4 - Position(node)
  {
    match node
    case Detect => (
      match DetectAndMap(env, answers)
      case Pause(p) => Paused(Detect, st, answers, p)
      case Raise(e) => Crashed(Detect, st, e)
      case Done(mappings) => Execute(env, Filling, st.(mappings := mappings), []))
    case Filling => (
      match FillAndValidate(env, st.mappings)
      case Pause(p) => Paused(Filling, st, answers, p)
      case Raise(e) => Crashed(Filling, st, e)
      case Done(warnings) => Execute(env, Challenges, st.(warnings := st.warnings + warnings), []))
    case Challenges => (
      match ChallengesFrom(env.challenges, 0, answers, NO_CHALLENGE)
      case Pause(p) => Paused(Challenges, st, answers, p)
      case Raise(e) => Crashed(Challenges, st, e)
      case Done(result) => Execute(env, Approval, st.(challenge := result), []))
    case Approval => (
      match ManualApproval(env, st.mappings, answers)
      case Pause(p) => Paused(Approval, st, answers, p)
      case Raise(e) => Crashed(Approval, st, e)
      case Done(approved) => Execute(env, Finalization, st.(approved := Some(approved)), []))
    case Finalization => Completed(st.(status := Some(Finalize(env, st.approved == Some(true)))))
  }

  function Start(env: Env): Thread {
    Execute(env, Detect, EMPTY, [])
  }

  /** A resume call executes the node that paused, or the one that raised, once more. */
  function Resume(env: Env, t: Thread, a: Answer): Thread
    requires !t.Completed?
  {
    Execute(env, t.node, t.state, if t.Paused? then t.answers + [a] else [a])
  }

  /** The thread after a list of resume calls; calls after the end are not made. */
  function Replayed(env: Env, answers: seq<Answer>): Thread {
    if answers == [] then Start(env)
    else
      var before := Replayed(env, answers[..|answers| - 1]);
      if before.Completed? then before else Resume(env, before, answers[|answers| - 1])
  }

  // --- the same application as a process that waits in place ---

  /** Where a process that is never restarted can stand. It remembers what it has computed, not what it was told. */
  datatype Process =
    | AwaitFields(mappings: seq<FieldMapping>)
    | AwaitChallenge(mappings: seq<FieldMapping>, warnings: seq<Warning>, page: nat, acc: ChallengeResult)
    | AwaitApproval(mappings: seq<FieldMapping>, warnings: seq<Warning>, result: ChallengeResult)
    | Ended(state: State)
    | Stopped(failure: Failure)

  /** The first recognised page at or after `i`, or the number of pages. */
  function NextChallenge(pages: seq<ChallengePage>, i: nat): (r: nat)
    requires i <= |pages|
    ensures i <= r <= |pages|
    ensures r < |pages| ==> Recognised(pages[r])
    ensures forall k :: i <= k < r ==> !Recognised(pages[k])
    decreases |pages| - i
  {
    if i == |pages| || Recognised(pages[i]) then i else NextChallenge(pages, i + 1)
  }

  function Launch(env: Env): Process {
    var mappings := MapFields(env.fields, env.profile, env.threshold);
    if NeedHuman(mappings) != [] then AwaitFields(mappings) else AfterFields(env, mappings)
  }

  function AfterFields(env: Env, mappings: seq<FieldMapping>): Process {
    match Fill(env.fields, mappings, env.refusals)
    case Raised(e) => Stopped(e)
    case Filled(result) => AtPage(env, mappings, FillWarnings(env, result), 0, NO_CHALLENGE)
  }

  function AtPage(env: Env, mappings: seq<FieldMapping>, warnings: seq<Warning>, i: nat, acc: ChallengeResult): Process
    requires i <= |env.challenges|
  {
    var next := NextChallenge(env.challenges, i);
    if next < |env.challenges| then AwaitChallenge(mappings, warnings, next, acc)
    else if AutoApproves(env, mappings) then End(env, mappings, warnings, acc, true)
    else AwaitApproval(mappings, warnings, acc)
  }

  function End(env: Env, mappings: seq<FieldMapping>, warnings: seq<Warning>, result: ChallengeResult, approved: bool): Process {
    Ended(State(mappings, warnings, result, Some(approved), Some(Finalize(env, approved))))
  }

  /** One answer, used on the spot. A process that has raised stays where it is. */
  function Told(env: Env, p: Process, a: Answer): Process {
    match p
    case AwaitFields(mappings) => AfterFields(env, AnswerMappings(mappings, a))
    case AwaitChallenge(mappings, warnings, page, acc) =>
      if page < |env.challenges| then AtPage(env, mappings, warnings, page + 1, Absorb(env.challenges[page], a, acc)) else p
    case AwaitApproval(mappings, warnings, result) => End(env, mappings, warnings, result, Affirmative(a, "approved"))
    case Ended(_) => p
    case Stopped(_) => p
  }

  function Waited(env: Env, answers: seq<Answer>): Process {
    if answers == [] then Launch(env)
    else Told(env, Waited(env, answers[..|answers| - 1]), answers[|answers| - 1])
  }

  // --- what a caller can see of either ---

  datatype View = Waiting(payload: Payload) | Finished(state: State) | Failed(failure: Failure)

  function ThreadView(t: Thread): View {
    match t
    case Paused(_, _, _, payload) => Waiting(payload)
    case Completed(st) => Finished(st)
    case Crashed(_, _, e) => Failed(e)
  }

  function ProcessView(env: Env, p: Process): View
    requires p.AwaitChallenge? ==> p.page < |env.challenges|
  {
    match p
    case AwaitFields(mappings) => Waiting(UnknownFields(FieldNames(NeedHuman(mappings))))
    case AwaitChallenge(_, _, page, _) => Waiting(ChallengePayload(env.challenges[page]))
    case AwaitApproval(mappings, _, _) => Waiting(ApprovalRequired(env.job.id, mappings))
    case Ended(st) => Finished(st)
    case Stopped(e) => Failed(e)
  }

  /** A checkpoint and a waiting process stand at the same point: re-running the node with any further answers
      does what the process would do with them. */
  ghost predicate Corresponds(env: Env, t: Thread, p: Process) {
    match t
    case Paused(Detect, st, answers, _) =>
      st == EMPTY && answers == [] && p == AwaitFields(MapFields(env.fields, env.profile, env.threshold))
      && NeedHuman(MapFields(env.fields, env.profile, env.threshold)) != []
    case Paused(Challenges, st, answers, _) =>
      && p.AwaitChallenge? && p.page < |env.challenges| && Recognised(env.challenges[p.page])
      && st == State(p.mappings, p.warnings, NO_CHALLENGE, None, None)
      && forall rest :: ChallengesFrom(env.challenges, 0, answers + rest, NO_CHALLENGE) == ChallengesFrom(env.challenges, p.page, rest, p.acc)
    case Paused(Approval, st, answers, _) =>
      answers == [] && p.AwaitApproval? && st == State(p.mappings, p.warnings, p.result, None, None)
      && !AutoApproves(env, p.mappings)
    case Paused(_, _, _, _) => false
    case Completed(st) => p == Ended(st)
    case Crashed(node, st, e) => p == Stopped(e) && node == Filling && Fill(env.fields, st.mappings, env.refusals) == Raised(e)
  }

  lemma {:induction false} ChallengesSkip(pages: seq<ChallengePage>, i: nat, answers: seq<Answer>, acc: ChallengeResult)
    requires i <= |pages|
    ensures ChallengesFrom(pages, i, answers, acc) == ChallengesFrom(pages, NextChallenge(pages, i), answers, acc)
    decreases |pages| - i
  {
    if i < |pages| && !Recognised(pages[i]) { ChallengesSkip(pages, i + 1, answers, acc); }
  }

  /** Entering the approval node with a finished challenge result. */
  lemma EnterApproval(env: Env, st: State)
    requires st.approved == None && st.status == None
    ensures var t := Execute(env, Approval, st, []);
            var p := if AutoApproves(env, st.mappings) then End(env, st.mappings, st.warnings, st.challenge, true)
                     else AwaitApproval(st.mappings, st.warnings, st.challenge);
            Corresponds(env, t, p) && ThreadView(t) == ProcessView(env, p)
  {
    hide AutoApproves;
  }

  /** Executing the challenge node with answers that bring the loop to page `i`. */
  lemma EnterChallenges(env: Env, st: State, answers: seq<Answer>, i: nat, acc: ChallengeResult)
    requires i <= |env.challenges|
    requires st == State(st.mappings, st.warnings, NO_CHALLENGE, None, None)
    requires forall rest :: ChallengesFrom(env.challenges, 0, answers + rest, NO_CHALLENGE) == ChallengesFrom(env.challenges, i, rest, acc)
    ensures var t, p := Execute(env, Challenges, st, answers), AtPage(env, st.mappings, st.warnings, i, acc);
            Corresponds(env, t, p) && ThreadView(t) == ProcessView(env, p)
  {
    hide AutoApproves;
    var next := NextChallenge(env.challenges, i);
    assert answers + [] == answers;
    ChallengesSkip(env.challenges, i, [], acc);
    if next < |env.challenges| {
      forall rest
        ensures ChallengesFrom(env.challenges, 0, answers + rest, NO_CHALLENGE) == ChallengesFrom(env.challenges, next, rest, acc)
      {
        ChallengesSkip(env.challenges, i, rest, acc);
      }
    } else {
      EnterApproval(env, st.(challenge := acc));
    }
  }

  lemma EnterFilling(env: Env, mappings: seq<FieldMapping>)
    ensures var t, p := Execute(env, Filling, EMPTY.(mappings := mappings), []), AfterFields(env, mappings);
            Corresponds(env, t, p) && ThreadView(t) == ProcessView(env, p)
  {
    hide AutoApproves, ChallengesFrom, AtPage, Fill, FillWarnings;
    match Fill(env.fields, mappings, env.refusals)
    case Raised(_) =>
    case Filled(result) =>
      var warnings := FillWarnings(env, result);
      forall rest: seq<Answer> ensures [] + rest == rest {}
      assert EMPTY.warnings + warnings == warnings;
      EnterChallenges(env, State(mappings, warnings, NO_CHALLENGE, None, None), [], 0, NO_CHALLENGE);
  }

  lemma StartCorresponds(env: Env)
    ensures Corresponds(env, Start(env), Launch(env)) && ThreadView(Start(env)) == ProcessView(env, Launch(env))
  {
    hide AutoApproves, FillAndValidate, MapFields;
    EnterFilling(env, MapFields(env.fields, env.profile, env.threshold));
  }

  lemma RaisesAgain(env: Env, t: Thread, a: Answer)
    requires t.Crashed? && t.node == Filling && Fill(env.fields, t.state.mappings, env.refusals) == Raised(t.failure)
    ensures Resume(env, t, a) == t
  {
  }

  lemma ResumeCorresponds(env: Env, t: Thread, p: Process, a: Answer)
    requires !t.Completed? && Corresponds(env, t, p)
    ensures var t', p' := Resume(env, t, a), Told(env, p, a);
            Corresponds(env, t', p') && ThreadView(t') == ProcessView(env, p')
  {
    hide AutoApproves, FillAndValidate, MapFields, AnswerMappings;
    match t.node
    case Detect =>
      assert ([] + [a])[0] == a;
      EnterFilling(env, AnswerMappings(p.mappings, a));
    case Filling =>
      RaisesAgain(env, t, a);
    case Challenges =>
      var acc := Absorb(env.challenges[p.page], a, p.acc);
      forall rest
        ensures ChallengesFrom(env.challenges, 0, (t.answers + [a]) + rest, NO_CHALLENGE)
                == ChallengesFrom(env.challenges, p.page + 1, rest, acc)
      {
        assert (t.answers + [a]) + rest == t.answers + ([a] + rest);
        assert ([a] + rest)[1..] == rest;
      }
      EnterChallenges(env, t.state, t.answers + [a], p.page + 1, acc);
    case Approval =>
      assert ([] + [a])[0] == a;
  }

  /** Replay refines waiting in place: for every form, challenge list, configuration and sequence of answers, restarting
      the paused node from the top shows the caller exactly what a single pass that waits at each question shows. */
  lemma {:induction false} ReplayRefinesWaiting(env: Env, answers: seq<Answer>)
    ensures Corresponds(env, Replayed(env, answers), Waited(env, answers))
    ensures ThreadView(Replayed(env, answers)) == ProcessView(env, Waited(env, answers))
  {
    hide Execute, Corresponds, Told;
    if answers == [] {
      StartCorresponds(env);
    } else {
      var before, a := answers[..|answers| - 1], answers[|answers| - 1];
      ReplayRefinesWaiting(env, before);
      if Replayed(env, before).Completed? {
        EndedStays(env, Replayed(env, before), Waited(env, before), a);
      } else {
        ResumeCorresponds(env, Replayed(env, before), Waited(env, before), a);
      }
    }
  }

  lemma EndedStays(env: Env, t: Thread, p: Process, a: Answer)
    requires t.Completed? && Corresponds(env, t, p)
    ensures Told(env, p, a) == p
  {
  }

  /** A raised application raises again in the same place on every further resume call. */
  lemma CrashRepeats(env: Env, answers: seq<Answer>, a: Answer)
    requires Replayed(env, answers).Crashed?
    ensures Resume(env, Replayed(env, answers), a) == Replayed(env, answers)
  {
    hide Replayed;
    ReplayRefinesWaiting(env, answers);
  }
}

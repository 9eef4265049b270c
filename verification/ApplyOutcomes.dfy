/** What every application run does: its pauses in closed form, its end, and what an approval means. */
module ApplyOutcomes {
  import opened Prelude
  import opened Text
  import opened FormMapping
  import opened FormFilling
  import opened ApplyGraph

  /** The positions, from `i` on and in list order, of the pages that show a one-time-password field or a captcha. */
  function Marks(pages: seq<ChallengePage>, i: nat): (r: seq<nat>)
    requires i <= |pages|
    ensures forall k :: 0 <= k < |r| ==> i <= r[k] < |pages|
    decreases |pages| - i
  {
    if i == |pages| then []
    else (if Recognised(pages[i]) then [i] else []) + Marks(pages, i + 1)
  }

  lemma {:induction false} MarksExactly(pages: seq<ChallengePage>, i: nat)
    requires i <= |pages|
    ensures forall j: nat :: j in Marks(pages, i) <==> i <= j < |pages| && (pages[j].otpPresent || pages[j].captchaPresent)
    ensures forall k, m :: 0 <= k < m < |Marks(pages, i)| ==> Marks(pages, i)[k] < Marks(pages, i)[m]
    decreases |pages| - i
  {
    if i < |pages| { MarksExactly(pages, i + 1); }
  }

  /** The `k`th recognised page asks for a one-time password, and no later one does. */
  ghost predicate LastOtp(pages: seq<ChallengePage>, marks: seq<nat>, k: int) {
    && (forall j :: 0 <= j < |marks| ==> marks[j] < |pages|)
    && 0 <= k < |marks| && pages[marks[k]].otpPresent && forall j :: k < j < |marks| ==> !pages[marks[j]].otpPresent
  }

  ghost predicate LastCaptcha(pages: seq<ChallengePage>, marks: seq<nat>, k: int) {
    && (forall j :: 0 <= j < |marks| ==> marks[j] < |pages|)
    && 0 <= k < |marks| && !pages[marks[k]].otpPresent && forall j :: k < j < |marks| ==> pages[marks[j]].otpPresent
  }

  /** The code and the flag come from the answers of the last page of each sort; with no such page they stay as they were. */
  ghost predicate LastAnswersDecide(pages: seq<ChallengePage>, marks: seq<nat>, answers: seq<Answer>, acc: ChallengeResult, r: ChallengeResult)
    requires |marks| <= |answers| && forall k :: 0 <= k < |marks| ==> marks[k] < |pages|
  {
    && (forall k :: LastOtp(pages, marks, k) ==>
          r.otpCode == if "otp_code" in answers[k] then Some(answers[k]["otp_code"]) else None)
    && (forall k :: LastCaptcha(pages, marks, k) ==>
          (r.captchaResolved <==> "solved" in answers[k] && Lower(answers[k]["solved"]) in {"true", "yes", "1"}))
    && ((forall k :: 0 <= k < |marks| ==> !pages[marks[k]].otpPresent) ==> r.otpCode == acc.otpCode)
    && ((forall k :: 0 <= k < |marks| ==> pages[marks[k]].otpPresent) ==> r.captchaResolved == acc.captchaResolved)
  }

  /** The question a page asks; a one-time-password field takes precedence over a captcha. */
  ghost predicate Asks(p: Payload, page: ChallengePage) {
    p == if page.otpPresent then OtpRequired(page.url) else CaptchaRequired(page.url)
  }

  /** The challenge loop pauses at the challenge page whose number is the count of answers so far, and finishes once every
      challenge page has its answer: the `k`th answer always belongs to the `k`th such page. */
  lemma {:induction false} AnswersReachTheirPages(pages: seq<ChallengePage>, i: nat, answers: seq<Answer>, acc: ChallengeResult)
    requires i <= |pages|
    ensures var marks, out := Marks(pages, i), ChallengesFrom(pages, i, answers, acc);
            if |answers| < |marks| then out.Pause? && Asks(out.payload, pages[marks[|answers|]])
            else out.Done? && LastAnswersDecide(pages, marks, answers, acc, out.value)
    decreases |pages| - i
  {
    hide LastAnswersDecide, Absorb;
    var marks := Marks(pages, i);
    if i == |pages| {
      NothingDecided(pages, answers, acc);
    } else if !Recognised(pages[i]) {
      assert marks == Marks(pages, i + 1);
      AnswersReachTheirPages(pages, i + 1, answers, acc);
    } else {
      var tail := Marks(pages, i + 1);
      assert marks == [i] + tail;
      if answers != [] {
        var next := Absorb(pages[i], answers[0], acc);
        AnswersReachTheirPages(pages, i + 1, answers[1..], next);
        if |answers| >= |marks| {
          FirstThenRest(pages, i, tail, answers, acc, ChallengesFrom(pages, i, answers, acc).value);
        }
      }
    }
  }

  lemma NothingDecided(pages: seq<ChallengePage>, answers: seq<Answer>, acc: ChallengeResult)
    ensures LastAnswersDecide(pages, [], answers, acc, acc)
  {
  }

  lemma FirstThenRest(pages: seq<ChallengePage>, i: nat, tail: seq<nat>, answers: seq<Answer>, acc: ChallengeResult, r: ChallengeResult)
    requires i < |pages| && |answers| > |tail| && forall k :: 0 <= k < |tail| ==> tail[k] < |pages|
    requires LastAnswersDecide(pages, tail, answers[1..], Absorb(pages[i], answers[0], acc), r)
    ensures LastAnswersDecide(pages, [i] + tail, answers, acc, r)
  {
    var marks := [i] + tail;
    assert forall k :: 0 <= k < |tail| ==> marks[k + 1] == tail[k];
    LastOfTail(pages, i, tail, marks);
    forall k | LastOtp(pages, marks, k)
      ensures r.otpCode == if "otp_code" in answers[k] then Some(answers[k]["otp_code"]) else None
    {
      if k > 0 { assert LastOtp(pages, tail, k - 1) && answers[1..][k - 1] == answers[k]; }
    }
    forall k | LastCaptcha(pages, marks, k)
      ensures r.captchaResolved <==> "solved" in answers[k] && Lower(answers[k]["solved"]) in {"true", "yes", "1"}
    {
      if k > 0 { assert LastCaptcha(pages, tail, k - 1) && answers[1..][k - 1] == answers[k]; }
    }
  }

  lemma LastOfTail(pages: seq<ChallengePage>, i: nat, tail: seq<nat>, marks: seq<nat>)
    requires i < |pages| && marks == [i] + tail
    requires forall j :: 0 <= j < |tail| ==> tail[j] < |pages|
    ensures forall k :: LastOtp(pages, marks, k) && k > 0 ==> LastOtp(pages, tail, k - 1)
    ensures forall k :: LastCaptcha(pages, marks, k) && k > 0 ==> LastCaptcha(pages, tail, k - 1)
    ensures LastOtp(pages, marks, 0) ==> forall j :: 0 <= j < |tail| ==> !pages[tail[j]].otpPresent
    ensures LastCaptcha(pages, marks, 0) ==> forall j :: 0 <= j < |tail| ==> pages[tail[j]].otpPresent
  {
    assert forall j :: 0 <= j < |tail| ==> tail[j] == marks[j + 1];
  }

  /** Only the answers the loop consumes matter. */
  lemma {:induction false} SurplusIgnored(pages: seq<ChallengePage>, i: nat, answers: seq<Answer>, acc: ChallengeResult)
    requires i <= |pages| && |answers| >= |Marks(pages, i)|
    ensures ChallengesFrom(pages, i, answers, acc) == ChallengesFrom(pages, i, answers[..|Marks(pages, i)|], acc)
    decreases |pages| - i
  {
    if i < |pages| {
      var n := |Marks(pages, i)|;
      if Recognised(pages[i]) {
        SurplusIgnored(pages, i + 1, answers[1..], Absorb(pages[i], answers[0], acc));
        assert answers[..n][1..] == answers[1..][..n - 1];
      } else {
        SurplusIgnored(pages, i + 1, answers, acc);
      }
    }
  }

  // --- the run in closed form ---

  function Detected(env: Env): seq<FieldMapping> {
    MapFields(env.fields, env.profile, env.threshold)
  }

  /** The first question is about unknown fields. */
  predicate AsksFields(env: Env) {
    NeedHuman(Detected(env)) != []
  }

  /** The mappings the form is filled from. */
  function FinalMappings(env: Env, answers: seq<Answer>): seq<FieldMapping> {
    if AsksFields(env) && answers != [] then AnswerMappings(Detected(env), answers[0]) else Detected(env)
  }

  /** The answers left for challenges and approval. */
  function Later(env: Env, answers: seq<Answer>): seq<Answer> {
    if AsksFields(env) && answers != [] then answers[1..] else answers
  }

  function ChallengeCount(env: Env): nat {
    |Marks(env.challenges, 0)|
  }

  /** The view after any number of answers, written down without any checkpoint or replay. */
  function Expected(env: Env, answers: seq<Answer>): View {
    if AsksFields(env) && answers == [] then Waiting(UnknownFields(FieldNames(NeedHuman(Detected(env)))))
    else
      var mappings, later, marks := FinalMappings(env, answers), Later(env, answers), Marks(env.challenges, 0);
      match Fill(env.fields, mappings, env.refusals)
      case Raised(e) => Failed(e)
      case Filled(result) =>
        if |later| < |marks| then
          var page := env.challenges[marks[|later|]];
          Waiting(if page.otpPresent then OtpRequired(page.url) else CaptchaRequired(page.url))
        else if !AutoApproves(env, mappings) && |later| == |marks| then Waiting(ApprovalRequired(env.job.id, mappings))
        else
          var approved := AutoApproves(env, mappings) || SaysYes(later[|marks|]);
          Finished(State(mappings, FillWarnings(env, result), Solved(env, later), Some(approved),
                         Some(if !approved then RejectedByHuman else if env.dryRun then DryRunReady else SubmittedMock)))
  }

  /** The answer to the approval question approves. */
  predicate SaysYes(a: Answer) {
    "approved" in a && Lower(a["approved"]) in {"true", "yes", "1"}
  }

  /** The challenge result once every recognised page has been answered. */
  function Solved(env: Env, later: seq<Answer>): ChallengeResult {
    var out := ChallengesFrom(env.challenges, 0, later, NO_CHALLENGE);
    if out.Done? then out.value else NO_CHALLENGE
  }

  /** The checkpoint after any number of answers. */
  ghost predicate Located(env: Env, answers: seq<Answer>, t: Thread) {
    if AsksFields(env) && answers == [] then
      t == Paused(Detect, EMPTY, [], UnknownFields(FieldNames(NeedHuman(Detected(env)))))
    else
      var mappings, later, n := FinalMappings(env, answers), Later(env, answers), ChallengeCount(env);
      match Fill(env.fields, mappings, env.refusals)
      case Raised(e) => t == Crashed(Filling, EMPTY.(mappings := mappings), e)
      case Filled(result) =>
        var st := State(mappings, FillWarnings(env, result), NO_CHALLENGE, None, None);
        if |later| <= n then t == Execute(env, Challenges, st, later)
        else if AutoApproves(env, mappings) then t == Execute(env, Challenges, st, later[..n])
        else t == Execute(env, Approval, st.(challenge := Solved(env, later)), [later[n]])
  }

  lemma FilledLocates(env: Env, answers: seq<Answer>, t: Thread)
    requires !(AsksFields(env) && answers == []) && Later(env, answers) == []
    requires t == Execute(env, Filling, EMPTY.(mappings := FinalMappings(env, answers)), [])
    ensures Located(env, answers, t)
  {
    hide AsksFields, Later, Fill, FinalMappings, AutoApproves, ChallengesFrom;
    var mappings := FinalMappings(env, answers);
    if Fill(env.fields, mappings, env.refusals).Filled? {
      var warnings := FillWarnings(env, Fill(env.fields, mappings, env.refusals).result);
      assert EMPTY.warnings + warnings == warnings;
    }
  }

  /** The thread after the challenge node, by the number of answers it has. */
  lemma ChallengeNode(env: Env, st: State, later: seq<Answer>)
    ensures var t, marks := Execute(env, Challenges, st, later), Marks(env.challenges, 0);
            if |later| < |marks| then
              t.Paused? && Asks(t.payload, env.challenges[marks[|later|]]) && t == Paused(Challenges, st, later, t.payload)
            else t == Execute(env, Approval, st.(challenge := Solved(env, later)), [])
  {
    hide AutoApproves, ChallengesFrom, LastAnswersDecide;
    AnswersReachTheirPages(env.challenges, 0, later, NO_CHALLENGE);
  }

  /** The thread after the approval node. */
  lemma ApprovalNode(env: Env, st: State, answers: seq<Answer>)
    ensures var t := Execute(env, Approval, st, answers);
            if AutoApproves(env, st.mappings) then t == Completed(st.(approved := Some(true), status := Some(Finalize(env, true))))
            else if answers == [] then t == Paused(Approval, st, [], ApprovalRequired(env.job.id, st.mappings))
            else var yes := Affirmative(answers[0], "approved");
                 t == Completed(st.(approved := Some(yes), status := Some(Finalize(env, yes))))
  {
    hide AutoApproves, Affirmative;
  }

  lemma StartLocated(env: Env)
    ensures Located(env, [], Start(env))
  {
    hide Fill, AutoApproves, MapFields, NeedHuman;
    if !AsksFields(env) {
      FilledLocates(env, [], Start(env));
    }
  }

  lemma ResumeLocated(env: Env, answers: seq<Answer>, t: Thread, a: Answer)
    requires Located(env, answers, t)
    ensures Located(env, answers + [a], if t.Completed? then t else Resume(env, t, a))
  {
    hide Fill, AutoApproves, MapFields, NeedHuman, AnswerMappings, ChallengesFrom, Execute, Solved;
    var all := answers + [a];
    assert all[..|answers|] == answers;
    if AsksFields(env) && answers == [] {
      assert all[1..] == [] && [] + [a] == all && all[0] == a;
      DetectAnswered(env, a);
      FilledLocates(env, all, Resume(env, t, a));
    } else {
      assert FinalMappings(env, all) == FinalMappings(env, answers);
      var later := Later(env, answers);
      assert Later(env, all) == later + [a];
      var mappings := FinalMappings(env, answers);
      match Fill(env.fields, mappings, env.refusals)
      case Raised(_) => RaisesAgain(env, t, a);
      case Filled(result) =>
        var st := State(mappings, FillWarnings(env, result), NO_CHALLENGE, None, None);
        LaterAnswered(env, st, later, a, t);
    }
  }

  lemma DetectAnswered(env: Env, a: Answer)
    requires AsksFields(env)
    ensures Execute(env, Detect, EMPTY, [a]) == Execute(env, Filling, EMPTY.(mappings := AnswerMappings(Detected(env), a)), [])
  {
    hide MapFields, NeedHuman, AnswerMappings, FillAndValidate;
  }

  /** One more answer after the form has been filled. */
  lemma LaterAnswered(env: Env, st: State, later: seq<Answer>, a: Answer, t: Thread)
    requires var n := ChallengeCount(env);
             if |later| <= n then t == Execute(env, Challenges, st, later)
             else if AutoApproves(env, st.mappings) then t == Execute(env, Challenges, st, later[..n])
             else t == Execute(env, Approval, st.(challenge := Solved(env, later)), [later[n]])
    ensures var n, more, t' := ChallengeCount(env), later + [a], if t.Completed? then t else Resume(env, t, a);
            if |more| <= n then t' == Execute(env, Challenges, st, more)
            else if AutoApproves(env, st.mappings) then t' == Execute(env, Challenges, st, more[..n])
            else t' == Execute(env, Approval, st.(challenge := Solved(env, more)), [more[n]])
  {
    hide AutoApproves, ChallengesFrom, Execute, Solved, Marks;
    var n, more := ChallengeCount(env), later + [a];
    if |later| < n {
      ChallengeNode(env, st, later);
      if |more| == n { assert more[..n] == more; }
    } else if |later| == n {
      assert more[..n] == later;
      ChallengeNode(env, st, later);
      ApprovalNode(env, st.(challenge := Solved(env, later)), []);
      SolvedBySurplus(env, more);
      assert [] + [a] == [more[n]];
    } else {
      assert more[..n] == later[..n];
      ChallengeNode(env, st, later[..n]);
      ApprovalNode(env, st.(challenge := Solved(env, later[..n])), []);
      ApprovalNode(env, st.(challenge := Solved(env, later)), [later[n]]);
      SolvedBySurplus(env, more);
      SolvedBySurplus(env, later);
    }
  }

  lemma SolvedBySurplus(env: Env, later: seq<Answer>)
    requires |later| >= ChallengeCount(env)
    ensures Solved(env, later) == Solved(env, later[..ChallengeCount(env)])
  {
    SurplusIgnored(env.challenges, 0, later, NO_CHALLENGE);
  }

  lemma {:induction false} ReplayedLocated(env: Env, answers: seq<Answer>)
    ensures Located(env, answers, Replayed(env, answers))
  {
    hide Located, Execute;
    if answers == [] {
      StartLocated(env);
    } else {
      var before, a := answers[..|answers| - 1], answers[|answers| - 1];
      ReplayedLocated(env, before);
      assert before + [a] == answers;
      ResumeLocated(env, before, Replayed(env, before), a);
    }
  }

  /** After any list of answers the caller sees exactly the closed form: unknown fields first, then the recognised pages in
      list order, then approval, then the end. */
  lemma ReplayedClosedForm(env: Env, answers: seq<Answer>)
    ensures ThreadView(Replayed(env, answers)) == Expected(env, answers)
  {
    hide Replayed, Execute, Fill, AutoApproves, MapFields, NeedHuman, AnswerMappings, ChallengesFrom, Solved, Lower;
    ReplayedLocated(env, answers);
    if !(AsksFields(env) && answers == []) {
      var mappings, later, n := FinalMappings(env, answers), Later(env, answers), ChallengeCount(env);
      match Fill(env.fields, mappings, env.refusals)
      case Raised(_) =>
      case Filled(result) =>
        var st := State(mappings, FillWarnings(env, result), NO_CHALLENGE, None, None);
        if |later| <= n {
          ChallengeNode(env, st, later);
          ApprovalNode(env, st.(challenge := Solved(env, later)), []);
        } else {
          ChallengeNode(env, st, later[..n]);
          ApprovalNode(env, st.(challenge := Solved(env, later[..n])), []);
          ApprovalNode(env, st.(challenge := Solved(env, later)), [later[n]]);
          SolvedBySurplus(env, later);
        }
    }
  }

  /** Every application comes to an end: it asks at most once about fields, once per recognised page, and once for approval. */
  lemma ApplicationTerminates(env: Env, answers: seq<Answer>)
    requires |answers| >= ChallengeCount(env) + 2
    ensures !Replayed(env, answers).Paused?
  {
    hide Replayed, Fill, AutoApproves, MapFields, NeedHuman, AnswerMappings, Solved, SaysYes, Marks;
    ReplayedClosedForm(env, answers);
  }

  /** The run stops with an exception exactly when a file field would be written; the two field lists never differ in length. */
  lemma CrashExactly(env: Env, answers: seq<Answer>)
    requires !(AsksFields(env) && answers == [])
    ensures Replayed(env, answers).Crashed? <==>
            exists i :: 0 <= i < |env.fields| && env.fields[i].kind == File
                        && !FinalMappings(env, answers)[i].requiresHuman && FinalMappings(env, answers)[i].value.Some?
    ensures Replayed(env, answers).Crashed? ==> Replayed(env, answers).failure == FileUpload
  {
    hide Replayed, AutoApproves, MapField, NeedHuman, Solved, SaysYes, Marks;
    ReplayedClosedForm(env, answers);
    var mappings := FinalMappings(env, answers);
    assert |mappings| == |env.fields|;
    FatalExactly(env, mappings);
  }

  lemma FatalExactly(env: Env, mappings: seq<FieldMapping>)
    requires |mappings| == |env.fields|
    ensures Fill(env.fields, mappings, env.refusals) == Raised(FileUpload) || Fill(env.fields, mappings, env.refusals).Filled?
    ensures Fill(env.fields, mappings, env.refusals).Raised? <==>
            exists i :: 0 <= i < |env.fields| && env.fields[i].kind == File && !mappings[i].requiresHuman && mappings[i].value.Some?
  {
    var n := |mappings|;
    if i :| 0 <= i < n && env.fields[i].kind == File && !mappings[i].requiresHuman && mappings[i].value.Some? {
      assert FateOf(env.fields[i], mappings[i], env.refusals) == Fatal;
    }
    if HasFatal(env.fields, mappings, env.refusals, n) {
      var i :| 0 <= i < n && FateOf(env.fields[i], mappings[i], env.refusals) == Fatal;
      assert env.fields[i].kind == File && !mappings[i].requiresHuman && mappings[i].value.Some?;
    }
  }

  /** The form is filled and every question before approval is answered. */
  ghost predicate ReachesApproval(env: Env, answers: seq<Answer>) {
    && !(AsksFields(env) && answers == [])
    && Fill(env.fields, FinalMappings(env, answers), env.refusals).Filled?
    && |Later(env, answers)| >= ChallengeCount(env)
  }

  /** An application is submitted exactly when dry run is off, the form was filled, every question before approval was answered, and
      approval came from automatic mode, a cleared hybrid bar, or a "true", "yes" or "1" in answer to the approval question itself. */
  lemma SubmittedExactly(env: Env, answers: seq<Answer>)
    ensures (Replayed(env, answers).Completed? && Replayed(env, answers).state.status == Some(SubmittedMock)) <==>
            var later, n := Later(env, answers), ChallengeCount(env);
            && !env.dryRun
            && ReachesApproval(env, answers)
            && (|| env.approval.mode == "automatic"
                || (env.approval.mode == "hybrid" && HybridAutoApproves(env, FinalMappings(env, answers)))
                || (|later| > n && "approved" in later[n] && Lower(later[n]["approved"]) in {"true", "yes", "1"}))
  {
    hide Replayed, Fill, HybridAutoApproves, MapFields, NeedHuman, AnswerMappings, Solved, Lower, Marks;
    ReplayedClosedForm(env, answers);
  }

  /** An application ends as rejected exactly when the approval question was reached, neither automatic mode nor a cleared hybrid bar
      spared it, and its answer was anything but "true", "yes" or "1". */
  lemma RejectedExactly(env: Env, answers: seq<Answer>)
    ensures (Replayed(env, answers).Completed? && Replayed(env, answers).state.status == Some(RejectedByHuman)) <==>
            var later, n := Later(env, answers), ChallengeCount(env);
            && ReachesApproval(env, answers)
            && env.approval.mode != "automatic"
            && !(env.approval.mode == "hybrid" && HybridAutoApproves(env, FinalMappings(env, answers)))
            && |later| > n && !("approved" in later[n] && Lower(later[n]["approved"]) in {"true", "yes", "1"})
  {
    hide Replayed, Fill, HybridAutoApproves, MapFields, NeedHuman, AnswerMappings, Solved, Lower, Marks;
    ReplayedClosedForm(env, answers);
  }

  /** Dry run never submits. */
  lemma DryRunNeverSubmits(env: Env, answers: seq<Answer>)
    requires env.dryRun && Replayed(env, answers).Completed?
    ensures Replayed(env, answers).state.status in {Some(RejectedByHuman), Some(DryRunReady)}
  {
    hide Replayed, Fill, AutoApproves, MapFields, NeedHuman, AnswerMappings, Solved, SaysYes, Marks;
    ReplayedClosedForm(env, answers);
  }

  /** The first question names exactly the mappings that need a human. */
  lemma QuestionExactly(mappings: seq<FieldMapping>, name: string)
    ensures name in FieldNames(NeedHuman(mappings)) <==> exists i :: 0 <= i < |mappings| && mappings[i].requiresHuman && mappings[i].field == name
  {
    var asking := NeedHuman(mappings);
    if name in FieldNames(asking) {
      var k :| 0 <= k < |asking| && asking[k].field == name;
      FilterMember(mappings, (m: FieldMapping) => m.requiresHuman, asking[k]);
    }
    if i :| 0 <= i < |mappings| && mappings[i].requiresHuman && mappings[i].field == name {
      FilterMember(mappings, (m: FieldMapping) => m.requiresHuman, mappings[i]);
      var k :| 0 <= k < |asking| && asking[k] == mappings[i];
      assert FieldNames(asking)[k] == name;
    }
  }

  /** The warnings name exactly the fields that could not be filled, and what the page still finds invalid. */
  lemma WarningsExactly(env: Env, result: FillResult, name: string, names: seq<string>)
    ensures FieldFailed(name) in FillWarnings(env, result) <==> name in result.errors
    ensures StillInvalid(names) in FillWarnings(env, result) <==> names == env.invalidAfterFill && names != []
  {
    var failed := Map(result.errors, (n: string) => FieldFailed(n));
    if name in result.errors {
      var k :| 0 <= k < |result.errors| && result.errors[k] == name;
      assert failed[k] == FieldFailed(name);
    }
  }

  // --- runs on real input ---

  /** A form without fields and challenge pages, in manual mode. */
  predicate AsksApprovalOnly(env: Env) {
    env.fields == [] && env.challenges == [] && env.approval.mode == "manual"
  }

  lemma ApprovalOnly(env: Env, a: Answer)
    requires AsksApprovalOnly(env)
    ensures ReachesApproval(env, [a]) && Later(env, [a]) == [a] && ChallengeCount(env) == 0
    ensures ReachesApproval(env, []) && Later(env, []) == []
  {
    assert Detected(env) == [];
  }

  lemma YesAndNo()
    ensures Lower("Yes") == "yes" && Lower("no") == "no" && "no" !in {"true", "yes", "1"}
  {
    assert Lower("Yes")[0] == 'y';
    assert "no"[0] == 'n';
  }

  /** In manual mode and without dry run, "Yes" submits; "no" and an empty answer reject; no answer waits for approval. */
  lemma ManualRuns(env: Env)
    requires AsksApprovalOnly(env) && !env.dryRun
    ensures var t := Replayed(env, [map["approved" := "Yes"]]); t.Completed? && t.state.status == Some(SubmittedMock)
    ensures var t := Replayed(env, [map["approved" := "no"]]); t.Completed? && t.state.status == Some(RejectedByHuman)
    ensures var t := Replayed(env, [map[]]); t.Completed? && t.state.status == Some(RejectedByHuman)
    ensures ThreadView(Replayed(env, [])) == Waiting(ApprovalRequired(env.job.id, []))
  {
    hide Replayed, ReachesApproval, Lower, Later, ChallengeCount, HybridAutoApproves;
    var yes, no, none: Answer := map["approved" := "Yes"], map["approved" := "no"], map[];
    YesAndNo();
    ApprovalOnly(env, yes);
    ApprovalOnly(env, no);
    ApprovalOnly(env, none);
    SubmittedExactly(env, [yes]);
    RejectedExactly(env, [no]);
    RejectedExactly(env, [none]);
    NothingAnswered(env);
  }

  lemma NothingAnswered(env: Env)
    requires AsksApprovalOnly(env)
    ensures ThreadView(Replayed(env, [])) == Waiting(ApprovalRequired(env.job.id, []))
  {
    hide Replayed, HybridAutoApproves;
    ApprovalOnly(env, map[]);
    ReplayedClosedForm(env, []);
    assert Detected(env) == [];
  }
}

# Job automation: a verified model

The repository discovers job postings on several portals, scores them against a candidate, lets guardrails and humans decide, and
fills application forms under human supervision. Its two graphs stop at questions for a human and continue, possibly days later, by
executing the paused node again from its first line with the recorded answers. After every step four database tables are rewritten so
that a dashboard can show where everything stands. This project models that behaviour in Dafny and proves properties of it.

## How the model is laid out

| module | what it models |
|---|---|
| `ApplyGraph` | the five nodes of an application, checkpoints with replay, and a reference process that simply waits at each question |
| `ApplyOutcomes`, `HybridApproval` | every application run in closed form; what ends, what crashes, what is submitted, what an auto-approval means |
| `FormMapping`, `FormFilling` | label patterns to candidate values, human answers, the fill loop |
| `Dedupe`, `Guardrails`, `PolicyGuard`, `Discovery` | the discovery graph from portal results to final metrics |
| `Scoring`, `ScoreBounds`, `TitleMatching`, `SkillMatching`, `Rounding` | the six sub-scores, decimal rounding, the weighted sum and the recommendation; how high each can get |
| `SkillRouting` | scorer and guardrails together, as a candidate gains skills |
| `Persistence`, `JobRows` | the tables as a class whose methods update them, and what they hold after a write |
| `Services`, `ServiceHistory` | start and resume calls as a class over tables and checkpoints; agreement of both over every history |
| `Analytics`, `Dashboard` | counts and averages, and what they mean after any history |
| `Cosine`, `EmbeddingCache`, `Html`, `ResumeSections` | similarity kernel, embedding cache, tag stripping, resume scanner |
| `Prelude`, `Text`, `Domain` | list helpers, string primitives, shared values |

Code that updates things step by step is a method with loops, or a class whose fields its methods assign; each such method is proved
equal to a specification function, and the properties are proved about that function. A node that may pause is a function from state
and recorded answers to a pause, a result or an exception.

## What turned out not to hold, and exactly when it does

* The repository's own README.md (lines 187-190) and config/automation.yaml (lines 16-21) say that hybrid mode approves only when every
  auto-filled field clears the confidence bar. The code compares the average (app/graph/apply_nodes.py:131-135). At the shipped settings
  (threshold 0.7, bar 0.85) one e-mail field at 0.95 and one phone field at 0.75 from a parsed resume are approved
  (`HybridApproval.ShippedBarMissed`). `HybridApproval.DocumentedBarInPractice` gives the exact settings under which the described rule holds for
  the confidences the program assigns, `HybridApproval.DocumentedBarExact` those for every confidence the schema admits.
* Sensitive questions are said always to go to a human (app/browser/mapping.py:10-14, ARCHITECTURE.md:295-298). The first matching pattern wins,
  so a label that also mentions an earlier topic - work authorisation and security clearance, say - is answered without asking
  (`FormMapping.SensitiveFieldFilled`). `FormMapping.SensitiveFieldsAlwaysAsk` says exactly which fields always ask.
* The row of a posting that is found twice reads "duplicate" after the run, since duplicates are written last
  (`JobRows.RepeatedPostingMasked`). If its first copy is the one the run keeps, that contradicts the list the job is in - a queued job, say
  (`JobRows.RepeatedPostingContradicts`). The rows show the lists exactly when no id carries two statuses (`JobRows.RowsShowTheirListExact`).
* An application row reads "waiting" without its graph being paused exactly when the form has a file field with a value to write: the fill
  raises and nothing is persisted (`ServiceHistory.StaleRowExactly`). The answered question then stays pending, and the dashboard's review count is
  too high by one for each such application (`Dashboard.PendingReviewsCountWaiting`); two calls on empty tables get there
  (`Dashboard.StaleAfterUpload`). app/graph/apply_service.py:103-107 sends retries through the resume call, but with page, profile and settings
  unchanged every retry raises again and repairs nothing, and a new application for the job is refused (`ServiceHistory.RaisedIsFinal`).
* A higher score can route a job to a stricter bucket: the personal score floor spares jobs in the human-review band. With the shipped weights
  and thresholds and a floor of 85, a candidate without the one required skill scores 62 and is shown to a human, and with it scores 83 and is
  rejected (`SkillRouting.GainingSkillRejected`). `Guardrails.RoutingMonotoneExact` gives the exact condition over all scores,
  `Guardrails.RoutingMonotoneForWeights` over the whole hundredths up to the sum of the weights; under the first, gaining skills never
  routes any job to a stricter bucket (`SkillRouting.GainingSkillsNoStricter`).
* The salary scorer and the salary guardrail can disagree: with a preferred salary below the minimum, a posting that pays the preferred one is
  blocked for its salary and scores the full weight for it (`Guardrails.PreferredSalaryBlocked`). `Guardrails.SalaryScoreAgreesExact` says exactly
  when every blocked salary scores in the lowest band.
* Rounding can lift a score above its weight when that is not a whole hundredth. `ScoreBounds.BreakdownBoundExact` gives the exact weights for which no
  sub-score does so, `ScoreBounds.OverallBoundExact` those for which the overall score stays within their sum; whole hundredths always do
  (`ScoreBounds.GridOverallWithin`). The reported mean and median stay between the extremes exactly for scores that are whole hundredths
  (`Analytics.ReportedCentresExact`), and the scorer reports no others.

## Model

| member | source | states |
|---|---|---|
| ApplyGraph.ReplayRefinesWaiting | app/graph/apply_nodes.py:29-176 | for every form, page list, configuration and answer list, retries after an exception included, re-executing the paused or raised node with one more recorded answer shows the caller the same questions, failure and final state as a process that waits in place and never re-executes anything |
| ApplyGraph.ResumeCorresponds | app/graph/apply_nodes.py:92-112 | the simulation step: a checkpoint and a waiting process at the same question are again at the same point after the same answer, even in the middle of the challenge loop |
| ApplyGraph.CrashRepeats | app/graph/apply_service.py:103-107 | an application that raised raises again, in the same place and state, on every further resume call |
| ApplyGraph.CheckChallenges | app/graph/apply_nodes.py:92-112 | the loop over challenge pages with its two variables computes the specified pause or result for any recorded answers |
| ApplyOutcomes.MarksExactly | app/graph/apply_nodes.py:96-110 | the pages that ask are exactly those showing a one-time-password field or a captcha, in list order |
| ApplyOutcomes.AnswersReachTheirPages | app/graph/apply_nodes.py:92-112 | with k answers the loop pauses at the (k+1)th page that shows a one-time-password field or a captcha, asking for the password if there is such a field and for the captcha otherwise, or finishes once all have answers; the code is the "otp_code" of the last password page's answer, the flag whether the last captcha page's "solved" is true, yes or 1 in any case, and otherwise both keep their initial values |
| ApplyOutcomes.ReplayedClosedForm | app/graph/apply_graph.py:42-47 | after any list of answers the caller sees, in this order and no other: unknown fields, recognised pages in list order, approval, the end with exactly the stated final state |
| ApplyOutcomes.ApplicationTerminates | app/graph/apply_nodes.py:29-176 | no application is still paused after as many answers as recognised pages plus two |
| ApplyOutcomes.CrashExactly | app/browser/forms.py:165-189 | once the field question is behind it, the run stops with an exception if and only if some file field has a value and no open question; unequal list lengths never occur |
| ApplyOutcomes.SubmittedExactly | app/graph/apply_nodes.py:138-176 | submitted if and only if dry run is off, filling did not raise, every earlier question was answered, and approval came from automatic mode, a cleared hybrid bar, or an "approved" of true, yes or 1 (in any case) in the answer to the approval question itself |
| ApplyOutcomes.RejectedExactly | app/graph/apply_nodes.py:138-169 | rejected if and only if approval was reached, mode and hybrid bar did not spare it, and its answer has no "approved" of true, yes or 1 |
| ApplyOutcomes.DryRunNeverSubmits | app/graph/apply_nodes.py:167-176 | with dry run on, a finished application is rejected or dry-run-ready, whatever was approved |
| ApplyOutcomes.ManualRuns | app/graph/apply_nodes.py:143-176 | in manual mode without dry run, "Yes" submits, "no" and an empty answer reject, and without an answer the run waits for approval |
| ApplyOutcomes.QuestionExactly | app/graph/apply_nodes.py:36-47 | the first question names exactly the mappings that need a human |
| ApplyOutcomes.WarningsExactly | app/graph/apply_nodes.py:81-89 | the warnings name exactly the fields that failed and the list the page still finds invalid |
| HybridApproval.HybridImplies | app/graph/apply_nodes.py:115-135 | an auto-approval implies a known score at the bar, no open field, and at most a (1 - bar) share of zero-confidence mappings, because answered fields keep their old confidence |
| HybridApproval.HybridExactly | app/graph/apply_nodes.py:115-135 | approves if and only if the score is known and at its bar, there is some mapping, none needs a human, and their confidences sum to at least the bar times their number |
| HybridApproval.SumExactly | app/graph/apply_nodes.py:134 | the sum of confidences is zero for none, one mapping's own, and additive over lists |
| HybridApproval.DocumentedBarExact | app/graph/apply_nodes.py:115-135 | over all confidences the schema admits, "every auto-filled field clears the bar" holds in every application if and only if the mapping threshold is at least the bar, or the bar is at most 0 or at least 1 |
| HybridApproval.DocumentedBarInPractice | app/profile/parser.py:55-92 | over the confidences the parser and the mapping assign, the same rule holds in every application if and only if the bar is at least 0.95 or none of 0.6, 0.7, 0.75, 0.8 is at the threshold and under the bar |
| HybridApproval.AveragedAway | app/graph/apply_nodes.py:131-135 | for any profile with a value at the threshold, under the bar, and an e-mail confidence above the bar, an auto-approved form in which that value is filled |
| HybridApproval.ShippedBarMissed | app/graph/apply_nodes.py:131-135 | at threshold 0.7 and bar 0.85, a form with one e-mail and one phone field is auto-approved for a parsed profile although the phone value has confidence 0.75 |
| FormMapping.MapFieldNeverGuesses | app/browser/mapping.py:128-165 | a mapping carries the name and value of the first pattern its field matches, or the field's own name and no value; it needs no human if and only if that value is on file with a confidence at or above the threshold |
| FormMapping.SensitiveFieldsAlwaysAsk | app/browser/mapping.py:94-144 | for every set of matching patterns, a field asks for every profile and threshold if and only if it matches nothing or first matches one of the seven sensitive patterns or the LinkedIn pattern; for profiles the program makes, title and location ask as well |
| FormMapping.SensitiveFieldFilled | app/browser/mapping.py:132-156 | at threshold 0.7 a parsed profile answers a label on authorisation and clearance, and one on phone and gender, without asking |
| FormMapping.LookupExactly | app/browser/mapping.py:28-88 | which entry of resume and preferences each of the sixteen patterns stands for, an empty or missing text counting as none, with its confidence |
| FormMapping.OrderExactly | app/browser/mapping.py:94-125 | the order in which the sixteen patterns are tried |
| FormMapping.NamesExactly | app/browser/mapping.py:94-125 | the name of each pattern, by which answers are keyed |
| FormFilling.FillForm | app/browser/forms.py:158-193 | the loop reports exactly the fields of each fate in order, writes exactly the values of the written ones, and raises exactly for a file field with a value or unequal lengths |
| FormFilling.FillExactly | app/browser/forms.py:158-193 | raises if and only if a file field has a value and no open question, or the lists differ in length; a field is skipped if and only if it is open or empty, fails if and only if the page refuses its value, and exactly the other values are written |
| FormFilling.FatesPartition | app/browser/forms.py:165-193 | written, skipped and refused fields are together exactly the fields, each once |
| FormFilling.WrittenValuesHaveProvenance | app/graph/apply_nodes.py:35-62 | every value put into the page is a profile value at or above the threshold or the human's answer for that very field, into the field at its own position |
| FormFilling.AnswerChangesOnlyUnknown | app/graph/apply_nodes.py:48-62 | an answer keeps length, order, names and confidences, and changes exactly the mappings that asked and were answered |
| Discovery.ReachGuard | app/graph/nodes.py:71-184 | the nodes before the policy guard, executed one after the other, build the specified state from what the portals returned |
| Discovery.DiscoveredExactly | app/graph/nodes.py:71-105 | a posting is discovered if and only if some portal returned it |
| Discovery.ReportedExactly | app/graph/nodes.py:76-124 | errors name exactly the failed portals, the malformed postings and a missing profile, warnings exactly the unconfigured portals |
| Discovery.CandidateExactly | app/graph/nodes.py:159-165 | jobs are scored with exactly the skills of both preference lists and the resume, and the years of the resume |
| Discovery.MetricsConserve | app/graph/nodes.py:281-290 | the six reported numbers are the sizes of the six lists; in every completed run with a profile, discovered = malformed + duplicates + scored, and scored = rejected + queued + pending; without a profile nothing is scored |
| Discovery.FanOutOrderIndependent | app/graph/graph.py:36-40 | the order in which parallel portals are merged changes neither the surviving opportunities nor the discovered, duplicate and scored counts |
| Discovery.UnpausedRun | app/graph/nodes.py:209-278 | a run without a review list ends with exactly the rejected and queued lists the guard filed, in order, and nothing pending |
| Discovery.ReplayEqualsWaiting | app/graph/nodes.py:242-278 | a paused run shows exactly the review list; re-executing the guard with the recorded decisions ends with the rejected, queued and pending lists that filing those jobs on the spot gives, in order |
| Discovery.RunPausesAtMostOnce | app/graph/nodes.py:242-270 | a run pauses if and only if some job is routed to review, and one answer always completes it |
| PolicyGuard.PolicyGuardNode | app/graph/nodes.py:199-278 | the two loops, for any recorded answers, pause with exactly the review list or return exactly the specified three lists in order |
| PolicyGuard.ListedExactly | app/graph/nodes.py:209-240 | before decisions, each list holds exactly the jobs routed to it, as filed |
| PolicyGuard.AnnotateByRoute | app/graph/nodes.py:187-236 | a job is filed as scored, except that a blocked one is marked rejected and one asked about as needing review, with the rules responsible added |
| PolicyGuard.DecidedExactly | app/graph/nodes.py:261-270 | a reviewed job is queued if and only if its id is present with "queue", rejected if and only if present with "reject", and pending if and only if absent or present with any other text |
| PolicyGuard.RoutingLosesNothing | app/graph/nodes.py:209-240 | before any human decision, rejected, queued and reviewed jobs are together exactly the scored jobs, with multiplicity |
| PolicyGuard.GuardLosesNothing | app/graph/nodes.py:199-278 | whatever the humans decide, no scored job is lost, copied or invented |
| PolicyGuard.QueueIsSafe | app/graph/nodes.py:213-270 | no decisions can queue a scorer-rejected or guardrail-blocked job: every queued job was routed to the queue, or was shown for review and its id was answered with "queue" |
| Guardrails.RouteOnlyTightens | app/guardrails/engine.py:22-41 | no job lands in a looser bucket than its recommendation, one blocking check rejects it, and a queued job was allowed by every check |
| Guardrails.ChecksExactly | app/guardrails/policy.py:21-221 | for each of the twelve rules, in the order of the report, exactly when it blocks and exactly when it asks, in terms of posting, profile, score and limits |
| Guardrails.GuardrailsExactly | app/guardrails/engine.py:22-41 | the engine blocks if and only if some rule objects, and otherwise asks if and only if some rule asks |
| Guardrails.ReportedRules | app/graph/nodes.py:227-236 | the rules noted for a blocked or asked job are exactly those that block or ask |
| Guardrails.RouteExactly | app/graph/nodes.py:209-240 | rejected if and only if the scorer rejects or some rule objects; reviewed if and only if neither, and the scorer or some rule asks for it; with no earlier applications counted |
| Guardrails.LevelExactly | app/graph/nodes.py:199-205 | rejection is stricter than review, and review than the queue |
| Guardrails.GuardrailsSplit | app/guardrails/engine.py:22-41 | the engine's decision is the score floor's block, and otherwise that of the other eleven checks |
| Guardrails.RouteClosedForm | app/graph/nodes.py:213-240 | the bucket of a job as a function of its score, the floor, the thresholds and the other checks alone |
| Guardrails.RoutingMonotoneAmong | app/guardrails/policy.py:21-43 | the same for any set of possible scores: if and only if another check blocks anyway, no possible score is in the review band, or none is queueable but under the floor |
| Guardrails.RoutingMonotoneExact | app/guardrails/policy.py:21-43 | over all scores, a higher one never routes to a stricter bucket if and only if another check blocks anyway, the floor is at most the lowest queueing threshold, or there is no human-review band |
| Guardrails.RoutingMonotoneForWeights | app/graph/nodes.py:213-240 | the same for the whole hundredths from zero to the sum of the weights, with the condition decided by the next hundredth above each bound |
| SkillRouting.GainingSkillsNoStricter | app/graph/nodes.py:154-240 | for two candidates who differ only in skills, the one with more never gets a job routed to a stricter bucket, if another check blocks it anyway, the floor is at most the lowest queueing threshold, or there is no review band |
| SkillRouting.GainingSkillRejected | app/guardrails/policy.py:31-43 | under the shipped weights and thresholds and a floor of 85, a job that a candidate gets reviewed at 62 is rejected at 83 once the candidate has the required skill |
| Guardrails.SalaryScoreAgreesExact | app/matching/salary.py:20-45 | for every currency, each posting the salary guardrail blocks scores at most the rounded 0.6 share of the weight if and only if scorer and guardrail do not both compare that currency, or the preferred salary is unset or at least the minimum, or that share is the whole weight |
| Guardrails.PreferredSalaryBlocked | app/guardrails/policy.py:109-130 | with 0 < preferred < minimum, a posting that pays the preferred salary is blocked by the guardrail and gets the full weight from the scorer |
| Guardrails.ExperienceScoreAgrees | app/guardrails/policy.py:133-163 | a job allowed for experience scores at least the rounded half of its weight and one that needs a human exactly that; a blocked one scores at most that if and only if the years are below the stated minimum (always, unless it is negative) or meeting it would score no more |
| Dedupe.NormalizeJobs | app/graph/nodes.py:110-125 | the loop keeps the jobs of the well-formed postings in order and reports each malformed one; together they are as many as the input |
| Dedupe.NormalizationLosesNothing | app/graph/nodes.py:110-125 | normalised jobs and malformed postings add up to the postings found |
| Dedupe.NormalizeExactly | app/jobs/parser.py:52-88 | a posting becomes a job if and only if address, title and company are there and its fields are well-typed; every field of the job is the posting's, and the id is made of source and external id, or address where that is missing |
| Dedupe.SameIdExactly | app/jobs/parser.py:47-49 | two postings of one portal share an id if and only if they share that second part |
| Dedupe.DedupeJobs | app/graph/nodes.py:128-151 | the loop with its table of seen keys computes the kept and duplicate lists that the rows below characterise, together a permutation of the input |
| Dedupe.KeptAreFirsts | app/graph/nodes.py:142-151 | the kept jobs are exactly those whose key no earlier job has, in order |
| Dedupe.SameKeyExactly | app/graph/nodes.py:143-144 | two jobs share a key if and only if company and location agree, trimmed and in small letters (no location counting as empty), and their titles are of one family, or of none and agree likewise |
| Dedupe.KeptExactly | app/graph/nodes.py:142-149 | a position is kept if and only if no earlier job agrees with it in those three respects; the kept jobs are those positions in order |
| Dedupe.TwoJobs | app/graph/nodes.py:142-149 | two jobs that differ in any of the three are both kept, and otherwise the second is a duplicate |
| Dedupe.DedupeSplits | app/graph/nodes.py:142-151 | kept and duplicate jobs together are the input, with multiplicity |
| Dedupe.OneKeptPerKey | app/graph/nodes.py:142-151 | every key that occurs has exactly one kept job |
| Dedupe.DedupeIdempotent | app/graph/nodes.py:142-151 | deduplicating the kept jobs keeps them all and finds no duplicate |
| Dedupe.DedupeOrderIndependent | app/graph/nodes.py:138-151 | any reordering of the input gives the same kept keys and the same number of kept and duplicate jobs |
| Persistence.Database.UpsertJobRecord | app/graph/persistence.py:35-73 | the row of the job is rewritten, keeping the stored match when none is given; every other row is untouched |
| Persistence.Database.UpsertPendingIntervention | app/graph/persistence.py:186-203 | updates the pending row of the reference, adds one if there is none, and fails without a change if there are several |
| Persistence.Database.ResolveInterventions | app/graph/persistence.py:206-216 | exactly the pending rows of the reference become resolved with a time; every other row is untouched |
| Persistence.Database.PersistRunResult | app/graph/persistence.py:76-126 | the whole new contents of the four tables after a run paused or ended, or no change at all |
| Persistence.Database.CreateApplicationRecord | app/graph/persistence.py:132-149 | adds a waiting row for the job and changes nothing else |
| Persistence.Database.PersistApplicationResult | app/graph/persistence.py:152-180 | the whole new contents of the tables for any result of the graph, a missing status included, or no change at all |
| Persistence.Database.GetApplicationByJobId | app/graph/persistence.py:253-261 | finds a row if and only if one exists for the job, and then one of that job |
| JobRows.LastWriteWins | app/graph/persistence.py:35-73 | after any list of writes a row shows the last write for its id and the last match written or stored; unmentioned ids keep their row |
| JobRows.RewriteChangesNothing | app/graph/persistence.py:93-113 | persisting the same state a second time leaves the jobs table unchanged, repeated ids or not |
| JobRows.RowsShowTheirListExact | app/graph/persistence.py:93-113 | every job's row shows the status of its list if and only if no id is written with two statuses |
| JobRows.DistinctRunWritten | app/graph/persistence.py:93-113 | with distinct ids each job has exactly the row of its list, other ids are untouched, and the ids of each status are as many as its entries |
| JobRows.EntryCounts | app/graph/persistence.py:93-113 | the entries of each status are as many as the list the run reports |
| JobRows.RunFilesEveryPosting | app/graph/persistence.py:93-113 | in every completed run with a profile, the four lists written hold exactly the well-formed postings the portals returned, with multiplicity |
| JobRows.RunIdsDistinctExactly | app/graph/persistence.py:93-113 | such a run writes pairwise distinct ids if and only if the portals returned pairwise distinct postings |
| JobRows.DistinctPostingsWritten | app/graph/persistence.py:76-126 | then each queued, rejected and reviewed job has exactly its row with its result, other ids are untouched, and the rows of each status are as many as the run reports |
| JobRows.DuplicateMasksKept | app/graph/persistence.py:110-113 | an id that occurs among the duplicates is shown as a duplicate, whatever other list it is in |
| JobRows.RepeatedPostingMasked | app/graph/persistence.py:93-113 | in every run in which a posting is found twice, its row reads "duplicate" after persisting |
| JobRows.RepeatedPostingContradicts | app/graph/persistence.py:93-113 | if moreover its first copy is the first with its key, the completed run leaves a row that contradicts the list its job is in |
| Services.Backend.StartApplication | app/graph/apply_service.py:89-141 | profile check, duplicate check, record, graph, table write, in that order, change exactly what the specified step changes and answer as it does |
| Services.Backend.ResumeApplication | app/graph/apply_service.py:144-161 | the same for one more answer; an exception in the graph leaves the tables alone |
| Services.Backend.StartRun | app/graph/service.py:109-123 | the same for a new discovery run |
| Services.Backend.ResumeRun | app/graph/service.py:126-143 | the same for the human decisions on a run |
| ServiceHistory.UpsertKeepsUnique | app/graph/persistence.py:186-203 | with one row per reference the pending query never finds two rows; afterwards exactly one row holds the new question, other references and resolved rows are untouched |
| ServiceHistory.CallKeepsConsistent | app/graph/apply_service.py:89-161 | every call, a retry of a raised application included, keeps tables and graphs in agreement, never fails on a second pending row, never changes a resolved row, an ended application or a completion time, and never gives one job two applications |
| ServiceHistory.HistoryKeepsConsistent | app/graph/persistence.py:76-216 | the same over every serial list of starts, resumes and retries on any number of runs and applications |
| ServiceHistory.EveryHistoryAgrees | app/graph/persistence.py:76-216 | from empty tables, after every history, tables and graphs agree and the next call does not fail in the database |
| ServiceHistory.StartAnswers | app/graph/apply_service.py:96-132 | a start answers "not found" exactly without a profile, refuses exactly a second application for the job, raises exactly when the graph does, and changes nothing in the first two cases |
| ServiceHistory.StartedRow | app/graph/persistence.py:132-149 | the new row names the job, its title and company, the page and the time of the call |
| ServiceHistory.EndStamped | app/graph/persistence.py:173-178 | the call with which an application is submitted or ready stamps its own time, a rejection stamps none |
| ServiceHistory.CompletionStamped | app/graph/persistence.py:90-91 | the call with which a run completes stamps its own time, and no earlier one does |
| ServiceHistory.ResolveExactly | app/graph/persistence.py:206-216 | exactly the pending rows of the reference are resolved, with the time of the call and nothing else changed |
| ServiceHistory.RetryRaises | app/graph/apply_service.py:144-161 | resuming a raised application raises again, changes no table, and keeps the agreement |
| ServiceHistory.RaisedIsFinal | app/graph/apply_service.py:101-114 | whatever calls follow an exception, the row of the application stays as it is, every retry raises and changes no table, and every new application for the job is refused as a duplicate |
| ServiceHistory.WaitingRowExactly | app/graph/persistence.py:152-180 | an application row waits if and only if its graph is paused or raised, with the source's reason text for each kind of question; a question is pending if and only if it is paused, or raised after its first call had asked |
| ServiceHistory.SubmittedRowExactly | app/graph/persistence.py:173-180 | a row reads "submitted" if and only if dry run was off, the form was filled, every earlier question was answered, and approval came from automatic mode, a cleared hybrid bar or an affirmative answer to the approval question |
| ServiceHistory.WaitingRunExactly | app/graph/persistence.py:76-126 | a run row waits if and only if the run is paused, if and only if a review is pending, and has a completion time otherwise |
| ServiceHistory.StaleRowExactly | app/graph/apply_service.py:126-135 | a row waits without its graph being paused if and only if the field question, where there is one, was answered and some file field then had a value to write |
| Scoring.RecommendationMonotone | app/matching/models.py:46-55 | a higher score never maps to a stricter recommendation, whatever the thresholds and their order |
| Scoring.RecommendationBands | app/matching/models.py:46-55 | with descending thresholds each recommendation is exactly the band from its own threshold up to the next |
| Scoring.MatchExactly | app/matching/scorer.py:41-117 | the overall score is the rounded sum of the six sub-scores, the recommendation its band; matched are the required and then the preferred skills held, missing the required ones not held |
| Scoring.LukewarmMatch | app/matching/scorer.py:41-87 | with six distinct weights, a job lukewarm in every respect gets exactly the stated six sub-scores |
| Domain.RankExactly | app/matching/models.py:46-55 | the five recommendations in order |
| Scoring.MoreSkillsNoWorse | app/matching/scorer.py:29-99 | gaining skills never lowers the overall score or the recommendation, through every rounding and for any weights with a non-negative skill weight |
| Scoring.MoreTargetsNoWorse | app/matching/title.py:61-92 | adding target positions to a non-empty list never lowers the overall score or the recommendation, if the title weight is a non-negative whole hundredth |
| Scoring.HigherSalaryNoWorse | app/matching/salary.py:10-45 | raising a disclosed salary in the same currency never lowers the overall score or the recommendation, if the compensation weight is a non-negative whole hundredth |
| Scoring.BroaderPreferencesNoWorse | app/matching/scorer.py:29-99 | broadening targets, industries, places, work modes and willingness to move never lowers the overall score or the recommendation of any job, if the three weights concerned are non-negative whole hundredths |
| Scoring.SalaryMonotone | app/matching/salary.py:20-45 | the salary score never falls as the salary rises, across all four regions and their borders |
| Scoring.SalaryOnTheLine | app/matching/salary.py:20-45 | for a comparable currency and a positive minimum: the share of the weight rises in a straight line from 0 to 0.6 below the minimum and from 0.6 to 1 between minimum and preferred, is the whole from the preferred salary on, and the rounded whole above the minimum where none is preferred |
| Scoring.SalaryMilestones | app/matching/salary.py:33-45 | the minimum earns 0.6 of the weight, halfway to the preferred salary 0.8, half the minimum 0.3, each rounded |
| Scoring.SalaryNotCompared | app/matching/salary.py:20-42 | an undisclosed salary or no minimum earns everything, another currency half |
| Scoring.UpperEndCounts | app/matching/salary.py:20 | of a range only the upper end matters to the match, and a lone lower end counts like an upper one |
| Scoring.ExperienceExactly | app/matching/experience.py:6-31 | the score in every case: no requirement, unknown years, in proportion below the minimum, 0.8 above one and a half times the maximum, everything in between |
| Scoring.IndustryExactly | app/matching/industry.py:6-25 | everything without preference or on a mention, 0.7 when unknown, 0.2 otherwise |
| Scoring.LocationExactly | app/matching/location.py:13-42 | the score by work mode, place and willingness to move, in every case |
| Scoring.MentionsExactly | app/matching/location.py:6-10 | a phrase is mentioned if and only if the text, letter case aside, can be cut around it |
| ScoreBounds.TitleBoundExact | app/matching/title.py:61-92 | the title score stays between zero and the weight for every job and target list if and only if the weight is not negative and not raised by rounding |
| ScoreBounds.ExperienceBoundExact | app/matching/experience.py:13-31 | the same for experience if and only if the weight is not negative and exceeds its whole hundredths by at most half of one |
| ScoreBounds.IndustryBoundExact | app/matching/industry.py:6-25 | the same for industry if and only if the weight is not negative and its rounded 0.7 share does not exceed it |
| ScoreBounds.LocationBoundExact | app/matching/location.py:13-42 | the same for location, the unrounded half included, if and only if the weight is not negative and its rounded 0.6 share does not exceed it |
| ScoreBounds.SalaryBoundExact | app/matching/salary.py:20-45 | the same for the salary if and only if the weight is not negative and not raised by rounding |
| ScoreBounds.BreakdownBounded | app/matching/scorer.py:41-87 | for all non-negative weights each sub-score lies between zero and the highest value of its signal |
| ScoreBounds.BreakdownBoundExact | app/matching/scorer.py:41-87 | all six sub-scores stay between zero and their weights for every job and candidate if and only if all six of these conditions hold |
| ScoreBounds.OverallScoreBounded | app/matching/scorer.py:89-99 | the overall score is a whole number of hundredths for any weights, and between zero and the rounded sum of the highest values for non-negative ones |
| ScoreBounds.OverallBoundExact | app/matching/scorer.py:89-99 | for non-negative weights the overall score never exceeds their sum if and only if the rounded sum of the six highest values, which one job reaches at once, does not |
| ScoreBounds.GridOverallWithin | app/matching/scorer.py:89-99 | for non-negative whole hundredths it never does |
| SkillMatching.Split | app/matching/skills.py:65-70 | matched and missing skills are exactly the listed ones that are and are not held under some alias, in order, and lose nothing |
| SkillMatching.MatchSkills | app/matching/skills.py:56-94 | both splits and the weighted score, tied to their specification |
| SkillMatching.AliasesExactly | app/matching/skills.py:21-37 | which names, trimmed, in small letters and with single spaces, stand for which skill; every other skill stands for itself, trimmed |
| SkillMatching.SkillScoreExactly | app/matching/skills.py:72-93 | 0.7 of the share of required and 0.3 of the share of preferred skills held, an empty list counting as held, times the weight, rounded |
| SkillMatching.SkillScoreMonotone | app/matching/skills.py:72-86 | holding more skills never lowers the skill score, for every non-negative weight |
| SkillMatching.SkillScoreBoundExact | app/matching/skills.py:75-93 | the skill score stays between zero and the weight for every candidate and job if and only if the weight is not negative and not raised by rounding |
| SkillMatching.RequiredMatterMore | app/matching/skills.py:79-86 | of two candidates with swapped ratios, the one that is better on the required side never scores lower |
| TitleMatching.FindFamily | app/matching/title.py:73-80 | returns the first target of the job's family, or nothing if there is none |
| TitleMatching.FindBest | app/matching/title.py:82-87 | returns the largest overlap and the first target that reaches it |
| TitleMatching.MatchTitle | app/matching/title.py:61-92 | score, family and target in every case: no targets, family match, partial match, below the floor |
| TitleMatching.FamilyMembers | app/matching/title.py:22-52 | which titles, trimmed and in any case, belong to which of the four families, and that no other has one |
| TitleMatching.TitleScoreExactly | app/matching/title.py:61-92 | the whole weight without targets or for a target of the family, otherwise its share by the largest overlap, and nothing under 0.34 |
| TitleMatching.TokensExactly | app/matching/semantic.py:15-32 | the words of a text are its runs of letters and digits in small letters, without the twelve stop words |
| TitleMatching.BestRatioIsMaximum | app/matching/title.py:82-87 | the searched ratio is an upper bound of all targets' overlaps and, unless zero, one of them |
| TitleMatching.TitleScoreMonotone | app/matching/title.py:61-92 | more targets, in any order, never lower the title score |
| TitleMatching.TokenOverlapRatio | app/matching/semantic.py:35-42 | between 0 and 1; 1 if and only if the word sets are equal and non-empty, 0 if and only if they share no word |
| TitleMatching.OverlapExactly | app/matching/semantic.py:35-42 | the ratio times the number of all words is the number of shared ones |
| Rounding.Round2Nearest | app/matching/scorer.py:89-97 | the rounded value is a whole number of hundredths and none is closer |
| Rounding.Round2Monotone | app/matching/scorer.py:89-97 | rounding keeps the order of values |
| Rounding.Round2Fixed | app/matching/scorer.py:89-97 | rounding leaves a value alone if and only if it is a whole number of hundredths |
| Rounding.HalvesGoToEven | app/matching/scorer.py:89-97 | a value halfway between two hundredths goes to the even one |
| Rounding.ScaledNearest | app/matching/skills.py:86-93 | a share of a weight is reported as a whole number of hundredths at most half of one away |
| Cosine.CauchySchwarz | app/llm/embeddings.py:35-43 | for equal lengths the squared dot product is at most the product of the squared norms |
| Cosine.SimilarityBounded | app/llm/embeddings.py:35-43 | every reported similarity lies in [-1, 1], for any two vectors |
| Cosine.SimilaritySymmetric | app/llm/embeddings.py:35-43 | swapping the vectors changes nothing |
| Cosine.SimilarityScaleFree | app/llm/embeddings.py:35-43 | a positive factor on either vector changes nothing |
| Cosine.SimilarityOfParallel | app/llm/embeddings.py:35-43 | a non-zero vector has similarity 1 with each of its positive multiples |
| Cosine.SimilarityOfOpposite | app/llm/embeddings.py:35-43 | and similarity -1 with each of its negative multiples |
| Cosine.SimilarityZero | app/llm/embeddings.py:36-42 | perpendicular vectors, zero vectors, empty ones and vectors of different length have similarity 0 |
| Cosine.DotExactly | app/llm/embeddings.py:38 | the dot product is the product on one coordinate and additive over parts of the vectors |
| EmbeddingCache.EmbeddingProvider.Embed | app/llm/embeddings.py:65-84 | a cached text is answered without asking, a successful reply is stored, a failed one stores nothing |
| EmbeddingCache.FirstReplyStays | app/llm/embeddings.py:65-84 | over any requests, the first successful reply for a text answers every later request for it |
| Html.StripTagsFirstTag | app/portals/html.py:17 | the first tag becomes one space, the text before it stays, and the pass continues after it |
| Html.StripTagsLeavesNoTag | app/portals/html.py:17 | no tag remains, and no closing bracket appears that was not there |
| Html.StripHtmlClean | app/portals/html.py:17-18 | the result has no tag and no leading, trailing or repeated whitespace, is a fixed point, and is the words of the untagged text joined by single spaces |
| Text.CollapseStripIsJoinedWords | app/portals/html.py:18 | collapsing whitespace and trimming is splitting into words and joining them with single spaces |
| Text.WordsExactly | app/portals/html.py:18 | words on either side of a blank are split apart, a text without blanks is one word, and nothing has none |
| Text.StripExactly | app/matching/skills.py:36-37 | trimming drops exactly the blanks at the two ends |
| Text.LowerExactly | app/matching/title.py:52 | capital letters go to their small letter and nothing else changes |
| Text.BlanksExactly | app/portals/html.py:18 | which ASCII characters are blanks |
| Text.ContainsExactly | app/matching/location.py:10 | a text contains another if and only if it can be cut around it |
| Text.BeforeExactly | app/analytics/service.py:120 | strings are ordered by the first character in which they differ |
| ResumeSections.ExtractSections | app/profile/parser.py:95-120 | the scanner loop returns, for every section, exactly the collected items of its declarative meaning |
| ResumeSections.ScanMeaning | app/profile/parser.py:95-120 | each section lists, in order, the non-empty ordinary lines whose nearest earlier header-or-short-capitals line is a header of that section |
| ResumeSections.ClassifyExactly | app/profile/parser.py:100-118 | which lines are blank, headers of which section, closing lines, or items, and what text an item keeps |
| ResumeSections.TrimColonsExactly | app/profile/parser.py:105 | only the colons at the end of a header line are dropped |
| ResumeSections.TrimBulletsExactly | app/profile/parser.py:116 | only the dashes, bullets and stars at the start of an item are dropped |
| ResumeSections.CurrentIsGoverning | app/profile/parser.py:98-113 | the scanner's current section is the header governing the next line, if any |
| ResumeSections.ScanConcat | app/profile/parser.py:95-120 | scanning a concatenation is scanning the first part and continuing from its end state |
| Analytics.ComputePlatformStats | app/analytics/service.py:108-134 | every portal with a job or an application has exactly one row with its own counts, the rows are in the order of their names, and they add up to all jobs and all applications |
| Analytics.CountsExactly | app/analytics/service.py:122-133 | the numbers of a portal's row count its own jobs, queued jobs, rejected jobs and applications |
| Analytics.SourceExactly | app/analytics/service.py:112-114 | an application counts for the portal of its job's row, and for "unknown" without one |
| Analytics.CountBuckets | app/analytics/service.py:83-85 | the counter holds exactly the number of scores of each bucket |
| Analytics.BucketsConserve | app/analytics/service.py:41-50 | the five buckets add up to the number of scored jobs |
| Analytics.BucketsAreRecommendations | app/analytics/service.py:41-50 | the buckets coincide with the scorer's recommendations for every score if and only if the thresholds are 90, 80, 75 and 60 |
| Analytics.CentresBetween | app/analytics/service.py:149-154 | mean and median lie between minimum and maximum before rounding |
| Analytics.MeanExactly | app/analytics/service.py:153 | the mean times the number of scores is their sum |
| Analytics.MedianExactly | app/analytics/service.py:154 | the median is the middle of any ascending arrangement of the scores, or halfway between the two middle ones |
| Analytics.ReportedCentresExact | app/analytics/service.py:149-154 | after rounding they do so for all lists of possible scores if and only if every possible score is a whole number of hundredths |
| Analytics.WindowsNest | app/analytics/service.py:70-88 | today's applications never exceed this week's or this month's |
| Analytics.WindowsExactly | app/analytics/service.py:71-74 | today starts at the last midnight, the week weekday days earlier, the month on its first day |
| Dashboard.ReportedAveragesBetween | app/analytics/service.py:137-157 | after any history, whatever the weights, the reported mean and median of stored scores lie between the reported extremes |
| Dashboard.PendingReviewsCountWaiting | app/analytics/service.py:70-105 | the pending-review count is the number of waiting runs and applications plus those that raised after a question, so it is the number waiting if and only if none did |
| Dashboard.StaleAfterUpload | app/graph/apply_service.py:126-161 | a history of two calls from empty tables - apply to a form with a file field, answer it with a path - after which the row waits, the graph does not, and one question stays pending |

## Left out

Members whose contracts say less than the program's full behaviour:

- Services.Backend.ResumeApplication: resuming an application that has ended is not modelled, since what the graph library does then is not visible in the repository; one that raised may be resumed at any time, and re-executes the node that raised.
- Services.Backend.ResumeRun: resuming a run that has completed is not modelled, for the same reason.
- ServiceHistory.CallKeepsConsistent: takes over these two conditions and the next one, and so do the theorems on histories.
- Services.Backend.StartApplication: new ids are taken to be unused, and two starts at the same moment are not modelled; calls are serial.
- Dedupe.DedupeOrderIndependent: says nothing about which copy of an opportunity is kept, which does depend on the order; so do the scores and the rejected and queued counts.
- ScoreBounds.OverallBoundExact: with a negative weight among the six nothing is said of the overall score.
- Guardrails.RoutingMonotoneForWeights: takes every whole hundredth between zero and the sum of the weights as a possible score; some of them may not be reachable by any job.
- Cosine.SimilarityBounded: over exact reals with an exact square root; floating-point error is not modelled.
- Analytics.WindowsNest: the calendar position of today is a parameter.

Taken as given or abstracted:

- The replay rule: the nth interrupt of a re-executed node receives the nth recorded answer, and the first unanswered one pauses (ARCHITECTURE.md:355-360). Graph edges are followed in the order in which the builders add them; the builders and checkpointer are not modelled.
- Page contents, profile and configuration do not change while an application is in flight, retries included; failures to launch the browser or to open a page are not modelled, so the only exceptions are those of the fill loop.
- A page is its list of fields, its challenge sort and the set of writes it refuses; select-option lookup, checkbox ticking, field detection, selectors, sessions and screenshots are not modelled.
- A label pattern is the fact whether it matches a field; regular expressions themselves are not modelled.
- Arithmetic is over exact reals; `round(x, 2)` is half-to-even on hundredths.
- Letter folding and capitals cover ASCII only; entity unescaping and line splitting happen before the modelled passes.
- A job id is the text it is derived from, and a cache key is the text it hashes: hashes are taken to be collision-free.
- Human answers and resume values are taken in their text form.
- Match explanations are reduced to the guardrail rules added to them.
- Job fields with no effect on any decision (posting date, employment type, metadata) are omitted.

Not modelled:

- Portal adapters, browser, language-model and notification clients, HTTP routes, command line, scheduler, configuration files and the web frontend: input and output around the modelled core.
- List queries, the summary's other counters and the averaged breakdown: easy consequences of counting.
- The resume field extractors other than the section scanner: each is one pattern search.

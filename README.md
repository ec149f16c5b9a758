# Scientific exhibition evaluation system — a verified model

The system runs the judging of a scientific exhibition. Administrators load
the submitted works and register the evaluators; a distribution engine then
gives every work one pedagogical evaluator and one or two technical
evaluators of the work's area, keeping away from each work its advisor and
anyone who advises another work of the same subarea. Evaluators log in and
score their works on five criteria from 1 (Ruim) to 5 (Excelente), either on
line or through a photographed paper sheet that an AI model reads.
Administrators follow the progress of the evaluations and see a podium of
the three best works of each area.

The model follows the back end (Flask services and blueprints) and the
front end's navigation guard and API address choice:

- `models.dfy` (module `Models`): the entities, the association table and
  the constraints the schema declares; a `Database` class holds the tables
  the services read and update.
- `areas.dfy` (module `Areas`): the catalogue of areas and subareas and its
  lookups and checks.
- `distribution.dfy` (module `Distribution`): the distribution engine as a
  class `Distributor` whose methods update the evaluator table (the load
  counters) and the set of links, proved against specification functions of
  the pre-check, the per-work step and the finished distribution.
- `evaluation_service.dfy` (module `EvaluationService`): progress report and
  pagination, average scores and podium, and the two submission validators
  with their inserts.
- `evaluator_evaluations.dfy` (module `EvaluatorEvaluations`): the
  evaluator's submission endpoint and the two listing endpoints.
- `auth.dfy` (module `Auth`): registration, SIAPE/CPF and birth-date checks,
  login-field checks, password change and the access-token identity.
- `ai.dfy` (module `AiService`): sanitising the scores an AI reply holds and
  the shapes of a sheet reading.
- `sheets.dfy` (module `Sheets`): the upload endpoint for sheet images, its
  file numbering and the name it saves under.
- `misc.dfy` (module `AdminMisc`): the admin guard and the distribution
  endpoint.
- `router.dfy` (module `Router`) and `baseurl.dfy` (module `BaseUrl`): the
  front end's route table, navigation guard and choice of API address.
- `wrappers.dfy`, `python.dfy` and `text.dfy`: `Option`, the Python values a
  JSON body decodes to (truthiness, `isinstance`, slicing), and the string
  operations the code uses (`strip`, digit tests, `int()`, `str()`, `title()`,
  `ILIKE`).

Where the system's documented design and its code differ, the model follows
the code:

- There is no distribution guard record and no reset endpoint; a
  distribution can be started again at any time and starts from scratch.
- The distribution is not all-or-nothing: the links and load counters are
  cleared and committed before the per-work loop, so a failure inside the
  loop leaves every link removed and every counter at zero
  (`Distribution.Distributor.Distribute`).
- Technical evaluators are drawn only from the least-loaded tier of the
  eligible ones: one or two of them, never more than that tier holds; the
  tier is not widened.
- Evaluators are classed as pedagogical by a case-insensitive search for
  `pedag` in their area, not by equality with the reserved area name.
- The pre-check judges each subarea by the area of its first work, so the
  loop can still fail for a later work of that subarea in another area
  (`Distribution.TechnicalRaiseReachable`).
- `pending_evaluations` is the number of linked evaluators minus the number
  of evaluations of the work, which can be negative
  (`EvaluationService.PendingCanBeNegative`).

## Model

| member | source | states |
|---|---|---|
| Areas.AllAreas | backend/app/services/areas_service.py:45-46 | the six area names, in table order, the pedagogical area first |
| Areas.Lookup | backend/app/services/areas_service.py:48-49 | a missing key gives the empty list; otherwise the list of the first entry with that key |
| Areas.SubareasByArea | backend/app/services/areas_service.py:48-49 | an unknown area has no subareas; a known area gets exactly its own list |
| Areas.TechnicalSubareasMembership | backend/app/services/areas_service.py:51-56 | a subarea is collected exactly when some non-pedagogical entry lists it |
| Areas.AllSubareasFacts | backend/app/services/areas_service.py:51-56 | the collected list has 25 subareas: exactly those of the five technical areas |
| Areas.GetAllSubareas | backend/app/services/areas_service.py:51-56 | the extend loop builds the collected list of every technical subarea, in table order |
| Areas.FirstNotInNone | backend/app/services/areas_service.py:67-69 | no subarea is reported exactly when every listed subarea is allowed |
| Areas.AllowedSubareas | backend/app/services/areas_service.py:59-62 | the pedagogical area is checked against every technical subarea, any other area against its own list |
| Areas.ValidateAreaSubarea | backend/app/services/areas_service.py:58-71 | the verdict of the specification function: unknown area, first invalid subarea, or valid |
| Areas.FindNotIn | backend/app/services/areas_service.py:67-69 | the loop returns the first subarea outside the allowed list, or none |
| Areas.KnownAreaHasSubareas | backend/app/services/areas_service.py:64-65 | the empty-list test fires exactly for the areas that are not in the table |
| Areas.VerdictCharacterised | backend/app/services/areas_service.py:58-71 | valid exactly when the area is known and every subarea is valid for it; an unknown area is refused by name; a known area with no subareas is valid |
| Areas.InvalidSubareaIsFirst | backend/app/services/areas_service.py:67-69 | a reported subarea is listed, is invalid for the area, and every subarea before it is valid |
| Areas.SubareaCheckAgreesWithValidate | backend/app/services/areas_service.py:91-95 | the single-subarea check agrees with the full validation of a one-element list |
| Areas.GetAreasSummary | backend/app/services/areas_service.py:73-86 | one entry per area in table order; the pedagogical entry counts all 25 subareas with its fixed description, the others count their own list |
| Areas.OnlyPedagogicalMatchesMarker | backend/app/services/distribution_service.py:11-12 | among the catalogue areas, only the pedagogical one contains "pedag" in any letter case, so the distribution's split matches the catalogue |
| Models.NewEvaluator | backend/app/models.py:15-23 | a new evaluator row has no password and a load of 0, and keeps the given identity columns |
| Models.FindWork | backend/app/models.py:27-28 | the lookup by primary key finds a stored work with that id, and fails exactly when no work has it |
| Models.FindEvaluator | backend/app/models.py:15-16 | the lookup by primary key finds a stored evaluator with that id, and fails exactly when none has it |
| Models.EvaluatorsOfWorkMembership | backend/app/models.py:3-7 | an evaluator is among a work's evaluators exactly when the association row exists |
| Models.WorksOfEvaluatorMembership | backend/app/models.py:3-7 | a work is among an evaluator's works exactly when the association row exists |
| Models.LinkViewsAgree | backend/app/models.py:25-36 | the two back-populated relationships are views of the same association rows |
| Models.EvaluatorsOfWorkDistinct | backend/app/models.py:5-6 | with the composite primary key, a work lists each evaluator at most once |
| Models.DuplicatePairAllowedByStore | backend/app/models.py:38-47 | nothing in the schema stops two evaluations of the same work by the same evaluator |
| Models.Database.constructor | backend/app/models.py:1-47 | a session over valid tables is valid and holds exactly those tables |
| Distribution.CanEvaluateStoredWork | backend/app/services/distribution_service.py:69-78 | for a stored work, the advisor test is subsumed by the subarea-conflict test |
| Distribution.ClassIndices | backend/app/services/distribution_service.py:11-12 | the listed evaluators are in range, in table order, and all of the requested class |
| Distribution.ClassIndicesComplete | backend/app/services/distribution_service.py:11-12 | every evaluator of a class is listed in that class |
| Distribution.ClassesPartition | backend/app/services/distribution_service.py:11-12 | the `ILIKE` filter and its negation split the evaluators into two disjoint classes covering all of them |
| Distribution.Eligible | backend/app/services/distribution_service.py:85 | every eligible evaluator is a candidate that may evaluate the work, and has its area when expertise is required |
| Distribution.EligibleComplete | backend/app/services/distribution_service.py:96 | every candidate that qualifies is listed |
| Distribution.EligibleMembership | backend/app/services/distribution_service.py:85-96 | listed exactly when a candidate qualifies |
| Distribution.EligibleIncreasing | backend/app/services/distribution_service.py:85-96 | the comprehension keeps the table order |
| Distribution.EligibleReadsIdentity | backend/app/services/distribution_service.py:85-96 | eligibility reads names and areas only, so workload updates never change it |
| Distribution.LinkCountIsCardinality | backend/app/services/distribution_service.py:92-93 | the workload counter equals the number of works the evaluator is linked to |
| Distribution.RowStep | backend/app/services/distribution_service.py:92 | appending a work's evaluators sets that work's row and leaves the others |
| Distribution.StepRowAssigned | backend/app/services/distribution_service.py:85-115 | one eligible pedagogical evaluator plus one or two eligible technical evaluators with the work's area make a correct row |
| Distribution.DistributeStep | backend/app/services/distribution_service.py:68-115 | a correct row for the next work, with matching workload increments, extends the distribution by one work |
| Distribution.CountFree | backend/app/services/distribution_service.py:26-32 | the count is zero exactly when every listed evaluator advises a work in the subarea |
| Distribution.CountFreeExperts | backend/app/services/distribution_service.py:35-48 | the count is zero exactly when no listed evaluator is free of conflict and shares the area of the subarea's first work |
| Distribution.ExampleWork | backend/app/services/distribution_service.py:42 | the first work of the subarea, found whenever the subarea occurs |
| Distribution.PedagogicalAvailableListed | backend/app/services/distribution_service.py:26-32 | the pedagogical class is enough to decide pedagogical availability |
| Distribution.TechnicalAvailableListed | backend/app/services/distribution_service.py:35-48 | the technical class is enough to decide technical availability |
| Distribution.SubareaProblem | backend/app/services/distribution_service.py:50-53 | a problem is reported against the subarea it was found in |
| Distribution.ProblemsAmongAdd | backend/app/services/distribution_service.py:24-53 | checking one more subarea adds exactly its own problem, if any |
| Distribution.StepOutcome | backend/app/services/distribution_service.py:85-99 | a pass of the per-work loop raises only its own two errors |
| Distribution.RunOutcome | backend/app/services/distribution_service.py:68-99 | the loop raises only the per-work errors |
| Distribution.NoProblemIn | backend/app/services/distribution_service.py:55-57 | when no problem is collected, no subarea of the works has one |
| Distribution.FeasibleAdmitsPedagogical | backend/app/services/distribution_service.py:85-88 | once the pre-check passes, the pedagogical raise of the loop cannot fire |
| Distribution.SubareaWithoutProblem | backend/app/services/distribution_service.py:26-53 | a conflict-free pedagogical evaluator and an available technical one clear a subarea |
| Distribution.SingleSubareaWithoutProblem | backend/app/services/distribution_service.py:21-57 | a store of one clear subarea collects no problem |
| Distribution.TechnicalRaiseReachable | backend/app/services/distribution_service.py:42-48 | the pre-check judges a subarea by its first work's area, so a later work of that subarea in another area can still make the loop raise |
| Distribution.TechnicalRaiseExample | backend/app/services/distribution_service.py:96-99 | a concrete store with catalogue areas that passes the pre-check and then raises for its second work |
| Distribution.Distributor.constructor | backend/app/services/distribution_service.py:5 | the distributor holds the given tables |
| Distribution.Distributor.CheckCanEvaluate | backend/app/services/distribution_service.py:69-78 | the scan answers whether the evaluator is not the advisor and advises no work of the subarea |
| Distribution.Distributor.EligibleFor | backend/app/services/distribution_service.py:85-96 | the comprehension loop computes the eligible list |
| Distribution.Distributor.SelectPedagogical | backend/app/services/distribution_service.py:91 | `min` by workload: an eligible evaluator of least workload, the first such in table order |
| Distribution.Distributor.SelectTechnical | backend/app/services/distribution_service.py:102-111 | the chosen evaluators are drawn from the least-loaded tier only, one or two of them, never more than the tier holds |
| Distribution.Distributor.CountPedagogical | backend/app/services/distribution_service.py:26-32 | zero exactly when no pedagogical evaluator is free of conflict in the subarea |
| Distribution.Distributor.CountTechnical | backend/app/services/distribution_service.py:35-48 | zero exactly when no technical evaluator is available for the subarea |
| Distribution.Distributor.PreCheck | backend/app/services/distribution_service.py:20-53 | the problems listed are exactly the problems of the works' subareas, one per subarea |
| Distribution.Distributor.ResetLoads | backend/app/services/distribution_service.py:63-66 | every workload becomes 0 and nothing else changes |
| Distribution.Distributor.AddLinks | backend/app/services/distribution_service.py:113-115 | each chosen evaluator is linked to the work and its workload goes up by one |
| Distribution.Distributor.PickPedagogical | backend/app/services/distribution_service.py:85-91 | found exactly when someone is eligible; then the first eligible evaluator of least workload |
| Distribution.Distributor.PickTechnical | backend/app/services/distribution_service.py:96-111 | none chosen exactly when nobody is eligible; otherwise up to the drawn number from the least-loaded eligible tier |
| Distribution.Distributor.AssignPedagogical | backend/app/services/distribution_service.py:85-93 | found exactly when someone is eligible; then links the eligible evaluator `min` picks, of least workload and the first such in table order, and bumps only its workload; changes nothing when none is eligible |
| Distribution.Distributor.AssignTechnical | backend/app/services/distribution_service.py:96-115 | some are linked exactly when someone is eligible; then one or two eligible technical evaluators, all from the least-workload tier of the eligible and `min(n, size of the tier)` of them for the drawn `n` in {1, 2}, each linked and its workload bumped by one, no other workload changed |
| Distribution.Distributor.AssignWork | backend/app/services/distribution_service.py:68-115 | one pass raises as the specification function says; on success the work is linked to the pedagogical evaluator `min` picks and to `min(n, tier)` technical evaluators of the least-workload eligible tier, and exactly their workloads go up by one |
| Distribution.Distributor.CheckStore | backend/app/services/distribution_service.py:5-57 | each of the four raises happens exactly under its own condition, in the source's order, and no raise means the store passes every check |
| Distribution.Distributor.AssignNext | backend/app/services/distribution_service.py:68-115 | a successful pass extends the distribution by one work, and that work's evaluators were least loaded, by links to earlier works, when the loop reached it |
| Distribution.Distributor.AssignAll | backend/app/services/distribution_service.py:68-117 | the loop's outcome is the specification's, and success leaves every work correctly assigned, each to evaluators least loaded when the loop reached it, with workloads equal to link counts |
| Distribution.Distributor.Distribute | backend/app/services/distribution_service.py:4-118 | each raise under its own condition; a raise before the loop changes nothing, a raise inside it leaves the links cleared and the workloads zero; success means every work has one pedagogical and one or two technical evaluators who may evaluate it, the pedagogical one the first of least load and the technical ones of the least-load tier at the work's turn, and workloads count the links |
| Distribution.LinkCountStep | backend/app/services/distribution_service.py:92-93 | adding a work's links raises an evaluator's link count by one exactly when they are chosen |
| Distribution.ChosenRowAssigned | backend/app/services/distribution_service.py:85-115 | the evaluators the loop picks for a work make a correct row |
| Distribution.AssignedStep | backend/app/services/distribution_service.py:85-115 | a pass that links the picked evaluators and bumps their workloads extends the partial distribution by one work |
| Distribution.MinTierIsLoadTier | backend/app/services/distribution_service.py:104-107 | while the loop runs, the evaluators of least workload among the eligible are those with fewest links to earlier works |
| Distribution.LaterLinksKeepChoice | backend/app/services/distribution_service.py:68-115 | links of later works do not change whether a work's evaluators were the least loaded at its turn |
| Distribution.BalancedStep | backend/app/services/distribution_service.py:85-115 | linking a work to a least-loaded pedagogical evaluator and to least-loaded technical ones keeps every work's choice least loaded |
| Distribution.LeastLoadedPass | backend/app/services/distribution_service.py:91-111 | choices made by workload in one pass, with workloads equal to link counts, are least loaded by link count, so the pass keeps the distribution balanced |
| Distribution.BumpOutsideTier | backend/app/services/distribution_service.py:91-107 | raising the pedagogical evaluator's workload before the technical choice leaves the least-workload tier of the technical candidates unchanged |
| Distribution.BalancedPass | backend/app/services/distribution_service.py:68-115 | a pass linking a work to its least-loaded choices, and counting them in the workloads, extends a balanced distribution by one work |
| EvaluationService.EvaluationsOfMembership | backend/app/services/evaluation_service.py:15 | the comprehension keeps exactly the evaluations of the work |
| EvaluationService.ResolveMembership | backend/app/services/evaluation_service.py:19 | `work.evaluators` holds exactly the stored evaluators whose ids are linked |
| EvaluationService.AssignedToMembership | backend/app/services/evaluation_service.py:19 | an evaluator is assigned to a work exactly when their link is stored |
| EvaluationService.AssignedToCount | backend/app/services/evaluation_service.py:36 | `len(work.evaluators)` is the number of distinct linked evaluators |
| EvaluationService.PendingOfMembership | backend/app/services/evaluation_service.py:18-25 | an entry is pending exactly when it describes a linked evaluator whose id has no evaluation of the work |
| EvaluationService.PendingEvaluators | backend/app/services/evaluation_service.py:18-25 | the loop builds exactly the pending list |
| EvaluationService.Percentage | backend/app/services/evaluation_service.py:27-29 | zero for no evaluators, otherwise the exact ratio times 100 |
| EvaluationService.WorkProgressEntry | backend/app/services/evaluation_service.py:14-41 | the loop body builds the work's progress entry |
| EvaluationService.WorkProgressEntries | backend/app/services/evaluation_service.py:14-49 | one entry per work, in the order of the works |
| EvaluationService.CalculateEvaluationProgress | backend/app/services/evaluation_service.py:5-72 | the report is the progress report of the database's current contents |
| EvaluationService.ProgressReportFor | backend/app/services/evaluation_service.py:43-72 | the totals, the page of entries and the pagination fields are those of the report function |
| EvaluationService.ProgressEntryMeaning | backend/app/services/evaluation_service.py:31-41 | the entry counts the linked evaluators and the work's evaluations, pending is their difference, and the pending list names exactly the linked evaluators with no evaluation of the work |
| EvaluationService.PendingCanBeNegative | backend/app/services/evaluation_service.py:38 | an evaluation by an evaluator who is no longer linked makes `pending_evaluations` negative while the pending list is empty |
| EvaluationService.PagesIsCeiling | backend/app/services/evaluation_service.py:65 | `pages` is the ceiling of the entry count over `per_page` |
| EvaluationService.PageContents | backend/app/services/evaluation_service.py:50-52 | from page 1 on, a page is the clipped run of `per_page` entries starting at `(page - 1) * per_page` |
| EvaluationService.EntryPage | backend/app/services/evaluation_service.py:50-65 | every entry appears on page `i / per_page + 1` at position `i % per_page`, and that page is within `pages` |
| EvaluationService.NeighbourFlags | backend/app/services/evaluation_service.py:67-70 | `has_next` and `has_prev` and the neighbour numbers agree with each other and with the page bounds |
| EvaluationService.NonPositivePages | backend/app/services/evaluation_service.py:50-52 | page 0 is empty and a negative page slices from the end of the list, since the page number is not checked |
| EvaluationService.CalculateWorkAverageScore | backend/app/services/evaluation_service.py:75-88 | the loop sums the five criteria of every evaluation; the average divides by five per evaluation, and no evaluations give zero |
| EvaluationService.TotalScoreBounds | backend/app/services/evaluation_service.py:79-85 | with every criterion from 1 to 5, the total lies between 5 and 25 per evaluation |
| EvaluationService.AverageOnScale | backend/app/services/evaluation_service.py:87 | the average of a non-empty list of valid evaluations is on the 1 to 5 scale and recovers the total |
| EvaluationService.WorksInMembership | backend/app/services/evaluation_service.py:95-99 | an area's list holds exactly the works of that area |
| EvaluationService.AreaOrderFacts | backend/app/services/evaluation_service.py:95-99 | the areas are listed once each, exactly the areas some work has |
| EvaluationService.RankedOfMembership | backend/app/services/evaluation_service.py:106-122 | a work is ranked exactly when it has at least one evaluation |
| EvaluationService.InsertDescMembership | backend/app/services/evaluation_service.py:124 | inserting keeps every element and adds the new one |
| EvaluationService.InsertDescSorted | backend/app/services/evaluation_service.py:124 | inserting into a list sorted highest first keeps it sorted |
| EvaluationService.InsertDescPermutation | backend/app/services/evaluation_service.py:124 | inserting adds exactly one copy of the element |
| EvaluationService.SortDescSortedPermutation | backend/app/services/evaluation_service.py:124 | the sort yields a permutation sorted by average, highest first |
| EvaluationService.SortDescStable | backend/app/services/evaluation_service.py:124 | the sort is stable: entries of equal average keep their relative order |
| EvaluationService.TopOfRanking | backend/app/services/evaluation_service.py:124-125 | the first three after sorting are sorted, come from the entries, and no other entry has a higher average |
| EvaluationService.PodiumIsTop | backend/app/services/evaluation_service.py:124-132 | an area's podium holds the best `min(3, evaluated)` works of the area by average |
| EvaluationService.PodiumCounts | backend/app/services/evaluation_service.py:127-132 | the entry names its area, counts all the area's works, and ranks every evaluated work of the area |
| EvaluationService.PodiumOf | backend/app/services/evaluation_service.py:103-132 | one entry per area in the order areas first appear |
| EvaluationService.GroupByArea | backend/app/services/evaluation_service.py:95-99 | the grouping loop lists each area once, in first-appearance order, with exactly its works |
| EvaluationService.ScoreArea | backend/app/services/evaluation_service.py:104-122 | the loop ranks the area's evaluated works in order |
| EvaluationService.AreaEntry | backend/app/services/evaluation_service.py:124-132 | the area entry holds the counts and the first three of the sorted ranking |
| EvaluationService.PodiumFor | backend/app/services/evaluation_service.py:103-134 | the loop over the areas builds the podium |
| EvaluationService.GenerateWorksPodium | backend/app/services/evaluation_service.py:91-134 | the podium of the database's works and evaluations |
| EvaluationService.CriteriaOf | backend/app/services/evaluation_service.py:140 | five values, the i-th read from key `criterion<i+1>` |
| EvaluationService.GradeErrorsName | backend/app/services/evaluation_service.py:146-148 | the message for criterion `i + 1` is listed exactly when that value is not an integer from 1 to 5 |
| EvaluationService.GradeErrorsBelow | backend/app/services/evaluation_service.py:146-148 | every listed message names a criterion that exists |
| EvaluationService.GradeErrorsEmpty | backend/app/services/evaluation_service.py:146-148 | no message exactly when every criterion is a grade |
| EvaluationService.CollectGradeErrors | backend/app/services/evaluation_service.py:146-148 | the loop collects exactly the grade messages in order |
| EvaluationService.FindWorkBy | backend/app/services/evaluation_service.py:150 | `Work.query.get`: found exactly for an integer id of a stored work, and the work found has that id |
| EvaluationService.FindEvaluatorBy | backend/app/services/evaluation_service.py:155 | `Evaluator.query.get`: found exactly for an integer id of a stored evaluator, and the evaluator found has that id |
| EvaluationService.ValidateEvaluationData | backend/app/services/evaluation_service.py:137-176 | the checks, with their early returns, compute the validation of the current database |
| EvaluationService.EvaluationDataAccepted | backend/app/services/evaluation_service.py:137-176 | accepted exactly when a work id is given, all five criteria are grades, work and evaluator exist, they are linked and no evaluation of the pair exists; then the criteria are returned |
| EvaluationService.EvaluationDataErrors | backend/app/services/evaluation_service.py:146-174 | after the presence check, a rejection starts with the grade messages, which name exactly the bad criteria |
| EvaluationService.Items | backend/app/services/evaluation_service.py:228 | `enumerate` yields as many items as `len` counts; a string or object yields strings |
| EvaluationService.FirstNonScore | backend/app/services/evaluation_service.py:228-230 | the first item that is not a number from 1 to 5, all before it being scores |
| EvaluationService.CheckScores | backend/app/services/evaluation_service.py:228-232 | the loop rejects at the first bad score, naming it, and accepts when there is none |
| EvaluationService.ValidateAiEvaluationData | backend/app/services/evaluation_service.py:197-232 | the checks, with their early returns, compute the validation of the current database |
| EvaluationService.AiEvaluationDataAccepted | backend/app/services/evaluation_service.py:197-232 | accepted exactly when both ids are given, five scores are all numbers from 1 to 5, work and evaluator exist and are linked, and the pair has no evaluation |
| EvaluationService.NextEvaluationId | backend/app/services/evaluation_service.py:191-192 | the new row's id is larger than every stored id |
| EvaluationService.CreateEvaluation | backend/app/services/evaluation_service.py:179-194 | exactly one evaluation is appended, carrying the criteria, the pair and the method |
| EvaluationService.CreateAiEvaluation | backend/app/services/evaluation_service.py:235-250 | exactly one evaluation is appended, carrying the scores, the pair and the method `ai_processed` |
| EvaluationService.InsertKeepsStoreValid | backend/app/services/evaluation_service.py:179-194 | inserting an evaluation for a stored work and evaluator keeps the store consistent |
| EvaluationService.SecondSubmissionRefused | backend/app/services/evaluation_service.py:164-171 | once an accepted submission is recorded, the same submission is refused as already evaluated |
| EvaluatorEvaluations.FirstNonGrade | backend/app/blueprints/evaluator/evaluations.py:16-18 | the first criterion that is not an integer from 1 to 5, all before it being grades |
| EvaluatorEvaluations.FirstBadCriterion | backend/app/blueprints/evaluator/evaluations.py:16-18 | the loop stops at the first criterion that is not a grade |
| EvaluatorEvaluations.SubmitEvaluation | backend/app/blueprints/evaluator/evaluations.py:7-39 | the reply is the endpoint's outcome; a 201 appends exactly the new evaluation, and every other outcome leaves the table as it was |
| EvaluatorEvaluations.SubmitAgreesWithValidator | backend/app/blueprints/evaluator/evaluations.py:14-27 | for an existing evaluator, the endpoint records exactly the submissions the evaluation service's validator accepts |
| EvaluatorEvaluations.MissingEvaluatorCrashes | backend/app/blueprints/evaluator/evaluations.py:22-23 | a token whose evaluator is gone makes a valid submission of an existing work fail on `evaluator.works` |
| EvaluatorEvaluations.ResubmissionConflicts | backend/app/blueprints/evaluator/evaluations.py:25-27 | once a submission is recorded, the same submission gets 409 |
| EvaluatorEvaluations.EvaluationsByMembership | backend/app/blueprints/evaluator/evaluations.py:45 | the filter keeps exactly the caller's evaluations |
| EvaluatorEvaluations.ListMyEvaluations | backend/app/blueprints/evaluator/evaluations.py:43-60 | one entry per evaluation of the caller, in table order |
| EvaluatorEvaluations.MyEntriesMeaning | backend/app/blueprints/evaluator/evaluations.py:48-58 | the entries cover exactly the caller's evaluations and carry the work's title, or the not-found text when the work is gone |
| EvaluatorEvaluations.ListEvaluationsForWork | backend/app/blueprints/evaluator/evaluations.py:64-77 | one entry per evaluation of the work, in table order, for any caller |
| Auth.ValidateSiapeOrCpf | backend/app/services/auth_service.py:132-155 | the two "only digits" messages can never be returned, since every non-digit was removed from the value before the `isdigit` call |
| Auth.SiapeOrCpfAccepted | backend/app/services/auth_service.py:132-155 | accepted exactly when the digits number 7, or number 11 and are not one digit repeated; the message names which |
| Auth.KeepDigitsStrip | backend/app/services/auth_service.py:136-138 | stripping before removing non-digits changes nothing |
| Auth.BirthdateAccepted | backend/app/services/auth_service.py:158-180 | accepted exactly when the stripped value is the eight-digit text of a day 1-31, month 1-12 and year 1900-2020 |
| Auth.DateTextAccepted | backend/app/services/auth_service.py:167-180 | every date in range, written as DDMMAAAA, is accepted |
| Auth.NoMonthLengthCheck | backend/app/services/auth_service.py:171-172 | day 31 is accepted in every month, since the day is not checked against the month |
| Auth.PaddedValue | backend/app/services/auth_service.py:167-169 | the zero-padded text of a number reads back as that number |
| Auth.PaddedOfDigits | backend/app/services/auth_service.py:167-169 | a digit string is the zero-padded text of its own value |
| Auth.FindBySiapeOrCpf | backend/app/services/auth_service.py:25 | an exact match when found, and no stored evaluator has the value when not |
| Auth.ValidateEvaluatorRegistration | backend/app/services/auth_service.py:8-36 | the checks, with their early returns, compute the registration verdict on the current evaluators |
| Auth.RegistrationAccepted | backend/app/services/auth_service.py:8-36 | accepted exactly when name, SIAPE/CPF and area are non-empty, the birth date is eight digits and the SIAPE/CPF is new; the data returned are the stripped fields; a refusal carries one of the three messages |
| Auth.NextEvaluatorId | backend/app/services/auth_service.py:48-49 | the new row's id is larger than every stored id |
| Auth.CreateEvaluator | backend/app/services/auth_service.py:39-51 | exactly one evaluator is appended, built from the validated data |
| Auth.RegistrationKeepsEvaluatorsValid | backend/app/services/auth_service.py:25-28 | registering keeps ids and SIAPE/CPF values unique, and registering the same form again is refused as a duplicate |
| Auth.SanitizeIdempotent | backend/app/services/auth_service.py:233-240 | sanitising sanitised data changes nothing, the title-cased name included |
| Auth.TitleIdempotent | backend/app/services/auth_service.py:235 | `.title()` applied twice is `.title()` once |
| Auth.TitleChar | backend/app/services/auth_service.py:235 | `.title()` keeps the length and upper-cases exactly the characters that follow no cased character |
| Auth.ValidateLoginCredentials | backend/app/services/auth_service.py:195-223 | the errors are those collected for the user type, and success means there are none |
| Auth.LoginErrorsMeaning | backend/app/services/auth_service.py:195-223 | for a known user type, an error names exactly each missing field, the identifier's first; any other type gets only the invalid-type error |
| Auth.IsPasswordStrong | backend/app/services/auth_service.py:226-230 | strong exactly when at least six characters long |
| Auth.PasswordChangeAccepted | backend/app/services/auth_service.py:101-123 | accepted exactly when the current password is given and matches and the new one is strong; without a hash the birth date is the password |
| Auth.WithPasswordHash | backend/app/services/auth_service.py:127 | only the evaluator with the given id gets the new hash |
| Auth.ChangeEvaluatorPassword | backend/app/services/auth_service.py:126-129 | the evaluators table after the change is the one with that evaluator's hash replaced |
| Auth.PasswordChangeTakesEffect | backend/app/services/auth_service.py:114-117 | after a change, the new password is the evaluator's current password |
| Auth.PasswordChangeKeepsEvaluatorsValid | backend/app/services/auth_service.py:126-129 | a password change keeps ids and SIAPE/CPF values unique |
| Auth.TokenIdentity | backend/app/services/auth_service.py:90-98 | no identity exactly for a role other than evaluator and admin |
| Auth.TokenIdentityInjective | backend/app/services/auth_service.py:91-94 | different users or roles never share a token identity |
| Auth.AdminIdentityPrefix | backend/app/services/auth_service.py:94 | an admin's identity starts with `admin:` |
| Auth.EvaluatorIdentityPrefix | backend/app/services/auth_service.py:92 | an evaluator's identity never starts with `admin:` |
| AiService.ScoreOf | backend/app/services/ai_service.py:63-68 | a score is kept exactly when it is a number from 1 to 5, and becomes its integer part |
| AiService.ValidateScores | backend/app/services/ai_service.py:57-70 | the loop yields the sanitised scores of the reply |
| AiService.ScoresMeaning | backend/app/services/ai_service.py:57-70 | always five entries, each None or from 1 to 5; anything but a list of five gives five Nones; position `i` holds the integer part of item `i` exactly when it is a number from 1 to 5 |
| AiService.AsValue | backend/app/services/ai_service.py:70 | the sanitised scores as a JSON list of the same length |
| AiService.ScoresIdempotent | backend/app/services/ai_service.py:57-70 | sanitising already sanitised scores changes nothing |
| AiService.ReadingMeaning | backend/app/services/ai_service.py:72-110 | a reading has five valid scores and carries a warning exactly when none was read; a small image is refused before the model is asked; every raised error starts with the AI failure text |
| AiService.FullMarksRead | backend/app/services/ai_service.py:91-102 | a reply holding five valid marks is returned as those marks with no warning |
| Sheets.NumberTextIsSplit | backend/app/blueprints/admin/sheets.py:21-22 | the number text is `f.split('_')[1].split('.')[0]` |
| Sheets.MaxNumber | backend/app/blueprints/admin/sheets.py:23 | `max(nums, default=0)`: no present number exceeds it, and it is 0 or one of them |
| Sheets.SheetNumbersAt | backend/app/blueprints/admin/sheets.py:19-22 | the numbers are read file by file, in folder order |
| Sheets.NextEvaluationNumber | backend/app/blueprints/admin/sheets.py:17-23 | at least 1, above every saved sheet's number, and one past the largest of them when there is one |
| Sheets.MaxNumberAppend | backend/app/blueprints/admin/sheets.py:23 | a new number above the maximum becomes the maximum |
| Sheets.Extension | backend/app/blueprints/admin/sheets.py:82 | `os.path.splitext(...)[1]`: empty, or a dot-led suffix of the name |
| Sheets.LastIndexOf | backend/app/blueprints/admin/sheets.py:82 | the position of the last occurrence of a character, or the length when there is none |
| Sheets.ExtensionOfName | backend/app/blueprints/admin/sheets.py:82 | `base.ext` has extension `.ext` |
| Sheets.ExtensionOfDotName | backend/app/blueprints/admin/sheets.py:82 | a name made of a leading dot and a name without dots has no extension |
| Sheets.SavedNameRoundTrip | backend/app/blueprints/admin/sheets.py:84 | the saved name `evaluation_<n><ext>` is numbered `n` when read back |
| Sheets.AfterPrefix | backend/app/blueprints/admin/sheets.py:21 | the text after the first underscore of `evaluation_` + t is t |
| Sheets.SaveAdvancesNumber | backend/app/blueprints/admin/sheets.py:17-23 | the next saved name is new to the folder and, once saved, the next number is one more |
| Sheets.ReadSavedImage | backend/app/blueprints/admin/sheets.py:87-95 | the file stays saved whatever happens after the write; 200 exactly when a reading comes back, naming the saved file |
| Sheets.RefusedUploadKeepsFolder | backend/app/blueprints/admin/sheets.py:73-80 | each missing or empty upload is refused with 400 and the folder unchanged, and a 400 with the folder unchanged happens only then |
| Sheets.AcceptedUploadSavesOnce | backend/app/blueprints/admin/sheets.py:81-95 | an upload past the guards adds exactly one new file, named with the next number, and a 200 reports the reading with that name |
| AdminMisc.AdminRequired | backend/app/blueprints/admin/misc.py:6-14 | the handler runs, with the same arguments and result, exactly for a string identity starting with `admin:`; otherwise 403 |
| AdminMisc.TokenRolesAtGuard | backend/app/blueprints/admin/misc.py:11-13 | an admin's token passes the guard and an evaluator's token is refused |
| AdminMisc.NonStringIdentityRefused | backend/app/blueprints/admin/misc.py:11-12 | a non-string identity is refused |
| AdminMisc.DistributeEndpoint | backend/app/blueprints/admin/misc.py:16-24 | 200 exactly when the distribution returns, after a complete distribution to the least-loaded evaluators; otherwise 500 with the text of the distribution's own failure, each failure under its own condition; the tables are untouched when a pre-check refuses and cleared when the per-work loop refuses |
| Router.Resolve | frontend/src/routes.js:1-70 | public routes are the login page and no route is both an admin and an evaluator route |
| Router.Guard | frontend/src/main.js:18-34 | every redirect goes to the login page or one of the two dashboards |
| Router.GuardRules | frontend/src/main.js:23-33 | each rule of the guard in its order: public and not-found pages proceed, no token goes to login, a role mismatch goes to the other dashboard, a match proceeds |
| Router.RedirectSettles | frontend/src/main.js:23-33 | for no token or a known role, navigation settles after at most one redirect |
| Router.RedirectsAlternate | frontend/src/main.js:29-32 | with a token and an unknown role, the two dashboards redirect to each other forever |
| BaseUrl.GetBaseURL | frontend/src/axios.js:4-14 | the host itself on port 5000 exactly for a private-network prefix, the local backend otherwise |
| BaseUrl.LoopbackNotPrivate | frontend/src/axios.js:5-7 | the loopback names do not match the pattern, so their own test changes nothing |
| BaseUrl.PrivatePrefixIsRfc1918 | frontend/src/axios.js:9-11 | the pattern matches exactly the names that start with a private block of RFC 1918 |
| BaseUrl.OutsideBlockNotMatched | frontend/src/axios.js:9-13 | a `172.` host with a two-digit second octet outside 16-31 goes to the local backend |
| BaseUrl.TenPrefixMatches | frontend/src/axios.js:9-11 | any name starting with `10.` is asked directly |

## Left out

- Database access, HTTP, JSON marshalling and Swagger documentation: each service reads a snapshot of the tables, or updates them through the `Database` and `Distributor` classes; transactions and commit order are modelled only where the distribution commits before its loop.
- Password hashing, JWT creation and decoding: the hash check is a function parameter, the new hash a value parameter, and the token identity a value.
- The Gemini call and PIL image decoding: the model's reply and the decoded image size are parameters (`AiService.Reply`, `Sheets.Image`); stripping code fences from the reply and `json.loads` are folded into the reply's shape.
- Writing the uploaded file and listing the upload folder: the folder is a sequence of file names; a failing write is not modelled.
- `random.choice` and `random.shuffle`: modelled as an arbitrary choice among the allowed outcomes, with no claim about the distribution of choices.
- `round(..., 1)` and `round(..., 2)`: percentages and averages are exact reals, so the podium sorts by the exact average rather than by the rounded one.
- EvaluationService.FindWorkBy: the id is found only when the JSON value is an integer; PostgreSQL would also cast a numeric string such as "3" or a whole float such as 3.0 to the id, and a non-numeric string makes the query fail with a server error (500), neither of which is modelled. A JSON `true` or `false` counts as the integer 1 or 0, as Python's `isinstance(..., int)` has it, so the model finds row 1 or 0; PostgreSQL refuses to compare an integer id with a boolean, so the source answers 500 unless that row is already in the session's identity map.
- EvaluationService.FindEvaluatorBy: as for `FindWorkBy`, a string or float evaluator id in the JSON body is treated as not found, where PostgreSQL would cast it or fail with a server error, and a boolean id finds row 1 or 0, where PostgreSQL fails with a server error (500).
- EvaluationService.CreateEvaluation: a JSON `true` criterion passes the validator (a `bool` is an `int` in Python, and 1 lies on the scale) and the model stores it as 1.0; in the source the boolean reaches the `Float` criterion columns of backend/app/models.py:40-44, PostgreSQL rejects it at commit and the request ends in a server error (500). That failure is not modelled.
- EvaluationService.CreateAiEvaluation: as for `CreateEvaluation`, a JSON `true` score is stored as 1.0 in the model, where the commit fails with a server error (500) in the source.
- EvaluatorEvaluations.SubmitEvaluation: a criterion sent as JSON `true` gives 201 and a stored evaluation with 1.0 in the model, where the commit fails with a server error (500) in the source; a boolean `work_id` finds row 1 or 0 as in `FindWorkBy`.
- EvaluationService.Percentage: states the exact ratio; the rounding to one decimal place is left out, as above.
- EvaluationService.CalculateWorkAverageScore: states the exact average; the rounding to two decimal places is left out, as above.
- Float criterion columns and JSON `NaN` or infinities: scores are reals or integers; JSON booleans are treated as the integers 1 and 0, and the commit failures they cause are left out (lines above).
- Characters beyond Latin-1: `strip`, `isspace`, `title()` and `ILIKE` are modelled for U+0000..U+00FF, except for the three letters of that range whose title case lies outside it (next line), and digit tests for ASCII digits only (a Unicode digit that `isdigit` accepts but `int()` rejects is outside the model).
- Auth.TitleChar: `Text.Title` leaves `ß`, `ÿ` and `µ` unchanged where they start a word, while Python's `.title()` turns them into `Ss`, U+0178 and U+039C; for names holding one of them at the start of a word, the length and upper-casing this lemma states (and so `Auth.SanitizeEvaluatorData` and `Auth.SanitizeIdempotent`) do not match Python.
- Form values of other types than strings in the registration and login forms: those forms are maps from keys to strings.
- `confirm_sheet` in backend/app/blueprints/admin/sheets.py: line 6 imports `validate_manual_evaluation_data` and `create_manual_evaluation`, which the evaluation service does not define. The `ImportError` propagates through `from .sheets import *` (backend/app/blueprints/admin/__init__.py:7) and `from .blueprints.admin import admin_bp` (backend/app/__init__.py:17), so `create_app()` raises and the whole backend fails to start as written: no endpoint is reachable, `process_sheet_ai`, `/works/distribute` and the evaluator blueprint included. The model treats every endpoint as if that import resolved, and models only the AI-path validator and insert.
- `get_evaluator_evaluations`, `get_work_evaluations` and `get_evaluation_statistics` in the evaluation service: read-only reports that no endpoint of the core calls; the evaluator blueprint's own listings are modelled instead.
- `authenticate_evaluator`, `authenticate_admin`, `check_evaluator_exists`, `get_evaluator_by_id` and `get_admin_by_id`: lookups through the database session and the hash check; their decisions sit in the login blueprint, which is not part of this model.
- `int(get_jwt_identity())` on an admin's identity in the evaluator endpoints: the evaluator id is an integer parameter.
- New row ids are one past the largest stored id, standing for the database's sequence.
- The `workload` attribute is not a stored column: within one distribution it behaves as a counter and the model keeps it in the evaluator record.
- The route table is matched on exact paths: vue-router's trailing-slash and case-insensitive matching and the `/admin` parent path itself are outside the model; `auth.checkAuth()` and the Pinia store, the axios interceptors and `localStorage` are left out.
- Legacy blueprint modules (`backend/app/blueprints/admin.py`, `evaluator.py`, `auth.py`), which the packages of the same name shadow, the commented-out OCR and CSV services, seeding scripts and configuration are not part of this model.

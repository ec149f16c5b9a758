/**
 * The evaluator's evaluation endpoints: submitting an evaluation of an
 * assigned work, listing one's own evaluations, and listing the evaluations
 * of a work. The handler receives the evaluator id decoded from the access
 * token.
 */
module EvaluatorEvaluations {
  import opened Wrappers
  import opened Models
  import opened Python
  import opened Text
  import opened EvaluationService

  /** A JSON reply with its status code, or an exception Flask turns into a 500 page. */
  datatype Outcome = Reply(status: int, msg: string) | Crashed

  /** The first criterion that is not an integer from 1 to 5, or 5 when all are. */
  function FirstNonGrade(c: seq<Value>): (k: nat)
    ensures k <= |c|
    ensures k < |c| ==> !IsGrade(c[k])
    ensures forall i :: 0 <= i < k ==> IsGrade(c[i])
  {
    if c == [] then 0
    else if !IsGrade(c[0]) then 0
    else 1 + FirstNonGrade(c[1..])
  }

  function GradeMessage(idx: nat): string {
    "Critério " + DecimalNat(idx) + " deve ser um número inteiro de 1 (Ruim) a 5 (Excelente)."
  }

  const Recorded: string := "Avaliação registrada com sucesso!"

  /**
   * `submit_evaluation`. The evaluator row is looked up but not checked: a token
   * whose evaluator no longer exists reaches `evaluator.works` on `None`.
   */
  function SubmitOutcome(s: Store, evaluatorId: int, data: Body): Outcome {
    var workId := Get(data, "work_id");
    var c := CriteriaOf(data);
    if !Truthy(workId) || !AllPresent(c) then Reply(400, "Dados obrigatórios faltando.")
    else if FirstNonGrade(c) < 5 then Reply(400, GradeMessage(FirstNonGrade(c) + 1))
    else
      match FindWorkBy(s.works, workId)
      case None => Reply(404, "Trabalho não encontrado.")
      case Some(w) =>
        if FindEvaluator(s.evaluators, evaluatorId).None? then Crashed
        else if w.id !in WorksOfEvaluator(s.links, evaluatorId) then Reply(403, "Você não está autorizado a avaliar este trabalho.")
        else if HasEvaluation(s.evaluations, evaluatorId, w.id) then Reply(409, "Você já avaliou este trabalho.")
        else Reply(201, Recorded)
  }

  /** The criteria loop of the handler, which answers for the first bad criterion. */
  method FirstBadCriterion(c: seq<Value>) returns (k: nat)
    ensures k == FirstNonGrade(c)
  {
    k := 0;
    while k < |c| && IsGrade(c[k])
      invariant k <= |c|
      invariant forall i :: 0 <= i < k ==> IsGrade(c[i])
    {
      k := k + 1;
    }
    NoEarlierNonGrade(c, k);
  }

  lemma {:induction false} NoEarlierNonGrade(c: seq<Value>, k: nat)
    requires k <= |c| && (k < |c| ==> !IsGrade(c[k]))
    requires forall i :: 0 <= i < k ==> IsGrade(c[i])
    ensures FirstNonGrade(c) == k
  {
  }

  /** `submit_evaluation`: a 201 inserts exactly the new row (tag `online`, the column default); every other outcome changes nothing. */
  method SubmitEvaluation(db: Database, evaluatorId: int, data: Body) returns (r: Outcome)
    modifies db`evaluations
    ensures r == SubmitOutcome(old(db.Snapshot()), evaluatorId, data)
    ensures r == Reply(201, Recorded) ==>
      IsInt(Get(data, "work_id")) &&
      db.evaluations == old(db.evaluations) +
        [NewEvaluation(old(db.evaluations), evaluatorId, IntOf(Get(data, "work_id")), CriteriaOf(data), OnlineMethod)]
    ensures r != Reply(201, Recorded) ==> db.evaluations == old(db.evaluations)
  {
    var workId := Get(data, "work_id");
    var criteria := CriteriaOf(data);
    if !Truthy(workId) || !AllPresent(criteria) {
      return Reply(400, "Dados obrigatórios faltando.");
    }
    var bad := FirstBadCriterion(criteria);
    if bad < 5 {
      return Reply(400, GradeMessage(bad + 1));
    }
    var work := FindWorkBy(db.works, workId);
    if work.None? {
      return Reply(404, "Trabalho não encontrado.");
    }
    var evaluator := FindEvaluator(db.evaluators, evaluatorId);
    if evaluator.None? {
      return Crashed;
    }
    if work.value.id !in WorksOfEvaluator(db.links, evaluatorId) {
      return Reply(403, "Você não está autorizado a avaliar este trabalho.");
    }
    if HasEvaluation(db.evaluations, evaluatorId, work.value.id) {
      return Reply(409, "Você já avaliou este trabalho.");
    }
    var e := CreateEvaluation(db, evaluatorId, work.value.id, criteria, OnlineMethod);
    return Reply(201, Recorded);
  }

  /**
   * For an evaluator that exists, the handler records an evaluation exactly
   * when the service's validator accepts the same request.
   */
  lemma {:induction false} SubmitAgreesWithValidator(s: Store, evaluatorId: int, data: Body)
    requires IsEvaluatorId(s.evaluators, evaluatorId)
    ensures SubmitOutcome(s, evaluatorId, data) == Reply(201, Recorded) <==>
      ValidateEvaluationDataOf(s, data, Int(evaluatorId), Get(data, "work_id")).Accepted?
  {
    EvaluationDataAccepted(s, data, Int(evaluatorId), Get(data, "work_id"));
    var w := FindWorkBy(s.works, Get(data, "work_id"));
    if w.Some? {
      WorksOfEvaluatorMembership(s.links, w.value.id, evaluatorId);
    }
  }

  /** A token for an evaluator that no longer exists makes a valid submission of an existing work fail with a server error. */
  lemma {:induction false} MissingEvaluatorCrashes(s: Store, evaluatorId: int, data: Body)
    requires !IsEvaluatorId(s.evaluators, evaluatorId)
    requires Truthy(Get(data, "work_id")) && forall i :: 0 <= i < 5 ==> IsGrade(CriteriaOf(data)[i])
    requires FindWorkBy(s.works, Get(data, "work_id")).Some?
    ensures SubmitOutcome(s, evaluatorId, data) == Crashed
  {
    var c := CriteriaOf(data);
    assert AllPresent(c) by {
      forall i | 0 <= i < |c| ensures c[i] != Null {
        assert IsGrade(c[i]);
      }
    }
    NoEarlierNonGrade(c, 5);
  }

  /** Submitting the same evaluation again, after the first was recorded, is refused with 409. */
  lemma {:induction false} ResubmissionConflicts(s: Store, evaluatorId: int, data: Body)
    requires SubmitOutcome(s, evaluatorId, data) == Reply(201, Recorded)
    ensures var w := FindWorkBy(s.works, Get(data, "work_id"));
      w.Some? && (forall i :: 0 <= i < 5 ==> IsNumber(CriteriaOf(data)[i])) &&
      var s' := s.(evaluations := s.evaluations + [NewEvaluation(s.evaluations, evaluatorId, w.value.id, CriteriaOf(data), OnlineMethod)]);
      SubmitOutcome(s', evaluatorId, data) == Reply(409, "Você já avaliou este trabalho.")
  {
    var w := FindWorkBy(s.works, Get(data, "work_id")).value;
    var evals' := s.evaluations + [NewEvaluation(s.evaluations, evaluatorId, w.id, CriteriaOf(data), OnlineMethod)];
    assert evals'[|evals'| - 1].workId == w.id && evals'[|evals'| - 1].evaluatorId == evaluatorId;
  }

  // ---------------------------------------------------------------------------
  // Listings
  // ---------------------------------------------------------------------------

  /** `Evaluation.query.filter_by(evaluator_id=...)`: the caller's evaluations, in table order. */
  function EvaluationsBy(evals: seq<Evaluation>, evaluatorId: int): (r: seq<Evaluation>)
    ensures |r| <= |evals|
  {
    if evals == [] then []
    else
      var rest := EvaluationsBy(evals[..|evals| - 1], evaluatorId);
      if evals[|evals| - 1].evaluatorId == evaluatorId then rest + [evals[|evals| - 1]] else rest
  }

  lemma {:induction false} EvaluationsByMembership(evals: seq<Evaluation>, evaluatorId: int, e: Evaluation)
    ensures e in EvaluationsBy(evals, evaluatorId) <==> e in evals && e.evaluatorId == evaluatorId
  {
    if evals != [] {
      EvaluationsByMembership(evals[..|evals| - 1], evaluatorId, e);
      assert evals == evals[..|evals| - 1] + [evals[|evals| - 1]];
    }
  }

  /** An entry of `list_my_evaluations`. */
  datatype MyEntry = MyEntry(
    id: int,
    workId: int,
    workTitle: string,
    criterion1: real,
    criterion2: real,
    criterion3: real,
    criterion4: real,
    criterion5: real,
    tag: string)

  /** The entry of one evaluation; a work that is gone shows a placeholder title. */
  function MyEntryOf(works: seq<Work>, e: Evaluation): MyEntry {
    var title := match FindWork(works, e.workId) case Some(w) => w.title case None => "Trabalho não encontrado";
    MyEntry(e.id, e.workId, title, e.criterion1, e.criterion2, e.criterion3, e.criterion4, e.criterion5, e.tag)
  }

  /** `list_my_evaluations`: one entry per evaluation of the caller, in table order. */
  method ListMyEvaluations(db: Database, evaluatorId: int) returns (result: seq<MyEntry>)
    ensures var mine := EvaluationsBy(db.evaluations, evaluatorId);
      |result| == |mine| && forall i :: 0 <= i < |mine| ==> result[i] == MyEntryOf(db.works, mine[i])
  {
    var mine := EvaluationsBy(db.evaluations, evaluatorId);
    result := [];
    for i := 0 to |mine|
      invariant |result| == i
      invariant forall j :: 0 <= j < i ==> result[j] == MyEntryOf(db.works, mine[j])
    {
      result := result + [MyEntryOf(db.works, mine[i])];
    }
  }

  /** The entries name the caller's evaluations and nobody else's, and carry the title of the work while it exists. */
  lemma {:induction false} MyEntriesMeaning(s: Store, evaluatorId: int, e: Evaluation)
    ensures e in EvaluationsBy(s.evaluations, evaluatorId) <==> e in s.evaluations && e.evaluatorId == evaluatorId
    ensures var entry := MyEntryOf(s.works, e);
      entry.id == e.id && entry.workId == e.workId && entry.tag == e.tag &&
      (IsWorkId(s.works, e.workId) ==> exists w :: w in s.works && w.id == e.workId && entry.workTitle == w.title) &&
      (!IsWorkId(s.works, e.workId) ==> entry.workTitle == "Trabalho não encontrado")
  {
    EvaluationsByMembership(s.evaluations, evaluatorId, e);
  }

  /** An entry of `list_evaluations_for_work`; it carries no `method` tag. */
  datatype WorkEntry = WorkEntry(
    id: int,
    evaluatorId: int,
    criterion1: real,
    criterion2: real,
    criterion3: real,
    criterion4: real,
    criterion5: real)

  function WorkEntryOf(e: Evaluation): WorkEntry {
    WorkEntry(e.id, e.evaluatorId, e.criterion1, e.criterion2, e.criterion3, e.criterion4, e.criterion5)
  }

  /** `list_evaluations_for_work`: one entry per evaluation of the work, in table order, whoever asks. */
  method ListEvaluationsForWork(db: Database, workId: int) returns (result: seq<WorkEntry>)
    ensures var theirs := EvaluationsOf(db.evaluations, workId);
      |result| == |theirs| && forall i :: 0 <= i < |theirs| ==> result[i] == WorkEntryOf(theirs[i])
  {
    var theirs := EvaluationsOf(db.evaluations, workId);
    result := [];
    for i := 0 to |theirs|
      invariant |result| == i
      invariant forall j :: 0 <= j < i ==> result[j] == WorkEntryOf(theirs[j])
    {
      result := result + [WorkEntryOf(theirs[i])];
    }
  }
}

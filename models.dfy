/**
 * The entity schema: admins, evaluators, works, the work/evaluator
 * association table and evaluations, with the constraints the schema
 * declares (primary keys, unique columns, non-null foreign keys).
 */
module Models {
  import opened Wrappers

  /** The `method` tag of a self-service submission (the column default). */
  const OnlineMethod: string := "online"
  /** The `method` tag of an evaluation transcribed from a sheet by the AI reader. */
  const AiProcessedMethod: string := "ai_processed"

  datatype Admin = Admin(id: int, login: string, passwordHash: string, name: string)

  /**
   * An evaluator. `subareas` is free text and is never read by the distribution.
   * `workload` is the load counter the distribution resets and increments.
   */
  datatype Evaluator = Evaluator(
    id: int,
    name: string,
    siapeOrCpf: string,
    birthdate: string,
    passwordHash: Option<string>,
    area: string,
    subareas: Option<string>,
    workload: int)

  /** A submitted work; `kind` is the `type` column ('poster_banner' or 'oral_presentation'). */
  datatype Work = Work(
    id: int,
    title: string,
    authors: string,
    advisor: string,
    kind: string,
    area: string,
    subarea: string)

  /** An evaluation: five criterion scores (Float columns), a `method` tag (`tag`) and two non-null references. */
  datatype Evaluation = Evaluation(
    id: int,
    criterion1: real,
    criterion2: real,
    criterion3: real,
    criterion4: real,
    criterion5: real,
    tag: string,
    evaluatorId: int,
    workId: int)

  /** A row of the association table: evaluator `evaluatorId` is assigned to work `workId`. */
  datatype Link = Link(workId: int, evaluatorId: int)

  /** The contents of every table; the order of a sequence is the order rows are read back in. */
  datatype Store = Store(
    admins: seq<Admin>,
    evaluators: seq<Evaluator>,
    works: seq<Work>,
    links: seq<Link>,
    evaluations: seq<Evaluation>)

  /** A freshly registered evaluator: no password yet and the load counter at its default 0. */
  function NewEvaluator(id: int, name: string, siapeOrCpf: string, birthdate: string, area: string, subareas: string): (e: Evaluator)
    ensures e.workload == 0 && e.passwordHash == None
    ensures e.id == id && e.siapeOrCpf == siapeOrCpf && e.birthdate == birthdate && e.area == area
  {
    Evaluator(id, name, siapeOrCpf, birthdate, None, area, Some(subareas), 0)
  }

  /** The sum of the five criteria. */
  function ScoreSum(e: Evaluation): real {
    e.criterion1 + e.criterion2 + e.criterion3 + e.criterion4 + e.criterion5
  }

  predicate IsWorkId(works: seq<Work>, id: int) {
    exists i :: 0 <= i < |works| && works[i].id == id
  }

  predicate IsEvaluatorId(evaluators: seq<Evaluator>, id: int) {
    exists i :: 0 <= i < |evaluators| && evaluators[i].id == id
  }

  /** Primary keys and the unique `login` column of Admin. */
  predicate AdminsValid(admins: seq<Admin>) {
    forall i, j :: 0 <= i < j < |admins| ==> admins[i].id != admins[j].id && admins[i].login != admins[j].login
  }

  /** Primary keys and the unique, non-null `siape_or_cpf` column of Evaluator. */
  predicate EvaluatorsValid(evaluators: seq<Evaluator>) {
    forall i, j :: 0 <= i < j < |evaluators| ==>
      evaluators[i].id != evaluators[j].id && evaluators[i].siapeOrCpf != evaluators[j].siapeOrCpf
  }

  predicate WorksValid(works: seq<Work>) {
    forall i, j :: 0 <= i < j < |works| ==> works[i].id != works[j].id
  }

  /** The association table's primary key is (work_id, evaluator_id) and both columns are foreign keys. */
  predicate LinksValid(links: seq<Link>, works: seq<Work>, evaluators: seq<Evaluator>) {
    (forall i, j :: 0 <= i < j < |links| ==> links[i] != links[j]) &&
    (forall i :: 0 <= i < |links| ==> IsWorkId(works, links[i].workId) && IsEvaluatorId(evaluators, links[i].evaluatorId))
  }

  /** Evaluation ids are unique and both references name existing rows; nothing makes a (evaluator, work) pair unique. */
  predicate EvaluationsValid(evaluations: seq<Evaluation>, works: seq<Work>, evaluators: seq<Evaluator>) {
    (forall i, j :: 0 <= i < j < |evaluations| ==> evaluations[i].id != evaluations[j].id) &&
    (forall i :: 0 <= i < |evaluations| ==>
      IsWorkId(works, evaluations[i].workId) && IsEvaluatorId(evaluators, evaluations[i].evaluatorId))
  }

  predicate StoreValid(s: Store) {
    AdminsValid(s.admins) && EvaluatorsValid(s.evaluators) && WorksValid(s.works) &&
    LinksValid(s.links, s.works, s.evaluators) && EvaluationsValid(s.evaluations, s.works, s.evaluators)
  }

  /** `Work.query.get(id)`. */
  function FindWork(works: seq<Work>, id: int): (r: Option<Work>)
    ensures r.Some? ==> r.value in works && r.value.id == id
    ensures r.None? <==> !IsWorkId(works, id)
  {
    if works == [] then None
    else if works[0].id == id then Some(works[0])
    else
      var r := FindWork(works[1..], id);
      assert IsWorkId(works, id) ==> works[0].id == id || IsWorkId(works[1..], id) by {
        if IsWorkId(works, id) {
          var i :| 0 <= i < |works| && works[i].id == id;
          if i > 0 { assert works[1..][i - 1].id == id; }
        }
      }
      r
  }

  /** `Evaluator.query.get(id)`. */
  function FindEvaluator(evaluators: seq<Evaluator>, id: int): (r: Option<Evaluator>)
    ensures r.Some? ==> r.value in evaluators && r.value.id == id
    ensures r.None? <==> !IsEvaluatorId(evaluators, id)
  {
    if evaluators == [] then None
    else if evaluators[0].id == id then Some(evaluators[0])
    else
      var r := FindEvaluator(evaluators[1..], id);
      assert IsEvaluatorId(evaluators, id) ==> evaluators[0].id == id || IsEvaluatorId(evaluators[1..], id) by {
        if IsEvaluatorId(evaluators, id) {
          var i :| 0 <= i < |evaluators| && evaluators[i].id == id;
          if i > 0 { assert evaluators[1..][i - 1].id == id; }
        }
      }
      r
  }

  /** `work.evaluators` as ids: the evaluators linked to `workId`, in link order. */
  function EvaluatorsOfWork(links: seq<Link>, workId: int): (r: seq<int>)
    ensures |r| <= |links|
  {
    if links == [] then []
    else
      var rest := EvaluatorsOfWork(links[..|links| - 1], workId);
      var l := links[|links| - 1];
      if l.workId == workId then rest + [l.evaluatorId] else rest
  }

  /** `evaluator.works` as ids: the works linked to `evaluatorId`, in link order. */
  function WorksOfEvaluator(links: seq<Link>, evaluatorId: int): (r: seq<int>)
    ensures |r| <= |links|
  {
    if links == [] then []
    else
      var rest := WorksOfEvaluator(links[..|links| - 1], evaluatorId);
      var l := links[|links| - 1];
      if l.evaluatorId == evaluatorId then rest + [l.workId] else rest
  }

  /** Both views of the relation come from the same rows. */
  lemma {:induction false} EvaluatorsOfWorkMembership(links: seq<Link>, workId: int, evaluatorId: int)
    ensures evaluatorId in EvaluatorsOfWork(links, workId) <==> Link(workId, evaluatorId) in links
  {
    if links != [] {
      EvaluatorsOfWorkMembership(links[..|links| - 1], workId, evaluatorId);
      assert links == links[..|links| - 1] + [links[|links| - 1]];
    }
  }

  lemma {:induction false} WorksOfEvaluatorMembership(links: seq<Link>, workId: int, evaluatorId: int)
    ensures workId in WorksOfEvaluator(links, evaluatorId) <==> Link(workId, evaluatorId) in links
  {
    if links != [] {
      WorksOfEvaluatorMembership(links[..|links| - 1], workId, evaluatorId);
      assert links == links[..|links| - 1] + [links[|links| - 1]];
    }
  }

  /** `Evaluator.works` and `Work.evaluators` are two views of one relation. */
  lemma {:induction false} LinkViewsAgree(links: seq<Link>, workId: int, evaluatorId: int)
    ensures workId in WorksOfEvaluator(links, evaluatorId) <==> evaluatorId in EvaluatorsOfWork(links, workId)
  {
    EvaluatorsOfWorkMembership(links, workId, evaluatorId);
    WorksOfEvaluatorMembership(links, workId, evaluatorId);
  }

  /** The primary key of the association table: an evaluator is listed at most once for a work. */
  lemma {:induction false} EvaluatorsOfWorkDistinct(links: seq<Link>, workId: int)
    requires forall i, j :: 0 <= i < j < |links| ==> links[i] != links[j]
    ensures forall i, j :: 0 <= i < j < |EvaluatorsOfWork(links, workId)| ==>
      EvaluatorsOfWork(links, workId)[i] != EvaluatorsOfWork(links, workId)[j]
  {
    if links != [] {
      var init := links[..|links| - 1];
      var l := links[|links| - 1];
      EvaluatorsOfWorkDistinct(init, workId);
      if l.workId == workId {
        EvaluatorsOfWorkMembership(init, workId, l.evaluatorId);
        assert l !in init by {
          forall k | 0 <= k < |init| ensures init[k] != l {
            assert init[k] == links[k] && k < |links| - 1;
          }
        }
      }
    }
  }

  /**
   * Two evaluations of the same work by the same evaluator are a valid store:
   * one evaluation per pair is enforced only by the checks before an insert.
   */
  lemma {:induction false} DuplicatePairAllowedByStore()
    ensures var ev := NewEvaluator(1, "Ana", "1234567", "01011980", "Ciências Agrárias", "");
      var w := Work(7, "Solo", "Bia", "Caio", "poster_banner", "Ciências Agrárias", "Zootecnia e Produção Animal");
      var e1 := Evaluation(1, 5.0, 5.0, 5.0, 5.0, 5.0, OnlineMethod, 1, 7);
      var e2 := Evaluation(2, 1.0, 1.0, 1.0, 1.0, 1.0, OnlineMethod, 1, 7);
      StoreValid(Store([], [ev], [w], [Link(7, 1)], [e1, e2])) && e1.evaluatorId == e2.evaluatorId && e1.workId == e2.workId
  {
    var ev := NewEvaluator(1, "Ana", "1234567", "01011980", "Ciências Agrárias", "");
    var w := Work(7, "Solo", "Bia", "Caio", "poster_banner", "Ciências Agrárias", "Zootecnia e Produção Animal");
    assert IsWorkId([w], 7) by { assert [w][0].id == 7; }
    assert IsEvaluatorId([ev], 1) by { assert [ev][0].id == 1; }
  }

  /** The database session: the tables the services read and write. */
  class Database {
    var admins: seq<Admin>
    var evaluators: seq<Evaluator>
    var works: seq<Work>
    var links: seq<Link>
    var evaluations: seq<Evaluation>

    /** The tables as one value. */
    function Snapshot(): (s: Store)
      reads this
      ensures s == Store(admins, evaluators, works, links, evaluations)
    {
      Store(admins, evaluators, works, links, evaluations)
    }

    ghost predicate Valid()
      reads this
    {
      StoreValid(Snapshot())
    }

    constructor (s: Store)
      requires StoreValid(s)
      ensures Valid() && Snapshot() == s
    {
      admins, evaluators, works, links, evaluations := s.admins, s.evaluators, s.works, s.links, s.evaluations;
    }
  }
}

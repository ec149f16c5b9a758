/**
 * The evaluation service: the progress report of the admin panel with its
 * pagination, the per-area podium, the two validators of a new evaluation
 * and the two inserts that record one.
 *
 * Percentages and averages are exact rationals; the service rounds them
 * for display (to one and two decimals), which the model leaves out.
 */
module EvaluationService {
  import opened Wrappers
  import opened Models
  import opened Python
  import opened Text

  // ---------------------------------------------------------------------------
  // Reading the tables
  // ---------------------------------------------------------------------------

  /** `[e for e in evaluations if e.work_id == work_id]`. */
  function EvaluationsOf(evals: seq<Evaluation>, workId: int): (r: seq<Evaluation>)
    ensures |r| <= |evals|
  {
    if evals == [] then []
    else
      var rest := EvaluationsOf(evals[..|evals| - 1], workId);
      if evals[|evals| - 1].workId == workId then rest + [evals[|evals| - 1]] else rest
  }

  /** The evaluations of a work are exactly the rows that reference it. */
  lemma {:induction false} EvaluationsOfMembership(evals: seq<Evaluation>, workId: int, e: Evaluation)
    ensures e in EvaluationsOf(evals, workId) <==> e in evals && e.workId == workId
  {
    if evals != [] {
      EvaluationsOfMembership(evals[..|evals| - 1], workId, e);
      assert evals == evals[..|evals| - 1] + [evals[|evals| - 1]];
    }
  }

  /** `{e.evaluator_id for e in work_evaluations}`. */
  function EvaluatedIds(evals: seq<Evaluation>): set<int> {
    set e | e in evals :: e.evaluatorId
  }

  /** The evaluator rows `ids` name, in order; an id without a row is skipped. */
  function Resolve(evaluators: seq<Evaluator>, ids: seq<int>): (r: seq<Evaluator>)
    ensures |r| <= |ids|
  {
    if ids == [] then []
    else
      var rest := Resolve(evaluators, ids[..|ids| - 1]);
      match FindEvaluator(evaluators, ids[|ids| - 1])
      case Some(e) => rest + [e]
      case None => rest
  }

  /** `work.evaluators`: the evaluator rows linked to the work, in link order. */
  function AssignedTo(s: Store, workId: int): seq<Evaluator> {
    Resolve(s.evaluators, EvaluatorsOfWork(s.links, workId))
  }

  /** With unique ids, looking up the id of a row finds that row. */
  lemma {:induction false} FindEvaluatorOwnId(evaluators: seq<Evaluator>, e: Evaluator)
    requires EvaluatorsValid(evaluators) && e in evaluators
    ensures FindEvaluator(evaluators, e.id) == Some(e)
  {
    if evaluators[0] != e {
      assert e in evaluators[1..];
      var i :| 0 <= i < |evaluators[1..]| && evaluators[1..][i] == e;
      assert evaluators[0].id != evaluators[i + 1].id;
      assert EvaluatorsValid(evaluators[1..]) by {
        forall i, j | 0 <= i < j < |evaluators[1..]|
          ensures evaluators[1..][i].id != evaluators[1..][j].id && evaluators[1..][i].siapeOrCpf != evaluators[1..][j].siapeOrCpf
        {
          assert evaluators[1..][i] == evaluators[i + 1] && evaluators[1..][j] == evaluators[j + 1];
        }
      }
      FindEvaluatorOwnId(evaluators[1..], e);
    }
  }

  lemma {:induction false} ResolveMembership(evaluators: seq<Evaluator>, ids: seq<int>, e: Evaluator)
    requires EvaluatorsValid(evaluators)
    ensures e in Resolve(evaluators, ids) <==> e in evaluators && e.id in ids
  {
    if ids != [] {
      var init, last := ids[..|ids| - 1], ids[|ids| - 1];
      ResolveMembership(evaluators, init, e);
      assert ids == init + [last];
      if e in evaluators {
        FindEvaluatorOwnId(evaluators, e);
      }
    }
  }

  /** The evaluators of `work.evaluators` are exactly the stored evaluators linked to the work. */
  lemma {:induction false} AssignedToMembership(s: Store, workId: int, e: Evaluator)
    requires EvaluatorsValid(s.evaluators)
    ensures e in AssignedTo(s, workId) <==> e in s.evaluators && Link(workId, e.id) in s.links
  {
    ResolveMembership(s.evaluators, EvaluatorsOfWork(s.links, workId), e);
    EvaluatorsOfWorkMembership(s.links, workId, e.id);
  }

  /** Every link names a stored evaluator, so `work.evaluators` has one entry per link. */
  lemma {:induction false} AssignedToCount(s: Store, workId: int)
    requires forall i :: 0 <= i < |s.links| ==> IsEvaluatorId(s.evaluators, s.links[i].evaluatorId)
    ensures |AssignedTo(s, workId)| == |EvaluatorsOfWork(s.links, workId)|
  {
    var ids := EvaluatorsOfWork(s.links, workId);
    forall id | id in ids ensures Link(workId, id) in s.links {
      EvaluatorsOfWorkMembership(s.links, workId, id);
    }
    ResolveCount(s.evaluators, ids, s.links, workId);
  }

  lemma {:induction false} ResolveCount(evaluators: seq<Evaluator>, ids: seq<int>, links: seq<Link>, workId: int)
    requires forall i :: 0 <= i < |links| ==> IsEvaluatorId(evaluators, links[i].evaluatorId)
    requires forall id :: id in ids ==> Link(workId, id) in links
    ensures |Resolve(evaluators, ids)| == |ids|
  {
    if ids != [] {
      var last := ids[|ids| - 1];
      ResolveCount(evaluators, ids[..|ids| - 1], links, workId);
      assert Link(workId, last) in links;
      var k :| 0 <= k < |links| && links[k] == Link(workId, last);
      assert IsEvaluatorId(evaluators, links[k].evaluatorId);
    }
  }

  // ---------------------------------------------------------------------------
  // Progress report
  // ---------------------------------------------------------------------------

  /** An entry of `pending_evaluators`. */
  datatype PendingEvaluator = PendingEvaluator(id: int, name: string, siapeOrCpf: string)

  function PendingEntry(e: Evaluator): PendingEvaluator {
    PendingEvaluator(e.id, e.name, e.siapeOrCpf)
  }

  /** The linked evaluators whose id has no evaluation yet, in assignment order. */
  function PendingOf(linked: seq<Evaluator>, evaluated: set<int>): (r: seq<PendingEvaluator>)
    ensures |r| <= |linked|
  {
    if linked == [] then []
    else
      var rest := PendingOf(linked[..|linked| - 1], evaluated);
      var e := linked[|linked| - 1];
      if e.id !in evaluated then rest + [PendingEntry(e)] else rest
  }

  /** A pending entry is exactly a linked evaluator who has not evaluated the work. */
  lemma {:induction false} PendingOfMembership(linked: seq<Evaluator>, evaluated: set<int>, p: PendingEvaluator)
    ensures p in PendingOf(linked, evaluated) <==>
      exists e :: e in linked && e.id !in evaluated && p == PendingEntry(e)
  {
    if linked != [] {
      var init, last := linked[..|linked| - 1], linked[|linked| - 1];
      PendingOfMembership(init, evaluated, p);
      assert linked == init + [last];
    }
  }

  /** The pending loop of the progress report. */
  method PendingEvaluators(linked: seq<Evaluator>, evaluated: set<int>) returns (pending: seq<PendingEvaluator>)
    ensures pending == PendingOf(linked, evaluated)
  {
    pending := [];
    for i := 0 to |linked|
      invariant pending == PendingOf(linked[..i], evaluated)
    {
      assert linked[..i + 1][..i] == linked[..i];
      if linked[i].id !in evaluated {
        pending := pending + [PendingEntry(linked[i])];
      }
    }
    assert linked[..|linked|] == linked;
  }

  /** One entry of `works_progress`. */
  datatype WorkProgress = WorkProgress(
    workId: int,
    title: string,
    area: string,
    subarea: string,
    totalEvaluators: nat,
    completed: nat,
    pending: int,
    percentage: real,
    pendingEvaluators: seq<PendingEvaluator>)

  /** `part / whole * 100`, and 0 when nothing is expected. */
  function Percentage(part: nat, whole: nat): (p: real)
    ensures whole == 0 ==> p == 0.0
    ensures whole > 0 ==> p * whole as real == part as real * 100.0
  {
    if whole == 0 then 0.0 else (part as real / whole as real) * 100.0
  }

  /** The progress entry of one work. */
  function ProgressOf(s: Store, w: Work): WorkProgress {
    var we := EvaluationsOf(s.evaluations, w.id);
    var linked := AssignedTo(s, w.id);
    WorkProgress(w.id, w.title, w.area, w.subarea, |linked|, |we|, |linked| - |we|,
      Percentage(|we|, |linked|), PendingOf(linked, EvaluatedIds(we)))
  }

  /** The entries of all works, in the order the works are read. */
  function ProgressList(s: Store, ws: seq<Work>): (r: seq<WorkProgress>)
    ensures |r| == |ws|
    ensures forall i :: 0 <= i < |ws| ==> r[i] == ProgressOf(s, ws[i])
  {
    if ws == [] then [] else ProgressList(s, ws[..|ws| - 1]) + [ProgressOf(s, ws[|ws| - 1])]
  }

  /** `sum(len(work.evaluators) for work in works)`. */
  function ExpectedTotal(s: Store, ws: seq<Work>): nat {
    if ws == [] then 0 else ExpectedTotal(s, ws[..|ws| - 1]) + |AssignedTo(s, ws[|ws| - 1].id)|
  }

  datatype OverallStats = OverallStats(totalWorks: nat, totalEvaluations: nat, totalExpected: nat, overallProgress: real)

  datatype Pagination = Pagination(
    page: int,
    perPage: int,
    pages: int,
    total: nat,
    hasPrev: bool,
    hasNext: bool,
    prevNum: Option<int>,
    nextNum: Option<int>)

  datatype ProgressReport = ProgressReport(stats: OverallStats, works: seq<WorkProgress>, pagination: Pagination)

  /** `items[(page - 1) * per_page:(page - 1) * per_page + per_page]` with Python's slicing. */
  function PageOf<T>(items: seq<T>, page: int, perPage: int): seq<T> {
    Slice(items, (page - 1) * perPage, (page - 1) * perPage + perPage)
  }

  /** The `pagination` object for `n` entries; `//` is floor division, which `/` is for a positive divisor. */
  function PaginationOf(n: nat, page: int, perPage: int): Pagination
    requires perPage > 0
  {
    var end := (page - 1) * perPage + perPage;
    Pagination(page, perPage, (n + perPage - 1) / perPage, n, page > 1, end < n,
      if page > 1 then Some(page - 1) else None,
      if end < n then Some(page + 1) else None)
  }

  /** The whole report for the tables in `s`. */
  function ProgressReportOf(s: Store, page: int, perPage: int): ProgressReport
    requires perPage > 0
  {
    var all := ProgressList(s, s.works);
    var expected := ExpectedTotal(s, s.works);
    ProgressReport(
      OverallStats(|s.works|, |s.evaluations|, expected, Percentage(|s.evaluations|, expected)),
      PageOf(all, page, perPage),
      PaginationOf(|all|, page, perPage))
  }

  /** The body of the per-work loop: the entry of one work. */
  method WorkProgressEntry(s: Store, w: Work) returns (r: WorkProgress)
    ensures r == ProgressOf(s, w)
  {
    var we := EvaluationsOf(s.evaluations, w.id);
    var evaluated := EvaluatedIds(we);
    var linked := AssignedTo(s, w.id);
    var pending := PendingEvaluators(linked, evaluated);
    var percentage := 0.0;
    if |linked| > 0 {
      percentage := (|we| as real / |linked| as real) * 100.0;
    }
    r := WorkProgress(w.id, w.title, w.area, w.subarea, |linked|, |we|, |linked| - |we|, percentage, pending);
  }

  /** The per-work loop: one entry per work, in read order. */
  method WorkProgressEntries(s: Store, works: seq<Work>) returns (all: seq<WorkProgress>)
    ensures all == ProgressList(s, works)
  {
    all := [];
    for i := 0 to |works|
      invariant all == ProgressList(s, works[..i])
    {
      assert works[..i + 1][..i] == works[..i];
      var entry := WorkProgressEntry(s, works[i]);
      all := all + [entry];
    }
    assert works[..|works|] == works;
  }

  /**
   * `calculate_evaluation_progress`. The entries are collected in a dict keyed
   * by work id; ids are a primary key, so no entry overwrites another and the
   * dict's values are one entry per work in read order.
   */
  method CalculateEvaluationProgress(db: Database, page: int, perPage: int) returns (r: ProgressReport)
    requires perPage > 0 && WorksValid(db.works)
    ensures r == ProgressReportOf(db.Snapshot(), page, perPage)
  {
    r := ProgressReportFor(db.Snapshot(), page, perPage);
  }

  /** The report computed over a snapshot of the tables. */
  method ProgressReportFor(s: Store, page: int, perPage: int) returns (r: ProgressReport)
    requires perPage > 0
    ensures r == ProgressReportOf(s, page, perPage)
  {
    var all := WorkProgressEntries(s, s.works);
    var expected := ExpectedTotal(s, s.works);
    var overall := 0.0;
    if expected > 0 {
      overall := (|s.evaluations| as real / expected as real) * 100.0;
    }
    var start := (page - 1) * perPage;
    var end := start + perPage;
    r := ProgressReport(
      OverallStats(|s.works|, |s.evaluations|, expected, overall),
      Slice(all, start, end),
      Pagination(page, perPage, (|all| + perPage - 1) / perPage, |all|, page > 1, end < |all|,
        if page > 1 then Some(page - 1) else None,
        if end < |all| then Some(page + 1) else None));
  }

  /** An entry counts the work's evaluators and evaluations and lists exactly the evaluators still to evaluate it. */
  lemma {:induction false} ProgressEntryMeaning(s: Store, w: Work, p: PendingEvaluator)
    requires StoreValid(s)
    ensures var r := ProgressOf(s, w);
      r.workId == w.id &&
      r.totalEvaluators == |EvaluatorsOfWork(s.links, w.id)| &&
      r.completed == |EvaluationsOf(s.evaluations, w.id)| &&
      r.pending == r.totalEvaluators - r.completed &&
      (p in r.pendingEvaluators <==>
        exists e :: e in s.evaluators && Link(w.id, e.id) in s.links && p == PendingEntry(e) &&
          forall x :: x in s.evaluations && x.workId == w.id ==> x.evaluatorId != e.id)
  {
    var we := EvaluationsOf(s.evaluations, w.id);
    var linked := AssignedTo(s, w.id);
    AssignedToCount(s, w.id);
    PendingOfMembership(linked, EvaluatedIds(we), p);
    forall e ensures (e in linked && e.id !in EvaluatedIds(we)) <==>
      (e in s.evaluators && Link(w.id, e.id) in s.links &&
        forall x :: x in s.evaluations && x.workId == w.id ==> x.evaluatorId != e.id)
    {
      AssignedToMembership(s, w.id, e);
      forall x ensures x in we <==> x in s.evaluations && x.workId == w.id {
        EvaluationsOfMembership(s.evaluations, w.id, x);
      }
    }
  }

  /**
   * `pending_evaluations` is not clamped: evaluations left over from an earlier
   * distribution still count as completed after the links were replaced, so
   * the number of pending evaluations can be negative.
   */
  lemma {:induction false} PendingCanBeNegative()
    ensures var ev := NewEvaluator(1, "Ana", "1234567", "01011980", "Ciências Agrárias", "");
      var w := Work(7, "Solo", "Bia", "Caio", "poster_banner", "Ciências Agrárias", "Zootecnia e Produção Animal");
      var s := Store([], [ev], [w], [], [Evaluation(1, 5.0, 5.0, 5.0, 5.0, 5.0, OnlineMethod, 1, 7)]);
      StoreValid(s) && ProgressOf(s, w).pending == -1 && ProgressOf(s, w).pendingEvaluators == []
  {
    var ev := NewEvaluator(1, "Ana", "1234567", "01011980", "Ciências Agrárias", "");
    var w := Work(7, "Solo", "Bia", "Caio", "poster_banner", "Ciências Agrárias", "Zootecnia e Produção Animal");
    var e := Evaluation(1, 5.0, 5.0, 5.0, 5.0, 5.0, OnlineMethod, 1, 7);
    assert IsWorkId([w], 7) by { assert [w][0].id == 7; }
    assert IsEvaluatorId([ev], 1) by { assert [ev][0].id == 1; }
    assert [e][..0] == [];
    assert EvaluationsOf([e], 7) == [e];
  }

  // ---------------------------------------------------------------------------
  // Pagination
  // ---------------------------------------------------------------------------

  /** `pages` is the ceiling of `total / per_page`. */
  lemma {:induction false} PagesIsCeiling(n: nat, page: int, perPage: int)
    requires perPage > 0
    ensures var pages := PaginationOf(n, page, perPage).pages;
      pages >= 0 && ((pages - 1) * perPage < n <= pages * perPage || (n == 0 && pages == 0))
  {
    var pages := (n + perPage - 1) / perPage;
    var q, m := (n + perPage - 1) / perPage, (n + perPage - 1) % perPage;
    assert n + perPage - 1 == q * perPage + m && 0 <= m < perPage;
  }

  /** From page 1 on, a page is the run of entries `(page - 1) * per_page` up to the next page, clipped to the list. */
  lemma {:induction false} PageContents<T>(items: seq<T>, page: int, perPage: int)
    requires perPage > 0 && page >= 1
    ensures var start := (page - 1) * perPage;
      PageOf(items, page, perPage) == items[Min(start, |items|)..Min(start + perPage, |items|)]
  {
    var start := (page - 1) * perPage;
    assert start >= 0 by {
      assert page - 1 >= 0;
    }
    SliceNonNegative(items, start, start + perPage);
  }

  /** Entry `i` is on page `i / per_page + 1`, at position `i % per_page`, and that page is at most `pages`. */
  lemma {:induction false} EntryPage<T>(items: seq<T>, perPage: int, i: nat)
    requires perPage > 0 && i < |items|
    ensures var page := i / perPage + 1;
      1 <= page <= PaginationOf(|items|, page, perPage).pages &&
      i % perPage < |PageOf(items, page, perPage)| && PageOf(items, page, perPage)[i % perPage] == items[i]
  {
    var page := i / perPage + 1;
    EntryOnPage(items, perPage, i, page, (page - 1) * perPage);
    EntryPageInRange(|items|, perPage, i, page);
  }

  lemma {:induction false} EntryOnPage<T>(items: seq<T>, perPage: int, i: nat, page: int, start: int)
    requires perPage > 0 && i < |items| && page == i / perPage + 1 && start == (page - 1) * perPage
    ensures i % perPage < |PageOf(items, page, perPage)| && PageOf(items, page, perPage)[i % perPage] == items[i]
  {
    var n := |items|;
    assert start == i / perPage * perPage;
    assert i == start + i % perPage;
    PageContents(items, page, perPage);
    assert Min(start, n) == start;
  }

  lemma {:induction false} EntryPageInRange(n: nat, perPage: int, i: nat, page: int)
    requires perPage > 0 && i < n && page == i / perPage + 1
    ensures 1 <= page <= (n + perPage - 1) / perPage
  {
    var q := i / perPage;
    assert i == q * perPage + i % perPage;
    assert page * perPage == q * perPage + perPage;
    DivAtLeast(n + perPage - 1, page, perPage);
  }

  /** `a / d >= b` when `a >= b * d`, for a positive divisor. */
  lemma {:induction false} DivAtLeast(a: int, b: int, d: int)
    requires d > 0 && a >= b * d
    ensures a / d >= b
  {
    var q, m := a / d, a % d;
    assert a == q * d + m && m < d;
    var k := b - q;
    assert b * d == q * d + k * d;
    assert k * d == (k - 1) * d + d;
    ProductSign(k - 1, d);
  }

  lemma {:induction false} ProductSign(x: int, y: int)
    requires y > 0
    ensures x >= 0 ==> x * y >= 0
  {
  }

  /** `has_next` holds exactly when some entry lies beyond the page, and `has_prev` when the page number exceeds 1. */
  lemma {:induction false} NeighbourFlags(n: nat, page: int, perPage: int)
    requires perPage > 0
    ensures var p := PaginationOf(n, page, perPage);
      (p.hasNext <==> page * perPage < n) && (p.hasPrev <==> page > 1) &&
      (p.nextNum.Some? <==> p.hasNext) && (p.prevNum.Some? <==> p.hasPrev)
  {
  }

  /**
   * The page number is not checked: page 0 is empty, and a negative page
   * counts blocks of `per_page` back from the end of the list.
   */
  lemma {:induction false} NonPositivePages<T>(items: seq<T>, page: int, perPage: int)
    requires perPage > 0 && page <= 0
    ensures page == 0 ==> PageOf(items, page, perPage) == []
    ensures page < 0 && (1 - page) * perPage <= |items| ==>
      PageOf(items, page, perPage) == items[|items| - (1 - page) * perPage..|items| + page * perPage]
  {
    var n := |items|;
    var start := (page - 1) * perPage;
    assert start + perPage == page * perPage;
    if page < 0 && (1 - page) * perPage <= n {
      assert -page * perPage > 0 by {
        assert -page >= 1;
      }
      assert -(n as int) <= start < 0;
    }
  }

  // ---------------------------------------------------------------------------
  // Average score
  // ---------------------------------------------------------------------------

  /** The sum of all criteria of all the evaluations. */
  function TotalScore(evals: seq<Evaluation>): real {
    if evals == [] then 0.0 else TotalScore(evals[..|evals| - 1]) + ScoreSum(evals[|evals| - 1])
  }

  /** `(average, total)` as `calculate_work_average_score` returns them: `(0, 0)` for no evaluations. */
  function AverageOf(evals: seq<Evaluation>): (real, real) {
    if evals == [] then (0.0, 0.0)
    else (TotalScore(evals) / (5 * |evals|) as real, TotalScore(evals))
  }

  /** `calculate_work_average_score`. */
  method CalculateWorkAverageScore(evals: seq<Evaluation>) returns (average: real, total: real)
    ensures (average, total) == AverageOf(evals)
  {
    if evals == [] {
      return 0.0, 0.0;
    }
    total := 0.0;
    for i := 0 to |evals|
      invariant total == TotalScore(evals[..i])
    {
      assert evals[..i + 1][..i] == evals[..i];
      total := total + ScoreSum(evals[i]);
    }
    assert evals[..|evals|] == evals;
    average := total / (5 * |evals|) as real;
  }

  /** Every criterion of `e` is on the 1 to 5 scale. */
  predicate OnScale(e: Evaluation) {
    1.0 <= e.criterion1 <= 5.0 && 1.0 <= e.criterion2 <= 5.0 && 1.0 <= e.criterion3 <= 5.0 &&
    1.0 <= e.criterion4 <= 5.0 && 1.0 <= e.criterion5 <= 5.0
  }

  lemma {:induction false} TotalScoreBounds(evals: seq<Evaluation>)
    requires forall i :: 0 <= i < |evals| ==> OnScale(evals[i])
    ensures 5.0 * |evals| as real <= TotalScore(evals) <= 25.0 * |evals| as real
  {
    if evals != [] {
      TotalScoreBounds(evals[..|evals| - 1]);
      assert OnScale(evals[|evals| - 1]);
    }
  }

  /** When every criterion is on the 1 to 5 scale, so is the average of a work with evaluations. */
  lemma {:induction false} AverageOnScale(evals: seq<Evaluation>)
    requires evals != [] && forall i :: 0 <= i < |evals| ==> OnScale(evals[i])
    ensures 1.0 <= AverageOf(evals).0 <= 5.0
    ensures AverageOf(evals).0 * (5 * |evals|) as real == AverageOf(evals).1
  {
    TotalScoreBounds(evals);
    RatioBounds(TotalScore(evals), (5 * |evals|) as real);
  }

  lemma {:induction false} RatioBounds(t: real, d: real)
    requires 0.0 < d && d <= t <= 5.0 * d
    ensures 1.0 <= t / d <= 5.0 && (t / d) * d == t
  {
  }

  // ---------------------------------------------------------------------------
  // Podium
  // ---------------------------------------------------------------------------

  /** An entry of `works_with_scores`: a work with at least one evaluation and its scores. */
  datatype Ranked = Ranked(work: Work, evaluationsCount: nat, average: real, total: real)

  /** The podium of one area. */
  datatype AreaPodium = AreaPodium(area: string, totalWorks: nat, evaluatedWorks: nat, podium: seq<Ranked>)

  /** The keys of `works_by_area`: each area once, in the order its first work is read. */
  function AreaOrder(ws: seq<Work>): seq<string> {
    if ws == [] then []
    else
      var rest := AreaOrder(ws[..|ws| - 1]);
      var a := ws[|ws| - 1].area;
      if a in rest then rest else rest + [a]
  }

  /** `works_by_area[area]`: the works of one area, in read order. */
  function WorksIn(ws: seq<Work>, area: string): (r: seq<Work>)
    ensures |r| <= |ws|
  {
    if ws == [] then []
    else
      var rest := WorksIn(ws[..|ws| - 1], area);
      if ws[|ws| - 1].area == area then rest + [ws[|ws| - 1]] else rest
  }

  lemma {:induction false} WorksInMembership(ws: seq<Work>, area: string, w: Work)
    ensures w in WorksIn(ws, area) <==> w in ws && w.area == area
  {
    if ws != [] {
      WorksInMembership(ws[..|ws| - 1], area, w);
      assert ws == ws[..|ws| - 1] + [ws[|ws| - 1]];
    }
  }

  /** An area is a key exactly when some work has it, and the keys are distinct. */
  lemma {:induction false} AreaOrderFacts(ws: seq<Work>, area: string)
    ensures area in AreaOrder(ws) <==> WorksIn(ws, area) != []
    ensures forall i, j :: 0 <= i < j < |AreaOrder(ws)| ==> AreaOrder(ws)[i] != AreaOrder(ws)[j]
  {
    if ws != [] {
      var init := ws[..|ws| - 1];
      AreaOrderFacts(init, area);
      AreaOrderFacts(init, ws[|ws| - 1].area);
    }
  }

  /** The entry of a work with evaluations. */
  function RankedFor(w: Work, evals: seq<Evaluation>): Ranked {
    var we := EvaluationsOf(evals, w.id);
    Ranked(w, |we|, AverageOf(we).0, AverageOf(we).1)
  }

  /** `works_with_scores` before sorting: the works that have evaluations, in read order. */
  function RankedOf(ws: seq<Work>, evals: seq<Evaluation>): (r: seq<Ranked>)
    ensures |r| <= |ws|
  {
    if ws == [] then []
    else
      var rest := RankedOf(ws[..|ws| - 1], evals);
      var w := ws[|ws| - 1];
      if EvaluationsOf(evals, w.id) != [] then rest + [RankedFor(w, evals)] else rest
  }

  /** The scored entries are exactly the works with at least one evaluation. */
  lemma {:induction false} RankedOfMembership(ws: seq<Work>, evals: seq<Evaluation>, r: Ranked)
    ensures r in RankedOf(ws, evals) <==>
      exists w :: w in ws && EvaluationsOf(evals, w.id) != [] && r == RankedFor(w, evals)
  {
    if ws != [] {
      RankedOfMembership(ws[..|ws| - 1], evals, r);
      assert ws == ws[..|ws| - 1] + [ws[|ws| - 1]];
    }
  }

  /** Sorted by `average_score`, highest first. */
  predicate SortedDesc(s: seq<Ranked>) {
    forall i, j :: 0 <= i < j < |s| ==> s[i].average >= s[j].average
  }

  /** Puts `x` after every leading entry whose average is at least its own. */
  function InsertDesc(x: Ranked, s: seq<Ranked>): (r: seq<Ranked>)
    ensures |r| == |s| + 1
  {
    if s == [] then [x]
    else if s[0].average >= x.average then [s[0]] + InsertDesc(x, s[1..])
    else [x] + s
  }

  /** `list.sort(key=average_score, reverse=True)`: a stable sort, highest average first. */
  function SortDesc(s: seq<Ranked>): (r: seq<Ranked>)
    ensures |r| == |s|
  {
    if s == [] then [] else InsertDesc(s[|s| - 1], SortDesc(s[..|s| - 1]))
  }

  lemma {:induction false} InsertDescMembership(x: Ranked, s: seq<Ranked>, y: Ranked)
    ensures y in InsertDesc(x, s) <==> y == x || y in s
  {
    if s != [] && s[0].average >= x.average {
      InsertDescMembership(x, s[1..], y);
      assert s == [s[0]] + s[1..];
    }
  }

  lemma {:induction false} InsertDescSorted(x: Ranked, s: seq<Ranked>)
    requires SortedDesc(s)
    ensures SortedDesc(InsertDesc(x, s))
  {
    if s != [] && s[0].average >= x.average {
      InsertDescSorted(x, s[1..]);
      var r := InsertDesc(x, s[1..]);
      forall k | 0 <= k < |r| ensures s[0].average >= r[k].average {
        InsertDescMembership(x, s[1..], r[k]);
        if r[k] != x {
          var j :| 0 <= j < |s[1..]| && s[1..][j] == r[k];
          assert s[j + 1] == r[k];
        }
      }
    }
  }

  lemma {:induction false} InsertDescPermutation(x: Ranked, s: seq<Ranked>)
    ensures multiset(InsertDesc(x, s)) == multiset(s) + multiset{x}
  {
    if s != [] && s[0].average >= x.average {
      InsertDescPermutation(x, s[1..]);
      assert s == [s[0]] + s[1..];
    }
  }

  /** The sort orders by average, highest first, and keeps every entry. */
  lemma {:induction false} SortDescSortedPermutation(s: seq<Ranked>)
    ensures SortedDesc(SortDesc(s))
    ensures multiset(SortDesc(s)) == multiset(s)
  {
    if s != [] {
      SortDescSortedPermutation(s[..|s| - 1]);
      InsertDescSorted(s[|s| - 1], SortDesc(s[..|s| - 1]));
      InsertDescPermutation(s[|s| - 1], SortDesc(s[..|s| - 1]));
      assert s == s[..|s| - 1] + [s[|s| - 1]];
    }
  }

  /** The entries with average `k`, in order. */
  function WithAverage(s: seq<Ranked>, k: real): seq<Ranked> {
    if s == [] then []
    else
      var rest := WithAverage(s[..|s| - 1], k);
      if s[|s| - 1].average == k then rest + [s[|s| - 1]] else rest
  }

  lemma {:induction false} WithAverageConcat(a: seq<Ranked>, b: seq<Ranked>, k: real)
    ensures WithAverage(a + b, k) == WithAverage(a, k) + WithAverage(b, k)
  {
    if b != [] {
      WithAverageConcat(a, b[..|b| - 1], k);
      assert (a + b)[..|a + b| - 1] == a + b[..|b| - 1];
    } else {
      assert a + b == a;
    }
  }

  /** Inserting after the entries with an average at least as high puts `x` after its ties. */
  lemma {:induction false} InsertDescStable(x: Ranked, s: seq<Ranked>, k: real)
    requires SortedDesc(s)
    ensures WithAverage(InsertDesc(x, s), k) == WithAverage(s, k) + (if x.average == k then [x] else [])
  {
    if s == [] {
      assert WithAverage([x], k) == WithAverage([], k) + (if x.average == k then [x] else []) by {
        assert [x][..0] == [];
      }
    } else if s[0].average >= x.average {
      assert SortedDesc(s[1..]);
      InsertDescStable(x, s[1..], k);
      WithAverageConcat([s[0]], InsertDesc(x, s[1..]), k);
      WithAverageConcat([s[0]], s[1..], k);
      assert s == [s[0]] + s[1..];
    } else {
      InsertDescFront(x, s, k);
    }
  }

  /** When `x` beats the head of a sorted list, putting it in front adds it after the list's entries of its own average. */
  lemma {:induction false} InsertDescFront(x: Ranked, s: seq<Ranked>, k: real)
    requires SortedDesc(s) && s != [] && s[0].average < x.average
    ensures WithAverage([x] + s, k) == WithAverage(s, k) + (if x.average == k then [x] else [])
  {
    WithAverageConcat([x], s, k);
    assert [x][..0] == [];
    if x.average == k {
      WithAverageNone(s, k);
    }
    WithAverageConcat(s, [x], k);
  }

  /** No entry of a list sorted below `k` has average `k`. */
  lemma {:induction false} WithAverageNone(s: seq<Ranked>, k: real)
    requires SortedDesc(s) && s != [] && s[0].average < k
    ensures WithAverage(s, k) == []
  {
    if |s| > 1 {
      assert SortedDesc(s[..|s| - 1]);
      WithAverageNone(s[..|s| - 1], k);
      assert s[|s| - 1].average <= s[0].average;
    }
  }

  /** The sort is stable: entries with equal averages keep their relative order. */
  lemma {:induction false} SortDescStable(s: seq<Ranked>, k: real)
    ensures WithAverage(SortDesc(s), k) == WithAverage(s, k)
  {
    if s != [] {
      var init, x := s[..|s| - 1], s[|s| - 1];
      SortDescStable(init, k);
      SortDescSortedPermutation(init);
      InsertDescStable(x, SortDesc(init), k);
      assert WithAverage(s, k) == WithAverage(init, k) + (if x.average == k then [x] else []);
    }
  }

  /** The first three entries, or all of them when there are fewer. */
  function Top3(s: seq<Ranked>): (r: seq<Ranked>)
    ensures r == s[..Min(3, |s|)]
  {
    SliceNonNegative(s, 0, 3);
    Slice(s, 0, 3)
  }

  /** The podium entry of one area. */
  function AreaPodiumOf(ws: seq<Work>, evals: seq<Evaluation>, area: string): AreaPodium {
    var aw := WorksIn(ws, area);
    var ranked := RankedOf(aw, evals);
    AreaPodium(area, |aw|, |ranked|, Top3(SortDesc(ranked)))
  }

  /** `generate_works_podium`'s dict: one entry per area, in the order of `AreaOrder`. */
  function PodiumOf(ws: seq<Work>, evals: seq<Evaluation>): (r: seq<AreaPodium>)
    ensures |r| == |AreaOrder(ws)|
    ensures forall i :: 0 <= i < |r| ==> r[i] == AreaPodiumOf(ws, evals, AreaOrder(ws)[i])
  {
    var order := AreaOrder(ws);
    seq(|order|, i requires 0 <= i < |order| => AreaPodiumOf(ws, evals, order[i]))
  }

  /**
   * A podium holds the best-scored works of its area: at most three, highest
   * average first, each a scored work of the area, and none of the area's
   * scored works left off it has a higher average than any work on it.
   */
  lemma {:induction false} PodiumIsTop(ws: seq<Work>, evals: seq<Evaluation>, area: string)
    ensures var p := AreaPodiumOf(ws, evals, area);
      var ranked := RankedOf(WorksIn(ws, area), evals);
      |p.podium| == Min(3, p.evaluatedWorks) && p.evaluatedWorks == |ranked| &&
      SortedDesc(p.podium) && multiset(p.podium) <= multiset(ranked) &&
      forall x: Ranked, j :: x in multiset(ranked) - multiset(p.podium) && 0 <= j < |p.podium| ==> x.average <= p.podium[j].average
  {
    TopOfRanking(RankedOf(WorksIn(ws, area), evals));
  }

  /** The first three of the sorted entries are sorted, come from the entries, and beat the others. */
  lemma {:induction false} TopOfRanking(ranked: seq<Ranked>)
    ensures var top := Top3(SortDesc(ranked));
      |top| == Min(3, |ranked|) && SortedDesc(top) && multiset(top) <= multiset(ranked) &&
      forall x: Ranked, j :: x in multiset(ranked) - multiset(top) && 0 <= j < |top| ==> x.average <= top[j].average
  {
    var sorted := SortDesc(ranked);
    SortDescSortedPermutation(ranked);
    TopOfSorted(sorted, Min(3, |ranked|));
  }

  /** A prefix of a list sorted highest first is sorted, is part of the list, and beats the rest of it. */
  lemma {:induction false} TopOfSorted(sorted: seq<Ranked>, n: nat)
    requires SortedDesc(sorted) && n <= |sorted|
    ensures SortedDesc(sorted[..n]) && multiset(sorted[..n]) <= multiset(sorted)
    ensures forall x: Ranked, j :: x in multiset(sorted) - multiset(sorted[..n]) && 0 <= j < n ==> x.average <= sorted[j].average
  {
    PrefixSplit(sorted, n);
    SortedPrefix(sorted, n);
    TopBeatsRest(sorted, n);
  }

  lemma {:induction false} PrefixSplit(s: seq<Ranked>, n: nat)
    requires n <= |s|
    ensures multiset(s[..n]) <= multiset(s)
    ensures multiset(s) - multiset(s[..n]) == multiset(s[n..])
  {
    assert s == s[..n] + s[n..];
  }

  lemma {:induction false} SortedPrefix(s: seq<Ranked>, n: nat)
    requires SortedDesc(s) && n <= |s|
    ensures SortedDesc(s[..n])
  {
  }

  /** In a list sorted highest first, nothing after position `n` beats anything before it. */
  lemma {:induction false} TopBeatsRest(s: seq<Ranked>, n: nat)
    requires SortedDesc(s) && n <= |s|
    ensures forall x: Ranked, j :: x in multiset(s[n..]) && 0 <= j < n ==> x.average <= s[j].average
  {
    forall x: Ranked, j | x in multiset(s[n..]) && 0 <= j < n ensures x.average <= s[j].average {
      assert x in s[n..];
      var k :| 0 <= k < |s[n..]| && s[n..][k] == x;
      assert s[n + k] == x;
    }
  }

  /** The counts of an area entry: all its works, and those with at least one evaluation. */
  lemma {:induction false} PodiumCounts(ws: seq<Work>, evals: seq<Evaluation>, area: string, w: Work)
    ensures var p := AreaPodiumOf(ws, evals, area);
      p.area == area && p.totalWorks == |WorksIn(ws, area)| &&
      (w in WorksIn(ws, area) <==> w in ws && w.area == area) &&
      (RankedFor(w, evals) in RankedOf(WorksIn(ws, area), evals) <== w in ws && w.area == area && EvaluationsOf(evals, w.id) != [])
  {
    WorksInMembership(ws, area, w);
    RankedOfMembership(WorksIn(ws, area), evals, RankedFor(w, evals));
  }

  /** The grouping loop of `generate_works_podium`. */
  method GroupByArea(works: seq<Work>) returns (order: seq<string>, byArea: map<string, seq<Work>>)
    ensures order == AreaOrder(works)
    ensures forall a :: a in byArea <==> a in order
    ensures forall a :: a in byArea ==> byArea[a] == WorksIn(works, a)
  {
    order, byArea := [], map[];
    for i := 0 to |works|
      invariant order == AreaOrder(works[..i])
      invariant forall a :: a in byArea <==> a in order
      invariant forall a :: a in byArea ==> byArea[a] == WorksIn(works[..i], a)
    {
      var w := works[i];
      assert works[..i + 1][..i] == works[..i];
      if w.area !in byArea {
        AreaOrderFacts(works[..i], w.area);
        byArea := byArea[w.area := []];
        order := order + [w.area];
      }
      byArea := byArea[w.area := byArea[w.area] + [w]];
    }
    assert works[..|works|] == works;
  }

  /** The scoring loop over the works of one area. */
  method ScoreArea(areaWorks: seq<Work>, evals: seq<Evaluation>) returns (ranked: seq<Ranked>)
    ensures ranked == RankedOf(areaWorks, evals)
  {
    ranked := [];
    for i := 0 to |areaWorks|
      invariant ranked == RankedOf(areaWorks[..i], evals)
    {
      var w := areaWorks[i];
      assert areaWorks[..i + 1][..i] == areaWorks[..i];
      var we := EvaluationsOf(evals, w.id);
      if we != [] {
        var average, total := CalculateWorkAverageScore(we);
        ranked := ranked + [Ranked(w, |we|, average, total)];
      }
    }
    assert areaWorks[..|areaWorks|] == areaWorks;
  }

  /** The entry of one area: its works scored, sorted and cut to three. */
  method AreaEntry(areaWorks: seq<Work>, evals: seq<Evaluation>, area: string) returns (entry: AreaPodium)
    ensures entry == AreaPodium(area, |areaWorks|, |RankedOf(areaWorks, evals)|, Top3(SortDesc(RankedOf(areaWorks, evals))))
  {
    var ranked := ScoreArea(areaWorks, evals);
    entry := AreaPodium(area, |areaWorks|, |ranked|, Top3(SortDesc(ranked)));
  }

  /** The two loops of `generate_works_podium`: group the works, then build one entry per area. */
  method PodiumFor(works: seq<Work>, evals: seq<Evaluation>) returns (podium: seq<AreaPodium>)
    ensures podium == PodiumOf(works, evals)
  {
    var order, byArea := GroupByArea(works);
    podium := [];
    for i := 0 to |order|
      invariant |podium| == i
      invariant forall j :: 0 <= j < i ==> podium[j] == AreaPodiumOf(works, evals, order[j])
    {
      var entry := AreaEntry(byArea[order[i]], evals, order[i]);
      podium := podium + [entry];
    }
  }

  /** `generate_works_podium`. */
  method GenerateWorksPodium(db: Database) returns (podium: seq<AreaPodium>)
    ensures podium == PodiumOf(db.works, db.evaluations)
  {
    podium := PodiumFor(db.works, db.evaluations);
  }

  // ---------------------------------------------------------------------------
  // Validation of a self-service evaluation
  // ---------------------------------------------------------------------------

  /** The request keys of the five criteria. */
  const CriterionKeys: seq<string> := ["criterion1", "criterion2", "criterion3", "criterion4", "criterion5"]

  const MissingData: string := "Dados obrigatórios faltando"
  const WorkNotFound: string := "Trabalho não encontrado"
  const EvaluatorNotFound: string := "Avaliador não encontrado"
  const NotAuthorized: string := "Você não está autorizado a avaliar este trabalho"
  const AlreadyEvaluated: string := "Você já avaliou este trabalho"

  /** `[data.get(f'criterion{i}') for i in range(1, 6)]`. */
  function CriteriaOf(data: Body): (c: seq<Value>)
    ensures |c| == 5
    ensures forall i :: 0 <= i < 5 ==> c[i] == Get(data, CriterionKeys[i])
  {
    seq(5, i requires 0 <= i < 5 => Get(data, CriterionKeys[i]))
  }

  /** `all(c is not None for c in criteria)`. */
  predicate AllPresent(c: seq<Value>) {
    forall i :: 0 <= i < |c| ==> c[i] != Null
  }

  /** `isinstance(c, int) and 1 <= c <= 5`. */
  predicate IsGrade(c: Value) {
    IsInt(c) && 1 <= IntOf(c) <= 5
  }

  /** The message for criterion number `idx` (counted from 1). */
  function GradeError(idx: nat): string {
    "Critério " + DecimalNat(idx) + " deve ser um número inteiro de 1 (Ruim) a 5 (Excelente)"
  }

  /** The messages of the criteria loop: one per criterion that is not a grade, in order. */
  function GradeErrors(c: seq<Value>): (r: seq<string>)
    ensures |r| <= |c|
  {
    if c == [] then []
    else GradeErrors(c[..|c| - 1]) + (if IsGrade(c[|c| - 1]) then [] else [GradeError(|c|)])
  }

  /** Different criterion numbers give different messages. */
  lemma {:induction false} GradeErrorInjective(a: nat, b: nat)
    requires GradeError(a) == GradeError(b)
    ensures a == b
  {
    var prefix, suffix := "Critério ", " deve ser um número inteiro de 1 (Ruim) a 5 (Excelente)";
    var da, db := DecimalNat(a), DecimalNat(b);
    assert |da| == |db|;
    assert da == GradeError(a)[|prefix|..|prefix| + |da|];
    assert db == GradeError(b)[|prefix|..|prefix| + |db|];
    DecimalRoundTrip(a);
    DecimalRoundTrip(b);
  }

  /** The loop reports criterion `i + 1` exactly when it is not a grade. */
  lemma {:induction false} GradeErrorsName(c: seq<Value>, i: nat)
    requires i < |c|
    ensures GradeError(i + 1) in GradeErrors(c) <==> !IsGrade(c[i])
  {
    GradeErrorsBelow(c, i + 1);
    var init := c[..|c| - 1];
    if i < |c| - 1 {
      GradeErrorsName(init, i);
      if !IsGrade(c[|c| - 1]) && GradeError(i + 1) == GradeError(|c|) {
        GradeErrorInjective(i + 1, |c|);
      }
    } else {
      GradeErrorsBelow(init, |c|);
    }
  }

  /** Every message of the loop over `c` names a criterion between 1 and `|c|`. */
  lemma {:induction false} GradeErrorsBelow(c: seq<Value>, n: nat)
    ensures GradeError(n) in GradeErrors(c) ==> 1 <= n <= |c|
  {
    if c != [] {
      GradeErrorsBelow(c[..|c| - 1], n);
      if GradeError(n) == GradeError(|c|) {
        GradeErrorInjective(n, |c|);
      }
    }
  }

  /** No message means every criterion is a grade. */
  lemma {:induction false} GradeErrorsEmpty(c: seq<Value>)
    ensures GradeErrors(c) == [] <==> forall i :: 0 <= i < |c| ==> IsGrade(c[i])
  {
    if c != [] {
      GradeErrorsEmpty(c[..|c| - 1]);
      assert forall i :: 0 <= i < |c| - 1 ==> c[..|c| - 1][i] == c[i];
    }
  }

  /** `Model.query.get(key)` for a key from a JSON body: an `int` (or a bool, which is one) names a row. */
  function FindWorkBy(works: seq<Work>, key: Value): (r: Option<Work>)
    ensures r.Some? <==> IsInt(key) && IsWorkId(works, IntOf(key))
    ensures r.Some? ==> r.value in works && r.value.id == IntOf(key)
  {
    if IsInt(key) then FindWork(works, IntOf(key)) else None
  }

  function FindEvaluatorBy(evaluators: seq<Evaluator>, key: Value): (r: Option<Evaluator>)
    ensures r.Some? <==> IsInt(key) && IsEvaluatorId(evaluators, IntOf(key))
    ensures r.Some? ==> r.value in evaluators && r.value.id == IntOf(key)
  {
    if IsInt(key) then FindEvaluator(evaluators, IntOf(key)) else None
  }

  /** `Evaluation.query.filter_by(evaluator_id=..., work_id=...).first()` finds a row. */
  predicate HasEvaluation(evals: seq<Evaluation>, evaluatorId: int, workId: int) {
    exists i :: 0 <= i < |evals| && evals[i].evaluatorId == evaluatorId && evals[i].workId == workId
  }

  /** What `validate_evaluation_data` returns: `(True, criteria)` or `(False, errors)`. */
  datatype Checked = Accepted(criteria: seq<Value>) | Rejected(errors: seq<string>)

  /**
   * `validate_evaluation_data`: criterion messages accumulate; a failed lookup,
   * a missing link or an earlier evaluation adds its message after them and stops.
   */
  function ValidateEvaluationDataOf(s: Store, data: Body, evaluatorId: Value, workId: Value): Checked {
    var c := CriteriaOf(data);
    if !Truthy(workId) || !AllPresent(c) then Rejected([MissingData])
    else
      var errors := GradeErrors(c);
      match FindWorkBy(s.works, workId)
      case None => Rejected(errors + [WorkNotFound])
      case Some(w) =>
        match FindEvaluatorBy(s.evaluators, evaluatorId)
        case None => Rejected(errors + [EvaluatorNotFound])
        case Some(e) =>
          if w.id !in WorksOfEvaluator(s.links, e.id) then Rejected(errors + [NotAuthorized])
          else if HasEvaluation(s.evaluations, e.id, w.id) then Rejected(errors + [AlreadyEvaluated])
          else if errors != [] then Rejected(errors)
          else Accepted(c)
  }

  /** The criteria loop. */
  method CollectGradeErrors(c: seq<Value>) returns (errors: seq<string>)
    ensures errors == GradeErrors(c)
  {
    errors := [];
    for idx := 0 to |c|
      invariant errors == GradeErrors(c[..idx])
    {
      GradeErrorsStep(c, idx);
      if !IsGrade(c[idx]) {
        errors := errors + [GradeError(idx + 1)];
      }
    }
    assert c[..|c|] == c;
  }

  lemma {:induction false} GradeErrorsStep(c: seq<Value>, idx: nat)
    requires idx < |c|
    ensures GradeErrors(c[..idx + 1]) == GradeErrors(c[..idx]) + (if IsGrade(c[idx]) then [] else [GradeError(idx + 1)])
  {
    assert c[..idx + 1][..idx] == c[..idx];
  }

  /** `validate_evaluation_data`. */
  method ValidateEvaluationData(db: Database, data: Body, evaluatorId: Value, workId: Value) returns (r: Checked)
    ensures r == ValidateEvaluationDataOf(db.Snapshot(), data, evaluatorId, workId)
  {
    var criteria := CriteriaOf(data);
    if !Truthy(workId) || !AllPresent(criteria) {
      return Rejected([MissingData]);
    }
    var errors := CollectGradeErrors(criteria);
    var work := FindWorkBy(db.works, workId);
    if work.None? {
      return Rejected(errors + [WorkNotFound]);
    }
    var evaluator := FindEvaluatorBy(db.evaluators, evaluatorId);
    if evaluator.None? {
      return Rejected(errors + [EvaluatorNotFound]);
    }
    if work.value.id !in WorksOfEvaluator(db.links, evaluator.value.id) {
      return Rejected(errors + [NotAuthorized]);
    }
    if HasEvaluation(db.evaluations, evaluator.value.id, work.value.id) {
      return Rejected(errors + [AlreadyEvaluated]);
    }
    if errors != [] {
      return Rejected(errors);
    }
    return Accepted(criteria);
  }

  /**
   * The data is accepted exactly when a work id is given, all five criteria are
   * integers from 1 to 5, the work and the evaluator exist, the evaluator is
   * linked to the work and has not evaluated it yet; the criteria come back as sent.
   */
  lemma {:induction false} EvaluationDataAccepted(s: Store, data: Body, evaluatorId: Value, workId: Value)
    ensures var r := ValidateEvaluationDataOf(s, data, evaluatorId, workId);
      var c := CriteriaOf(data);
      var w, e := FindWorkBy(s.works, workId), FindEvaluatorBy(s.evaluators, evaluatorId);
      (r.Accepted? <==>
        Truthy(workId) && (forall i :: 0 <= i < 5 ==> IsGrade(c[i])) && w.Some? && e.Some? &&
        Link(w.value.id, e.value.id) in s.links && !HasEvaluation(s.evaluations, e.value.id, w.value.id)) &&
      (r.Accepted? ==> r.criteria == c)
  {
    var c := CriteriaOf(data);
    var w, e := FindWorkBy(s.works, workId), FindEvaluatorBy(s.evaluators, evaluatorId);
    if !Truthy(workId) || !AllPresent(c) {
      if Truthy(workId) {
        var i :| 0 <= i < |c| && c[i] == Null;
        assert !IsGrade(c[i]);
      }
    } else {
      GradeErrorsEmpty(c);
      if w.Some? && e.Some? {
        WorksOfEvaluatorMembership(s.links, w.value.id, e.value.id);
      }
    }
  }

  /** Once the presence check passes, every rejection lists the criterion messages first, each naming a criterion that is not a grade. */
  lemma {:induction false} EvaluationDataErrors(s: Store, data: Body, evaluatorId: Value, workId: Value, i: nat)
    requires Truthy(workId) && AllPresent(CriteriaOf(data)) && i < 5
    ensures var r := ValidateEvaluationDataOf(s, data, evaluatorId, workId);
      r.Rejected? ==>
        GradeErrors(CriteriaOf(data)) <= r.errors &&
        (GradeError(i + 1) in r.errors <==> !IsGrade(CriteriaOf(data)[i]))
  {
    GradeErrorsName(CriteriaOf(data), i);
  }

  // ---------------------------------------------------------------------------
  // Validation of an evaluation read from a sheet
  // ---------------------------------------------------------------------------

  const NoDistribution: string := "Nenhum trabalho foi distribuído ainda"
  const NotAssigned: string := "Este avaliador não foi atribuído para avaliar este trabalho"
  const AlreadyEvaluatedBy: string := "Este avaliador já avaliou este trabalho"

  /** What `validate_ai_evaluation_data` gives: `(True, None)`, `(False, message)`, or a `TypeError` from `len`. */
  datatype AiCheck = AiAccepted | AiRejected(message: string) | AiTypeError

  /** `len(v)`, for the values that have one. */
  function Length(v: Value): Option<nat> {
    match v
    case Str(s) => Some(|s|)
    case List(xs) => Some(|xs|)
    case Dict(m) => Some(|m|)
    case _ => None
  }

  /**
   * What `enumerate(v)` yields: the items of a list, the one-character strings
   * of a string, and the keys of an object, which are strings (which strings
   * does not matter: no string passes the score test).
   */
  function Items(v: Value): (r: seq<Value>)
    requires Length(v).Some?
    ensures |r| == Length(v).value
    ensures !v.List? ==> forall i :: 0 <= i < |r| ==> r[i].Str?
  {
    match v
    case Str(s) => seq(|s|, i requires 0 <= i < |s| => Str([s[i]]))
    case List(xs) => xs
    case Dict(m) => seq(|m|, i => Str(""))
  }

  /** `isinstance(score, (int, float)) and 1 <= score <= 5`. */
  predicate IsScore(v: Value) {
    IsNumber(v) && 1.0 <= NumberOf(v) <= 5.0
  }

  /** The position of the first item that is not a score, or the length when all are. */
  function FirstNonScore(items: seq<Value>): (k: nat)
    ensures k <= |items|
    ensures k < |items| ==> !IsScore(items[k])
    ensures forall i :: 0 <= i < k ==> IsScore(items[i])
  {
    if items == [] then 0
    else if !IsScore(items[0]) then 0
    else 1 + FirstNonScore(items[1..])
  }

  function ScoreError(idx: nat): string {
    "Critério " + DecimalNat(idx) + " deve ser um número entre 1 e 5"
  }

  /** `Work.query.filter(Work.evaluators.any()).count() > 0`: some work has a link. */
  predicate SomeWorkLinked(s: Store) {
    exists i, j :: 0 <= i < |s.works| && 0 <= j < |s.links| && s.links[j].workId == s.works[i].id
  }

  /** `validate_ai_evaluation_data`: the checks in the order the source makes them. */
  function ValidateAiEvaluationDataOf(s: Store, data: Body): AiCheck {
    var workId, scores, evaluatorId := Get(data, "work_id"), Get(data, "scores"), Get(data, "evaluator_id");
    if !Truthy(workId) || !Truthy(evaluatorId) || !Truthy(scores) then AiRejected(MissingData)
    else if Length(scores).None? then AiTypeError
    else if Length(scores).value != 5 then AiRejected(MissingData)
    else
      match FindEvaluatorBy(s.evaluators, evaluatorId)
      case None => AiRejected(EvaluatorNotFound)
      case Some(e) =>
        match FindWorkBy(s.works, workId)
        case None => AiRejected(WorkNotFound)
        case Some(w) =>
          if !SomeWorkLinked(s) then AiRejected(NoDistribution)
          else if e.id !in EvaluatorsOfWork(s.links, w.id) then AiRejected(NotAssigned)
          else if HasEvaluation(s.evaluations, e.id, w.id) then AiRejected(AlreadyEvaluatedBy)
          else
            var k := FirstNonScore(Items(scores));
            if k < 5 then AiRejected(ScoreError(k + 1)) else AiAccepted
  }

  /** The score loop, which stops at the first item that is not a score. */
  method CheckScores(items: seq<Value>) returns (r: AiCheck)
    ensures FirstNonScore(items) < |items| ==> r == AiRejected(ScoreError(FirstNonScore(items) + 1))
    ensures FirstNonScore(items) == |items| ==> r == AiAccepted
  {
    for i := 0 to |items|
      invariant forall k :: 0 <= k < i ==> IsScore(items[k])
    {
      if !IsScore(items[i]) {
        return AiRejected(ScoreError(i + 1));
      }
    }
    return AiAccepted;
  }

  /** `validate_ai_evaluation_data`. */
  method ValidateAiEvaluationData(db: Database, data: Body) returns (r: AiCheck)
    ensures r == ValidateAiEvaluationDataOf(db.Snapshot(), data)
  {
    var workId, scores, evaluatorId := Get(data, "work_id"), Get(data, "scores"), Get(data, "evaluator_id");
    if !Truthy(workId) || !Truthy(evaluatorId) || !Truthy(scores) {
      return AiRejected(MissingData);
    }
    if Length(scores).None? {
      return AiTypeError;
    }
    if Length(scores).value != 5 {
      return AiRejected(MissingData);
    }
    var evaluator := FindEvaluatorBy(db.evaluators, evaluatorId);
    if evaluator.None? {
      return AiRejected(EvaluatorNotFound);
    }
    var work := FindWorkBy(db.works, workId);
    if work.None? {
      return AiRejected(WorkNotFound);
    }
    if !SomeWorkLinked(db.Snapshot()) {
      return AiRejected(NoDistribution);
    }
    if evaluator.value.id !in EvaluatorsOfWork(db.links, work.value.id) {
      return AiRejected(NotAssigned);
    }
    if HasEvaluation(db.evaluations, evaluator.value.id, work.value.id) {
      return AiRejected(AlreadyEvaluatedBy);
    }
    r := CheckScores(Items(scores));
  }

  /**
   * A sheet evaluation is accepted exactly when the three fields are given,
   * `scores` is a list of five numbers from 1 to 5, both rows exist, the
   * evaluator is linked to the work and has not evaluated it yet.
   */
  lemma {:induction false} AiEvaluationDataAccepted(s: Store, data: Body)
    ensures var workId, scores, evaluatorId := Get(data, "work_id"), Get(data, "scores"), Get(data, "evaluator_id");
      var w, e := FindWorkBy(s.works, workId), FindEvaluatorBy(s.evaluators, evaluatorId);
      ValidateAiEvaluationDataOf(s, data) == AiAccepted <==>
        Truthy(workId) && Truthy(evaluatorId) && scores.List? && |scores.items| == 5 &&
        (forall i :: 0 <= i < 5 ==> IsScore(scores.items[i])) && w.Some? && e.Some? &&
        Link(w.value.id, e.value.id) in s.links && !HasEvaluation(s.evaluations, e.value.id, w.value.id)
  {
    var workId, scores, evaluatorId := Get(data, "work_id"), Get(data, "scores"), Get(data, "evaluator_id");
    var w, e := FindWorkBy(s.works, workId), FindEvaluatorBy(s.evaluators, evaluatorId);
    if w.Some? && e.Some? {
      EvaluatorsOfWorkMembership(s.links, w.value.id, e.value.id);
      if Link(w.value.id, e.value.id) in s.links {
        var j :| 0 <= j < |s.links| && s.links[j] == Link(w.value.id, e.value.id);
        var i :| 0 <= i < |s.works| && s.works[i] == w.value;
        assert s.links[j].workId == s.works[i].id;
      }
    }
    if Truthy(scores) && Length(scores) == Some(5) && !scores.List? {
      assert !IsScore(Items(scores)[0]);
    }
  }

  // ---------------------------------------------------------------------------
  // Recording an evaluation
  // ---------------------------------------------------------------------------

  /** The id the database gives a new evaluation row: one past the largest id, 1 for an empty table. */
  function NextEvaluationId(evals: seq<Evaluation>): (id: int)
    ensures forall i :: 0 <= i < |evals| ==> evals[i].id < id
  {
    if evals == [] then 1
    else Max(NextEvaluationId(evals[..|evals| - 1]), evals[|evals| - 1].id + 1)
  }

  /** The row `create_evaluation` and `create_ai_evaluation` insert. */
  function NewEvaluation(evals: seq<Evaluation>, evaluatorId: int, workId: int, c: seq<Value>, tag: string): Evaluation
    requires |c| == 5 && forall i :: 0 <= i < 5 ==> IsNumber(c[i])
  {
    Evaluation(NextEvaluationId(evals), NumberOf(c[0]), NumberOf(c[1]), NumberOf(c[2]), NumberOf(c[3]), NumberOf(c[4]),
      tag, evaluatorId, workId)
  }

  /** `create_evaluation`; callers that omit `method` pass `OnlineMethod`, the default. */
  method CreateEvaluation(db: Database, evaluatorId: int, workId: int, criteria: seq<Value>, tag: string) returns (e: Evaluation)
    requires |criteria| == 5 && forall i :: 0 <= i < 5 ==> IsNumber(criteria[i])
    modifies db`evaluations
    ensures e == NewEvaluation(old(db.evaluations), evaluatorId, workId, criteria, tag)
    ensures db.evaluations == old(db.evaluations) + [e]
  {
    e := NewEvaluation(db.evaluations, evaluatorId, workId, criteria, tag);
    db.evaluations := db.evaluations + [e];
  }

  /** `create_ai_evaluation`: the work id comes first, and the tag is `ai_processed`. */
  method CreateAiEvaluation(db: Database, workId: int, evaluatorId: int, scores: seq<Value>) returns (e: Evaluation)
    requires |scores| == 5 && forall i :: 0 <= i < 5 ==> IsNumber(scores[i])
    modifies db`evaluations
    ensures e == NewEvaluation(old(db.evaluations), evaluatorId, workId, scores, AiProcessedMethod)
    ensures db.evaluations == old(db.evaluations) + [e]
  {
    e := CreateEvaluation(db, evaluatorId, workId, scores, AiProcessedMethod);
  }

  /** Inserting an evaluation of an existing work by an existing evaluator keeps the store valid. */
  lemma {:induction false} InsertKeepsStoreValid(s: Store, evaluatorId: int, workId: int, c: seq<Value>, tag: string)
    requires StoreValid(s) && IsWorkId(s.works, workId) && IsEvaluatorId(s.evaluators, evaluatorId)
    requires |c| == 5 && forall i :: 0 <= i < 5 ==> IsNumber(c[i])
    ensures StoreValid(s.(evaluations := s.evaluations + [NewEvaluation(s.evaluations, evaluatorId, workId, c, tag)]))
  {
  }

  /** After an accepted submission is recorded, the same submission is refused as a repeat. */
  lemma {:induction false} SecondSubmissionRefused(s: Store, data: Body, evaluatorId: Value, workId: Value)
    requires ValidateEvaluationDataOf(s, data, evaluatorId, workId).Accepted?
    ensures var c := CriteriaOf(data);
      (forall i :: 0 <= i < 5 ==> IsNumber(c[i])) && IsInt(evaluatorId) && IsInt(workId) &&
      var s' := s.(evaluations := s.evaluations + [NewEvaluation(s.evaluations, IntOf(evaluatorId), IntOf(workId), c, OnlineMethod)]);
      ValidateEvaluationDataOf(s', data, evaluatorId, workId) == Rejected([AlreadyEvaluated])
  {
    var c := CriteriaOf(data);
    EvaluationDataAccepted(s, data, evaluatorId, workId);
    GradeErrorsEmpty(c);
    var evals' := s.evaluations + [NewEvaluation(s.evaluations, IntOf(evaluatorId), IntOf(workId), c, OnlineMethod)];
    assert evals'[|evals'| - 1].workId == IntOf(workId);
  }
}

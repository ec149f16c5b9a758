/**
 * The distribution engine. It splits the evaluators into pedagogical and
 * technical ones, checks every subarea of the stored works for available
 * evaluators, clears every work/evaluator link and load counter, and then
 * gives each work one pedagogical evaluator (the least loaded eligible one,
 * first in table order) and one or two technical evaluators of the work's
 * area, drawn from the least loaded eligible ones.
 *
 * Evaluators are named by their position in the evaluator table; a link is
 * a pair (position of the work, position of the evaluator).
 */
module Distribution {
  import opened Text
  import opened Models
  import Python
  import Areas

  /** `Evaluator.area ILIKE '%pedag%'`: the evaluator is pedagogical. */
  predicate IsPedagogical(e: Evaluator) {
    ContainsIgnoreCase(e.area, "pedag")
  }

  /** Some stored work advised by `name` lies in `subarea`. */
  predicate HasConflict(works: seq<Work>, name: string, subarea: string) {
    exists k :: 0 <= k < |works| && works[k].advisor == name && works[k].subarea == subarea
  }

  /** `can_evaluate`: the evaluator does not advise `w` nor any stored work of its subarea. */
  predicate CanEvaluate(works: seq<Work>, e: Evaluator, w: Work) {
    e.name != w.advisor && !HasConflict(works, e.name, w.subarea)
  }

  /** `has_expertise`. */
  predicate HasExpertise(e: Evaluator, w: Work) {
    e.area == w.area
  }

  /** The test of one list comprehension of the per-work step: pedagogical (`expertise` false) or technical. */
  predicate Admits(works: seq<Work>, e: Evaluator, w: Work, expertise: bool) {
    CanEvaluate(works, e, w) && (expertise ==> HasExpertise(e, w))
  }

  /** For a work of the store, the advisor test of `can_evaluate` is implied by the subarea test. */
  lemma {:induction false} CanEvaluateStoredWork(works: seq<Work>, e: Evaluator, k: nat)
    requires k < |works|
    ensures CanEvaluate(works, e, works[k]) <==> !HasConflict(works, e.name, works[k].subarea)
  {
    if e.name == works[k].advisor {
      assert works[k].advisor == e.name && works[k].subarea == works[k].subarea;
    }
  }

  predicate Increasing(s: seq<nat>) {
    forall i, j :: 0 <= i < j < |s| ==> s[i] < s[j]
  }

  predicate InRange(s: seq<nat>, n: nat) {
    forall j :: 0 <= j < |s| ==> s[j] < n
  }

  /**
   * The positions of the pedagogical (or technical) evaluators in table order:
   * the results of the two `ILIKE` queries.
   */
  function ClassIndices(evs: seq<Evaluator>, pedagogical: bool): (r: seq<nat>)
    ensures InRange(r, |evs|) && Increasing(r)
    ensures forall j :: 0 <= j < |r| ==> IsPedagogical(evs[r[j]]) == pedagogical
  {
    if evs == [] then []
    else
      var r := ClassIndices(evs[..|evs| - 1], pedagogical);
      assert forall j :: 0 <= j < |r| ==> evs[..|evs| - 1][r[j]] == evs[r[j]];
      if IsPedagogical(evs[|evs| - 1]) == pedagogical then
        AppendAbove(r, |evs| - 1);
        r + [|evs| - 1]
      else r
  }

  /** Appending a position above every listed one keeps the list increasing. */
  lemma {:induction false} AppendAbove(r: seq<nat>, x: nat)
    requires Increasing(r) && InRange(r, x)
    ensures Increasing(r + [x]) && InRange(r + [x], x + 1)
    ensures forall j :: 0 <= j < |r| ==> (r + [x])[j] == r[j]
  {
  }

  /** Every evaluator of the class is listed. */
  lemma {:induction false} ClassIndicesComplete(evs: seq<Evaluator>, pedagogical: bool, i: nat)
    requires i < |evs| && IsPedagogical(evs[i]) == pedagogical
    ensures i in ClassIndices(evs, pedagogical)
  {
    if i < |evs| - 1 {
      assert evs[..|evs| - 1][i] == evs[i];
      ClassIndicesComplete(evs[..|evs| - 1], pedagogical, i);
    }
  }

  /** The two classes are disjoint and together hold every evaluator. */
  lemma {:induction false} ClassesPartition(evs: seq<Evaluator>, i: nat)
    requires i < |evs|
    ensures (i in ClassIndices(evs, true)) != (i in ClassIndices(evs, false))
  {
    ClassIndicesComplete(evs, IsPedagogical(evs[i]), i);
  }

  /** A list comprehension over `cands`: those that `Admits` for `w`, in candidate order. */
  function Eligible(works: seq<Work>, evs: seq<Evaluator>, cands: seq<nat>, w: Work, expertise: bool): (r: seq<nat>)
    requires InRange(cands, |evs|)
    ensures InRange(r, |evs|) && |r| <= |cands|
    ensures forall j :: 0 <= j < |r| ==> r[j] in cands && Admits(works, evs[r[j]], w, expertise)
  {
    if cands == [] then []
    else
      var init, c := cands[..|cands| - 1], cands[|cands| - 1];
      assert cands == init + [c];
      var r := Eligible(works, evs, init, w, expertise);
      if Admits(works, evs[c], w, expertise) then r + [c] else r
  }

  /** Every candidate that `Admits` for `w` is kept. */
  lemma {:induction false} EligibleComplete(works: seq<Work>, evs: seq<Evaluator>, cands: seq<nat>, w: Work, expertise: bool, x: nat)
    requires InRange(cands, |evs|) && x in cands && x < |evs| && Admits(works, evs[x], w, expertise)
    ensures x in Eligible(works, evs, cands, w, expertise)
  {
    var init, c := cands[..|cands| - 1], cands[|cands| - 1];
    assert cands == init + [c];
    if x != c {
      EligibleComplete(works, evs, init, w, expertise, x);
    }
  }

  /** Membership in `Eligible`: a candidate that `Admits` for `w`. */
  lemma {:induction false} EligibleMembership(works: seq<Work>, evs: seq<Evaluator>, cands: seq<nat>, w: Work, expertise: bool, x: nat)
    requires InRange(cands, |evs|)
    ensures x in Eligible(works, evs, cands, w, expertise) <==> x in cands && x < |evs| && Admits(works, evs[x], w, expertise)
  {
    var r := Eligible(works, evs, cands, w, expertise);
    if x in r {
      var j :| 0 <= j < |r| && r[j] == x;
    }
    if x in cands && x < |evs| && Admits(works, evs[x], w, expertise) {
      EligibleComplete(works, evs, cands, w, expertise, x);
    }
  }

  /** The comprehension keeps the candidates' order. */
  lemma {:induction false} EligibleIncreasing(works: seq<Work>, evs: seq<Evaluator>, cands: seq<nat>, w: Work, expertise: bool)
    requires InRange(cands, |evs|) && Increasing(cands)
    ensures Increasing(Eligible(works, evs, cands, w, expertise))
  {
    if cands != [] {
      var init, c := cands[..|cands| - 1], cands[|cands| - 1];
      EligibleIncreasing(works, evs, init, w, expertise);
      var r := Eligible(works, evs, init, w, expertise);
      forall x | x in r ensures x < c {
        var j :| 0 <= j < |init| && init[j] == x;
        assert cands[j] == x;
      }
      if Admits(works, evs[c], w, expertise) {
        assert Eligible(works, evs, cands, w, expertise) == r + [c];
        forall i, j | 0 <= i < j < |r| + 1 ensures (r + [c])[i] < (r + [c])[j] {
          if j == |r| {
            assert r[i] in r;
          }
        }
      }
    }
  }

  /** What `Eligible` reads of an evaluator: its name and area, never its workload or subareas. */
  predicate SameIdentity(a: Evaluator, b: Evaluator) {
    a.name == b.name && a.area == b.area
  }

  /** Eligibility reads only names and areas: it is the same for evaluators that agree on them. */
  lemma {:induction false} EligibleReadsIdentity(works: seq<Work>, evs: seq<Evaluator>, evs': seq<Evaluator>, cands: seq<nat>, w: Work, expertise: bool)
    requires |evs| == |evs'| && InRange(cands, |evs|)
    requires forall i :: 0 <= i < |evs| ==> SameIdentity(evs[i], evs'[i])
    ensures Eligible(works, evs, cands, w, expertise) == Eligible(works, evs', cands, w, expertise)
  {
    if cands != [] {
      EligibleReadsIdentity(works, evs, evs', cands[..|cands| - 1], w, expertise);
    }
  }

  /** The evaluators differ from `base` at most in their workloads. */
  predicate LoadsOnly(evs: seq<Evaluator>, base: seq<Evaluator>) {
    |evs| == |base| && forall i :: 0 <= i < |base| ==> evs[i] == base[i].(workload := evs[i].workload)
  }

  /** `evs'` is `evs` with the workload of each evaluator of `s` raised by one. */
  predicate Bumped(evs: seq<Evaluator>, evs': seq<Evaluator>, s: set<nat>) {
    |evs'| == |evs| && forall i :: 0 <= i < |evs| ==> evs'[i] == evs[i].(workload := evs[i].workload + if i in s then 1 else 0)
  }

  /** Raising loads keeps every other field. */
  lemma {:induction false} BumpKeepsIdentity(evs: seq<Evaluator>, evs': seq<Evaluator>, base: seq<Evaluator>, s: set<nat>)
    requires LoadsOnly(evs, base) && Bumped(evs, evs', s)
    ensures LoadsOnly(evs', base)
    ensures forall i :: 0 <= i < |base| ==> SameIdentity(evs'[i], base[i])
  {
  }

  /** Links `(w, x)` for every `x` in `s`. */
  function Pairs(w: nat, s: set<nat>): set<(nat, nat)> {
    set x | x in s :: (w, x)
  }

  /** `work.evaluators`: the evaluators linked to work `w`. */
  function Row(links: set<(nat, nat)>, w: nat): set<nat> {
    set l | l in links && l.0 == w :: l.1
  }

  /** The number of works before position `k` linked to evaluator `i`. */
  function LinkCount(links: set<(nat, nat)>, i: nat, k: nat): nat {
    if k == 0 then 0 else LinkCount(links, i, k - 1) + (if (k - 1, i) in links then 1 else 0)
  }

  /** `LinkCount` is the size of the set of works linked to the evaluator. */
  lemma {:induction false} LinkCountIsCardinality(links: set<(nat, nat)>, i: nat, k: nat)
    ensures LinkCount(links, i, k) == |set w | 0 <= w < k && (w, i) in links|
  {
    if k > 0 {
      LinkCountIsCardinality(links, i, k - 1);
      var before := set w | 0 <= w < k - 1 && (w, i) in links;
      var now := set w | 0 <= w < k && (w, i) in links;
      if (k - 1, i) in links {
        assert now == before + {k - 1};
      } else {
        assert now == before;
      }
    }
  }

  /** `LinkCount` below `k` sees only the links of works below `k`. */
  lemma {:induction false} LinkCountBelow(links: set<(nat, nat)>, links': set<(nat, nat)>, i: nat, k: nat)
    requires forall l: (nat, nat) :: l.0 < k ==> (l in links <==> l in links')
    ensures LinkCount(links, i, k) == LinkCount(links', i, k)
  {
    if k > 0 {
      LinkCountBelow(links, links', i, k - 1);
    }
  }

  /** Linking work `k` to the evaluators in `s` adds one to the count of each of them. */
  lemma {:induction false} LinkCountStep(links: set<(nat, nat)>, k: nat, s: set<nat>, i: nat)
    requires forall l :: l in links ==> l.0 < k
    ensures LinkCount(links + Pairs(k, s), i, k + 1) == LinkCount(links, i, k) + (if i in s then 1 else 0)
  {
    LinkCountBelow(links, links + Pairs(k, s), i, k);
    assert (k, i) in links + Pairs(k, s) <==> i in s;
  }

  /** Linking work `k` to `s` gives row `k` exactly `s` and leaves every other row alone. */
  lemma {:induction false} RowStep(links: set<(nat, nat)>, k: nat, s: set<nat>)
    requires forall l :: l in links ==> l.0 < k
    ensures Row(links + Pairs(k, s), k) == s
    ensures forall w :: w != k ==> Row(links + Pairs(k, s), w) == Row(links, w)
  {
    var links' := links + Pairs(k, s);
    forall x ensures x in Row(links', k) <==> x in s {
      if x in s {
        assert (k, x) in links';
      }
    }
  }

  /** The technical evaluators among `row`. */
  function TechnicalIn(evs: seq<Evaluator>, row: set<nat>): set<nat> {
    set x | x in row && x < |evs| && !IsPedagogical(evs[x])
  }

  /**
   * A work's links after a successful run: every linked evaluator may evaluate
   * it, technical ones share its area, exactly one is pedagogical and one or
   * two are technical.
   */
  predicate RowAssigned(works: seq<Work>, evs: seq<Evaluator>, w: nat, row: set<nat>)
    requires w < |works|
  {
    (forall x :: x in row ==> x < |evs| && CanEvaluate(works, evs[x], works[w]) &&
                              (!IsPedagogical(evs[x]) ==> HasExpertise(evs[x], works[w]))) &&
    (exists p :: p in row && p < |evs| && IsPedagogical(evs[p]) &&
                 forall q :: q in row && q < |evs| && IsPedagogical(evs[q]) ==> q == p) &&
    1 <= |TechnicalIn(evs, row)| <= 2
  }

  /** Linking a work to a pedagogical evaluator and one or two technical ones with its area, all eligible, assigns its row. */
  lemma {:induction false} StepRowAssigned(works: seq<Work>, evs: seq<Evaluator>, k: nat, p: nat, chosen: set<nat>)
    requires k < |works| && p < |evs| && IsPedagogical(evs[p]) && CanEvaluate(works, evs[p], works[k])
    requires forall t :: t in chosen ==> t < |evs| && !IsPedagogical(evs[t]) &&
                                         CanEvaluate(works, evs[t], works[k]) && HasExpertise(evs[t], works[k])
    requires 1 <= |chosen| <= 2
    ensures RowAssigned(works, evs, k, {p} + chosen)
  {
    var row := {p} + chosen;
    forall x | x in TechnicalIn(evs, row) ensures x in chosen {
    }
    forall x | x in chosen ensures x in TechnicalIn(evs, row) {
    }
    assert TechnicalIn(evs, row) == chosen;
    forall q | q in row && q < |evs| && IsPedagogical(evs[q]) ensures q == p {
    }
    assert p in row && p < |evs| && IsPedagogical(evs[p]);
  }

  /**
   * The per-work loop has handled the works before `k`, for evaluators `base`
   * as they were before the run: links name earlier works and stored
   * evaluators, each earlier row is assigned, and every evaluator differs from
   * before only in its workload, which is its number of links.
   */
  ghost predicate PartlyDistributed(works: seq<Work>, base: seq<Evaluator>, evs: seq<Evaluator>, links: set<(nat, nat)>, k: nat) {
    k <= |works| && |evs| == |base| &&
    (forall l :: l in links ==> l.0 < k && l.1 < |base|) &&
    (forall w :: 0 <= w < k ==> RowAssigned(works, base, w, Row(links, w))) &&
    (forall i :: 0 <= i < |evs| ==> evs[i] == base[i].(workload := LinkCount(links, i, k)))
  }

  /** The state after a successful run: every work handled. */
  ghost predicate Distributed(works: seq<Work>, base: seq<Evaluator>, evs: seq<Evaluator>, links: set<(nat, nat)>) {
    PartlyDistributed(works, base, evs, links, |works|)
  }

  /** Before the loop: no links and zero workloads. */
  lemma {:induction false} NothingDistributed(works: seq<Work>, base: seq<Evaluator>, evs: seq<Evaluator>)
    requires |evs| == |base| && forall i :: 0 <= i < |evs| ==> evs[i] == base[i].(workload := 0)
    ensures PartlyDistributed(works, base, evs, {}, 0)
  {
  }

  /** Linking work `k` to an assigned row, and counting each link in the workloads, handles work `k`. */
  lemma {:induction false} DistributeStep(works: seq<Work>, base: seq<Evaluator>, evs: seq<Evaluator>, links: set<(nat, nat)>, k: nat,
                       row: set<nat>, evs': seq<Evaluator>)
    requires k < |works| && PartlyDistributed(works, base, evs, links, k)
    requires RowAssigned(works, base, k, row)
    requires |evs'| == |evs| && forall i :: 0 <= i < |evs| ==> evs'[i] == evs[i].(workload := evs[i].workload + if i in row then 1 else 0)
    ensures PartlyDistributed(works, base, evs', links + Pairs(k, row), k + 1)
  {
    var links' := links + Pairs(k, row);
    RowStep(links, k, row);
    forall i | 0 <= i < |evs'| ensures evs'[i] == base[i].(workload := LinkCount(links', i, k + 1)) {
      LinkCountStep(links, k, row, i);
    }
  }

  /** The pre-check's pedagogical loop: how many of `idx` have no work of their own in `subarea`. */
  method CountFree(works: seq<Work>, evs: seq<Evaluator>, idx: seq<nat>, subarea: string) returns (count: nat)
    requires InRange(idx, |evs|)
    ensures count <= |idx|
    ensures count == 0 <==> forall m :: 0 <= m < |idx| ==> HasConflict(works, evs[idx[m]].name, subarea)
  {
    count := 0;
    for j := 0 to |idx|
      invariant count <= j
      invariant count == 0 <==> forall m :: 0 <= m < j ==> HasConflict(works, evs[idx[m]].name, subarea)
    {
      if !HasConflict(works, evs[idx[j]].name, subarea) {
        count := count + 1;
      }
    }
  }

  /** The pre-check's technical loop: how many of `idx` pass the technical test for `subarea`. */
  method CountFreeExperts(works: seq<Work>, evs: seq<Evaluator>, idx: seq<nat>, subarea: string) returns (count: nat)
    requires InRange(idx, |evs|)
    ensures count <= |idx|
    ensures count == 0 <==> forall m :: 0 <= m < |idx| ==> !TechnicalAvailable(works, evs[idx[m]], subarea)
  {
    var example := ExampleWork(works, subarea);
    count := 0;
    for j := 0 to |idx|
      invariant count <= j
      invariant count == 0 <==> forall m :: 0 <= m < j ==> !TechnicalAvailable(works, evs[idx[m]], subarea)
    {
      var conflict := HasConflict(works, evs[idx[j]].name, subarea);
      var expertise := example.Some? && evs[idx[j]].area == example.value.area;
      if !conflict && expertise {
        count := count + 1;
      }
    }
  }

  /** One problem the pre-check reports. */
  datatype Problem = NoPedagogicalIn(subarea: string) | NoTechnicalIn(subarea: string)

  /** The subareas of the stored works (`set(work.subarea for work in works)`). */
  function Subareas(works: seq<Work>): set<string> {
    set w | w in works :: w.subarea
  }

  /** `next((w for w in works if w.subarea == subarea), None)`. */
  function ExampleWork(works: seq<Work>, subarea: string): (r: Wrappers.Option<Work>)
    ensures r.Some? ==> r.value in works && r.value.subarea == subarea
    ensures r.Some? ==> exists k :: 0 <= k < |works| && works[k] == r.value && forall j :: 0 <= j < k ==> works[j].subarea != subarea
    ensures r.None? ==> subarea !in Subareas(works)
  {
    if works == [] then Wrappers.None
    else if works[0].subarea == subarea then Wrappers.Some(works[0])
    else
      ExampleWork(works[1..], subarea)
  }

  /** The pre-check's test for a technical evaluator: no conflict in the subarea, and the area of the subarea's first work. */
  predicate TechnicalAvailable(works: seq<Work>, e: Evaluator, subarea: string) {
    !HasConflict(works, e.name, subarea) &&
    ExampleWork(works, subarea).Some? && e.area == ExampleWork(works, subarea).value.area
  }

  /** Some pedagogical evaluator has no work of their own in `subarea`. */
  predicate PedagogicalAvailableIn(works: seq<Work>, evs: seq<Evaluator>, subarea: string) {
    exists i :: 0 <= i < |evs| && IsPedagogical(evs[i]) && !HasConflict(works, evs[i].name, subarea)
  }

  /** Some technical evaluator passes the pre-check's test for `subarea`. */
  predicate TechnicalAvailableIn(works: seq<Work>, evs: seq<Evaluator>, subarea: string) {
    exists i :: 0 <= i < |evs| && !IsPedagogical(evs[i]) && TechnicalAvailable(works, evs[i], subarea)
  }

  /** Availability can be read off the pedagogical class alone. */
  lemma {:induction false} PedagogicalAvailableListed(works: seq<Work>, evs: seq<Evaluator>, ped: seq<nat>, subarea: string)
    requires ped == ClassIndices(evs, true)
    ensures PedagogicalAvailableIn(works, evs, subarea) <==>
      exists m :: 0 <= m < |ped| && !HasConflict(works, evs[ped[m]].name, subarea)
  {
    if PedagogicalAvailableIn(works, evs, subarea) {
      var i :| 0 <= i < |evs| && IsPedagogical(evs[i]) && !HasConflict(works, evs[i].name, subarea);
      ClassIndicesComplete(evs, true, i);
      var m :| 0 <= m < |ped| && ped[m] == i;
    }
    if exists m :: 0 <= m < |ped| && !HasConflict(works, evs[ped[m]].name, subarea) {
      var m :| 0 <= m < |ped| && !HasConflict(works, evs[ped[m]].name, subarea);
      assert IsPedagogical(evs[ped[m]]);
    }
  }

  /** Availability can be read off the technical class alone. */
  lemma {:induction false} TechnicalAvailableListed(works: seq<Work>, evs: seq<Evaluator>, tec: seq<nat>, subarea: string)
    requires tec == ClassIndices(evs, false)
    ensures TechnicalAvailableIn(works, evs, subarea) <==>
      exists m :: 0 <= m < |tec| && TechnicalAvailable(works, evs[tec[m]], subarea)
  {
    if TechnicalAvailableIn(works, evs, subarea) {
      var i :| 0 <= i < |evs| && !IsPedagogical(evs[i]) && TechnicalAvailable(works, evs[i], subarea);
      ClassIndicesComplete(evs, false, i);
      var m :| 0 <= m < |tec| && tec[m] == i;
    }
    if exists m :: 0 <= m < |tec| && TechnicalAvailable(works, evs[tec[m]], subarea) {
      var m :| 0 <= m < |tec| && TechnicalAvailable(works, evs[tec[m]], subarea);
      assert !IsPedagogical(evs[tec[m]]);
    }
  }

  /** The pre-check's verdict on one subarea: the pedagogical shortage is reported first. */
  function SubareaProblem(works: seq<Work>, evs: seq<Evaluator>, subarea: string): (r: Wrappers.Option<Problem>)
    ensures r.Some? ==> r.value.subarea == subarea
  {
    if !PedagogicalAvailableIn(works, evs, subarea) then Wrappers.Some(NoPedagogicalIn(subarea))
    else if !TechnicalAvailableIn(works, evs, subarea) then Wrappers.Some(NoTechnicalIn(subarea))
    else Wrappers.None
  }

  /** The problems of the subareas in `ss`. */
  function ProblemsAmong(works: seq<Work>, evs: seq<Evaluator>, ss: set<string>): set<Problem> {
    set s | s in ss && SubareaProblem(works, evs, s).Some? :: SubareaProblem(works, evs, s).value
  }

  /** Every problem the pre-check finds in the store. */
  function ProblemSet(works: seq<Work>, evs: seq<Evaluator>): set<Problem> {
    ProblemsAmong(works, evs, Subareas(works))
  }

  /** Visiting one more subarea adds its problem, if it has one. */
  lemma {:induction false} ProblemsAmongAdd(works: seq<Work>, evs: seq<Evaluator>, done: set<string>, s: string)
    ensures ProblemsAmong(works, evs, done + {s}) ==
            ProblemsAmong(works, evs, done) + (if SubareaProblem(works, evs, s).Some? then {SubareaProblem(works, evs, s).value} else {})
  {
  }

  /** The pedagogical evaluator and the technical ones picked from the two comprehensions assign the row. */
  lemma {:induction false} ChosenRowAssigned(works: seq<Work>, base: seq<Evaluator>, k: nat, ped: seq<nat>, tec: seq<nat>, p: nat, chosen: set<nat>)
    requires k < |works| && ped == ClassIndices(base, true) && tec == ClassIndices(base, false)
    requires p in Eligible(works, base, ped, works[k], false)
    requires forall t :: t in chosen ==> t in Eligible(works, base, tec, works[k], true)
    requires 1 <= |chosen| <= 2
    ensures RowAssigned(works, base, k, {p} + chosen)
  {
    StepRowAssigned(works, base, k, p, chosen);
  }

  /** A pass that links work `k` to one eligible pedagogical evaluator and one or two eligible technical ones extends the distribution to `k + 1`. */
  lemma {:induction false} AssignedStep(works: seq<Work>, base: seq<Evaluator>, evs: seq<Evaluator>, links: set<(nat, nat)>, k: nat,
                     ped: seq<nat>, tec: seq<nat>, p: nat, chosen: set<nat>, evs': seq<Evaluator>)
    requires k < |works| && ped == ClassIndices(base, true) && tec == ClassIndices(base, false)
    requires PartlyDistributed(works, base, evs, links, k)
    requires p in Eligible(works, base, ped, works[k], false) && 1 <= |chosen| <= 2
    requires forall t :: t in chosen ==> t in Eligible(works, base, tec, works[k], true)
    requires |evs'| == |evs|
    requires forall i :: 0 <= i < |evs'| ==> evs'[i] == evs[i].(workload := evs[i].workload + if i in {p} + chosen then 1 else 0)
    ensures PartlyDistributed(works, base, evs', links + Pairs(k, {p} + chosen), k + 1)
  {
    ChosenRowAssigned(works, base, k, ped, tec, p, chosen);
    DistributeStep(works, base, evs, links, k, {p} + chosen, evs');
  }

  /** Linking work `k` to `s` and then to `t` links it to both. */
  lemma {:induction false} PairsUnion(links: set<(nat, nat)>, k: nat, s: set<nat>, t: set<nat>)
    ensures links + Pairs(k, s) + Pairs(k, t) == links + Pairs(k, s + t)
  {
  }

  /** Raising the loads of `s` and then of `t`, two disjoint sets, raises the loads of their union. */
  lemma {:induction false} LoadsUnion(e0: seq<Evaluator>, e1: seq<Evaluator>, e2: seq<Evaluator>, s: set<nat>, t: set<nat>)
    requires s !! t && Bumped(e0, e1, s) && Bumped(e1, e2, t)
    ensures Bumped(e0, e2, s + t)
  {
  }

  /** The pedagogical link followed by the technical ones: one link and one unit of load for each evaluator of `{p} + t`. */
  lemma {:induction false} PassComposed(links: set<(nat, nat)>, k: nat, p: nat, t: set<nat>, e0: seq<Evaluator>, e1: seq<Evaluator>, e2: seq<Evaluator>)
    requires p !in t && Bumped(e0, e1, {p}) && Bumped(e1, e2, t)
    ensures links + Pairs(k, {p}) + Pairs(k, t) == links + Pairs(k, {p} + t)
    ensures Bumped(e0, e2, {p} + t)
  {
    PairsUnion(links, k, {p}, t);
    LoadsUnion(e0, e1, e2, {p}, t);
  }

  /**
   * What one pass of the per-work loop does for `w`: it raises when no
   * pedagogical evaluator qualifies, then when no technical one does.
   */
  function StepOutcome(works: seq<Work>, base: seq<Evaluator>, ped: seq<nat>, tec: seq<nat>, w: Work): (r: Outcome)
    requires InRange(ped, |base|) && InRange(tec, |base|)
    ensures r.Raised? ==> r.failure.InLoop()
  {
    if Eligible(works, base, ped, w, false) == [] then Raised(NoPedagogicalFor(w.title, w.subarea))
    else if Eligible(works, base, tec, w, true) == [] then Raised(NoTechnicalFor(w.title, w.area, w.subarea))
    else Done
  }

  /** The outcome of the per-work loop from work `k` on: the first pass that raises, or `Done`. */
  function RunOutcome(works: seq<Work>, base: seq<Evaluator>, ped: seq<nat>, tec: seq<nat>, k: nat): (r: Outcome)
    requires InRange(ped, |base|) && InRange(tec, |base|)
    ensures r.Raised? ==> r.failure.InLoop()
    decreases |works| - k
  {
    if k >= |works| then Done
    else if StepOutcome(works, base, ped, tec, works[k]).Raised? then StepOutcome(works, base, ped, tec, works[k])
    else RunOutcome(works, base, ped, tec, k + 1)
  }

  /** The problems listed in `ps`. */
  function Elements(ps: seq<Problem>): set<Problem> {
    set x | x in ps
  }

  lemma {:induction false} ElementsAppend(ps: seq<Problem>, p: Problem)
    ensures Elements(ps + [p]) == Elements(ps) + {p}
  {
  }

  /** The store passes every check made before the first write. */
  predicate Feasible(works: seq<Work>, evs: seq<Evaluator>) {
    works != [] && ClassIndices(evs, true) != [] && ClassIndices(evs, false) != [] && ProblemSet(works, evs) == {}
  }

  lemma {:induction false} NoProblemIn(works: seq<Work>, evs: seq<Evaluator>, s: string)
    requires ProblemSet(works, evs) == {} && s in Subareas(works)
    ensures SubareaProblem(works, evs, s).None?
  {
    assert SubareaProblem(works, evs, s).GetOr(NoPedagogicalIn(s)) !in ProblemSet(works, evs);
  }

  /** Once the pre-check passes, every work has an eligible pedagogical evaluator: that raise cannot fire. */
  lemma {:induction false} FeasibleAdmitsPedagogical(works: seq<Work>, evs: seq<Evaluator>, k: nat)
    requires Feasible(works, evs) && k < |works|
    ensures Eligible(works, evs, ClassIndices(evs, true), works[k], false) != []
  {
    var s := works[k].subarea;
    assert works[k] in works;
    NoProblemIn(works, evs, s);
    var i :| 0 <= i < |evs| && IsPedagogical(evs[i]) && !HasConflict(works, evs[i].name, s);
    CanEvaluateStoredWork(works, evs[i], k);
    ClassIndicesComplete(evs, true, i);
    EligibleComplete(works, evs, ClassIndices(evs, true), works[k], false, i);
  }

  /** A subarea with a conflict-free pedagogical evaluator and an available technical one has no problem. */
  lemma {:induction false} SubareaWithoutProblem(works: seq<Work>, evs: seq<Evaluator>, s: string, i: nat, j: nat)
    requires i < |evs| && IsPedagogical(evs[i]) && !HasConflict(works, evs[i].name, s)
    requires j < |evs| && !IsPedagogical(evs[j]) && TechnicalAvailable(works, evs[j], s)
    ensures SubareaProblem(works, evs, s).None?
  {
    assert SubareaProblem(works, evs, s).GetOr(NoPedagogicalIn(s)) !in ProblemSet(works, evs);
  }

  /** A store of one subarea without a problem has no problem at all. */
  lemma {:induction false} SingleSubareaWithoutProblem(works: seq<Work>, evs: seq<Evaluator>, s: string)
    requires Subareas(works) == {s} && SubareaProblem(works, evs, s).None?
    ensures ProblemSet(works, evs) == {}
  {
  }

  /** Two works of one subarea, neither advised by `name`. */
  lemma {:induction false} TwoWorksOneSubarea(w1: Work, w2: Work, name: string)
    requires w1.subarea == w2.subarea && name != w1.advisor && name != w2.advisor
    ensures Subareas([w1, w2]) == {w1.subarea}
    ensures !HasConflict([w1, w2], name, w1.subarea)
    ensures ExampleWork([w1, w2], w1.subarea) == Wrappers.Some(w1)
  {
    assert w1 in [w1, w2];
  }

  /** The classes of a pedagogical evaluator followed by a technical one. */
  lemma {:induction false} PairClasses(p: Evaluator, t: Evaluator)
    requires IsPedagogical(p) && !IsPedagogical(t)
    ensures ClassIndices([p, t], true) == [0] && ClassIndices([p, t], false) == [1]
  {
    assert [p, t][..1] == [p];
    assert [p][..0] == [];
    assert ClassIndices([], true) == [] && ClassIndices([], false) == [];
    assert ClassIndices([p], true) == [0];
    assert ClassIndices([p], false) == [];
  }

  /**
   * The technical raise is still reachable after the pre-check passes: the
   * pre-check looks only at the first work of a subarea, and a later work of
   * the same subarea may belong to another area.
   */
  lemma {:induction false} TechnicalRaiseReachable(w1: Work, w2: Work, p: Evaluator, t: Evaluator)
    requires w1.subarea == w2.subarea && w1.area != w2.area
    requires IsPedagogical(p) && !IsPedagogical(t) && t.area == w1.area
    requires p.name != w1.advisor && p.name != w2.advisor && t.name != w1.advisor && t.name != w2.advisor
    ensures Feasible([w1, w2], [p, t])
    ensures Eligible([w1, w2], [p, t], ClassIndices([p, t], false), w2, true) == []
  {
    var works, evs := [w1, w2], [p, t];
    var s := w1.subarea;
    TwoWorksOneSubarea(w1, w2, p.name);
    TwoWorksOneSubarea(w1, w2, t.name);
    SubareaWithoutProblem(works, evs, s, 0, 1);
    SingleSubareaWithoutProblem(works, evs, s);
    PairClasses(p, t);
    assert [1][..0] == [];
  }

  /** An instance with catalogue areas: a pedagogical evaluator and an agrarian one, two works of one subarea. */
  lemma {:induction false} TechnicalRaiseExample()
    ensures var w1 := Work(1, "Horta", "Ana", "Caio", "poster_banner", Areas.Catalogue[1].0, "Ecologia");
            var w2 := Work(2, "Rio", "Bia", "Caio", "poster_banner", Areas.Catalogue[2].0, "Ecologia");
            var p := NewEvaluator(1, "Davi", "1234567", "01011980", Areas.Pedagogical, "");
            var t := NewEvaluator(2, "Eva", "7654321", "01011980", Areas.Catalogue[1].0, "");
            Feasible([w1, w2], [p, t]) && Eligible([w1, w2], [p, t], ClassIndices([p, t], false), w2, true) == []
  {
    var w1 := Work(1, "Horta", "Ana", "Caio", "poster_banner", Areas.Catalogue[1].0, "Ecologia");
    var w2 := Work(2, "Rio", "Bia", "Caio", "poster_banner", Areas.Catalogue[2].0, "Ecologia");
    var p := NewEvaluator(1, "Davi", "1234567", "01011980", Areas.Pedagogical, "");
    var t := NewEvaluator(2, "Eva", "7654321", "01011980", Areas.Catalogue[1].0, "");
    Areas.PedagogicalMatchesMarker();
    Areas.AgrariasLacksMarker();
    TechnicalRaiseReachable(w1, w2, p, t);
  }

  /** The reason `distribute_works` raises. */
  datatype Failure =
    | NoWorks
    | NoPedagogicalEvaluator
    | NoTechnicalEvaluator
    | Infeasible(problems: seq<Problem>)
    | NoPedagogicalFor(title: string, subarea: string)
    | NoTechnicalFor(title: string, area: string, subarea: string)
  {
    /** Raised by the per-work loop, after the clear and reset were committed. */
    predicate InLoop() {
      NoPedagogicalFor? || NoTechnicalFor?
    }
  }

  /** `distribute_works` returns, or raises with a reason. */
  datatype Outcome = Done | Raised(failure: Failure)

  function ProblemMessage(p: Problem): string {
    match p
    case NoPedagogicalIn(s) => "Subárea \"" + s + "\": Sem avaliadores pedagógicos disponíveis"
    case NoTechnicalIn(s) => "Subárea \"" + s + "\": Sem avaliadores técnicos disponíveis"
  }

  /** `'\n'.join(...)` of the problem messages. */
  function JoinMessages(ps: seq<Problem>): string {
    if ps == [] then ""
    else if |ps| == 1 then ProblemMessage(ps[0])
    else ProblemMessage(ps[0]) + "\n" + JoinMessages(ps[1..])
  }

  /** The text of the exception. */
  function Message(f: Failure): string {
    match f
    case NoWorks => "Não há trabalhos cadastrados para distribuir."
    case NoPedagogicalEvaluator => "É necessário pelo menos um avaliador pedagógico cadastrado."
    case NoTechnicalEvaluator => "É necessário pelo menos um avaliador técnico cadastrado."
    case Infeasible(ps) => "Problemas encontrados na distribuição:\n" + JoinMessages(ps)
    case NoPedagogicalFor(title, subarea) =>
      "Não há avaliadores pedagógicos disponíveis para o trabalho \"" + title + "\" (subárea: " + subarea + ")."
    case NoTechnicalFor(title, area, subarea) =>
      "Não há avaliadores técnicos com expertise na área \"" + area + "\" disponíveis para o trabalho \"" +
      title + "\" (subárea: " + subarea + ")."
  }

  /** Some subset of `s` has `k` elements. */
  lemma {:induction false} SubsetOfSize(s: set<nat>, k: nat)
    requires k <= |s|
    ensures exists t :: t <= s && |t| == k
  {
    if k > 0 {
      var x :| x in s;
      SubsetOfSize(s - {x}, k - 1);
      var t :| t <= s - {x} && |t| == k - 1;
      assert t + {x} <= s && |t + {x}| == k;
    } else {
      var e: set<nat> := {};
      assert e <= s && |e| == 0;
    }
  }

  /** The eligible evaluators whose workload is the least among the eligible. */
  function MinTier(evs: seq<Evaluator>, eligible: seq<nat>): set<nat>
    requires InRange(eligible, |evs|)
  {
    set c | c in eligible && forall d :: d in eligible ==> evs[c].workload <= evs[d].workload
  }

  /** The least tier depends only on the workloads of the eligible evaluators. */
  lemma {:induction false} MinTierReadsLoads(evs: seq<Evaluator>, evs': seq<Evaluator>, eligible: seq<nat>)
    requires |evs| == |evs'| && InRange(eligible, |evs|)
    requires forall c :: c in eligible ==> c < |evs| && evs[c].workload == evs'[c].workload
    ensures MinTier(evs, eligible) == MinTier(evs', eligible)
  {
  }

  /**
   * The choices of one pass for work `k` on workloads `evs`: the pedagogical
   * evaluator `min` picks (eligible, of least workload, the first such in
   * table order), and `min(n, size of the tier)` eligible technical ones of
   * the least-workload tier, for a drawn `n` of 1 or 2.
   */
  ghost predicate LeastLoadedChoice(works: seq<Work>, base: seq<Evaluator>, evs: seq<Evaluator>, ped: seq<nat>, tec: seq<nat>,
                                    k: nat, p: nat, chosen: set<nat>, n: nat)
    requires k < |works| && |evs| == |base| && InRange(ped, |base|) && InRange(tec, |base|)
  {
    var elP := Eligible(works, base, ped, works[k], false);
    var elT := Eligible(works, base, tec, works[k], true);
    p in elP && p in ped &&
    (forall c :: c in elP ==> evs[p].workload <= evs[c].workload) &&
    (forall c :: c in elP && c < p ==> evs[p].workload < evs[c].workload) &&
    (forall t :: t in chosen ==> t in elT && t in tec) &&
    (n == 1 || n == 2) && chosen <= MinTier(evs, elT) && |chosen| == Python.Min(n, |MinTier(evs, elT)|)
  }

  /**
   * The technical choice is made after the pedagogical evaluator's load went
   * up; as that evaluator is not among the technical candidates, their least
   * tier is the one of the workloads before the pass.
   */
  lemma {:induction false} BumpOutsideTier(e0: seq<Evaluator>, e1: seq<Evaluator>, el: seq<nat>, p: nat)
    requires |e1| == |e0| && InRange(el, |e0|) && p !in el
    requires forall i :: 0 <= i < |e0| ==> e1[i] == e0[i].(workload := e0[i].workload + if i in {p} then 1 else 0)
    ensures MinTier(e1, el) == MinTier(e0, el)
  {
    forall c | c in el ensures c < |e0| && e0[c].workload == e1[c].workload {
      var j :| 0 <= j < |el| && el[j] == c;
    }
    MinTierReadsLoads(e0, e1, el);
  }

  /** The eligible evaluators of `el` with the fewest links among the works before `w`. */
  function LoadTier(links: set<(nat, nat)>, w: nat, el: seq<nat>): set<nat> {
    set c | c in el && forall d :: d in el ==> LinkCount(links, c, w) <= LinkCount(links, d, w)
  }

  /** While the loop runs, the workloads are the link counts, so the two tiers coincide. */
  lemma {:induction false} MinTierIsLoadTier(evs: seq<Evaluator>, links: set<(nat, nat)>, k: nat, el: seq<nat>)
    requires InRange(el, |evs|)
    requires forall i :: 0 <= i < |evs| ==> evs[i].workload == LinkCount(links, i, k)
    ensures MinTier(evs, el) == LoadTier(links, k, el)
  {
    forall c | c in el ensures evs[c].workload == LinkCount(links, c, k) {
      var j :| 0 <= j < |el| && el[j] == c;
    }
  }

  /**
   * `p` is what `min` picks for work `w`: an eligible pedagogical evaluator
   * with the fewest links among the works before `w`, and the first of them
   * in table order.
   */
  ghost predicate LeastLoadedPedagogical(works: seq<Work>, base: seq<Evaluator>, links: set<(nat, nat)>, w: nat, p: nat)
    requires w < |works|
  {
    var el := Eligible(works, base, ClassIndices(base, true), works[w], false);
    p in el &&
    (forall c :: c in el ==> LinkCount(links, p, w) <= LinkCount(links, c, w)) &&
    (forall c :: c in el && c < p ==> LinkCount(links, p, w) < LinkCount(links, c, w))
  }

  /**
   * `t` is what the technical choice may take for work `w`: eligible technical
   * evaluators of the least tier before `w`, one or two of them (all of the
   * tier when it is smaller).
   */
  ghost predicate LeastLoadedTechnical(works: seq<Work>, base: seq<Evaluator>, links: set<(nat, nat)>, w: nat, t: set<nat>)
    requires w < |works|
  {
    var tier := LoadTier(links, w, Eligible(works, base, ClassIndices(base, false), works[w], true));
    t <= tier && (|t| == Python.Min(1, |tier|) || |t| == Python.Min(2, |tier|))
  }

  /** Every work before `k` went to evaluators that were least loaded when the loop reached it. */
  ghost predicate Balanced(works: seq<Work>, base: seq<Evaluator>, links: set<(nat, nat)>, k: nat) {
    k <= |works| &&
    forall w :: 0 <= w < k ==>
      (forall p :: p in Row(links, w) && p < |base| && IsPedagogical(base[p]) ==> LeastLoadedPedagogical(works, base, links, w, p)) &&
      LeastLoadedTechnical(works, base, links, w, TechnicalIn(base, Row(links, w)))
  }

  /** Links of later works do not change which evaluators were least loaded at work `w`. */
  lemma {:induction false} LaterLinksKeepChoice(works: seq<Work>, base: seq<Evaluator>, links: set<(nat, nat)>, links': set<(nat, nat)>, w: nat)
    requires w < |works|
    requires forall l: (nat, nat) :: l.0 < w ==> (l in links <==> l in links')
    ensures forall p :: LeastLoadedPedagogical(works, base, links, w, p) == LeastLoadedPedagogical(works, base, links', w, p)
    ensures forall t :: LeastLoadedTechnical(works, base, links, w, t) == LeastLoadedTechnical(works, base, links', w, t)
  {
    forall i ensures LinkCount(links, i, w) == LinkCount(links', i, w) {
      LinkCountBelow(links, links', i, w);
    }
    var el := Eligible(works, base, ClassIndices(base, false), works[w], true);
    assert LoadTier(links, w, el) == LoadTier(links', w, el);
  }

  /**
   * The choices of one pass, made on the workloads the loop has reached, are
   * the least loaded ones by link count: the pass keeps the distribution balanced.
   */
  lemma {:induction false} LeastLoadedPass(works: seq<Work>, base: seq<Evaluator>, evs: seq<Evaluator>, links: set<(nat, nat)>, k: nat,
                                           p: nat, chosen: set<nat>, n: nat)
    requires k < |works| && PartlyDistributed(works, base, evs, links, k) && Balanced(works, base, links, k)
    requires LeastLoadedChoice(works, base, evs, ClassIndices(base, true), ClassIndices(base, false), k, p, chosen, n)
    ensures Balanced(works, base, links + Pairs(k, {p} + chosen), k + 1)
  {
    var ped, tec := ClassIndices(base, true), ClassIndices(base, false);
    forall c | c in ped ensures c < |base| && IsPedagogical(base[c]) {
      var j :| 0 <= j < |ped| && ped[j] == c;
    }
    forall c | c in tec ensures c < |base| && !IsPedagogical(base[c]) {
      var j :| 0 <= j < |tec| && tec[j] == c;
    }
    forall i | 0 <= i < |evs| ensures evs[i].workload == LinkCount(links, i, k) {
      assert evs[i] == base[i].(workload := LinkCount(links, i, k));
    }
    MinTierIsLoadTier(evs, links, k, Eligible(works, base, tec, works[k], true));
    BalancedStep(works, base, links, k, p, chosen);
  }

  /** A pass that links work `k` to its least loaded choices, and counts them in the workloads, extends a balanced distribution by one work. */
  lemma {:induction false} BalancedPass(works: seq<Work>, base: seq<Evaluator>, evs: seq<Evaluator>, links: set<(nat, nat)>, k: nat,
                                        p: nat, chosen: set<nat>, n: nat, evs': seq<Evaluator>)
    requires k < |works| && PartlyDistributed(works, base, evs, links, k) && Balanced(works, base, links, k)
    requires LeastLoadedChoice(works, base, evs, ClassIndices(base, true), ClassIndices(base, false), k, p, chosen, n)
    requires 1 <= |chosen| <= 2 && Bumped(evs, evs', {p} + chosen)
    ensures PartlyDistributed(works, base, evs', links + Pairs(k, {p} + chosen), k + 1)
    ensures Balanced(works, base, links + Pairs(k, {p} + chosen), k + 1)
  {
    AssignedStep(works, base, evs, links, k, ClassIndices(base, true), ClassIndices(base, false), p, chosen, evs');
    LeastLoadedPass(works, base, evs, links, k, p, chosen, n);
  }

  /** Linking work `k` to a least loaded pedagogical evaluator and least loaded technical ones keeps the distribution balanced. */
  lemma {:induction false} BalancedStep(works: seq<Work>, base: seq<Evaluator>, links: set<(nat, nat)>, k: nat, p: nat, chosen: set<nat>)
    requires k < |works| && Balanced(works, base, links, k)
    requires forall l :: l in links ==> l.0 < k
    requires p < |base| && IsPedagogical(base[p]) && LeastLoadedPedagogical(works, base, links, k, p)
    requires forall t :: t in chosen ==> t < |base| && !IsPedagogical(base[t])
    requires LeastLoadedTechnical(works, base, links, k, chosen)
    ensures Balanced(works, base, links + Pairs(k, {p} + chosen), k + 1)
  {
    var row := {p} + chosen;
    var links' := links + Pairs(k, row);
    RowStep(links, k, row);
    forall w | 0 <= w < k + 1
      ensures (forall q :: q in Row(links', w) && q < |base| && IsPedagogical(base[q]) ==> LeastLoadedPedagogical(works, base, links', w, q)) &&
              LeastLoadedTechnical(works, base, links', w, TechnicalIn(base, Row(links', w)))
    {
      LaterLinksKeepChoice(works, base, links, links', w);
      if w == k {
        assert TechnicalIn(base, row) == chosen;
      }
    }
  }

  /** The works of the store, the evaluator table and the association table. */
  class Distributor {
    var works: seq<Work>
    var evaluators: seq<Evaluator>
    var links: set<(nat, nat)>

    constructor (works: seq<Work>, evaluators: seq<Evaluator>, links: set<(nat, nat)>)
      ensures this.works == works && this.evaluators == evaluators && this.links == links
    {
      this.works, this.evaluators, this.links := works, evaluators, links;
    }

    /** `can_evaluate`: scans the works the evaluator advises for one of the work's subarea. */
    method CheckCanEvaluate(e: Evaluator, w: Work) returns (ok: bool)
      ensures ok <==> CanEvaluate(works, e, w)
    {
      if e.name == w.advisor {
        return false;
      }
      for k := 0 to |works|
        invariant forall j :: 0 <= j < k ==> !(works[j].advisor == e.name && works[j].subarea == w.subarea)
      {
        if works[k].advisor == e.name && works[k].subarea == w.subarea {
          return false;
        }
      }
      return true;
    }

    /** A list comprehension of the per-work step: the candidates that `can_evaluate` (and `has_expertise`) for `w`. */
    method EligibleFor(cands: seq<nat>, w: Work, expertise: bool) returns (r: seq<nat>)
      requires InRange(cands, |evaluators|)
      ensures r == Eligible(works, evaluators, cands, w, expertise)
    {
      r := [];
      for j := 0 to |cands|
        invariant r == Eligible(works, evaluators, cands[..j], w, expertise)
      {
        assert cands[..j + 1][..j] == cands[..j];
        var c := cands[j];
        var ok := CheckCanEvaluate(evaluators[c], w);
        if ok && (expertise ==> evaluators[c].area == w.area) {
          r := r + [c];
        }
      }
      assert cands[..|cands|] == cands;
    }

    /** `min(eligible, key=lambda e: e.workload)`: the first eligible evaluator of least workload. */
    method SelectPedagogical(eligible: seq<nat>) returns (p: nat)
      requires eligible != [] && Increasing(eligible) && InRange(eligible, |evaluators|)
      ensures p in eligible
      ensures forall c :: c in eligible ==> evaluators[p].workload <= evaluators[c].workload
      ensures forall c :: c in eligible && c < p ==> evaluators[p].workload < evaluators[c].workload
    {
      var best := 0;
      for i := 1 to |eligible|
        invariant 0 <= best < i
        invariant forall j :: 0 <= j < i ==> evaluators[eligible[best]].workload <= evaluators[eligible[j]].workload
        invariant forall j :: 0 <= j < best ==> evaluators[eligible[best]].workload < evaluators[eligible[j]].workload
      {
        if evaluators[eligible[i]].workload < evaluators[eligible[best]].workload {
          best := i;
        }
      }
      p := eligible[best];
      forall c | c in eligible && c < p ensures evaluators[p].workload < evaluators[c].workload {
        var j :| 0 <= j < |eligible| && eligible[j] == c;
      }
    }

    /**
     * The technical choice: the least workload among the eligible (the head of
     * the list sorted by workload), the candidates at that workload, shuffled,
     * and the first `n` of them.
     */
    method SelectTechnical(eligible: seq<nat>, n: nat) returns (chosen: set<nat>)
      requires eligible != [] && InRange(eligible, |evaluators|)
      requires n == 1 || n == 2
      ensures chosen <= MinTier(evaluators, eligible)
      ensures |chosen| == Python.Min(n, |MinTier(evaluators, eligible)|)
      ensures 1 <= |chosen| <= n
    {
      var at := 0;
      for i := 1 to |eligible|
        invariant 0 <= at < |eligible|
        invariant forall j :: 0 <= j < i ==> evaluators[eligible[at]].workload <= evaluators[eligible[j]].workload
      {
        if evaluators[eligible[i]].workload < evaluators[eligible[at]].workload {
          at := i;
        }
      }
      var least := evaluators[eligible[at]].workload;
      var candidates := set c | c in eligible && evaluators[c].workload == least;
      assert candidates == MinTier(evaluators, eligible) by {
        forall c | c in candidates ensures forall d :: d in eligible ==> evaluators[c].workload <= evaluators[d].workload {
          forall d | d in eligible ensures evaluators[c].workload <= evaluators[d].workload {
            var j :| 0 <= j < |eligible| && eligible[j] == d;
          }
        }
      }
      assert eligible[at] in candidates;
      var taken := Python.Min(n, |candidates|);
      SubsetOfSize(candidates, taken);
      chosen :| chosen <= candidates && |chosen| == taken;
    }

    /** How many pedagogical evaluators have no work of their own in `subarea`. */
    method CountPedagogical(ped: seq<nat>, subarea: string) returns (count: nat)
      requires ped == ClassIndices(evaluators, true)
      ensures count <= |ped|
      ensures count == 0 <==> !PedagogicalAvailableIn(works, evaluators, subarea)
    {
      count := CountFree(works, evaluators, ped, subarea);
      PedagogicalAvailableListed(works, evaluators, ped, subarea);
    }

    /** How many technical evaluators have no work of their own in `subarea` and the area of its first work. */
    method CountTechnical(tec: seq<nat>, subarea: string) returns (count: nat)
      requires tec == ClassIndices(evaluators, false)
      ensures count <= |tec|
      ensures count == 0 <==> !TechnicalAvailableIn(works, evaluators, subarea)
    {
      count := CountFreeExperts(works, evaluators, tec, subarea);
      TechnicalAvailableListed(works, evaluators, tec, subarea);
    }

    /**
     * The pre-check: visits every subarea once, in the set's order, and reports
     * at most one problem for it. Reads the store and changes nothing.
     */
    method PreCheck(ped: seq<nat>, tec: seq<nat>) returns (problems: seq<Problem>)
      requires ped == ClassIndices(evaluators, true) && tec == ClassIndices(evaluators, false)
      ensures Elements(problems) == ProblemSet(works, evaluators)
      ensures forall i, j :: 0 <= i < j < |problems| ==> problems[i].subarea != problems[j].subarea
    {
      ghost var evs := evaluators;
      var remaining := set w | w in works :: w.subarea;
      problems := [];
      while remaining != {}
        invariant remaining <= Subareas(works)
        invariant Elements(problems) == ProblemsAmong(works, evs, Subareas(works) - remaining)
        invariant forall i :: 0 <= i < |problems| ==> problems[i].subarea !in remaining
        invariant forall i, j :: 0 <= i < j < |problems| ==> problems[i].subarea != problems[j].subarea
        decreases remaining
      {
        var s :| s in remaining;
        var pedAvailable := CountPedagogical(ped, s);
        var tecAvailable := CountTechnical(tec, s);
        ghost var done := Subareas(works) - remaining;
        assert Subareas(works) - (remaining - {s}) == done + {s};
        ProblemsAmongAdd(works, evs, done, s);
        if pedAvailable == 0 {
          ElementsAppend(problems, NoPedagogicalIn(s));
          problems := problems + [NoPedagogicalIn(s)];
        } else if tecAvailable == 0 {
          ElementsAppend(problems, NoTechnicalIn(s));
          problems := problems + [NoTechnicalIn(s)];
        }
        remaining := remaining - {s};
      }
    }

    /** Sets the workload of every evaluator listed in `order` to zero. */
    method ResetLoads(order: seq<nat>)
      requires InRange(order, |evaluators|)
      requires forall i :: 0 <= i < |evaluators| ==> i in order
      modifies this`evaluators
      ensures |evaluators| == |old(evaluators)|
      ensures forall i :: 0 <= i < |evaluators| ==> evaluators[i] == old(evaluators)[i].(workload := 0)
    {
      for j := 0 to |order|
        invariant |evaluators| == |old(evaluators)|
        invariant forall i :: 0 <= i < |evaluators| ==>
          evaluators[i] == if i in order[..j] then old(evaluators)[i].(workload := 0) else old(evaluators)[i]
      {
        evaluators := evaluators[order[j] := evaluators[order[j]].(workload := 0)];
      }
      assert order[..|order|] == order;
    }

    /** `work.evaluators.append(e); e.workload += 1` for every `e` in `s`. */
    method AddLinks(k: nat, s: set<nat>)
      requires forall x :: x in s ==> x < |evaluators|
      modifies this`links, this`evaluators
      ensures links == old(links) + Pairs(k, s)
      ensures |evaluators| == |old(evaluators)|
      ensures forall i :: 0 <= i < |evaluators| ==>
        evaluators[i] == old(evaluators)[i].(workload := old(evaluators)[i].workload + if i in s then 1 else 0)
    {
      var rest := s;
      while rest != {}
        invariant rest <= s
        invariant links == old(links) + Pairs(k, s - rest)
        invariant |evaluators| == |old(evaluators)|
        invariant forall i :: 0 <= i < |evaluators| ==>
          evaluators[i] == old(evaluators)[i].(workload := old(evaluators)[i].workload + if i in s - rest then 1 else 0)
        decreases rest
      {
        var t :| t in rest;
        links := links + {(k, t)};
        evaluators := evaluators[t := evaluators[t].(workload := evaluators[t].workload + 1)];
        rest := rest - {t};
        assert Pairs(k, s - rest) == Pairs(k, s - (rest + {t})) + {(k, t)};
      }
      assert s - rest == s;
    }

    /**
     * The pedagogical choice for `w`: whether any pedagogical evaluator may
     * evaluate it and, if so, the first eligible one of least workload.
     */
    method PickPedagogical(w: Work, ped: seq<nat>, ghost base: seq<Evaluator>) returns (found: bool, p: nat)
      requires |evaluators| == |base| && forall i :: 0 <= i < |base| ==> SameIdentity(evaluators[i], base[i])
      requires InRange(ped, |base|) && Increasing(ped)
      ensures found <==> Eligible(works, base, ped, w, false) != []
      ensures found ==> p in Eligible(works, base, ped, w, false) && p in ped
      ensures found ==> forall c :: c in Eligible(works, base, ped, w, false) ==> evaluators[p].workload <= evaluators[c].workload
      ensures found ==> forall c :: c in Eligible(works, base, ped, w, false) && c < p ==> evaluators[p].workload < evaluators[c].workload
    {
      EligibleReadsIdentity(works, evaluators, base, ped, w, false);
      var eligible := EligibleFor(ped, w, false);
      if eligible == [] {
        return false, 0;
      }
      EligibleIncreasing(works, evaluators, ped, w, false);
      p := SelectPedagogical(eligible);
      found := true;
    }

    /**
     * The technical choice for `w`: nothing when no technical evaluator of its
     * area may evaluate it, otherwise `n` (or all, if fewer) of the eligible
     * ones of least workload.
     */
    method PickTechnical(w: Work, tec: seq<nat>, n: nat, ghost base: seq<Evaluator>) returns (chosen: set<nat>)
      requires |evaluators| == |base| && forall i :: 0 <= i < |base| ==> SameIdentity(evaluators[i], base[i])
      requires InRange(tec, |base|) && (n == 1 || n == 2)
      ensures chosen == {} <==> Eligible(works, base, tec, w, true) == []
      ensures forall t :: t in chosen ==> t in Eligible(works, base, tec, w, true) && t in tec
      ensures chosen != {} ==> chosen <= MinTier(evaluators, Eligible(works, base, tec, w, true))
      ensures chosen != {} ==> |chosen| == Python.Min(n, |MinTier(evaluators, Eligible(works, base, tec, w, true))|)
      ensures |chosen| <= n
    {
      EligibleReadsIdentity(works, evaluators, base, tec, w, true);
      var eligible := EligibleFor(tec, w, true);
      if eligible == [] {
        return {};
      }
      chosen := SelectTechnical(eligible, n);
    }

    /** The pedagogical half of a pass: pick and link the pedagogical evaluator, if one is eligible. */
    method AssignPedagogical(k: nat, w: Work, ped: seq<nat>, ghost base: seq<Evaluator>) returns (found: bool, ghost p: nat)
      requires LoadsOnly(evaluators, base)
      requires InRange(ped, |base|) && Increasing(ped)
      modifies this`links, this`evaluators
      ensures found <==> Eligible(works, base, ped, w, false) != []
      ensures found ==> p in Eligible(works, base, ped, w, false) && p in ped
      ensures found ==> forall c :: c in Eligible(works, base, ped, w, false) ==> old(evaluators)[p].workload <= old(evaluators)[c].workload
      ensures found ==> forall c :: c in Eligible(works, base, ped, w, false) && c < p ==> old(evaluators)[p].workload < old(evaluators)[c].workload
      ensures found ==> links == old(links) + Pairs(k, {p})
      ensures !found ==> links == old(links) && evaluators == old(evaluators)
      ensures LoadsOnly(evaluators, base) && forall i :: 0 <= i < |base| ==> SameIdentity(evaluators[i], base[i])
      ensures found ==> Bumped(old(evaluators), evaluators, {p})
    {
      var pick;
      found, pick := PickPedagogical(w, ped, base);
      p := pick;
      if found {
        ghost var e0 := evaluators;
        AddLinks(k, {pick});
        BumpKeepsIdentity(e0, evaluators, base, {pick});
      }
    }

    /**
     * The technical half of the pass for work `k`: when some technical
     * evaluator qualifies for `w`, links the work to one or two of the least
     * loaded ones, `chosen`, and raises their loads by one.
     */
    method AssignTechnical(k: nat, w: Work, tec: seq<nat>, ghost base: seq<Evaluator>) returns (ok: bool, ghost chosen: set<nat>, ghost n: nat)
      requires |evaluators| == |base| && forall i :: 0 <= i < |base| ==> SameIdentity(evaluators[i], base[i])
      requires InRange(tec, |base|)
      modifies this`links, this`evaluators
      ensures ok <==> Eligible(works, base, tec, w, true) != []
      ensures ok ==> 1 <= |chosen| <= 2 && forall t :: t in chosen ==> t in Eligible(works, base, tec, w, true) && t in tec
      ensures ok ==> (n == 1 || n == 2) && chosen <= MinTier(old(evaluators), Eligible(works, base, tec, w, true)) &&
                     |chosen| == Python.Min(n, |MinTier(old(evaluators), Eligible(works, base, tec, w, true))|)
      ensures ok ==> links == old(links) + Pairs(k, chosen)
      ensures !ok ==> links == old(links)
      ensures Bumped(old(evaluators), evaluators, if ok then chosen else {})
    {
      var count :| count in {1, 2};
      n := count;
      var technical := PickTechnical(w, tec, count, base);
      chosen := technical;
      if technical == {} {
        return false, chosen, n;
      }
      AddLinks(k, technical);
      ok := true;
    }

    /**
     * One pass of the per-work loop for work `k`: the pedagogical choice `p`,
     * then the technical one, `chosen`. Returns the raise of that pass, if any;
     * otherwise work `k` has been linked to `p` and to `chosen`, and the load
     * of each of them raised by one.
     */
    method AssignWork(k: nat, ped: seq<nat>, tec: seq<nat>, ghost base: seq<Evaluator>)
      returns (r: Outcome, ghost p: nat, ghost chosen: set<nat>, ghost n: nat)
      requires k < |works| && LoadsOnly(evaluators, base)
      requires InRange(ped, |base|) && Increasing(ped) && InRange(tec, |base|) && forall x :: x in ped ==> x !in tec
      modifies this`links, this`evaluators
      ensures r == StepOutcome(works, base, ped, tec, works[k])
      ensures LoadsOnly(evaluators, base)
      ensures r.Done? ==> 1 <= |chosen| <= 2 && LeastLoadedChoice(works, base, old(evaluators), ped, tec, k, p, chosen, n)
      ensures r.Done? ==> links == old(links) + Pairs(k, {p} + chosen)
      ensures r.Done? ==> Bumped(old(evaluators), evaluators, {p} + chosen)
    {
      chosen, n := {}, 1;
      var w := works[k];
      ghost var before, e0 := links, evaluators;
      var found;
      found, p := AssignPedagogical(k, w, ped, base);
      if !found {
        return Raised(NoPedagogicalFor(w.title, w.subarea)), p, chosen, n;
      }
      ghost var e1 := evaluators;
      var ok;
      ok, chosen, n := AssignTechnical(k, w, tec, base);
      BumpKeepsIdentity(e1, evaluators, base, if ok then chosen else {});
      if !ok {
        return Raised(NoTechnicalFor(w.title, w.area, w.subarea)), p, chosen, n;
      }
      assert p !in chosen;
      BumpOutsideTier(e0, e1, Eligible(works, base, tec, w, true), p);
      PassComposed(before, k, p, chosen, e0, e1, evaluators);
      return Done, p, chosen, n;
    }

    /**
     * The checks `distribute_works` makes before its first write: some work,
     * some pedagogical and some technical evaluator, and no problem in any
     * subarea. On success also returns the two classes of evaluators.
     */
    method CheckStore() returns (failure: Wrappers.Option<Failure>, ped: seq<nat>, tec: seq<nat>)
      ensures failure == Wrappers.Some(NoWorks) <==> works == []
      ensures failure == Wrappers.Some(NoPedagogicalEvaluator) <==> works != [] && ClassIndices(evaluators, true) == []
      ensures failure == Wrappers.Some(NoTechnicalEvaluator) <==>
        works != [] && ClassIndices(evaluators, true) != [] && ClassIndices(evaluators, false) == []
      ensures (failure.Some? && failure.value.Infeasible?) <==>
        works != [] && ClassIndices(evaluators, true) != [] && ClassIndices(evaluators, false) != [] &&
        ProblemSet(works, evaluators) != {}
      ensures failure.Some? && failure.value.Infeasible? ==>
        Elements(failure.value.problems) == ProblemSet(works, evaluators) &&
        forall i, j :: 0 <= i < j < |failure.value.problems| ==> failure.value.problems[i].subarea != failure.value.problems[j].subarea
      ensures failure.Some? ==> !failure.value.InLoop()
      ensures failure.None? <==> Feasible(works, evaluators)
      ensures failure.None? ==> ped == ClassIndices(evaluators, true) && tec == ClassIndices(evaluators, false)
    {
      if works == [] {
        return Wrappers.Some(NoWorks), [], [];
      }
      ped := ClassIndices(evaluators, true);
      tec := ClassIndices(evaluators, false);
      if ped == [] {
        return Wrappers.Some(NoPedagogicalEvaluator), ped, tec;
      }
      if tec == [] {
        return Wrappers.Some(NoTechnicalEvaluator), ped, tec;
      }
      var problems := PreCheck(ped, tec);
      if problems != [] {
        assert problems[0] in Elements(problems);
        return Wrappers.Some(Infeasible(problems)), ped, tec;
      }
      failure := Wrappers.None;
    }

    /**
     * A pass of the per-work loop seen against the loop's invariant: after a
     * pass that does not raise, the works up to `k` are assigned.
     */
    method AssignNext(k: nat, ped: seq<nat>, tec: seq<nat>, ghost base: seq<Evaluator>) returns (r: Outcome)
      requires k < |works| && ped == ClassIndices(base, true) && tec == ClassIndices(base, false)
      requires forall x :: x in ped ==> x !in tec
      requires PartlyDistributed(works, base, evaluators, links, k) && Balanced(works, base, links, k)
      modifies this`links, this`evaluators
      ensures r == StepOutcome(works, base, ped, tec, works[k])
      ensures LoadsOnly(evaluators, base)
      ensures r.Done? ==> PartlyDistributed(works, base, evaluators, links, k + 1) && Balanced(works, base, links, k + 1)
    {
      ghost var linksBefore, evsBefore := links, evaluators;
      ghost var p, chosen, n;
      r, p, chosen, n := AssignWork(k, ped, tec, base);
      if r.Done? {
        BalancedPass(works, base, evsBefore, linksBefore, k, p, chosen, n, evaluators);
      }
    }

    /**
     * The per-work loop of `distribute_works`, started from an empty
     * association table and zero workloads. Stops at the first work whose pass
     * raises; if none does, every work is assigned.
     */
    method AssignAll(ped: seq<nat>, tec: seq<nat>, ghost base: seq<Evaluator>) returns (r: Outcome)
      requires ped == ClassIndices(base, true) && tec == ClassIndices(base, false)
      requires links == {} && |evaluators| == |base|
      requires forall i :: 0 <= i < |base| ==> evaluators[i] == base[i].(workload := 0)
      modifies this`links, this`evaluators
      ensures r == RunOutcome(works, base, ped, tec, 0)
      ensures LoadsOnly(evaluators, base)
      ensures r.Done? ==> Distributed(works, base, evaluators, links) && Balanced(works, base, links, |works|)
    {
      forall x | x in ped ensures x !in tec {
        ClassesPartition(base, x);
      }
      NothingDistributed(works, base, evaluators);
      for k := 0 to |works|
        invariant PartlyDistributed(works, base, evaluators, links, k) && Balanced(works, base, links, k)
        invariant RunOutcome(works, base, ped, tec, 0) == RunOutcome(works, base, ped, tec, k)
      {
        var step := AssignNext(k, ped, tec, base);
        if step.Raised? {
          return step;
        }
      }
      return Done;
    }

    /**
     * `distribute_works`. Fails before any write when there are no works, no
     * pedagogical or no technical evaluator, or the pre-check finds a problem.
     * Otherwise commits an empty association table and zero workloads, then
     * assigns work by work; a raise inside that loop discards the uncommitted
     * links, so the committed clear is what remains.
     */
    method Distribute() returns (r: Outcome)
      modifies this`links, this`evaluators
      ensures |evaluators| == |old(evaluators)|
      ensures forall i :: 0 <= i < |evaluators| ==> SameIdentity(evaluators[i], old(evaluators)[i])
      ensures r == Raised(NoWorks) <==> works == []
      ensures r == Raised(NoPedagogicalEvaluator) <==> works != [] && ClassIndices(old(evaluators), true) == []
      ensures r == Raised(NoTechnicalEvaluator) <==>
        works != [] && ClassIndices(old(evaluators), true) != [] && ClassIndices(old(evaluators), false) == []
      ensures (r.Raised? && r.failure.Infeasible?) <==>
        works != [] && ClassIndices(old(evaluators), true) != [] && ClassIndices(old(evaluators), false) != [] &&
        ProblemSet(works, old(evaluators)) != {}
      ensures r.Raised? && r.failure.Infeasible? ==>
        Elements(r.failure.problems) == ProblemSet(works, old(evaluators)) &&
        forall i, j :: 0 <= i < j < |r.failure.problems| ==> r.failure.problems[i].subarea != r.failure.problems[j].subarea
      ensures Feasible(works, old(evaluators)) ==>
        r == RunOutcome(works, old(evaluators), ClassIndices(old(evaluators), true), ClassIndices(old(evaluators), false), 0)
      ensures r.Raised? && !r.failure.InLoop() ==> links == old(links) && evaluators == old(evaluators)
      ensures r.Raised? && r.failure.InLoop() ==>
        Feasible(works, old(evaluators)) && links == {} &&
        forall i :: 0 <= i < |evaluators| ==> evaluators[i] == old(evaluators)[i].(workload := 0)
      ensures r.Done? ==> Feasible(works, old(evaluators)) && Distributed(works, old(evaluators), evaluators, links)
      ensures r.Done? ==> Balanced(works, old(evaluators), links, |works|)
    {
      ghost var base := evaluators;
      var failure, ped, tec := CheckStore();
      if failure.Some? {
        return Raised(failure.value);
      }
      var everyone := ped + tec;
      forall i | 0 <= i < |evaluators| ensures i in everyone {
        ClassesPartition(base, i);
      }
      links := {};
      ResetLoads(everyone);
      r := AssignAll(ped, tec, base);
      if r.Raised? {
        links := {};
        ResetLoads(everyone);
      }
    }
  }
}

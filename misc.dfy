/**
 * The admin blueprint's guard and its distribution endpoint. The guard looks
 * only at the identity the access token carries; the distribution endpoint
 * turns the outcome of the distribution service into a reply.
 */
module AdminMisc {
  import opened Wrappers
  import opened Python
  import opened Text
  import opened Auth
  import opened Distribution

  const AdminOnly: string := "Acesso restrito a administradores."

  /** What a guarded endpoint answers: the guard's 403, or whatever the endpoint returned. */
  datatype Guarded<R> = Forbidden(status: int, msg: string) | Ran(result: R)

  /** The identities the guard lets through: strings starting with `admin:`. */
  predicate IsAdminIdentity(identity: Value) {
    identity.Str? && StartsWith(identity.s, AdminPrefix)
  }

  /**
   * `admin_required` applied to `handler` and called with `args`: the handler
   * runs, with the same arguments, only for an admin identity, and its result
   * is passed on unchanged; any other identity gets a 403 and the handler is
   * not called.
   */
  function AdminRequired<A, R>(identity: Value, handler: A -> R, args: A): (r: Guarded<R>)
    ensures r.Ran? <==> identity.Str? && |AdminPrefix| <= |identity.s| && identity.s[..|AdminPrefix|] == AdminPrefix
    ensures r.Ran? ==> r.result == handler(args)
    ensures r.Forbidden? ==> r.status == 403 && r.msg == AdminOnly
  {
    if !IsAdminIdentity(identity) then Forbidden(403, AdminOnly)
    else Ran(handler(args))
  }

  /** The identity in an admin's token passes the guard; the identity in an evaluator's token does not. */
  lemma {:induction false} TokenRolesAtGuard<A, R>(id: int, handler: A -> R, args: A)
    ensures AdminRequired(Str(TokenIdentity(id, "admin").value), handler, args) == Ran(handler(args))
    ensures AdminRequired(Str(TokenIdentity(id, "evaluator").value), handler, args) == Forbidden(403, AdminOnly)
  {
    AdminIdentityPrefix(id);
    EvaluatorIdentityPrefix(id);
  }

  /** A token whose identity is not a string (an evaluator id stored as a number, say) is refused. */
  lemma {:induction false} NonStringIdentityRefused<A, R>(identity: Value, handler: A -> R, args: A)
    requires !identity.Str?
    ensures AdminRequired(identity, handler, args).Forbidden?
  {
  }

  const DistributionDone: string := "Distribuição realizada com sucesso!"
  const DistributionError: string := "Erro na distribuição: "

  /**
   * `distribute`: 200 when the distribution returns, 500 with the text of the
   * exception otherwise. A refusal before the per-work loop leaves the tables
   * as they were; a refusal inside it leaves them cleared.
   */
  method DistributeEndpoint(d: Distributor) returns (status: int, msg: string, ghost r: Outcome)
    modifies d`links, d`evaluators
    ensures status == 200 <==> r.Done?
    ensures status == 200 || status == 500
    ensures r.Done? ==> msg == DistributionDone
    ensures r.Raised? ==> msg == DistributionError + Message(r.failure)
    ensures r == Raised(NoWorks) <==> d.works == []
    ensures r == Raised(NoPedagogicalEvaluator) <==> d.works != [] && ClassIndices(old(d.evaluators), true) == []
    ensures r == Raised(NoTechnicalEvaluator) <==>
      d.works != [] && ClassIndices(old(d.evaluators), true) != [] && ClassIndices(old(d.evaluators), false) == []
    ensures (r.Raised? && r.failure.Infeasible?) <==>
      d.works != [] && ClassIndices(old(d.evaluators), true) != [] && ClassIndices(old(d.evaluators), false) != [] &&
      ProblemSet(d.works, old(d.evaluators)) != {}
    ensures Feasible(d.works, old(d.evaluators)) ==>
      r == RunOutcome(d.works, old(d.evaluators), ClassIndices(old(d.evaluators), true), ClassIndices(old(d.evaluators), false), 0)
    ensures r.Raised? && !r.failure.InLoop() ==> d.links == old(d.links) && d.evaluators == old(d.evaluators)
    ensures r.Raised? && r.failure.InLoop() ==>
      d.links == {} && |d.evaluators| == |old(d.evaluators)| &&
      forall i :: 0 <= i < |d.evaluators| ==> d.evaluators[i] == old(d.evaluators)[i].(workload := 0)
    ensures r.Done? ==>
      Feasible(d.works, old(d.evaluators)) && Distributed(d.works, old(d.evaluators), d.evaluators, d.links) &&
      Balanced(d.works, old(d.evaluators), d.links, |d.works|)
  {
    var outcome := d.Distribute();
    r := outcome;
    if outcome.Done? {
      return 200, DistributionDone, r;
    }
    return 500, DistributionError + Message(outcome.failure), r;
  }
}

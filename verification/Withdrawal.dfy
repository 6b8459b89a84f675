/** When an ALLOW can still become an order, and how a repeated request takes that away. */
module Withdrawal {
  import opened Wrappers
  import opened Canonical
  import opened PolicyEngine
  import opened PolicyLaws
  import opened EvidenceLog
  import opened Tables
  import opened Operations
  import opened Runs
  import opened Invariants
  import opened Reachability
  import opened Guarantees
  import opened Authenticity
  import opened Uninterrupted

  /** Executing creates an order. */
  ghost predicate Creates(db: Db, a: Id, requestId: Id, id: nat, order: Id, now: int) {
    |Execute(db, a, requestId, id, order, now).0.executions| > |db.executions|
  }

  /** The request may be ordered now. */
  ghost predicate CanOrder(db: Db, a: Id, requestId: Id) {
    a !in db.revocations && exists d :: Orderable(db, a, requestId, d)
  }

  lemma {:induction false} HistoryGrows(rows: seq<DecisionRow>, rows': seq<DecisionRow>, request: Id)
    requires rows <= rows'
    ensures HistoryOf(rows, request) <= HistoryOf(rows', request)
  {
    if |rows'| > |rows| {
      var last := |rows'| - 1;
      assert rows <= rows'[..last];
      HistoryGrows(rows, rows'[..last], request);
    } else {
      assert rows == rows';
    }
  }

  lemma OrderedStaysOrdered(db: Db, db': Db, decision: Id)
    requires Extends(db, db') && FindByDecision(db.executions, decision).Some?
    ensures FindByDecision(db'.executions, decision).Some?
  {
    var k :| 0 <= k < |db.executions| && db.executions[k] == FindByDecision(db.executions, decision).value;
    assert Advanced(db.executions[k], db'.executions[k]) && db'.executions[k] in db'.executions;
  }

  /** What could be ordered after a change that undoes nothing, and had been decided before, could be ordered before. */
  lemma OrderableBefore(db: Db, db': Db, a: Id, requestId: Id, d: DecisionRow)
    requires Extends(db, db') && HistoryOf(db.decisions, requestId) != [] && Orderable(db', a, requestId, d)
    ensures Orderable(db, a, requestId, d)
  {
    HistoryGrows(db.decisions, db'.decisions, requestId);
    if FindByDecision(db.executions, d.decisionId).Some? {
      OrderedStaysOrdered(db, db', d.decisionId);
    }
  }

  // Fresh ids exist

  function FreshNumber(executions: seq<ExecutionRow>): (n: nat)
    ensures forall e <- executions :: e.executionId < n
  {
    if executions == [] then 0
    else
      var last := |executions| - 1;
      var n := FreshNumber(executions[..last]);
      if executions[last].executionId < n then n else executions[last].executionId + 1
  }

  function FreshName(executions: seq<ExecutionRow>): (name: Id)
    ensures forall e <- executions :: |e.orderId| < |name|
  {
    if executions == [] then ""
    else
      var last := |executions| - 1;
      var name := FreshName(executions[..last]);
      if |executions[last].orderId| < |name| then name else executions[last].orderId + "'"
  }

  /** A legal run that ends by executing the request and thereby creates an order. */
  ghost predicate EndsInOrder(verify: Verifier, s: System, steps: seq<Step>, a: Id, requestId: Id) {
    && steps != [] && Legal(verify, s, steps)
    && var last := |steps| - 1;
       && steps[last].ExecuteStep? && steps[last].auth == a && steps[last].requestId == requestId
       && |Run(verify, s, steps).db.executions| > |Run(verify, s, steps[..last]).db.executions|
  }

  lemma OrderNow(verify: Verifier, s: System, a: Id, requestId: Id) returns (steps: seq<Step>)
    requires TablesInv(s.db) && a in s.db.auths && CanOrder(s.db, a, requestId)
    ensures EndsInOrder(verify, s, steps, a, requestId)
  {
    hide TablesInv, Execute, CanOrder;
    var id, order := FreshNumber(s.db.executions), FreshName(s.db.executions);
    var step := ExecuteStep(a, requestId, id, order, 0);
    steps := [step];
    assert CanOrder(s.db, a, requestId) ==> Creates(s.db, a, requestId, id, order, 0) by {
      CanOrderCreates(s.db, a, requestId, id, order, 0);
    }
    assert steps[..0] == [] && steps[1..] == [];
    assert Admissible(s, step);
    FirstStep(verify, s, steps);
  }

  lemma CanOrderCreates(db: Db, a: Id, requestId: Id, id: nat, order: Id, now: int)
    requires TablesInv(db) && a in db.auths
    ensures CanOrder(db, a, requestId) <==> Creates(db, a, requestId, id, order, now)
  {
    hide TablesInv, Execute, Orderable;
    OrderCreatedExactlyWhen(db, a, requestId, id, order, now);
  }

  /** The last step of a run that ends in an order starts from where the run before it ended. */
  lemma OrderOfLastStep(verify: Verifier, s: System, steps: seq<Step>, a: Id, requestId: Id)
    requires EndsInOrder(verify, s, steps, a, requestId)
    ensures var last := |steps| - 1;
            && Legal(verify, s, steps[..last])
            && var ExecuteStep(_, _, id, order, now) := steps[last];
               Creates(Run(verify, s, steps[..last]).db, a, requestId, id, order, now)
  {
    hide Execute;
    var last := |steps| - 1;
    assert steps == steps[..last] + [steps[last]];
    RunOfConcat(verify, s, steps[..last], [steps[last]]);
    FirstStep(verify, Run(verify, s, steps[..last]), [steps[last]]);
    assert [steps[last]][1..] == [];
  }

  /** A decided request can be ordered at the end of some legal run exactly when it can be ordered now. So an ALLOW is
    * lost for good by a revocation or by any further decision on its request.
    */
  lemma OrderEverPossibleExactlyWhen(verify: Verifier, s: System, a: Id, requestId: Id)
    requires SystemInv(s) && a in s.db.auths && HistoryOf(s.db.decisions, requestId) != []
    ensures CanOrder(s.db, a, requestId) <==> exists steps :: EndsInOrder(verify, s, steps, a, requestId)
  {
    hide CanOrder, EndsInOrder, TablesInv;
    if CanOrder(s.db, a, requestId) {
      var steps := OrderNow(verify, s, a, requestId);
    }
    if steps :| EndsInOrder(verify, s, steps, a, requestId) {
      OrderMeansNow(verify, s, steps, a, requestId);
    }
  }

  lemma OrderMeansNow(verify: Verifier, s: System, steps: seq<Step>, a: Id, requestId: Id)
    requires SystemInv(s) && a in s.db.auths && HistoryOf(s.db.decisions, requestId) != []
    requires EndsInOrder(verify, s, steps, a, requestId)
    ensures CanOrder(s.db, a, requestId)
  {
    hide CanOrder, SystemInv, Run, Legal, Creates;
    OrderOfLastStep(verify, s, steps, a, requestId);
    var ExecuteStep(_, _, id, order, now) := steps[|steps| - 1];
    CreatedLaterMeansNow(verify, s, steps[..|steps| - 1], a, requestId, id, order, now);
  }

  lemma CreatedLaterMeansNow(
      verify: Verifier, s: System, steps: seq<Step>, a: Id, requestId: Id, id: nat, order: Id, now: int)
    requires SystemInv(s) && a in s.db.auths && HistoryOf(s.db.decisions, requestId) != []
    requires Legal(verify, s, steps) && Creates(Run(verify, s, steps).db, a, requestId, id, order, now)
    ensures CanOrder(s.db, a, requestId)
  {
    hide Execute, Orderable, Apply, Admissible, TablesInv, PendingInv;
    var db' := Run(verify, s, steps).db;
    RunSafe(verify, s, steps);
    OrderCreatedExactlyWhen(db', a, requestId, id, order, now);
    var d :| Orderable(db', a, requestId, d);
    OrderableBefore(s.db, db', a, requestId, d);
  }

  /** A request with a second decision is never ordered, whatever happens next. */
  lemma ReplayedRequestsAreNeverOrdered(
      verify: Verifier, s: System, steps: seq<Step>, a: Id, requestId: Id, id: nat, order: Id, now: int)
    requires SystemInv(s) && Legal(verify, s, steps) && a in s.db.auths && |HistoryOf(s.db.decisions, requestId)| > 1
    ensures !Creates(Run(verify, s, steps).db, a, requestId, id, order, now)
  {
    hide Creates, Run, Legal, SystemInv;
    if Creates(Run(verify, s, steps).db, a, requestId, id, order, now) {
      CreatedLaterMeansNow(verify, s, steps, a, requestId, id, order, now);
    }
  }

  /** After any run, executing a request that was ordered answers with the very same order and changes nothing, exactly
    * while the mandate is not revoked and the request has had no further decision.
    */
  lemma SameOrderExactlyWhile(
      verify: Verifier, s: System, steps: seq<Step>, a: Id, requestId: Id, d: DecisionRow, e: ExecutionRow,
      id: nat, order: Id, now: int)
    requires SystemInv(s) && Legal(verify, s, steps) && a in s.db.auths
    requires SingleAllow(s.db, a, requestId, d) && e in s.db.executions && e.decisionId == d.decisionId
    ensures var db := Run(verify, s, steps).db;
            Execute(db, a, requestId, id, order, now) == (db, Order(e.orderId, e.amount, e.currency))
            <==> a !in db.revocations && |HistoryOf(db.decisions, requestId)| == 1
  {
    hide Execute, Apply, Admissible, Legal, Run, AuthsInv, LinksInv, HistoriesInv, BudgetInv, CartsInv, PaymentsInv,
         OrderBacked, PendingInv;
    var db := Run(verify, s, steps).db;
    RunSafe(verify, s, steps);
    HistoryGrows(s.db.decisions, db.decisions, requestId);
    OrderAnsweredExactlyWhen(db, a, requestId, id, order, now);
    if a !in db.revocations && |HistoryOf(db.decisions, requestId)| == 1 {
      assert HistoryOf(db.decisions, requestId) == [d];
      var k :| 0 <= k < |s.db.executions| && s.db.executions[k] == e;
      assert Advanced(e, db.executions[k]) && db.executions[k] in db.executions;
      ExistingOrderIsAnswered(db, a, requestId, d, db.executions[k], id, order, now);
    }
  }

  // The replay of a request that was allowed

  ghost predicate IsAllow(reply: Reply) {
    reply.Decided? && reply.result.decision == Allow
  }

  lemma AllowedRequestIsStored(verify: Verifier, db: Db, r: AgentRequest, now: int, request: Id, decision: Id)
    requires IsAllow(HandleRequest(verify, db, r, now, request, decision).1)
    ensures var db' := HandleRequest(verify, db, r, now, request, decision).0;
            && r.authorizationId in db.auths && r.authorizationId in db'.auths
            && r.authorizationId !in db'.revocations
            && db'.auths[r.authorizationId]
               == db.auths[r.authorizationId].(usedCount := db.auths[r.authorizationId].usedCount + 1)
            && FindRequest(db'.requests, r.authorizationId, r.nonce)
               == Some(RequestRow(request, r.authorizationId, r.agentId, r.nonce, r.cart, Allow))
            && db'.executions == db.executions
            && Genuine(verify, db.auths[r.authorizationId].envelope, r)
  {
    hide Judgement, Authenticate, Append, InScope, Genuine;
    AllowedExactlyWhen(verify, db, r, now, request, decision);
  }

  lemma UsedNonceIsBlocked(verify: Verifier, db: Db, r: AgentRequest, now: int)
    requires r.authorizationId in db.auths && FindRequest(db.requests, r.authorizationId, r.nonce).Some?
    ensures Judgement(verify, db, r, now).decision == Block
  {
    var row := db.auths[r.authorizationId];
    DecisionCharacterised(verify, row.envelope, r.cart, Context(now, true, row.usedCount, None, false));
  }

  lemma LatestIsAppended(decisions: seq<DecisionRow>, d: DecisionRow)
    ensures LatestDecision(decisions + [d], d.requestId, d.authorizationId) == Some(d)
  {}

  /** A second copy of an authentic request whose nonce is used gets BLOCK under the first request's id. */
  lemma ReplayIsBlocked(verify: Verifier, db: Db, r: AgentRequest, now: int, request: Id, decision: Id)
    requires r.authorizationId in db.auths && Genuine(verify, db.auths[r.authorizationId].envelope, r)
    requires FindRequest(db.requests, r.authorizationId, r.nonce).Some?
    ensures var (db', reply) := HandleRequest(verify, db, r, now, request, decision);
            var first := FindRequest(db.requests, r.authorizationId, r.nonce).value.requestId;
            && reply.Decided? && reply.requestId == first && reply.result.decision == Block
            && LatestDecision(db'.decisions, first, r.authorizationId)
               == Some(DecisionRow(decision, first, r.authorizationId, reply.result))
            && db'.auths == db.auths && db'.revocations == db.revocations && db'.executions == db.executions
  {
    hide Judgement, LatestDecision, FindRequest, Append;
    assert Authenticate(verify, db.auths[r.authorizationId].envelope, r).None?;
    UsedNonceIsBlocked(verify, db, r, now);
    var first := FindRequest(db.requests, r.authorizationId, r.nonce).value.requestId;
    LatestIsAppended(db.decisions, DecisionRow(decision, first, r.authorizationId, Judgement(verify, db, r, now)));
  }

  /** Whatever request was allowed: sending it once more before executing leaves its use spent and no order. */
  lemma ReplayWithdrawsAllow(
      verify: Verifier, db: Db, r: AgentRequest, now: int, request: Id, decision: Id,
      now': int, request': Id, decision': Id, id: nat, order: Id, later: int)
    requires IsAllow(HandleRequest(verify, db, r, now, request, decision).1)
    ensures var a := r.authorizationId;
            var allowed := HandleRequest(verify, db, r, now, request, decision).0;
            var (replayed, reply) := HandleRequest(verify, allowed, r, now', request', decision');
            && reply.Decided? && reply.requestId == request && reply.result.decision == Block
            && a in db.auths && a in replayed.auths && replayed.auths[a].usedCount == db.auths[a].usedCount + 1
            && replayed.executions == db.executions
            && Execute(replayed, a, request, id, order, later) == (replayed, LastDecisionWas(Block))
  {
    hide HandleRequest, Genuine;
    var allowed := HandleRequest(verify, db, r, now, request, decision).0;
    AllowedRequestIsStored(verify, db, r, now, request, decision);
    ReplayIsBlocked(verify, allowed, r, now', request', decision');
  }

  /** Whatever request was allowed: executing it next creates its order, at the price of its cart. */
  lemma AllowedRequestIsOrdered(
      verify: Verifier, db: Db, r: AgentRequest, now: int, request: Id, decision: Id, id: nat, order: Id, later: int)
    requires IsAllow(HandleRequest(verify, db, r, now, request, decision).1)
    requires forall e <- db.executions :: e.decisionId != decision
    ensures var allowed := HandleRequest(verify, db, r, now, request, decision).0;
            var (ordered, reply) := Execute(allowed, r.authorizationId, request, id, order, later);
            && reply == Order(order, r.cart.total, r.cart.currency)
            && ordered.executions
               == db.executions + [ExecutionRow(id, decision, order, r.cart.total, r.cart.currency, Created, later)]
            && ordered.payments == db.payments && ordered.seen == db.seen
  {
    hide Judgement, Authenticate, Append, InScope, Genuine;
    AllowedExactlyWhen(verify, db, r, now, request, decision);
  }
}

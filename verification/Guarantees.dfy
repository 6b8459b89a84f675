/** The guarantees of the service, each for every legal run from the empty database. */
module Guarantees {
  import opened Wrappers
  import opened Canonical
  import opened PolicyLaws
  import opened EvidenceLog
  import opened Tables
  import opened Operations
  import opened Runs
  import opened Invariants
  import opened Preservation
  import opened Replay
  import opened Counting
  import opened Reachability

  ghost predicate Reached(verify: Verifier, steps: seq<Step>, s: System) {
    Legal(verify, START, steps) && s == Run(verify, START, steps)
  }

  lemma ReachedSafe(verify: Verifier, steps: seq<Step>, s: System)
    requires Reached(verify, steps, s)
    ensures SystemInv(s)
  {
    StartSafe();
    RunSafe(verify, START, steps);
  }

  // Evidence

  /** Replaying any authorization's events rebuilds its view of the tables. */
  lemma EvidenceRebuildsTables(verify: Verifier, steps: seq<Step>, s: System, a: Id)
    requires Reached(verify, steps, s)
    ensures ReplayAll(Facts(GetChain(s.db.log, a))).view == ViewOf(s.db, a)
  {
    ReachedSafe(verify, steps, s);
    ChainIsSelection(s.db.log, a);
    assert ReplayAll(History(s.db.log, a)).view == ViewOf(s.db, a);
  }

  /** The stored chain of every authorization comes back in append order and verifies. */
  lemma ChainsAlwaysVerify(verify: Verifier, steps: seq<Step>, s: System, a: Id)
    requires Reached(verify, steps, s)
    ensures GetChain(s.db.log, a) == Select(s.db.log.rows, a)
    ensures Verifies(GetChain(s.db.log, a)) && LinksMatch(GetChain(s.db.log, a))
  {
    ReachedSafe(verify, steps, s);
    ChainIsSelection(s.db.log, a);
  }

  /** If a run leaves an authorization's chain as it was, it leaves its view of the tables as it was. */
  lemma SameChainSameView(verify: Verifier, s: System, steps: seq<Step>, a: Id)
    requires SystemInv(s) && Legal(verify, s, steps)
    requires GetChain(Run(verify, s, steps).db.log, a) == GetChain(s.db.log, a)
    ensures ViewOf(Run(verify, s, steps).db, a) == ViewOf(s.db, a)
  {
    var s' := Run(verify, s, steps);
    RunSafe(verify, s, steps);
    ChainIsSelection(s.db.log, a);
    ChainIsSelection(s'.db.log, a);
    assert ReplayAll(History(s.db.log, a)).view == ViewOf(s.db, a);
    assert ReplayAll(History(s'.db.log, a)).view == ViewOf(s'.db, a);
  }

  /** The payments that a history tells of, in order. */
  function PaymentsIn(facts: seq<Fact>): seq<PaymentView> {
    if facts == [] then []
    else
      var last := facts[|facts| - 1];
      PaymentsIn(facts[..|facts| - 1])
      + (if (last.eventType == PaymentCaptured || last.eventType == PaymentAmountMismatch) && last.payload.PaymentJson?
         then [PaymentView(last.payload.paymentId, last.payload.paidOrderId, last.payload.paidAmount)]
         else [])
  }

  lemma {:induction false} PaymentsReplayed(facts: seq<Fact>)
    ensures ReplayAll(facts).view.payments == PaymentsIn(facts)
  {
    if facts != [] {
      PaymentsReplayed(facts[..|facts| - 1]);
    }
  }

  /** The payment events of every chain are, in order, exactly the payment rows of that authorization's orders, each
    * with its payment id, its order and the amount it names.
    */
  lemma PaymentEvidenceIsExact(verify: Verifier, steps: seq<Step>, s: System, a: Id)
    requires Reached(verify, steps, s)
    ensures PaymentsIn(Facts(GetChain(s.db.log, a))) == PaymentsOf(s.db.payments, s.db.executions, s.db.decisions, a)
  {
    EvidenceRebuildsTables(verify, steps, s, a);
    PaymentsReplayed(Facts(GetChain(s.db.log, a)));
  }

  // Requests, decisions and orders

  /** One request row per nonce, and after the first decision on a request only BLOCK. */
  lemma RequestsAreDecidedOnce(verify: Verifier, steps: seq<Step>, s: System)
    requires Reached(verify, steps, s)
    ensures forall i, j :: 0 <= i < j < |s.db.requests| ==>
              !(s.db.requests[i].authorizationId == s.db.requests[j].authorizationId
                && s.db.requests[i].nonce == s.db.requests[j].nonce)
    ensures forall r <- s.db.requests :: GoodHistory(HistoryOf(s.db.decisions, r.requestId), r.state)
  {
    ReachedSafe(verify, steps, s);
  }

  lemma {:induction false} HistoryIndices(decisions: seq<DecisionRow>, i: nat, j: nat, request: Id)
    requires i < j < |decisions| && decisions[i].requestId == decisions[j].requestId == request
    ensures exists k, l :: 0 <= k < l < |HistoryOf(decisions, request)|
                        && HistoryOf(decisions, request)[k] == decisions[i]
                        && HistoryOf(decisions, request)[l] == decisions[j]
  {
    var last := |decisions| - 1;
    var before := HistoryOf(decisions[..last], request);
    if j < last {
      HistoryIndices(decisions[..last], i, j, request);
      var k, l :| 0 <= k < l < |before| && before[k] == decisions[i] && before[l] == decisions[j];
      assert HistoryOf(decisions, request)[k] == decisions[i] && HistoryOf(decisions, request)[l] == decisions[j];
    } else {
      assert decisions[..last][i] == decisions[i];
      InHistory(decisions[..last], decisions[i]);
      var k :| 0 <= k < |before| && before[k] == decisions[i];
      assert HistoryOf(decisions, request)[k] == decisions[i]
        && HistoryOf(decisions, request)[|before|] == decisions[j];
    }
  }

  /** No two ALLOW decisions concern the same request. */
  lemma AllowsOfDistinctRequests(db: Db, i: nat, j: nat)
    requires LinksInv(db) && HistoriesInv(db) && i < j < |db.decisions|
    requires db.decisions[j].result.decision == Allow
    ensures db.decisions[i].requestId != db.decisions[j].requestId
  {
    assert db.decisions[j] in db.decisions && DecisionLinked(db, db.decisions[j]);
    var row := GetRequest(db.requests, db.decisions[j].requestId).value;
    assert GoodHistory(HistoryOf(db.decisions, row.requestId), row.state);
    if db.decisions[i].requestId == db.decisions[j].requestId {
      HistoryIndices(db.decisions, i, j, db.decisions[i].requestId);
    }
  }

  lemma OrdersOfDistinctRequests(db: Db, e: ExecutionRow, e': ExecutionRow)
    requires LinksInv(db) && HistoriesInv(db) && OrderBacked(db, e) && OrderBacked(db, e')
            && e.decisionId != e'.decisionId
    ensures GetDecision(db.decisions, e.decisionId).value.requestId
         != GetDecision(db.decisions, e'.decisionId).value.requestId
  {
    var d := GetDecision(db.decisions, e.decisionId).value;
    var d' := GetDecision(db.decisions, e'.decisionId).value;
    var k :| 0 <= k < |db.decisions| && db.decisions[k] == d;
    var l :| 0 <= l < |db.decisions| && db.decisions[l] == d';
    if k < l {
      AllowsOfDistinctRequests(db, k, l);
    } else {
      AllowsOfDistinctRequests(db, l, k);
    }
  }

  /** Two orders never share a request. */
  lemma OneOrderPerRequest(verify: Verifier, steps: seq<Step>, s: System, i: nat, j: nat)
    requires Reached(verify, steps, s) && i < j < |s.db.executions|
    ensures var d := GetDecision(s.db.decisions, s.db.executions[i].decisionId);
            var d' := GetDecision(s.db.decisions, s.db.executions[j].decisionId);
            d.Some? && d'.Some? && d.value.requestId != d'.value.requestId
  {
    hide EvidenceInv, CountsInv, SoundLog, PendingInv, BudgetInv, CartsInv, PaymentsInv, LinksInv, HistoriesInv;
    ReachedSafe(verify, steps, s);
    var db := s.db;
    assert db.executions[i] in db.executions && OrderBacked(db, db.executions[i]);
    assert db.executions[j] in db.executions && OrderBacked(db, db.executions[j]);
    OrdersOfDistinctRequests(db, db.executions[i], db.executions[j]);
  }

  lemma AllowedCart(db: Db, a: Id, requestId: Id, d: DecisionRow, e: ExecutionRow) returns (request: RequestRow)
    requires CartsInv(db) && NewOrder(db, a, requestId, d, e)
    ensures GetRequest(db.requests, requestId) == Some(request)
    ensures InScope(db.auths[a].envelope.mandate, request.cart)
    ensures request.cart.total <= db.auths[a].envelope.mandate.maxTotal
    ensures e.amount == request.cart.total && e.currency == request.cart.currency
  {
    assert CartAllowed(db, d);
    request := GetRequest(db.requests, d.requestId).value;
  }

  lemma OnlyExecuteCreatesOrders(verify: Verifier, s: System, step: Step)
    ensures |Apply(verify, s, step).0.db.executions| > |s.db.executions| ==> step.ExecuteStep?
  {}

  /** A step creates an order only for a request whose whole history is one ALLOW, of an unrevoked mandate,
    * and charges the total of that request's cart, which the mandate covers.
    */
  lemma OrdersNeedASingleAllow(verify: Verifier, s: System, step: Step) returns (d: DecisionRow, request: RequestRow)
    requires SystemInv(s) && Admissible(s, step)
    requires |Apply(verify, s, step).0.db.executions| > |s.db.executions|
    ensures step.ExecuteStep? && step.auth in s.db.auths && step.auth !in s.db.revocations
    ensures HistoryOf(s.db.decisions, step.requestId) == [d] && d.result.decision == Allow
            && d.authorizationId == step.auth
    ensures GetRequest(s.db.requests, step.requestId) == Some(request)
    ensures var mandate := s.db.auths[step.auth].envelope.mandate;
            InScope(mandate, request.cart) && request.cart.total <= mandate.maxTotal
    ensures Apply(verify, s, step).0.db.executions
         == s.db.executions + [ExecutionRow(step.freshExecution, d.decisionId, step.freshOrder, request.cart.total,
                                            request.cart.currency, Created, step.now)]
  {
    hide EvidenceInv, CountsInv, SoundLog, PendingInv, AuthsInv, LinksInv, HistoriesInv, BudgetInv, CartsInv, OrdersInv,
         PaymentsInv, InScope;
    OnlyExecuteCreatesOrders(verify, s, step);
    var e;
    d, e := ExecuteOnlyInserts(s.db, step.auth, step.requestId, step.freshExecution, step.freshOrder, step.now);
    request := AllowedCart(s.db, step.auth, step.requestId, d, e);
  }

  /** The request's whole history is one ALLOW under the authorization. */
  ghost predicate SingleAllow(db: Db, a: Id, requestId: Id, d: DecisionRow) {
    HistoryOf(db.decisions, requestId) == [d] && d.authorizationId == a && d.result.decision == Allow
  }

  /** ... and it has no order. */
  ghost predicate Orderable(db: Db, a: Id, requestId: Id, d: DecisionRow) {
    SingleAllow(db, a, requestId, d) && FindByDecision(db.executions, d.decisionId).None?
  }

  lemma OrderableIsOrdered(db: Db, a: Id, requestId: Id, d: DecisionRow, freshExecution: nat, freshOrder: Id, now: int)
    requires LinksInv(db) && a in db.auths && a !in db.revocations && Orderable(db, a, requestId, d)
    ensures |Execute(db, a, requestId, freshExecution, freshOrder, now).0.executions| > |db.executions|
  {
    LatestInHistory(db.decisions, requestId, d);
    ExecuteFindsItsRequest(db, a, requestId, freshExecution, freshOrder, now);
  }

  /** Exactly when executing creates an order. */
  lemma OrderCreatedExactlyWhen(db: Db, a: Id, requestId: Id, freshExecution: nat, freshOrder: Id, now: int)
    requires TablesInv(db) && a in db.auths
    ensures |Execute(db, a, requestId, freshExecution, freshOrder, now).0.executions| > |db.executions|
       <==> a !in db.revocations && exists d :: Orderable(db, a, requestId, d)
  {
    hide Execute, AuthsInv, LinksInv, HistoriesInv, BudgetInv, CartsInv, OrdersInv, PaymentsInv;
    var db' := Execute(db, a, requestId, freshExecution, freshOrder, now).0;
    if |db'.executions| > |db.executions| {
      var d, e := ExecuteOnlyInserts(db, a, requestId, freshExecution, freshOrder, now);
      assert Orderable(db, a, requestId, d);
    }
    if d :| Orderable(db, a, requestId, d) && a !in db.revocations {
      OrderableIsOrdered(db, a, requestId, d, freshExecution, freshOrder, now);
    }
  }

  lemma {:induction false} HistoryContent(decisions: seq<DecisionRow>, request: Id)
    ensures forall d :: d in HistoryOf(decisions, request) <==> d in decisions && d.requestId == request
  {
    if decisions != [] {
      var last := |decisions| - 1;
      HistoryContent(decisions[..last], request);
      assert decisions == decisions[..last] + [decisions[last]];
    }
  }

  lemma LatestInHistory(decisions: seq<DecisionRow>, request: Id, d: DecisionRow)
    requires HistoryOf(decisions, request) == [d]
    ensures LatestDecision(decisions, request, d.authorizationId) == Some(d)
  {
    HistoryContent(decisions, request);
    assert d in HistoryOf(decisions, request);
    var found := LatestDecision(decisions, request, d.authorizationId);
    if found.Some? {
      assert found.value in HistoryOf(decisions, request);
    }
  }

  lemma SingleAllowIsAnswered(db: Db, a: Id, requestId: Id, d: DecisionRow, id: nat, order: Id, now: int)
    requires LinksInv(db) && a in db.auths && a !in db.revocations && SingleAllow(db, a, requestId, d)
    ensures Execute(db, a, requestId, id, order, now).1.Order?
  {
    LatestInHistory(db.decisions, requestId, d);
    ExecuteFindsItsRequest(db, a, requestId, id, order, now);
  }

  /** Exactly when executing answers with an order, old or new. */
  lemma OrderAnsweredExactlyWhen(db: Db, a: Id, requestId: Id, id: nat, order: Id, now: int)
    requires TablesInv(db)
    ensures Execute(db, a, requestId, id, order, now).1.Order?
       <==> a in db.auths && a !in db.revocations && exists d :: SingleAllow(db, a, requestId, d)
  {
    hide AuthsInv, LinksInv, HistoriesInv, BudgetInv, CartsInv, OrdersInv, PaymentsInv;
    if Execute(db, a, requestId, id, order, now).1.Order? {
      var i :| IsLatest(db.decisions, i, requestId, a)
               && Some(db.decisions[i]) == LatestDecision(db.decisions, requestId, a);
      LatestAllowIsOnly(db, i, requestId, a);
      assert SingleAllow(db, a, requestId, db.decisions[i]);
    }
    if d :| SingleAllow(db, a, requestId, d) && a in db.auths && a !in db.revocations {
      SingleAllowIsAnswered(db, a, requestId, d, id, order, now);
    }
  }

  /** An order that exists is the one answered with, and nothing changes. */
  lemma ExistingOrderIsAnswered(db: Db, a: Id, requestId: Id, d: DecisionRow, e: ExecutionRow, id: nat, order: Id,
                                now: int)
    requires DistinctExecutions(db.executions) && e in db.executions && e.decisionId == d.decisionId
    requires a in db.auths && a !in db.revocations && SingleAllow(db, a, requestId, d)
    ensures Execute(db, a, requestId, id, order, now) == (db, Order(e.orderId, e.amount, e.currency))
  {
    LatestInHistory(db.decisions, requestId, d);
    var found := FindByDecision(db.executions, d.decisionId).value;
    var i :| 0 <= i < |db.executions| && db.executions[i] == e;
    var j :| 0 <= j < |db.executions| && db.executions[j] == found;
    assert !(i < j) && !(j < i);
  }

  /** Executing again, at any time and with any fresh identifiers, answers with the same order and changes nothing. */
  lemma ExecutionIsIdempotent(db: Db, a: Id, requestId: Id, id1: nat, order1: Id, t1: int, id2: nat, order2: Id,
                              t2: int)
    requires Execute(db, a, requestId, id1, order1, t1).1.Order?
    ensures var (db', reply) := Execute(db, a, requestId, id1, order1, t1);
            Execute(db', a, requestId, id2, order2, t2) == (db', reply)
  {}

  // Payment status

  /** An order is CREATED or STALE exactly while it has no payment event; it was flagged at most once, and
    * seen payment ids, payment events and payment evidence correspond one to one.
    */
  lemma StatusMatchesPayments(verify: Verifier, steps: seq<Step>, s: System)
    requires Reached(verify, steps, s)
    ensures forall e <- s.db.executions ::
              && (Unsettled(e.status) <==> !HasPayment(s.db.payments, e.executionId))
              && (e.status == Created ==> CountEvents(s.db.log.rows, StaleFlagOf(e.executionId)) == 0)
              && (e.status == Stale ==> CountEvents(s.db.log.rows, StaleFlagOf(e.executionId)) == 1)
              && CountEvents(s.db.log.rows, StaleFlagOf(e.executionId)) <= 1
    ensures forall i, j :: 0 <= i < j < |s.db.payments| ==> s.db.payments[i].paymentId != s.db.payments[j].paymentId
    ensures forall id :: id in s.db.seen <==> Paid(s.db.payments, id)
    ensures forall id :: CountEvents(s.db.log.rows, PaymentOf(id)) == if id in s.db.seen then 1 else 0
  {
    hide CountEvents, HasPayment, LastPayment, AuthsInv, LinksInv, HistoriesInv, BudgetInv, CartsInv, OrdersInv,
         EvidenceInv, SoundLog, PendingInv;
    ReachedSafe(verify, steps, s);
    forall e <- s.db.executions
      ensures FlagsMatch(s.db.log.rows, e) && (Unsettled(e.status) <==> !HasPayment(s.db.payments, e.executionId))
    {
      assert StatusMatches(s.db.payments, e);
      HasPaymentIsLast(s.db.payments, e.executionId);
    }
    forall id | Paid(s.db.payments, id)
      ensures id in s.db.seen
    {
      var p :| p in s.db.payments && p.paymentId == id;
      assert PaymentLinked(s.db, p);
    }
  }

  /** A payment agrees with an order when it names no amount, or the order's own. */
  predicate Agreeing(p: PaymentRow, e: ExecutionRow) {
    p.amount.None? || p.amount.value == e.amount
  }

  lemma {:induction false} LastPaymentOfConcat(before: seq<PaymentRow>, after: seq<PaymentRow>, execution: nat)
    ensures LastPayment(before + after, execution)
         == if LastPayment(after, execution).Some? then LastPayment(after, execution)
            else LastPayment(before, execution)
  {
    if after == [] {
      assert before + after == before;
    } else {
      var last := |after| - 1;
      LastPaymentOfConcat(before, after[..last], execution);
      LastPaymentAppend(before + after[..last], after[last], execution);
      assert before + after == before + after[..last] + [after[last]];
    }
  }

  /** Between two states in which an order's status is that of its last payment. */
  lemma LastPaymentShows(before: seq<PaymentRow>, after: seq<PaymentRow>, e: ExecutionRow, e': ExecutionRow)
    requires StatusMatches(before, e) && StatusMatches(before + after, e') && e' == e.(status := e'.status)
    ensures match LastPayment(after, e.executionId)
            case None => !Unsettled(e.status) ==> e'.status == e.status
            case Some(p) => e'.status == (if Agreeing(p, e) then Captured else AmountMismatch)
  {
    hide LastPayment;
    LastPaymentOfConcat(before, after, e.executionId);
  }

  /** The last payment decides. Along any run a settled order keeps its status until another payment is recorded for
    * it, and it ends CAPTURED exactly when the last one recorded since, if any, agrees with it, or none was and it was
    * CAPTURED already.
    */
  lemma LastPaymentDecides(verify: Verifier, s: System, steps: seq<Step>, k: nat)
    requires SystemInv(s) && Legal(verify, s, steps) && k < |s.db.executions|
    ensures var s' := Run(verify, s, steps);
            && s.db.payments <= s'.db.payments && k < |s'.db.executions|
            && var e, e' := s.db.executions[k], s'.db.executions[k];
               match LastPayment(s'.db.payments[|s.db.payments|..], e.executionId)
               case None => !Unsettled(e.status) ==> e'.status == e.status
               case Some(p) => e'.status == (if Agreeing(p, e) then Captured else AmountMismatch)
  {
    hide EvidenceInv, CountsInv, SoundLog, PendingInv, Apply, Admissible, AuthsInv, LinksInv, HistoriesInv, BudgetInv,
         CartsInv, OrdersInv, LastPayment, StatusMatches, Run, Legal, AuthKept;
    var s' := Run(verify, s, steps);
    RunSafe(verify, s, steps);
    var e, e' := s.db.executions[k], s'.db.executions[k];
    var after := s'.db.payments[|s.db.payments|..];
    assert Advanced(e, e') && e in s.db.executions && e' in s'.db.executions;
    assert s'.db.payments == s.db.payments + after;
    LastPaymentShows(s.db.payments, after, e, e');
  }

  /** Under any interleaving an order keeps its identity and amount, and its status only advances from CREATED
    * to STALE to settled: never back to CREATED, never STALE after a payment.
    */
  lemma StatusOnlyAdvances(verify: Verifier, s: System, steps: seq<Step>, k: nat)
    requires SystemInv(s) && Legal(verify, s, steps) && k < |s.db.executions|
    ensures var s' := Run(verify, s, steps);
            && k < |s'.db.executions|
            && s'.db.executions[k] == s.db.executions[k].(status := s'.db.executions[k].status)
            && Rank(s.db.executions[k].status) <= Rank(s'.db.executions[k].status)
  {
    RunSafe(verify, s, steps);
    assert Advanced(s.db.executions[k], Run(verify, s, steps).db.executions[k]);
  }

  lemma ExecuteFindsItsRequest(db: Db, a: Id, requestId: Id, freshExecution: nat, freshOrder: Id, now: int)
    requires LinksInv(db)
    ensures Execute(db, a, requestId, freshExecution, freshOrder, now).1 != NoRequest
  {
    var d := LatestDecision(db.decisions, requestId, a);
    if d.Some? {
      assert d.value in db.decisions && DecisionLinked(db, d.value);
    }
  }

  lemma LookupFindsTheDecision(db: Db, d: Delivery)
    requires TablesInv(db)
    ensures LookupOrder(db, d) != Failure(UnknownOrderDecision)
  {
    if d.orderId.Some? && FindByOrder(db.executions, d.orderId.value).Some? {
      OwnerIsGoodTarget(db, FindByOrder(db.executions, d.orderId.value).value);
    }
  }

  lemma SettleFindsItsRows(s: System, task: nat)
    requires PendingInv(s.db, s.pending) && task in s.pending && s.pending[task].Settling?
    ensures Settle(s, task).1 == DuplicateIgnored || Settle(s, task).1 == Recorded
  {
    assert LocalInv(s.db, s.pending[task]);
  }

  lemma FlagFindsItsRows(s: System, task: nat)
    requires PendingInv(s.db, s.pending) && task in s.pending && s.pending[task].Sweeping?
    ensures var reply := FlagNext(s, task).1; reply == Flagged || reply == Skipped || reply.SweepDone?
  {
    assert LocalInv(s.db, s.pending[task]);
    var local := s.pending[task];
    if local.rest != [] { assert GoodTarget(s.db, local.rest[0]); }
  }

  /** Work left pending by an unlocked read, however old, never meets a missing row or an unknown authorization, and
    * no operation finds a dangling reference.
    */
  lemma NoDanglingReferences(verify: Verifier, steps: seq<Step>, s: System, step: Step)
    requires Reached(verify, steps, s) && Admissible(s, step)
    ensures var reply := Apply(verify, s, step).1;
            match step
            case ExecuteStep(_, _, _, _, _) => reply != NoRequest
            case LookupStep(_, _) => reply != UnknownOrderDecision
            case SettleStep(task) =>
              task in s.pending && s.pending[task].Settling? ==> reply == DuplicateIgnored || reply == Recorded
            case FlagStep(task) =>
              task in s.pending && s.pending[task].Sweeping? ==>
                reply == Flagged || reply == Skipped || reply.SweepDone?
            case _ => true
  {
    ReachedSafe(verify, steps, s);
    match step
    case ExecuteStep(a, requestId, freshExecution, freshOrder, now) =>
      ExecuteFindsItsRequest(s.db, a, requestId, freshExecution, freshOrder, now);
    case LookupStep(_, d) => LookupFindsTheDecision(s.db, d);
    case SettleStep(task) => if task in s.pending && s.pending[task].Settling? { SettleFindsItsRows(s, task); }
    case FlagStep(task) => if task in s.pending && s.pending[task].Sweeping? { FlagFindsItsRows(s, task); }
    case _ =>
  }

  /** A lookup made now finds the order that a good target names. */
  lemma LookupAgain(db: Db, target: Target, d: Delivery)
    requires LinksInv(db) && OrdersInv(db) && LocalInv(db, Settling(target, d))
    ensures LookupOrder(db, d) == Success(target)
  {
    var e := db.executions[Locate(db.executions, target.executionId)];
    var found := FindByOrder(db.executions, d.orderId.value);
    assert e in db.executions && found.Some?;
    SameOrderSameRow(db.executions, e, found.value);
  }

  lemma SameOrderSameRow(executions: seq<ExecutionRow>, e: ExecutionRow, e': ExecutionRow)
    requires DistinctExecutions(executions) && e in executions && e' in executions && e.orderId == e'.orderId
    ensures e == e'
  {
    var i :| 0 <= i < |executions| && executions[i] == e;
    var j :| 0 <= j < |executions| && executions[j] == e';
    assert !(i < j) && !(j < i);
  }

  /** The re-check of a webhook is sufficient: however old its lookup, in every reachable state its locked step has
    * exactly the tables and the answer of the whole webhook made now.
    */
  lemma OldLookupActsAsNow(verify: Verifier, steps: seq<Step>, s: System, task: nat)
    requires Reached(verify, steps, s) && task in s.pending && s.pending[task].Settling?
    ensures var (db, reply) := Deliver(s.db, s.pending[task].delivery);
            Settle(s, task) == (System(db, s.pending - {task}), reply)
  {
    hide EvidenceInv, CountsInv, SoundLog, RecordPayment, LookupOrder, GoodTarget, AuthsInv, LinksInv, HistoriesInv,
         BudgetInv, CartsInv, OrdersInv, PaymentsInv;
    ReachedSafe(verify, steps, s);
    var local := s.pending[task];
    assert LocalInv(s.db, local);
    LookupAgain(s.db, local.target, local.delivery);
  }

  /** The re-check of a sweep is sufficient: however old its snapshot, in every reachable state it flags the next order
    * exactly when a snapshot made now with the same cutoff would list it, and otherwise changes no table.
    */
  lemma OldCandidateIsRechecked(verify: Verifier, steps: seq<Step>, s: System, task: nat)
    requires Reached(verify, steps, s)
    requires task in s.pending && s.pending[task].Sweeping? && s.pending[task].rest != []
    ensures var Sweeping(job, rest, _) := s.pending[task];
            var i := Locate(s.db.executions, rest[0].executionId);
            var (s', reply) := FlagNext(s, task);
            && i < |s.db.executions|
            && (reply == Flagged <==> StaleCandidate(s.db, s.db.executions[i], job.cutoff))
            && s'.db.executions == (if reply == Flagged then SetStatus(s.db.executions, i, Stale) else s.db.executions)
            && (reply != Flagged ==> reply == Skipped && s'.db == s.db)
  {
    hide EvidenceInv, CountsInv, SoundLog, AuthsInv, LinksInv, HistoriesInv, BudgetInv, CartsInv, OrdersInv,
         PaymentsInv, HasPayment;
    ReachedSafe(verify, steps, s);
    var local := s.pending[task];
    assert LocalInv(s.db, local) && GoodTarget(s.db, local.rest[0]);
  }

  /** The lookup of a delivery finds the order it names, under a known authorization. */
  lemma OrderLocated(db: Db, d: Delivery, i: nat)
    requires LinksInv(db) && OrdersInv(db) && i < |db.executions| && LookupOrder(db, d).Success?
    requires d.orderId.value == db.executions[i].orderId
    ensures var target := LookupOrder(db, d).value;
            Locate(db.executions, target.executionId) == i && target.authorizationId in db.auths
  {
    hide LinksInv, OrderBacked;
    OwnerIsGoodTarget(db, FindByOrder(db.executions, d.orderId.value).value);
  }

  /** Whatever happened before, revoked or not: an authentic delivery with a new payment id for a known order
    * settles that order, to CAPTURED exactly when it names no amount or the order's own.
    */
  lemma DeliverySettles(db: Db, d: Delivery, i: nat)
    requires DbInv(db) && i < |db.executions| && LookupOrder(db, d).Success?
    requires d.orderId.value == db.executions[i].orderId && d.paymentId.value !in db.seen
    ensures var (db', reply) := Deliver(db, d);
            && reply == Recorded
            && db'.executions == SetStatus(db.executions, i, SettledStatus(db.executions[i], d.amount))
            && (db'.executions[i].status == Captured <==> d.amount.None? || d.amount.value == db.executions[i].amount)
  {
    hide EvidenceInv, CountsInv, SoundLog, AuthsInv, LinksInv, HistoriesInv, BudgetInv, CartsInv, OrdersInv,
         PaymentsInv;
    OrderLocated(db, d, i);
  }

  /** So CAPTURED is not final: another payment id with another amount overwrites it, and a further one restores it. */
  lemma CapturedIsNotFinal(db: Db, i: nat, wrong: Delivery, right: Delivery)
    requires DbInv(db) && i < |db.executions| && db.executions[i].status == Captured
    requires LookupOrder(db, wrong).Success? && LookupOrder(db, right).Success?
    requires wrong.orderId == right.orderId == Some(db.executions[i].orderId)
    requires wrong.paymentId.value !in db.seen && right.paymentId.value !in db.seen
            && wrong.paymentId != right.paymentId
    requires wrong.amount.Some? && wrong.amount.value != db.executions[i].amount && right.amount.None?
    ensures var mid := Deliver(db, wrong).0;
            && i < |mid.executions| && mid.executions[i].status == AmountMismatch
            && var end := Deliver(mid, right).0;
               i < |end.executions| && end.executions[i].status == Captured
  {
    hide TablesInv, EvidenceInv, CountsInv, SoundLog, Extends, Deliver, LookupOrder;
    var mid := Deliver(db, wrong).0;
    DeliverySettles(db, wrong, i);
    DeliverSafe(db, wrong);
    NextLookup(db, wrong, i, right);
    DeliverySettles(mid, right, i);
  }

  lemma NextLookup(db: Db, d: Delivery, i: nat, next: Delivery)
    requires DbInv(db) && i < |db.executions| && LookupOrder(db, d).Success?
    requires d.orderId.value == db.executions[i].orderId && d.paymentId.value !in db.seen
    requires LookupOrder(db, next).Success? && next.orderId == d.orderId && next.paymentId.value !in db.seen
    requires next.paymentId != d.paymentId
    ensures var mid := Deliver(db, d).0;
            && i < |mid.executions| && mid.executions[i].orderId == next.orderId.value
            && LookupOrder(mid, next).Success? && next.paymentId.value !in mid.seen
  {
    hide EvidenceInv, CountsInv, SoundLog, AuthsInv, BudgetInv, CartsInv, HistoriesInv, PaymentsInv;
    DeliverySettles(db, d, i);
    DeliverSafe(db, d);
    var mid := Deliver(db, d).0;
    assert mid.executions[i] in mid.executions;
    OwnerIsGoodTarget(mid, mid.executions[i]);
    OwnerIsGoodTarget(mid, FindByOrder(mid.executions, next.orderId.value).value);
  }
}

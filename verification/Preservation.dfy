/** Every operation keeps the table invariants. */
module Preservation {
  import opened Wrappers
  import opened Canonical
  import opened PolicyEngine
  import opened PolicyLaws
  import opened EvidenceLog
  import opened Tables
  import opened Operations
  import opened Invariants

  // Agent requests

  /** What the judgement guarantees about the decision that is written. */
  ghost predicate Justified(db: Db, r: AgentRequest, result: PolicyResult)
    requires r.authorizationId in db.auths
  {
    var row := db.auths[r.authorizationId];
    && (FindRequest(db.requests, r.authorizationId, r.nonce).Some? ==> result.decision == Block)
    && (result.decision == Allow ==>
          && r.authorizationId !in db.revocations
          && row.usedCount < row.envelope.mandate.maxTransactions
          && InScope(row.envelope.mandate, r.cart)
          && r.cart.total <= row.envelope.mandate.maxTotal)
  }

  lemma JudgementJustified(verify: Verifier, db: Db, r: AgentRequest, now: int)
    requires r.authorizationId in db.auths
    ensures Justified(db, r, Judgement(verify, db, r, now))
  {
    var row := db.auths[r.authorizationId];
    var nonceUsed := FindRequest(db.requests, r.authorizationId, r.nonce).Some?;
    DecisionCharacterised(verify, row.envelope, r.cart, Context(now, nonceUsed, row.usedCount, None, false));
  }

  /** Freshness of the two identifiers of an agent request. */
  ghost predicate FreshIds(db: Db, freshRequest: Id, freshDecision: Id) {
    && (forall row <- db.requests :: row.requestId != freshRequest)
    && (forall row <- db.decisions :: row.decisionId != freshDecision)
  }

  /** Lookups that succeed before an agent request give the same row after it. */
  lemma RequestLookupStable(db: Db, r: AgentRequest, result: PolicyResult, freshRequest: Id, freshDecision: Id, id: Id)
    requires r.authorizationId in db.auths && FreshIds(db, freshRequest, freshDecision)
    requires GetRequest(db.requests, id).Some?
    ensures GetRequest(InsertDecision(db, r, result, freshRequest, freshDecision).requests, id)
         == GetRequest(db.requests, id)
  {
    GetRequestAppend(db.requests,
                     RequestRow(freshRequest, r.authorizationId, r.agentId, r.nonce, r.cart, result.decision), id);
  }

  lemma DecisionLookupStable(db: Db, r: AgentRequest, result: PolicyResult, freshRequest: Id, freshDecision: Id, id: Id)
    requires r.authorizationId in db.auths && FreshIds(db, freshRequest, freshDecision)
    requires GetDecision(db.decisions, id).Some?
    ensures GetDecision(InsertDecision(db, r, result, freshRequest, freshDecision).decisions, id)
         == GetDecision(db.decisions, id)
  {
    GetDecisionAppend(db.decisions,
                      DecisionRow(freshDecision, RequestIdFor(db, r, freshRequest), r.authorizationId, result), id);
  }

  lemma {:induction false} GetRequestFinds(rows: seq<RequestRow>, row: RequestRow)
    requires row in rows && DistinctRequests(rows)
    ensures GetRequest(rows, row.requestId) == Some(row)
  {
    var last := |rows| - 1;
    if row != rows[last] {
      GetRequestFinds(rows[..last], row);
    }
  }

  /** The new decision's request, as it stands afterwards. */
  lemma NewDecisionsRequest(db: Db, r: AgentRequest, result: PolicyResult, freshRequest: Id, freshDecision: Id)
    requires r.authorizationId in db.auths && FreshIds(db, freshRequest, freshDecision) && DistinctRequests(db.requests)
    ensures var found := GetRequest(InsertDecision(db, r, result, freshRequest, freshDecision).requests,
                                    RequestIdFor(db, r, freshRequest));
            && found.Some? && found.value.authorizationId == r.authorizationId
            && (FindRequest(db.requests, r.authorizationId, r.nonce).None? ==> found.value.cart == r.cart)
  {
    var existing := FindRequest(db.requests, r.authorizationId, r.nonce);
    if existing.Some? {
      GetRequestFinds(db.requests, existing.value);
    } else {
      var row := RequestRow(freshRequest, r.authorizationId, r.agentId, r.nonce, r.cart, result.decision);
      GetRequestAppend(db.requests, row, freshRequest);
    }
  }

  lemma InsertKeepsLinks(db: Db, r: AgentRequest, result: PolicyResult, freshRequest: Id, freshDecision: Id)
    requires LinksInv(db) && r.authorizationId in db.auths && FreshIds(db, freshRequest, freshDecision)
    ensures LinksInv(InsertDecision(db, r, result, freshRequest, freshDecision))
  {
    var db' := InsertDecision(db, r, result, freshRequest, freshDecision);
    forall d <- db'.decisions
      ensures DecisionLinked(db', d)
    {
      if d in db.decisions {
        assert DecisionLinked(db, d);
        RequestLookupStable(db, r, result, freshRequest, freshDecision, d.requestId);
      } else {
        NewDecisionsRequest(db, r, result, freshRequest, freshDecision);
      }
    }
  }

  lemma InsertKeepsHistories(db: Db, r: AgentRequest, result: PolicyResult, freshRequest: Id, freshDecision: Id)
    requires LinksInv(db) && HistoriesInv(db)
    requires r.authorizationId in db.auths && FreshIds(db, freshRequest, freshDecision) && Justified(db, r, result)
    ensures HistoriesInv(InsertDecision(db, r, result, freshRequest, freshDecision))
  {
    var db' := InsertDecision(db, r, result, freshRequest, freshDecision);
    var d := DecisionRow(freshDecision, RequestIdFor(db, r, freshRequest), r.authorizationId, result);
    forall row <- db'.requests
      ensures GoodHistory(HistoryOf(db'.decisions, row.requestId), row.state)
    {
      HistoryAppend(db.decisions, d, row.requestId);
      if row in db.requests {
        assert GoodHistory(HistoryOf(db.decisions, row.requestId), row.state);
      } else {
        assert forall past <- db.decisions :: DecisionLinked(db, past) && past.requestId != freshRequest;
        NoHistory(db.decisions, freshRequest);
      }
    }
  }

  lemma InsertKeepsBudget(db: Db, r: AgentRequest, result: PolicyResult, freshRequest: Id, freshDecision: Id)
    requires BudgetInv(db) && r.authorizationId in db.auths && Justified(db, r, result)
    ensures BudgetInv(InsertDecision(db, r, result, freshRequest, freshDecision))
  {
    var db' := InsertDecision(db, r, result, freshRequest, freshDecision);
    var d := DecisionRow(freshDecision, RequestIdFor(db, r, freshRequest), r.authorizationId, result);
    forall a <- db'.auths
      ensures db'.auths[a].usedCount == CountAllow(db'.decisions, a)
      ensures db'.auths[a].usedCount == 0 || db'.auths[a].usedCount <= db'.auths[a].envelope.mandate.maxTransactions
    {
      CountAllowAppend(db.decisions, d, a);
    }
  }

  lemma InsertKeepsCarts(db: Db, r: AgentRequest, result: PolicyResult, freshRequest: Id, freshDecision: Id)
    requires LinksInv(db) && CartsInv(db)
    requires r.authorizationId in db.auths && FreshIds(db, freshRequest, freshDecision) && Justified(db, r, result)
    ensures CartsInv(InsertDecision(db, r, result, freshRequest, freshDecision))
  {
    var db' := InsertDecision(db, r, result, freshRequest, freshDecision);
    forall d <- db'.decisions
      ensures d.result.decision == Allow ==> CartAllowed(db', d)
    {
      if d in db.decisions {
        if d.result.decision == Allow {
          assert CartAllowed(db, d);
          RequestLookupStable(db, r, result, freshRequest, freshDecision, d.requestId);
        }
      } else {
        NewDecisionsRequest(db, r, result, freshRequest, freshDecision);
      }
    }
  }

  lemma InsertKeepsOrders(db: Db, r: AgentRequest, result: PolicyResult, freshRequest: Id, freshDecision: Id)
    requires OrdersInv(db) && r.authorizationId in db.auths && FreshIds(db, freshRequest, freshDecision)
    ensures OrdersInv(InsertDecision(db, r, result, freshRequest, freshDecision))
  {
    var db' := InsertDecision(db, r, result, freshRequest, freshDecision);
    forall e <- db'.executions
      ensures OrderBacked(db', e)
    {
      assert OrderBacked(db, e);
      DecisionLookupStable(db, r, result, freshRequest, freshDecision, e.decisionId);
      RequestLookupStable(db, r, result, freshRequest, freshDecision,
                          GetDecision(db.decisions, e.decisionId).value.requestId);
    }
  }

  lemma InsertKeepsAuthsAndPayments(db: Db, r: AgentRequest, result: PolicyResult, freshRequest: Id, freshDecision: Id)
    requires AuthsInv(db) && PaymentsInv(db) && r.authorizationId in db.auths
    ensures AuthsInv(InsertDecision(db, r, result, freshRequest, freshDecision))
    ensures PaymentsInv(InsertDecision(db, r, result, freshRequest, freshDecision))
  {
    var db' := InsertDecision(db, r, result, freshRequest, freshDecision);
    assert forall p <- db.payments :: PaymentLinked(db, p) && PaymentLinked(db', p);
  }

  lemma InsertDecisionKeeps(db: Db, r: AgentRequest, result: PolicyResult, freshRequest: Id, freshDecision: Id)
    requires TablesInv(db)
    requires r.authorizationId in db.auths && FreshIds(db, freshRequest, freshDecision) && Justified(db, r, result)
    ensures TablesInv(InsertDecision(db, r, result, freshRequest, freshDecision))
  {
    hide AuthsInv, LinksInv, HistoriesInv, BudgetInv, CartsInv, OrdersInv, PaymentsInv, InsertDecision;
    InsertKeepsLinks(db, r, result, freshRequest, freshDecision);
    InsertKeepsHistories(db, r, result, freshRequest, freshDecision);
    InsertKeepsBudget(db, r, result, freshRequest, freshDecision);
    InsertKeepsCarts(db, r, result, freshRequest, freshDecision);
    InsertKeepsOrders(db, r, result, freshRequest, freshDecision);
    InsertKeepsAuthsAndPayments(db, r, result, freshRequest, freshDecision);
  }

  // Orders

  lemma {:induction false} LocateAppend(rows: seq<ExecutionRow>, row: ExecutionRow, id: nat)
    ensures Locate(rows, id) < |rows| ==> Locate(rows + [row], id) == Locate(rows, id)
  {
    if rows != [] {
      assert (rows + [row])[1..] == rows[1..] + [row];
      LocateAppend(rows[1..], row, id);
    }
  }

  ghost predicate FreshOrder(db: Db, e: ExecutionRow) {
    forall row <- db.executions ::
      row.executionId != e.executionId && row.orderId != e.orderId && row.decisionId != e.decisionId
  }

  lemma InsertOrderKeepsOrders(db: Db, e: ExecutionRow)
    requires OrdersInv(db) && OrderBacked(db, e) && FreshOrder(db, e)
    ensures OrdersInv(db.(executions := db.executions + [e]))
  {
    var db' := db.(executions := db.executions + [e]);
    assert forall k :: 0 <= k < |db.executions| ==> db.executions[k] in db.executions;
    forall row <- db'.executions
      ensures OrderBacked(db', row)
    {
      assert OrderBacked(db, row);
    }
  }

  lemma InsertOrderKeepsPayments(db: Db, e: ExecutionRow)
    requires PaymentsInv(db) && FreshOrder(db, e) && e.status == Created
    ensures PaymentsInv(db.(executions := db.executions + [e]))
  {
    var db' := db.(executions := db.executions + [e]);
    forall p <- db.payments
      ensures PaymentLinked(db', p) && p.executionId != e.executionId
    {
      assert PaymentLinked(db, p);
      assert db.executions[Locate(db.executions, p.executionId)] in db.executions;
      LocateAppend(db.executions, e, p.executionId);
    }
    assert forall row <- db.executions :: StatusMatches(db.payments, row);
  }

  /** Inserting an order for an ALLOW that has none. */
  lemma InsertOrderKeeps(db: Db, e: ExecutionRow)
    requires TablesInv(db) && OrderBacked(db, e) && FreshOrder(db, e) && e.status == Created
    ensures TablesInv(db.(executions := db.executions + [e]))
  {
    var db' := db.(executions := db.executions + [e]);
    InsertOrderKeepsOrders(db, e);
    InsertOrderKeepsPayments(db, e);
    assert forall d <- db.decisions :: DecisionLinked(db, d) && DecisionLinked(db', d);
    assert forall d <- db.decisions :: d.result.decision == Allow ==> CartAllowed(db, d) && CartAllowed(db', d);
  }

  /** `e` is a new order for decision `d`: the only decision on its request, and without an order so far. */
  ghost predicate NewOrder(db: Db, a: Id, requestId: Id, d: DecisionRow, e: ExecutionRow) {
    && a in db.auths && a !in db.revocations
    && d in db.decisions && GetDecision(db.decisions, d.decisionId) == Some(d)
    && d.authorizationId == a && d.requestId == requestId && d.result.decision == Allow
    && HistoryOf(db.decisions, requestId) == [d]
    && (forall row <- db.executions :: row.decisionId != d.decisionId)
    && e.decisionId == d.decisionId && e.status == Created && OrderBacked(db, e)
  }

  /** An execution changes the tables only by inserting a new order for a request whose whole decision
    * history is one ALLOW, at the price of the cart that was allowed.
    */
  lemma ExecuteOnlyInserts(db: Db, a: Id, requestId: Id, freshExecution: nat, freshOrder: Id, now: int)
      returns (d: DecisionRow, e: ExecutionRow)
    requires TablesInv(db)
    ensures var (db', reply) := Execute(db, a, requestId, freshExecution, freshOrder, now);
            db' != db ==>
              && NewOrder(db, a, requestId, d, e)
              && e.executionId == freshExecution && e.orderId == freshOrder && e.createdAt == now
              && reply == Order(freshOrder, e.amount, e.currency)
              && db' == Record(db.(executions := db.executions + [e]), a, OrderCreated, "payment-executor",
                               OrderJson(freshOrder, e.amount, e.currency))
  {
    var (db', reply) := Execute(db, a, requestId, freshExecution, freshOrder, now);
    if db' != db {
      d := LatestDecision(db.decisions, requestId, a).value;
      var i :| IsLatest(db.decisions, i, requestId, a) && db.decisions[i] == d;
      assert d in db.decisions && DecisionLinked(db, d);
      GetDecisionFinds(db.decisions, d);
      LatestAllowIsOnly(db, i, requestId, a);
      var cart := GetRequest(db.requests, requestId).value.cart;
      e := ExecutionRow(freshExecution, d.decisionId, freshOrder, cart.total, cart.currency, Created, now);
      assert OrderBacked(db, e);
    } else {
      d := *;
      e := *;
    }
  }

  lemma {:induction false} GetDecisionFinds(rows: seq<DecisionRow>, row: DecisionRow)
    requires row in rows && DistinctDecisions(rows)
    ensures GetDecision(rows, row.decisionId) == Some(row)
  {
    var last := |rows| - 1;
    if row != rows[last] {
      GetDecisionFinds(rows[..last], row);
    }
  }

  lemma {:induction false} HistoryEndsWith(rows: seq<DecisionRow>, i: nat, request: Id)
    requires i < |rows| && rows[i].requestId == request
    requires forall j :: i < j < |rows| ==> rows[j].requestId != request
    ensures HistoryOf(rows, request) != [] && HistoryOf(rows, request)[|HistoryOf(rows, request)| - 1] == rows[i]
  {
    if i < |rows| - 1 {
      HistoryEndsWith(rows[..|rows| - 1], i, request);
    }
  }

  /** If the latest decision on a request is ALLOW, it is the only one. */
  lemma LatestAllowIsOnly(db: Db, i: nat, request: Id, a: Id)
    requires LinksInv(db) && HistoriesInv(db) && IsLatest(db.decisions, i, request, a)
    requires db.decisions[i].result.decision == Allow
    ensures HistoryOf(db.decisions, request) == [db.decisions[i]]
  {
    var d := db.decisions[i];
    assert d in db.decisions && DecisionLinked(db, d);
    forall j | i < j < |db.decisions|
      ensures db.decisions[j].requestId != request
    {
      assert db.decisions[j] in db.decisions && DecisionLinked(db, db.decisions[j]);
    }
    HistoryEndsWith(db.decisions, i, request);
    var row := GetRequest(db.requests, request).value;
    assert GoodHistory(HistoryOf(db.decisions, row.requestId), row.state);
  }

  // Status changes

  lemma {:induction false} LocateSetStatus(rows: seq<ExecutionRow>, i: nat, status: Status, id: nat)
    requires i < |rows|
    ensures Locate(SetStatus(rows, i, status), id) == Locate(rows, id)
  {
    var rows' := SetStatus(rows, i, status);
    if i == 0 {
      assert rows'[1..] == rows[1..];
    } else {
      assert rows'[1..] == SetStatus(rows[1..], i - 1, status);
      LocateSetStatus(rows[1..], i - 1, status, id);
    }
  }

  /** A status change leaves everything but the payment facts alone. */
  lemma SetStatusKeepsOrders(db: Db, i: nat, status: Status)
    requires OrdersInv(db) && i < |db.executions|
    ensures OrdersInv(db.(executions := SetStatus(db.executions, i, status)))
  {
    var db' := db.(executions := SetStatus(db.executions, i, status));
    forall k | 0 <= k < |db'.executions|
      ensures OrderBacked(db', db'.executions[k])
    {
      assert db.executions[k] in db.executions && OrderBacked(db, db.executions[k]);
    }
  }

  /** Order statuses, payments and seen ids may change without touching the other rows. */
  lemma StatusChangeKeepsRest(db: Db, db': Db, i: nat, status: Status)
    requires TablesInv(db) && i < |db.executions|
    requires db' == db.(executions := SetStatus(db.executions, i, status), payments := db'.payments, seen := db'.seen)
    requires PaymentsInv(db')
    ensures TablesInv(db')
  {
    hide PaymentsInv, HistoriesInv;
    assert forall d <- db.decisions :: DecisionLinked(db, d) && DecisionLinked(db', d);
    assert forall d <- db.decisions :: d.result.decision == Allow ==> CartAllowed(db, d) && CartAllowed(db', d);
    var mid := db.(executions := SetStatus(db.executions, i, status));
    SetStatusKeepsOrders(db, i, status);
    assert forall e <- db'.executions :: OrderBacked(mid, e) && OrderBacked(db', e);
    assert HistoriesInv(db') by { SameDecisionsKeepHistories(db, db'); }
  }

  lemma SameDecisionsKeepHistories(db: Db, db': Db)
    requires HistoriesInv(db) && db'.requests == db.requests && db'.decisions == db.decisions
    ensures HistoriesInv(db')
  {}

  lemma FlagKeepsPayments(db: Db, i: nat)
    requires PaymentsInv(db) && i < |db.executions| && db.executions[i].status == Created
    ensures PaymentsInv(db.(executions := SetStatus(db.executions, i, Stale)))
  {
    hide LastPayment, Paid;
    var db' := db.(executions := SetStatus(db.executions, i, Stale));
    forall p <- db.payments
      ensures PaymentLinked(db', p)
    {
      assert PaymentLinked(db, p);
      LocateSetStatus(db.executions, i, Stale, p.executionId);
    }
    forall k | 0 <= k < |db'.executions|
      ensures StatusMatches(db'.payments, db'.executions[k])
    {
      assert db.executions[k] in db.executions && StatusMatches(db.payments, db.executions[k]);
    }
  }

  lemma FlagKeeps(db: Db, i: nat)
    requires TablesInv(db) && i < |db.executions| && db.executions[i].status == Created
    ensures TablesInv(db.(executions := SetStatus(db.executions, i, Stale)))
  {
    hide AuthsInv, LinksInv, HistoriesInv, BudgetInv, CartsInv, OrdersInv, PaymentsInv;
    FlagKeepsPayments(db, i);
    StatusChangeKeepsRest(db, db.(executions := SetStatus(db.executions, i, Stale)), i, Stale);
  }

  /** The rows a recorded payment writes. */
  function Settled(db: Db, i: nat, p: PaymentRow): Db
    requires i < |db.executions|
  {
    db.(seen := db.seen[p.paymentId := p.eventType],
        executions := SetStatus(db.executions, i, SettledStatus(db.executions[i], p.amount)),
        payments := db.payments + [p])
  }

  /** A payment for an order of the database, under a payment id not seen before. */
  ghost predicate NewPayment(db: Db, i: nat, p: PaymentRow) {
    i < |db.executions| && p.executionId == db.executions[i].executionId && p.paymentId !in db.seen
  }

  lemma LastPaymentAppend(rows: seq<PaymentRow>, p: PaymentRow, execution: nat)
    ensures LastPayment(rows + [p], execution)
         == if p.executionId == execution then Some(p) else LastPayment(rows, execution)
  {
    assert (rows + [p])[..|rows|] == rows;
  }

  lemma SettleKeepsStatuses(db: Db, i: nat, p: PaymentRow)
    requires DistinctExecutions(db.executions) && NewPayment(db, i, p)
    requires forall e <- db.executions :: StatusMatches(db.payments, e)
    ensures forall e <- Settled(db, i, p).executions :: StatusMatches(Settled(db, i, p).payments, e)
  {
    var db' := Settled(db, i, p);
    forall k | 0 <= k < |db'.executions|
      ensures StatusMatches(db'.payments, db'.executions[k])
    {
      assert db.executions[k] in db.executions && StatusMatches(db.payments, db.executions[k]);
      LastPaymentAppend(db.payments, p, db.executions[k].executionId);
    }
  }

  lemma SettleKeepsSeen(db: Db, i: nat, p: PaymentRow)
    requires NewPayment(db, i, p) && forall id <- db.seen :: Paid(db.payments, id)
    ensures forall id <- Settled(db, i, p).seen :: Paid(Settled(db, i, p).payments, id)
  {
    forall id <- Settled(db, i, p).seen
      ensures Paid(Settled(db, i, p).payments, id)
    {
      var row :| row in db.payments + [p] && row.paymentId == id;
    }
  }

  lemma SettleKeepsPaymentLinks(db: Db, i: nat, p: PaymentRow)
    requires NewPayment(db, i, p) && forall row <- db.payments :: PaymentLinked(db, row)
    ensures forall row <- db.payments :: PaymentLinked(Settled(db, i, p), row) && row.paymentId != p.paymentId
    ensures PaymentLinked(Settled(db, i, p), p)
  {
    var status := SettledStatus(db.executions[i], p.amount);
    forall row <- db.payments
      ensures PaymentLinked(Settled(db, i, p), row) && row.paymentId != p.paymentId
    {
      assert PaymentLinked(db, row);
      LocateSetStatus(db.executions, i, status, row.executionId);
    }
    LocateSetStatus(db.executions, i, status, p.executionId);
    assert db.executions[i] in db.executions;
  }

  lemma SettleKeepsPayments(db: Db, i: nat, p: PaymentRow)
    requires DistinctExecutions(db.executions) && PaymentsInv(db) && NewPayment(db, i, p)
    ensures PaymentsInv(Settled(db, i, p))
  {
    hide StatusMatches, Paid, PaymentLinked;
    SettleKeepsStatuses(db, i, p);
    SettleKeepsSeen(db, i, p);
    SettleKeepsPaymentLinks(db, i, p);
    assert forall k :: 0 <= k < |db.payments| ==> db.payments[k] in db.payments;
  }

  lemma SettleKeeps(db: Db, i: nat, p: PaymentRow)
    requires TablesInv(db) && NewPayment(db, i, p)
    ensures TablesInv(Settled(db, i, p))
  {
    hide AuthsInv, LinksInv, HistoriesInv, BudgetInv, CartsInv, PaymentsInv;
    SettleKeepsPayments(db, i, p);
    StatusChangeKeepsRest(db, Settled(db, i, p), i, SettledStatus(db.executions[i], p.amount));
  }
}

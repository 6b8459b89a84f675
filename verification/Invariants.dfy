/** What holds of the tables in every reachable state. */
module Invariants {
  import opened Wrappers
  import opened Canonical
  import opened PolicyLaws
  import opened EvidenceLog
  import opened Tables

  // Keys and references

  ghost predicate DistinctRequests(rows: seq<RequestRow>) {
    forall i, j :: 0 <= i < j < |rows| ==>
      && rows[i].requestId != rows[j].requestId
      && !(rows[i].authorizationId == rows[j].authorizationId && rows[i].nonce == rows[j].nonce)
  }

  ghost predicate DistinctDecisions(rows: seq<DecisionRow>) {
    forall i, j :: 0 <= i < j < |rows| ==> rows[i].decisionId != rows[j].decisionId
  }

  ghost predicate DistinctExecutions(rows: seq<ExecutionRow>) {
    forall i, j :: 0 <= i < j < |rows| ==>
      && rows[i].executionId != rows[j].executionId
      && rows[i].decisionId != rows[j].decisionId
      && rows[i].orderId != rows[j].orderId
  }

  ghost predicate AuthsInv(db: Db) {
    && (forall a <- db.auths :: db.auths[a].envelope.mandate.authorizationId == a)
    && db.revocations.Keys <= db.auths.Keys
  }

  /** The request a decision is about. */
  ghost predicate DecisionLinked(db: Db, d: DecisionRow) {
    && d.authorizationId in db.auths
    && var request := GetRequest(db.requests, d.requestId);
       request.Some? && request.value.authorizationId == d.authorizationId
  }

  ghost predicate LinksInv(db: Db) {
    && DistinctRequests(db.requests) && DistinctDecisions(db.decisions)
    && (forall r <- db.requests :: r.authorizationId in db.auths)
    && (forall d <- db.decisions :: DecisionLinked(db, d))
  }

  // Decision histories

  /** All decisions on one request, oldest first. */
  function HistoryOf(decisions: seq<DecisionRow>, request: Id): seq<DecisionRow> {
    if decisions == [] then []
    else
      var last := |decisions| - 1;
      HistoryOf(decisions[..last], request)
      + (if decisions[last].requestId == request then [decisions[last]] else [])
  }

  /** Only the first decision on a request can be anything but BLOCK. */
  ghost predicate GoodHistory(history: seq<DecisionRow>, first: Decision) {
    && history != [] && history[0].result.decision == first
    && forall k :: 0 < k < |history| ==> history[k].result.decision == Block
  }

  ghost predicate HistoriesInv(db: Db) {
    forall r <- db.requests :: GoodHistory(HistoryOf(db.decisions, r.requestId), r.state)
  }

  // Budgets and amounts

  function CountAllow(decisions: seq<DecisionRow>, a: Id): nat {
    if decisions == [] then 0
    else
      var last := |decisions| - 1;
      CountAllow(decisions[..last], a)
      + (if decisions[last].authorizationId == a && decisions[last].result.decision == Allow then 1 else 0)
  }

  ghost predicate BudgetInv(db: Db) {
    forall a <- db.auths ::
      && db.auths[a].usedCount == CountAllow(db.decisions, a)
      && (db.auths[a].usedCount == 0 || db.auths[a].usedCount <= db.auths[a].envelope.mandate.maxTransactions)
  }

  /** The cart behind an ALLOW lies inside its mandate. */
  ghost predicate CartAllowed(db: Db, d: DecisionRow) {
    && d.authorizationId in db.auths
    && var request := GetRequest(db.requests, d.requestId);
       && request.Some?
       && InScope(db.auths[d.authorizationId].envelope.mandate, request.value.cart)
       && request.value.cart.total <= db.auths[d.authorizationId].envelope.mandate.maxTotal
  }

  ghost predicate CartsInv(db: Db) {
    forall d <- db.decisions :: d.result.decision == Allow ==> CartAllowed(db, d)
  }

  /** An order belongs to an ALLOW and charges the total of the very cart that was allowed. */
  ghost predicate OrderBacked(db: Db, e: ExecutionRow) {
    var d := GetDecision(db.decisions, e.decisionId);
    && d.Some? && d.value.result.decision == Allow
    && var request := GetRequest(db.requests, d.value.requestId);
       request.Some? && e.amount == request.value.cart.total && e.currency == request.value.cart.currency
  }

  ghost predicate OrdersInv(db: Db) {
    && DistinctExecutions(db.executions)
    && forall e <- db.executions :: OrderBacked(db, e)
  }

  // Payments

  ghost predicate Unsettled(status: Status) {
    status == Created || status == Stale
  }

  /** The status to which a payment settles an order. */
  function SettledStatus(e: ExecutionRow, paid: Option<int>): Status {
    if paid.Some? && paid.value != e.amount then AmountMismatch else Captured
  }

  /** The payment recorded last for an order. */
  function LastPayment(payments: seq<PaymentRow>, execution: nat): (found: Option<PaymentRow>)
    ensures found.Some? ==> found.value in payments && found.value.executionId == execution
    ensures found.None? ==> forall p <- payments :: p.executionId != execution
  {
    if payments == [] then None
    else
      var last := |payments| - 1;
      if payments[last].executionId == execution then Some(payments[last]) else LastPayment(payments[..last], execution)
  }

  lemma HasPaymentIsLast(payments: seq<PaymentRow>, execution: nat)
    ensures HasPayment(payments, execution) <==> LastPayment(payments, execution).Some?
  {
    if HasPayment(payments, execution) {
      var i :| 0 <= i < |payments| && payments[i].executionId == execution;
      assert payments[i] in payments;
    }
  }

  /** An unpaid order is unsettled, and a paid one has the status of its last payment. */
  ghost predicate StatusMatches(payments: seq<PaymentRow>, e: ExecutionRow) {
    match LastPayment(payments, e.executionId)
    case None => Unsettled(e.status)
    case Some(p) => e.status == SettledStatus(e, p.amount)
  }

  ghost predicate PaymentLinked(db: Db, p: PaymentRow) {
    && p.paymentId in db.seen && db.seen[p.paymentId] == p.eventType
    && Locate(db.executions, p.executionId) < |db.executions|
  }

  ghost predicate Paid(payments: seq<PaymentRow>, id: Id) {
    exists p <- payments :: p.paymentId == id
  }

  /** Statuses are those of the last payments, and seen ids correspond one to one with them. */
  ghost predicate PaymentsInv(db: Db) {
    && (forall e <- db.executions :: StatusMatches(db.payments, e))
    && (forall i, j :: 0 <= i < j < |db.payments| ==> db.payments[i].paymentId != db.payments[j].paymentId)
    && (forall p <- db.payments :: PaymentLinked(db, p))
    && (forall id <- db.seen :: Paid(db.payments, id))
  }

  ghost predicate TablesInv(db: Db) {
    AuthsInv(db) && LinksInv(db) && HistoriesInv(db) && BudgetInv(db) && CartsInv(db) && OrdersInv(db)
      && PaymentsInv(db)
  }

  // Lookups on extended tables

  lemma GetRequestAppend(rows: seq<RequestRow>, row: RequestRow, id: Id)
    ensures GetRequest(rows + [row], id) == if row.requestId == id then Some(row) else GetRequest(rows, id)
  {
    assert (rows + [row])[..|rows|] == rows;
  }

  lemma GetDecisionAppend(rows: seq<DecisionRow>, row: DecisionRow, id: Id)
    ensures GetDecision(rows + [row], id) == if row.decisionId == id then Some(row) else GetDecision(rows, id)
  {
    assert (rows + [row])[..|rows|] == rows;
  }

  lemma HistoryAppend(rows: seq<DecisionRow>, row: DecisionRow, id: Id)
    ensures HistoryOf(rows + [row], id) == HistoryOf(rows, id) + (if row.requestId == id then [row] else [])
  {
    assert (rows + [row])[..|rows|] == rows;
  }

  lemma CountAllowAppend(rows: seq<DecisionRow>, row: DecisionRow, a: Id)
    ensures CountAllow(rows + [row], a)
         == CountAllow(rows, a) + (if row.authorizationId == a && row.result.decision == Allow then 1 else 0)
  {
    assert (rows + [row])[..|rows|] == rows;
  }

  lemma {:induction false} NoHistory(rows: seq<DecisionRow>, id: Id)
    requires forall d <- rows :: d.requestId != id
    ensures HistoryOf(rows, id) == []
  {
    if rows != [] {
      NoHistory(rows[..|rows| - 1], id);
    }
  }

  lemma {:induction false} NoAllows(rows: seq<DecisionRow>, a: Id)
    requires forall d <- rows :: d.authorizationId != a
    ensures CountAllow(rows, a) == 0
  {
    if rows != [] {
      NoAllows(rows[..|rows| - 1], a);
    }
  }

  lemma {:induction false} InHistory(rows: seq<DecisionRow>, d: DecisionRow)
    requires d in rows
    ensures d in HistoryOf(rows, d.requestId)
  {
    var last := |rows| - 1;
    if d != rows[last] {
      assert d in rows[..last];
      InHistory(rows[..last], d);
    }
  }

  // Confirmation

  /** Mandates and evidence may be added without touching the other rows. */
  ghost predicate SameRows(db: Db, db': Db) {
    && db' == db.(auths := db'.auths, revocations := db'.revocations, log := db'.log)
    && forall a <- db.auths :: a in db'.auths && db'.auths[a] == db.auths[a]
  }

  lemma SameRowsKeepLinks(db: Db, db': Db)
    requires SameRows(db, db') && LinksInv(db) && HistoriesInv(db)
    ensures LinksInv(db') && HistoriesInv(db')
  {
    assert forall d <- db.decisions :: DecisionLinked(db, d) && DecisionLinked(db', d);
  }

  lemma SameRowsKeepCarts(db: Db, db': Db)
    requires SameRows(db, db') && CartsInv(db)
    ensures CartsInv(db')
  {
    assert forall d <- db.decisions :: d.result.decision == Allow ==> CartAllowed(db, d) && CartAllowed(db', d);
  }

  lemma SameRowsKeepOrders(db: Db, db': Db)
    requires SameRows(db, db') && OrdersInv(db) && PaymentsInv(db)
    ensures OrdersInv(db') && PaymentsInv(db')
  {
    assert forall e <- db.executions :: OrderBacked(db, e) && OrderBacked(db', e);
    assert forall p <- db.payments :: PaymentLinked(db, p) && PaymentLinked(db', p);
  }

  lemma SameRowsKeep(db: Db, db': Db)
    requires SameRows(db, db') && TablesInv(db) && AuthsInv(db') && BudgetInv(db')
    ensures TablesInv(db')
  {
    hide AuthsInv, LinksInv, HistoriesInv, BudgetInv, CartsInv, OrdersInv, PaymentsInv;
    SameRowsKeepLinks(db, db');
    SameRowsKeepCarts(db, db');
    SameRowsKeepOrders(db, db');
  }

  lemma ConfirmKeeps(db: Db, envelope: Envelope)
    requires TablesInv(db) && envelope.mandate.authorizationId !in db.auths
    ensures TablesInv(db.(auths := db.auths[envelope.mandate.authorizationId := AuthRow(envelope, 0)]))
  {
    hide HistoriesInv, CartsInv, OrdersInv, PaymentsInv;
    var a := envelope.mandate.authorizationId;
    assert forall d <- db.decisions :: DecisionLinked(db, d);
    NoAllows(db.decisions, a);
    SameRowsKeep(db, db.(auths := db.auths[a := AuthRow(envelope, 0)]));
  }

  lemma RevocationKeeps(db: Db, a: Id, row: Revocation)
    requires TablesInv(db) && a in db.auths
    ensures TablesInv(db.(revocations := db.revocations[a := row]))
  {
    hide LinksInv, HistoriesInv, CartsInv, OrdersInv, PaymentsInv;
    SameRowsKeep(db, db.(revocations := db.revocations[a := row]));
  }

  lemma LogKeeps(db: Db, log: Log)
    requires TablesInv(db)
    ensures TablesInv(db.(log := log))
  {
    hide LinksInv, HistoriesInv, CartsInv, OrdersInv, PaymentsInv;
    SameRowsKeep(db, db.(log := log));
  }
}

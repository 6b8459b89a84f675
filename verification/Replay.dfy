/** The evidence of one authorization, replayed in order, rebuilds what the tables hold for it. Ids that no event
  * names, those of decisions and executions, are not part of the reconstruction.
  */
module Replay {
  import opened Wrappers
  import opened Canonical
  import opened EvidenceLog
  import opened Tables
  import opened Operations
  import opened Invariants
  import opened Preservation

  datatype RequestView = RequestView(requestId: Id, agentId: string, cart: Cart)

  datatype OrderView = OrderView(amount: int, currency: string, status: Status)

  datatype PaymentView = PaymentView(paymentId: Id, orderId: Id, amount: Option<int>)

  /** One authorization across the tables of mandates, revocations, requests, decisions, orders and payments. */
  datatype View = View(
    envelope: Option<Envelope>,
    revocation: Option<Revocation>,
    usedCount: nat,
    nonces: map<string, RequestView>,
    decisions: seq<(Id, PolicyResult)>,
    orders: map<Id, OrderView>,
    payments: seq<PaymentView>)

  const NOTHING := View(None, None, 0, map[], [], map[], [])

  /** The reconstruction so far, and the request the next verdict is about. */
  datatype Replayed = Replayed(view: View, current: Id)

  function WithStatus(view: View, order: Id, status: Status): View {
    if order in view.orders then view.(orders := view.orders[order := view.orders[order].(status := status)]) else view
  }

  function WithPayment(view: View, p: PaymentView, status: Status): View {
    WithStatus(view, p.orderId, status).(payments := view.payments + [p])
  }

  function ReplayFact(s: Replayed, f: Fact): Replayed {
    match (f.eventType, f.payload)
    case (MandateSigned, EnvelopeJson(envelope)) => s.(view := s.view.(envelope := Some(envelope)))
    case (AgentRequestReceived, RequestJson(requestId, nonce, cart, _)) =>
      Replayed(s.view.(nonces := s.view.nonces[nonce := RequestView(requestId, f.actor, cart)]), requestId)
    case (ReplayAttemptBlocked, RequestJson(requestId, _, _, _)) => s.(current := requestId)
    case (PolicyEvaluated, VerdictJson(result)) =>
      s.(view := s.view.(decisions := s.view.decisions + [(s.current, result)],
                         usedCount := s.view.usedCount + if result.decision == Allow then 1 else 0))
    case (MandateRevokedEvent, RevocationJson(_, reason, revokedAt)) =>
      s.(view := s.view.(revocation := Some(Revocation(reason, revokedAt))))
    case (OrderCreated, OrderJson(order, amount, currency)) =>
      s.(view := s.view.(orders := s.view.orders[order := OrderView(amount, currency, Created)]))
    case (PaymentStale, StaleJson(_, order, _, _, _)) => s.(view := WithStatus(s.view, order, Stale))
    case (PaymentCaptured, PaymentJson(id, order, amount)) =>
      s.(view := WithPayment(s.view, PaymentView(id, order, amount), Captured))
    case (PaymentAmountMismatch, PaymentJson(id, order, amount)) =>
      s.(view := WithPayment(s.view, PaymentView(id, order, amount), AmountMismatch))
    case _ => s
  }

  function ReplayAll(facts: seq<Fact>): Replayed {
    if facts == [] then Replayed(NOTHING, "")
    else ReplayFact(ReplayAll(facts[..|facts| - 1]), facts[|facts| - 1])
  }

  // The same view read off the tables

  function NoncesOf(requests: seq<RequestRow>, a: Id): map<string, RequestView> {
    if requests == [] then map[]
    else
      var row := requests[|requests| - 1];
      var before := NoncesOf(requests[..|requests| - 1], a);
      if row.authorizationId == a then before[row.nonce := RequestView(row.requestId, row.agentId, row.cart)]
      else before
  }

  function DecisionsOf(decisions: seq<DecisionRow>, a: Id): seq<(Id, PolicyResult)> {
    if decisions == [] then []
    else
      var row := decisions[|decisions| - 1];
      DecisionsOf(decisions[..|decisions| - 1], a)
      + (if row.authorizationId == a then [(row.requestId, row.result)] else [])
  }

  /** An order belongs to the authorization of its decision. */
  predicate Owned(decisions: seq<DecisionRow>, e: ExecutionRow, a: Id) {
    var d := GetDecision(decisions, e.decisionId);
    d.Some? && d.value.authorizationId == a
  }

  function OrdersOf(executions: seq<ExecutionRow>, decisions: seq<DecisionRow>, a: Id): map<Id, OrderView> {
    if executions == [] then map[]
    else
      var e := executions[|executions| - 1];
      var before := OrdersOf(executions[..|executions| - 1], decisions, a);
      if Owned(decisions, e, a) then before[e.orderId := OrderView(e.amount, e.currency, e.status)] else before
  }

  /** A payment belongs to the authorization of its order. */
  function PaidFor(
      p: PaymentRow, executions: seq<ExecutionRow>, decisions: seq<DecisionRow>, a: Id): Option<PaymentView>
  {
    var i := Locate(executions, p.executionId);
    if i < |executions| && Owned(decisions, executions[i], a) then
      Some(PaymentView(p.paymentId, executions[i].orderId, p.amount))
    else None
  }

  function PaymentsOf(
      payments: seq<PaymentRow>, executions: seq<ExecutionRow>, decisions: seq<DecisionRow>, a: Id): seq<PaymentView>
  {
    if payments == [] then []
    else
      var last := |payments| - 1;
      var p := PaidFor(payments[last], executions, decisions, a);
      PaymentsOf(payments[..last], executions, decisions, a) + (if p.Some? then [p.value] else [])
  }

  function ViewOf(db: Db, a: Id): View {
    View(
      if a in db.auths then Some(db.auths[a].envelope) else None,
      if a in db.revocations then Some(db.revocations[a]) else None,
      if a in db.auths then db.auths[a].usedCount else 0,
      NoncesOf(db.requests, a),
      DecisionsOf(db.decisions, a),
      OrdersOf(db.executions, db.decisions, a),
      PaymentsOf(db.payments, db.executions, db.decisions, a))
  }

  /** Replaying the history of any authorization gives exactly its view. */
  ghost predicate EvidenceInv(db: Db) {
    forall a :: ReplayAll(History(db.log, a)).view == ViewOf(db, a)
  }

  // Lemmas about the projections

  lemma ReplayAppend(facts: seq<Fact>, f: Fact)
    ensures ReplayAll(facts + [f]) == ReplayFact(ReplayAll(facts), f)
  {
    assert (facts + [f])[..|facts|] == facts;
  }

  lemma NoncesAppend(requests: seq<RequestRow>, row: RequestRow, a: Id)
    ensures NoncesOf(requests + [row], a)
         == if row.authorizationId == a then
              NoncesOf(requests, a)[row.nonce := RequestView(row.requestId, row.agentId, row.cart)]
            else NoncesOf(requests, a)
  {
    assert (requests + [row])[..|requests|] == requests;
  }

  lemma DecisionsAppend(decisions: seq<DecisionRow>, row: DecisionRow, a: Id)
    ensures DecisionsOf(decisions + [row], a)
         == DecisionsOf(decisions, a) + (if row.authorizationId == a then [(row.requestId, row.result)] else [])
  {
    assert (decisions + [row])[..|decisions|] == decisions;
  }

  lemma OrdersAppend(executions: seq<ExecutionRow>, e: ExecutionRow, decisions: seq<DecisionRow>, a: Id)
    ensures OrdersOf(executions + [e], decisions, a)
         == if Owned(decisions, e, a) then
              OrdersOf(executions, decisions, a)[e.orderId := OrderView(e.amount, e.currency, e.status)]
            else OrdersOf(executions, decisions, a)
  {
    assert (executions + [e])[..|executions|] == executions;
  }

  /** New decisions do not change who owns the orders there are. */
  lemma {:induction false} OrdersStable(executions: seq<ExecutionRow>, decisions: seq<DecisionRow>, d: DecisionRow,
                                        a: Id)
    requires forall e <- executions :: GetDecision(decisions, e.decisionId).Some?
    requires forall row <- decisions :: row.decisionId != d.decisionId
    ensures OrdersOf(executions, decisions + [d], a) == OrdersOf(executions, decisions, a)
  {
    if executions != [] {
      var e := executions[|executions| - 1];
      OrdersStable(executions[..|executions| - 1], decisions, d, a);
      GetDecisionAppend(decisions, d, e.decisionId);
    }
  }

  /** Payments keep their view while their orders keep owner and order id. */
  lemma {:induction false} PaymentsStable(
      payments: seq<PaymentRow>, executions: seq<ExecutionRow>, decisions: seq<DecisionRow>,
      executions': seq<ExecutionRow>, decisions': seq<DecisionRow>, a: Id)
    requires forall p <- payments :: PaidFor(p, executions', decisions', a) == PaidFor(p, executions, decisions, a)
    ensures PaymentsOf(payments, executions', decisions', a) == PaymentsOf(payments, executions, decisions, a)
  {
    hide PaidFor;
    if payments != [] {
      PaymentsStable(payments[..|payments| - 1], executions, decisions, executions', decisions', a);
    }
  }

  lemma PaymentsAppend(
      payments: seq<PaymentRow>, p: PaymentRow, executions: seq<ExecutionRow>, decisions: seq<DecisionRow>, a: Id)
    ensures var view := PaidFor(p, executions, decisions, a);
            PaymentsOf(payments + [p], executions, decisions, a)
            == PaymentsOf(payments, executions, decisions, a) + (if view.Some? then [view.value] else [])
  {
    assert (payments + [p])[..|payments|] == payments;
  }

  /** Changing one order's status changes one entry of its owner's view. */
  lemma {:induction false} OrdersSetStatus(executions: seq<ExecutionRow>, i: nat, status: Status,
                                           decisions: seq<DecisionRow>, a: Id)
    requires i < |executions| && DistinctExecutions(executions)
    ensures OrdersOf(SetStatus(executions, i, status), decisions, a)
         == if Owned(decisions, executions[i], a) then
              OrdersOf(executions, decisions, a)[executions[i].orderId :=
                OrderView(executions[i].amount, executions[i].currency, status)]
            else OrdersOf(executions, decisions, a)
  {
    var last := |executions| - 1;
    var changed := SetStatus(executions, i, status);
    if i == last {
      assert changed[..last] == executions[..last];
    } else {
      assert changed[..last] == SetStatus(executions[..last], i, status);
      OrdersSetStatus(executions[..last], i, status, decisions, a);
    }
  }

  lemma {:induction false} OrderEntry(executions: seq<ExecutionRow>, i: nat, decisions: seq<DecisionRow>, a: Id)
    requires i < |executions| && DistinctExecutions(executions) && Owned(decisions, executions[i], a)
    ensures executions[i].orderId in OrdersOf(executions, decisions, a)
    ensures OrdersOf(executions, decisions, a)[executions[i].orderId]
         == OrderView(executions[i].amount, executions[i].currency, executions[i].status)
  {
    var last := |executions| - 1;
    if i < last {
      OrderEntry(executions[..last], i, decisions, a);
    }
  }

  // Every operation keeps the evidence faithful

  /** One appended event advances the replay of its own authorization only. */
  lemma ReplayStep(log: Log, a: Id, fact: Fact, b: Id)
    ensures ReplayAll(History(Append(log, a, fact), b))
         == if b == a then ReplayFact(ReplayAll(History(log, a)), fact) else ReplayAll(History(log, b))
  {
    HistoryOfAppend(log, a, fact, b);
    ReplayAppend(History(log, a), fact);
  }

  /** A step that appends one event and changes the view of its authorization as the event says. */
  lemma OneEventKeepsEvidence(db: Db, db': Db, a: Id, fact: Fact)
    requires EvidenceInv(db) && db'.log == Append(db.log, a, fact)
    requires forall b :: b != a ==> ViewOf(db', b) == ViewOf(db, b)
    requires forall s: Replayed :: s.view == ViewOf(db, a) ==> ReplayFact(s, fact).view == ViewOf(db', a)
    ensures EvidenceInv(db')
  {
    forall b
      ensures ReplayAll(History(db'.log, b)).view == ViewOf(db', b)
    {
      ReplayStep(db.log, a, fact, b);
      assert ReplayAll(History(db.log, b)).view == ViewOf(db, b);
    }
  }

  lemma ConfirmKeepsEvidence(db: Db, envelope: Envelope)
    requires TablesInv(db) && EvidenceInv(db)
    ensures EvidenceInv(Confirm(db, envelope).0)
  {
    hide TablesInv, EvidenceInv, NoncesOf, DecisionsOf, OrdersOf, PaymentsOf, Append;
    var (db', reply) := Confirm(db, envelope);
    if db' != db {
      OneEventKeepsEvidence(db, db', envelope.mandate.authorizationId,
                            Fact(MandateSigned, envelope.mandate.userId, EnvelopeJson(envelope)));
    }
  }

  lemma RevokeKeepsEvidence(db: Db, a: Id, reason: string, now: int)
    requires EvidenceInv(db)
    ensures EvidenceInv(Revoke(db, a, reason, now).0)
  {
    hide EvidenceInv, NoncesOf, DecisionsOf, OrdersOf, PaymentsOf, Append;
    var (db', reply) := Revoke(db, a, reason, now);
    if db' != db {
      OneEventKeepsEvidence(db, db', a, Fact(MandateRevokedEvent, "trusted-operator", RevocationJson(a, reason, now)));
    }
  }

  lemma RejectionKeepsEvidence(db: Db, a: Id, agentId: string, failure: AuthFailure)
    requires EvidenceInv(db)
    ensures EvidenceInv(Record(db, a, AgentRequestRejected, "agent-verifier", RejectionJson(agentId, failure)))
  {
    hide EvidenceInv, NoncesOf, DecisionsOf, OrdersOf, PaymentsOf, Append;
    OneEventKeepsEvidence(db, Record(db, a, AgentRequestRejected, "agent-verifier", RejectionJson(agentId, failure)), a,
                          Fact(AgentRequestRejected, "agent-verifier", RejectionJson(agentId, failure)));
  }

  /** How an authenticated request changes one authorization's view. */
  function Judged(view: View, r: AgentRequest, replayed: bool, requestId: Id, result: PolicyResult): View {
    view.(
      nonces := if replayed then view.nonces else view.nonces[r.nonce := RequestView(requestId, r.agentId, r.cart)],
      decisions := view.decisions + [(requestId, result)],
      usedCount := view.usedCount + if result.decision == Allow then 1 else 0)
  }

  lemma OrdersStableFor(db: Db, d: DecisionRow, b: Id)
    requires OrdersInv(db) && forall row <- db.decisions :: row.decisionId != d.decisionId
    ensures OrdersOf(db.executions, db.decisions + [d], b) == OrdersOf(db.executions, db.decisions, b)
  {
    forall e <- db.executions
      ensures GetDecision(db.decisions, e.decisionId).Some?
    {
      assert OrderBacked(db, e);
    }
    OrdersStable(db.executions, db.decisions, d, b);
  }

  lemma PaymentsStableFor(db: Db, d: DecisionRow, b: Id)
    requires OrdersInv(db) && forall row <- db.decisions :: row.decisionId != d.decisionId
    ensures PaymentsOf(db.payments, db.executions, db.decisions + [d], b)
         == PaymentsOf(db.payments, db.executions, db.decisions, b)
  {
    forall p <- db.payments
      ensures PaidFor(p, db.executions, db.decisions + [d], b) == PaidFor(p, db.executions, db.decisions, b)
    {
      var i := Locate(db.executions, p.executionId);
      if i < |db.executions| {
        assert db.executions[i] in db.executions && OrderBacked(db, db.executions[i]);
        GetDecisionAppend(db.decisions, d, db.executions[i].decisionId);
      }
    }
    PaymentsStable(db.payments, db.executions, db.decisions, db.executions, db.decisions + [d], b);
  }

  lemma ViewOfInsertDecision(db: Db, r: AgentRequest, result: PolicyResult, freshRequest: Id, freshDecision: Id, b: Id)
    requires OrdersInv(db) && r.authorizationId in db.auths && FreshIds(db, freshRequest, freshDecision)
    ensures ViewOf(InsertDecision(db, r, result, freshRequest, freshDecision), b)
         == if b != r.authorizationId then ViewOf(db, b)
            else Judged(ViewOf(db, b), r, FindRequest(db.requests, b, r.nonce).Some?, RequestIdFor(db, r, freshRequest),
                        result)
  {
    hide OrdersInv, OrdersOf, PaymentsOf;
    var a := r.authorizationId;
    var d := DecisionRow(freshDecision, RequestIdFor(db, r, freshRequest), a, result);
    var db' := InsertDecision(db, r, result, freshRequest, freshDecision);
    NoncesAppend(db.requests, RequestRow(freshRequest, a, r.agentId, r.nonce, r.cart, result.decision), b);
    DecisionsAppend(db.decisions, d, b);
    OrdersStableFor(db, d, b);
    PaymentsStableFor(db, d, b);
    assert db'.decisions == db.decisions + [d];
    assert DecisionsOf(db.decisions, b) + [] == DecisionsOf(db.decisions, b);
  }

  /** The two events of an authenticated request replay to the same change. */
  lemma ReplayOfDecision(s: Replayed, r: AgentRequest, replayed: bool, requestId: Id, result: PolicyResult)
    ensures var received := Fact(if replayed then ReplayAttemptBlocked else AgentRequestReceived, r.agentId,
                                 RequestJson(requestId, r.nonce, r.cart, r.signature));
            var evaluated := Fact(PolicyEvaluated, "policy-engine", VerdictJson(result));
            ReplayFact(ReplayFact(s, received), evaluated).view == Judged(s.view, r, replayed, requestId, result)
  {}

  lemma TwoEventsKeepEvidence(db: Db, db': Db, a: Id, first: Fact, second: Fact)
    requires EvidenceInv(db) && db'.log == Append(Append(db.log, a, first), a, second)
    requires forall b :: b != a ==> ViewOf(db', b) == ViewOf(db, b)
    requires forall s: Replayed :: s.view == ViewOf(db, a) ==>
               ReplayFact(ReplayFact(s, first), second).view == ViewOf(db', a)
    ensures EvidenceInv(db')
  {
    forall b
      ensures ReplayAll(History(db'.log, b)).view == ViewOf(db', b)
    {
      ReplayStep(db.log, a, first, b);
      ReplayStep(Append(db.log, a, first), a, second, b);
      assert ReplayAll(History(db.log, b)).view == ViewOf(db, b);
    }
  }

  lemma DecisionKeepsEvidence(db: Db, r: AgentRequest, result: PolicyResult, freshRequest: Id, freshDecision: Id)
    requires OrdersInv(db) && EvidenceInv(db)
    requires r.authorizationId in db.auths && FreshIds(db, freshRequest, freshDecision)
    ensures EvidenceInv(WriteDecision(db, r, result, freshRequest, freshDecision).0)
  {
    var a := r.authorizationId;
    var rows := InsertDecision(db, r, result, freshRequest, freshDecision);
    var db' := WriteDecision(db, r, result, freshRequest, freshDecision).0;
    var requestId := RequestIdFor(db, r, freshRequest);
    var replayed := FindRequest(db.requests, a, r.nonce).Some?;
    var received := Fact(if replayed then ReplayAttemptBlocked else AgentRequestReceived,
                         r.agentId, RequestJson(requestId, r.nonce, r.cart, r.signature));
    var evaluated := Fact(PolicyEvaluated, "policy-engine", VerdictJson(result));
    forall b
      ensures ViewOf(db', b) == if b != a then ViewOf(db, b) else Judged(ViewOf(db, b), r, replayed, requestId, result)
    {
      ViewOfInsertDecision(db, r, result, freshRequest, freshDecision, b);
      ViewIgnoresLog(rows, db', b);
    }
    forall s: Replayed | s.view == ViewOf(db, a)
      ensures ReplayFact(ReplayFact(s, received), evaluated).view == ViewOf(db', a)
    {
      ReplayOfDecision(s, r, replayed, requestId, result);
    }
    WrittenLog(db, r, result, freshRequest, freshDecision, received, evaluated);
    TwoEventsKeepEvidence(db, db', a, received, evaluated);
  }

  lemma WrittenLog(db: Db, r: AgentRequest, result: PolicyResult, freshRequest: Id, freshDecision: Id, received: Fact,
                   evaluated: Fact)
    requires r.authorizationId in db.auths
    requires received == Fact(
      if FindRequest(db.requests, r.authorizationId, r.nonce).Some? then ReplayAttemptBlocked else AgentRequestReceived,
      r.agentId, RequestJson(RequestIdFor(db, r, freshRequest), r.nonce, r.cart, r.signature))
    requires evaluated == Fact(PolicyEvaluated, "policy-engine", VerdictJson(result))
    ensures WriteDecision(db, r, result, freshRequest, freshDecision).0
         == InsertDecision(db, r, result, freshRequest, freshDecision).(
              log := Append(Append(db.log, r.authorizationId, received), r.authorizationId, evaluated))
  {}

  lemma ViewIgnoresLog(db: Db, db': Db, a: Id)
    requires db' == db.(log := db'.log)
    ensures ViewOf(db', a) == ViewOf(db, a)
  {}

  lemma ExecuteKeepsEvidence(db: Db, a: Id, requestId: Id, freshExecution: nat, freshOrder: Id, now: int)
    requires TablesInv(db) && EvidenceInv(db)
    ensures EvidenceInv(Execute(db, a, requestId, freshExecution, freshOrder, now).0)
  {
    hide EvidenceInv, AuthsInv, LinksInv, HistoriesInv, BudgetInv, CartsInv, OrdersInv, PaymentsInv;
    var db' := Execute(db, a, requestId, freshExecution, freshOrder, now).0;
    if db' != db {
      var d, e := ExecuteOnlyInserts(db, a, requestId, freshExecution, freshOrder, now);
      InsertOrderKeepsEvidence(db, a, d, e);
    }
  }

  /** A new order has no payments, and the old payments stay with theirs. */
  lemma PaymentsOfNewOrder(db: Db, e: ExecutionRow, b: Id)
    requires PaymentsInv(db)
    ensures PaymentsOf(db.payments, db.executions + [e], db.decisions, b)
         == PaymentsOf(db.payments, db.executions, db.decisions, b)
  {
    forall p <- db.payments
      ensures PaidFor(p, db.executions + [e], db.decisions, b) == PaidFor(p, db.executions, db.decisions, b)
    {
      assert PaymentLinked(db, p);
      LocateAppend(db.executions, e, p.executionId);
    }
    PaymentsStable(db.payments, db.executions, db.decisions, db.executions + [e], db.decisions, b);
  }

  lemma InsertOrderKeepsEvidence(db: Db, a: Id, d: DecisionRow, e: ExecutionRow)
    requires EvidenceInv(db) && PaymentsInv(db)
    requires GetDecision(db.decisions, e.decisionId) == Some(d) && d.authorizationId == a && e.status == Created
    ensures EvidenceInv(Record(db.(executions := db.executions + [e]), a, OrderCreated, "payment-executor",
                               OrderJson(e.orderId, e.amount, e.currency)))
  {
    hide EvidenceInv, PaymentsInv, PaymentsOf, OrdersOf, Append;
    forall b
      ensures OrdersOf(db.executions + [e], db.decisions, b)
           == if b == a then
                OrdersOf(db.executions, db.decisions, a)[e.orderId := OrderView(e.amount, e.currency, Created)]
              else OrdersOf(db.executions, db.decisions, b)
      ensures PaymentsOf(db.payments, db.executions + [e], db.decisions, b)
           == PaymentsOf(db.payments, db.executions, db.decisions, b)
    {
      OrdersAppend(db.executions, e, db.decisions, b);
      PaymentsOfNewOrder(db, e, b);
    }
    OneEventKeepsEvidence(db, Record(db.(executions := db.executions + [e]), a, OrderCreated, "payment-executor",
                                     OrderJson(e.orderId, e.amount, e.currency)),
                          a, Fact(OrderCreated, "payment-executor", OrderJson(e.orderId, e.amount, e.currency)));
  }

  /** The target of a pending step names an existing order and its owner. */
  ghost predicate GoodTarget(db: Db, target: Target) {
    var i := Locate(db.executions, target.executionId);
    && i < |db.executions|
    && target.authorizationId in db.auths
    && Owned(db.decisions, db.executions[i], target.authorizationId)
  }

  lemma PaymentsOfStatusChange(
      payments: seq<PaymentRow>, executions: seq<ExecutionRow>, i: nat, status: Status, decisions: seq<DecisionRow>,
      b: Id)
    requires i < |executions|
    ensures PaymentsOf(payments, SetStatus(executions, i, status), decisions, b)
         == PaymentsOf(payments, executions, decisions, b)
  {
    var executions' := SetStatus(executions, i, status);
    forall p <- payments
      ensures PaidFor(p, executions', decisions, b) == PaidFor(p, executions, decisions, b)
    {
      LocateSetStatus(executions, i, status, p.executionId);
    }
    PaymentsStable(payments, executions, decisions, executions', decisions, b);
  }

  /** A status change in the tables is a status change in the owner's view. */
  lemma ViewOfStatusChange(db: Db, db': Db, i: nat, status: Status, a: Id, b: Id)
    requires OrdersInv(db) && i < |db.executions| && Owned(db.decisions, db.executions[i], a)
    requires db'.executions == SetStatus(db.executions, i, status) && db'.payments == db.payments
    requires db'.auths == db.auths && db'.revocations == db.revocations
    requires db'.requests == db.requests && db'.decisions == db.decisions
    ensures ViewOf(db', b)
         == if b == a then WithStatus(ViewOf(db, a), db.executions[i].orderId, status) else ViewOf(db, b)
  {
    hide OrdersOf, PaymentsOf, OrderBacked;
    OrdersSetStatus(db.executions, i, status, db.decisions, b);
    OrderEntry(db.executions, i, db.decisions, a);
    PaymentsOfStatusChange(db.payments, db.executions, i, status, db.decisions, b);
  }

  lemma LocateByPosition(executions: seq<ExecutionRow>, i: nat)
    requires i < |executions| && DistinctExecutions(executions)
    ensures Locate(executions, executions[i].executionId) == i
  {
    assert executions[i] in executions;
    var j := Locate(executions, executions[i].executionId);
    assert !(i < j) && !(j < i);
  }

  /** A recorded payment is one more payment, and a status change, in the view of its order's owner. */
  lemma ViewOfPayment(db: Db, i: nat, p: PaymentRow, a: Id, b: Id)
    requires OrdersInv(db) && NewPayment(db, i, p) && Owned(db.decisions, db.executions[i], a)
    ensures var e := db.executions[i];
            ViewOf(Settled(db, i, p), b)
            == if b == a then
                 WithPayment(ViewOf(db, a), PaymentView(p.paymentId, e.orderId, p.amount), SettledStatus(e, p.amount))
               else ViewOf(db, b)
  {
    hide OrdersOf, PaymentsOf, OrderBacked, Locate;
    var status := SettledStatus(db.executions[i], p.amount);
    var changed := db.(executions := SetStatus(db.executions, i, status));
    ViewOfStatusChange(db, changed, i, status, a, b);
    LocateByPosition(db.executions, i);
    LocateSetStatus(db.executions, i, status, p.executionId);
    PaymentsAppend(db.payments, p, changed.executions, db.decisions, b);
  }

  lemma FlagKeepsEvidence(db: Db, target: Target, job: SweepJob)
    requires TablesInv(db) && EvidenceInv(db) && GoodTarget(db, target)
    ensures EvidenceInv(FlagOne(db, target, job).0)
  {
    hide EvidenceInv, ViewOf, Append, AuthsInv, LinksInv, HistoriesInv, BudgetInv, CartsInv, OrdersInv, PaymentsInv;
    var (db', reply) := FlagOne(db, target, job);
    if reply == Flagged {
      var a, i := target.authorizationId, Locate(db.executions, target.executionId);
      var row := db.executions[i];
      forall b
        ensures ViewOf(db', b) == if b == a then WithStatus(ViewOf(db, a), row.orderId, Stale) else ViewOf(db, b)
      {
        ViewOfStatusChange(db, db', i, Stale, a, b);
      }
      OneEventKeepsEvidence(db, db', a,
        Fact(PaymentStale, "payment-cleanup",
             StaleJson(row.executionId, row.orderId, row.createdAt, job.observedAt, job.timeoutSeconds)));
    }
  }

  /** The row that a delivery leaves behind. */
  function PaymentOfDelivery(e: ExecutionRow, d: Delivery): PaymentRow
    requires d.paymentId.Some?
  {
    PaymentRow(d.paymentId.value, e.executionId, d.eventType, d.amount)
  }

  function PaymentFact(e: ExecutionRow, d: Delivery): Fact
    requires d.paymentId.Some? && d.orderId.Some?
  {
    Fact(if SettledStatus(e, d.amount) == AmountMismatch then PaymentAmountMismatch else PaymentCaptured,
         "razorpay-webhook", PaymentJson(d.paymentId.value, d.orderId.value, d.amount))
  }

  /** What recording a payment does, when it records one. */
  lemma RecordedPayment(db: Db, target: Target, d: Delivery)
    requires d.paymentId.Some? && d.orderId.Some? && RecordPayment(db, target, d).1 == Recorded
    ensures var i := Locate(db.executions, target.executionId);
            && i < |db.executions| && NewPayment(db, i, PaymentOfDelivery(db.executions[i], d))
            && RecordPayment(db, target, d).0
               == Settled(db, i, PaymentOfDelivery(db.executions[i], d)).(
                    log := Append(db.log, target.authorizationId, PaymentFact(db.executions[i], d)))
  {}

  lemma SettleKeepsEvidence(db: Db, target: Target, d: Delivery)
    requires TablesInv(db) && EvidenceInv(db) && GoodTarget(db, target)
    requires d.paymentId.Some? && d.orderId == Some(db.executions[Locate(db.executions, target.executionId)].orderId)
    ensures EvidenceInv(RecordPayment(db, target, d).0)
  {
    hide EvidenceInv, ViewOf, Append, AuthsInv, LinksInv, HistoriesInv, BudgetInv, CartsInv, OrdersInv, PaymentsInv;
    var (db', reply) := RecordPayment(db, target, d);
    if reply == Recorded {
      var a, i := target.authorizationId, Locate(db.executions, target.executionId);
      var e := db.executions[i];
      var p := PaymentOfDelivery(e, d);
      RecordedPayment(db, target, d);
      forall b
        ensures ViewOf(db', b)
             == if b == a then
                  WithPayment(ViewOf(db, a), PaymentView(p.paymentId, e.orderId, p.amount), SettledStatus(e, p.amount))
                else ViewOf(db, b)
      {
        ViewOfPayment(db, i, p, a, b);
        ViewIgnoresLog(Settled(db, i, p), db', b);
      }
      OneEventKeepsEvidence(db, db', a, PaymentFact(e, d));
    }
  }
}

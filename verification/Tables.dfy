/** The database tables (app/models/schema.py) and the queries the operations run on them.
  * Rows stand in insertion order, which is `created_at` order within one authorization.
  */
module Tables {
  import opened Wrappers
  import opened Canonical
  import opened EvidenceLog

  datatype AuthRow = AuthRow(envelope: Envelope, usedCount: nat)

  datatype Revocation = Revocation(reason: string, revokedAt: int)

  /** `state` is the first decision on the request; the source spells ALLOW as VERIFIED. */
  datatype RequestRow = RequestRow(
    requestId: Id,
    authorizationId: Id,
    agentId: string,
    nonce: string,
    cart: Cart,
    state: Decision)

  datatype DecisionRow = DecisionRow(decisionId: Id, requestId: Id, authorizationId: Id, result: PolicyResult)

  datatype Status = Created | Stale | Captured | AmountMismatch

  /** Execution ids are numbers: fixed-length hexadecimal strings compare in the same order. */
  datatype ExecutionRow = ExecutionRow(
    executionId: nat,
    decisionId: Id,
    orderId: Id,
    amount: int,
    currency: string,
    status: Status,
    createdAt: int)

  /** Keyed by the payment id, from which the source derives the event id. Of the stored delivery, only
    * the amount that it names is kept.
    */
  datatype PaymentRow = PaymentRow(paymentId: Id, executionId: nat, eventType: string, amount: Option<int>)

  datatype Db = Db(
    auths: map<Id, AuthRow>,
    revocations: map<Id, Revocation>,
    requests: seq<RequestRow>,
    decisions: seq<DecisionRow>,
    executions: seq<ExecutionRow>,
    payments: seq<PaymentRow>,
    seen: map<Id, string>,
    log: Log)

  const EMPTY_DB := Db(map[], map[], [], [], [], [], map[], EMPTY_LOG)

  function Record(db: Db, txn: Id, eventType: EventType, actor: string, payload: Payload): Db {
    db.(log := Append(db.log, txn, Fact(eventType, actor, payload)))
  }

  function FindRequest(requests: seq<RequestRow>, auth: Id, nonce: string): (found: Option<RequestRow>)
    ensures found.Some? ==> found.value in requests && found.value.authorizationId == auth && found.value.nonce == nonce
    ensures found.None? ==> forall row <- requests :: !(row.authorizationId == auth && row.nonce == nonce)
  {
    if requests == [] then None
    else
      var last := |requests| - 1;
      if requests[last].authorizationId == auth && requests[last].nonce == nonce then Some(requests[last])
      else FindRequest(requests[..last], auth, nonce)
  }

  function GetRequest(requests: seq<RequestRow>, id: Id): (found: Option<RequestRow>)
    ensures found.Some? ==> found.value in requests && found.value.requestId == id
    ensures found.None? ==> forall row <- requests :: row.requestId != id
  {
    if requests == [] then None
    else
      var last := |requests| - 1;
      if requests[last].requestId == id then Some(requests[last]) else GetRequest(requests[..last], id)
  }

  function GetDecision(decisions: seq<DecisionRow>, id: Id): (found: Option<DecisionRow>)
    ensures found.Some? ==> found.value in decisions && found.value.decisionId == id
    ensures found.None? ==> forall row <- decisions :: row.decisionId != id
  {
    if decisions == [] then None
    else
      var last := |decisions| - 1;
      if decisions[last].decisionId == id then Some(decisions[last]) else GetDecision(decisions[..last], id)
  }

  /** Position `i` holds the last decision on the request under the authorization. */
  ghost predicate IsLatest(decisions: seq<DecisionRow>, i: int, request: Id, auth: Id) {
    && 0 <= i < |decisions|
    && decisions[i].requestId == request && decisions[i].authorizationId == auth
    && forall j :: i < j < |decisions| ==> !(decisions[j].requestId == request && decisions[j].authorizationId == auth)
  }

  /** ORDER BY created_at DESC, first row */
  function LatestDecision(decisions: seq<DecisionRow>, request: Id, auth: Id): (found: Option<DecisionRow>)
    ensures found.Some? ==> exists i :: IsLatest(decisions, i, request, auth) && decisions[i] == found.value
    ensures found.None? ==> forall row <- decisions :: !(row.requestId == request && row.authorizationId == auth)
  {
    if decisions == [] then None
    else
      var last := |decisions| - 1;
      if decisions[last].requestId == request && decisions[last].authorizationId == auth then
        assert IsLatest(decisions, last, request, auth);
        Some(decisions[last])
      else
        assert forall i :: IsLatest(decisions[..last], i, request, auth) ==> IsLatest(decisions, i, request, auth);
        LatestDecision(decisions[..last], request, auth)
  }

  function FindByDecision(executions: seq<ExecutionRow>, decision: Id): (found: Option<ExecutionRow>)
    ensures found.Some? ==> found.value in executions && found.value.decisionId == decision
    ensures found.None? ==> forall row <- executions :: row.decisionId != decision
  {
    if executions == [] then None
    else
      var last := |executions| - 1;
      if executions[last].decisionId == decision then Some(executions[last])
      else FindByDecision(executions[..last], decision)
  }

  function FindByOrder(executions: seq<ExecutionRow>, order: Id): (found: Option<ExecutionRow>)
    ensures found.Some? ==> found.value in executions && found.value.orderId == order
    ensures found.None? ==> forall row <- executions :: row.orderId != order
  {
    if executions == [] then None
    else
      var last := |executions| - 1;
      if executions[last].orderId == order then Some(executions[last]) else FindByOrder(executions[..last], order)
  }

  /** Position of an execution by primary key, or the number of rows if there is none. */
  function Locate(executions: seq<ExecutionRow>, id: nat): (i: nat)
    ensures i <= |executions|
    ensures i < |executions| ==> executions[i].executionId == id
    ensures i == |executions| ==> forall row <- executions :: row.executionId != id
  {
    if executions == [] then 0
    else if executions[0].executionId == id then 0
    else 1 + Locate(executions[1..], id)
  }

  function SetStatus(executions: seq<ExecutionRow>, i: nat, status: Status): seq<ExecutionRow>
    requires i < |executions|
  {
    executions[i := executions[i].(status := status)]
  }

  predicate HasPayment(payments: seq<PaymentRow>, execution: nat) {
    exists i :: 0 <= i < |payments| && payments[i].executionId == execution
  }
}

/** The operations on the tables, each as one atomic step: the authorization lock makes it so.
  * Fresh identifiers and clock readings are arguments.
  */
module Operations {
  import opened Wrappers
  import opened Canonical
  import opened PolicyEngine
  import opened EvidenceLog
  import opened Tables

  datatype Reply =
    // confirm
    | Confirmed(authorizationId: Id, evidenceHash: Hash)
    | AuthorizationExists
    | MandateNonceTaken
    // shared
    | UnknownAuthorization
    | RowVanished
    // agent request
    | Unauthenticated(failure: AuthFailure)
    | Decided(requestId: Id, decisionId: Id, result: PolicyResult)
    // revoke
    | Revoked(revocation: Revocation)
    // execute
    | ExecutionRefused
    | NoDecision
    | LastDecisionWas(decision: Decision)
    | NoRequest
    | Order(orderId: Id, amount: int, currency: string)
    // webhook
    | InvalidSignature
    | MalformedWebhook
    | UnknownOrder
    | UnknownOrderDecision
    | LookedUp
    | DuplicateIgnored
    | Recorded
    // cleanup
    | InvalidSettings
    | Selected(count: nat)
    | Flagged
    | Skipped
    | SweepDone(flagged: nat)
    // a step naming no pending work
    | Ignored

  // POST /authorization/confirm

  function SignedEnvelope(proposal: Mandate, agentKey: string, signature: string): Envelope {
    var mandate := proposal.(requestPublicKey := Some(agentKey));
    Envelope(mandate, OfMandate(mandate), Some(signature))
  }

  predicate NonceTaken(auths: map<Id, AuthRow>, nonce: string) {
    exists id <- auths.Keys :: auths[id].envelope.mandate.nonce == nonce
  }

  function Confirm(db: Db, envelope: Envelope): (Db, Reply) {
    var id := envelope.mandate.authorizationId;
    if id in db.auths then (db, AuthorizationExists)
    else if NonceTaken(db.auths, envelope.mandate.nonce) then (db, MandateNonceTaken)
    else
      var inserted := db.(auths := db.auths[id := AuthRow(envelope, 0)]);
      (Record(inserted, id, MandateSigned, envelope.mandate.userId, EnvelopeJson(envelope)),
       Confirmed(id, envelope.evidenceHash))
  }

  // POST /agent/request

  datatype AgentRequest = AgentRequest(
    authorizationId: Id,
    agentId: string,
    nonce: string,
    cart: Cart,
    signature: Option<string>)

  /** Checks made before any nonce is looked up or any decision touched. */
  function Authenticate(verify: Verifier, envelope: Envelope, r: AgentRequest): Option<AuthFailure> {
    var mandate := envelope.mandate;
    if !Signed(verify, envelope, mandate.publicKey) then Some(BadMandateSignature)
    else if r.agentId != mandate.agentId then Some(AgentIdMismatch)
    else if Missing(mandate.requestPublicKey) then Some(AgentKeyMissing)
    else if Missing(r.signature)
            || !verify(RequestHash(r.authorizationId, r.agentId, r.nonce, r.cart), r.signature.value,
                       mandate.requestPublicKey.value) then Some(AgentSignatureInvalid)
    else None
  }

  function Judgement(verify: Verifier, db: Db, r: AgentRequest, now: int): PolicyResult
    requires r.authorizationId in db.auths
  {
    var row := db.auths[r.authorizationId];
    if r.authorizationId in db.revocations then Blocked(MandateRevoked)
    else
      var nonceUsed := FindRequest(db.requests, r.authorizationId, r.nonce).Some?;
      Evaluate(verify, row.envelope, r.cart, Context(now, nonceUsed, row.usedCount, None, false))
  }

  /** A replayed nonce keeps the request id it was first stored under. */
  function RequestIdFor(db: Db, r: AgentRequest, freshRequest: Id): Id {
    var existing := FindRequest(db.requests, r.authorizationId, r.nonce);
    if existing.Some? then existing.value.requestId else freshRequest
  }

  /** The rows of an authenticated request: at most one request, one decision, one use of the mandate. */
  function InsertDecision(db: Db, r: AgentRequest, result: PolicyResult, freshRequest: Id, freshDecision: Id): Db
    requires r.authorizationId in db.auths
  {
    var a := r.authorizationId;
    var row := db.auths[a];
    db.(
      requests := if FindRequest(db.requests, a, r.nonce).Some? then db.requests
                  else db.requests + [RequestRow(freshRequest, a, r.agentId, r.nonce, r.cart, result.decision)],
      decisions := db.decisions + [DecisionRow(freshDecision, RequestIdFor(db, r, freshRequest), a, result)],
      auths := if result.decision == Allow then db.auths[a := row.(usedCount := row.usedCount + 1)] else db.auths)
  }

  /** Rows and both events, committed together. */
  function WriteDecision(
      db: Db, r: AgentRequest, result: PolicyResult, freshRequest: Id, freshDecision: Id): (Db, Reply)
    requires r.authorizationId in db.auths
  {
    var a := r.authorizationId;
    var replayed := FindRequest(db.requests, a, r.nonce).Some?;
    var requestId := RequestIdFor(db, r, freshRequest);
    var received := Record(InsertDecision(db, r, result, freshRequest, freshDecision), a,
                           if replayed then ReplayAttemptBlocked else AgentRequestReceived,
                           r.agentId, RequestJson(requestId, r.nonce, r.cart, r.signature));
    (Record(received, a, PolicyEvaluated, "policy-engine", VerdictJson(result)),
     Decided(requestId, freshDecision, result))
  }

  function HandleRequest(
      verify: Verifier, db: Db, r: AgentRequest, now: int, freshRequest: Id, freshDecision: Id): (Db, Reply)
  {
    var a := r.authorizationId;
    if a !in db.auths then (db, UnknownAuthorization)
    else
      match Authenticate(verify, db.auths[a].envelope, r)
      case Some(failure) =>
        (Record(db, a, AgentRequestRejected, "agent-verifier", RejectionJson(r.agentId, failure)),
         Unauthenticated(failure))
      case None =>
        WriteDecision(db, r, Judgement(verify, db, r, now), freshRequest, freshDecision)
  }

  // POST /authorization/{id}/revoke

  function Revoke(db: Db, a: Id, reason: string, now: int): (Db, Reply) {
    if a !in db.auths then (db, UnknownAuthorization)
    else if a in db.revocations then (db, Revoked(db.revocations[a]))
    else
      var row := Revocation(reason, now);
      (Record(db.(revocations := db.revocations[a := row]), a, MandateRevokedEvent, "trusted-operator",
              RevocationJson(a, reason, now)),
       Revoked(row))
  }

  // POST /payment/execute

  function Execute(db: Db, a: Id, requestId: Id, freshExecution: nat, freshOrder: Id, now: int): (Db, Reply) {
    if a !in db.auths then (db, UnknownAuthorization)
    else if a in db.revocations then (db, ExecutionRefused)
    else
      match LatestDecision(db.decisions, requestId, a)
      case None => (db, NoDecision)
      case Some(decision) =>
        if decision.result.decision != Allow then (db, LastDecisionWas(decision.result.decision))
        else
          match FindByDecision(db.executions, decision.decisionId)
          case Some(order) => (db, Order(order.orderId, order.amount, order.currency))
          case None =>
            match GetRequest(db.requests, requestId)
            case None => (db, NoRequest)
            case Some(request) =>
              var cart := request.cart;
              var order := ExecutionRow(freshExecution, decision.decisionId, freshOrder, cart.total, cart.currency,
                                        Created, now);
              (Record(db.(executions := db.executions + [order]), a, OrderCreated, "payment-executor",
                      OrderJson(freshOrder, cart.total, cart.currency)),
               Order(freshOrder, cart.total, cart.currency))
  }

  // POST /webhooks/razorpay

  /** A delivery, with the outcome of checking its signature against the raw body. */
  datatype Delivery = Delivery(
    authentic: bool,
    paymentId: Option<Id>,
    orderId: Option<Id>,
    amount: Option<int>,
    eventType: string)

  /** What the handler remembers from its unlocked reads. */
  datatype Target = Target(executionId: nat, authorizationId: Id)

  function LookupOrder(db: Db, d: Delivery): Result<Target, Reply> {
    if !d.authentic then Failure(InvalidSignature)
    else if Missing(d.paymentId) || Missing(d.orderId) then Failure(MalformedWebhook)
    else
      match FindByOrder(db.executions, d.orderId.value)
      case None => Failure(UnknownOrder)
      case Some(execution) =>
        match GetDecision(db.decisions, execution.decisionId)
        case None => Failure(UnknownOrderDecision)
        case Some(decision) => Success(Target(execution.executionId, decision.authorizationId))
  }

  /** The locked part: refresh the execution, drop duplicates, record and settle. */
  function RecordPayment(db: Db, target: Target, d: Delivery): (Db, Reply)
    requires d.paymentId.Some? && d.orderId.Some?
  {
    var a := target.authorizationId;
    if a !in db.auths then (db, UnknownAuthorization)
    else
      var i := Locate(db.executions, target.executionId);
      if i == |db.executions| then (db, RowVanished)
      else if d.paymentId.value in db.seen then (db, DuplicateIgnored)
      else
        var mismatch := d.amount.Some? && d.amount.value != db.executions[i].amount;
        var settled := db.(
          seen := db.seen[d.paymentId.value := d.eventType],
          executions := SetStatus(db.executions, i, if mismatch then AmountMismatch else Captured),
          payments := db.payments + [PaymentRow(d.paymentId.value, target.executionId, d.eventType, d.amount)]);
        (Record(settled, a, if mismatch then PaymentAmountMismatch else PaymentCaptured, "razorpay-webhook",
                PaymentJson(d.paymentId.value, d.orderId.value, d.amount)),
         Recorded)
  }

  /** A delivery handled without interruption. */
  function Deliver(db: Db, d: Delivery): (Db, Reply) {
    match LookupOrder(db, d)
    case Failure(error) => (db, error)
    case Success(target) => RecordPayment(db, target, d)
  }

  // The stale-payment sweep

  datatype SweepJob = SweepJob(cutoff: int, observedAt: int, timeoutSeconds: int)

  predicate StaleCandidate(db: Db, execution: ExecutionRow, cutoff: int) {
    && execution.status == Created
    && execution.createdAt <= cutoff
    && !HasPayment(db.payments, execution.executionId)
    && GetDecision(db.decisions, execution.decisionId).Some?
  }

  /** WHERE status = CREATED and old enough and without a payment event */
  function Eligible(db: Db, executions: seq<ExecutionRow>, cutoff: int): seq<ExecutionRow> {
    if executions == [] then []
    else
      var last := |executions| - 1;
      Eligible(db, executions[..last], cutoff)
      + (if StaleCandidate(db, executions[last], cutoff) then [executions[last]] else [])
  }

  predicate Older(a: ExecutionRow, b: ExecutionRow) {
    a.createdAt < b.createdAt || (a.createdAt == b.createdAt && a.executionId < b.executionId)
  }

  function InsertByAge(row: ExecutionRow, sorted: seq<ExecutionRow>): seq<ExecutionRow> {
    if sorted == [] || Older(row, sorted[0]) then [row] + sorted else [sorted[0]] + InsertByAge(row, sorted[1..])
  }

  /** ORDER BY created_at, execution_id */
  function ByAge(rows: seq<ExecutionRow>): seq<ExecutionRow> {
    if rows == [] then [] else InsertByAge(rows[|rows| - 1], ByAge(rows[..|rows| - 1]))
  }

  function Take<T>(rows: seq<T>, n: nat): seq<T> {
    if |rows| <= n then rows else rows[..n]
  }

  function ToTargets(db: Db, rows: seq<ExecutionRow>): seq<Target> {
    if rows == [] then []
    else
      var decision := GetDecision(db.decisions, rows[0].decisionId);
      (if decision.Some? then [Target(rows[0].executionId, decision.value.authorizationId)] else [])
      + ToTargets(db, rows[1..])
  }

  /** The unlocked snapshot of candidates. */
  function Candidates(db: Db, cutoff: int, batch: nat): seq<Target> {
    ToTargets(db, Take(ByAge(Eligible(db, db.executions, cutoff)), batch))
  }

  /** The locked re-check of one candidate. */
  function FlagOne(db: Db, target: Target, job: SweepJob): (Db, Reply) {
    var a := target.authorizationId;
    if a !in db.auths then (db, UnknownAuthorization)
    else
      var i := Locate(db.executions, target.executionId);
      if i == |db.executions| || db.executions[i].status != Created || db.executions[i].createdAt > job.cutoff
         || HasPayment(db.payments, target.executionId) then (db, Skipped)
      else
        var row := db.executions[i];
        (Record(db.(executions := SetStatus(db.executions, i, Stale)), a, PaymentStale, "payment-cleanup",
                StaleJson(row.executionId, row.orderId, row.createdAt, job.observedAt, job.timeoutSeconds)),
         Flagged)
  }

  /** The candidate loop; a failed lock ends the sweep with what is already committed. */
  function FlagAll(db: Db, targets: seq<Target>, job: SweepJob, flagged: nat): (Db, Reply)
    decreases |targets|
  {
    if targets == [] then (db, SweepDone(flagged))
    else
      var (next, reply) := FlagOne(db, targets[0], job);
      if reply == UnknownAuthorization then (next, reply)
      else FlagAll(next, targets[1..], job, if reply == Flagged then flagged + 1 else flagged)
  }

  /** One sweep without interruption. */
  function Sweep(db: Db, now: int, timeoutSeconds: int, batch: int): (Db, Reply) {
    if timeoutSeconds <= 0 || batch <= 0 then (db, InvalidSettings)
    else
      var job := SweepJob(now - timeoutSeconds, now, timeoutSeconds);
      FlagAll(db, Candidates(db, job.cutoff, batch), job, 0)
  }
}

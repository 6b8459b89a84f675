/** Every operation, exactly: which answer it gives when, and what it then leaves in each table and in each history. All
  * of it is said over the fields, without the functions that the operations are made of.
  */
module Effects {
  import opened Wrappers
  import opened Canonical
  import opened PolicyEngine
  import opened PolicyLaws
  import opened EvidenceLog
  import opened Tables
  import opened Operations
  import opened Runs
  import opened Invariants
  import opened Replay
  import opened Reachability
  import opened Guarantees
  import opened Authenticity

  /** The log gained these events of `a`, in this order, and no others. */
  ghost predicate Logged(log: Log, log': Log, a: Id, facts: seq<Fact>) {
    forall b :: History(log', b) == History(log, b) + (if b == a then facts else [])
  }

  lemma AppendLogs(log: Log, a: Id, fact: Fact)
    ensures Logged(log, Append(log, a, fact), a, [fact])
  {
    hide Append, History;
    forall b
      ensures History(Append(log, a, fact), b) == History(log, b) + (if b == a then [fact] else [])
    {
      HistoryOfAppend(log, a, fact, b);
    }
  }

  lemma AppendTwoLogs(log: Log, a: Id, first: Fact, second: Fact)
    ensures Logged(log, Append(Append(log, a, first), a, second), a, [first, second])
  {
    hide Append, History;
    forall b
      ensures History(Append(Append(log, a, first), a, second), b)
           == History(log, b) + (if b == a then [first, second] else [])
    {
      HistoryOfAppend(log, a, first, b);
      HistoryOfAppend(Append(log, a, first), a, second, b);
    }
  }

  // Confirming

  /** The envelope that confirming makes of a proposal: the approved agent key inside, its hash and signature beside. */
  function Approved(proposal: Mandate, agentKey: string, signature: string): Envelope {
    var mandate := proposal.(requestPublicKey := Some(agentKey));
    Envelope(mandate, OfMandate(mandate), Some(signature))
  }

  ghost predicate NonceInUse(db: Db, nonce: string) {
    exists id :: id in db.auths && db.auths[id].envelope.mandate.nonce == nonce
  }

  lemma ConfirmExactly(db: Db, proposal: Mandate, agentKey: string, signature: string)
    ensures var (db', reply) := Confirm(db, SignedEnvelope(proposal, agentKey, signature));
            var id, envelope := proposal.authorizationId, Approved(proposal, agentKey, signature);
            if id in db.auths then db' == db && reply == AuthorizationExists
            else if NonceInUse(db, proposal.nonce) then db' == db && reply == MandateNonceTaken
            else
              && reply == Confirmed(id, OfMandate(envelope.mandate))
              && db' == db.(auths := db.auths[id := AuthRow(envelope, 0)], log := db'.log)
              && Logged(db.log, db'.log, id, [Fact(MandateSigned, proposal.userId, EnvelopeJson(envelope))])
  {
    hide Append, Logged;
    var envelope := Approved(proposal, agentKey, signature);
    assert NonceTaken(db.auths, proposal.nonce) <==> NonceInUse(db, proposal.nonce);
    AppendLogs(db.log, proposal.authorizationId, Fact(MandateSigned, proposal.userId, EnvelopeJson(envelope)));
  }

  // Requests

  ghost predicate NonceUsed(db: Db, r: AgentRequest) {
    exists i :: 0 <= i < |db.requests|
             && db.requests[i].authorizationId == r.authorizationId && db.requests[i].nonce == r.nonce
  }

  lemma FoundIsUsed(db: Db, r: AgentRequest)
    ensures FindRequest(db.requests, r.authorizationId, r.nonce).Some? <==> NonceUsed(db, r)
  {
    var found := FindRequest(db.requests, r.authorizationId, r.nonce);
    if found.Some? {
      var i :| 0 <= i < |db.requests| && db.requests[i] == found.value;
    }
    if i :| 0 <= i < |db.requests|
            && db.requests[i].authorizationId == r.authorizationId && db.requests[i].nonce == r.nonce
    {
      assert db.requests[i] in db.requests;
    }
  }

  /** Why an agent is turned away: the first of the four checks that fails. */
  lemma RejectedExactlyWhen(verify: Verifier, db: Db, r: AgentRequest, now: int, request: Id, decision: Id)
    ensures var reply := HandleRequest(verify, db, r, now, request, decision).1;
            && (reply == UnknownAuthorization <==> r.authorizationId !in db.auths)
            && (r.authorizationId in db.auths ==>
                  var envelope := db.auths[r.authorizationId].envelope;
                  var mandate := envelope.mandate;
                  var mandateOk := Sealed(verify, envelope, mandate.publicKey);
                  && (reply == Unauthenticated(BadMandateSignature) <==> !mandateOk)
                  && (reply == Unauthenticated(AgentIdMismatch) <==> mandateOk && r.agentId != mandate.agentId)
                  && (reply == Unauthenticated(AgentKeyMissing) <==>
                      mandateOk && r.agentId == mandate.agentId && !Present(mandate.requestPublicKey))
                  && (reply == Unauthenticated(AgentSignatureInvalid) <==>
                      && mandateOk && r.agentId == mandate.agentId && Present(mandate.requestPublicKey)
                      && !Genuine(verify, envelope, r))
                  && (reply.Decided? <==> Genuine(verify, envelope, r)))
  {
    hide Judgement, Append, Signed, Sealed;
    if r.authorizationId in db.auths {
      var envelope := db.auths[r.authorizationId].envelope;
      SignedIsSealed(verify, envelope, envelope.mandate.publicKey);
    }
  }

  /** All that a request needs except a sufficient budget. */
  ghost predicate Eligible(db: Db, r: AgentRequest, now: int)
    requires r.authorizationId in db.auths
  {
    var row := db.auths[r.authorizationId];
    && r.authorizationId !in db.revocations && !NonceUsed(db, r)
    && row.envelope.mandate.issuedAt <= now <= row.envelope.mandate.expiresAt
    && row.usedCount < row.envelope.mandate.maxTransactions
    && InScope(row.envelope.mandate, r.cart)
  }

  /** The three decisions on a request, each exactly. */
  lemma DecidedExactlyWhen(verify: Verifier, db: Db, r: AgentRequest, now: int, request: Id, decision: Id)
    requires r.authorizationId in db.auths && Genuine(verify, db.auths[r.authorizationId].envelope, r)
    ensures var reply := HandleRequest(verify, db, r, now, request, decision).1;
            var mandate := db.auths[r.authorizationId].envelope.mandate;
            && reply.Decided?
            && (reply.result.decision == Allow <==> Eligible(db, r, now) && r.cart.total <= mandate.maxTotal)
            && (reply.result.decision == Reconsent <==>
                Eligible(db, r, now) && r.cart.total > mandate.maxTotal && mandate.maxTotal != 0)
            && (reply.result.decision == Block <==>
                !Eligible(db, r, now) || (r.cart.total > mandate.maxTotal && mandate.maxTotal == 0))
            && (reply.result == PolicyResult(Block, MandateRevoked) <==> r.authorizationId in db.revocations)
  {
    hide InScope, Genuine, HandleRequest, Evaluate, Sealed;
    var row := db.auths[r.authorizationId];
    var ctx := Context(now, NonceUsed(db, r), row.usedCount, None, false);
    RejectedExactlyWhen(verify, db, r, now, request, decision);
    JudgedByPolicy(verify, db, r, now, request, decision);
    assert Sealed(verify, row.envelope, KeyFor(row.envelope, ctx)) by { GenuineIsSealed(verify, row.envelope, r, ctx); }
    DecisionCharacterised(verify, row.envelope, r.cart, ctx);
    ReasonCharacterised(verify, row.envelope, r.cart, ctx, MandateRevoked);
  }

  lemma GenuineIsSealed(verify: Verifier, envelope: Envelope, r: AgentRequest, ctx: Context)
    requires Genuine(verify, envelope, r) && ctx.verificationKey.None?
    ensures Sealed(verify, envelope, KeyFor(envelope, ctx))
  {}

  /** The policy judges with the stored nonce and use count, unless the mandate is revoked; the answer says so. */
  lemma JudgedByPolicy(verify: Verifier, db: Db, r: AgentRequest, now: int, request: Id, decision: Id)
    requires r.authorizationId in db.auths
    ensures var reply := HandleRequest(verify, db, r, now, request, decision).1;
            var row := db.auths[r.authorizationId];
            reply.Decided? ==>
              reply.result == if r.authorizationId in db.revocations then PolicyResult(Block, MandateRevoked)
                              else Evaluate(verify, row.envelope, r.cart,
                                            Context(now, NonceUsed(db, r), row.usedCount, None, false))
  {
    hide Evaluate, Authenticate, Append;
    FoundIsUsed(db, r);
  }

  /** What a decided request writes: the request under its first id, the decision, the use, and both events. */
  lemma DecisionWritesExactly(verify: Verifier, db: Db, r: AgentRequest, now: int, request: Id, decision: Id)
    requires HandleRequest(verify, db, r, now, request, decision).1.Decided?
    ensures var (db', reply) := HandleRequest(verify, db, r, now, request, decision);
            var a, result := r.authorizationId, reply.result;
            && a in db.auths && reply.decisionId == decision
            && (NonceUsed(db, r) ==>
                  && db'.requests == db.requests
                  && exists i :: 0 <= i < |db.requests| && db.requests[i].requestId == reply.requestId
                              && db.requests[i].authorizationId == a && db.requests[i].nonce == r.nonce)
            && (!NonceUsed(db, r) ==>
                  && reply.requestId == request
                  && db'.requests
                     == db.requests + [RequestRow(request, a, r.agentId, r.nonce, r.cart, result.decision)])
            && db'.decisions == db.decisions + [DecisionRow(decision, reply.requestId, a, result)]
            && db'.auths
               == (if result.decision == Allow then
                     db.auths[a := AuthRow(db.auths[a].envelope, db.auths[a].usedCount + 1)]
                   else db.auths)
            && db' == db.(requests := db'.requests, decisions := db'.decisions, auths := db'.auths, log := db'.log)
            && Logged(db.log, db'.log, a,
                      [Fact(if NonceUsed(db, r) then ReplayAttemptBlocked else AgentRequestReceived, r.agentId,
                            RequestJson(reply.requestId, r.nonce, r.cart, r.signature)),
                       Fact(PolicyEvaluated, "policy-engine", VerdictJson(result))])
  {
    hide Judgement, Authenticate, Append, Logged, NonceUsed;
    var a := r.authorizationId;
    FoundIsUsed(db, r);
    UsedRow(db, r);
    var result := Judgement(verify, db, r, now);
    AppendTwoLogs(db.log, a,
                  Fact(if NonceUsed(db, r) then ReplayAttemptBlocked else AgentRequestReceived, r.agentId,
                       RequestJson(RequestIdFor(db, r, request), r.nonce, r.cart, r.signature)),
                  Fact(PolicyEvaluated, "policy-engine", VerdictJson(result)));
  }

  lemma UsedRow(db: Db, r: AgentRequest)
    ensures var found := FindRequest(db.requests, r.authorizationId, r.nonce);
            found.Some? ==>
              exists i :: 0 <= i < |db.requests| && db.requests[i].requestId == found.value.requestId
                       && db.requests[i].authorizationId == r.authorizationId && db.requests[i].nonce == r.nonce
  {
    var found := FindRequest(db.requests, r.authorizationId, r.nonce);
    if found.Some? {
      var i :| 0 <= i < |db.requests| && db.requests[i] == found.value;
    }
  }

  /** A request that is not decided changes no table, and leaves at most the evidence of its rejection. */
  lemma RejectionWritesExactly(verify: Verifier, db: Db, r: AgentRequest, now: int, request: Id, decision: Id)
    requires !HandleRequest(verify, db, r, now, request, decision).1.Decided?
    ensures var (db', reply) := HandleRequest(verify, db, r, now, request, decision);
            && (reply.Unauthenticated? || reply == UnknownAuthorization)
            && db' == db.(log := db'.log)
            && (reply == UnknownAuthorization ==> db' == db)
            && (reply.Unauthenticated? ==>
                  Logged(db.log, db'.log, r.authorizationId,
                         [Fact(AgentRequestRejected, "agent-verifier", RejectionJson(r.agentId, reply.failure))]))
  {
    hide Judgement, Authenticate, Append, Logged;
    if r.authorizationId in db.auths {
      var failure := Authenticate(verify, db.auths[r.authorizationId].envelope, r);
      if failure.Some? {
        AppendLogs(db.log, r.authorizationId,
                   Fact(AgentRequestRejected, "agent-verifier", RejectionJson(r.agentId, failure.value)));
      }
    }
  }

  // Revoking

  lemma RevokeExactly(db: Db, a: Id, reason: string, now: int)
    ensures var (db', reply) := Revoke(db, a, reason, now);
            if a !in db.auths then db' == db && reply == UnknownAuthorization
            else if a in db.revocations then db' == db && reply == Revoked(db.revocations[a])
            else
              && reply == Revoked(Revocation(reason, now))
              && db' == db.(revocations := db.revocations[a := Revocation(reason, now)], log := db'.log)
              && Logged(db.log, db'.log, a,
                        [Fact(MandateRevokedEvent, "trusted-operator", RevocationJson(a, reason, now))])
  {
    hide Append, Logged;
    AppendLogs(db.log, a, Fact(MandateRevokedEvent, "trusted-operator", RevocationJson(a, reason, now)));
  }

  // Executing

  /** No decision on the request stands under the authorization. */
  ghost predicate Undecided(db: Db, a: Id, requestId: Id) {
    forall i :: 0 <= i < |db.decisions| ==>
      !(db.decisions[i].requestId == requestId && db.decisions[i].authorizationId == a)
  }

  lemma LatestExactly(db: Db, a: Id, requestId: Id)
    ensures LatestDecision(db.decisions, requestId, a).None? <==> Undecided(db, a, requestId)
  {
    var found := LatestDecision(db.decisions, requestId, a);
    if found.None? {
      assert forall i :: 0 <= i < |db.decisions| ==> db.decisions[i] in db.decisions;
    }
  }

  /** When executing refuses, and with which answer. */
  lemma ExecuteRefusesExactly(db: Db, a: Id, requestId: Id, id: nat, order: Id, now: int)
    ensures var (db', reply) := Execute(db, a, requestId, id, order, now);
            && (reply == UnknownAuthorization <==> a !in db.auths)
            && (reply == ExecutionRefused <==> a in db.auths && a in db.revocations)
            && (reply == NoDecision <==> a in db.auths && a !in db.revocations && Undecided(db, a, requestId))
            && (forall decision: Decision ::
                  reply == LastDecisionWas(decision) <==>
                    && a in db.auths && a !in db.revocations && decision != Allow
                    && exists i :: IsLatest(db.decisions, i, requestId, a)
                                && db.decisions[i].result.decision == decision)
            && (!reply.Order? ==> db' == db)
  {
    hide Append;
    LatestExactly(db, a, requestId);
    var latest := LatestDecision(db.decisions, requestId, a);
    assert forall i :: IsLatest(db.decisions, i, requestId, a) ==> latest == Some(db.decisions[i]) by {
      LatestIsUnique(db.decisions, requestId, a);
    }
  }

  lemma LatestIsUnique(decisions: seq<DecisionRow>, requestId: Id, a: Id)
    ensures forall i :: IsLatest(decisions, i, requestId, a) ==>
              LatestDecision(decisions, requestId, a) == Some(decisions[i])
  {
    forall i | IsLatest(decisions, i, requestId, a)
      ensures LatestDecision(decisions, requestId, a) == Some(decisions[i])
    {
      var found := LatestDecision(decisions, requestId, a);
      assert decisions[i] in decisions;
      var j :| IsLatest(decisions, j, requestId, a) && decisions[j] == found.value;
      assert !(i < j) && !(j < i);
    }
  }

  /** What executing a request with a single ALLOW and no order writes: its order, at its cart's total, and the
    * event.
    */
  lemma ExecuteWritesExactly(db: Db, a: Id, requestId: Id, d: DecisionRow, id: nat, order: Id, now: int)
    requires TablesInv(db) && a in db.auths && a !in db.revocations && SingleAllow(db, a, requestId, d)
    requires forall e <- db.executions :: e.decisionId != d.decisionId
    ensures var (db', reply) := Execute(db, a, requestId, id, order, now);
            exists i :: 0 <= i < |db.requests| && db.requests[i].requestId == requestId
              && var cart := db.requests[i].cart;
                 && reply == Order(order, cart.total, cart.currency)
                 && db' == db.(log := db'.log, executions := db.executions
                                 + [ExecutionRow(id, d.decisionId, order, cart.total, cart.currency, Created, now)])
                 && Logged(db.log, db'.log, a,
                           [Fact(OrderCreated, "payment-executor", OrderJson(order, cart.total, cart.currency))])
  {
    hide Append, Logged, AuthsInv, LinksInv, HistoriesInv, BudgetInv, CartsInv, OrdersInv, PaymentsInv;
    LatestInHistory(db.decisions, requestId, d);
    ExecuteFindsItsRequest(db, a, requestId, id, order, now);
    var request := GetRequest(db.requests, requestId).value;
    var i :| 0 <= i < |db.requests| && db.requests[i] == request;
    AppendLogs(db.log, a, Fact(OrderCreated, "payment-executor",
                               OrderJson(order, request.cart.total, request.cart.currency)));
  }

  // Webhooks

  ghost predicate KnownOrder(executions: seq<ExecutionRow>, order: Id) {
    exists i :: 0 <= i < |executions| && executions[i].orderId == order
  }

  /** When a webhook refuses, and with which answer. */
  lemma DeliverAnswersExactly(db: Db, d: Delivery)
    requires TablesInv(db)
    ensures var (db', reply) := Deliver(db, d);
            var wellFormed := d.authentic && Present(d.paymentId) && Present(d.orderId);
            var known := wellFormed && KnownOrder(db.executions, d.orderId.value);
            && (reply == InvalidSignature <==> !d.authentic)
            && (reply == MalformedWebhook <==> d.authentic && !wellFormed)
            && (reply == UnknownOrder <==> wellFormed && !known)
            && (reply == DuplicateIgnored <==> known && d.paymentId.value in db.seen)
            && (reply == Recorded <==> known && d.paymentId.value !in db.seen)
            && (reply != Recorded ==> db' == db)
  {
    hide AuthsInv, LinksInv, HistoriesInv, BudgetInv, CartsInv, OrdersInv, PaymentsInv, Append, Locate;
    if d.authentic && Present(d.paymentId) && Present(d.orderId) {
      KnownOrders(db.executions, d.orderId.value);
      var found := FindByOrder(db.executions, d.orderId.value);
      if found.Some? {
        OwnerIsGoodTarget(db, found.value);
      }
    }
  }

  lemma KnownOrders(executions: seq<ExecutionRow>, order: Id)
    ensures FindByOrder(executions, order).Some? <==> KnownOrder(executions, order)
  {
    var found := FindByOrder(executions, order);
    if found.Some? {
      var i :| 0 <= i < |executions| && executions[i] == found.value;
    } else {
      assert forall i :: 0 <= i < |executions| ==> executions[i] in executions;
    }
  }

  /** What a recorded payment writes: the seen id, the payment, the status of its order and one event of its owner. */
  lemma DeliverWritesExactly(db: Db, d: Delivery, i: nat, a: Id)
    requires TablesInv(db) && i < |db.executions| && Owned(db.decisions, db.executions[i], a)
    requires d.orderId == Some(db.executions[i].orderId) && Deliver(db, d).1 == Recorded
    ensures var db', e := Deliver(db, d).0, db.executions[i];
            var agrees := d.amount.None? || d.amount.value == e.amount;
            && d.paymentId.Some?
            && db'.seen == db.seen[d.paymentId.value := d.eventType]
            && db'.payments == db.payments + [PaymentRow(d.paymentId.value, e.executionId, d.eventType, d.amount)]
            && db'.executions == db.executions[i := e.(status := if agrees then Captured else AmountMismatch)]
            && db' == db.(seen := db'.seen, payments := db'.payments, executions := db'.executions, log := db'.log)
            && Logged(db.log, db'.log, a,
                      [Fact(if agrees then PaymentCaptured else PaymentAmountMismatch, "razorpay-webhook",
                            PaymentJson(d.paymentId.value, e.orderId, d.amount))])
  {
    hide AuthsInv, LinksInv, HistoriesInv, BudgetInv, CartsInv, OrdersInv, PaymentsInv, Append, Logged, Locate;
    OrderLocated(db, d, i);
    OwnerIsTarget(db, d, i, a);
    var e := db.executions[i];
    var agrees := d.amount.None? || d.amount.value == e.amount;
    AppendLogs(db.log, a, Fact(if agrees then PaymentCaptured else PaymentAmountMismatch, "razorpay-webhook",
                               PaymentJson(d.paymentId.value, e.orderId, d.amount)));
  }

  lemma OwnerIsTarget(db: Db, d: Delivery, i: nat, a: Id)
    requires OrdersInv(db) && i < |db.executions| && Owned(db.decisions, db.executions[i], a)
    requires d.orderId == Some(db.executions[i].orderId) && LookupOrder(db, d).Success?
    ensures LookupOrder(db, d).value.authorizationId == a
  {
    assert db.executions[i] in db.executions;
    SameOrderSameRow(db.executions, db.executions[i], FindByOrder(db.executions, d.orderId.value).value);
  }

  /** The unlocked lookup changes no table, and leaves pending exactly the delivery with the order it names. */
  lemma LookupExactly(s: System, task: nat, d: Delivery)
    requires TablesInv(s.db)
    ensures var (s', reply) := Lookup(s, task, d);
            if reply == LookedUp then
              && s' == s.(pending := s'.pending) && task in s'.pending && s'.pending[task].Settling?
              && s'.pending == s.pending[task := s'.pending[task]]
              && s'.pending[task].delivery == d && d.authentic && Present(d.paymentId) && Present(d.orderId)
              && exists i :: 0 <= i < |s.db.executions| && s.db.executions[i].orderId == d.orderId.value
                   && s'.pending[task].target.executionId == s.db.executions[i].executionId
                   && Owned(s.db.decisions, s.db.executions[i], s'.pending[task].target.authorizationId)
            else s' == s && reply == Deliver(s.db, d).1
  {
    hide AuthsInv, LinksInv, HistoriesInv, BudgetInv, CartsInv, OrdersInv, PaymentsInv, RecordPayment;
    if LookupOrder(s.db, d).Success? {
      var found := FindByOrder(s.db.executions, d.orderId.value).value;
      var i :| 0 <= i < |s.db.executions| && s.db.executions[i] == found;
    }
  }

  // Sweeping

  /** When a candidate is flagged, and what that writes, in any tables with distinct keys. */
  lemma FlagExactly(db: Db, i: nat, a: Id, job: SweepJob)
    requires DistinctExecutions(db.executions) && i < |db.executions| && a in db.auths
    ensures var (db', reply) := FlagOne(db, Target(db.executions[i].executionId, a), job);
            var e := db.executions[i];
            if && e.status == Created && e.createdAt <= job.cutoff
               && forall p <- db.payments :: p.executionId != e.executionId
            then
              && reply == Flagged
              && db' == db.(executions := db.executions[i := e.(status := Stale)], log := db'.log)
              && Logged(db.log, db'.log, a,
                        [Fact(PaymentStale, "payment-cleanup",
                              StaleJson(e.executionId, e.orderId, e.createdAt, job.observedAt, job.timeoutSeconds))])
            else reply == Skipped && db' == db
  {
    hide Append, Logged, Locate;
    var e := db.executions[i];
    LocateByPosition(db.executions, i);
    UnpaidExactly(db.payments, e.executionId);
    AppendLogs(db.log, a, Fact(PaymentStale, "payment-cleanup",
                               StaleJson(e.executionId, e.orderId, e.createdAt, job.observedAt, job.timeoutSeconds)));
  }

  lemma UnpaidExactly(payments: seq<PaymentRow>, id: nat)
    ensures HasPayment(payments, id) <==> !forall p <- payments :: p.executionId != id
  {
    if HasPayment(payments, id) {
      var i :| 0 <= i < |payments| && payments[i].executionId == id;
      assert payments[i] in payments;
    }
    if p :| p in payments && p.executionId == id {
      var i :| 0 <= i < |payments| && payments[i] == p;
    }
  }

  /** In every reachable state an order that a sweep names is flagged exactly when it is CREATED and old enough,
    * whatever has become of its mandate.
    */
  lemma FlagsExactlyTheOldOnes(verify: Verifier, steps: seq<Step>, s: System, i: nat, a: Id, job: SweepJob)
    requires Reached(verify, steps, s) && i < |s.db.executions| && Owned(s.db.decisions, s.db.executions[i], a)
    ensures var (db', reply) := FlagOne(s.db, Target(s.db.executions[i].executionId, a), job);
            var e := s.db.executions[i];
            && (reply == Flagged <==> e.status == Created && e.createdAt <= job.cutoff)
            && (reply != Flagged ==> reply == Skipped && db' == s.db)
            && (reply == Flagged ==> db'.executions == s.db.executions[i := e.(status := Stale)])
  {
    hide FlagOne, EvidenceInv, SoundLog, PendingInv, AuthsInv, LinksInv, HistoriesInv, BudgetInv, CartsInv, LastPayment;
    ReachedSafe(verify, steps, s);
    var e := s.db.executions[i];
    assert e in s.db.executions && StatusMatches(s.db.payments, e);
    OwnerExists(s.db, e, a);
    FlagExactly(s.db, i, a, job);
  }

  lemma OwnerExists(db: Db, e: ExecutionRow, a: Id)
    requires LinksInv(db) && Owned(db.decisions, e, a)
    ensures a in db.auths
  {
    assert DecisionLinked(db, GetDecision(db.decisions, e.decisionId).value);
  }

  /** One step of a sweep: the head of its list is re-checked and dropped, and the count follows. */
  lemma SweepStepExactly(s: System, task: nat)
    requires task in s.pending && s.pending[task].Sweeping?
    ensures var Sweeping(job, rest, flagged) := s.pending[task];
            var (s', reply) := FlagNext(s, task);
            if rest == [] then s' == s.(pending := s.pending - {task}) && reply == SweepDone(flagged)
            else
              && reply == FlagOne(s.db, rest[0], job).1
              && s'.db == FlagOne(s.db, rest[0], job).0
              && s'.pending
                 == (if reply == UnknownAuthorization then s.pending - {task}
                     else s.pending[task := Sweeping(job, rest[1..], if reply == Flagged then flagged + 1
                                                     else flagged)])
  {}
}

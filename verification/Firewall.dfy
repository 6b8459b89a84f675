/** The service as an object: its tables are fields, and each handler updates them as the source does.
  * Every handler is proved to perform the corresponding step of `Operations`, and to keep the service valid: in a
  * state that some legal run reaches, so that everything proved about runs holds for the object.
  */
module Firewall {
  import opened Wrappers
  import opened Canonical
  import opened PolicyEngine
  import opened EvidenceLog
  import opened Tables
  import opened Operations
  import opened Runs
  import opened Reachability
  import opened Invariants
  import opened Replay
  import opened Guarantees
  import opened SpendingBound
  import opened Uninterrupted
  import opened LateSigning

  lemma SystemIsSafe(s: System)
    requires SystemInv(s)
    ensures DbInv(s.db)
  {}

  class Service {
    const verify: Verifier
    const evidence: EvidenceStore
    var auths: map<Id, AuthRow>
    var revocations: map<Id, Revocation>
    var requests: seq<RequestRow>
    var decisions: seq<DecisionRow>
    var executions: seq<ExecutionRow>
    var payments: seq<PaymentRow>
    var seen: map<Id, string>

    function State(): Db
      reads this, evidence
    {
      Db(auths, revocations, requests, decisions, executions, payments, seen, evidence.Value())
    }

    ghost predicate Valid()
      reads this, evidence
    {
      Reachable(verify, State())
    }

    /** What a valid service offers its callers at any moment: the guarantees that hold of every reachable state. */
    lemma ValidOffers(a: Id)
      requires Valid()
      ensures DbInv(State())
      ensures var chain := GetChain(State().log, a);
              Verifies(chain) && ReplayAll(Facts(chain)).view == ViewOf(State(), a)
      ensures a in auths ==>
                var used, mandate := auths[a].usedCount, auths[a].envelope.mandate;
                && used == CountAllow(decisions, a)
                && used <= (if mandate.maxTransactions > 0 then mandate.maxTransactions else 0)
                && 0 <= Charged(executions, decisions, a) <= used * mandate.maxTotal
    {
      hide SystemInv;
      var steps :| Reached(verify, steps, System(State(), map[]));
      ReachedSafe(verify, steps, System(State(), map[]));
      assert DbInv(State()) by { SystemIsSafe(System(State(), map[])); }
      EvidenceRebuildsTables(verify, steps, System(State(), map[]), a);
      ChainsAlwaysVerify(verify, steps, System(State(), map[]), a);
      if a in auths {
        RunSpendingIsBounded(verify, steps, a);
      }
    }

    constructor (verify: Verifier)
      ensures this.verify == verify && fresh(evidence) && State() == EMPTY_DB && Valid()
    {
      this.verify := verify;
      evidence := new EvidenceStore();
      auths, revocations, seen := map[], map[], map[];
      requests, decisions, executions, payments := [], [], [], [];
      new;
      StartIsReachable(verify);
    }

    method AppendEvent(txn: Id, eventType: EventType, actor: string, payload: Payload)
      modifies evidence
      ensures State() == Record(old(State()), txn, eventType, actor, payload)
    {
      var _ := evidence.AppendEvent(txn, eventType, actor, payload);
    }

    /** The first commit of confirming. */
    method StoreMandate(envelope: Envelope) returns (reply: Reply)
      modifies this
      ensures (State(), reply) == StoreRow(old(State()), envelope)
    {
      var id := envelope.mandate.authorizationId;
      if id in auths {
        return AuthorizationExists;
      }
      if NonceTaken(auths, envelope.mandate.nonce) {
        return MandateNonceTaken;
      }
      auths := auths[id := AuthRow(envelope, 0)];
      return Confirmed(id, envelope.evidenceHash);
    }

    /** What the second commit of confirming reads, without the lock. */
    method ReadNewest(id: Id) returns (prevHash: Hash)
      ensures prevHash == Previous(State().log, id)
    {
      prevHash := evidence.ReadPrevious(id);
    }

    /** The second commit of confirming. */
    method InsertSigning(id: Id, prevHash: Hash)
      requires id in auths
      modifies evidence
      ensures State() == InsertSigned(old(State()), id, prevHash)
    {
      var envelope := auths[id].envelope;
      var _ :=
        evidence.InsertEvent(prevHash, id, MandateSigned, envelope.mandate.userId, EnvelopeJson(envelope));
    }

    /** Both commits, with nothing in between. */
    method ConfirmAuthorization(proposal: Mandate, agentKey: string, signature: string) returns (reply: Reply)
      modifies this, evidence
      ensures (State(), reply) == Confirm(old(State()), SignedEnvelope(proposal, agentKey, signature))
      ensures old(Valid()) ==> Valid() && Extends(old(State()), State())
    {
      hide Reachable, Extends, InsertAfter, Previous;
      if Valid() {
        StepStaysReachable(verify, State(), ConfirmStep(proposal, agentKey, signature));
      }
      var mandate := proposal.(requestPublicKey := Some(agentKey));
      var envelope := Envelope(mandate, OfMandate(mandate), Some(signature));
      reply := StoreMandate(envelope);
      if reply.Confirmed? {
        var prevHash := ReadNewest(mandate.authorizationId);
        InsertSigning(mandate.authorizationId, prevHash);
      }
    }

    method JudgeRequest(r: AgentRequest, now: int) returns (result: PolicyResult)
      requires r.authorizationId in auths
      ensures result == Judgement(verify, State(), r, now)
    {
      if r.authorizationId in revocations {
        return Blocked(MandateRevoked);
      }
      var row := auths[r.authorizationId];
      var nonceAlreadyUsed := FindRequest(requests, r.authorizationId, r.nonce).Some?;
      result := EvaluatePolicy(verify, row.envelope, r.cart,
                               Context(now, nonceAlreadyUsed, row.usedCount, None, false));
    }

    method InsertRows(r: AgentRequest, result: PolicyResult, freshRequest: Id, freshDecision: Id)
        returns (requestId: Id)
      requires r.authorizationId in auths
      modifies this
      ensures State() == InsertDecision(old(State()), r, result, freshRequest, freshDecision)
      ensures requestId == RequestIdFor(old(State()), r, freshRequest)
    {
      var a := r.authorizationId;
      var existing := FindRequest(requests, a, r.nonce);
      requestId := freshRequest;
      if existing.None? {
        requests := requests + [RequestRow(requestId, a, r.agentId, r.nonce, r.cart, result.decision)];
      } else {
        requestId := existing.value.requestId;
      }
      decisions := decisions + [DecisionRow(freshDecision, requestId, a, result)];
      if result.decision == Allow {
        auths := auths[a := auths[a].(usedCount := auths[a].usedCount + 1)];
      }
    }

    method RecordDecision(r: AgentRequest, result: PolicyResult, freshRequest: Id, freshDecision: Id)
        returns (reply: Reply)
      requires r.authorizationId in auths
      modifies this, evidence
      ensures (State(), reply) == WriteDecision(old(State()), r, result, freshRequest, freshDecision)
    {
      var a := r.authorizationId;
      var nonceAlreadyUsed := FindRequest(requests, a, r.nonce).Some?;
      var requestId := InsertRows(r, result, freshRequest, freshDecision);
      AppendEvent(a, if nonceAlreadyUsed then ReplayAttemptBlocked else AgentRequestReceived,
                  r.agentId, RequestJson(requestId, r.nonce, r.cart, r.signature));
      AppendEvent(a, PolicyEvaluated, "policy-engine", VerdictJson(result));
      return Decided(requestId, freshDecision, result);
    }

    method EvaluateAgentRequest(r: AgentRequest, now: int, freshRequest: Id, freshDecision: Id) returns (reply: Reply)
      modifies this, evidence
      ensures (State(), reply) == HandleRequest(verify, old(State()), r, now, freshRequest, freshDecision)
      ensures old(Valid()) && Admissible(System(old(State()), map[]),
                                         RequestStep(r, now, freshRequest, freshDecision)) ==>
                Valid() && Extends(old(State()), State())
    {
      ghost var step := RequestStep(r, now, freshRequest, freshDecision);
      if Valid() && Admissible(System(State(), map[]), step) {
        StepStaysReachable(verify, State(), step);
      }
      if r.authorizationId !in auths {
        return UnknownAuthorization;
      }
      var failure := Authenticate(verify, auths[r.authorizationId].envelope, r);
      if failure.Some? {
        AppendEvent(r.authorizationId, AgentRequestRejected, "agent-verifier",
                                      RejectionJson(r.agentId, failure.value));
        return Unauthenticated(failure.value);
      }
      var result := JudgeRequest(r, now);
      reply := RecordDecision(r, result, freshRequest, freshDecision);
    }

    method RevokeAuthorization(a: Id, reason: string, now: int) returns (reply: Reply)
      modifies this, evidence
      ensures (State(), reply) == Revoke(old(State()), a, reason, now)
      ensures old(Valid()) ==> Valid() && Extends(old(State()), State())
    {
      if Valid() {
        StepStaysReachable(verify, State(), RevokeStep(a, reason, now));
      }
      if a !in auths {
        return UnknownAuthorization;
      }
      if a !in revocations {
        revocations := revocations[a := Revocation(reason, now)];
        AppendEvent(a, MandateRevokedEvent, "trusted-operator", RevocationJson(a, reason, now));
      }
      return Revoked(revocations[a]);
    }

    method ExecutePayment(a: Id, requestId: Id, freshExecution: nat, freshOrder: Id, now: int) returns (reply: Reply)
      modifies this, evidence
      ensures (State(), reply) == Execute(old(State()), a, requestId, freshExecution, freshOrder, now)
      ensures old(Valid()) && Admissible(System(old(State()), map[]),
                                         ExecuteStep(a, requestId, freshExecution, freshOrder, now)) ==>
                Valid() && Extends(old(State()), State())
    {
      ghost var step := ExecuteStep(a, requestId, freshExecution, freshOrder, now);
      if Valid() && Admissible(System(State(), map[]), step) {
        StepStaysReachable(verify, State(), step);
      }
      if a !in auths {
        return UnknownAuthorization;
      }
      if a in revocations {
        return ExecutionRefused;
      }
      var decision := LatestDecision(decisions, requestId, a);
      if decision.None? {
        return NoDecision;
      }
      if decision.value.result.decision != Allow {
        return LastDecisionWas(decision.value.result.decision);
      }
      var existing := FindByDecision(executions, decision.value.decisionId);
      if existing.Some? {
        return Order(existing.value.orderId, existing.value.amount, existing.value.currency);
      }
      var request := GetRequest(requests, requestId);
      if request.None? {
        return NoRequest;
      }
      var cart := request.value.cart;
      executions := executions +
      [ExecutionRow(freshExecution, decision.value.decisionId, freshOrder, cart.total, cart.currency, Created, now)];
      AppendEvent(a, OrderCreated, "payment-executor", OrderJson(freshOrder, cart.total, cart.currency));
      return Order(freshOrder, cart.total, cart.currency);
    }

    /** The part of the webhook after its lookups, from taking the lock to the commit. */
    method SettlePayment(target: Target, d: Delivery) returns (reply: Reply)
      requires d.paymentId.Some? && d.orderId.Some?
      modifies this, evidence
      ensures (State(), reply) == RecordPayment(old(State()), target, d)
    {
      var a := target.authorizationId;
      if a !in auths {
        return UnknownAuthorization;
      }
      var i := Locate(executions, target.executionId);
      if i == |executions| {
        return RowVanished;
      }
      if d.paymentId.value in seen {
        return DuplicateIgnored;
      }
      seen := seen[d.paymentId.value := d.eventType];
      var mismatch := d.amount.Some? && d.amount.value != executions[i].amount;
      executions := SetStatus(executions, i, if mismatch then AmountMismatch else Captured);
      payments := payments + [PaymentRow(d.paymentId.value, target.executionId, d.eventType, d.amount)];
      AppendEvent(a, if mismatch then PaymentAmountMismatch else PaymentCaptured, "razorpay-webhook",
                                    PaymentJson(d.paymentId.value, d.orderId.value, d.amount));
      return Recorded;
    }

    method RazorpayWebhook(d: Delivery) returns (reply: Reply)
      modifies this, evidence
      ensures (State(), reply) == Deliver(old(State()), d)
      ensures old(Valid()) ==> Valid() && Extends(old(State()), State())
    {
      if Valid() {
        DeliveryStaysReachable(verify, State(), d);
      }
      var target := LookupOrder(State(), d);
      if target.Failure? {
        return target.error;
      }
      reply := SettlePayment(target.value, d);
    }

    /** One candidate of a sweep, re-checked under the lock. */
    method FlagCandidate(target: Target, job: SweepJob) returns (reply: Reply)
      modifies this, evidence
      ensures (State(), reply) == FlagOne(old(State()), target, job)
    {
      var a := target.authorizationId;
      if a !in auths {
        return UnknownAuthorization;
      }
      var i := Locate(executions, target.executionId);
      if i == |executions| || executions[i].status != Created || executions[i].createdAt > job.cutoff
         || HasPayment(payments, target.executionId) {
        return Skipped;
      }
      var row := executions[i];
      executions := SetStatus(executions, i, Stale);
      AppendEvent(a, PaymentStale, "payment-cleanup",
                                    StaleJson(row.executionId, row.orderId, row.createdAt, job.observedAt,
                                              job.timeoutSeconds));
      return Flagged;
    }

    /** The candidate loop of a sweep. */
    method FlagCandidates(candidates: seq<Target>, job: SweepJob) returns (reply: Reply)
      modifies this, evidence
      ensures (State(), reply) == FlagAll(old(State()), candidates, job, 0)
    {
      hide FlagOne;
      var flagged := 0;
      for i := 0 to |candidates|
        invariant FlagAll(old(State()), candidates, job, 0) == FlagAll(State(), candidates[i..], job, flagged)
      {
        assert candidates[i..][0] == candidates[i] && candidates[i..][1..] == candidates[i + 1..];
        var outcome := FlagCandidate(candidates[i], job);
        if outcome == UnknownAuthorization {
          return outcome;
        }
        if outcome == Flagged {
          flagged := flagged + 1;
        }
      }
      return SweepDone(flagged);
    }

    method FlagStalePayments(now: int, timeoutSeconds: int, batch: int) returns (reply: Reply)
      modifies this, evidence
      ensures (State(), reply) == Sweep(old(State()), now, timeoutSeconds, batch)
      ensures old(Valid()) ==> Valid() && Extends(old(State()), State())
    {
      hide Reachable, Extends, FlagAll, Candidates;
      if Valid() {
        SweepStaysReachable(verify, State(), now, timeoutSeconds, batch);
      }
      if timeoutSeconds <= 0 || batch <= 0 {
        return InvalidSettings;
      }
      var job := SweepJob(now - timeoutSeconds, now, timeoutSeconds);
      reply := FlagCandidates(Candidates(State(), job.cutoff, batch), job);
    }
  }
}

/** Nothing is decided, stored or ordered without the signatures of the mandate's signer and of its agent. */
module Authenticity {
  import opened Wrappers
  import opened Canonical
  import opened PolicyEngine
  import opened PolicyLaws
  import opened EvidenceLog
  import opened Tables
  import opened Operations
  import opened Runs
  import opened Invariants
  import opened Replay
  import opened Counting
  import opened Reachability
  import opened Guarantees

  /** The agent named in the mandate signed exactly this request, with the key that the mandate's signer approved. */
  ghost predicate SignedByAgent(verify: Verifier, mandate: Mandate, digest: Hash, signature: Option<string>) {
    && Present(mandate.requestPublicKey) && Present(signature)
    && verify(digest, signature.value, mandate.requestPublicKey.value)
  }

  ghost predicate Genuine(verify: Verifier, envelope: Envelope, r: AgentRequest) {
    && Sealed(verify, envelope, envelope.mandate.publicKey)
    && r.agentId == envelope.mandate.agentId
    && SignedByAgent(verify, envelope.mandate, OfRequest(r.authorizationId, r.agentId, r.nonce, r.cart), r.signature)
  }

  lemma AuthenticatedIsGenuine(verify: Verifier, envelope: Envelope, r: AgentRequest)
    ensures Authenticate(verify, envelope, r).None? <==> Genuine(verify, envelope, r)
  {
    SignedIsSealed(verify, envelope, envelope.mandate.publicKey);
  }

  lemma JudgedAllowExactlyWhen(verify: Verifier, db: Db, r: AgentRequest, now: int)
    requires r.authorizationId in db.auths && Genuine(verify, db.auths[r.authorizationId].envelope, r)
    ensures var row := db.auths[r.authorizationId];
            var mandate := row.envelope.mandate;
            Judgement(verify, db, r, now).decision == Allow <==>
              && r.authorizationId !in db.revocations
              && (forall stored <- db.requests :: !(stored.authorizationId == r.authorizationId
                                                    && stored.nonce == r.nonce))
              && mandate.issuedAt <= now <= mandate.expiresAt
              && row.usedCount < mandate.maxTransactions
              && InScope(mandate, r.cart) && r.cart.total <= mandate.maxTotal
  {
    hide Evaluate, InScope;
    var row := db.auths[r.authorizationId];
    var nonceUsed := FindRequest(db.requests, r.authorizationId, r.nonce).Some?;
    DecisionCharacterised(verify, row.envelope, r.cart, Context(now, nonceUsed, row.usedCount, None, false));
  }

  /** The exact condition for an ALLOW answer, and for being turned away unauthenticated. */
  lemma AllowedExactlyWhen(verify: Verifier, db: Db, r: AgentRequest, now: int, freshRequest: Id, freshDecision: Id)
    requires r.authorizationId in db.auths
    ensures var reply := HandleRequest(verify, db, r, now, freshRequest, freshDecision).1;
            var row := db.auths[r.authorizationId];
            var mandate := row.envelope.mandate;
            && (reply.Unauthenticated? <==> !Genuine(verify, row.envelope, r))
            && (reply.Decided? && reply.result.decision == Allow <==>
                && Genuine(verify, row.envelope, r)
                && r.authorizationId !in db.revocations
                && (forall stored <- db.requests :: !(stored.authorizationId == r.authorizationId
                                                      && stored.nonce == r.nonce))
                && mandate.issuedAt <= now <= mandate.expiresAt
                && row.usedCount < mandate.maxTransactions
                && InScope(mandate, r.cart) && r.cart.total <= mandate.maxTotal)
  {
    hide Evaluate, Sealed, Signed, InScope, Judgement, Genuine, Authenticate;
    var row := db.auths[r.authorizationId];
    AuthenticatedIsGenuine(verify, row.envelope, r);
    if Genuine(verify, row.envelope, r) {
      JudgedAllowExactlyWhen(verify, db, r, now);
    }
  }

  /** A stored request, and the cart in it, was signed for by the agent of a genuine mandate. */
  ghost predicate RowGenuine(verify: Verifier, envelope: Envelope, row: RequestRow) {
    exists signature ::
      Genuine(verify, envelope, AgentRequest(row.authorizationId, row.agentId, row.nonce, row.cart, signature))
  }

  ghost predicate RequestsGenuine(verify: Verifier, db: Db) {
    forall row <- db.requests ::
      row.authorizationId in db.auths && RowGenuine(verify, db.auths[row.authorizationId].envelope, row)
  }

  /** A step that stores no request keeps the stored ones genuine, since envelopes never change. */
  lemma SameRequestsStayGenuine(verify: Verifier, db: Db, db': Db)
    requires RequestsGenuine(verify, db) && Extends(db, db') && db'.requests == db.requests
    ensures RequestsGenuine(verify, db')
  {
    hide RowGenuine;
    forall row <- db'.requests
      ensures row.authorizationId in db'.auths && RowGenuine(verify, db'.auths[row.authorizationId].envelope, row)
    {
      assert AuthKept(db.auths[row.authorizationId], db'.auths[row.authorizationId]);
    }
  }

  /** A request is stored only if it is genuine, and as it was signed. */
  lemma StoredRequestIsGenuine(verify: Verifier, db: Db, r: AgentRequest, now: int, freshRequest: Id, freshDecision: Id)
    ensures var requests := HandleRequest(verify, db, r, now, freshRequest, freshDecision).0.requests;
            requests != db.requests ==>
              && r.authorizationId in db.auths && Genuine(verify, db.auths[r.authorizationId].envelope, r)
              && exists state :: requests
                   == db.requests + [RequestRow(freshRequest, r.authorizationId, r.agentId, r.nonce, r.cart, state)]
  {
    if r.authorizationId in db.auths {
      AllowedExactlyWhen(verify, db, r, now, freshRequest, freshDecision);
      var result := Judgement(verify, db, r, now);
      assert [RequestRow(freshRequest, r.authorizationId, r.agentId, r.nonce, r.cart, result.decision)] != [];
    }
  }

  lemma RequestStaysGenuine(verify: Verifier, db: Db, r: AgentRequest, now: int, freshRequest: Id, freshDecision: Id)
    requires RequestsGenuine(verify, db)
    requires Extends(db, HandleRequest(verify, db, r, now, freshRequest, freshDecision).0)
    ensures RequestsGenuine(verify, HandleRequest(verify, db, r, now, freshRequest, freshDecision).0)
  {
    hide HandleRequest, Genuine;
    var db' := HandleRequest(verify, db, r, now, freshRequest, freshDecision).0;
    StoredRequestIsGenuine(verify, db, r, now, freshRequest, freshDecision);
    forall row <- db'.requests
      ensures row.authorizationId in db'.auths && RowGenuine(verify, db'.auths[row.authorizationId].envelope, row)
    {
      var from := if row in db.requests then row.authorizationId else r.authorizationId;
      assert AuthKept(db.auths[from], db'.auths[from]);
      assert r == AgentRequest(r.authorizationId, r.agentId, r.nonce, r.cart, r.signature);
    }
  }

  lemma OtherStepsStoreNoRequest(verify: Verifier, s: System, step: Step)
    requires !step.RequestStep?
    ensures Apply(verify, s, step).0.db.requests == s.db.requests
  {}

  lemma {:induction false} RunStaysGenuine(verify: Verifier, s: System, steps: seq<Step>)
    requires SystemInv(s) && Legal(verify, s, steps) && RequestsGenuine(verify, s.db)
    ensures RequestsGenuine(verify, Run(verify, s, steps).db)
    decreases |steps|
  {
    hide SystemInv, Extends, RequestsGenuine, Admissible, HandleRequest;
    if steps != [] {
      var next := Apply(verify, s, steps[0]).0;
      StepSafe(verify, s, steps[0]);
      if steps[0].RequestStep? {
        var RequestStep(request, now, freshRequest, freshDecision) := steps[0];
        RequestStaysGenuine(verify, s.db, request, now, freshRequest, freshDecision);
      } else {
        OtherStepsStoreNoRequest(verify, s, steps[0]);
        SameRequestsStayGenuine(verify, s.db, next.db);
      }
      RunStaysGenuine(verify, next, steps[1..]);
    }
  }

  /** In every reachable state, every order charges the total of a cart that the mandate covers and that the mandate's
    * own agent signed for, under a mandate whose signature verifies.
    */
  lemma OrdersAreSignedFor(verify: Verifier, steps: seq<Step>, s: System, e: ExecutionRow)
      returns (envelope: Envelope, r: AgentRequest)
    requires Reached(verify, steps, s) && e in s.db.executions
    ensures r.authorizationId in s.db.auths && s.db.auths[r.authorizationId].envelope == envelope
    ensures Owned(s.db.decisions, e, r.authorizationId)
    ensures Genuine(verify, envelope, r)
    ensures InScope(envelope.mandate, r.cart) && r.cart.total <= envelope.mandate.maxTotal
    ensures e.amount == r.cart.total && e.currency == r.cart.currency
  {
    hide EvidenceInv, CountsInv, SoundLog, PendingInv, InScope, Genuine, BudgetInv, PaymentsInv, HistoriesInv;
    ReachedSafe(verify, steps, s);
    StartSafe();
    RunStaysGenuine(verify, START, steps);
    assert OrderBacked(s.db, e);
    var d := GetDecision(s.db.decisions, e.decisionId).value;
    assert DecisionLinked(s.db, d) && CartAllowed(s.db, d);
    var row := GetRequest(s.db.requests, d.requestId).value;
    envelope := s.db.auths[row.authorizationId].envelope;
    assert RowGenuine(verify, envelope, row);
    var signature :| Genuine(verify, envelope,
                             AgentRequest(row.authorizationId, row.agentId, row.nonce, row.cart, signature));
    r := AgentRequest(row.authorizationId, row.agentId, row.nonce, row.cart, signature);
  }
}

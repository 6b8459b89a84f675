/** Where the rows of a reachable state come from: each was put there by a step of the run, with that step's
  * contents.
  */
module Provenance {
  import opened Wrappers
  import opened Canonical
  import opened PolicyLaws
  import opened EvidenceLog
  import opened Tables
  import opened Operations
  import opened Runs
  import opened Replay
  import opened Reachability
  import opened Guarantees
  import opened Authenticity
  import opened Effects

  // Mandates

  /** The step confirmed this mandate: the proposal with the given agent key, hashed and signed as it stands. */
  ghost predicate Confirms(step: Step, a: Id, envelope: Envelope) {
    && step.ConfirmStep? && step.proposal.authorizationId == a
    && envelope == Approved(step.proposal, step.agentKey, step.signature)
  }

  lemma NewMandateIsConfirmed(verify: Verifier, s: System, step: Step, a: Id)
    requires a in Apply(verify, s, step).0.db.auths && a !in s.db.auths
    ensures Confirms(step, a, Apply(verify, s, step).0.db.auths[a].envelope)
  {
    hide HandleRequest, Append;
    if step.ConfirmStep? {
      ConfirmExactly(s.db, step.proposal, step.agentKey, step.signature);
    } else if step.RequestStep? {
      RequestAddsNoMandate(verify, s.db, step.request, step.now, step.freshRequest, step.freshDecision);
    }
  }

  lemma RequestAddsNoMandate(verify: Verifier, db: Db, r: AgentRequest, now: int, request: Id, decision: Id)
    ensures HandleRequest(verify, db, r, now, request, decision).0.auths.Keys == db.auths.Keys
  {
    hide Judgement, Authenticate, Append;
  }

  lemma {:induction false} MandatesOfRun(verify: Verifier, s: System, steps: seq<Step>, a: Id)
    requires SystemInv(s) && Legal(verify, s, steps) && a in Run(verify, s, steps).db.auths && a !in s.db.auths
    ensures exists i :: 0 <= i < |steps| && Confirms(steps[i], a, Run(verify, s, steps).db.auths[a].envelope)
    decreases |steps|
  {
    hide SystemInv, Apply, Admissible, Confirms;
    var next := Apply(verify, s, steps[0]).0;
    StepSafe(verify, s, steps[0]);
    if a in next.db.auths {
      NewMandateIsConfirmed(verify, s, steps[0], a);
      RunSafe(verify, next, steps[1..]);
      assert AuthKept(next.db.auths[a], Run(verify, s, steps).db.auths[a]);
    } else {
      MandatesOfRun(verify, next, steps[1..], a);
      var i :| 0 <= i < |steps[1..]| && Confirms(steps[1..][i], a, Run(verify, s, steps).db.auths[a].envelope);
      assert Confirms(steps[i + 1], a, Run(verify, s, steps).db.auths[a].envelope);
    }
  }

  /** Every stored mandate was confirmed by a step of the run: it is that proposal, with the agent key given there. */
  lemma MandatesComeFromConfirmations(verify: Verifier, steps: seq<Step>, s: System, a: Id) returns (i: nat)
    requires Reached(verify, steps, s) && a in s.db.auths
    ensures i < |steps| && Confirms(steps[i], a, s.db.auths[a].envelope)
  {
    hide SystemInv, Confirms;
    StartSafe();
    MandatesOfRun(verify, START, steps, a);
    i :| 0 <= i < |steps| && Confirms(steps[i], a, s.db.auths[a].envelope);
  }

  /** Every order was signed for with the agent key that was given when its mandate was confirmed, over the very cart it
    * charges, which the confirmed proposal covers.
    */
  lemma OrdersTraceToConfirmations(verify: Verifier, steps: seq<Step>, s: System, e: ExecutionRow)
      returns (i: nat, r: AgentRequest)
    requires Reached(verify, steps, s) && e in s.db.executions
    ensures i < |steps| && steps[i].ConfirmStep?
    ensures var proposal, agentKey := steps[i].proposal, steps[i].agentKey;
            && Owned(s.db.decisions, e, proposal.authorizationId)
            && r.authorizationId == proposal.authorizationId && r.agentId == proposal.agentId
            && agentKey != "" && Present(r.signature)
            && verify(OfRequest(r.authorizationId, r.agentId, r.nonce, r.cart), r.signature.value, agentKey)
            && InScope(proposal, r.cart) && r.cart.total <= proposal.maxTotal
            && e.amount == r.cart.total && e.currency == r.cart.currency
  {
    hide Legal, Run, ItemPermitted, WellFormed;
    var envelope;
    envelope, r := OrdersAreSignedFor(verify, steps, s, e);
    i := MandatesComeFromConfirmations(verify, steps, s, r.authorizationId);
    KeyIsNoScope(steps[i].proposal, steps[i].agentKey, r.cart);
  }

  /** The agent key is no part of the scopes. */
  lemma KeyIsNoScope(proposal: Mandate, agentKey: string, cart: Cart)
    ensures InScope(proposal.(requestPublicKey := Some(agentKey)), cart) <==> InScope(proposal, cart)
  {
    var mandate := proposal.(requestPublicKey := Some(agentKey));
    assert forall item :: ItemPermitted(mandate, item) <==> ItemPermitted(proposal, item);
  }

  // Revocations

  lemma NewRevocationIsStated(verify: Verifier, s: System, step: Step, a: Id)
    requires a in Apply(verify, s, step).0.db.revocations && a !in s.db.revocations
    ensures step == RevokeStep(a, Apply(verify, s, step).0.db.revocations[a].reason,
                               Apply(verify, s, step).0.db.revocations[a].revokedAt)
  {
    hide HandleRequest, Append;
    if step.RequestStep? {
      RequestRevokesNothing(verify, s.db, step.request, step.now, step.freshRequest, step.freshDecision);
    }
  }

  lemma RequestRevokesNothing(verify: Verifier, db: Db, r: AgentRequest, now: int, request: Id, decision: Id)
    ensures HandleRequest(verify, db, r, now, request, decision).0.revocations == db.revocations
  {
    hide Judgement, Authenticate, Append;
  }

  lemma {:induction false} RevocationsOfRun(verify: Verifier, s: System, steps: seq<Step>, a: Id)
    requires SystemInv(s) && Legal(verify, s, steps) && a in Run(verify, s, steps).db.revocations
            && a !in s.db.revocations
    ensures var row := Run(verify, s, steps).db.revocations[a]; RevokeStep(a, row.reason, row.revokedAt) in steps
    decreases |steps|
  {
    hide SystemInv, Apply, Admissible;
    var next := Apply(verify, s, steps[0]).0;
    StepSafe(verify, s, steps[0]);
    if a in next.db.revocations {
      NewRevocationIsStated(verify, s, steps[0], a);
      RunSafe(verify, next, steps[1..]);
    } else {
      RevocationsOfRun(verify, next, steps[1..], a);
    }
  }

  /** Every stored revocation carries the reason and the time of a revoking step of the run. */
  lemma RevocationsComeFromSteps(verify: Verifier, steps: seq<Step>, s: System, a: Id)
    requires Reached(verify, steps, s) && a in s.db.revocations
    ensures RevokeStep(a, s.db.revocations[a].reason, s.db.revocations[a].revokedAt) in steps
  {
    hide SystemInv;
    StartSafe();
    RevocationsOfRun(verify, START, steps, a);
  }

  // Decisions

  /** The step asked for what the decision allowed, in time, for the agent of the mandate. */
  ghost predicate AskedInTime(verify: Verifier, step: Step, d: DecisionRow, envelope: Envelope) {
    && step.RequestStep? && step.freshDecision == d.decisionId && step.request.authorizationId == d.authorizationId
    && Genuine(verify, envelope, step.request)
    && envelope.mandate.issuedAt <= step.now <= envelope.mandate.expiresAt
    && InScope(envelope.mandate, step.request.cart) && step.request.cart.total <= envelope.mandate.maxTotal
  }

  lemma NewAllowIsAsked(verify: Verifier, s: System, step: Step, d: DecisionRow)
    requires d in Apply(verify, s, step).0.db.decisions && d !in s.db.decisions && d.result.decision == Allow
    ensures d.authorizationId in s.db.auths
    ensures AskedInTime(verify, step, d, s.db.auths[d.authorizationId].envelope)
  {
    hide HandleRequest, Append, InScope, Genuine;
    if step.RequestStep? {
      var RequestStep(r, now, request, decision) := step;
      var (db', reply) := HandleRequest(verify, s.db, r, now, request, decision);
      if reply.Decided? {
        DecisionWritesExactly(verify, s.db, r, now, request, decision);
        RejectedExactlyWhen(verify, s.db, r, now, request, decision);
        assert d == DecisionRow(decision, reply.requestId, r.authorizationId, reply.result);
        DecidedExactlyWhen(verify, s.db, r, now, request, decision);
      } else {
        RejectionWritesExactly(verify, s.db, r, now, request, decision);
      }
    }
  }

  lemma {:induction false} AllowsOfRun(verify: Verifier, s: System, steps: seq<Step>, d: DecisionRow)
    requires SystemInv(s) && Legal(verify, s, steps)
    requires d in Run(verify, s, steps).db.decisions && d !in s.db.decisions && d.result.decision == Allow
    ensures var s' := Run(verify, s, steps);
            && d.authorizationId in s'.db.auths
            && exists i :: 0 <= i < |steps| && AskedInTime(verify, steps[i], d, s'.db.auths[d.authorizationId].envelope)
    decreases |steps|
  {
    hide SystemInv, Apply, Admissible, AskedInTime;
    var s', next := Run(verify, s, steps), Apply(verify, s, steps[0]).0;
    StepSafe(verify, s, steps[0]);
    if d in next.db.decisions {
      NewAllowIsAsked(verify, s, steps[0], d);
      RunSafe(verify, s, steps);
      assert AuthKept(s.db.auths[d.authorizationId], s'.db.auths[d.authorizationId]);
      assert AskedInTime(verify, steps[0], d, s'.db.auths[d.authorizationId].envelope);
    } else {
      AllowsOfRun(verify, next, steps[1..], d);
      var i :| 0 <= i < |steps[1..]| && AskedInTime(verify, steps[1..][i], d, s'.db.auths[d.authorizationId].envelope);
      assert AskedInTime(verify, steps[i + 1], d, s'.db.auths[d.authorizationId].envelope);
    }
  }

  /** Every stored ALLOW was given to a request of the run that its mandate's agent signed, made while the mandate was
    * valid, for a cart inside its scopes and its budget.
    */
  lemma AllowsWereGivenInTime(verify: Verifier, steps: seq<Step>, s: System, d: DecisionRow) returns (i: nat)
    requires Reached(verify, steps, s) && d in s.db.decisions && d.result.decision == Allow
    ensures d.authorizationId in s.db.auths
    ensures i < |steps| && AskedInTime(verify, steps[i], d, s.db.auths[d.authorizationId].envelope)
  {
    hide SystemInv, AskedInTime;
    StartSafe();
    AllowsOfRun(verify, START, steps, d);
    i :| 0 <= i < |steps| && AskedInTime(verify, steps[i], d, s.db.auths[d.authorizationId].envelope);
  }
}

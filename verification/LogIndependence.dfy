/** No step reads the log: two systems that differ only in their logs act alike, and their logs stay related. */
module LogIndependence {
  import opened Wrappers
  import opened Canonical
  import opened EvidenceLog
  import opened Tables
  import opened Operations
  import opened Runs
  import opened Replay

  /** How two logs may differ: one lacks the rejections of the other, or has the signing events of the other at an
    * earlier time, where some are still waiting to be logged at all, and some were written with an outdated hash.
    */
  datatype Difference = Rejections | Signings(waiting: set<Id>, overtaken: set<Id>)
  {
    function Broken(): set<Id> {
      if Signings? then overtaken else {}
    }

    function Known(): set<Id> {
      if Signings? then waiting + overtaken else {}
    }
  }

  /** A history without the events of one type. */
  function Without(facts: seq<Fact>, dropped: EventType): seq<Fact> {
    if facts == [] then []
    else
      var last := facts[|facts| - 1];
      Without(facts[..|facts| - 1], dropped) + (if last.eventType == dropped then [] else [last])
  }

  ghost predicate Related(diff: Difference, a: Id, facts: seq<Fact>, clean: seq<Fact>) {
    match diff
    case Rejections => clean == Without(facts, AgentRequestRejected)
    case Signings(waiting, _) =>
      && Without(clean, MandateSigned) == Without(facts, MandateSigned)
      && ReplayAll(facts).view.envelope == if a in waiting then None else ReplayAll(clean).view.envelope
  }

  /** Events that may be appended to both logs. */
  predicate Permitted(diff: Difference, a: Id, eventType: EventType) {
    match diff
    case Rejections => eventType != AgentRequestRejected
    case Signings(waiting, _) => eventType == MandateSigned ==> a !in waiting
  }

  ghost predicate VerifiesBut(log: Log, broken: set<Id>) {
    forall a :: Verifies(Select(log.rows, a)) <==> a !in broken
  }

  ghost predicate Mirrors(diff: Difference, log: Log, clean: Log) {
    && Stamped(log.rows, log.clock) && VerifiesBut(log, diff.Broken()) && SoundLog(clean)
    && forall a :: Related(diff, a, History(log, a), History(clean, a))
  }

  /** Everything but the log is equal, and the mandates of late events are stored. */
  ghost predicate SameTables(diff: Difference, db: Db, clean: Db) {
    clean == db.(log := clean.log) && diff.Known() <= db.auths.Keys
  }

  ghost predicate Alike(diff: Difference, db: Db, clean: Db) {
    SameTables(diff, db, clean) && Mirrors(diff, db.log, clean.log)
  }

  ghost predicate Twins(diff: Difference, s: System, clean: System) {
    clean.pending == s.pending && Alike(diff, s.db, clean.db)
  }

  lemma WithoutAppend(facts: seq<Fact>, f: Fact, dropped: EventType)
    ensures Without(facts + [f], dropped) == Without(facts, dropped) + (if f.eventType == dropped then [] else [f])
  {
    assert (facts + [f])[..|facts|] == facts;
  }

  lemma EnvelopeOfFact(s: Replayed, s': Replayed, f: Fact)
    ensures s.view.envelope == s'.view.envelope ==>
              ReplayFact(s, f).view.envelope == ReplayFact(s', f).view.envelope
    ensures f.eventType != MandateSigned ==> ReplayFact(s, f).view.envelope == s.view.envelope
  {}

  lemma RelatedAppend(diff: Difference, a: Id, facts: seq<Fact>, clean: seq<Fact>, f: Fact)
    requires Related(diff, a, facts, clean) && Permitted(diff, a, f.eventType)
    ensures Related(diff, a, facts + [f], clean + [f])
  {
    hide ReplayFact, ReplayAll, Without;
    match diff
    case Rejections => WithoutAppend(facts, f, AgentRequestRejected);
    case Signings(_, _) =>
      WithoutAppend(facts, f, MandateSigned);
      WithoutAppend(clean, f, MandateSigned);
      ReplayAppend(facts, f);
      ReplayAppend(clean, f);
      EnvelopeOfFact(ReplayAll(facts), ReplayAll(clean), f);
      EnvelopeOfFact(ReplayAll(clean), ReplayAll(clean), f);
  }

  lemma AppendKeepsVerdicts(log: Log, txn: Id, fact: Fact, broken: set<Id>)
    requires Stamped(log.rows, log.clock) && VerifiesBut(log, broken)
    ensures var log' := Append(log, txn, fact); Stamped(log'.rows, log'.clock) && VerifiesBut(log', broken)
  {
    InsertKeepsStamps(log, Previous(log, txn), txn, fact);
    hide Append, Verifies, Stamped;
    forall a
      ensures Verifies(Select(Append(log, txn, fact).rows, a)) <==> a !in broken
    {
      AppendKeepsVerdict(log, txn, fact, a);
    }
  }

  lemma MirrorsSameEvent(diff: Difference, log: Log, clean: Log, txn: Id, fact: Fact)
    requires Mirrors(diff, log, clean) && Permitted(diff, txn, fact.eventType)
    ensures Mirrors(diff, Append(log, txn, fact), Append(clean, txn, fact))
  {
    hide Related, Append, History, SoundLog, Stamped, VerifiesBut;
    AppendKeepsVerdicts(log, txn, fact, diff.Broken());
    AppendKeepsSound(clean, txn, fact);
    forall a
      ensures Related(diff, a, History(Append(log, txn, fact), a), History(Append(clean, txn, fact), a))
    {
      HistoryOfAppend(log, txn, fact, a);
      HistoryOfAppend(clean, txn, fact, a);
      if a == txn {
        RelatedAppend(diff, a, History(log, a), History(clean, a), fact);
      }
    }
  }

  lemma MirrorsRejection(log: Log, clean: Log, txn: Id, fact: Fact)
    requires Mirrors(Rejections, log, clean) && fact.eventType == AgentRequestRejected
    ensures Mirrors(Rejections, Append(log, txn, fact), clean)
  {
    hide Append, History, SoundLog, Without, Stamped, VerifiesBut;
    AppendKeepsVerdicts(log, txn, fact, {});
    forall a
      ensures Related(Rejections, a, History(Append(log, txn, fact), a), History(clean, a))
    {
      HistoryOfAppend(log, txn, fact, a);
      WithoutAppend(History(log, a), fact, AgentRequestRejected);
      assert Related(Rejections, a, History(log, a), History(clean, a));
    }
  }

  /** Two outcomes that agree on the reply and on all tables. */
  ghost predicate SameOutcome(diff: Difference, o: (Db, Reply), clean: (Db, Reply)) {
    o.1 == clean.1 && Alike(diff, o.0, clean.0)
  }

  lemma RecordTwins(
      diff: Difference, db: Db, clean: Db, txn: Id, eventType: EventType, actor: string, payload: Payload)
    requires Alike(diff, db, clean) && Permitted(diff, txn, eventType)
    ensures Alike(diff, Record(db, txn, eventType, actor, payload), Record(clean, txn, eventType, actor, payload))
  {
    hide Mirrors;
    MirrorsSameEvent(diff, db.log, clean.log, txn, Fact(eventType, actor, payload));
  }

  lemma ConfirmTwins(diff: Difference, db: Db, clean: Db, envelope: Envelope)
    requires Alike(diff, db, clean)
    ensures SameOutcome(diff, Confirm(db, envelope), Confirm(clean, envelope))
  {
    hide Mirrors;
    var id := envelope.mandate.authorizationId;
    if id !in db.auths {
      MirrorsSameEvent(diff, db.log, clean.log, id,
                       Fact(MandateSigned, envelope.mandate.userId, EnvelopeJson(envelope)));
    }
  }

  lemma DecisionTwins(diff: Difference, db: Db, clean: Db, r: AgentRequest, result: PolicyResult, freshRequest: Id,
                      freshDecision: Id)
    requires r.authorizationId in db.auths && Alike(diff, db, clean)
    ensures SameOutcome(diff, WriteDecision(db, r, result, freshRequest, freshDecision),
                        WriteDecision(clean, r, result, freshRequest, freshDecision))
  {
    var a := r.authorizationId;
    var rows := InsertDecision(db, r, result, freshRequest, freshDecision);
    var cleanRows := InsertDecision(clean, r, result, freshRequest, freshDecision);
    var eventType := if FindRequest(db.requests, a, r.nonce).Some? then ReplayAttemptBlocked else AgentRequestReceived;
    var payload := RequestJson(RequestIdFor(db, r, freshRequest), r.nonce, r.cart, r.signature);
    RecordTwins(diff, rows, cleanRows, a, eventType, r.agentId, payload);
    RecordTwins(diff, Record(rows, a, eventType, r.agentId, payload),
                Record(cleanRows, a, eventType, r.agentId, payload),
                a, PolicyEvaluated, "policy-engine", VerdictJson(result));
  }

  lemma RejectionTwins(diff: Difference, db: Db, clean: Db, a: Id, payload: Payload)
    requires Alike(diff, db, clean)
    ensures var db' := Record(db, a, AgentRequestRejected, "agent-verifier", payload);
            if diff.Rejections? then Alike(diff, db', clean)
            else Alike(diff, db', Record(clean, a, AgentRequestRejected, "agent-verifier", payload))
  {
    hide Mirrors;
    if diff.Rejections? {
      MirrorsRejection(db.log, clean.log, a, Fact(AgentRequestRejected, "agent-verifier", payload));
    } else {
      RecordTwins(diff, db, clean, a, AgentRequestRejected, "agent-verifier", payload);
    }
  }

  lemma RequestTwins(verify: Verifier, diff: Difference, db: Db, clean: Db, r: AgentRequest, now: int, freshRequest: Id,
                     freshDecision: Id)
    requires Alike(diff, db, clean)
    ensures var o := HandleRequest(verify, db, r, now, freshRequest, freshDecision);
            if diff.Rejections? && o.1.Unauthenticated? then Alike(diff, o.0, clean)
            else SameOutcome(diff, o, HandleRequest(verify, clean, r, now, freshRequest, freshDecision))
  {
    var a := r.authorizationId;
    if a in db.auths {
      var failure := Authenticate(verify, db.auths[a].envelope, r);
      if failure.Some? {
        RejectionTwins(diff, db, clean, a, RejectionJson(r.agentId, failure.value));
      } else {
        assert Judgement(verify, db, r, now) == Judgement(verify, clean, r, now);
        DecisionTwins(diff, db, clean, r, Judgement(verify, db, r, now), freshRequest, freshDecision);
      }
    }
  }

  lemma RevokeTwins(diff: Difference, db: Db, clean: Db, a: Id, reason: string, now: int)
    requires Alike(diff, db, clean)
    ensures SameOutcome(diff, Revoke(db, a, reason, now), Revoke(clean, a, reason, now))
  {
    hide Mirrors, Append;
    MirrorsSameEvent(diff, db.log, clean.log, a,
                     Fact(MandateRevokedEvent, "trusted-operator", RevocationJson(a, reason, now)));
  }

  lemma ExecuteTwins(diff: Difference, db: Db, clean: Db, a: Id, requestId: Id, freshExecution: nat, freshOrder: Id,
                     now: int)
    requires Alike(diff, db, clean)
    ensures SameOutcome(diff, Execute(db, a, requestId, freshExecution, freshOrder, now),
                        Execute(clean, a, requestId, freshExecution, freshOrder, now))
  {
    hide Append, Mirrors;
    var request := GetRequest(db.requests, requestId);
    if request.Some? {
      var cart := request.value.cart;
      MirrorsSameEvent(diff, db.log, clean.log, a,
                       Fact(OrderCreated, "payment-executor", OrderJson(freshOrder, cart.total, cart.currency)));
    }
  }

  lemma SettleTwins(diff: Difference, db: Db, clean: Db, target: Target, d: Delivery)
    requires Alike(diff, db, clean) && d.paymentId.Some? && d.orderId.Some?
    ensures SameOutcome(diff, RecordPayment(db, target, d), RecordPayment(clean, target, d))
  {
    hide Mirrors, Append;
    var payload := PaymentJson(d.paymentId.value, d.orderId.value, d.amount);
    MirrorsSameEvent(diff, db.log, clean.log, target.authorizationId,
                     Fact(PaymentCaptured, "razorpay-webhook", payload));
    MirrorsSameEvent(diff, db.log, clean.log, target.authorizationId,
                     Fact(PaymentAmountMismatch, "razorpay-webhook", payload));
  }

  lemma FlagTwins(diff: Difference, db: Db, clean: Db, target: Target, job: SweepJob)
    requires Alike(diff, db, clean)
    ensures SameOutcome(diff, FlagOne(db, target, job), FlagOne(clean, target, job))
  {
    hide Mirrors, Append;
    var i := Locate(db.executions, target.executionId);
    if i < |db.executions| {
      var row := db.executions[i];
      MirrorsSameEvent(diff, db.log, clean.log, target.authorizationId,
        Fact(PaymentStale, "payment-cleanup",
             StaleJson(row.executionId, row.orderId, row.createdAt, job.observedAt, job.timeoutSeconds)));
    }
  }

  lemma {:induction false} EligibleTwins(diff: Difference, db: Db, clean: Db, rows: seq<ExecutionRow>, cutoff: int)
    requires SameTables(diff, db, clean)
    ensures Eligible(clean, rows, cutoff) == Eligible(db, rows, cutoff)
  {
    if rows != [] {
      EligibleTwins(diff, db, clean, rows[..|rows| - 1], cutoff);
    }
  }

  lemma {:induction false} TargetsTwins(diff: Difference, db: Db, clean: Db, rows: seq<ExecutionRow>)
    requires SameTables(diff, db, clean)
    ensures ToTargets(clean, rows) == ToTargets(db, rows)
  {
    if rows != [] {
      TargetsTwins(diff, db, clean, rows[1..]);
    }
  }

  lemma SettleStepTwins(diff: Difference, s: System, clean: System, task: nat)
    requires Twins(diff, s, clean)
    ensures Settle(clean, task).1 == Settle(s, task).1 && Twins(diff, Settle(s, task).0, Settle(clean, task).0)
  {
    hide Mirrors;
    if task in s.pending && s.pending[task].Settling? {
      var local := s.pending[task];
      if !Missing(local.delivery.paymentId) && !Missing(local.delivery.orderId) {
        SettleTwins(diff, s.db, clean.db, local.target, local.delivery);
      }
    }
  }

  lemma SelectStepTwins(diff: Difference, s: System, clean: System, task: nat, now: int, timeoutSeconds: int,
                        batch: int)
    requires Twins(diff, s, clean)
    ensures SelectCandidates(clean, task, now, timeoutSeconds, batch).1
         == SelectCandidates(s, task, now, timeoutSeconds, batch).1
    ensures Twins(diff, SelectCandidates(s, task, now, timeoutSeconds, batch).0,
                  SelectCandidates(clean, task, now, timeoutSeconds, batch).0)
  {
    hide Mirrors;
    if timeoutSeconds > 0 && batch > 0 {
      EligibleTwins(diff, s.db, clean.db, s.db.executions, now - timeoutSeconds);
      TargetsTwins(diff, s.db, clean.db, Take(ByAge(Eligible(s.db, s.db.executions, now - timeoutSeconds)), batch));
    }
  }

  lemma FlagStepTwins(diff: Difference, s: System, clean: System, task: nat)
    requires Twins(diff, s, clean)
    ensures FlagNext(clean, task).1 == FlagNext(s, task).1 && Twins(diff, FlagNext(s, task).0, FlagNext(clean, task).0)
  {
    hide Mirrors;
    if task in s.pending && s.pending[task].Sweeping? && s.pending[task].rest != [] {
      FlagTwins(diff, s.db, clean.db, s.pending[task].rest[0], s.pending[task].job);
    }
  }

  lemma OnlyRequestsAreRejected(verify: Verifier, s: System, step: Step)
    ensures Apply(verify, s, step).1.Unauthenticated? ==> step.RequestStep?
  {}

  lemma LookupStepTwins(diff: Difference, s: System, clean: System, task: nat, d: Delivery)
    requires Twins(diff, s, clean)
    ensures Lookup(clean, task, d).1 == Lookup(s, task, d).1
            && Twins(diff, Lookup(s, task, d).0, Lookup(clean, task, d).0)
  {}

  lemma OnDbTwins(diff: Difference, s: System, clean: System, o: (Db, Reply), cleanO: (Db, Reply))
    requires Twins(diff, s, clean) && SameOutcome(diff, o, cleanO)
    ensures OnDb(clean, cleanO).1 == OnDb(s, o).1 && Twins(diff, OnDb(s, o).0, OnDb(clean, cleanO).0)
  {}

  /** A step that is not rejected acts alike on both; a rejected one leaves the clean twin as it is. */
  lemma StepTwins(verify: Verifier, diff: Difference, s: System, clean: System, step: Step)
    requires Twins(diff, s, clean)
    ensures var (s', reply) := Apply(verify, s, step);
            if diff.Rejections? && reply.Unauthenticated? then Twins(diff, s', clean)
            else Apply(verify, clean, step).1 == reply && Twins(diff, s', Apply(verify, clean, step).0)
  {
    hide Mirrors, HandleRequest, Confirm, Revoke, Execute, Settle, FlagNext, Lookup, SelectCandidates;
    OnlyRequestsAreRejected(verify, s, step);
    match step
    case ConfirmStep(proposal, agentKey, signature) =>
      var envelope := SignedEnvelope(proposal, agentKey, signature);
      ConfirmTwins(diff, s.db, clean.db, envelope);
      OnDbTwins(diff, s, clean, Confirm(s.db, envelope), Confirm(clean.db, envelope));
    case RequestStep(request, now, freshRequest, freshDecision) =>
      RequestTwins(verify, diff, s.db, clean.db, request, now, freshRequest, freshDecision);
    case RevokeStep(a, reason, now) =>
      RevokeTwins(diff, s.db, clean.db, a, reason, now);
      OnDbTwins(diff, s, clean, Revoke(s.db, a, reason, now), Revoke(clean.db, a, reason, now));
    case ExecuteStep(a, requestId, freshExecution, freshOrder, now) =>
      ExecuteTwins(diff, s.db, clean.db, a, requestId, freshExecution, freshOrder, now);
      OnDbTwins(diff, s, clean, Execute(s.db, a, requestId, freshExecution, freshOrder, now),
                Execute(clean.db, a, requestId, freshExecution, freshOrder, now));
    case LookupStep(task, d) => LookupStepTwins(diff, s, clean, task, d);
    case SettleStep(task) => SettleStepTwins(diff, s, clean, task);
    case SelectStep(task, now, timeoutSeconds, batch) =>
      SelectStepTwins(diff, s, clean, task, now, timeoutSeconds, batch);
    case FlagStep(task) => FlagStepTwins(diff, s, clean, task);
  }
}

/** The invariant of every reachable state, and what no step ever undoes. */
module Reachability {
  import opened Wrappers
  import opened Canonical
  import opened EvidenceLog
  import opened Tables
  import opened Operations
  import opened Runs
  import opened Invariants
  import opened Preservation
  import opened Replay
  import opened Counting

  ghost predicate DbInv(db: Db) {
    TablesInv(db) && SoundLog(db.log) && EvidenceInv(db) && CountsInv(db)
  }

  // What is never undone

  function Rank(status: Status): nat {
    match status
    case Created => 0
    case Stale => 1
    case _ => 2
  }

  /** The same order: only the status may differ, and only forward. */
  ghost predicate Advanced(e: ExecutionRow, e': ExecutionRow) {
    e' == e.(status := e'.status) && Rank(e.status) <= Rank(e'.status)
  }

  ghost predicate AuthKept(row: AuthRow, row': AuthRow) {
    row'.envelope == row.envelope && row.usedCount <= row'.usedCount
  }

  /** Rows are never deleted, keys and amounts never change, and statuses only advance. */
  ghost predicate Extends(db: Db, db': Db) {
    && (forall a <- db.auths :: a in db'.auths && AuthKept(db.auths[a], db'.auths[a]))
    && (forall a <- db.revocations :: a in db'.revocations && db'.revocations[a] == db.revocations[a])
    && db.requests <= db'.requests && db.decisions <= db'.decisions && db.payments <= db'.payments
    && |db.executions| <= |db'.executions|
    && (forall k :: 0 <= k < |db.executions| ==> Advanced(db.executions[k], db'.executions[k]))
    && (forall id <- db.seen :: id in db'.seen)
    && db.log.rows <= db'.log.rows
  }

  lemma ExtendsTransitive(a: Db, b: Db, c: Db)
    requires Extends(a, b) && Extends(b, c)
    ensures Extends(a, c)
  {
    forall k | 0 <= k < |a.executions|
      ensures Advanced(a.executions[k], c.executions[k])
    {
      assert Advanced(a.executions[k], b.executions[k]) && Advanced(b.executions[k], c.executions[k]);
    }
    forall id <- a.auths
      ensures id in c.auths && AuthKept(a.auths[id], c.auths[id])
    {
      assert AuthKept(a.auths[id], b.auths[id]) && AuthKept(b.auths[id], c.auths[id]);
    }
  }

  // Each operation, on all invariants at once

  lemma ConfirmKeepsTables(db: Db, envelope: Envelope)
    requires TablesInv(db)
    ensures TablesInv(Confirm(db, envelope).0)
  {
    var db' := Confirm(db, envelope).0;
    if db' != db {
      var inserted := db.(auths := db.auths[envelope.mandate.authorizationId := AuthRow(envelope, 0)]);
      ConfirmKeeps(db, envelope);
      LogKeeps(inserted, db'.log);
    }
  }

  lemma ConfirmExtends(db: Db, envelope: Envelope)
    ensures Extends(db, Confirm(db, envelope).0)
  {}

  lemma ConfirmSafe(db: Db, envelope: Envelope)
    requires DbInv(db)
    ensures DbInv(Confirm(db, envelope).0) && Extends(db, Confirm(db, envelope).0)
  {
    hide TablesInv, EvidenceInv, CountsInv, SoundLog, Extends;
    var db' := Confirm(db, envelope).0;
    assert TablesInv(db') by { ConfirmKeepsTables(db, envelope); }
    assert EvidenceInv(db') by { ConfirmKeepsEvidence(db, envelope); }
    assert Extends(db, db') by { ConfirmExtends(db, envelope); }
    if db' != db {
      var fact := Fact(MandateSigned, envelope.mandate.userId, EnvelopeJson(envelope));
      assert SoundLog(db'.log) by { AppendKeepsSound(db.log, envelope.mandate.authorizationId, fact); }
      assert CountsInv(db') by { PlainEventKeepsCounts(db, db', envelope.mandate.authorizationId, fact); }
    }
  }

  lemma RejectionSafe(db: Db, a: Id, agentId: string, failure: AuthFailure)
    requires DbInv(db)
    ensures var db' := Record(db, a, AgentRequestRejected, "agent-verifier", RejectionJson(agentId, failure));
            DbInv(db') && Extends(db, db')
  {
    hide TablesInv, EvidenceInv, CountsInv, SoundLog;
    var fact := Fact(AgentRequestRejected, "agent-verifier", RejectionJson(agentId, failure));
    var db' := Record(db, a, AgentRequestRejected, "agent-verifier", RejectionJson(agentId, failure));
    RejectionKeepsEvidence(db, a, agentId, failure);
    LogKeeps(db, db'.log);
    PlainEventKeepsCounts(db, db', a, fact);
    AppendKeepsSound(db.log, a, fact);
  }

  lemma DecisionKeepsTables(db: Db, r: AgentRequest, result: PolicyResult, freshRequest: Id, freshDecision: Id)
    requires TablesInv(db)
    requires r.authorizationId in db.auths && FreshIds(db, freshRequest, freshDecision) && Justified(db, r, result)
    ensures TablesInv(WriteDecision(db, r, result, freshRequest, freshDecision).0)
  {
    InsertDecisionKeeps(db, r, result, freshRequest, freshDecision);
    LogKeeps(InsertDecision(db, r, result, freshRequest, freshDecision),
             WriteDecision(db, r, result, freshRequest, freshDecision).0.log);
  }

  /** Both events of a decision leave the log sound and the counted events alone. */
  lemma DecisionKeepsLog(db: Db, r: AgentRequest, result: PolicyResult, freshRequest: Id, freshDecision: Id)
    requires r.authorizationId in db.auths && SoundLog(db.log) && CountsInv(db)
    ensures var db' := WriteDecision(db, r, result, freshRequest, freshDecision).0;
            SoundLog(db'.log) && CountsInv(db') && db.log.rows <= db'.log.rows
  {
    var a := r.authorizationId;
    var db' := WriteDecision(db, r, result, freshRequest, freshDecision).0;
    var received := Fact(
      if FindRequest(db.requests, a, r.nonce).Some? then ReplayAttemptBlocked else AgentRequestReceived,
      r.agentId, RequestJson(RequestIdFor(db, r, freshRequest), r.nonce, r.cart, r.signature));
    var evaluated := Fact(PolicyEvaluated, "policy-engine", VerdictJson(result));
    WrittenLog(db, r, result, freshRequest, freshDecision, received, evaluated);
    var mid := db.(log := Append(db.log, a, received));
    PlainEventKeepsCounts(db, mid, a, received);
    PlainEventKeepsCounts(mid, db', a, evaluated);
    AppendKeepsSound(db.log, a, received);
    AppendKeepsSound(mid.log, a, evaluated);
    assert db.log.rows <= mid.log.rows <= db'.log.rows;
  }

  lemma DecisionExtends(db: Db, r: AgentRequest, result: PolicyResult, freshRequest: Id, freshDecision: Id)
    requires r.authorizationId in db.auths
    requires db.log.rows <= WriteDecision(db, r, result, freshRequest, freshDecision).0.log.rows
    ensures Extends(db, WriteDecision(db, r, result, freshRequest, freshDecision).0)
  {
    InsertExtends(db, r, result, freshRequest, freshDecision);
  }

  lemma TablesHaveOrders(db: Db)
    requires TablesInv(db)
    ensures OrdersInv(db)
  {}

  lemma DecisionSafe(db: Db, r: AgentRequest, result: PolicyResult, freshRequest: Id, freshDecision: Id)
    requires DbInv(db)
    requires r.authorizationId in db.auths && FreshIds(db, freshRequest, freshDecision) && Justified(db, r, result)
    ensures var db' := WriteDecision(db, r, result, freshRequest, freshDecision).0;
            DbInv(db') && Extends(db, db')
  {
    hide TablesInv, EvidenceInv, CountsInv, SoundLog, Extends;
    var db' := WriteDecision(db, r, result, freshRequest, freshDecision).0;
    assert TablesInv(db') by { DecisionKeepsTables(db, r, result, freshRequest, freshDecision); }
    assert EvidenceInv(db') by {
      TablesHaveOrders(db);
      DecisionKeepsEvidence(db, r, result, freshRequest, freshDecision);
    }
    assert SoundLog(db'.log) && CountsInv(db') && Extends(db, db') by {
      DecisionKeepsLog(db, r, result, freshRequest, freshDecision);
      DecisionExtends(db, r, result, freshRequest, freshDecision);
    }
  }

  lemma InsertExtends(db: Db, r: AgentRequest, result: PolicyResult, freshRequest: Id, freshDecision: Id)
    requires r.authorizationId in db.auths
    ensures Extends(db, InsertDecision(db, r, result, freshRequest, freshDecision))
  {}

  lemma RequestSafe(verify: Verifier, db: Db, r: AgentRequest, now: int, freshRequest: Id, freshDecision: Id)
    requires DbInv(db) && FreshIds(db, freshRequest, freshDecision)
    ensures var db' := HandleRequest(verify, db, r, now, freshRequest, freshDecision).0;
            DbInv(db') && Extends(db, db')
  {
    hide TablesInv, EvidenceInv, CountsInv, SoundLog, Extends;
    ExtendsReflexive(db);
    if r.authorizationId in db.auths {
      var failure := Authenticate(verify, db.auths[r.authorizationId].envelope, r);
      if failure.Some? {
        RejectionSafe(db, r.authorizationId, r.agentId, failure.value);
      } else {
        JudgementJustified(verify, db, r, now);
        DecisionSafe(db, r, Judgement(verify, db, r, now), freshRequest, freshDecision);
      }
    }
  }

  lemma RevokeKeepsTables(db: Db, a: Id, reason: string, now: int)
    requires TablesInv(db)
    ensures TablesInv(Revoke(db, a, reason, now).0)
  {
    var db' := Revoke(db, a, reason, now).0;
    if db' != db {
      RevocationKeeps(db, a, Revocation(reason, now));
      LogKeeps(db.(revocations := db.revocations[a := Revocation(reason, now)]), db'.log);
    }
  }

  lemma RevokeKeepsCounts(db: Db, a: Id, reason: string, now: int)
    requires CountsInv(db)
    ensures CountsInv(Revoke(db, a, reason, now).0)
  {
    hide CountsInv;
    var db' := Revoke(db, a, reason, now).0;
    if db' != db {
      var fact := Fact(MandateRevokedEvent, "trusted-operator", RevocationJson(a, reason, now));
      RevocationEventKeepsCounts(db, db', a, Revocation(reason, now), fact);
    }
  }

  lemma RevokeExtends(db: Db, a: Id, reason: string, now: int)
    ensures Extends(db, Revoke(db, a, reason, now).0)
  {}

  lemma RevokeSafe(db: Db, a: Id, reason: string, now: int)
    requires DbInv(db)
    ensures DbInv(Revoke(db, a, reason, now).0) && Extends(db, Revoke(db, a, reason, now).0)
  {
    hide TablesInv, EvidenceInv, CountsInv, SoundLog, Extends;
    var db' := Revoke(db, a, reason, now).0;
    assert TablesInv(db') by { RevokeKeepsTables(db, a, reason, now); }
    assert EvidenceInv(db') by { RevokeKeepsEvidence(db, a, reason, now); }
    assert CountsInv(db') by { RevokeKeepsCounts(db, a, reason, now); }
    assert Extends(db, db') by { RevokeExtends(db, a, reason, now); }
    assert SoundLog(db'.log) by {
      AppendKeepsSound(db.log, a, Fact(MandateRevokedEvent, "trusted-operator", RevocationJson(a, reason, now)));
    }
  }

  lemma InsertOrderSafe(db: Db, a: Id, e: ExecutionRow)
    requires DbInv(db) && OrderBacked(db, e) && FreshOrder(db, e) && e.status == Created
    ensures var db' := Record(db.(executions := db.executions + [e]), a, OrderCreated, "payment-executor",
                              OrderJson(e.orderId, e.amount, e.currency));
            TablesInv(db') && SoundLog(db'.log) && CountsInv(db') && Extends(db, db')
  {
    var fact := Fact(OrderCreated, "payment-executor", OrderJson(e.orderId, e.amount, e.currency));
    var inserted := db.(executions := db.executions + [e]);
    var db' := Record(inserted, a, OrderCreated, "payment-executor", OrderJson(e.orderId, e.amount, e.currency));
    assert TablesInv(db') by {
      InsertOrderKeeps(db, e);
      LogKeeps(inserted, db'.log);
    }
    assert SoundLog(db'.log) by { AppendKeepsSound(db.log, a, fact); }
    assert CountsInv(db') by { OrderEventKeepsCounts(db, db', a, e, fact); }
    assert Extends(db, db') by { InsertOrderExtends(db, db', e); }
  }

  lemma InsertOrderExtends(db: Db, db': Db, e: ExecutionRow)
    requires db'.executions == db.executions + [e] && db.log.rows <= db'.log.rows
    requires db' == db.(executions := db'.executions, log := db'.log)
    ensures Extends(db, db')
  {}

  lemma ExecuteSafe(db: Db, a: Id, requestId: Id, freshExecution: nat, freshOrder: Id, now: int)
    requires DbInv(db)
    requires forall row <- db.executions :: row.executionId != freshExecution && row.orderId != freshOrder
    ensures var db' := Execute(db, a, requestId, freshExecution, freshOrder, now).0;
            DbInv(db') && Extends(db, db')
  {
    hide TablesInv, EvidenceInv, CountsInv, SoundLog, Extends;
    var db' := Execute(db, a, requestId, freshExecution, freshOrder, now).0;
    assert EvidenceInv(db') by { ExecuteKeepsEvidence(db, a, requestId, freshExecution, freshOrder, now); }
    if db' != db {
      var d, e := ExecuteOnlyInserts(db, a, requestId, freshExecution, freshOrder, now);
      InsertOrderSafe(db, a, e);
    } else {
      ExtendsReflexive(db);
    }
  }

  /** A status change that only advances, with one more event and perhaps more payments. */
  lemma StatusChangeExtends(db: Db, db': Db, i: nat, status: Status)
    requires i < |db.executions| && Rank(db.executions[i].status) <= Rank(status)
    requires db'.executions == SetStatus(db.executions, i, status)
    requires db'.auths == db.auths && db'.revocations == db.revocations
    requires db'.requests == db.requests && db'.decisions == db.decisions
    requires db.payments <= db'.payments && db.log.rows <= db'.log.rows && forall id <- db.seen :: id in db'.seen
    ensures Extends(db, db')
  {}

  lemma FlagSafe(db: Db, target: Target, job: SweepJob)
    requires DbInv(db) && GoodTarget(db, target)
    ensures DbInv(FlagOne(db, target, job).0) && Extends(db, FlagOne(db, target, job).0)
  {
    hide EvidenceInv, CountsInv, SoundLog, Extends;
    var (db', reply) := FlagOne(db, target, job);
    assert EvidenceInv(db') by { FlagKeepsEvidence(db, target, job); }
    if reply == Flagged {
      var i := Locate(db.executions, target.executionId);
      var row := db.executions[i];
      var fact := Fact(PaymentStale, "payment-cleanup",
                       StaleJson(row.executionId, row.orderId, row.createdAt, job.observedAt, job.timeoutSeconds));
      assert TablesInv(db') by {
        FlagKeeps(db, i);
        LogKeeps(db.(executions := SetStatus(db.executions, i, Stale)), db'.log);
      }
      assert SoundLog(db'.log) by { AppendKeepsSound(db.log, target.authorizationId, fact); }
      assert CountsInv(db') by { FlagEventKeepsCounts(db, db', target.authorizationId, i, fact); }
      assert Extends(db, db') by { StatusChangeExtends(db, db', i, Stale); }
    } else {
      assert Extends(db, db') by { ExtendsReflexive(db); }
    }
  }

  lemma ExtendsReflexive(db: Db)
    ensures Extends(db, db)
  {}

  lemma PaymentKeepsTables(db: Db, i: nat, p: PaymentRow, log: Log)
    requires TablesInv(db) && NewPayment(db, i, p)
    ensures TablesInv(Settled(db, i, p).(log := log))
  {
    SettleKeeps(db, i, p);
    LogKeeps(Settled(db, i, p), log);
  }

  lemma PaymentExtends(db: Db, i: nat, p: PaymentRow, log: Log)
    requires NewPayment(db, i, p) && db.log.rows <= log.rows
    ensures Extends(db, Settled(db, i, p).(log := log))
  {
    StatusChangeExtends(db, Settled(db, i, p).(log := log), i, SettledStatus(db.executions[i], p.amount));
  }

  lemma PaymentKeepsLog(db: Db, i: nat, p: PaymentRow, a: Id, fact: Fact)
    requires SoundLog(db.log) && CountsInv(db) && NewPayment(db, i, p)
    requires fact.eventType == PaymentCaptured || fact.eventType == PaymentAmountMismatch
    requires fact.payload.PaymentJson? && fact.payload.paymentId == p.paymentId
    ensures var db' := Settled(db, i, p).(log := Append(db.log, a, fact));
            SoundLog(db'.log) && CountsInv(db') && db.log.rows <= db'.log.rows
  {
    hide CountsInv, SoundLog;
    var db' := Settled(db, i, p).(log := Append(db.log, a, fact));
    AppendKeepsSound(db.log, a, fact);
    PaymentEventKeepsCounts(db, db', a, i, SettledStatus(db.executions[i], p.amount), p.paymentId, fact);
  }

  lemma SettleSafe(db: Db, target: Target, d: Delivery)
    requires DbInv(db) && GoodTarget(db, target)
    requires d.paymentId.Some? && d.orderId == Some(db.executions[Locate(db.executions, target.executionId)].orderId)
    ensures DbInv(RecordPayment(db, target, d).0) && Extends(db, RecordPayment(db, target, d).0)
  {
    hide TablesInv, EvidenceInv, CountsInv, SoundLog, Extends;
    var (db', reply) := RecordPayment(db, target, d);
    assert EvidenceInv(db') by { SettleKeepsEvidence(db, target, d); }
    if reply == Recorded {
      var i := Locate(db.executions, target.executionId);
      var p, fact := PaymentOfDelivery(db.executions[i], d), PaymentFact(db.executions[i], d);
      RecordedPayment(db, target, d);
      PaymentKeepsLog(db, i, p, target.authorizationId, fact);
      PaymentKeepsTables(db, i, p, db'.log);
      PaymentExtends(db, i, p, db'.log);
    } else {
      assert Extends(db, db') by { ExtendsReflexive(db); }
    }
  }

  // The system: pending work refers to rows that stay

  ghost predicate LocalInv(db: Db, local: Local) {
    match local
    case Settling(target, d) =>
      && GoodTarget(db, target) && d.authentic
      && !Missing(d.paymentId) && !Missing(d.orderId)
      && d.orderId.value == db.executions[Locate(db.executions, target.executionId)].orderId
    case Sweeping(job, rest, _) => forall target <- rest :: GoodTarget(db, target)
  }

  ghost predicate PendingInv(db: Db, pending: map<nat, Local>) {
    forall task <- pending :: LocalInv(db, pending[task])
  }

  ghost predicate SystemInv(s: System) {
    DbInv(s.db) && PendingInv(s.db, s.pending)
  }

  lemma {:induction false} LocateStable(rows: seq<ExecutionRow>, rows': seq<ExecutionRow>, id: nat)
    requires |rows| <= |rows'| && forall k :: 0 <= k < |rows| ==> rows[k].executionId == rows'[k].executionId
    requires Locate(rows, id) < |rows|
    ensures Locate(rows', id) == Locate(rows, id)
  {
    if rows[0].executionId != id {
      LocateStable(rows[1..], rows'[1..], id);
    }
  }

  lemma GetDecisionStable(rows: seq<DecisionRow>, rows': seq<DecisionRow>, id: Id)
    requires rows <= rows' && DistinctDecisions(rows') && GetDecision(rows, id).Some?
    ensures GetDecision(rows', id) == GetDecision(rows, id)
  {
    var d := GetDecision(rows, id).value;
    assert d in rows';
    GetDecisionFinds(rows', d);
  }

  /** A target found once stays valid, and keeps naming the same order. */
  lemma TargetStable(db: Db, db': Db, target: Target)
    requires GoodTarget(db, target) && Extends(db, db') && DistinctDecisions(db'.decisions)
    ensures GoodTarget(db', target)
    ensures Locate(db'.executions, target.executionId) == Locate(db.executions, target.executionId)
  {
    assert forall k :: 0 <= k < |db.executions| ==> Advanced(db.executions[k], db'.executions[k]);
    LocateStable(db.executions, db'.executions, target.executionId);
    var i := Locate(db.executions, target.executionId);
    assert Advanced(db.executions[i], db'.executions[i]);
    GetDecisionStable(db.decisions, db'.decisions, db.executions[i].decisionId);
  }

  lemma LocalStable(db: Db, db': Db, local: Local)
    requires LocalInv(db, local) && Extends(db, db') && DistinctDecisions(db'.decisions)
    ensures LocalInv(db', local)
  {
    match local
    case Settling(target, d) =>
      TargetStable(db, db', target);
      var i := Locate(db.executions, target.executionId);
      assert Advanced(db.executions[i], db'.executions[i]);
    case Sweeping(job, rest, _) =>
      forall target <- rest
        ensures GoodTarget(db', target)
      {
        TargetStable(db, db', target);
      }
  }

  lemma {:induction false} LocateFinds(rows: seq<ExecutionRow>, e: ExecutionRow)
    requires e in rows && DistinctExecutions(rows)
    ensures Locate(rows, e.executionId) < |rows| && rows[Locate(rows, e.executionId)] == e
  {
    if rows[0] != e {
      assert e in rows[1..];
      LocateFinds(rows[1..], e);
    }
  }

  /** An order and its decision's authorization make a good target. */
  lemma OwnerIsGoodTarget(db: Db, e: ExecutionRow)
    requires LinksInv(db) && OrdersInv(db) && e in db.executions
    ensures var d := GetDecision(db.decisions, e.decisionId);
            d.Some? && GoodTarget(db, Target(e.executionId, d.value.authorizationId))
    ensures db.executions[Locate(db.executions, e.executionId)] == e
  {
    assert OrderBacked(db, e);
    LocateFinds(db.executions, e);
    assert DecisionLinked(db, GetDecision(db.decisions, e.decisionId).value);
  }

  lemma LookupGood(db: Db, d: Delivery)
    requires TablesInv(db) && LookupOrder(db, d).Success?
    ensures LocalInv(db, Settling(LookupOrder(db, d).value, d))
  {
    OwnerIsGoodTarget(db, FindByOrder(db.executions, d.orderId.value).value);
  }

  lemma {:induction false} TargetsGood(db: Db, rows: seq<ExecutionRow>)
    requires LinksInv(db) && OrdersInv(db) && forall e <- rows :: e in db.executions
    ensures forall target <- ToTargets(db, rows) :: GoodTarget(db, target)
    ensures |ToTargets(db, rows)| == |rows|
    ensures forall k :: 0 <= k < |rows| ==> ToTargets(db, rows)[k].executionId == rows[k].executionId
  {
    hide LinksInv, OrdersInv, GoodTarget;
    if rows != [] {
      OwnerIsGoodTarget(db, rows[0]);
      TargetsGood(db, rows[1..]);
      var first := Target(rows[0].executionId, GetDecision(db.decisions, rows[0].decisionId).value.authorizationId);
      assert ToTargets(db, rows) == [first] + ToTargets(db, rows[1..]);
    }
  }

  lemma {:induction false} EligibleSound(db: Db, rows: seq<ExecutionRow>, cutoff: int)
    ensures forall e :: e in Eligible(db, rows, cutoff) <==> e in rows && StaleCandidate(db, e, cutoff)
  {
    if rows != [] {
      var last := |rows| - 1;
      EligibleSound(db, rows[..last], cutoff);
      assert rows == rows[..last] + [rows[last]];
    }
  }

  lemma {:induction false} InsertByAgeContent(row: ExecutionRow, sorted: seq<ExecutionRow>)
    ensures forall e :: e in InsertByAge(row, sorted) <==> e == row || e in sorted
  {
    if sorted != [] && !Older(row, sorted[0]) {
      InsertByAgeContent(row, sorted[1..]);
    }
  }

  lemma {:induction false} ByAgeContent(rows: seq<ExecutionRow>)
    ensures forall e :: e in ByAge(rows) <==> e in rows
  {
    if rows != [] {
      var last := |rows| - 1;
      ByAgeContent(rows[..last]);
      InsertByAgeContent(rows[last], ByAge(rows[..last]));
      assert rows == rows[..last] + [rows[last]];
    }
  }

  lemma CandidatesGood(db: Db, cutoff: int, batch: nat)
    requires TablesInv(db)
    ensures forall target <- Candidates(db, cutoff, batch) :: GoodTarget(db, target)
  {
    EligibleSound(db, db.executions, cutoff);
    ByAgeContent(Eligible(db, db.executions, cutoff));
    TargetsGood(db, Take(ByAge(Eligible(db, db.executions, cutoff)), batch));
  }

  lemma PendingStable(db: Db, db': Db, pending: map<nat, Local>)
    requires PendingInv(db, pending) && Extends(db, db') && DistinctDecisions(db'.decisions)
    ensures PendingInv(db', pending)
  {
    forall task <- pending
      ensures LocalInv(db', pending[task])
    {
      LocalStable(db, db', pending[task]);
    }
  }

  lemma DeliverSafe(db: Db, d: Delivery)
    requires DbInv(db)
    ensures DbInv(Deliver(db, d).0) && Extends(db, Deliver(db, d).0)
  {
    hide EvidenceInv, CountsInv, SoundLog, Extends, GoodTarget;
    if LookupOrder(db, d).Success? {
      OwnerIsGoodTarget(db, FindByOrder(db.executions, d.orderId.value).value);
      SettleSafe(db, LookupOrder(db, d).value, d);
    } else {
      ExtendsReflexive(db);
    }
  }

  /** A step that only changes the database leaves pending work valid. */
  lemma DbStepSafe(s: System, outcome: (Db, Reply))
    requires SystemInv(s) && DbInv(outcome.0) && Extends(s.db, outcome.0)
    ensures SystemInv(OnDb(s, outcome).0)
  {
    hide EvidenceInv, CountsInv, SoundLog, Extends;
    PendingStable(s.db, outcome.0, s.pending);
  }

  lemma LookupSafe(s: System, task: nat, d: Delivery)
    requires SystemInv(s)
    ensures SystemInv(Lookup(s, task, d).0) && Extends(s.db, Lookup(s, task, d).0.db)
  {
    hide EvidenceInv, CountsInv, SoundLog, Extends;
    ExtendsReflexive(s.db);
    if LookupOrder(s.db, d).Success? {
      LookupGood(s.db, d);
    }
  }

  lemma SettleStepSafe(s: System, task: nat)
    requires SystemInv(s)
    ensures SystemInv(Settle(s, task).0) && Extends(s.db, Settle(s, task).0.db)
  {
    hide EvidenceInv, CountsInv, SoundLog, Extends;
    ExtendsReflexive(s.db);
    if task in s.pending && s.pending[task].Settling? {
      assert LocalInv(s.db, s.pending[task]);
      SettleSafe(s.db, s.pending[task].target, s.pending[task].delivery);
      PendingStable(s.db, Settle(s, task).0.db, s.pending);
    }
  }

  lemma PendingAdd(db: Db, pending: map<nat, Local>, task: nat, local: Local)
    requires PendingInv(db, pending) && LocalInv(db, local)
    ensures PendingInv(db, pending[task := local])
  {}

  lemma PendingDrop(db: Db, pending: map<nat, Local>, task: nat)
    requires PendingInv(db, pending)
    ensures PendingInv(db, pending - {task})
  {}

  lemma SelectSafe(s: System, task: nat, now: int, timeoutSeconds: int, batch: int)
    requires SystemInv(s)
    ensures SystemInv(SelectCandidates(s, task, now, timeoutSeconds, batch).0)
    ensures SelectCandidates(s, task, now, timeoutSeconds, batch).0.db == s.db
  {
    hide EvidenceInv, CountsInv, SoundLog, Extends;
    if timeoutSeconds > 0 && batch > 0 {
      var job := SweepJob(now - timeoutSeconds, now, timeoutSeconds);
      CandidatesGood(s.db, job.cutoff, batch);
      PendingAdd(s.db, s.pending, task, Sweeping(job, Candidates(s.db, job.cutoff, batch), 0));
    }
  }

  /** Flagging the head of a sweep's list keeps all pending work valid, including the rest of the list. */
  lemma SweepLocalStable(db: Db, db': Db, pending: map<nat, Local>, task: nat, local: Local, flagged: nat)
    requires PendingInv(db, pending) && LocalInv(db, local) && local.Sweeping? && local.rest != []
    requires Extends(db, db') && DistinctDecisions(db'.decisions)
    ensures PendingInv(db', pending - {task})
    ensures PendingInv(db', pending[task := Sweeping(local.job, local.rest[1..], flagged)])
  {
    PendingStable(db, db', pending);
    LocalStable(db, db', local);
    PendingDrop(db', pending, task);
    PendingAdd(db', pending, task, Sweeping(local.job, local.rest[1..], flagged));
  }

  lemma FlagNextSafe(s: System, task: nat, local: Local)
    requires task in s.pending && s.pending[task] == local && local.Sweeping? && local.rest != []
    requires PendingInv(s.db, s.pending) && LocalInv(s.db, local)
    requires var db' := FlagOne(s.db, local.rest[0], local.job).0;
             Extends(s.db, db') && DistinctDecisions(db'.decisions)
    ensures FlagNext(s, task).0.db == FlagOne(s.db, local.rest[0], local.job).0
    ensures PendingInv(FlagNext(s, task).0.db, FlagNext(s, task).0.pending)
  {
    hide Extends, PendingInv, LocalInv, FlagOne;
    var (db', reply) := FlagOne(s.db, local.rest[0], local.job);
    SweepLocalStable(s.db, db', s.pending, task, local, if reply == Flagged then local.flagged + 1 else local.flagged);
  }

  lemma FlagStepSafe(s: System, task: nat)
    requires SystemInv(s)
    ensures SystemInv(FlagNext(s, task).0) && Extends(s.db, FlagNext(s, task).0.db)
  {
    hide EvidenceInv, CountsInv, SoundLog, Extends;
    if task in s.pending && s.pending[task].Sweeping? && s.pending[task].rest != [] {
      var local := s.pending[task];
      assert LocalInv(s.db, local) && GoodTarget(s.db, local.rest[0]);
      FlagSafe(s.db, local.rest[0], local.job);
      FlagNextSafe(s, task, local);
    } else {
      assert Extends(s.db, FlagNext(s, task).0.db) by { ExtendsReflexive(s.db); }
      if task in s.pending { PendingDrop(s.db, s.pending, task); }
    }
  }

  /** Every step keeps the invariant and undoes nothing. */
  lemma StepSafe(verify: Verifier, s: System, step: Step)
    requires SystemInv(s) && Admissible(s, step)
    ensures SystemInv(Apply(verify, s, step).0) && Extends(s.db, Apply(verify, s, step).0.db)
  {
    hide DbInv, PendingInv, Extends;
    match step
    case ConfirmStep(proposal, agentKey, signature) =>
      ConfirmSafe(s.db, SignedEnvelope(proposal, agentKey, signature));
      DbStepSafe(s, Confirm(s.db, SignedEnvelope(proposal, agentKey, signature)));
    case RequestStep(request, now, freshRequest, freshDecision) =>
      RequestSafe(verify, s.db, request, now, freshRequest, freshDecision);
      DbStepSafe(s, HandleRequest(verify, s.db, request, now, freshRequest, freshDecision));
    case RevokeStep(a, reason, now) =>
      RevokeSafe(s.db, a, reason, now);
      DbStepSafe(s, Revoke(s.db, a, reason, now));
    case ExecuteStep(a, requestId, freshExecution, freshOrder, now) =>
      ExecuteSafe(s.db, a, requestId, freshExecution, freshOrder, now);
      DbStepSafe(s, Execute(s.db, a, requestId, freshExecution, freshOrder, now));
    case LookupStep(task, d) => LookupSafe(s, task, d);
    case SettleStep(task) => SettleStepSafe(s, task);
    case SelectStep(task, now, timeoutSeconds, batch) =>
      SelectSafe(s, task, now, timeoutSeconds, batch);
      ExtendsReflexive(s.db);
    case FlagStep(task) => FlagStepSafe(s, task);
  }

  lemma StartSafe()
    ensures SystemInv(START)
  {
    forall a
      ensures ReplayAll(History(EMPTY_LOG, a)).view == ViewOf(EMPTY_DB, a)
    {}
  }

  /** Every reachable state satisfies the invariant, and runs undo nothing. */
  lemma {:induction false} RunSafe(verify: Verifier, s: System, steps: seq<Step>)
    requires SystemInv(s) && Legal(verify, s, steps)
    ensures SystemInv(Run(verify, s, steps)) && Extends(s.db, Run(verify, s, steps).db)
    decreases |steps|
  {
    hide SystemInv, Extends, Apply, Admissible;
    if steps == [] {
      ExtendsReflexive(s.db);
    } else {
      var next := Apply(verify, s, steps[0]).0;
      StepSafe(verify, s, steps[0]);
      RunSafe(verify, next, steps[1..]);
      ExtendsTransitive(s.db, next.db, Run(verify, s, steps).db);
    }
  }
}

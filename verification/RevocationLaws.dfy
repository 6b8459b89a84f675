/** Revocation is absorbing. */
module RevocationLaws {
  import opened Canonical
  import opened PolicyEngine
  import opened EvidenceLog
  import opened Tables
  import opened Operations
  import opened Runs
  import opened Invariants
  import opened Preservation
  import opened Replay
  import opened Counting
  import opened Reachability
  import opened Footprint

  function Allows(decisions: seq<(Id, PolicyResult)>): seq<(Id, PolicyResult)> {
    if decisions == [] then []
    else
      var last := decisions[|decisions| - 1];
      Allows(decisions[..|decisions| - 1]) + (if last.1.decision == Allow then [last] else [])
  }

  lemma BlockIsNoAllow(decisions: seq<(Id, PolicyResult)>, request: Id, reason: Reason)
    ensures Allows(decisions + [(request, Blocked(reason))]) == Allows(decisions)
  {
    assert (decisions + [(request, Blocked(reason))])[..|decisions|] == decisions;
  }

  /** Nothing that costs money changed: uses, ALLOW decisions and orders are the same, up to order status. */
  ghost predicate Frozen(v: View, v': View) {
    && v'.envelope == v.envelope
    && v'.revocation == v.revocation
    && v'.usedCount == v.usedCount
    && Allows(v'.decisions) == Allows(v.decisions)
    && v'.orders.Keys == v.orders.Keys
    && forall order <- v.orders :: v'.orders[order] == v.orders[order].(status := v'.orders[order].status)
  }

  lemma FrozenReflexive(v: View)
    ensures Frozen(v, v)
  {}

  lemma FrozenTransitive(a: View, b: View, c: View)
    requires Frozen(a, b) && Frozen(b, c)
    ensures Frozen(a, c)
  {}

  lemma ConfirmFreezes(db: Db, envelope: Envelope, a: Id)
    requires a in db.auths
    ensures ViewOf(Confirm(db, envelope).0, a) == ViewOf(db, a)
  {}

  lemma RequestFreezes(verify: Verifier, db: Db, r: AgentRequest, now: int, freshRequest: Id, freshDecision: Id, a: Id)
    requires OrdersInv(db) && a in db.auths && a in db.revocations && FreshIds(db, freshRequest, freshDecision)
    ensures Frozen(ViewOf(db, a), ViewOf(HandleRequest(verify, db, r, now, freshRequest, freshDecision).0, a))
  {
    var db' := HandleRequest(verify, db, r, now, freshRequest, freshDecision).0;
    if r.authorizationId in db.auths && Authenticate(verify, db.auths[r.authorizationId].envelope, r).None? {
      var result := Judgement(verify, db, r, now);
      ViewOfInsertDecision(db, r, result, freshRequest, freshDecision, a);
      ViewIgnoresLog(InsertDecision(db, r, result, freshRequest, freshDecision), db', a);
      if r.authorizationId == a {
        BlockIsNoAllow(ViewOf(db, a).decisions, RequestIdFor(db, r, freshRequest), MandateRevoked);
      }
    } else {
      ViewIgnoresLog(db, db', a);
    }
  }

  lemma ExecuteFreezes(db: Db, b: Id, requestId: Id, freshExecution: nat, freshOrder: Id, now: int, a: Id)
    requires TablesInv(db) && a in db.revocations
    ensures ViewOf(Execute(db, b, requestId, freshExecution, freshOrder, now).0, a) == ViewOf(db, a)
  {
    var db' := Execute(db, b, requestId, freshExecution, freshOrder, now).0;
    if db' != db {
      var d, e := ExecuteOnlyInserts(db, b, requestId, freshExecution, freshOrder, now);
      OrdersAppend(db.executions, e, db.decisions, a);
      PaymentsOfNewOrder(db, e, a);
    }
  }

  lemma StatusChangeFreezes(v: View, order: Id, status: Status)
    ensures Frozen(v, WithStatus(v, order, status))
    ensures forall p: PaymentView :: p.orderId == order ==> Frozen(v, WithPayment(v, p, status))
  {}

  lemma FlagFreezes(db: Db, target: Target, job: SweepJob, a: Id)
    requires OrdersInv(db) && GoodTarget(db, target)
    ensures Frozen(ViewOf(db, a), ViewOf(FlagOne(db, target, job).0, a))
  {
    var (db', reply) := FlagOne(db, target, job);
    if reply == Flagged {
      var i := Locate(db.executions, target.executionId);
      ViewOfStatusChange(db, db', i, Stale, target.authorizationId, a);
      StatusChangeFreezes(ViewOf(db, a), db.executions[i].orderId, Stale);
    }
  }

  lemma SettleFreezes(db: Db, target: Target, d: Delivery, a: Id)
    requires OrdersInv(db) && GoodTarget(db, target) && d.paymentId.Some? && d.orderId.Some?
    ensures Frozen(ViewOf(db, a), ViewOf(RecordPayment(db, target, d).0, a))
  {
    var (db', reply) := RecordPayment(db, target, d);
    if reply == Recorded {
      var e := db.executions[Locate(db.executions, target.executionId)];
      var p := PaymentOfDelivery(e, d);
      RecordedPayment(db, target, d);
      ViewOfPayment(db, Locate(db.executions, target.executionId), p, target.authorizationId, a);
      ViewIgnoresLog(Settled(db, Locate(db.executions, target.executionId), p), db', a);
      StatusChangeFreezes(ViewOf(db, a), e.orderId, SettledStatus(e, d.amount));
    }
  }

  lemma RevokeFreezes(db: Db, b: Id, reason: string, now: int, a: Id)
    requires a in db.revocations
    ensures ViewOf(Revoke(db, b, reason, now).0, a) == ViewOf(db, a)
  {}

  lemma SettleStepFreezes(s: System, task: nat, a: Id)
    requires OrdersInv(s.db) && PendingInv(s.db, s.pending)
    ensures Frozen(ViewOf(s.db, a), ViewOf(Settle(s, task).0.db, a))
  {
    if task in s.pending && s.pending[task].Settling? {
      assert LocalInv(s.db, s.pending[task]);
      SettleFreezes(s.db, s.pending[task].target, s.pending[task].delivery, a);
    }
  }

  lemma FlagStepFreezes(s: System, task: nat, a: Id)
    requires OrdersInv(s.db) && PendingInv(s.db, s.pending)
    ensures Frozen(ViewOf(s.db, a), ViewOf(FlagNext(s, task).0.db, a))
  {
    if task in s.pending && s.pending[task].Sweeping? && s.pending[task].rest != [] {
      assert LocalInv(s.db, s.pending[task]) && GoodTarget(s.db, s.pending[task].rest[0]);
      FlagFreezes(s.db, s.pending[task].rest[0], s.pending[task].job, a);
    }
  }

  lemma LookingUpKeepsDb(s: System, task: nat, d: Delivery)
    ensures Lookup(s, task, d).0.db == s.db
  {}

  lemma SelectingKeepsDb(s: System, task: nat, now: int, timeoutSeconds: int, batch: int)
    ensures SelectCandidates(s, task, now, timeoutSeconds, batch).0.db == s.db
  {}

  /** No single step moves a revoked mandate. */
  lemma StepFreezes(verify: Verifier, s: System, step: Step, a: Id)
    requires TablesInv(s.db) && PendingInv(s.db, s.pending) && Admissible(s, step)
    requires a in s.db.auths && a in s.db.revocations
    ensures Frozen(ViewOf(s.db, a), ViewOf(Apply(verify, s, step).0.db, a))
  {
    hide Frozen, ViewOf, PendingInv, AuthsInv, LinksInv, HistoriesInv, BudgetInv, CartsInv, OrdersInv, PaymentsInv,
         Missing,
         HandleRequest, Confirm, Revoke, Execute, Settle, FlagNext, Lookup, SelectCandidates;
    FrozenReflexive(ViewOf(s.db, a));
    match step
    case ConfirmStep(proposal, agentKey, signature) =>
      ConfirmFreezes(s.db, SignedEnvelope(proposal, agentKey, signature), a);
    case RequestStep(request, now, freshRequest, freshDecision) =>
      RequestFreezes(verify, s.db, request, now, freshRequest, freshDecision, a);
    case RevokeStep(b, reason, now) => RevokeFreezes(s.db, b, reason, now, a);
    case ExecuteStep(b, requestId, freshExecution, freshOrder, now) =>
      ExecuteFreezes(s.db, b, requestId, freshExecution, freshOrder, now, a);
    case SettleStep(task) => SettleStepFreezes(s, task, a);
    case FlagStep(task) => FlagStepFreezes(s, task, a);
    case LookupStep(task, d) => LookingUpKeepsDb(s, task, d);
    case SelectStep(task, now, timeoutSeconds, batch) => SelectingKeepsDb(s, task, now, timeoutSeconds, batch);
  }

  /** After revocation, in every continuation: the uses, the ALLOW decisions and the set of orders with their
    * amounts never change, and the revocation record and its single event stay as they were. Only order statuses move.
    */
  lemma {:induction false} RevocationIsAbsorbing(verify: Verifier, s: System, steps: seq<Step>, a: Id)
    requires SystemInv(s) && Legal(verify, s, steps) && a in s.db.revocations
    ensures var s' := Run(verify, s, steps);
            && a in s'.db.revocations && s'.db.revocations[a] == s.db.revocations[a]
            && CountEvents(s'.db.log.rows, RevocationOf(a)) == 1
            && Frozen(ViewOf(s.db, a), ViewOf(s'.db, a))
    decreases |steps|
  {
    hide ViewOf, Apply, Admissible, PendingInv, EvidenceInv, SoundLog;
    assert CountEvents(s.db.log.rows, RevocationOf(a)) == 1;
    if steps != [] {
      var next := Apply(verify, s, steps[0]).0;
      StepSafe(verify, s, steps[0]);
      StepFreezes(verify, s, steps[0], a);
      RevocationIsAbsorbing(verify, next, steps[1..], a);
      FrozenTransitive(ViewOf(s.db, a), ViewOf(next.db, a), ViewOf(Run(verify, s, steps).db, a));
    }
  }

  // The rows themselves, with their ids

  function AllowRowsOf(decisions: seq<DecisionRow>, a: Id): seq<DecisionRow> {
    Filter(decisions, (row: DecisionRow) => row.authorizationId == a && row.result.decision == Allow)
  }

  /** The executions with the status left out. */
  function WithoutStatus(executions: seq<ExecutionRow>): seq<ExecutionRow> {
    seq(|executions|, k requires 0 <= k < |executions| => executions[k].(status := Created))
  }

  lemma {:induction false} AllowsCounted(rows: seq<DecisionRow>, a: Id)
    ensures |AllowRowsOf(rows, a)| == |Allows(DecisionsOf(rows, a))|
  {
    if rows != [] {
      var last := |rows| - 1;
      AllowsCounted(rows[..last], a);
      var before := DecisionsOf(rows[..last], a);
      assert (before + [(rows[last].requestId, rows[last].result)])[..|before|] == before;
      assert before + [] == before;
    }
  }

  lemma SameAllows(rows: seq<DecisionRow>, rows': seq<DecisionRow>, a: Id)
    requires rows <= rows' && Allows(DecisionsOf(rows, a)) == Allows(DecisionsOf(rows', a))
    ensures AllowRowsOf(rows', a) == AllowRowsOf(rows, a)
  {
    AllowsCounted(rows, a);
    AllowsCounted(rows', a);
    FilterGrowth(rows, rows', (row: DecisionRow) => row.authorizationId == a && row.result.decision == Allow);
  }

  lemma SameOrdersUpToStatus(db: Db, db': Db, a: Id)
    requires OrdersInv(db) && OrdersInv(db') && DistinctDecisions(db'.decisions) && Extends(db, db')
    requires OrdersOf(db.executions, db.decisions, a).Keys == OrdersOf(db'.executions, db'.decisions, a).Keys
    ensures ExecutionsOf(WithoutStatus(db'.executions), db'.decisions, a)
         == ExecutionsOf(WithoutStatus(db.executions), db.decisions, a)
  {
    hide OrdersOf, OrdersInv, Advanced;
    var n := |db.executions|;
    var bare, bare' := WithoutStatus(db.executions), WithoutStatus(db'.executions);
    var keep := (e: ExecutionRow) => Owned(db.decisions, e, a);
    var keep' := (e: ExecutionRow) => Owned(db'.decisions, e, a);
    forall k | 0 <= k < n
      ensures (keep(bare[k]) <==> keep'(bare'[..n][k])) && bare[k] == bare'[..n][k]
    {
      OwnerKept(db, db', a, k);
    }
    FilterSame(bare, bare'[..n], keep, keep');
    forall k | 0 <= k < |bare'[n..]|
      ensures !keep'(bare'[n..][k])
    {
      NoNewExecution(db, db', a, n + k);
    }
    FilterNone(bare'[n..], keep');
    assert bare' == bare'[..n] + bare'[n..];
    FilterConcat(bare'[..n], bare'[n..], keep');
  }

  /** After revocation, in every continuation, the ALLOW decisions and the orders of the mandate are the same rows, with
    * their ids, up to the status of the orders; so are the mandate's own row and its revocation.
    */
  lemma RevokedRowsStay(verify: Verifier, s: System, steps: seq<Step>, a: Id)
    requires SystemInv(s) && Legal(verify, s, steps) && a in s.db.revocations
    ensures var db, db' := s.db, Run(verify, s, steps).db;
            && RowsOf(db', a).auth == RowsOf(db, a).auth && RowsOf(db', a).revocation == RowsOf(db, a).revocation
            && AllowRowsOf(db'.decisions, a) == AllowRowsOf(db.decisions, a)
            && ExecutionsOf(WithoutStatus(db'.executions), db'.decisions, a)
               == ExecutionsOf(WithoutStatus(db.executions), db.decisions, a)
  {
    hide Apply, Admissible, Legal, Run, PendingInv, EvidenceInv, SoundLog, CountsInv, AllowRowsOf, ExecutionsOf,
         NoncesOf, DecisionsOf, OrdersOf, PaymentsOf, OrdersInv, HistoriesInv, BudgetInv, CartsInv, PaymentsInv;
    var db' := Run(verify, s, steps).db;
    RunSafe(verify, s, steps);
    RevocationIsAbsorbing(verify, s, steps, a);
    assert a in s.db.auths && AuthKept(s.db.auths[a], db'.auths[a]);
    SameAllows(s.db.decisions, db'.decisions, a);
    SameOrdersUpToStatus(s.db, db', a);
  }

  /** Revocation stops spending but not bookkeeping: an old enough unpaid order is flagged, of whatever mandate, revoked
    * or in force.
    */
  lemma OldOrdersStillAdvance(db: Db, a: Id, i: nat, job: SweepJob)
    requires DbInv(db) && i < |db.executions| && Owned(db.decisions, db.executions[i], a)
    requires db.executions[i].status == Created && db.executions[i].createdAt <= job.cutoff
    ensures var (db', reply) := FlagOne(db, Target(db.executions[i].executionId, a), job);
            reply == Flagged && db'.executions == SetStatus(db.executions, i, Stale)
  {
    hide AuthsInv, LinksInv, HistoriesInv, BudgetInv, CartsInv, EvidenceInv, SoundLog, CountsInv, LastPayment,
         HasPayment, Locate, Append, OrderBacked;
    assert db.executions[i] in db.executions && StatusMatches(db.payments, db.executions[i]);
    HasPaymentIsLast(db.payments, db.executions[i].executionId);
    OwnerIsGoodTarget(db, db.executions[i]);
    LocateByPosition(db.executions, i);
  }
}

/** Runs from the empty database in which the less expected guarantees can be seen at work. */
module Instances {
  import opened Wrappers
  import opened Canonical
  import opened PolicyLaws
  import opened EvidenceLog
  import opened Tables
  import opened Operations
  import opened Runs
  import opened Invariants
  import opened Replay
  import opened Reachability
  import opened Guarantees
  import opened Authenticity
  import opened Uninterrupted
  import opened Withdrawal
  import opened Deduplication
  import opened LateSigning

  const PROPOSAL :=
    Mandate("m", "user", "agent", "pk", None, [], [], [], [], false, "INR", 100, None, true, 3, 0, 10, 1, "n")
  const PURCHASE := Cart("shop", [CartItem("chair", 50, 1, None)], 0, 0, 50, "INR")
  const REQUEST := AgentRequest("m", "agent", "once", PURCHASE, Some("sig"))
  const ANY_SIGNATURE: Verifier := (digest: Hash, signature: string, key: string) => true

  // A request sent twice

  function ReplayRun(): seq<Step> {
    [ConfirmStep(PROPOSAL, "key", "sig"), RequestStep(REQUEST, 1, "r1", "d1"), RequestStep(REQUEST, 2, "r2", "d2"),
     ExecuteStep("m", "r1", 1, "o1", 3)]
  }

  lemma InstanceIsAllowed(db: Db)
    requires db == Confirm(EMPTY_DB, SignedEnvelope(PROPOSAL, "key", "sig")).0
    ensures IsAllow(HandleRequest(ANY_SIGNATURE, db, REQUEST, 1, "r1", "d1").1)
    ensures db.auths.Keys == {"m"} && db.auths["m"].usedCount == 0 && db.executions == []
  {
    hide HandleRequest, Append;
    AllowedExactlyWhen(ANY_SIGNATURE, db, REQUEST, 1, "r1", "d1");
    var item := PURCHASE.items[0];
    assert PURCHASE.items == [item] && [item][1..] == [];
    assert Worth([item]) == 50 && Units([item]) == 1;
  }

  lemma ThreeSteps(verify: Verifier, s: System, steps: seq<Step>)
    requires |steps| == 3
    ensures var s1 := Apply(verify, s, steps[0]).0;
            var s2 := Apply(verify, s1, steps[1]).0;
            && (Legal(verify, s, steps) <==>
                Admissible(s, steps[0]) && Admissible(s1, steps[1]) && Admissible(s2, steps[2]))
            && Run(verify, s, steps) == Apply(verify, s2, steps[2]).0
            && Replies(verify, s, steps)
               == [Apply(verify, s, steps[0]).1, Apply(verify, s1, steps[1]).1, Apply(verify, s2, steps[2]).1]
  {
    hide Apply, Admissible;
    FirstStep(verify, s, steps);
    var s1 := Apply(verify, s, steps[0]).0;
    FirstStep(verify, s1, steps[1..]);
    FirstStep(verify, Apply(verify, s1, steps[1]).0, steps[2..]);
    assert steps[1..][1..] == steps[2..] && steps[2..][1..] == [];
  }

  lemma FourSteps(verify: Verifier, s: System, steps: seq<Step>)
    requires |steps| == 4
    ensures var s1 := Apply(verify, s, steps[0]).0;
            var s2 := Apply(verify, s1, steps[1]).0;
            var s3 := Apply(verify, s2, steps[2]).0;
            && (Legal(verify, s, steps) <==>
                && Admissible(s, steps[0]) && Admissible(s1, steps[1])
                && Admissible(s2, steps[2]) && Admissible(s3, steps[3]))
            && Run(verify, s, steps) == Apply(verify, s3, steps[3]).0
            && Replies(verify, s, steps)
               == [Apply(verify, s, steps[0]).1, Apply(verify, s1, steps[1]).1,
                   Apply(verify, s2, steps[2]).1, Apply(verify, s3, steps[3]).1]
  {
    hide Apply, Admissible, Run, Legal, Replies;
    FirstStep(verify, s, steps);
    ThreeSteps(verify, Apply(verify, s, steps[0]).0, steps[1..]);
  }

  /** A first request leaves only rows under its fresh ids. */
  lemma FirstRequestRows(verify: Verifier, db: Db, r: AgentRequest, now: int, request: Id, decision: Id)
    requires db.requests == [] && db.decisions == []
    ensures var db' := HandleRequest(verify, db, r, now, request, decision).0;
            && (forall row <- db'.requests :: row.requestId == request)
            && (forall row <- db'.decisions :: row.decisionId == decision)
  {
    hide Judgement, Authenticate, Append;
  }

  /** The rows that the first request of the instance leaves. */
  lemma InstanceRows(db: Db)
    requires db == Confirm(EMPTY_DB, SignedEnvelope(PROPOSAL, "key", "sig")).0
    ensures var db' := HandleRequest(ANY_SIGNATURE, db, REQUEST, 1, "r1", "d1").0;
            && (forall row <- db'.requests :: row.requestId == "r1")
            && (forall row <- db'.decisions :: row.decisionId == "d1")
  {
    hide HandleRequest;
    FirstRows(db);
    FirstRequestRows(ANY_SIGNATURE, db, REQUEST, 1, "r1", "d1");
  }

  /** The run Confirm, Request, the same Request again, Execute is legal; it ends refused, with the one use of the
    * mandate spent and nothing ordered.
    */
  lemma ReplayRunEndsWithoutOrder()
    ensures Legal(ANY_SIGNATURE, START, ReplayRun())
    ensures var s := Run(ANY_SIGNATURE, START, ReplayRun());
            "m" in s.db.auths && s.db.auths["m"].usedCount == PROPOSAL.maxTransactions && s.db.executions == []
    ensures var replies := Replies(ANY_SIGNATURE, START, ReplayRun());
            |replies| == 4 && IsAllow(replies[1]) && replies[3] == LastDecisionWas(Block)
  {
    hide HandleRequest, Execute, Confirm, Run, Legal, Replies;
    var db := Confirm(EMPTY_DB, SignedEnvelope(PROPOSAL, "key", "sig")).0;
    assert db.requests == [] && db.decisions == [] by { FirstRows(db); }
    InstanceIsAllowed(db);
    InstanceRows(db);
    ReplayWithdrawsAllow(ANY_SIGNATURE, db, REQUEST, 1, "r1", "d1", 2, "r2", "d2", 1, "o1", 3);
    FourSteps(ANY_SIGNATURE, START, ReplayRun());
  }

  lemma FirstRows(db: Db)
    requires db == Confirm(EMPTY_DB, SignedEnvelope(PROPOSAL, "key", "sig")).0
    ensures db.requests == [] && db.decisions == [] && db.seen == map[]
  {}

  // An order paid three times

  const ORDER := ExecutionRow(1, "d1", "o1", 50, "INR", Created, 2)
  const RIGHT := Delivery(true, Some("p1"), Some("o1"), Some(50), "payment.captured")
  const WRONG := Delivery(true, Some("p2"), Some("o1"), Some(99), "payment.captured")
  const SILENT := Delivery(true, Some("p3"), Some("o1"), None, "payment.failed")

  function OrderRun(): seq<Step> {
    [ConfirmStep(PROPOSAL, "key", "sig"), RequestStep(REQUEST, 1, "r1", "d1"), ExecuteStep("m", "r1", 1, "o1", 2)]
  }

  function Pay(d: Delivery): seq<Step> {
    [LookupStep(0, d), SettleStep(0)]
  }

  lemma PayIsDelivery(s: System, d: Delivery)
    requires s.pending == map[]
    ensures Legal(ANY_SIGNATURE, s, Pay(d)) && Run(ANY_SIGNATURE, s, Pay(d)) == s.(db := Deliver(s.db, d).0)
  {
    hide Apply, Deliver;
    DeliveryIsTwoSteps(ANY_SIGNATURE, s, 0, d);
    FirstStep(ANY_SIGNATURE, s, Pay(d));
    FirstStep(ANY_SIGNATURE, Apply(ANY_SIGNATURE, s, Pay(d)[0]).0, Pay(d)[1..]);
    assert Pay(d)[1..][1..] == [];
  }

  lemma OrderRunOrders()
    ensures Legal(ANY_SIGNATURE, START, OrderRun())
    ensures var s := Run(ANY_SIGNATURE, START, OrderRun());
            s.pending == map[] && s.db.executions == [ORDER] && s.db.seen == map[]
  {
    hide HandleRequest, Execute, Confirm, Run, Legal, Replies;
    var db := Confirm(EMPTY_DB, SignedEnvelope(PROPOSAL, "key", "sig")).0;
    assert db.requests == [] && db.decisions == [] && db.seen == map[] by { FirstRows(db); }
    InstanceIsAllowed(db);
    AllowedRequestIsStored(ANY_SIGNATURE, db, REQUEST, 1, "r1", "d1");
    AllowedRequestIsOrdered(ANY_SIGNATURE, db, REQUEST, 1, "r1", "d1", 1, "o1", 2);
    ThreeSteps(ANY_SIGNATURE, START, OrderRun());
  }

  /** A payment of the instance's order under a new payment id settles it. */
  lemma OrderIsPaid(db: Db, status: Status, d: Delivery)
    requires DbInv(db) && db.executions == [ORDER.(status := status)]
    requires d.authentic && d.orderId == Some("o1") && !Missing(d.paymentId) && d.paymentId.value !in db.seen
    ensures var db' := Deliver(db, d).0;
            && DbInv(db') && db'.seen.Keys == db.seen.Keys + {d.paymentId.value}
            && db'.executions == [ORDER.(status := SettledStatus(ORDER, d.amount))]
  {
    hide EvidenceInv, Deliver, RecordPayment, HistoriesInv, BudgetInv, CartsInv, PaymentsInv, SoundLog;
    var e := db.executions[0];
    assert e in db.executions && FindByOrder(db.executions, "o1") == Some(e);
    OwnerIsGoodTarget(db, e);
    assert LookupOrder(db, d).Success?;
    DeliverySettles(db, d, 0);
    DeliverSafe(db, d);
    RecordedExactlyOnce(db, d);
  }

  /** A legal run that captures an order, overwrites it by another payment with another amount, and restores it by a
    * third that names none, although that one reports a failed payment.
    */
  lemma CaptureIsOverwritten()
    ensures var captured := OrderRun() + Pay(RIGHT);
            var overwritten := captured + Pay(WRONG);
            var restored := overwritten + Pay(SILENT);
            && Legal(ANY_SIGNATURE, START, restored)
            && Run(ANY_SIGNATURE, START, captured).db.executions == [ORDER.(status := Captured)]
            && Run(ANY_SIGNATURE, START, overwritten).db.executions == [ORDER.(status := AmountMismatch)]
            && Run(ANY_SIGNATURE, START, restored).db.executions == [ORDER.(status := Captured)]
  {
    hide DbInv, Deliver, Run, Legal, OrderRun, Pay, PendingInv;
    OrderRunOrders();
    StartSafe();
    RunSafe(ANY_SIGNATURE, START, OrderRun());
    var s := Run(ANY_SIGNATURE, START, OrderRun());
    assert s.db.executions == [ORDER.(status := Created)];
    var s1 := PaidNext(OrderRun(), s, Created, RIGHT);
    var s2 := PaidNext(OrderRun() + Pay(RIGHT), s1, Captured, WRONG);
    var s3 := PaidNext(OrderRun() + Pay(RIGHT) + Pay(WRONG), s2, AmountMismatch, SILENT);
  }

  lemma PaidNext(steps: seq<Step>, s: System, status: Status, d: Delivery) returns (s': System)
    requires Legal(ANY_SIGNATURE, START, steps) && s == Run(ANY_SIGNATURE, START, steps) && s.pending == map[]
    requires DbInv(s.db) && s.db.executions == [ORDER.(status := status)]
    requires d.authentic && d.orderId == Some("o1") && !Missing(d.paymentId) && d.paymentId.value !in s.db.seen
    ensures Legal(ANY_SIGNATURE, START, steps + Pay(d)) && s' == Run(ANY_SIGNATURE, START, steps + Pay(d))
    ensures s'.pending == map[] && DbInv(s'.db) && s'.db.seen.Keys == s.db.seen.Keys + {d.paymentId.value}
    ensures s'.db.executions == [ORDER.(status := SettledStatus(ORDER, d.amount))]
  {
    hide DbInv, Deliver, Run, Legal, Pay;
    OrderIsPaid(s.db, status, d);
    PayIsDelivery(s, d);
    RunOfConcat(ANY_SIGNATURE, START, steps, Pay(d));
    s' := Run(ANY_SIGNATURE, START, steps + Pay(d));
  }

  // A mandate between its two commits

  /** After the first commit of a confirmation the mandate is stored, but its evidence does not rebuild its rows. */
  lemma StoredWithoutEvidence()
    ensures var steps := [StoreMandate(PROPOSAL, "key", "sig")];
            var l := RunLate(ANY_SIGNATURE, LATE_START, steps).0;
            && LegalLate(ANY_SIGNATURE, LATE_START, steps)
            && l.waiting == map["m" := Stored] && "m" in l.s.db.auths
            && ReplayAll(Facts(GetChain(l.s.db.log, "m"))).view != ViewOf(l.s.db, "m")
  {
    var steps := [StoreMandate(PROPOSAL, "key", "sig")];
    assert steps[1..] == [];
    ConfirmingInSteps(ANY_SIGNATURE, steps, "m");
  }

  const FORGED := AgentRequest("m", "intruder", "any", PURCHASE, None)

  function OvertakenRun(): seq<LateStep> {
    [StoreMandate(PROPOSAL, "key", "sig"), ReadNewest("m"), Whole(RequestStep(FORGED, 1, "r1", "d1")),
     InsertSigning("m")]
  }

  lemma ForgedIsRejected(db: Db)
    requires "m" in db.auths && db.auths["m"].envelope == SignedEnvelope(PROPOSAL, "key", "sig")
    ensures HandleRequest(ANY_SIGNATURE, db, FORGED, 1, "r1", "d1")
         == (Record(db, "m", AgentRequestRejected, "agent-verifier", RejectionJson("intruder", AgentIdMismatch)),
             Unauthenticated(AgentIdMismatch))
  {}

  /** The rejection of a forged request, logged between the read and the insert of a confirmation, leaves a mandate
    * whose chain does not verify, now or after any continuation, although nobody altered a row.
    */
  lemma OvertakenConfirmation(more: seq<LateStep>)
    ensures LegalLate(ANY_SIGNATURE, LATE_START, OvertakenRun())
    ensures LegalLate(ANY_SIGNATURE, LATE_START, OvertakenRun() + more) ==>
              !Verifies(GetChain(RunLate(ANY_SIGNATURE, LATE_START, OvertakenRun() + more).0.s.db.log, "m"))
  {
    OvertakenRunOvertakes();
    if LegalLate(ANY_SIGNATURE, LATE_START, OvertakenRun() + more) {
      OvertakenForGood(ANY_SIGNATURE, OvertakenRun(), more, "m");
    }
  }

  lemma FirstLate(l: LateSystem, steps: seq<LateStep>)
    requires steps != []
    ensures var next := ApplyLate(ANY_SIGNATURE, l, steps[0]).0;
            && RunLate(ANY_SIGNATURE, l, steps).0 == RunLate(ANY_SIGNATURE, next, steps[1..]).0
            && (LegalLate(ANY_SIGNATURE, l, steps) <==>
                (steps[0].Whole? ==> Admissible(l.s, steps[0].step)) && LegalLate(ANY_SIGNATURE, next, steps[1..]))
  {
    hide ApplyLate, Admissible;
  }

  /** While a confirmation holds the hash of the empty chain, a rejection is logged. */
  lemma RejectionComesBetween(l: LateSystem)
    requires "m" in l.s.db.auths && l.s.db.auths["m"].envelope == SignedEnvelope(PROPOSAL, "key", "sig")
    requires l.s.db.log == EMPTY_LOG
    ensures var l' := ApplyLate(ANY_SIGNATURE, l, Whole(RequestStep(FORGED, 1, "r1", "d1"))).0;
            l'.waiting == l.waiting && l'.overtaken == l.overtaken && ChainLength(l', "m") == 1 && "m" in l'.s.db.auths
  {
    hide HandleRequest, Append;
    ForgedIsRejected(l.s.db);
    SelectOfAppend(EMPTY_LOG, "m",
                   Fact(AgentRequestRejected, "agent-verifier", RejectionJson("intruder", AgentIdMismatch)), "m");
  }

  lemma StoredAndRead()
    ensures var l := ApplyLate(ANY_SIGNATURE, LATE_START, OvertakenRun()[0]).0;
            var l' := ApplyLate(ANY_SIGNATURE, l, ReadNewest("m")).0;
            && l'.waiting == map["m" := Holding(Genesis, 0)] && l'.overtaken == {}
            && "m" in l'.s.db.auths && l'.s.db.auths["m"].envelope == SignedEnvelope(PROPOSAL, "key", "sig")
            && l'.s.db.log == EMPTY_LOG && l'.s.db.requests == [] && l'.s.db.decisions == []
  {}

  lemma OvertakenRunOvertakes()
    ensures LegalLate(ANY_SIGNATURE, LATE_START, OvertakenRun())
    ensures RunLate(ANY_SIGNATURE, LATE_START, OvertakenRun()).0.overtaken == {"m"}
  {
    hide HandleRequest, RunLate, LegalLate, ApplyLate, ChainLength;
    var steps := OvertakenRun();
    var l1 := ApplyLate(ANY_SIGNATURE, LATE_START, steps[0]).0;
    var l2 := ApplyLate(ANY_SIGNATURE, l1, steps[1]).0;
    var l3 := ApplyLate(ANY_SIGNATURE, l2, steps[2]).0;
    StoredAndRead();
    RejectionComesBetween(l2);
    InsertOvertakes(l3);
    FirstLate(LATE_START, steps);
    FirstLate(l1, steps[1..]);
    FirstLate(l2, steps[2..]);
    FirstLate(l3, steps[3..]);
    NothingLate(l3, steps[3]);
    assert steps[1..][1..] == steps[2..] && steps[2..][1..] == steps[3..] && steps[3..][1..] == [];
  }

  lemma InsertOvertakes(l: LateSystem)
    requires l.waiting == map["m" := Holding(Genesis, 0)] && ChainLength(l, "m") == 1 && "m" in l.s.db.auths
    ensures ApplyLate(ANY_SIGNATURE, l, InsertSigning("m")).0.overtaken == l.overtaken + {"m"}
  {}

  lemma NothingLate(l: LateSystem, step: LateStep)
    ensures var next := ApplyLate(ANY_SIGNATURE, l, step).0;
            LegalLate(ANY_SIGNATURE, next, []) && RunLate(ANY_SIGNATURE, next, []).0 == next
  {}
}

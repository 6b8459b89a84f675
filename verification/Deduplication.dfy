/** Repeated webhook deliveries change nothing. */
module Deduplication {
  import opened Canonical
  import opened Tables
  import opened Operations
  import opened Runs
  import opened Invariants
  import opened Reachability

  /** Deliveries one after the other. */
  function DeliverAll(db: Db, ds: seq<Delivery>): Db
    decreases |ds|
  {
    if ds == [] then db else DeliverAll(Deliver(db, ds[0]).0, ds[1..])
  }

  /** An authentic, well-formed delivery for an order of the database. */
  predicate Acceptable(db: Db, d: Delivery) {
    LookupOrder(db, d).Success?
  }

  /** The reference: of all deliveries keep the first acceptable one of each payment id not seen before. */
  function FirstDeliveries(db: Db, ds: seq<Delivery>, seen: set<Id>): seq<Delivery>
    decreases |ds|
  {
    if ds == [] then []
    else if Acceptable(db, ds[0]) && ds[0].paymentId.value !in seen then
      [ds[0]] + FirstDeliveries(db, ds[1..], seen + {ds[0].paymentId.value})
    else FirstDeliveries(db, ds[1..], seen)
  }

  /** The kept deliveries have distinct payment ids, none seen before, and are all acceptable. */
  lemma {:induction false} FirstDeliveriesAreDistinct(db: Db, ds: seq<Delivery>, seen: set<Id>)
    ensures var kept := FirstDeliveries(db, ds, seen);
            && (forall d <- kept :: Acceptable(db, d) && d.paymentId.value !in seen)
            && (forall i, j :: 0 <= i < j < |kept| ==> kept[i].paymentId != kept[j].paymentId)
    decreases |ds|
  {
    if ds != [] {
      if Acceptable(db, ds[0]) && ds[0].paymentId.value !in seen {
        FirstDeliveriesAreDistinct(db, ds[1..], seen + {ds[0].paymentId.value});
      } else {
        FirstDeliveriesAreDistinct(db, ds[1..], seen);
      }
    }
  }

  // One delivery

  /** A delivery is recorded exactly when it is acceptable and its payment id is new; otherwise nothing changes. */
  lemma RecordedExactlyOnce(db: Db, d: Delivery)
    requires TablesInv(db)
    ensures var (db', reply) := Deliver(db, d);
            && (reply == Recorded <==> Acceptable(db, d) && d.paymentId.value !in db.seen)
            && (reply == Recorded ==> db'.seen.Keys == db.seen.Keys + {d.paymentId.value})
            && (reply != Recorded ==> db' == db)
  {
    hide AuthsInv, HistoriesInv, BudgetInv, CartsInv, PaymentsInv;
    if Acceptable(db, d) {
      OwnerIsGoodTarget(db, FindByOrder(db.executions, d.orderId.value).value);
    }
  }

  /** The lookups of later deliveries do not depend on earlier ones. */
  ghost predicate SameOrders(db: Db, db': Db) {
    && db'.decisions == db.decisions
    && |db'.executions| == |db.executions|
    && forall k :: 0 <= k < |db.executions| ==>
         db'.executions[k] == db.executions[k].(status := db'.executions[k].status)
  }

  lemma DeliverKeepsOrders(db: Db, d: Delivery)
    ensures SameOrders(db, Deliver(db, d).0)
  {}

  lemma {:induction false} FindByOrderSame(rows: seq<ExecutionRow>, rows': seq<ExecutionRow>, order: Id)
    requires |rows'| == |rows| && forall k :: 0 <= k < |rows| ==> rows'[k] == rows[k].(status := rows'[k].status)
    ensures FindByOrder(rows', order).Some? <==> FindByOrder(rows, order).Some?
    ensures FindByOrder(rows, order).Some?
         ==> FindByOrder(rows', order).value.decisionId == FindByOrder(rows, order).value.decisionId
  {
    if rows != [] {
      FindByOrderSame(rows[..|rows| - 1], rows'[..|rows| - 1], order);
    }
  }

  lemma AcceptableSame(db: Db, db': Db, d: Delivery)
    requires SameOrders(db, db')
    ensures Acceptable(db', d) <==> Acceptable(db, d)
  {
    if d.orderId.Some? {
      FindByOrderSame(db.executions, db'.executions, d.orderId.value);
    }
  }

  lemma {:induction false} FirstDeliveriesSame(db: Db, db': Db, ds: seq<Delivery>, seen: set<Id>)
    requires SameOrders(db, db')
    ensures FirstDeliveries(db', ds, seen) == FirstDeliveries(db, ds, seen)
    decreases |ds|
  {
    if ds != [] {
      AcceptableSame(db, db', ds[0]);
      if Acceptable(db, ds[0]) && ds[0].paymentId.value !in seen {
        FirstDeliveriesSame(db, db', ds[1..], seen + {ds[0].paymentId.value});
      } else {
        FirstDeliveriesSame(db, db', ds[1..], seen);
      }
    }
  }

  // Many deliveries

  /** De-duplication: any sequence of deliveries, with arbitrary repeats and rubbish in between, ends in exactly the
    * state of its first acceptable deliveries alone.
    */
  lemma {:induction false} RepeatsChangeNothing(db: Db, ds: seq<Delivery>)
    requires DbInv(db)
    ensures DeliverAll(db, ds) == DeliverAll(db, FirstDeliveries(db, ds, db.seen.Keys))
    decreases |ds|
  {
    if ds != [] {
      var (next, reply) := Deliver(db, ds[0]);
      RecordedExactlyOnce(db, ds[0]);
      DeliverSafe(db, ds[0]);
      DeliverKeepsOrders(db, ds[0]);
      RepeatsChangeNothing(next, ds[1..]);
      FirstDeliveriesSame(db, next, ds[1..], next.seen.Keys);
      var rest := FirstDeliveries(db, ds[1..], next.seen.Keys);
      assert ([ds[0]] + rest)[1..] == rest;
    }
  }

  lemma DuplicateSettles(s: System, task: nat)
    requires PendingInv(s.db, s.pending) && task in s.pending && s.pending[task].Settling?
    requires s.pending[task].delivery.paymentId.Some? && s.pending[task].delivery.paymentId.value in s.db.seen
    ensures Settle(s, task) == (System(s.db, s.pending - {task}), DuplicateIgnored)
  {
    assert LocalInv(s.db, s.pending[task]);
  }

  lemma RunKeepsSeen(verify: Verifier, s: System, steps: seq<Step>)
    requires SystemInv(s) && Legal(verify, s, steps)
    ensures var s' := Run(verify, s, steps);
            PendingInv(s'.db, s'.pending) && forall id <- s.db.seen :: id in s'.db.seen
  {
    hide DbInv, PendingInv, Legal, Run;
    RunSafe(verify, s, steps);
  }

  /** In any interleaving, once a payment id is seen it stays seen, and settling a delivery of it, even one looked up
    * before, changes no table and no evidence.
    */
  lemma SeenPaymentsAreIgnored(verify: Verifier, s: System, steps: seq<Step>, task: nat)
    requires SystemInv(s) && Legal(verify, s, steps)
    requires var s' := Run(verify, s, steps);
             && task in s'.pending && s'.pending[task].Settling?
             && s'.pending[task].delivery.paymentId.Some?
             && s'.pending[task].delivery.paymentId.value in s.db.seen
    ensures var s' := Run(verify, s, steps);
            Apply(verify, s', SettleStep(task)) == (System(s'.db, s'.pending - {task}), DuplicateIgnored)
  {
    hide SystemInv, PendingInv, Legal, Settle;
    RunKeepsSeen(verify, s, steps);
    DuplicateSettles(Run(verify, s, steps), task);
  }
}

/** All rows of one authorization, with the ids that no event names, and what it takes to change them. */
module Footprint {
  import opened Wrappers
  import opened Canonical
  import opened EvidenceLog
  import opened Tables
  import opened Runs
  import opened Invariants
  import opened Replay
  import opened Reachability
  import opened Guarantees

  datatype Rows = Rows(
    auth: Option<AuthRow>,
    revocation: Option<Revocation>,
    requests: seq<RequestRow>,
    decisions: seq<DecisionRow>,
    executions: seq<ExecutionRow>,
    payments: seq<PaymentRow>)

  function Filter<T>(rows: seq<T>, keep: T -> bool): seq<T> {
    if rows == [] then []
    else
      var last := |rows| - 1;
      Filter(rows[..last], keep) + (if keep(rows[last]) then [rows[last]] else [])
  }

  function RequestsOf(requests: seq<RequestRow>, a: Id): seq<RequestRow> {
    Filter(requests, (row: RequestRow) => row.authorizationId == a)
  }

  function DecisionRowsOf(decisions: seq<DecisionRow>, a: Id): seq<DecisionRow> {
    Filter(decisions, (row: DecisionRow) => row.authorizationId == a)
  }

  function ExecutionsOf(executions: seq<ExecutionRow>, decisions: seq<DecisionRow>, a: Id): seq<ExecutionRow> {
    Filter(executions, (e: ExecutionRow) => Owned(decisions, e, a))
  }

  function PaymentRowsOf(
      payments: seq<PaymentRow>, executions: seq<ExecutionRow>, decisions: seq<DecisionRow>, a: Id): seq<PaymentRow>
  {
    Filter(payments, (p: PaymentRow) => PaidFor(p, executions, decisions, a).Some?)
  }

  function RowsOf(db: Db, a: Id): Rows {
    Rows(
      if a in db.auths then Some(db.auths[a]) else None,
      if a in db.revocations then Some(db.revocations[a]) else None,
      RequestsOf(db.requests, a),
      DecisionRowsOf(db.decisions, a),
      ExecutionsOf(db.executions, db.decisions, a),
      PaymentRowsOf(db.payments, db.executions, db.decisions, a))
  }

  // Filters

  lemma {:induction false} FilterConcat<T>(a: seq<T>, b: seq<T>, keep: T -> bool)
    ensures Filter(a + b, keep) == Filter(a, keep) + Filter(b, keep)
  {
    if b == [] {
      assert a + b == a;
    } else {
      var last := |b| - 1;
      FilterConcat(a, b[..last], keep);
      assert (a + b)[..|a| + last] == a + b[..last];
    }
  }

  lemma {:induction false} FilterNone<T>(rows: seq<T>, keep: T -> bool)
    requires forall row <- rows :: !keep(row)
    ensures Filter(rows, keep) == []
  {
    if rows != [] {
      FilterNone(rows[..|rows| - 1], keep);
    }
  }

  /** Two lists whose kept rows are the same at the same positions. */
  lemma {:induction false} FilterSame<T>(a: seq<T>, b: seq<T>, keepA: T -> bool, keepB: T -> bool)
    requires |a| == |b|
    requires forall k :: 0 <= k < |a| ==> (keepA(a[k]) <==> keepB(b[k])) && (keepA(a[k]) ==> a[k] == b[k])
    ensures Filter(a, keepA) == Filter(b, keepB)
  {
    if a != [] {
      FilterSame(a[..|a| - 1], b[..|b| - 1], keepA, keepB);
    }
  }

  /** What a projection of the same length shows: nothing was kept of what came after. */
  lemma FilterGrowth<T>(a: seq<T>, b: seq<T>, keep: T -> bool)
    requires a <= b && |Filter(a, keep)| == |Filter(b, keep)|
    ensures Filter(a, keep) == Filter(b, keep)
  {
    assert b == a + b[|a|..];
    FilterConcat(a, b[|a|..], keep);
  }

  // Table by table

  lemma {:induction false} NonceStored(requests: seq<RequestRow>, a: Id, nonce: string)
    ensures nonce in NoncesOf(requests, a) <==> exists row <- requests :: row.authorizationId == a && row.nonce == nonce
  {
    if requests != [] {
      var last := |requests| - 1;
      NonceStored(requests[..last], a, nonce);
      assert requests == requests[..last] + [requests[last]];
    }
  }

  /** Of two rows under the same nonce the second is not stored. */
  lemma NewNonceIsNew(rows: seq<RequestRow>, k: nat, a: Id)
    requires k < |rows| && DistinctRequests(rows) && rows[k].authorizationId == a
    ensures rows[k].nonce !in NoncesOf(rows[..k], a)
  {
    NonceStored(rows[..k], a, rows[k].nonce);
    assert forall i :: 0 <= i < k ==> rows[..k][i] == rows[i];
  }

  lemma SameRequests(rows: seq<RequestRow>, rows': seq<RequestRow>, a: Id)
    requires rows <= rows' && DistinctRequests(rows') && NoncesOf(rows, a) == NoncesOf(rows', a)
    ensures RequestsOf(rows', a) == RequestsOf(rows, a)
    decreases |rows'|
  {
    if |rows| < |rows'| {
      var last := |rows'| - 1;
      NoncesGrow(rows, rows'[..last], a);
      NoncesGrow(rows'[..last], rows', a);
      if rows'[last].authorizationId == a {
        NewNonceIsNew(rows', last, a);
      }
      SameRequests(rows, rows'[..last], a);
    } else {
      assert rows == rows';
    }
  }

  lemma {:induction false} NoncesGrow(rows: seq<RequestRow>, rows': seq<RequestRow>, a: Id)
    requires rows <= rows'
    ensures NoncesOf(rows, a).Keys <= NoncesOf(rows', a).Keys
  {
    if |rows| < |rows'| {
      NoncesGrow(rows, rows'[..|rows'| - 1], a);
    } else {
      assert rows == rows';
    }
  }

  lemma {:induction false} DecisionsCounted(rows: seq<DecisionRow>, a: Id)
    ensures |DecisionRowsOf(rows, a)| == |DecisionsOf(rows, a)|
  {
    if rows != [] {
      DecisionsCounted(rows[..|rows| - 1], a);
    }
  }

  lemma SameDecisions(rows: seq<DecisionRow>, rows': seq<DecisionRow>, a: Id)
    requires rows <= rows' && DecisionsOf(rows, a) == DecisionsOf(rows', a)
    ensures DecisionRowsOf(rows', a) == DecisionRowsOf(rows, a)
  {
    DecisionsCounted(rows, a);
    DecisionsCounted(rows', a);
    FilterGrowth(rows, rows', (row: DecisionRow) => row.authorizationId == a);
  }

  lemma {:induction false} OrderKnown(executions: seq<ExecutionRow>, decisions: seq<DecisionRow>, a: Id, order: Id)
    requires order in OrdersOf(executions, decisions, a)
    ensures exists e <- executions :: e.orderId == order
  {
    var last := |executions| - 1;
    if executions[last].orderId == order {
      assert executions[last] in executions;
    } else {
      OrderKnown(executions[..last], decisions, a, order);
    }
  }

  /** An order that was there keeps its owner, and its row while the owner's view stays. */
  lemma SameOldExecution(db: Db, db': Db, a: Id, k: nat)
    requires OrdersInv(db) && OrdersInv(db') && LinksInv(db') && Extends(db, db') && k < |db.executions|
    requires OrdersOf(db.executions, db.decisions, a) == OrdersOf(db'.executions, db'.decisions, a)
    ensures Owned(db.decisions, db.executions[k], a) <==> Owned(db'.decisions, db'.executions[k], a)
    ensures Owned(db.decisions, db.executions[k], a) ==> db.executions[k] == db'.executions[k]
  {
    OwnerKept(db, db', a, k);
    if Owned(db.decisions, db.executions[k], a) {
      assert Advanced(db.executions[k], db'.executions[k]);
      OrderEntry(db.executions, k, db.decisions, a);
      OrderEntry(db'.executions, k, db'.decisions, a);
    }
  }

  lemma OwnerKept(db: Db, db': Db, a: Id, k: nat)
    requires OrdersInv(db) && DistinctDecisions(db'.decisions) && Extends(db, db') && k < |db.executions|
    ensures db'.executions[k] == db.executions[k].(status := db'.executions[k].status)
    ensures Owned(db.decisions, db.executions[k], a) <==> Owned(db'.decisions, db'.executions[k], a)
  {
    assert Advanced(db.executions[k], db'.executions[k]);
    assert db.executions[k] in db.executions && OrderBacked(db, db.executions[k]);
    GetDecisionStable(db.decisions, db'.decisions, db.executions[k].decisionId);
  }

  lemma NewOrderIdIsNew(db: Db, db': Db, k: nat)
    requires OrdersInv(db') && Extends(db, db') && |db.executions| <= k < |db'.executions|
    ensures forall e <- db.executions :: e.orderId != db'.executions[k].orderId
  {
    forall i | 0 <= i < |db.executions|
      ensures db.executions[i].orderId != db'.executions[k].orderId
    {
      assert Advanced(db.executions[i], db'.executions[i]);
    }
  }

  lemma NoNewExecution(db: Db, db': Db, a: Id, k: nat)
    requires OrdersInv(db') && Extends(db, db') && |db.executions| <= k < |db'.executions|
    requires OrdersOf(db.executions, db.decisions, a).Keys == OrdersOf(db'.executions, db'.decisions, a).Keys
    ensures !Owned(db'.decisions, db'.executions[k], a)
  {
    NewOrderIdIsNew(db, db', k);
    if Owned(db'.decisions, db'.executions[k], a) {
      OrderEntry(db'.executions, k, db'.decisions, a);
      OrderKnown(db.executions, db.decisions, a, db'.executions[k].orderId);
    }
  }

  lemma SameExecutions(db: Db, db': Db, a: Id)
    requires OrdersInv(db) && OrdersInv(db') && LinksInv(db') && Extends(db, db')
    requires OrdersOf(db.executions, db.decisions, a) == OrdersOf(db'.executions, db'.decisions, a)
    ensures ExecutionsOf(db'.executions, db'.decisions, a) == ExecutionsOf(db.executions, db.decisions, a)
  {
    hide Owned, OrdersOf, OrdersInv, LinksInv, Advanced;
    var n := |db.executions|;
    var old', new' := db'.executions[..n], db'.executions[n..];
    var keep := (e: ExecutionRow) => Owned(db.decisions, e, a);
    var keep' := (e: ExecutionRow) => Owned(db'.decisions, e, a);
    forall k | 0 <= k < n
      ensures keep(db.executions[k]) <==> keep'(old'[k])
      ensures keep(db.executions[k]) ==> db.executions[k] == old'[k]
    {
      SameOldExecution(db, db', a, k);
    }
    FilterSame(db.executions, old', keep, keep');
    forall k | 0 <= k < |new'|
      ensures !keep'(new'[k])
    {
      NoNewExecution(db, db', a, n + k);
    }
    FilterNone(new', keep');
    assert db'.executions == old' + new';
    FilterConcat(old', new', keep');
  }

  lemma {:induction false} PaymentsCounted(
      rows: seq<PaymentRow>, executions: seq<ExecutionRow>, decisions: seq<DecisionRow>, a: Id)
    ensures |PaymentRowsOf(rows, executions, decisions, a)| == |PaymentsOf(rows, executions, decisions, a)|
  {
    hide PaidFor;
    if rows != [] {
      PaymentsCounted(rows[..|rows| - 1], executions, decisions, a);
    }
  }

  lemma PayerKept(db: Db, db': Db, a: Id, p: PaymentRow)
    requires OrdersInv(db) && DistinctDecisions(db'.decisions) && Extends(db, db') && PaymentLinked(db, p)
    ensures PaidFor(p, db'.executions, db'.decisions, a) == PaidFor(p, db.executions, db.decisions, a)
  {
    hide OrdersInv, Owned;
    var i := Locate(db.executions, p.executionId);
    OwnerKept(db, db', a, i);
    forall k | 0 <= k < |db.executions|
      ensures db.executions[k].executionId == db'.executions[k].executionId
    {
      OwnerKept(db, db', a, k);
    }
    LocateStable(db.executions, db'.executions, p.executionId);
  }

  lemma SamePayments(db: Db, db': Db, a: Id)
    requires OrdersInv(db) && PaymentsInv(db) && DistinctDecisions(db'.decisions) && Extends(db, db')
    requires PaymentsOf(db.payments, db.executions, db.decisions, a)
          == PaymentsOf(db'.payments, db'.executions, db'.decisions, a)
    ensures PaymentRowsOf(db'.payments, db'.executions, db'.decisions, a)
         == PaymentRowsOf(db.payments, db.executions, db.decisions, a)
  {
    hide PaidFor, OrdersInv;
    var keep := (p: PaymentRow) => PaidFor(p, db.executions, db.decisions, a).Some?;
    var keep' := (p: PaymentRow) => PaidFor(p, db'.executions, db'.decisions, a).Some?;
    forall k | 0 <= k < |db.payments|
      ensures keep(db.payments[k]) <==> keep'(db.payments[k])
    {
      assert db.payments[k] in db.payments && PaymentLinked(db, db.payments[k]);
      PayerKept(db, db', a, db.payments[k]);
    }
    FilterSame(db.payments, db.payments, keep, keep');
    PaymentsCounted(db.payments, db.executions, db.decisions, a);
    PaymentsCounted(db'.payments, db'.executions, db'.decisions, a);
    FilterGrowth(db.payments, db'.payments, keep');
  }

  // All tables together

  /** When nothing was undone, an unchanged view means unchanged rows, ids included. */
  lemma SameViewSameRows(db: Db, db': Db, a: Id)
    requires TablesInv(db) && TablesInv(db') && Extends(db, db') && ViewOf(db', a) == ViewOf(db, a)
    ensures RowsOf(db', a) == RowsOf(db, a)
  {
    hide RequestsOf, DecisionRowsOf, ExecutionsOf, PaymentRowsOf, NoncesOf, DecisionsOf, OrdersOf, PaymentsOf,
         OrdersInv, PaymentsInv, HistoriesInv, BudgetInv, CartsInv;
    SameRequests(db.requests, db'.requests, a);
    SameDecisions(db.decisions, db'.decisions, a);
    SameExecutions(db, db', a);
    SamePayments(db, db', a);
    assert a in db.auths ==> AuthKept(db.auths[a], db'.auths[a]);
  }

  /** If a run appends nothing to an authorization's chain, every row of it, in every table and with every id, is what
    * it was: nothing happens to a mandate without evidence.
    */
  lemma NoEvidenceNoChange(verify: Verifier, s: System, steps: seq<Step>, a: Id)
    requires SystemInv(s) && Legal(verify, s, steps)
    requires GetChain(Run(verify, s, steps).db.log, a) == GetChain(s.db.log, a)
    ensures RowsOf(Run(verify, s, steps).db, a) == RowsOf(s.db, a)
  {
    hide TablesInv, RowsOf, ViewOf, Extends, PendingInv;
    RunSafe(verify, s, steps);
    SameChainSameView(verify, s, steps, a);
    SameViewSameRows(s.db, Run(verify, s, steps).db, a);
  }
}

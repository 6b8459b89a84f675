/** What a mandate can cost over any run. */
module SpendingBound {
  import opened Canonical
  import opened Tables
  import opened Runs
  import opened Invariants
  import opened Replay
  import opened Reachability

  /** Orders of one authorization. */
  function CountOrders(executions: seq<ExecutionRow>, decisions: seq<DecisionRow>, a: Id): nat {
    if executions == [] then 0
    else
      var last := |executions| - 1;
      CountOrders(executions[..last], decisions, a) + (if Owned(decisions, executions[last], a) then 1 else 0)
  }

  /** What those orders charge together. */
  function Charged(executions: seq<ExecutionRow>, decisions: seq<DecisionRow>, a: Id): int {
    if executions == [] then 0
    else
      var last := |executions| - 1;
      Charged(executions[..last], decisions, a)
      + (if Owned(decisions, executions[last], a) then executions[last].amount else 0)
  }

  predicate UnorderedAllow(d: DecisionRow, executions: seq<ExecutionRow>, a: Id) {
    d.authorizationId == a && d.result.decision == Allow && FindByDecision(executions, d.decisionId).None?
  }

  /** ALLOW decisions of one authorization that have no order yet. */
  function CountUnordered(decisions: seq<DecisionRow>, executions: seq<ExecutionRow>, a: Id): nat {
    if decisions == [] then 0
    else
      var last := |decisions| - 1;
      CountUnordered(decisions[..last], executions, a)
      + (if UnorderedAllow(decisions[last], executions, a) then 1 else 0)
  }

  lemma {:induction false} AllUnorderedAtFirst(decisions: seq<DecisionRow>, a: Id)
    ensures CountUnordered(decisions, [], a) == CountAllow(decisions, a)
  {
    if decisions != [] {
      AllUnorderedAtFirst(decisions[..|decisions| - 1], a);
    }
  }

  /** An order for decision `e.decisionId` closes exactly that decision. */
  lemma {:induction false} OneMoreOrder(decisions: seq<DecisionRow>, executions: seq<ExecutionRow>, e: ExecutionRow,
                                        a: Id)
    requires DistinctDecisions(decisions)
    requires forall row <- executions :: row.decisionId != e.decisionId
    requires GetDecision(decisions, e.decisionId).Some?
         ==> GetDecision(decisions, e.decisionId).value.result.decision == Allow
    ensures CountUnordered(decisions, executions, a)
         == CountUnordered(decisions, executions + [e], a) + (if Owned(decisions, e, a) then 1 else 0)
  {
    if decisions != [] {
      var last := |decisions| - 1;
      var d, before := decisions[last], decisions[..last];
      assert (executions + [e])[..|executions|] == executions;
      if d.decisionId == e.decisionId {
        assert forall row <- before :: row.decisionId != e.decisionId;
        OneMoreOrder(before, executions, e, a);
      } else {
        OneMoreOrder(before, executions, e, a);
      }
    }
  }

  /** Conservation: every ALLOW has exactly one order or none. */
  lemma {:induction false} AllowsAreOrderedOrNot(decisions: seq<DecisionRow>, executions: seq<ExecutionRow>, a: Id)
    requires DistinctDecisions(decisions) && DistinctExecutions(executions)
    requires forall e <- executions ::
               var d := GetDecision(decisions, e.decisionId); d.Some? && d.value.result.decision == Allow
    ensures CountAllow(decisions, a) == CountOrders(executions, decisions, a) + CountUnordered(decisions, executions, a)
  {
    if executions == [] {
      AllUnorderedAtFirst(decisions, a);
    } else {
      var last := |executions| - 1;
      var before := executions[..last];
      AllowsAreOrderedOrNot(decisions, before, a);
      assert executions == before + [executions[last]];
      OneMoreOrder(decisions, before, executions[last], a);
    }
  }

  lemma {:induction false} ChargedAtMost(executions: seq<ExecutionRow>, decisions: seq<DecisionRow>, a: Id, cap: int)
    requires forall e <- executions :: Owned(decisions, e, a) ==> 0 <= e.amount <= cap
    ensures 0 <= Charged(executions, decisions, a) <= CountOrders(executions, decisions, a) * cap
  {
    if executions != [] {
      var last := |executions| - 1;
      ChargedAtMost(executions[..last], decisions, a, cap);
      assert executions[last] in executions;
    }
  }

  /** Every order charges an amount that its mandate's budget covers on its own. */
  lemma OrderWithinBudget(db: Db, a: Id, e: ExecutionRow)
    requires TablesInv(db) && a in db.auths && e in db.executions && Owned(db.decisions, e, a)
    ensures 0 <= e.amount <= db.auths[a].envelope.mandate.maxTotal
    ensures e.currency == db.auths[a].envelope.mandate.currency
  {
    assert OrderBacked(db, e);
    var d := GetDecision(db.decisions, e.decisionId).value;
    assert CartAllowed(db, d);
  }

  /** `used` splits into orders and unordered decisions. */
  lemma UsesAreOrderedOrNot(db: Db, a: Id)
    requires LinksInv(db) && OrdersInv(db)
    ensures CountAllow(db.decisions, a)
         == CountOrders(db.executions, db.decisions, a) + CountUnordered(db.decisions, db.executions, a)
  {
    forall e <- db.executions
      ensures var d := GetDecision(db.decisions, e.decisionId); d.Some? && d.value.result.decision == Allow
    {
      assert OrderBacked(db, e);
    }
    AllowsAreOrderedOrNot(db.decisions, db.executions, a);
  }

  lemma OrdersWithinBudget(db: Db, a: Id)
    requires TablesInv(db) && a in db.auths
    ensures 0 <= Charged(db.executions, db.decisions, a)
         <= CountOrders(db.executions, db.decisions, a) * db.auths[a].envelope.mandate.maxTotal
  {
    var cap := db.auths[a].envelope.mandate.maxTotal;
    forall e <- db.executions | Owned(db.decisions, e, a)
      ensures 0 <= e.amount <= cap
    {
      OrderWithinBudget(db, a, e);
    }
    ChargedAtMost(db.executions, db.decisions, a, cap);
  }

  lemma SpendingIsBounded(db: Db, a: Id)
    requires TablesInv(db) && a in db.auths
    ensures var used := db.auths[a].usedCount;
            var mandate := db.auths[a].envelope.mandate;
            && used == CountAllow(db.decisions, a)
            && used == CountOrders(db.executions, db.decisions, a) + CountUnordered(db.decisions, db.executions, a)
            && used <= (if mandate.maxTransactions > 0 then mandate.maxTransactions else 0)
            && 0 <= Charged(db.executions, db.decisions, a) <= used * mandate.maxTotal
  {
    var used, cap := db.auths[a].usedCount, db.auths[a].envelope.mandate.maxTotal;
    UsesAreOrderedOrNot(db, a);
    OrdersWithinBudget(db, a);
    if used > 0 {
      assert db.decisions[..|db.decisions|] == db.decisions;
      AllowNeedsBudget(db, |db.decisions|, a);
      MoreUsesCostMore(CountOrders(db.executions, db.decisions, a), used, cap);
    }
  }

  lemma MoreUsesCostMore(m: nat, n: nat, cap: int)
    requires m <= n && 0 <= cap
    ensures m * cap <= n * cap
  {}

  /** A mandate with an ALLOW has a non-negative budget. */
  lemma {:induction false} AllowNeedsBudget(db: Db, n: nat, a: Id)
    requires CartsInv(db) && a in db.auths && n <= |db.decisions| && CountAllow(db.decisions[..n], a) > 0
    ensures 0 <= db.auths[a].envelope.mandate.maxTotal
  {
    var d := db.decisions[n - 1];
    assert db.decisions[..n][..n - 1] == db.decisions[..n - 1];
    if d.authorizationId == a && d.result.decision == Allow {
      assert d in db.decisions && CartAllowed(db, d);
    } else {
      AllowNeedsBudget(db, n - 1, a);
    }
  }

  /** Spending bound over whole runs, for every mandate: uses are the ALLOW decisions and never exceed the
    * allowance, each is ordered once or not at all, and the orders together stay within uses times budget.
    */
  lemma RunSpendingIsBounded(verify: Verifier, steps: seq<Step>, a: Id)
    requires Legal(verify, START, steps) && a in Run(verify, START, steps).db.auths
    ensures var db := Run(verify, START, steps).db;
            var used := db.auths[a].usedCount;
            var mandate := db.auths[a].envelope.mandate;
            && used == CountAllow(db.decisions, a)
            && used == CountOrders(db.executions, db.decisions, a) + CountUnordered(db.decisions, db.executions, a)
            && used <= (if mandate.maxTransactions > 0 then mandate.maxTransactions else 0)
            && 0 <= Charged(db.executions, db.decisions, a) <= used * mandate.maxTotal
  {
    StartSafe();
    RunSafe(verify, START, steps);
    SpendingIsBounded(Run(verify, START, steps).db, a);
  }
}

/** Repeated sweeps drain a backlog oldest first, a batch at a time. */
module Draining {
  import opened Tables
  import opened Operations
  import opened Runs
  import opened Replay
  import opened Invariants
  import opened Preservation
  import opened Reachability

  // The candidate order

  /** Strictly oldest first: by creation time, and by id among equals. */
  ghost predicate Aged(rows: seq<ExecutionRow>) {
    forall i, j :: 0 <= i < j < |rows| ==>
      rows[i].createdAt < rows[j].createdAt
      || (rows[i].createdAt == rows[j].createdAt && rows[i].executionId < rows[j].executionId)
  }

  lemma {:induction false} InsertKeepsAged(row: ExecutionRow, sorted: seq<ExecutionRow>)
    requires Aged(sorted) && forall e <- sorted :: e.executionId != row.executionId
    ensures Aged(InsertByAge(row, sorted))
  {
    if sorted != [] && !Older(row, sorted[0]) {
      InsertKeepsAged(row, sorted[1..]);
      InsertByAgeContent(row, sorted[1..]);
      var rest := InsertByAge(row, sorted[1..]);
      forall j | 0 <= j < |rest|
        ensures Older(sorted[0], rest[j])
      {
        assert rest[j] in rest;
        assert sorted[0] in sorted;
      }
    }
  }

  ghost predicate DistinctIds(rows: seq<ExecutionRow>) {
    forall i, j :: 0 <= i < j < |rows| ==> rows[i].executionId != rows[j].executionId
  }

  lemma {:induction false} ByAgeIsAged(rows: seq<ExecutionRow>)
    requires DistinctIds(rows)
    ensures Aged(ByAge(rows))
  {
    if rows != [] {
      var last := |rows| - 1;
      ByAgeIsAged(rows[..last]);
      ByAgeContent(rows[..last]);
      InsertKeepsAged(rows[last], ByAge(rows[..last]));
    }
  }

  lemma {:induction false} EligibleIsDistinct(db: Db, rows: seq<ExecutionRow>, cutoff: int)
    requires DistinctIds(rows)
    ensures DistinctIds(Eligible(db, rows, cutoff))
  {
    if rows != [] {
      var last := |rows| - 1;
      var before := Eligible(db, rows[..last], cutoff);
      EligibleIsDistinct(db, rows[..last], cutoff);
      EligibleSound(db, rows[..last], cutoff);
      forall i | 0 <= i < |before|
        ensures before[i].executionId != rows[last].executionId
      {
        assert before[i] in rows[..last];
      }
    }
  }

  /** An order by age is determined by its content. */
  lemma {:induction false} AgedIsUnique(a: seq<ExecutionRow>, b: seq<ExecutionRow>)
    requires Aged(a) && Aged(b) && forall e :: e in a <==> e in b
    ensures a == b
  {
    assert b != [] ==> b[0] in b;
    if a == [] {
    } else {
      assert a[0] in b;
      assert b[0] in a;
      assert a[0] == b[0];
      forall e
        ensures e in a[1..] <==> e in b[1..]
      {
        assert e in a <==> e == a[0] || e in a[1..];
        assert e in b <==> e == b[0] || e in b[1..];
        HeadNotInTail(a);
        HeadNotInTail(b);
      }
      AgedIsUnique(a[1..], b[1..]);
    }
  }

  lemma HeadNotInTail(rows: seq<ExecutionRow>)
    requires Aged(rows) && rows != []
    ensures rows[0] !in rows[1..]
  {}

  /** The backlog: everything a sweep with this cutoff could flag, oldest first. */
  function Backlog(db: Db, cutoff: int): seq<ExecutionRow> {
    ByAge(Eligible(db, db.executions, cutoff))
  }

  lemma BacklogSound(db: Db, cutoff: int)
    requires OrdersInv(db)
    ensures Aged(Backlog(db, cutoff))
    ensures forall e :: e in Backlog(db, cutoff) <==> e in db.executions && StaleCandidate(db, e, cutoff)
  {
    EligibleIsDistinct(db, db.executions, cutoff);
    ByAgeIsAged(Eligible(db, db.executions, cutoff));
    ByAgeContent(Eligible(db, db.executions, cutoff));
    EligibleSound(db, db.executions, cutoff);
  }

  // One sweep

  /** The executions with the given rows flagged. */
  function Marked(executions: seq<ExecutionRow>, rows: seq<ExecutionRow>): seq<ExecutionRow> {
    seq(|executions|, k requires 0 <= k < |executions| =>
      if executions[k] in rows then executions[k].(status := Stale) else executions[k])
  }

  /** Only order statuses and the log differ. */
  ghost predicate SameRest(db: Db, db': Db) {
    db' == db.(executions := db'.executions, log := db'.log)
  }

  lemma MarkOneMore(executions: seq<ExecutionRow>, i: nat, rows: seq<ExecutionRow>)
    requires DistinctExecutions(executions) && i < |executions| && rows != [] && rows[0] == executions[i]
    requires forall e <- rows :: e in executions && e.status == Created
    requires rows[0] !in rows[1..]
    ensures Marked(SetStatus(executions, i, Stale), rows[1..]) == Marked(executions, rows)
  {
    var once := SetStatus(executions, i, Stale);
    assert rows == [rows[0]] + rows[1..];
    forall k | 0 <= k < |executions|
      ensures Marked(once, rows[1..])[k] == Marked(executions, rows)[k]
    {
      if k == i {
        assert once[i] !in rows[1..];
      } else {
        assert executions[k] != executions[i];
      }
    }
  }

  /** What flagging needs of the tables: keys are distinct and every order leads to its authorization. */
  ghost predicate Linked(db: Db) {
    LinksInv(db) && OrdersInv(db)
  }

  lemma FlagHead(db: Db, e: ExecutionRow, job: SweepJob)
    requires Linked(db) && e in db.executions && StaleCandidate(db, e, job.cutoff)
    ensures var i := Locate(db.executions, e.executionId);
            var target := Target(e.executionId, GetDecision(db.decisions, e.decisionId).value.authorizationId);
            var (db', reply) := FlagOne(db, target, job);
            && i < |db.executions| && db.executions[i] == e && reply == Flagged
            && SameRest(db, db') && db'.executions == SetStatus(db.executions, i, Stale)
  {
    OwnerIsGoodTarget(db, e);
  }

  lemma FlagKeepsLinked(db: Db, db': Db, i: nat)
    requires Linked(db) && i < |db.executions| && SameRest(db, db')
            && db'.executions == SetStatus(db.executions, i, Stale)
    ensures Linked(db')
  {
    var changed := db.(executions := SetStatus(db.executions, i, Stale));
    SetStatusKeepsOrders(db, i, Stale);
    assert forall d <- db.decisions :: DecisionLinked(db, d) && DecisionLinked(db', d);
    assert forall e <- db'.executions :: OrderBacked(changed, e) && OrderBacked(db', e);
  }

  /** What is left to do after the first of a list of candidates has been flagged. */
  ghost predicate FirstFlagged(db: Db, db': Db, rows: seq<ExecutionRow>, cutoff: int)
    requires rows != []
  {
    && Linked(db') && SameRest(db, db')
    && (forall e <- rows[1..] :: e in db'.executions && StaleCandidate(db', e, cutoff))
    && Marked(db'.executions, rows[1..]) == Marked(db.executions, rows)
  }

  lemma FlagFirst(db: Db, rows: seq<ExecutionRow>, job: SweepJob, flagged: nat) returns (db': Db)
    requires Linked(db) && Aged(rows) && rows != []
    requires forall e <- rows :: e in db.executions && StaleCandidate(db, e, job.cutoff)
    ensures FirstFlagged(db, db', rows, job.cutoff)
    ensures FlagAll(db, ToTargets(db, rows), job, flagged) == FlagAll(db', ToTargets(db', rows[1..]), job, flagged + 1)
  {
    var e := rows[0];
    assert e in rows;
    var i := Locate(db.executions, e.executionId);
    var target := Target(e.executionId, GetDecision(db.decisions, e.decisionId).value.authorizationId);
    db' := FlagOne(db, target, job).0;
    FlagHead(db, e, job);
    FlagAllHead(db, rows, target, job, flagged);
    HeadNotInTail(rows);
    FirstFlagDone(db, db', i, rows, job.cutoff);
  }

  lemma FirstFlagDone(db: Db, db': Db, i: nat, rows: seq<ExecutionRow>, cutoff: int)
    requires Linked(db) && SameRest(db, db')
    requires i < |db.executions| && db'.executions == SetStatus(db.executions, i, Stale)
    requires rows != [] && rows[0] == db.executions[i] && rows[0] !in rows[1..]
    requires forall e <- rows :: e in db.executions && StaleCandidate(db, e, cutoff)
    ensures FirstFlagged(db, db', rows, cutoff)
  {
    assert Linked(db') by { FlagKeepsLinked(db, db', i); }
    StillCandidates(db, db', i, rows, cutoff);
    MarkOneMore(db.executions, i, rows);
  }

  lemma NothingMarked(executions: seq<ExecutionRow>)
    ensures Marked(executions, []) == executions
  {}

  lemma AgedTail(rows: seq<ExecutionRow>)
    requires Aged(rows) && rows != []
    ensures Aged(rows[1..])
  {}

  /** Flagging a list of unpaid, old enough orders flags exactly those. */
  lemma {:induction false} FlagAllMarks(db: Db, rows: seq<ExecutionRow>, job: SweepJob, flagged: nat)
    requires Linked(db) && Aged(rows)
    requires forall e <- rows :: e in db.executions && StaleCandidate(db, e, job.cutoff)
    ensures var (db', reply) := FlagAll(db, ToTargets(db, rows), job, flagged);
            && Linked(db') && SameRest(db, db')
            && db'.executions == Marked(db.executions, rows)
            && reply == SweepDone(flagged + |rows|)
    decreases |rows|
  {
    if rows == [] {
      hide Linked, Marked;
      NothingMarked(db.executions);
    } else {
      hide FlagAll, ToTargets, Linked, Marked, Aged, StaleCandidate;
      var next := FlagFirst(db, rows, job, flagged);
      AgedTail(rows);
      FlagAllMarks(next, rows[1..], job, flagged + 1);
    }
  }

  /** The loop's first iteration, when it flags. */
  lemma FlagAllHead(db: Db, rows: seq<ExecutionRow>, target: Target, job: SweepJob, flagged: nat)
    requires rows != [] && GetDecision(db.decisions, rows[0].decisionId).Some?
    requires target == Target(rows[0].executionId, GetDecision(db.decisions, rows[0].decisionId).value.authorizationId)
    requires FlagOne(db, target, job).1 == Flagged
    ensures var db1 := FlagOne(db, target, job).0;
            FlagAll(db, ToTargets(db, rows), job, flagged) == FlagAll(db1, ToTargets(db1, rows[1..]), job, flagged + 1)
  {
    var rest := ToTargets(db, rows[1..]);
    ToTargetsSame(db, FlagOne(db, target, job).0, rows[1..]);
    assert ToTargets(db, rows) == [target] + rest && ([target] + rest)[1..] == rest;
  }

  lemma {:induction false} ToTargetsSame(db: Db, db': Db, rows: seq<ExecutionRow>)
    requires db'.decisions == db.decisions
    ensures ToTargets(db', rows) == ToTargets(db, rows)
  {
    if rows != [] {
      ToTargetsSame(db, db', rows[1..]);
    }
  }

  lemma StillCandidates(db: Db, db': Db, i: nat, rows: seq<ExecutionRow>, cutoff: int)
    requires SameRest(db, db') && i < |db.executions| && db'.executions == SetStatus(db.executions, i, Stale)
    requires rows != [] && rows[0] == db.executions[i] && rows[0] !in rows[1..]
    requires forall e <- rows :: e in db.executions && StaleCandidate(db, e, cutoff)
    ensures forall e <- rows[1..] :: e in db'.executions && StaleCandidate(db', e, cutoff)
  {
    forall e <- rows[1..]
      ensures e in db'.executions && StaleCandidate(db', e, cutoff)
    {
      assert e in rows;
      var k :| 0 <= k < |db.executions| && db.executions[k] == e;
      assert db'.executions[k] == e;
    }
  }

  lemma TakeAged(rows: seq<ExecutionRow>, n: nat)
    requires Aged(rows)
    ensures Aged(Take(rows, n)) && Aged(Drop(rows, n))
    ensures forall e <- Take(rows, n) :: e in rows
    ensures forall e :: e in rows <==> e in Take(rows, n) || e in Drop(rows, n)
    ensures forall e <- Take(rows, n) :: e !in Drop(rows, n)
  {
    if n < |rows| {
      assert rows == rows[..n] + rows[n..];
    }
  }

  function Drop<T>(rows: seq<T>, n: nat): seq<T> {
    if |rows| <= n then [] else rows[n..]
  }

  /** From `db` to `db'` exactly the oldest min(n, backlog) orders were flagged; the rest is still the backlog. */
  ghost predicate Drained(db: Db, cutoff: int, n: nat, db': Db, total: nat) {
    var backlog := Backlog(db, cutoff);
    && Linked(db')
    && db'.executions == Marked(db.executions, Take(backlog, n))
    && total == |Take(backlog, n)|
    && Backlog(db', cutoff) == Drop(backlog, n)
  }

  /** One sweep flags exactly the oldest `batch` of the backlog, reports how many, and leaves the rest
    * as the backlog.
    */
  lemma SweepTakesOldest(db: Db, now: int, timeoutSeconds: int, batch: int)
    requires Linked(db) && timeoutSeconds > 0 && batch > 0
    ensures var cutoff := now - timeoutSeconds;
            var (db', reply) := Sweep(db, now, timeoutSeconds, batch);
            SameRest(db, db') && reply.SweepDone? && Drained(db, cutoff, batch, db', reply.flagged)
  {
    hide FlagAll, ByAge, Eligible, Marked, Take, Drop, ToTargets, Aged, StaleCandidate;
    var cutoff := now - timeoutSeconds;
    var backlog := Backlog(db, cutoff);
    var db' := Sweep(db, now, timeoutSeconds, batch).0;
    BacklogSound(db, cutoff);
    TakeAged(backlog, batch);
    FlagAllMarks(db, Take(backlog, batch), SweepJob(cutoff, now, timeoutSeconds), 0);
    BacklogAfter(db, db', cutoff, Take(backlog, batch), Drop(backlog, batch));
  }

  lemma BacklogAfter(db: Db, db': Db, cutoff: int, taken: seq<ExecutionRow>, rest: seq<ExecutionRow>)
    requires OrdersInv(db) && OrdersInv(db') && SameRest(db, db') && db'.executions == Marked(db.executions, taken)
    requires Aged(rest) && forall e :: e in Backlog(db, cutoff) <==> e in taken || e in rest
    requires forall e <- taken :: e !in rest
    ensures Backlog(db', cutoff) == rest
  {
    BacklogSound(db, cutoff);
    BacklogSound(db', cutoff);
    forall e
      ensures e in Backlog(db', cutoff) <==> e in rest
    {
      if e in rest {
        var k :| 0 <= k < |db.executions| && db.executions[k] == e;
        assert db'.executions[k] == e;
      }
      if e in db'.executions && StaleCandidate(db', e, cutoff) {
        var k :| 0 <= k < |db'.executions| && db'.executions[k] == e;
        assert db.executions[k] == e && e in db.executions;
      }
    }
    AgedIsUnique(Backlog(db', cutoff), rest);
  }

  // Many sweeps

  /** `k` sweeps in a row with nothing in between: the tables afterwards and the total flagged. */
  function Sweeps(db: Db, now: int, timeoutSeconds: int, batch: int, k: nat): (Db, nat)
    decreases k
  {
    if k == 0 then (db, 0)
    else
      var (next, reply) := Sweep(db, now, timeoutSeconds, batch);
      var (end, total) := Sweeps(next, now, timeoutSeconds, batch, k - 1);
      (end, total + (if reply.SweepDone? then reply.flagged else 0))
  }

  lemma MarkedTwice(executions: seq<ExecutionRow>, first: seq<ExecutionRow>, second: seq<ExecutionRow>)
    requires forall e <- first + second :: e.status == Created
    ensures Marked(Marked(executions, first), second) == Marked(executions, first + second)
  {
    forall k | 0 <= k < |executions|
      ensures Marked(Marked(executions, first), second)[k] == Marked(executions, first + second)[k]
    {
      if executions[k] in first {
        assert executions[k] in first + second;
        assert Marked(executions, first)[k].status == Stale;
        assert forall e <- second :: e in first + second;
      }
    }
  }

  lemma TakeTwice<T>(rows: seq<T>, m: nat, n: nat)
    ensures Take(rows, m) + Take(Drop(rows, m), n) == Take(rows, m + n)
    ensures Drop(Drop(rows, m), n) == Drop(rows, m + n)
  {}

  /** Marking a first batch and then a batch of what is left marks both batches. */
  lemma MarkNextBatch(executions: seq<ExecutionRow>, backlog: seq<ExecutionRow>, m: nat, n: nat)
    requires forall e <- backlog :: e.status == Created
    ensures Marked(Marked(executions, Take(backlog, m)), Take(Drop(backlog, m), n))
         == Marked(executions, Take(backlog, m + n))
    ensures |Take(backlog, m)| + |Take(Drop(backlog, m), n)| == |Take(backlog, m + n)|
  {
    TakeTwice(backlog, m, n);
    assert forall e <- Take(backlog, m + n) :: e in backlog;
    MarkedTwice(executions, Take(backlog, m), Take(Drop(backlog, m), n));
  }

  lemma DrainedTransitive(db: Db, cutoff: int, m: nat, mid: Db, first: nat, n: nat, end: Db, second: nat)
    requires Linked(db) && Drained(db, cutoff, m, mid, first) && Drained(mid, cutoff, n, end, second)
    ensures Drained(db, cutoff, m + n, end, second + first)
  {
    var backlog := Backlog(db, cutoff);
    assert forall e <- backlog :: e.status == Created by { BacklogSound(db, cutoff); }
    TakeTwice(backlog, m, n);
    MarkNextBatch(db.executions, backlog, m, n);
  }

  lemma NothingDrained(db: Db, cutoff: int)
    requires Linked(db)
    ensures Drained(db, cutoff, 0, db, 0)
  {
    assert Marked(db.executions, []) == db.executions;
  }

  /** `k` batches, added up. */
  function Total(k: nat, batch: nat): nat {
    if k == 0 then 0 else batch + Total(k - 1, batch)
  }

  lemma {:induction false} TotalIsProduct(k: nat, batch: nat)
    ensures Total(k, batch) == k * batch
  {
    if k > 0 {
      TotalIsProduct(k - 1, batch);
    }
  }

  lemma {:induction false} SweepsDrain(db: Db, now: int, timeoutSeconds: int, batch: nat, k: nat)
    requires Linked(db) && timeoutSeconds > 0 && batch > 0
    ensures Drained(db, now - timeoutSeconds, Total(k, batch), Sweeps(db, now, timeoutSeconds, batch, k).0,
                    Sweeps(db, now, timeoutSeconds, batch, k).1)
    decreases k
  {
    hide Sweep, Backlog, Marked, Take, Drop, Linked;
    var cutoff := now - timeoutSeconds;
    if k == 0 {
      NothingDrained(db, cutoff);
    } else {
      var (next, reply) := Sweep(db, now, timeoutSeconds, batch);
      var (end, later) := Sweeps(next, now, timeoutSeconds, batch, k - 1);
      SweepTakesOldest(db, now, timeoutSeconds, batch);
      SweepsDrain(next, now, timeoutSeconds, batch, k - 1);
      DrainedTransitive(db, cutoff, batch, next, reply.flagged, Total(k - 1, batch), end, later);
    }
  }

  /** Batched draining: k sweeps with the same clock flag exactly the oldest min(k * batch, n) of the n orders in the
    * backlog and nothing else, and what they leave is the rest of the backlog.
    */
  lemma SweepsDrainOldestFirst(db: Db, now: int, timeoutSeconds: int, batch: int, k: nat)
    requires Linked(db) && timeoutSeconds > 0 && batch > 0
    ensures 0 <= k * batch
    ensures var (db', total) := Sweeps(db, now, timeoutSeconds, batch, k);
            Drained(db, now - timeoutSeconds, k * batch, db', total)
  {
    hide Sweeps, Drained, Linked;
    TotalIsProduct(k, batch);
    SweepsDrain(db, now, timeoutSeconds, batch, k);
  }

  /** A sweep flags nothing exactly when no order is left to flag. */
  lemma EmptySweepMeansDrained(db: Db, now: int, timeoutSeconds: int, batch: int)
    requires Linked(db) && timeoutSeconds > 0 && batch > 0
    ensures Sweep(db, now, timeoutSeconds, batch).1 == SweepDone(0)
       <==> forall e <- db.executions :: !StaleCandidate(db, e, now - timeoutSeconds)
  {
    hide Sweep, StaleCandidate;
    SweepTakesOldest(db, now, timeoutSeconds, batch);
    EmptyBacklog(db, now - timeoutSeconds);
    assert |Take(Backlog(db, now - timeoutSeconds), batch)| == 0 <==> Backlog(db, now - timeoutSeconds) == [];
  }

  lemma EmptyBacklog(db: Db, cutoff: int)
    requires OrdersInv(db)
    ensures Backlog(db, cutoff) == [] <==> forall e <- db.executions :: !StaleCandidate(db, e, cutoff)
  {
    BacklogSound(db, cutoff);
    var backlog := Backlog(db, cutoff);
    assert backlog != [] ==> backlog[0] in backlog;
  }

  // The same over statuses and times alone

  /** Everything that is CREATED and old enough, of whatever mandate. */
  ghost predicate IsBacklog(db: Db, cutoff: int, rows: seq<ExecutionRow>) {
    Aged(rows) && forall e :: e in rows <==> e in db.executions && e.status == Created && e.createdAt <= cutoff
  }

  /** In tables that satisfy the invariants, eligible means CREATED and old enough, and nothing else. */
  lemma BacklogExactly(db: Db, cutoff: int)
    requires TablesInv(db)
    ensures IsBacklog(db, cutoff, Backlog(db, cutoff))
  {
    hide Backlog, Aged, LastPayment, HasPayment, AuthsInv, HistoriesInv, BudgetInv, CartsInv;
    BacklogSound(db, cutoff);
    forall e <- db.executions
      ensures StaleCandidate(db, e, cutoff) <==> e.status == Created && e.createdAt <= cutoff
    {
      assert StatusMatches(db.payments, e) && OrderBacked(db, e);
      HasPaymentIsLast(db.payments, e.executionId);
    }
  }

  /** The tables with the first `n` rows of the backlog flagged and nothing else changed. */
  ghost predicate FlaggedFirst(db: Db, db': Db, backlog: seq<ExecutionRow>, n: nat)
    requires n <= |backlog|
  {
    && db' == db.(executions := db'.executions, log := db'.log)
    && |db'.executions| == |db.executions|
    && forall k :: 0 <= k < |db.executions| ==>
         db'.executions[k]
         == if db.executions[k] in backlog[..n] then db.executions[k].(status := Stale) else db.executions[k]
  }

  lemma MarkedIsFlaggedFirst(db: Db, db': Db, backlog: seq<ExecutionRow>, n: nat)
    requires SameRest(db, db') && db'.executions == Marked(db.executions, Take(backlog, n))
    ensures FlaggedFirst(db, db', backlog, if n < |backlog| then n else |backlog|)
  {
    assert Take(backlog, n) == backlog[..if n < |backlog| then n else |backlog|];
  }

  /** A sweep in full: refused settings change nothing; otherwise exactly the oldest `batch` of the CREATED and old
    * enough orders are flagged, whatever their mandates, and the answer says how many.
    */
  lemma SweepExactly(db: Db, now: int, timeoutSeconds: int, batch: int) returns (backlog: seq<ExecutionRow>)
    requires TablesInv(db)
    ensures IsBacklog(db, now - timeoutSeconds, backlog)
    ensures var (db', reply) := Sweep(db, now, timeoutSeconds, batch);
            if timeoutSeconds <= 0 || batch <= 0 then db' == db && reply == InvalidSettings
            else
              var n := if batch < |backlog| then batch else |backlog|;
              reply == SweepDone(n) && FlaggedFirst(db, db', backlog, n)
  {
    hide Backlog, IsBacklog, FlaggedFirst, Marked, AuthsInv, LinksInv, HistoriesInv, BudgetInv, CartsInv, OrdersInv,
         PaymentsInv;
    backlog := Backlog(db, now - timeoutSeconds);
    BacklogExactly(db, now - timeoutSeconds);
    if timeoutSeconds > 0 && batch > 0 {
      hide Sweep;
      SweepTakesOldest(db, now, timeoutSeconds, batch);
      MarkedIsFlaggedFirst(db, Sweep(db, now, timeoutSeconds, batch).0, backlog, batch);
    }
  }

  lemma {:induction false} SweepsSameRest(db: Db, now: int, timeoutSeconds: int, batch: int, k: nat)
    requires Linked(db) && timeoutSeconds > 0 && batch > 0
    ensures SameRest(db, Sweeps(db, now, timeoutSeconds, batch, k).0)
    decreases k
  {
    hide Sweep, Linked, Backlog, Marked, Take, Drop;
    if k > 0 {
      SweepTakesOldest(db, now, timeoutSeconds, batch);
      SweepsSameRest(Sweep(db, now, timeoutSeconds, batch).0, now, timeoutSeconds, batch, k - 1);
    }
  }

  /** Batched draining: k sweeps with the same clock flag exactly the oldest min(k * batch, n) of the n orders that are
    * CREATED and old enough, and nothing else.
    */
  lemma SweepsFlagTheOldest(db: Db, now: int, timeoutSeconds: int, batch: int, k: nat)
      returns (backlog: seq<ExecutionRow>)
    requires TablesInv(db) && timeoutSeconds > 0 && batch > 0
    ensures IsBacklog(db, now - timeoutSeconds, backlog) && 0 <= k * batch
    ensures var (db', total) := Sweeps(db, now, timeoutSeconds, batch, k);
            var n := if k * batch < |backlog| then k * batch else |backlog|;
            total == n && FlaggedFirst(db, db', backlog, n)
  {
    hide Backlog, IsBacklog, FlaggedFirst, Marked, Sweeps, AuthsInv, LinksInv, HistoriesInv, BudgetInv, CartsInv,
         OrdersInv, PaymentsInv;
    backlog := Backlog(db, now - timeoutSeconds);
    BacklogExactly(db, now - timeoutSeconds);
    SweepsDrainOldestFirst(db, now, timeoutSeconds, batch, k);
    SweepsSameRest(db, now, timeoutSeconds, batch, k);
    MarkedIsFlaggedFirst(db, Sweeps(db, now, timeoutSeconds, batch, k).0, backlog, k * batch);
  }

  // The unlocked snapshot

  /** What the snapshot of a sweep leaves pending: the settings, and the oldest `batch` of the backlog with their
    * owners.
    */
  lemma SnapshotExactly(s: System, task: nat, now: int, timeoutSeconds: int, batch: int)
      returns (backlog: seq<ExecutionRow>)
    requires TablesInv(s.db)
    ensures IsBacklog(s.db, now - timeoutSeconds, backlog)
    ensures var (s', reply) := SelectCandidates(s, task, now, timeoutSeconds, batch);
            if timeoutSeconds <= 0 || batch <= 0 then s' == s && reply == InvalidSettings
            else
              var n := if batch < |backlog| then batch else |backlog|;
              && reply == Selected(n) && s'.db == s.db && task in s'.pending && s'.pending[task].Sweeping?
              && s'.pending == s.pending[task := s'.pending[task]]
              && var Sweeping(job, rest, flagged) := s'.pending[task];
                 && job == SweepJob(now - timeoutSeconds, now, timeoutSeconds) && flagged == 0 && |rest| == n
                 && forall k :: 0 <= k < n ==>
                      && rest[k].executionId == backlog[k].executionId
                      && Owned(s.db.decisions, backlog[k], rest[k].authorizationId)
  {
    hide Backlog, AuthsInv, HistoriesInv, BudgetInv, CartsInv, PaymentsInv;
    backlog := Backlog(s.db, now - timeoutSeconds);
    BacklogExactly(s.db, now - timeoutSeconds);
    if timeoutSeconds > 0 && batch > 0 {
      var n := if batch < |backlog| then batch else |backlog|;
      assert Backlog(s.db, now - timeoutSeconds) == ByAge(Eligible(s.db, s.db.executions, now - timeoutSeconds)) by {
        BacklogUnfolds(s.db, now - timeoutSeconds);
      }
      assert Take(backlog, batch) == backlog[..n];
      TargetsExactly(s.db, backlog[..n]);
    }
  }

  lemma BacklogUnfolds(db: Db, cutoff: int)
    ensures Backlog(db, cutoff) == ByAge(Eligible(db, db.executions, cutoff))
  {}

  lemma {:induction false} TargetsExactly(db: Db, rows: seq<ExecutionRow>)
    requires LinksInv(db) && OrdersInv(db) && forall e <- rows :: e in db.executions
    ensures var targets := ToTargets(db, rows);
            && |targets| == |rows|
            && forall k :: 0 <= k < |rows| ==>
                 && targets[k].executionId == rows[k].executionId
                 && Owned(db.decisions, rows[k], targets[k].authorizationId)
  {
    hide LinksInv, OrdersInv;
    if rows != [] {
      TargetsExactly(db, rows[1..]);
      assert GetDecision(db.decisions, rows[0].decisionId).Some? by { OwnerIsGoodTarget(db, rows[0]); }
      var first := Target(rows[0].executionId, GetDecision(db.decisions, rows[0].decisionId).value.authorizationId);
      assert ToTargets(db, rows) == [first] + ToTargets(db, rows[1..]);
    }
  }
}

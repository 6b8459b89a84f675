/** The handlers as a whole, when nothing comes between their steps: each continues a legal run. */
module Uninterrupted {
  import opened Canonical
  import opened Tables
  import opened Operations
  import opened Runs
  import opened Reachability
  import opened Guarantees

  /** A webhook whose steps follow each other directly is the whole handler. */
  lemma DeliveryIsTwoSteps(verify: Verifier, s: System, task: nat, d: Delivery)
    requires task !in s.pending
    ensures Run(verify, s, [LookupStep(task, d), SettleStep(task)]) == s.(db := Deliver(s.db, d).0)
  {
    var (looked, reply) := Lookup(s, task, d);
    var settle := [SettleStep(task)];
    assert [LookupStep(task, d), SettleStep(task)][1..] == settle && settle[1..] == [];
    assert Run(verify, looked, settle) == Settle(looked, task).0;
    if LookupOrder(s.db, d).Success? {
      assert looked.pending - {task} == s.pending;
    }
  }

  function FlagSteps(task: nat, n: nat): seq<Step> {
    if n == 0 then [] else [FlagStep(task)] + FlagSteps(task, n - 1)
  }

  lemma FirstFlag(verify: Verifier, s: System, task: nat, n: nat)
    ensures Run(verify, s, FlagSteps(task, n + 1)) == Run(verify, FlagNext(s, task).0, FlagSteps(task, n))
  {
    assert ([FlagStep(task)] + FlagSteps(task, n))[1..] == FlagSteps(task, n);
  }

  /** Steps of a sweep that has ended do nothing. */
  lemma {:induction false} EndedSweepRests(verify: Verifier, s: System, task: nat, n: nat)
    requires task !in s.pending
    ensures Run(verify, s, FlagSteps(task, n)) == s
  {
    if n > 0 {
      FirstFlag(verify, s, task, n - 1);
      EndedSweepRests(verify, s, task, n - 1);
    }
  }

  lemma {:induction false} FlagStepsAreTheLoop(verify: Verifier, s: System, task: nat)
    requires task in s.pending && s.pending[task].Sweeping?
    ensures var Sweeping(job, rest, flagged) := s.pending[task];
            Run(verify, s, FlagSteps(task, |rest| + 1))
              == System(FlagAll(s.db, rest, job, flagged).0, s.pending - {task})
    decreases |s.pending[task].rest|
  {
    var Sweeping(job, rest, flagged) := s.pending[task];
    var (next, reply) := FlagNext(s, task);
    FirstFlag(verify, s, task, |rest|);
    if task !in next.pending {
      EndedSweepRests(verify, next, task, |rest|);
    } else {
      FlagStepsAreTheLoop(verify, next, task);
      assert next.pending - {task} == s.pending - {task};
    }
  }

  /** A sweep whose steps follow each other directly is the whole sweep. */
  lemma SweepIsItsSteps(verify: Verifier, s: System, task: nat, now: int, timeoutSeconds: int, batch: int)
    requires task !in s.pending
    ensures var (selected, reply) := SelectCandidates(s, task, now, timeoutSeconds, batch);
            var n := if reply.Selected? then reply.count + 1 else 0;
            Run(verify, selected, FlagSteps(task, n)) == s.(db := Sweep(s.db, now, timeoutSeconds, batch).0)
  {
    var (selected, reply) := SelectCandidates(s, task, now, timeoutSeconds, batch);
    if reply.Selected? {
      FlagStepsAreTheLoop(verify, selected, task);
      assert selected.pending - {task} == s.pending;
    }
  }

  // Whole handlers one after the other

  /** Some legal run ends in these tables with no work pending. */
  ghost predicate Reachable(verify: Verifier, db: Db) {
    exists steps :: Reached(verify, steps, System(db, map[]))
  }

  lemma FirstStep(verify: Verifier, s: System, steps: seq<Step>)
    requires steps != []
    ensures var (next, reply) := Apply(verify, s, steps[0]);
            && (Legal(verify, s, steps) <==> Admissible(s, steps[0]) && Legal(verify, next, steps[1..]))
            && Run(verify, s, steps) == Run(verify, next, steps[1..])
            && Replies(verify, s, steps) == [reply] + Replies(verify, next, steps[1..])
  {
    hide Apply, Admissible;
  }

  lemma {:induction false} RunOfConcat(verify: Verifier, s: System, a: seq<Step>, b: seq<Step>)
    ensures Run(verify, s, a + b) == Run(verify, Run(verify, s, a), b)
    ensures Legal(verify, s, a + b) <==> Legal(verify, s, a) && Legal(verify, Run(verify, s, a), b)
    decreases |a|
  {
    hide Apply, Admissible;
    if a == [] {
      assert a + b == b;
    } else {
      assert (a + b)[1..] == a[1..] + b;
      RunOfConcat(verify, Apply(verify, s, a[0]).0, a[1..], b);
    }
  }

  lemma StartIsReachable(verify: Verifier)
    ensures Reachable(verify, EMPTY_DB)
  {
    assert Reached(verify, [], System(EMPTY_DB, map[]));
  }

  lemma ReachableOn(verify: Verifier, db: Db, more: seq<Step>, db': Db)
    requires Reachable(verify, db) && Legal(verify, System(db, map[]), more)
    requires Run(verify, System(db, map[]), more) == System(db', map[])
    ensures Reachable(verify, db') && Extends(db, db')
  {
    hide Extends, SystemInv, Run, Legal;
    var steps :| Reached(verify, steps, System(db, map[]));
    ReachedSafe(verify, steps, System(db, map[]));
    RunSafe(verify, System(db, map[]), more);
    RunOfConcat(verify, START, steps, more);
    assert Reached(verify, steps + more, System(db', map[]));
  }

  /** A handler of one step. */
  lemma StepStaysReachable(verify: Verifier, db: Db, step: Step)
    requires Reachable(verify, db) && Admissible(System(db, map[]), step)
    requires step.ConfirmStep? || step.RequestStep? || step.RevokeStep? || step.ExecuteStep?
    ensures var db' := Apply(verify, System(db, map[]), step).0.db; Reachable(verify, db') && Extends(db, db')
  {
    hide Reachable, Extends, Admissible, HandleRequest, Confirm, Revoke, Execute;
    var s' := Apply(verify, System(db, map[]), step).0;
    assert [step][1..] == [];
    assert Legal(verify, s', []) && Run(verify, s', []) == s';
    ReachableOn(verify, db, [step], s'.db);
  }

  lemma DeliveryStaysReachable(verify: Verifier, db: Db, d: Delivery)
    requires Reachable(verify, db)
    ensures Reachable(verify, Deliver(db, d).0) && Extends(db, Deliver(db, d).0)
  {
    hide Reachable, Extends, Deliver, Lookup, Settle, Run;
    var steps := [LookupStep(0, d), SettleStep(0)];
    assert steps[1..] == [SettleStep(0)] && [SettleStep(0)][1..] == [];
    DeliveryIsTwoSteps(verify, System(db, map[]), 0, d);
    ReachableOn(verify, db, steps, Deliver(db, d).0);
  }

  lemma {:induction false} FlagStepsAreLegal(verify: Verifier, s: System, task: nat, n: nat)
    ensures Legal(verify, s, FlagSteps(task, n))
    decreases n
  {
    hide FlagNext;
    if n > 0 {
      FlagStepsAreLegal(verify, FlagNext(s, task).0, task, n - 1);
      assert ([FlagStep(task)] + FlagSteps(task, n - 1))[1..] == FlagSteps(task, n - 1);
    }
  }

  lemma SweepStaysReachable(verify: Verifier, db: Db, now: int, timeoutSeconds: int, batch: int)
    requires Reachable(verify, db)
    ensures var db' := Sweep(db, now, timeoutSeconds, batch).0; Reachable(verify, db') && Extends(db, db')
  {
    hide Reachable, Extends, Sweep, SelectCandidates, Run, FlagSteps;
    var s, select := System(db, map[]), SelectStep(0, now, timeoutSeconds, batch);
    var (selected, reply) := SelectCandidates(s, 0, now, timeoutSeconds, batch);
    var flags := FlagSteps(0, if reply.Selected? then reply.count + 1 else 0);
    SweepIsItsSteps(verify, s, 0, now, timeoutSeconds, batch);
    FlagStepsAreLegal(verify, selected, 0, if reply.Selected? then reply.count + 1 else 0);
    assert ([select] + flags)[1..] == flags;
    assert Run(verify, s, [select] + flags) == Run(verify, selected, flags) by { FirstOfRun(verify, s, select, flags); }
    ReachableOn(verify, db, [select] + flags, Sweep(db, now, timeoutSeconds, batch).0);
  }

  lemma FirstOfRun(verify: Verifier, s: System, step: Step, rest: seq<Step>)
    ensures Run(verify, s, [step] + rest) == Run(verify, Apply(verify, s, step).0, rest)
  {
    assert ([step] + rest)[1..] == rest;
  }
}

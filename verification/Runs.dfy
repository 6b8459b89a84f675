/** Runs: any interleaving of the operations, with the unlocked reads of webhooks and sweeps as
  * steps of their own that leave possibly outdated local data behind.
  */
module Runs {
  import opened Canonical
  import opened Tables
  import opened Operations

  /** What a handler holds between its unlocked reads and its next locked step. */
  datatype Local =
    | Settling(target: Target, delivery: Delivery)
    | Sweeping(job: SweepJob, rest: seq<Target>, flagged: nat)

  datatype System = System(db: Db, pending: map<nat, Local>)

  const START := System(EMPTY_DB, map[])

  datatype Step =
    | ConfirmStep(proposal: Mandate, agentKey: string, signature: string)
    | RequestStep(request: AgentRequest, now: int, freshRequest: Id, freshDecision: Id)
    | RevokeStep(auth: Id, reason: string, now: int)
    | ExecuteStep(auth: Id, requestId: Id, freshExecution: nat, freshOrder: Id, now: int)
    | LookupStep(task: nat, delivery: Delivery)
    | SettleStep(task: nat)
    | SelectStep(task: nat, now: int, timeoutSeconds: int, batch: int)
    | FlagStep(task: nat)

  function Lookup(s: System, task: nat, d: Delivery): (System, Reply) {
    match LookupOrder(s.db, d)
    case Failure(error) => (s, error)
    case Success(target) => (s.(pending := s.pending[task := Settling(target, d)]), LookedUp)
  }

  function Settle(s: System, task: nat): (System, Reply) {
    if task !in s.pending || !s.pending[task].Settling? then (s, Ignored)
    else
      var local := s.pending[task];
      if Missing(local.delivery.paymentId) || Missing(local.delivery.orderId) then (s, Ignored)
      else
        var (db, reply) := RecordPayment(s.db, local.target, local.delivery);
        (System(db, s.pending - {task}), reply)
  }

  function SelectCandidates(s: System, task: nat, now: int, timeoutSeconds: int, batch: int): (System, Reply) {
    if timeoutSeconds <= 0 || batch <= 0 then (s, InvalidSettings)
    else
      var job := SweepJob(now - timeoutSeconds, now, timeoutSeconds);
      var targets := Candidates(s.db, job.cutoff, batch);
      (s.(pending := s.pending[task := Sweeping(job, targets, 0)]), Selected(|targets|))
  }

  function FlagNext(s: System, task: nat): (System, Reply) {
    if task !in s.pending || !s.pending[task].Sweeping? then (s, Ignored)
    else
      var local := s.pending[task];
      if local.rest == [] then (s.(pending := s.pending - {task}), SweepDone(local.flagged))
      else
        var (db, reply) := FlagOne(s.db, local.rest[0], local.job);
        if reply == UnknownAuthorization then (System(db, s.pending - {task}), reply)
        else
          var flagged := if reply == Flagged then local.flagged + 1 else local.flagged;
          (System(db, s.pending[task := Sweeping(local.job, local.rest[1..], flagged)]), reply)
  }

  function OnDb(s: System, outcome: (Db, Reply)): (System, Reply) {
    (s.(db := outcome.0), outcome.1)
  }

  function Apply(verify: Verifier, s: System, step: Step): (System, Reply) {
    match step
    case ConfirmStep(proposal, agentKey, signature) =>
      OnDb(s, Confirm(s.db, SignedEnvelope(proposal, agentKey, signature)))
    case RequestStep(request, now, freshRequest, freshDecision) =>
      OnDb(s, HandleRequest(verify, s.db, request, now, freshRequest, freshDecision))
    case RevokeStep(a, reason, now) => OnDb(s, Revoke(s.db, a, reason, now))
    case ExecuteStep(a, requestId, freshExecution, freshOrder, now) =>
      OnDb(s, Execute(s.db, a, requestId, freshExecution, freshOrder, now))
    case LookupStep(task, d) => Lookup(s, task, d)
    case SettleStep(task) => Settle(s, task)
    case SelectStep(task, now, timeoutSeconds, batch) => SelectCandidates(s, task, now, timeoutSeconds, batch)
    case FlagStep(task) => FlagNext(s, task)
  }

  /** Fresh identifiers are fresh; nothing else is assumed about a step. */
  ghost predicate Admissible(s: System, step: Step) {
    match step
    case RequestStep(_, _, freshRequest, freshDecision) =>
      && (forall row <- s.db.requests :: row.requestId != freshRequest)
      && (forall row <- s.db.decisions :: row.decisionId != freshDecision)
    case ExecuteStep(_, _, freshExecution, freshOrder, _) =>
      forall row <- s.db.executions :: row.executionId != freshExecution && row.orderId != freshOrder
    case LookupStep(task, _) => task !in s.pending
    case SelectStep(task, _, _, _) => task !in s.pending
    case _ => true
  }

  function Run(verify: Verifier, s: System, steps: seq<Step>): System
    decreases |steps|
  {
    if steps == [] then s else Run(verify, Apply(verify, s, steps[0]).0, steps[1..])
  }

  ghost predicate Legal(verify: Verifier, s: System, steps: seq<Step>)
    decreases |steps|
  {
    steps == [] || (Admissible(s, steps[0]) && Legal(verify, Apply(verify, s, steps[0]).0, steps[1..]))
  }

  function Replies(verify: Verifier, s: System, steps: seq<Step>): seq<Reply>
    decreases |steps|
  {
    if steps == [] then []
    else
      var (next, reply) := Apply(verify, s, steps[0]);
      [reply] + Replies(verify, next, steps[1..])
  }
}

/** Confirming commits the mandate and its first event separately, and appends the event without the authorization
  * lock: it reads the newest chain hash first and inserts later. Here other steps may come between any two of these.
  */
module LateSigning {
  import opened Wrappers
  import opened Canonical
  import opened EvidenceLog
  import opened TamperEvidence
  import opened Tables
  import opened Operations
  import opened Runs
  import opened Invariants
  import opened Replay
  import opened Reachability
  import opened LogIndependence

  datatype LateStep =
    | Whole(step: Step)
    | StoreMandate(proposal: Mandate, agentKey: string, signature: string)
    | ReadNewest(id: Id)
    | InsertSigning(id: Id)

  /** How far a confirmation is whose event is not logged yet. What it holds after reading is the hash. That the chain
    * had `seen` rows then is remembered only to say what follows.
    */
  datatype Signing = Stored | Holding(prev: Hash, seen: nat)

  /** A system, the confirmations under way, and the mandates whose event was inserted after their chain had grown. */
  datatype LateSystem = LateSystem(s: System, waiting: map<Id, Signing>, overtaken: set<Id>)

  const LATE_START := LateSystem(START, map[], {})

  /** The first commit of confirming. */
  function StoreRow(db: Db, envelope: Envelope): (Db, Reply) {
    var id := envelope.mandate.authorizationId;
    if id in db.auths then (db, AuthorizationExists)
    else if NonceTaken(db.auths, envelope.mandate.nonce) then (db, MandateNonceTaken)
    else (db.(auths := db.auths[id := AuthRow(envelope, 0)]), Confirmed(id, envelope.evidenceHash))
  }

  function SigningFact(envelope: Envelope): Fact {
    Fact(MandateSigned, envelope.mandate.userId, EnvelopeJson(envelope))
  }

  /** The second commit of confirming, with the hash that was read before. */
  function InsertSigned(db: Db, id: Id, prev: Hash): Db
    requires id in db.auths
  {
    db.(log := InsertAfter(db.log, prev, id, SigningFact(db.auths[id].envelope)))
  }

  function ChainLength(l: LateSystem, id: Id): nat {
    |Select(l.s.db.log.rows, id)|
  }

  function ApplyLate(verify: Verifier, l: LateSystem, step: LateStep): (LateSystem, seq<Reply>) {
    match step
    case Whole(step) =>
      var (s, reply) := Apply(verify, l.s, step);
      (l.(s := s), [reply])
    case StoreMandate(proposal, agentKey, signature) =>
      var (db, reply) := StoreRow(l.s.db, SignedEnvelope(proposal, agentKey, signature));
      var waiting := if reply.Confirmed? then l.waiting[proposal.authorizationId := Stored] else l.waiting;
      (l.(s := l.s.(db := db), waiting := waiting), [reply])
    case ReadNewest(id) =>
      if id in l.waiting && l.waiting[id].Stored? then
        (l.(waiting := l.waiting[id := Holding(Previous(l.s.db.log, id), ChainLength(l, id))]), [])
      else (l, [])
    case InsertSigning(id) =>
      if id in l.waiting && l.waiting[id].Holding? && id in l.s.db.auths then
        (LateSystem(
           l.s.(db := InsertSigned(l.s.db, id, l.waiting[id].prev)),
           l.waiting - {id},
           if ChainLength(l, id) == l.waiting[id].seen then l.overtaken else l.overtaken + {id}),
         [])
      else (l, [])
  }

  function RunLate(verify: Verifier, l: LateSystem, steps: seq<LateStep>): (LateSystem, seq<Reply>)
    decreases |steps|
  {
    if steps == [] then (l, [])
    else
      var (next, replies) := ApplyLate(verify, l, steps[0]);
      var (end, later) := RunLate(verify, next, steps[1..]);
      (end, replies + later)
  }

  ghost predicate LegalLate(verify: Verifier, l: LateSystem, steps: seq<LateStep>)
    decreases |steps|
  {
    steps == [] ||
    ((steps[0].Whole? ==> Admissible(l.s, steps[0].step))
     && LegalLate(verify, ApplyLate(verify, l, steps[0]).0, steps[1..]))
  }

  /** The same steps with every mandate confirmed at once. */
  function AtOnce(step: LateStep): seq<Step> {
    match step
    case Whole(step) => [step]
    case StoreMandate(proposal, agentKey, signature) => [ConfirmStep(proposal, agentKey, signature)]
    case _ => []
  }

  function AllAtOnce(steps: seq<LateStep>): seq<Step> {
    if steps == [] then [] else AtOnce(steps[0]) + AllAtOnce(steps[1..])
  }

  function DifferenceOf(l: LateSystem): Difference {
    Signings(l.waiting.Keys, l.overtaken)
  }

  /** What a confirmation holds was the last hash of the chain when that had `seen` rows. */
  ghost predicate Held(rows: seq<Row>, id: Id, signing: Signing) {
    signing.Holding? ==>
      signing.seen <= |Select(rows, id)| && signing.prev == PrevOf(Select(rows, id), signing.seen)
  }

  ghost predicate HeldInv(rows: seq<Row>, waiting: map<Id, Signing>) {
    forall id <- waiting :: Held(rows, id, waiting[id])
  }

  ghost predicate Shadows(l: LateSystem, clean: System) {
    && Twins(DifferenceOf(l), l.s, clean) && SystemInv(clean)
    && l.waiting.Keys !! l.overtaken && HeldInv(l.s.db.log.rows, l.waiting)
  }

  // The log only grows

  lemma {:induction false} SelectGrows(rows: seq<Row>, rows': seq<Row>, a: Id)
    requires rows <= rows'
    ensures Select(rows, a) <= Select(rows', a)
  {
    if |rows| < |rows'| {
      SelectGrows(rows, rows'[..|rows'| - 1], a);
    } else {
      assert rows == rows';
    }
  }

  lemma HeldStays(rows: seq<Row>, rows': seq<Row>, waiting: map<Id, Signing>)
    requires rows <= rows' && HeldInv(rows, waiting)
    ensures HeldInv(rows', waiting)
  {
    hide Select;
    forall id <- waiting
      ensures Held(rows', id, waiting[id])
    {
      assert Held(rows, id, waiting[id]);
      SelectGrows(rows, rows', id);
    }
  }

  lemma RequestGrows(verify: Verifier, db: Db, r: AgentRequest, now: int, freshRequest: Id, freshDecision: Id)
    ensures db.log.rows <= HandleRequest(verify, db, r, now, freshRequest, freshDecision).0.log.rows
  {}

  lemma StepGrows(verify: Verifier, s: System, step: Step)
    ensures s.db.log.rows <= Apply(verify, s, step).0.db.log.rows
  {
    hide HandleRequest;
    if step.RequestStep? {
      RequestGrows(verify, s.db, step.request, step.now, step.freshRequest, step.freshDecision);
    }
  }

  // One step

  lemma EnvelopeInLog(clean: System, a: Id)
    requires SystemInv(clean)
    ensures ReplayAll(History(clean.db.log, a)).view.envelope
         == if a in clean.db.auths then Some(clean.db.auths[a].envelope) else None
  {
    hide TablesInv, SoundLog, PendingInv, ReplayAll;
    assert ReplayAll(History(clean.db.log, a)).view == ViewOf(clean.db, a);
  }

  /** Storing the row late-style against confirming at once. */
  lemma StoreShadows(l: LateSystem, clean: System, envelope: Envelope)
    requires Shadows(l, clean)
    ensures var (db, reply) := StoreRow(l.s.db, envelope);
            var (clean', reply') := Confirm(clean.db, envelope);
            var waiting := if reply.Confirmed? then l.waiting.Keys + {envelope.mandate.authorizationId}
              else l.waiting.Keys;
            reply == reply' && Alike(Signings(waiting, l.overtaken), db, clean')
  {
    hide SystemInv, SoundLog, Stamped, VerifiesBut, ReplayAll, ReplayFact, Without, History, Append, HeldInv;
    var id := envelope.mandate.authorizationId;
    if StoreRow(l.s.db, envelope).1.Confirmed? {
      var fact := SigningFact(envelope);
      EnvelopeInLog(clean, id);
      AppendKeepsSound(clean.db.log, id, fact);
      WithoutAppend(History(clean.db.log, id), fact, MandateSigned);
      forall a
        ensures Related(Signings(l.waiting.Keys + {id}, l.overtaken), a, History(l.s.db.log, a),
                        History(Append(clean.db.log, id, fact), a))
      {
        HistoryOfAppend(clean.db.log, id, fact, a);
        assert Related(DifferenceOf(l), a, History(l.s.db.log, a), History(clean.db.log, a));
      }
    }
  }

  lemma SigningRead(s: Replayed, envelope: Envelope)
    ensures ReplayFact(s, SigningFact(envelope)) == s.(view := s.view.(envelope := Some(envelope)))
  {}

  lemma HistoryOfInsert(log: Log, prev: Hash, txn: Id, fact: Fact, other: Id)
    ensures History(InsertAfter(log, prev, txn, fact), other)
         == if other == txn then History(log, other) + [fact] else History(log, other)
  {
    SelectOfRow(log.rows, RowAfter(log, prev, txn, fact), other);
    FactsOfAppend(Select(log.rows, txn), RowAfter(log, prev, txn, fact));
  }

  /** Inserting the event late closes the gap in the history. */
  lemma InsertRelates(l: LateSystem, clean: System, id: Id, a: Id)
    requires Shadows(l, clean) && id in l.waiting && l.waiting[id].Holding? && id in l.s.db.auths
    ensures var db' := InsertSigned(l.s.db, id, l.waiting[id].prev);
            var diff := Signings(l.waiting.Keys - {id}, if ChainLength(l, id) == l.waiting[id].seen then l.overtaken
                                                        else l.overtaken + {id});
            Related(diff, a, History(db'.log, a), History(clean.db.log, a))
  {
    hide SystemInv, SoundLog, Stamped, VerifiesBut, ReplayAll, ReplayFact, Without, History, InsertAfter, HeldInv;
    var fact := SigningFact(l.s.db.auths[id].envelope);
    EnvelopeInLog(clean, id);
    WithoutAppend(History(l.s.db.log, id), fact, MandateSigned);
    ReplayAppend(History(l.s.db.log, id), fact);
    SigningRead(ReplayAll(History(l.s.db.log, id)), l.s.db.auths[id].envelope);
    HistoryOfInsert(l.s.db.log, l.waiting[id].prev, id, fact, a);
    assert Related(DifferenceOf(l), a, History(l.s.db.log, a), History(clean.db.log, a));
  }

  /** Whether the chain verifies afterwards depends only on whether it had grown since the hash was read. */
  lemma InsertVerdicts(log: Log, id: Id, signing: Signing, fact: Fact, broken: set<Id>)
    requires Stamped(log.rows, log.clock) && VerifiesBut(log, broken) && id !in broken
    requires signing.Holding? && Held(log.rows, id, signing)
    ensures var log' := InsertAfter(log, signing.prev, id, fact);
            && Stamped(log'.rows, log'.clock)
            && VerifiesBut(log', if |Select(log.rows, id)| == signing.seen then broken else broken + {id})
  {
    InsertKeepsStamps(log, signing.prev, id, fact);
    hide Verifies, Stamped, Select;
    var row := RowAfter(log, signing.prev, id, fact);
    var broken' := if |Select(log.rows, id)| == signing.seen then broken else broken + {id};
    forall a
      ensures Verifies(Select(log.rows + [row], a)) <==> a !in broken'
    {
      SelectOfRow(log.rows, row, a);
      assert Verifies(Select(log.rows, a)) <==> a !in broken;
      if a == id {
        StaleRowDetected(Select(log.rows, id), signing.seen, row);
      }
    }
  }

  lemma InsertShadows(l: LateSystem, clean: System, id: Id)
    requires Shadows(l, clean) && id in l.waiting && l.waiting[id].Holding? && id in l.s.db.auths
    ensures var db' := InsertSigned(l.s.db, id, l.waiting[id].prev);
            var diff := Signings(l.waiting.Keys - {id}, if ChainLength(l, id) == l.waiting[id].seen then l.overtaken
                                                        else l.overtaken + {id});
            Alike(diff, db', clean.db)
  {
    hide SystemInv, SoundLog, Stamped, VerifiesBut, Related, InsertAfter, History, Select;
    forall a
      ensures Related(Signings(l.waiting.Keys - {id}, if ChainLength(l, id) == l.waiting[id].seen then l.overtaken
                                                      else l.overtaken + {id}),
                      a, History(InsertSigned(l.s.db, id, l.waiting[id].prev).log, a), History(clean.db.log, a))
    {
      InsertRelates(l, clean, id, a);
    }
    assert Held(l.s.db.log.rows, id, l.waiting[id]);
    InsertVerdicts(l.s.db.log, id, l.waiting[id], SigningFact(l.s.db.auths[id].envelope), l.overtaken);
  }

  lemma AdmissibleAlike(diff: Difference, s: System, clean: System, step: Step)
    requires Twins(diff, s, clean)
    ensures Admissible(s, step) <==> Admissible(clean, step)
  {}

  lemma WholeShadows(verify: Verifier, l: LateSystem, clean: System, step: Step)
    requires Shadows(l, clean) && Admissible(l.s, step)
    ensures Admissible(clean, step) && Apply(verify, clean, step).1 == Apply(verify, l.s, step).1
    ensures Shadows(l.(s := Apply(verify, l.s, step).0), Apply(verify, clean, step).0)
  {
    hide SystemInv, Alike, Admissible, Apply, HeldInv;
    AdmissibleAlike(DifferenceOf(l), l.s, clean, step);
    StepTwins(verify, DifferenceOf(l), l.s, clean, step);
    StepSafe(verify, clean, step);
    StepGrows(verify, l.s, step);
    HeldStays(l.s.db.log.rows, Apply(verify, l.s, step).0.db.log.rows, l.waiting);
  }

  lemma StoreStepShadows(verify: Verifier, l: LateSystem, clean: System, step: LateStep)
    requires Shadows(l, clean) && step.StoreMandate?
    ensures var confirm := ConfirmStep(step.proposal, step.agentKey, step.signature);
            var (l', replies) := ApplyLate(verify, l, step);
            && Admissible(clean, confirm) && replies == [Apply(verify, clean, confirm).1]
            && Shadows(l', Apply(verify, clean, confirm).0)
  {
    hide SystemInv, Mirrors, Confirm;
    var confirm := ConfirmStep(step.proposal, step.agentKey, step.signature);
    var envelope := SignedEnvelope(step.proposal, step.agentKey, step.signature);
    StoreShadows(l, clean, envelope);
    StepSafe(verify, clean, confirm);
    var l' := ApplyLate(verify, l, step).0;
    var id, confirmed := step.proposal.authorizationId, StoreRow(l.s.db, envelope).1.Confirmed?;
    assert l'.waiting.Keys == if confirmed then l.waiting.Keys + {id} else l.waiting.Keys;
    assert Twins(DifferenceOf(l'), l'.s, Apply(verify, clean, confirm).0);
    assert l'.waiting.Keys !! l'.overtaken;
    assert forall id <- l.waiting :: Held(l.s.db.log.rows, id, l.waiting[id]);
  }

  lemma ReadShadows(verify: Verifier, l: LateSystem, clean: System, id: Id)
    requires Shadows(l, clean)
    ensures Shadows(ApplyLate(verify, l, ReadNewest(id)).0, clean)
  {
    hide SystemInv, Related, VerifiesBut, Select, Stamped;
    assert forall a <- l.waiting :: Held(l.s.db.log.rows, a, l.waiting[a]);
    var l' := ApplyLate(verify, l, ReadNewest(id)).0;
    assert l'.waiting.Keys == l.waiting.Keys;
    PreviousIsLast(l.s.db.log, id);
  }

  lemma InsertStepShadows(verify: Verifier, l: LateSystem, clean: System, id: Id)
    requires Shadows(l, clean)
    ensures Shadows(ApplyLate(verify, l, InsertSigning(id)).0, clean)
  {
    hide SystemInv, Mirrors, HeldInv, InsertAfter;
    if id in l.waiting && l.waiting[id].Holding? && id in l.s.db.auths {
      var l' := ApplyLate(verify, l, InsertSigning(id)).0;
      InsertShadows(l, clean, id);
      assert l'.waiting.Keys == l.waiting.Keys - {id};
      InsertGrows(l, id);
      HeldStays(l.s.db.log.rows, l'.s.db.log.rows, l.waiting);
      HeldWithout(l'.s.db.log.rows, l.waiting, id);
    }
  }

  lemma InsertGrows(l: LateSystem, id: Id)
    requires id in l.waiting && l.waiting[id].Holding? && id in l.s.db.auths
    ensures l.s.db.log.rows <= InsertSigned(l.s.db, id, l.waiting[id].prev).log.rows
  {}

  lemma HeldWithout(rows: seq<Row>, waiting: map<Id, Signing>, id: Id)
    requires HeldInv(rows, waiting)
    ensures HeldInv(rows, waiting - {id})
  {}

  /** One late step and its counterpart, of at most one step. */
  lemma LateStepShadows(verify: Verifier, l: LateSystem, clean: System, step: LateStep)
    requires Shadows(l, clean) && (step.Whole? ==> Admissible(l.s, step.step))
    ensures var (l', replies) := ApplyLate(verify, l, step);
            if step.ReadNewest? || step.InsertSigning? then replies == [] && Shadows(l', clean)
            else
              && |AtOnce(step)| == 1 && Admissible(clean, AtOnce(step)[0])
              && replies == [Apply(verify, clean, AtOnce(step)[0]).1]
              && Shadows(l', Apply(verify, clean, AtOnce(step)[0]).0)
  {
    hide Shadows, Admissible, Apply, StoreRow, InsertSigned;
    match step
    case Whole(plain) => WholeShadows(verify, l, clean, plain);
    case StoreMandate(_, _, _) => StoreStepShadows(verify, l, clean, step);
    case ReadNewest(id) => ReadShadows(verify, l, clean, id);
    case InsertSigning(id) => InsertStepShadows(verify, l, clean, id);
  }

  // Whole runs

  lemma {:induction false} LateRunShadows(verify: Verifier, l: LateSystem, clean: System, steps: seq<LateStep>)
    requires Shadows(l, clean) && LegalLate(verify, l, steps)
    ensures var (l', replies) := RunLate(verify, l, steps);
            && Legal(verify, clean, AllAtOnce(steps))
            && replies == Replies(verify, clean, AllAtOnce(steps))
            && Shadows(l', Run(verify, clean, AllAtOnce(steps)))
    decreases |steps|
  {
    hide Shadows, ApplyLate, Apply, Admissible, AtOnce;
    if steps != [] {
      var (next, replies) := ApplyLate(verify, l, steps[0]);
      LateStepShadows(verify, l, clean, steps[0]);
      var rest := AllAtOnce(steps[1..]);
      if steps[0].ReadNewest? || steps[0].InsertSigning? {
        assert AtOnce(steps[0]) == [] by { LoggingIsNoStep(steps[0]); }
        LateRunShadows(verify, next, clean, steps[1..]);
        assert AllAtOnce(steps) == rest;
      } else {
        var step := AtOnce(steps[0])[0];
        LateRunShadows(verify, next, Apply(verify, clean, step).0, steps[1..]);
        assert AllAtOnce(steps) == [step] + rest && ([step] + rest)[1..] == rest;
      }
    }
  }

  lemma LoggingIsNoStep(step: LateStep)
    requires step.ReadNewest? || step.InsertSigning?
    ensures AtOnce(step) == []
  {}

  /** Everything in a reconstruction but the envelope, and the request in progress. */
  function Rest(r: Replayed): (View, Id) {
    (r.view.(envelope := None), r.current)
  }

  lemma RestOfFact(r: Replayed, r': Replayed, f: Fact)
    requires Rest(r) == Rest(r')
    ensures Rest(ReplayFact(r, f)) == Rest(ReplayFact(r', f))
    ensures f.eventType == MandateSigned ==> Rest(ReplayFact(r, f)) == Rest(r)
  {}

  lemma {:induction false} SigningsSetOnlyTheEnvelope(facts: seq<Fact>)
    ensures Rest(ReplayAll(facts)) == Rest(ReplayAll(Without(facts, MandateSigned)))
  {
    hide ReplayFact, Rest;
    if facts != [] {
      var before, f := facts[..|facts| - 1], facts[|facts| - 1];
      SigningsSetOnlyTheEnvelope(before);
      RestOfFact(ReplayAll(before), ReplayAll(Without(before, MandateSigned)), f);
      ReplayAppend(Without(before, MandateSigned), f);
      assert Without(before, MandateSigned) + [] == Without(before, MandateSigned);
    }
  }

  /** Confirming in two commits, with any steps of anyone in between, is harmless to all tables and answers: they are
    * those of a run that confirms at once, so everything proved of the tables holds of them. The evidence rebuilds a
    * mandate's view exactly unless its signing event is still waiting, and then all of it but the envelope. A chain
    * verifies exactly unless it had grown between the confirmation's read and its insert.
    */
  lemma ConfirmingInSteps(verify: Verifier, steps: seq<LateStep>, a: Id)
    requires LegalLate(verify, LATE_START, steps)
    ensures var (l, replies) := RunLate(verify, LATE_START, steps);
            var clean := Run(verify, START, AllAtOnce(steps));
            var chain := GetChain(l.s.db.log, a);
            var rebuilt := ReplayAll(Facts(chain)).view;
            && Legal(verify, START, AllAtOnce(steps)) && replies == Replies(verify, START, AllAtOnce(steps))
            && l.s == clean.(db := clean.db.(log := l.s.db.log))
            && (Verifies(chain) <==> a !in l.overtaken)
            && (rebuilt == ViewOf(l.s.db, a) <==> a !in l.waiting)
            && rebuilt.(envelope := None) == ViewOf(l.s.db, a).(envelope := None)
  {
    StartShadows();
    LateRunShadows(verify, LATE_START, START, steps);
    var l := RunLate(verify, LATE_START, steps).0;
    ShadowRebuilds(l, Run(verify, START, AllAtOnce(steps)), a);
  }

  lemma StartShadows()
    ensures Shadows(LATE_START, START)
  {
    StartSafe();
  }

  lemma ShadowRebuilds(l: LateSystem, clean: System, a: Id)
    requires Shadows(l, clean)
    ensures var chain := GetChain(l.s.db.log, a);
            var rebuilt := ReplayAll(Facts(chain)).view;
            && (Verifies(chain) <==> a !in l.overtaken)
            && (rebuilt == ViewOf(l.s.db, a) <==> a !in l.waiting)
            && rebuilt.(envelope := None) == ViewOf(l.s.db, a).(envelope := None)
  {
    hide TablesInv, PendingInv, Without, ReplayAll, HeldInv;
    var late, early := History(l.s.db.log, a), History(clean.db.log, a);
    StampedChain(l.s.db.log, a);
    assert Related(DifferenceOf(l), a, late, early);
    SigningsSetOnlyTheEnvelope(late);
    SigningsSetOnlyTheEnvelope(early);
    EnvelopeInLog(clean, a);
    assert ReplayAll(early).view == ViewOf(clean.db, a);
    assert ViewOf(clean.db, a) == ViewOf(l.s.db, a) by { ViewIgnoresLog(l.s.db, clean.db, a); }
  }

  lemma {:induction false} LateRunOfConcat(verify: Verifier, l: LateSystem, a: seq<LateStep>, b: seq<LateStep>)
    ensures RunLate(verify, l, a + b).0 == RunLate(verify, RunLate(verify, l, a).0, b).0
    ensures LegalLate(verify, l, a + b) <==> LegalLate(verify, l, a) && LegalLate(verify, RunLate(verify, l, a).0, b)
    decreases |a|
  {
    hide ApplyLate, Admissible;
    if a == [] {
      assert a + b == b;
    } else {
      assert (a + b)[1..] == a[1..] + b;
      LateRunOfConcat(verify, ApplyLate(verify, l, a[0]).0, a[1..], b);
    }
  }

  lemma {:induction false} OvertakenGrows(verify: Verifier, l: LateSystem, steps: seq<LateStep>)
    ensures l.overtaken <= RunLate(verify, l, steps).0.overtaken
    decreases |steps|
  {
    if steps != [] {
      OvertakenGrows(verify, ApplyLate(verify, l, steps[0]).0, steps[1..]);
    }
  }

  /** A chain that was overtaken never verifies again, whatever happens next. */
  lemma OvertakenForGood(verify: Verifier, steps: seq<LateStep>, more: seq<LateStep>, a: Id)
    requires LegalLate(verify, LATE_START, steps + more) && a in RunLate(verify, LATE_START, steps).0.overtaken
    ensures !Verifies(GetChain(RunLate(verify, LATE_START, steps + more).0.s.db.log, a))
  {
    LateRunOfConcat(verify, LATE_START, steps, more);
    OvertakenGrows(verify, RunLate(verify, LATE_START, steps).0, more);
    ConfirmingInSteps(verify, steps + more, a);
  }
}

/** Events that the log holds at most once, counted against the tables. */
module Counting {
  import opened Canonical
  import opened EvidenceLog
  import opened Tables
  import opened Invariants
  import opened Preservation

  /** Events that may occur at most once. */
  datatype Once = StaleFlagOf(executionId: nat) | PaymentOf(paymentId: Id) | RevocationOf(a: Id)

  predicate IsEvent(kind: Once, txn: Id, fact: Fact) {
    match kind
    case StaleFlagOf(id) =>
      fact.eventType == PaymentStale && fact.payload.StaleJson? && fact.payload.executionId == id
    case PaymentOf(id) =>
      (fact.eventType == PaymentCaptured || fact.eventType == PaymentAmountMismatch)
      && fact.payload.PaymentJson? && fact.payload.paymentId == id
    case RevocationOf(a) => txn == a && fact.eventType == MandateRevokedEvent
  }

  function CountEvents(rows: seq<Row>, kind: Once): nat {
    if rows == [] then 0
    else
      var last := rows[|rows| - 1];
      CountEvents(rows[..|rows| - 1], kind) + (if IsEvent(kind, last.transactionId, last.fact) then 1 else 0)
  }

  /** An order's flag events agree with its status: none before STALE, one while STALE, at most one ever. */
  ghost predicate FlagsMatch(rows: seq<Row>, e: ExecutionRow) {
    var n := CountEvents(rows, StaleFlagOf(e.executionId));
    (e.status == Created ==> n == 0) && (e.status == Stale ==> n == 1) && n <= 1
  }

  ghost predicate FlagsInv(rows: seq<Row>, executions: seq<ExecutionRow>) {
    && (forall e <- executions :: FlagsMatch(rows, e))
    && (forall id: nat :: Locate(executions, id) == |executions| ==> CountEvents(rows, StaleFlagOf(id)) == 0)
  }

  ghost predicate PaidInv(rows: seq<Row>, seen: set<Id>) {
    forall id :: CountEvents(rows, PaymentOf(id)) == if id in seen then 1 else 0
  }

  ghost predicate RevokedInv(rows: seq<Row>, revoked: set<Id>) {
    forall a :: CountEvents(rows, RevocationOf(a)) == if a in revoked then 1 else 0
  }

  /** Flags, payments and revocations are each evidenced exactly once. */
  ghost predicate CountsInv(db: Db) {
    && FlagsInv(db.log.rows, db.executions)
    && PaidInv(db.log.rows, db.seen.Keys)
    && RevokedInv(db.log.rows, db.revocations.Keys)
  }

  // One more event

  lemma CountAppend(log: Log, txn: Id, fact: Fact, kind: Once)
    ensures CountEvents(Append(log, txn, fact).rows, kind)
         == CountEvents(log.rows, kind) + (if IsEvent(kind, txn, fact) then 1 else 0)
  {
    hide IsEvent, NextRow;
    var row := NextRow(log, txn, fact);
    assert row.transactionId == txn && row.fact == fact by { NextRowSays(log, txn, fact); }
    assert (log.rows + [row])[..|log.rows|] == log.rows;
  }

  lemma NextRowSays(log: Log, txn: Id, fact: Fact)
    ensures NextRow(log, txn, fact).transactionId == txn && NextRow(log, txn, fact).fact == fact
  {}

  /** From `rows` to `rows'` the count of at most one kind of event grew, by one. */
  ghost predicate OneMore(rows: seq<Row>, rows': seq<Row>, grown: set<Once>) {
    forall kind :: CountEvents(rows', kind) == CountEvents(rows, kind) + (if kind in grown then 1 else 0)
  }

  lemma EventCounted(log: Log, txn: Id, fact: Fact, grown: set<Once>)
    requires forall kind :: kind in grown <==> IsEvent(kind, txn, fact)
    ensures OneMore(log.rows, Append(log, txn, fact).rows, grown)
  {
    hide CountEvents, Append;
    forall kind
      ensures CountEvents(Append(log, txn, fact).rows, kind)
           == CountEvents(log.rows, kind) + (if kind in grown then 1 else 0)
    {
      CountAppend(log, txn, fact, kind);
    }
  }

  lemma FlagsKept(rows: seq<Row>, rows': seq<Row>, grown: set<Once>, executions: seq<ExecutionRow>)
    requires OneMore(rows, rows', grown) && FlagsInv(rows, executions) && forall kind <- grown :: !kind.StaleFlagOf?
    ensures FlagsInv(rows', executions)
  {
    hide CountEvents, Locate;
    assert forall e <- executions :: FlagsMatch(rows, e);
  }

  lemma PaidKept(rows: seq<Row>, rows': seq<Row>, grown: set<Once>, seen: set<Id>)
    requires OneMore(rows, rows', grown) && PaidInv(rows, seen) && forall kind <- grown :: !kind.PaymentOf?
    ensures PaidInv(rows', seen)
  {
    hide CountEvents;
  }

  lemma RevokedKept(rows: seq<Row>, rows': seq<Row>, grown: set<Once>, revoked: set<Id>)
    requires OneMore(rows, rows', grown) && RevokedInv(rows, revoked) && forall kind <- grown :: !kind.RevocationOf?
    ensures RevokedInv(rows', revoked)
  {
    hide CountEvents;
  }

  // Changes of the orders

  lemma FlagsOfNewOrder(rows: seq<Row>, executions: seq<ExecutionRow>, e: ExecutionRow)
    requires FlagsInv(rows, executions) && e.status == Created && Locate(executions, e.executionId) == |executions|
    ensures FlagsInv(rows, executions + [e])
  {
    hide CountEvents, Locate;
    assert FlagsMatch(rows, e);
    forall id: nat | Locate(executions + [e], id) == |executions + [e]|
      ensures CountEvents(rows, StaleFlagOf(id)) == 0
    {
      LocateAppend(executions, e, id);
    }
  }

  /** Settling an order does not change how often it was flagged. */
  lemma FlagsOfSettled(rows: seq<Row>, executions: seq<ExecutionRow>, i: nat, status: Status)
    requires FlagsInv(rows, executions) && i < |executions| && !Unsettled(status)
    ensures FlagsInv(rows, SetStatus(executions, i, status))
  {
    hide CountEvents, Locate;
    forall k | 0 <= k < |executions|
      ensures FlagsMatch(rows, SetStatus(executions, i, status)[k])
    {
      assert executions[k] in executions && FlagsMatch(rows, executions[k]);
    }
    forall id: nat | Locate(SetStatus(executions, i, status), id) == |executions|
      ensures CountEvents(rows, StaleFlagOf(id)) == 0
    {
      LocateSetStatus(executions, i, status, id);
    }
  }

  /** Flagging an order takes its count from none to one. */
  lemma FlagsOfFlagged(rows: seq<Row>, rows': seq<Row>, executions: seq<ExecutionRow>, i: nat)
    requires FlagsInv(rows, executions) && DistinctExecutions(executions)
    requires i < |executions| && executions[i].status == Created
    requires OneMore(rows, rows', {StaleFlagOf(executions[i].executionId)})
    ensures FlagsInv(rows', SetStatus(executions, i, Stale))
  {
    hide CountEvents, Locate;
    forall k | 0 <= k < |executions|
      ensures FlagsMatch(rows', SetStatus(executions, i, Stale)[k])
    {
      assert executions[k] in executions && FlagsMatch(rows, executions[k]);
    }
    forall id: nat | Locate(SetStatus(executions, i, Stale), id) == |executions|
      ensures CountEvents(rows', StaleFlagOf(id)) == 0
    {
      LocateSetStatus(executions, i, Stale, id);
      LocateMisses(executions, i, id);
    }
  }

  lemma LocateMisses(executions: seq<ExecutionRow>, i: nat, id: nat)
    requires i < |executions| && Locate(executions, id) == |executions|
    ensures executions[i].executionId != id
  {
    assert executions[i] in executions;
  }

  // The events of the operations

  /** Events of other kinds leave the counted events alone. */
  lemma PlainEventKeepsCounts(db: Db, db': Db, txn: Id, fact: Fact)
    requires CountsInv(db) && db'.log == Append(db.log, txn, fact)
    requires db'.executions == db.executions && db'.seen == db.seen && db'.revocations == db.revocations
    requires forall kind: Once :: !IsEvent(kind, txn, fact)
    ensures CountsInv(db')
  {
    hide OneMore, FlagsInv, PaidInv, RevokedInv, Append, IsEvent;
    EventCounted(db.log, txn, fact, {});
    FlagsKept(db.log.rows, db'.log.rows, {}, db.executions);
    PaidKept(db.log.rows, db'.log.rows, {}, db.seen.Keys);
    RevokedKept(db.log.rows, db'.log.rows, {}, db.revocations.Keys);
  }

  lemma RevocationEventKeepsCounts(db: Db, db': Db, a: Id, revocation: Revocation, fact: Fact)
    requires CountsInv(db) && a !in db.revocations && fact.eventType == MandateRevokedEvent
    requires db'.log == Append(db.log, a, fact) && db'.revocations == db.revocations[a := revocation]
    requires db'.executions == db.executions && db'.seen == db.seen
    ensures CountsInv(db')
  {
    hide FlagsInv, PaidInv, CountEvents, Append;
    var grown: set<Once> := {RevocationOf(a)};
    EventCounted(db.log, a, fact, grown);
    FlagsKept(db.log.rows, db'.log.rows, grown, db.executions);
    PaidKept(db.log.rows, db'.log.rows, grown, db.seen.Keys);
  }

  lemma OrderEventKeepsCounts(db: Db, db': Db, a: Id, e: ExecutionRow, fact: Fact)
    requires CountsInv(db) && db'.log == Append(db.log, a, fact) && fact.eventType == OrderCreated
    requires FreshOrder(db, e) && e.status == Created && db'.executions == db.executions + [e]
    requires db'.seen == db.seen && db'.revocations == db.revocations
    ensures CountsInv(db')
  {
    hide FlagsInv, PaidInv, RevokedInv, CountEvents, Append;
    assert Locate(db.executions, e.executionId) == |db.executions|;
    PlainEventKeepsCounts(db, db.(log := db'.log), a, fact);
    FlagsOfNewOrder(db'.log.rows, db.executions, e);
  }

  lemma FlagEventKeepsCounts(db: Db, db': Db, a: Id, i: nat, fact: Fact)
    requires CountsInv(db) && DistinctExecutions(db.executions)
    requires i < |db.executions| && db.executions[i].status == Created
    requires db'.log == Append(db.log, a, fact) && fact.eventType == PaymentStale
    requires fact.payload.StaleJson? && fact.payload.executionId == db.executions[i].executionId
    requires db'.executions == SetStatus(db.executions, i, Stale)
    requires db'.seen == db.seen && db'.revocations == db.revocations
    ensures CountsInv(db')
  {
    hide OneMore, FlagsInv, PaidInv, RevokedInv, CountEvents, Append;
    var grown: set<Once> := {StaleFlagOf(db.executions[i].executionId)};
    EventCounted(db.log, a, fact, grown);
    FlagsOfFlagged(db.log.rows, db'.log.rows, db.executions, i);
    PaidKept(db.log.rows, db'.log.rows, grown, db.seen.Keys);
    RevokedKept(db.log.rows, db'.log.rows, grown, db.revocations.Keys);
  }

  lemma PaymentEventKeepsCounts(db: Db, db': Db, a: Id, i: nat, status: Status, paymentId: Id, fact: Fact)
    requires CountsInv(db) && i < |db.executions| && !Unsettled(status) && paymentId !in db.seen
    requires db'.log == Append(db.log, a, fact)
    requires fact.eventType == PaymentCaptured || fact.eventType == PaymentAmountMismatch
    requires fact.payload.PaymentJson? && fact.payload.paymentId == paymentId
    requires db'.executions == SetStatus(db.executions, i, status)
    requires db'.seen.Keys == db.seen.Keys + {paymentId} && db'.revocations == db.revocations
    ensures CountsInv(db')
  {
    hide FlagsInv, RevokedInv, CountEvents, Append;
    var grown: set<Once> := {PaymentOf(paymentId)};
    EventCounted(db.log, a, fact, grown);
    FlagsKept(db.log.rows, db'.log.rows, grown, db.executions);
    FlagsOfSettled(db'.log.rows, db.executions, i, status);
    RevokedKept(db.log.rows, db'.log.rows, grown, db.revocations.Keys);
  }
}

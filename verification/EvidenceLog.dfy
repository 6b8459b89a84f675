/** The append-only, hash-chained evidence table (app/evidence/log.py). */
module EvidenceLog {
  import opened Wrappers
  import opened Canonical

  datatype EventType =
    | MandateSigned
    | AgentRequestRejected
    | AgentRequestReceived
    | ReplayAttemptBlocked
    | PolicyEvaluated
    | MandateRevokedEvent
    | OrderCreated
    | PaymentStale
    | PaymentCaptured
    | PaymentAmountMismatch

  /** The part of a row that says what happened. */
  datatype Fact = Fact(eventType: EventType, actor: string, payload: Payload)

  datatype Row = Row(
    createdAt: nat,
    transactionId: Id,
    prevHash: Hash,
    payloadHash: Hash,
    chainHash: Hash,
    fact: Fact)

  /** The table, and the logical clock that stamps `created_at`: no two inserts share a stamp. */
  datatype Log = Log(rows: seq<Row>, clock: nat)

  const EMPTY_LOG := Log([], 0)

  // The queries

  /** WHERE transaction_id = ... */
  function Select(rows: seq<Row>, txn: Id): seq<Row> {
    if rows == [] then []
    else
      var last := |rows| - 1;
      Select(rows[..last], txn) + (if rows[last].transactionId == txn then [rows[last]] else [])
  }

  /** ORDER BY created_at DESC, first row */
  function Newest(rows: seq<Row>): Option<Row> {
    if rows == [] then None
    else
      var last := |rows| - 1;
      var best := Newest(rows[..last]);
      if best.None? || best.value.createdAt <= rows[last].createdAt then Some(rows[last]) else best
  }

  function Insert(row: Row, sorted: seq<Row>): seq<Row> {
    if sorted == [] || row.createdAt < sorted[0].createdAt then [row] + sorted
    else [sorted[0]] + Insert(row, sorted[1..])
  }

  /** ORDER BY created_at ASC */
  function OldestFirst(rows: seq<Row>): seq<Row> {
    if rows == [] then [] else Insert(rows[|rows| - 1], OldestFirst(rows[..|rows| - 1]))
  }

  function GetChain(log: Log, txn: Id): seq<Row> {
    OldestFirst(Select(log.rows, txn))
  }

  /** What appending reads first: the chain hash of the newest row of the transaction. */
  function Previous(log: Log, txn: Id): Hash {
    var last := Newest(Select(log.rows, txn));
    if last.Some? then last.value.chainHash else Genesis
  }

  /** The row that appending then writes, linked to the hash that was read. */
  function RowAfter(log: Log, prev: Hash, txn: Id, fact: Fact): Row {
    var payloadHash := HashJson(fact.payload);
    Row(log.clock, txn, prev, payloadHash, ChainHash(prev, payloadHash), fact)
  }

  function InsertAfter(log: Log, prev: Hash, txn: Id, fact: Fact): Log {
    Log(log.rows + [RowAfter(log, prev, txn, fact)], log.clock + 1)
  }

  /** Reading and writing with nothing in between, as under the authorization lock. */
  function NextRow(log: Log, txn: Id, fact: Fact): Row {
    RowAfter(log, Previous(log, txn), txn, fact)
  }

  function Append(log: Log, txn: Id, fact: Fact): Log {
    InsertAfter(log, Previous(log, txn), txn, fact)
  }

  function Facts(rows: seq<Row>): seq<Fact> {
    if rows == [] then [] else Facts(rows[..|rows| - 1]) + [rows[|rows| - 1].fact]
  }

  /** What the log says about one transaction, in append order. */
  function History(log: Log, txn: Id): seq<Fact> {
    Facts(Select(log.rows, txn))
  }

  // Verification

  function PrevOf(rows: seq<Row>, i: nat): Hash
    requires i <= |rows|
  {
    if i == 0 then Genesis else rows[i - 1].chainHash
  }

  predicate RowVerifies(row: Row, prev: Hash) {
    && row.payloadHash == HashJson(row.fact.payload)
    && row.chainHash == ChainHash(prev, row.payloadHash)
  }

  ghost predicate VerifiesAt(rows: seq<Row>, i: nat)
    requires i < |rows|
  {
    RowVerifies(rows[i], PrevOf(rows, i))
  }

  ghost predicate Verifies(rows: seq<Row>) {
    forall i :: 0 <= i < |rows| ==> VerifiesAt(rows, i)
  }

  /** Recomputes the chain from the stored payloads, carrying the previous hash. */
  method VerifyChain(events: seq<Row>) returns (ok: bool)
    ensures ok <==> Verifies(events)
  {
    var prev := Genesis;
    for i := 0 to |events|
      invariant prev == PrevOf(events, i)
      invariant forall k :: 0 <= k < i ==> VerifiesAt(events, k)
    {
      var event := events[i];
      if HashJson(event.fact.payload) != event.payloadHash {
        assert !VerifiesAt(events, i);
        return false;
      }
      if ChainHash(prev, event.payloadHash) != event.chainHash {
        assert !VerifiesAt(events, i);
        return false;
      }
      prev := event.chainHash;
    }
    return true;
  }

  /** The stored table with its two operations. */
  class EvidenceStore {
    var rows: seq<Row>
    var clock: nat

    function Value(): Log
      reads this
    {
      Log(rows, clock)
    }

    constructor ()
      ensures Value() == EMPTY_LOG
    {
      rows := [];
      clock := 0;
    }

    method ReadPrevious(txn: Id) returns (prevHash: Hash)
      ensures prevHash == Previous(Value(), txn)
    {
      var last := Newest(Select(rows, txn));
      prevHash := if last.Some? then last.value.chainHash else Genesis;
    }

    method InsertEvent(prevHash: Hash, txn: Id, eventType: EventType, actor: string, payload: Payload)
        returns (event: Row)
      modifies this
      ensures Value() == InsertAfter(old(Value()), prevHash, txn, Fact(eventType, actor, payload))
      ensures event == old(RowAfter(Value(), prevHash, txn, Fact(eventType, actor, payload)))
    {
      var payloadHash := HashJson(payload);
      event := Row(clock, txn, prevHash, payloadHash, ChainHash(prevHash, payloadHash),
                   Fact(eventType, actor, payload));
      rows := rows + [event];
      clock := clock + 1;
    }

    method AppendEvent(txn: Id, eventType: EventType, actor: string, payload: Payload) returns (event: Row)
      modifies this
      ensures Value() == Append(old(Value()), txn, Fact(eventType, actor, payload))
      ensures event == old(NextRow(Value(), txn, Fact(eventType, actor, payload)))
    {
      var prevHash := ReadPrevious(txn);
      event := InsertEvent(prevHash, txn, eventType, actor, payload);
    }
  }

  // Soundness of the stored table

  ghost predicate Stamped(rows: seq<Row>, clock: nat) {
    && (forall i :: 0 <= i < |rows| ==> rows[i].createdAt < clock)
    && (forall i, j :: 0 <= i < j < |rows| ==> rows[i].createdAt < rows[j].createdAt)
  }

  /** Every chain verifies, its prev_hash column agrees with the row before, and stamps increase. */
  ghost predicate SoundLog(log: Log) {
    && Stamped(log.rows, log.clock)
    && forall txn :: Verifies(Select(log.rows, txn)) && LinksMatch(Select(log.rows, txn))
  }

  ghost predicate LinksAt(rows: seq<Row>, i: nat)
    requires i < |rows|
  {
    rows[i].prevHash == PrevOf(rows, i)
  }

  ghost predicate LinksMatch(rows: seq<Row>) {
    forall i :: 0 <= i < |rows| ==> LinksAt(rows, i)
  }

  lemma {:induction false} SelectIsStamped(rows: seq<Row>, txn: Id, clock: nat)
    requires Stamped(rows, clock)
    ensures Stamped(Select(rows, txn), clock)
  {
    if rows != [] {
      var last := |rows| - 1;
      SelectIsStamped(rows[..last], txn, rows[last].createdAt);
    }
  }

  lemma NewestIsLast(rows: seq<Row>, clock: nat)
    requires Stamped(rows, clock)
    ensures Newest(rows) == if rows == [] then None else Some(rows[|rows| - 1])
  {
    if |rows| > 1 {
      NewestIsLast(rows[..|rows| - 1], clock);
    }
  }

  lemma {:induction false} InsertAtEnd(row: Row, sorted: seq<Row>)
    requires forall i :: 0 <= i < |sorted| ==> sorted[i].createdAt < row.createdAt
    ensures Insert(row, sorted) == sorted + [row]
  {
    if sorted != [] {
      InsertAtEnd(row, sorted[1..]);
    }
  }

  lemma OldestFirstUnfolds(rows: seq<Row>)
    ensures OldestFirst(rows)
         == if rows == [] then [] else Insert(rows[|rows| - 1], OldestFirst(rows[..|rows| - 1]))
  {}

  lemma {:induction false} OrderIsAppendOrder(rows: seq<Row>, clock: nat)
    requires Stamped(rows, clock)
    ensures OldestFirst(rows) == rows
  {
    hide OldestFirst, Insert;
    OldestFirstUnfolds(rows);
    if rows != [] {
      var last := |rows| - 1;
      OrderIsAppendOrder(rows[..last], clock);
      InsertAtEnd(rows[last], rows[..last]);
    }
  }

  lemma StampedChain(log: Log, txn: Id)
    requires Stamped(log.rows, log.clock)
    ensures GetChain(log, txn) == Select(log.rows, txn)
  {
    SelectIsStamped(log.rows, txn, log.clock);
    OrderIsAppendOrder(Select(log.rows, txn), log.clock);
  }

  lemma ChainIsSelection(log: Log, txn: Id)
    requires SoundLog(log)
    ensures GetChain(log, txn) == Select(log.rows, txn)
  {
    StampedChain(log, txn);
  }

  /** Appending extends the chain of its transaction by one row, in order, and no other chain. */
  lemma AppendExtendsChain(log: Log, txn: Id, fact: Fact, other: Id)
    requires SoundLog(log)
    ensures SoundLog(Append(log, txn, fact))
    ensures GetChain(Append(log, txn, fact), other)
         == if other == txn then GetChain(log, other) + [NextRow(log, txn, fact)] else GetChain(log, other)
  {
    AppendKeepsSound(log, txn, fact);
    ChainIsSelection(log, other);
    ChainIsSelection(Append(log, txn, fact), other);
    SelectOfAppend(log, txn, fact, other);
  }

  lemma SelectOfRow(rows: seq<Row>, row: Row, other: Id)
    ensures Select(rows + [row], other)
         == if other == row.transactionId then Select(rows, other) + [row] else Select(rows, other)
  {
    assert (rows + [row])[..|rows|] == rows;
    assert Select(rows, other) + [] == Select(rows, other);
  }

  lemma SelectOfAppend(log: Log, txn: Id, fact: Fact, other: Id)
    ensures Select(Append(log, txn, fact).rows, other)
         == if other == txn then Select(log.rows, other) + [NextRow(log, txn, fact)] else Select(log.rows, other)
  {
    SelectOfRow(log.rows, NextRow(log, txn, fact), other);
  }

  lemma FactsOfAppend(rows: seq<Row>, row: Row)
    ensures Facts(rows + [row]) == Facts(rows) + [row.fact]
  {
    assert (rows + [row])[..|rows|] == rows;
  }

  lemma HistoryOfAppend(log: Log, txn: Id, fact: Fact, other: Id)
    ensures History(Append(log, txn, fact), other)
         == if other == txn then History(log, other) + [fact] else History(log, other)
  {
    SelectOfAppend(log, txn, fact, other);
    FactsOfAppend(Select(log.rows, txn), NextRow(log, txn, fact));
  }

  /** The hash that appending reads is that of the last row of the chain. */
  lemma PreviousIsLast(log: Log, txn: Id)
    requires Stamped(log.rows, log.clock)
    ensures Previous(log, txn) == PrevOf(Select(log.rows, txn), |Select(log.rows, txn)|)
  {
    SelectIsStamped(log.rows, txn, log.clock);
    NewestIsLast(Select(log.rows, txn), log.clock);
  }

  lemma InsertKeepsStamps(log: Log, prev: Hash, txn: Id, fact: Fact)
    requires Stamped(log.rows, log.clock)
    ensures Stamped(InsertAfter(log, prev, txn, fact).rows, InsertAfter(log, prev, txn, fact).clock)
  {}

  /** A further row verifies with its chain exactly when it links to the last row. */
  lemma VerifiesWithRow(chain: seq<Row>, row: Row)
    ensures Verifies(chain + [row]) <==> Verifies(chain) && RowVerifies(row, PrevOf(chain, |chain|))
  {
    var longer := chain + [row];
    assert forall i :: 0 <= i < |chain| ==> (VerifiesAt(longer, i) <==> VerifiesAt(chain, i));
    assert VerifiesAt(longer, |chain|) <==> RowVerifies(row, PrevOf(chain, |chain|));
  }

  /** Appending neither breaks nor repairs a chain. */
  lemma AppendKeepsVerdict(log: Log, txn: Id, fact: Fact, other: Id)
    requires Stamped(log.rows, log.clock)
    ensures Verifies(Select(Append(log, txn, fact).rows, other)) <==> Verifies(Select(log.rows, other))
  {
    SelectOfAppend(log, txn, fact, other);
    if other == txn {
      PreviousIsLast(log, txn);
      VerifiesWithRow(Select(log.rows, txn), NextRow(log, txn, fact));
    }
  }

  lemma AppendKeepsSound(log: Log, txn: Id, fact: Fact)
    requires SoundLog(log)
    ensures SoundLog(Append(log, txn, fact))
  {
    var log' := Append(log, txn, fact);
    forall other
      ensures Verifies(Select(log'.rows, other)) && LinksMatch(Select(log'.rows, other))
    {
      var chain := Select(log.rows, other);
      SelectOfAppend(log, txn, fact, other);
      SelectIsStamped(log.rows, other, log.clock);
      NewestIsLast(chain, log.clock);
      assert Verifies(chain) && LinksMatch(chain);
      var chain' := Select(log'.rows, other);
      forall i | 0 <= i < |chain'|
        ensures VerifiesAt(chain', i) && LinksAt(chain', i)
      {
        if i < |chain| {
          assert VerifiesAt(chain, i) && LinksAt(chain, i);
        }
      }
    }
  }
}

/** What chain verification detects, and what it does not. */
module TamperEvidence {
  import opened Canonical
  import opened EvidenceLog

  /** The columns that verification reads. */
  ghost predicate SameContent(a: Row, b: Row) {
    && a.fact.payload == b.fact.payload
    && a.payloadHash == b.payloadHash
    && a.chainHash == b.chainHash
  }

  ghost predicate ContentPrefix(a: seq<Row>, b: seq<Row>) {
    |a| <= |b| && forall i :: 0 <= i < |a| ==> SameContent(a[i], b[i])
  }

  /** A chain hash commits to its position and to every payload up to it. */
  lemma {:induction false} HashCommits(forged: seq<Row>, genuine: seq<Row>, i: nat, j: nat)
    requires Verifies(forged) && Verifies(genuine)
    requires i < |forged| && j < |genuine| && forged[i].chainHash == genuine[j].chainHash
    ensures i == j && forall k :: 0 <= k <= i ==> SameContent(forged[k], genuine[k])
  {
    assert VerifiesAt(forged, i) && VerifiesAt(genuine, j);
    if i > 0 {
      assert VerifiesAt(forged, i - 1);
    }
    if j > 0 {
      assert VerifiesAt(genuine, j - 1);
    }
    if i > 0 && j > 0 {
      HashCommits(forged, genuine, i - 1, j - 1);
    }
  }

  /** If any list verifies and ends in a hash of a genuine chain, it repeats that chain up to there. */
  lemma TamperEvident(forged: seq<Row>, genuine: seq<Row>, j: nat)
    requires Verifies(forged) && Verifies(genuine)
    requires forged != [] && j < |genuine| && forged[|forged| - 1].chainHash == genuine[j].chainHash
    ensures |forged| == j + 1 && ContentPrefix(forged, genuine)
  {
    HashCommits(forged, genuine, |forged| - 1, j);
  }

  /** A row written with the hash that was the last when the chain had `n` rows verifies exactly when it still is. */
  lemma StaleRowDetected(chain: seq<Row>, n: nat, row: Row)
    requires Verifies(chain) && n <= |chain| && RowVerifies(row, PrevOf(chain, n))
    ensures Verifies(chain + [row]) <==> n == |chain|
  {
    VerifiesWithRow(chain, row);
    assert |chain| > 0 ==> VerifiesAt(chain, |chain| - 1);
    if 0 < n < |chain| && PrevOf(chain, n) == PrevOf(chain, |chain|) {
      HashCommits(chain, chain, n - 1, |chain| - 1);
    }
  }

  /** A chain hash that occurs in the stored chain. */
  ghost predicate Stored(hash: Hash, genuine: seq<Row>) {
    exists j :: 0 <= j < |genuine| && genuine[j].chainHash == hash
  }

  /** Any list assembled from stored chain hashes, with payloads edited, rows dropped, repeated or
    * reordered at will, verifies exactly when it is a prefix of the genuine chain.
    */
  lemma OnlyPrefixesVerify(forged: seq<Row>, genuine: seq<Row>)
    requires Verifies(genuine)
    requires forall row <- forged :: Stored(row.chainHash, genuine)
    ensures Verifies(forged) <==> ContentPrefix(forged, genuine)
  {
    if Verifies(forged) && forged != [] {
      assert Stored(forged[|forged| - 1].chainHash, genuine);
      var j :| 0 <= j < |genuine| && genuine[j].chainHash == forged[|forged| - 1].chainHash;
      TamperEvident(forged, genuine, j);
    }
    if ContentPrefix(forged, genuine) {
      forall i | 0 <= i < |forged|
        ensures VerifiesAt(forged, i)
      {
        assert VerifiesAt(genuine, i) && SameContent(forged[i], genuine[i]);
        assert i > 0 ==> SameContent(forged[i - 1], genuine[i - 1]);
      }
    }
  }

  /** Replacing one stored row and no other is detected exactly unless it keeps the hashed columns, or it
    * is the last row and its own hashes were recomputed.
    */
  lemma RowEditDetected(genuine: seq<Row>, i: nat, row: Row)
    requires Verifies(genuine) && i < |genuine|
    ensures Verifies(genuine[i := row]) <==>
            SameContent(row, genuine[i]) || (i == |genuine| - 1 && RowVerifies(row, PrevOf(genuine, i)))
  {
    var edited := genuine[i := row];
    if Verifies(edited) && i < |genuine| - 1 {
      assert edited[|genuine| - 1].chainHash == genuine[|genuine| - 1].chainHash;
      HashCommits(edited, genuine, |genuine| - 1, |genuine| - 1);
    }
    if Verifies(edited) && i == |genuine| - 1 {
      assert VerifiesAt(edited, i) && PrevOf(edited, i) == PrevOf(genuine, i);
    }
    if SameContent(row, genuine[i]) || (i == |genuine| - 1 && RowVerifies(row, PrevOf(genuine, i))) {
      forall k | 0 <= k < |edited|
        ensures VerifiesAt(edited, k)
      {
        assert VerifiesAt(genuine, k);
      }
    }
  }

  /** Deleting one stored row is detected exactly unless it is the last. */
  lemma RowDeletionDetected(genuine: seq<Row>, i: nat)
    requires Verifies(genuine) && i < |genuine|
    ensures Verifies(genuine[..i] + genuine[i + 1..]) <==> i == |genuine| - 1
  {
    var rest := genuine[..i] + genuine[i + 1..];
    assert forall row <- rest :: row in genuine;
    OnlyPrefixesVerify(rest, genuine);
    if i < |genuine| - 1 && ContentPrefix(rest, genuine) {
      assert SameContent(rest[i], genuine[i]) && rest[i] == genuine[i + 1];
      HashCommits(genuine, genuine, i, i + 1);
    }
  }

  /** The claim fails at the end of a chain: a two-event chain with its last event dropped verifies. */
  lemma TruncationIsNotDetected(p: Payload, q: Payload)
    ensures var log := Append(Append(EMPTY_LOG, "tx", Fact(MandateSigned, "user", p)), "tx",
                              Fact(OrderCreated, "executor", q));
            |Select(log.rows, "tx")| == 2 && Verifies(Select(log.rows, "tx")[..1])
  {
    var log1 := Append(EMPTY_LOG, "tx", Fact(MandateSigned, "user", p));
    SelectOfAppend(EMPTY_LOG, "tx", Fact(MandateSigned, "user", p), "tx");
    SelectOfAppend(log1, "tx", Fact(OrderCreated, "executor", q), "tx");
  }

  // Recomputed hashes

  /** The same payloads with all hashes recomputed from the start. */
  function Rehashed(rows: seq<Row>): (r: seq<Row>)
    ensures |r| == |rows|
  {
    if rows == [] then []
    else
      var last := |rows| - 1;
      var before := Rehashed(rows[..last]);
      var prev := PrevOf(before, last);
      var payloadHash := HashJson(rows[last].fact.payload);
      before + [rows[last].(prevHash := prev, payloadHash := payloadHash, chainHash := ChainHash(prev, payloadHash))]
  }

  /** Whoever recomputes the hashes to the end passes: any list of facts has a list of rows that verifies. */
  lemma {:induction false} RehashedVerifies(rows: seq<Row>)
    ensures Verifies(Rehashed(rows))
    ensures forall i :: 0 <= i < |rows| ==> Rehashed(rows)[i].fact == rows[i].fact
  {
    if rows != [] {
      var last := |rows| - 1;
      var before := Rehashed(rows[..last]);
      RehashedVerifies(rows[..last]);
      forall i | 0 <= i < |rows|
        ensures VerifiesAt(Rehashed(rows), i) && Rehashed(rows)[i].fact == rows[i].fact
      {
        if i < last {
          assert VerifiesAt(before, i) && before[i].fact == rows[..last][i].fact;
        }
      }
    }
  }

  ghost predicate SamePayloads(a: seq<Row>, b: seq<Row>, n: nat)
    requires n <= |a| && n <= |b|
  {
    forall k :: 0 <= k < n ==> a[k].fact.payload == b[k].fact.payload
  }

  /** In verifying lists the payloads determine the hashes. */
  lemma {:induction false} PayloadsDetermineHashes(a: seq<Row>, b: seq<Row>, i: nat)
    requires Verifies(a) && Verifies(b) && i < |a| && i < |b| && SamePayloads(a, b, i + 1)
    ensures SameContent(a[i], b[i])
  {
    assert VerifiesAt(a, i) && VerifiesAt(b, i);
    if i > 0 {
      PayloadsDetermineHashes(a, b, i - 1);
    }
  }

  /** A list verifies exactly when its hashes are those recomputed from its own payloads. */
  lemma VerifiesExactlyRehashed(rows: seq<Row>)
    ensures Verifies(rows) <==> forall i :: 0 <= i < |rows| ==> SameContent(rows[i], Rehashed(rows)[i])
  {
    var rehashed := Rehashed(rows);
    RehashedVerifies(rows);
    if Verifies(rows) {
      forall i | 0 <= i < |rows|
        ensures SameContent(rows[i], rehashed[i])
      {
        PayloadsDetermineHashes(rows, rehashed, i);
      }
    }
    if forall i :: 0 <= i < |rows| ==> SameContent(rows[i], rehashed[i]) {
      LabelsAreNotCovered(rows, rehashed);
    }
  }

  /** Two verifying lists share a chain hash exactly at the positions before which they agree on every payload. */
  lemma SharedHashesExactly(a: seq<Row>, b: seq<Row>, i: nat, j: nat)
    requires Verifies(a) && Verifies(b) && i < |a| && j < |b|
    ensures a[i].chainHash == b[j].chainHash <==> i == j && SamePayloads(a, b, i + 1)
  {
    if a[i].chainHash == b[j].chainHash {
      HashCommits(a, b, i, j);
    }
    if i == j && SamePayloads(a, b, i + 1) {
      PayloadsDetermineHashes(a, b, i);
    }
  }

  /** Any row, not only the last, can be rewritten unnoticed by recomputing the hashes from there to the end; from the
    * rewritten row on the result shares no chain hash with the genuine chain.
    */
  lemma RewriteIsNotDetected(genuine: seq<Row>, i: nat, fact: Fact)
    requires Verifies(genuine) && i < |genuine| && fact.payload != genuine[i].fact.payload
    ensures var rewritten := Rehashed(genuine[i := genuine[i].(fact := fact)]);
            && Verifies(rewritten) && rewritten[i].fact == fact
            && (forall k :: 0 <= k < |genuine| && k != i ==> rewritten[k].fact == genuine[k].fact)
            && (forall k, j :: i <= k < |genuine| && 0 <= j < |genuine| ==>
                  rewritten[k].chainHash != genuine[j].chainHash)
  {
    var edited := genuine[i := genuine[i].(fact := fact)];
    var rewritten := Rehashed(edited);
    RehashedVerifies(edited);
    forall k, j | i <= k < |genuine| && 0 <= j < |genuine|
      ensures rewritten[k].chainHash != genuine[j].chainHash
    {
      SharedHashesExactly(rewritten, genuine, k, j);
      assert rewritten[i].fact.payload != genuine[i].fact.payload;
    }
  }

  /** Nothing but the last chain hash kept elsewhere detects everything: a list that verifies and ends in it has exactly
    * the genuine payloads and hashes, no more and no fewer.
    */
  lemma AnchoredHeadDetects(forged: seq<Row>, genuine: seq<Row>)
    requires Verifies(genuine) && genuine != []
    ensures Verifies(forged) && forged != [] && forged[|forged| - 1].chainHash == genuine[|genuine| - 1].chainHash
       <==> |forged| == |genuine| && ContentPrefix(forged, genuine)
  {
    if Verifies(forged) && forged != [] && forged[|forged| - 1].chainHash == genuine[|genuine| - 1].chainHash {
      TamperEvident(forged, genuine, |genuine| - 1);
    }
    if |forged| == |genuine| && ContentPrefix(forged, genuine) {
      LabelsAreNotCovered(forged, genuine);
    }
  }

  /** Verification reads the payload and the two hashes only: relabelling events changes nothing. */
  lemma LabelsAreNotCovered(rows: seq<Row>, relabelled: seq<Row>)
    requires |rows| == |relabelled| && forall i :: 0 <= i < |rows| ==> SameContent(rows[i], relabelled[i])
    ensures Verifies(rows) <==> Verifies(relabelled)
  {
    forall i | 0 <= i < |rows|
      ensures VerifiesAt(rows, i) <==> VerifiesAt(relabelled, i)
    {
      assert SameContent(rows[i], relabelled[i]);
      assert i > 0 ==> SameContent(rows[i - 1], relabelled[i - 1]);
    }
  }
}

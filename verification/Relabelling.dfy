/** What the labels that verification does not cover mean to the reconstruction of the tables. */
module Relabelling {
  import opened Canonical
  import opened EvidenceLog
  import opened TamperEvidence
  import opened Tables
  import opened Replay

  /** What an event's labels make of its payload. */
  datatype Reading =
    | SignsMandate
    | StoresRequest(agentId: string)
    | RepeatsRequest
    | Decides
    | Revokes
    | OpensOrder
    | SetsStatus(status: Status)
    | SaysNothing

  function ReadingOf(f: Fact): Reading {
    match (f.eventType, f.payload)
    case (MandateSigned, EnvelopeJson(_)) => SignsMandate
    case (AgentRequestReceived, RequestJson(_, _, _, _)) => StoresRequest(f.actor)
    case (ReplayAttemptBlocked, RequestJson(_, _, _, _)) => RepeatsRequest
    case (PolicyEvaluated, VerdictJson(_)) => Decides
    case (MandateRevokedEvent, RevocationJson(_, _, _)) => Revokes
    case (OrderCreated, OrderJson(_, _, _)) => OpensOrder
    case (PaymentStale, StaleJson(_, _, _, _, _)) => SetsStatus(Stale)
    case (PaymentCaptured, PaymentJson(_, _, _)) => SetsStatus(Captured)
    case (PaymentAmountMismatch, PaymentJson(_, _, _)) => SetsStatus(AmountMismatch)
    case _ => SaysNothing
  }

  /** A reconstruction on which every reading of the payload has a different effect. */
  function Discriminating(payload: Payload): Replayed {
    match payload
    case RequestJson(requestId, _, _, _) => Replayed(NOTHING, requestId + "'")
    case StaleJson(_, order, _, _, _) => Replayed(NOTHING.(orders := map[order := OrderView(0, "", Created)]), "")
    case PaymentJson(_, order, _) => Replayed(NOTHING.(orders := map[order := OrderView(0, "", Created)]), "")
    case _ => Replayed(NOTHING, "")
  }

  lemma DifferentReadingsActDifferently(f: Fact, f': Fact)
    requires f.payload == f'.payload && ReadingOf(f) != ReadingOf(f')
    ensures ReplayFact(Discriminating(f.payload), f) != ReplayFact(Discriminating(f.payload), f')
  {
    var s := Discriminating(f.payload);
    var r, r' := ReplayFact(s, f), ReplayFact(s, f');
    match f.payload
    case RequestJson(requestId, nonce, _, _) =>
      assert |requestId + "'"| > |requestId|;
      assert r.current != r'.current || (nonce in r.view.nonces <==> nonce !in r'.view.nonces)
             || r.view.nonces[nonce].agentId != r'.view.nonces[nonce].agentId;
    case OrderJson(order, _, _) => assert order in r.view.orders <==> order !in r'.view.orders;
    case StaleJson(_, order, _, _, _) => assert r.view.orders[order].status != r'.view.orders[order].status;
    case PaymentJson(_, order, _) => assert r.view.orders[order].status != r'.view.orders[order].status;
    case _ =>
  }

  /** Two labellings of a payload act alike on every reconstruction exactly when they read alike. */
  lemma LabelsActAlikeExactlyWhen(f: Fact, f': Fact)
    requires f.payload == f'.payload
    ensures (forall s :: ReplayFact(s, f) == ReplayFact(s, f')) <==> ReadingOf(f) == ReadingOf(f')
  {
    if ReadingOf(f) != ReadingOf(f') {
      DifferentReadingsActDifferently(f, f');
    }
  }

  lemma ReplayLast(rows: seq<Row>)
    requires rows != []
    ensures ReplayAll(Facts(rows))
         == ReplayFact(ReplayAll(Facts(rows[..|rows| - 1])), rows[|rows| - 1].fact)
  {
    ReplayAppend(Facts(rows[..|rows| - 1]), rows[|rows| - 1].fact);
  }

  /** Lists with the same payloads, read alike, rebuild the same rows: only labels that change a reading matter. */
  lemma {:induction false} SameReadingsSameRows(rows: seq<Row>, relabelled: seq<Row>)
    requires |rows| == |relabelled|
    requires forall i :: 0 <= i < |rows| ==>
               && SameContent(rows[i], relabelled[i])
               && ReadingOf(rows[i].fact) == ReadingOf(relabelled[i].fact)
    ensures Verifies(rows) <==> Verifies(relabelled)
    ensures ReplayAll(Facts(rows)) == ReplayAll(Facts(relabelled))
  {
    hide ReplayFact, ReadingOf, Verifies, ReplayAll, Facts;
    LabelsAreNotCovered(rows, relabelled);
    if rows == [] {
      assert rows == relabelled;
    } else {
      var last := |rows| - 1;
      SameReadingsSameRows(rows[..last], relabelled[..last]);
      LabelsActAlikeExactlyWhen(rows[last].fact, relabelled[last].fact);
      ReplayLast(rows);
      ReplayLast(relabelled);
    }
  }

  /** Any chain that ends with the capture of a known order can be relabelled to say that the amounts differed:
    * it still verifies, and rebuilds another status.
    */
  lemma RelabelledCaptureRebuildsMismatch(rows: seq<Row>, order: Id)
    requires Verifies(rows) && rows != []
    requires var last := rows[|rows| - 1].fact;
             && last.eventType == PaymentCaptured && last.payload.PaymentJson? && last.payload.paidOrderId == order
             && order in ReplayAll(Facts(rows[..|rows| - 1])).view.orders
    ensures var last := |rows| - 1;
            var other := rows[last].fact.(eventType := PaymentAmountMismatch);
            var relabelled := rows[last := rows[last].(fact := other)];
            var view, view' := ReplayAll(Facts(rows)).view, ReplayAll(Facts(relabelled)).view;
            && Verifies(relabelled)
            && order in view.orders && view.orders[order].status == Captured
            && order in view'.orders && view'.orders[order].status == AmountMismatch
  {
    hide Verifies, ReplayAll, Facts;
    var last := |rows| - 1;
    var other := rows[last].fact.(eventType := PaymentAmountMismatch);
    var relabelled := rows[last := rows[last].(fact := other)];
    LabelsAreNotCovered(rows, relabelled);
    assert relabelled[..last] == rows[..last];
    ReplayLast(rows);
    ReplayLast(relabelled);
  }
}

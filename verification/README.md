# A verified model of the agentic authorization firewall

The service holds signed mandates in which a user limits what a shopping agent may buy. An agent sends a signed
request with a cart; a deterministic policy answers ALLOW, BLOCK or RECONSENT; an ALLOW may be turned into one payment
order; webhooks settle orders; a sweep flags the ones nobody paid; an operator may revoke a mandate at any time. Every
change is written to a hash-chained evidence log, and a rate limiter stands in front of the agent endpoint.

The project models these parts and proves properties of all their runs:

- **The state machine.** `Firewall.Service` is the service as an object: its tables are fields and its methods update
  them as the handlers do. Each method is proved to perform one step function of `Operations`. `Runs` takes any
  interleaving of the steps. The webhook's order lookup and the sweep's candidate query are steps of their own, made
  without the lock, and leave possibly outdated local data behind; only the re-checks under the lock protect the later
  step. `Invariants`, `Preservation`, `Replay`, `Counting` and `Reachability` establish the invariant of every
  reachable state; `Guarantees`, `Footprint`, `Authenticity`, `Provenance`, `SpendingBound`, `RevocationLaws`,
  `Withdrawal`, `Draining` and `Deduplication` draw the conclusions. `LogIndependence` compares systems that differ
  only in their logs; `Erasure` and `LateSigning` use it. `Uninterrupted` joins the steps of a handler together, and
  by it every handler of the class keeps the service in a state that a legal run reaches, so that the theorems about
  runs hold of the object. `Instances` has runs from the empty database.
- **Answers and effects.** `Effects` says of every operation exactly which answer it gives when, and what it then
  leaves in each table and in each history; `PolicyLaws` does the same for every decision and reason,
  `RateLimiterAnswers` for every answer of the limiter, and `Draining` for sweeps. These are stated over the fields of
  mandates, carts, requests and rows, without the functions that the operations are built from.
- **The evidence chain.** `EvidenceLog` appends to and verifies the chain; `TamperEvidence` says which manipulations
  verification detects and which it cannot, and `Relabelling` what the unprotected labels can change.
- **The policy engine.** `PolicyEngine` has the evaluation as a method with its early returns and loops, proved equal
  to a cascade of functions; `PolicyLaws` characterises the decisions and compares mandates and carts.
- **The rate limiter.** `RateLimiter` has the class; `RateLimiterLaws` and `RateLimiterBounds` prove bounded memory,
  bounded waiting, the refinement of per-client counters and the interval bounds.

## Assumptions

- A step made under the authorization lock is atomic (`app/db.py:29-47`): it commits all of its rows and events or
  none, and the uniqueness constraints of the schema never fire between the check and the insert. SQLite, the only
  supported deployment, has one writer for the whole database.
- A run confirms a mandate in one step. The source commits the row first and then appends its event without the
  authorization lock, reading the newest hash before it inserts (`app/routes/authorization.py:145-154`,
  `app/evidence/log.py:22-44`). `LateSigning` takes these as three steps with any steps in between. Tables and answers
  are then still those of a run that confirms at once; of the evidence it says exactly what remains.
- Request, decision, execution and order ids that a step draws are fresh (`Runs.Admissible`). Nothing else is assumed
  about a step: times, ids, carts, deliveries and signatures are arbitrary, and so is the wall clock of the state
  machine, which need not even advance.
- `created_at` increases strictly, in the order of the inserts, within one authorization, since both "last event" and
  "latest decision" are chosen by it. The log stamps its rows with a logical clock; decisions stand in insertion
  order.
- The payment provider echoes the amount and currency of an order, as its mock does
  (`app/payment/razorpay_client.py:76-80`).
- Execution ids are numbers: fixed-length hexadecimal strings sort the same way.
- SHA-256 is perfect: digests are a datatype, equal exactly when their inputs are, and never the all-zero genesis value.
  Signature verification is an arbitrary deterministic predicate of digest, signature and key.
- The limiter's clock starts at or after zero and never runs backwards; it is a real number, and rounding of floats is
  not modelled.

## What the proofs found

- `app/evidence/log.py:3-5` says that altering or deleting any past row breaks every chain hash after it. Verification
  detects this only where a stored hash after the change is kept. One edited or deleted row, with the other rows left
  alone, is detected exactly unless it is the last (`RowEditDetected`, `RowDeletionDetected`, and the instance
  `TruncationIsNotDetected`). But a list verifies exactly when its hashes are those recomputed from its own payloads
  (`VerifiesExactlyRehashed`), so any row can be rewritten unnoticed by recomputing the hashes from there to the end
  (`RewriteIsNotDetected`). Such a list shares no chain hash with the genuine one from the first changed payload on
  (`SharedHashesExactly`), so that one last hash kept elsewhere would detect everything (`AnchoredHeadDetects`); the
  source keeps none.
- Verification reads only payloads and their two hashes, so `event_type`, `actor` and `prev_hash` can be changed freely
  (`LabelsAreNotCovered`). A relabelled event acts alike on every reconstruction exactly when it reads alike
  (`LabelsActAlikeExactlyWhen`), and lists that read alike rebuild the same rows (`SameReadingsSameRows`). But
  PAYMENT_CAPTURED relabelled as PAYMENT_AMOUNT_MISMATCH verifies and rebuilds another status
  (`RelabelledCaptureRebuildsMismatch`).
- Events name neither decision ids nor, except when an order is flagged, execution ids, so the evidence alone does not
  rebuild those. Still no row of an authorization, with any of its ids, changes without an event in its chain
  (`NoEvidenceNoChange`).
- A replay that is authenticated, such as a repeated delivery of the same signed request, appends a BLOCK to the
  history of a request that was allowed. If that happens before the order is made, the order can never be made, in any
  continuation, and its use of the mandate stays spent (`ReplayedRequestsAreNeverOrdered`, `ReplayWithdrawsAllow`, and
  the run `ReplayRunEndsWithoutOrder`). A decided request can be ordered at the end of some legal run exactly when it
  can be ordered now (`OrderEverPossibleExactlyWhen`). Unauthenticated requests never have an effect
  (`ForgedRequestsLeaveNoTrace`).
- CAPTURED is not final: a later authentic delivery with another payment id and another amount overwrites it, and a
  further one restores it. The status of a settled order is always that of the payment recorded last for it
  (`LastPaymentDecides`, `CapturedIsNotFinal`, and the run `CaptureIsOverwritten`).
- Confirming appends its first event without the lock. If any event of the mandate is logged between its read and its
  insert, and the logged rejection of a forged request is enough, the event is inserted with an outdated hash and the
  mandate's chain never verifies again, although nobody altered a row (`OvertakenConfirmation`). A chain verifies
  exactly unless it was overtaken in this way (`ConfirmingInSteps`, `OvertakenForGood`). So `ChainsAlwaysVerify` and
  everything else that is said here of all chains holds of runs that confirm at once, or are not overtaken.
- Between its two commits a confirmation leaves a stored mandate without its signing event. Exactly for the mandates in
  that gap the evidence does not rebuild the view, and what it misses is the envelope (`ConfirmingInSteps`, with
  `StoredWithoutEvidence`).
- The design document in `docs/` contradicts itself on two scopes. For an empty merchant list, its schema (line 125)
  and its test list (line 827) allow any merchant, while its sketch of the checks (line 223) fails. For `max_items`, its
  schema (line 143) bounds the items in total, while the sketch (line 227) compares the quantity of each line. The code
  agrees with the schema in both cases, and so does the model.
- Allowed categories are no scope of their own (`CategoriesOnlyLicenseSubstitution`): they matter for a line exactly
  when it is a substitute and substitution is allowed (`CategoriesMatterExactlyWhen`).
- The branch at `app/policy/engine.py:165-166` is dead: it is `assert false` in `PolicyEngine.EvaluatePolicy`.
- The webhook never looks at the kind of event when it settles: any authentic delivery that names no amount, or the
  order's own, marks the order CAPTURED (`DeliverySettles`, over all event types).
- A client that waits out every Retry-After with no other traffic is admitted at its third attempt at the latest,
  and two rejections in a row do occur (`ThirdAttemptAdmitted`, `TwoRejectionsInARow`).
- A RECONSENT under a narrower mandate may become a BLOCK under a wider one, exactly when the wider one has a zero
  budget and the cart costs something: budgets below zero reconsent, a zero budget blocks (`AuthorityIsMonotone`).

## Model

| member | source | states |
|---|---|---|
| PolicyEngine.EvaluatePolicy | app/policy/engine.py:58-193 | The loop-and-return evaluation computes the declared cascade for every envelope, cart and context; the quantity it accumulates is the sum over all lines and the reason it stops with is that of the first bad line; the decision and reason of the cascade are characterised in `PolicyLaws` |
| PolicyLaws.DecisionCharacterised | app/policy/engine.py:68-193 | ALLOW exactly when the stored hash is that of the mandate as it stands, its signature verifies under the right key, it is in force and unspent, every scope covers the whole cart and the total is within budget; RECONSENT exactly when all but the budget hold, the budget is not zero and the total exceeds it |
| PolicyLaws.ReasonCharacterised | app/policy/engine.py:76-193 | The exact reason: that of the first check that fails, replay before exhaustion, for the product scope that of the first line that fails; every reason blocks but the last |
| PolicyLaws.LineReason | app/policy/engine.py:149-175 | The exact reason that each line gives on its own |
| PolicyLaws.EditedMandateIsRefused | app/policy/engine.py:70-84 | A mandate that was changed while its stored hash was left as it was is blocked for its signature |
| PolicyLaws.SignaturesBindTheMandate | app/policy/engine.py:76-84 | If only one mandate was ever signed, nothing passes under any other, whatever hash and signature are stored with it |
| PolicyLaws.TipIsMentioned | app/policy/engine.py:168 | The tip test finds exactly the SKUs that contain the three letters in any case |
| PolicyLaws.NoViolationMeansPermitted | app/policy/engine.py:146-175 | The product loop passes exactly when every line, on its own, lies inside the product scope |
| PolicyLaws.AllowBoundsEveryComponent | app/policy/engine.py:123-135 | On ALLOW every line amount, the shipping and the tax are each within the budget, so nothing is offset by a negative part |
| PolicyLaws.AuthorityIsMonotone | app/policy/engine.py:86-193 | Every cart allowed under a mandate that is narrower in each scope is allowed under the wider one; a RECONSENT becomes a BLOCK exactly for a zero budget |
| PolicyLaws.DecisionIgnoresLineOrder | app/policy/engine.py:126-182 | Any permutation of the cart lines gets the same decision |
| PolicyLaws.DecisionIgnoresSplitting | app/policy/engine.py:126-182 | Splitting a line into two of the same product with quantities that add up gets the same decision |
| PolicyLaws.CategoriesOnlyLicenseSubstitution | app/policy/engine.py:152-166 | With an open SKU list, or without leave to substitute, the allowed categories influence no verdict |
| PolicyLaws.CategoriesMatterExactlyWhen | app/policy/engine.py:149-175 | Some list of allowed categories changes the verdict on a line exactly when SKUs are listed, this one is neither listed nor forbidden, and substitution is allowed |
| EvidenceLog.EvidenceStore.AppendEvent | app/evidence/log.py:20-49 | With nothing between read and insert, appends one row linked to the newest row of its transaction, changing nothing else, and returns it |
| EvidenceLog.EvidenceStore.ReadPrevious | app/evidence/log.py:22-28 | What appending reads: the chain hash of the newest row of the transaction, or genesis |
| EvidenceLog.EvidenceStore.InsertEvent | app/evidence/log.py:29-44 | What appending writes: exactly one row, linked to the hash that was read, however old |
| EvidenceLog.VerifyChain | app/evidence/log.py:61-71 | Accepts exactly the lists in which every row's hashes follow from its payload and the row before |
| EvidenceLog.OrderIsAppendOrder | app/evidence/log.py:52-58 | Sorting stamped rows by creation time gives back append order |
| EvidenceLog.AppendExtendsChain | app/evidence/log.py:20-58 | An append extends the returned chain of its transaction at the end, leaves all other chains alone and keeps every chain valid, committed or only flushed |
| TamperEvidence.HashCommits | app/canonical/hashing.py:23-29 | A chain hash shared by two verifying lists fixes its position and every payload up to it |
| TamperEvidence.StaleRowDetected | app/evidence/log.py:22-36 | A row linked to the hash that was last when the chain had n rows verifies with the chain exactly when the chain still has n rows |
| TamperEvidence.TamperEvident | app/evidence/log.py:61-71 | Any verifying list that ends in a hash of the genuine chain repeats the genuine chain up to there |
| TamperEvidence.OnlyPrefixesVerify | app/evidence/log.py:61-71 | A list put together from stored chain hashes, with rows edited, dropped, repeated or reordered, verifies exactly when it is a prefix of the genuine chain |
| TamperEvidence.RowEditDetected | app/evidence/log.py:3-5 | Replacing one row and no other is detected exactly unless the hashed columns stay the same, or it is the last row with recomputed hashes |
| TamperEvidence.RowDeletionDetected | app/evidence/log.py:3-5 | Deleting a row is detected exactly unless it is the last |
| TamperEvidence.TruncationIsNotDetected | app/evidence/log.py:3-5 | An instance in which deleting a past row goes unnoticed |
| TamperEvidence.VerifiesExactlyRehashed | app/evidence/log.py:61-71 | A list verifies exactly when its hashes are those recomputed from its own payloads, whatever they are |
| TamperEvidence.SharedHashesExactly | app/canonical/hashing.py:23-29 | Two verifying lists share a chain hash exactly at the same position and with the same payloads up to it |
| TamperEvidence.RewriteIsNotDetected | app/evidence/log.py:3-5 | Any row can be rewritten unnoticed by recomputing the hashes to the end; from there on no chain hash is genuine |
| TamperEvidence.AnchoredHeadDetects | app/evidence/log.py:61-71 | A list verifies and ends in the genuine last hash exactly when it has the genuine payloads and hashes, no more and no fewer |
| TamperEvidence.LabelsAreNotCovered | app/evidence/log.py:64-70 | Verification does not depend on event type, actor, stored previous hash or time |
| Relabelling.LabelsActAlikeExactlyWhen | app/evidence/log.py:31-40 | Two labellings of a payload act alike on every reconstruction exactly when they give it the same reading |
| Relabelling.SameReadingsSameRows | app/evidence/log.py:61-71 | Lists of the same content and readings verify alike and rebuild the same rows |
| Relabelling.RelabelledCaptureRebuildsMismatch | app/routes/webhooks.py:72-79 | Any chain ending in the capture of a known order, relabelled as a mismatch, still verifies and rebuilds another status |
| RateLimiter.AgentRequestLimiter.Create | app/rate_limit.py:11-23 | Construction fails exactly when a setting is not positive, and otherwise starts empty |
| RateLimiter.AgentRequestLimiter.Admit | app/rate_limit.py:25-55 | The in-place pops and updates perform exactly one attempt of the specification and return its Retry-After; every attempt is characterised in `RateLimiterAnswers` |
| RateLimiter.IndexOf | app/rate_limit.py:45-46 | Finds the first entry of the client, or reports that there is none |
| RateLimiterAnswers.AnsweredExactly | app/rate_limit.py:31-55 | From every reachable state, exactly when an attempt is admitted and when the ceiling, want of room or the client's quota turns it away, over live entries; each Retry-After is the least whole second that covers the window in question, for want of room that of the oldest entry |
| RateLimiterAnswers.LeftExactly | app/rate_limit.py:31-55 | Exactly which entries, counts and resets every attempt leaves behind |
| RateLimiterLaws.PurgeDropsExactlyExpired | app/rate_limit.py:33-37 | Popping from the front until a live entry drops exactly the expired entries, wherever they stand, and keeps order |
| RateLimiterLaws.AttemptKeepsInv | app/rate_limit.py:25-55 | Entries stay sorted by expiry, one per client, at most max_clients, with counts within quota; every Retry-After lies between 1 and the window |
| RateLimiterLaws.RunKeepsInv | app/rate_limit.py:25-55 | Every reachable limiter state, after any number of attempts by any clients, satisfies that invariant |
| RateLimiterLaws.GlobalRejectionPasses | app/rate_limit.py:38-42 | Waiting out a global rejection always passes the global ceiling next time |
| RateLimiterLaws.OtherRejectionOpens | app/rate_limit.py:45-53 | Waiting out a capacity or quota rejection leaves no live entry of the client and a free place |
| RateLimiterLaws.ThirdAttemptAdmitted | app/rate_limit.py:33-55 | From any reachable state a lone client that waits each returned Retry-After is rejected at most twice in a row |
| RateLimiterBounds.TwoRejectionsInARow | app/rate_limit.py:38-55 | The bound is tight: a run in which a global rejection is followed by a quota rejection and then an admission |
| RateLimiterBounds.ClientSeesItsOwnCounter | app/rate_limit.py:45-55 | From any agreeing state, a client's quota answers equal those of a fixed-window counter that sees only that client's attempts |
| RateLimiterBounds.FreshLimiterRefinesCounters | app/rate_limit.py:11-55 | The same from the start, for every arrival sequence: admissions and exact Retry-After values |
| RateLimiterBounds.CounterIntervalBound | app/rate_limit.py:28-29 | A fixed-window counter admits at most limit * (k + 1) attempts within k window lengths |
| RateLimiterBounds.ClientIntervalBound | app/rate_limit.py:33-54 | In any interval one client is admitted at most per_client * (ceil(length / window) + 1) times, whatever others do |
| RateLimiterBounds.GlobalWindowIsCounter | app/rate_limit.py:38-44 | The global ceiling is exactly a fixed-window counter over all attempts |
| RateLimiterBounds.GlobalIntervalBound | app/rate_limit.py:38-44 | In any interval at most global_limit * (ceil(length / window) + 1) attempts pass the ceiling |
| RateLimiterBounds.PopsAreOpened | app/rate_limit.py:33-37 | Conservation: entries at the start plus windows opened equal entries popped plus entries left, so pops never exceed windows |
| Tables.LatestDecision | app/routes/payment.py:45-50 | Returns the last decision on the request under the authorization, and nothing only if there is none |
| Tables.FindRequest | app/policy/service.py:61-65 | Finds a request stored under the nonce, and nothing only if the nonce is unused |
| Firewall.Service.constructor | app/models/schema.py:14-109 | A new service has empty tables and is valid |
| Effects.ConfirmExactly | app/routes/authorization.py:116-160 | When confirming is refused for a taken id or nonce; otherwise the stored mandate is the proposal with the given agent key, with its own hash and the signature, unused, and its event says so |
| Effects.RejectedExactlyWhen | app/policy/service.py:34-59 | When a request is turned away, and with which of the four reasons, and when it is decided |
| Effects.DecidedExactlyWhen | app/policy/service.py:61-76 | For a genuine request, exactly when it is answered ALLOW, RECONSENT and BLOCK, and when for a revoked mandate |
| Effects.JudgedByPolicy | app/policy/service.py:66-76 | The answer is that of the policy with the stored nonce and use count, unless the mandate is revoked |
| Effects.DecisionWritesExactly | app/policy/service.py:78-134 | Exactly the rows and the two events of a decided request; a replay keeps the stored request and answers with its id |
| Effects.RejectionWritesExactly | app/policy/service.py:50-59 | A request that is not decided changes no table and leaves at most the evidence of its rejection, naming the claimed agent and the reason |
| Effects.RevokeExactly | app/routes/authorization.py:182-207 | The first revocation is stored with its reason, time and event and answered; a later one changes nothing and answers with the first |
| Effects.ExecuteRefusesExactly | app/routes/payment.py:39-54 | When executing is refused, with which answer, and that it then changes nothing |
| Effects.ExecuteWritesExactly | app/routes/payment.py:60-86 | Exactly the order and the event that executing a request with a single ALLOW and no order writes |
| Effects.DeliverAnswersExactly | app/routes/webhooks.py:30-55 | When a webhook is refused as unsigned, malformed or unknown, ignored as a duplicate, or recorded; only the last changes anything |
| Effects.LookupExactly | app/routes/webhooks.py:42-48 | The unlocked lookup changes no table and holds exactly the delivery, the order it names and that order's owner |
| Effects.DeliverWritesExactly | app/routes/webhooks.py:55-81 | Exactly the seen id, payment, status and event of a recorded payment |
| Effects.FlagExactly | app/payment/cleanup.py:38-56 | A candidate is flagged exactly when it is CREATED, old enough and unpaid; exactly its status changes and its event carries its ids and times |
| Effects.FlagsExactlyTheOldOnes | app/payment/cleanup.py:38-56 | In every reachable state, exactly when it is CREATED and old enough, whatever has become of its mandate |
| Effects.SweepStepExactly | app/payment/cleanup.py:37-57 | One turn of the candidate loop drops the head of the list and counts it exactly if it was flagged |
| Firewall.Service.ValidOffers | app/db.py:29-47 | A valid service has the invariant of reachable states, chains that verify and rebuild its view, use counts within the allowance, and orders within uses times budget |
| Firewall.Service.StoreMandate | app/routes/authorization.py:130-145 | The first commit: a taken id is refused and a taken nonce fails on the unique column, both changing nothing; otherwise exactly the row is stored |
| Firewall.Service.ReadNewest | app/evidence/log.py:22-28 | The unlocked read before the second commit: the last chain hash of the mandate at that moment |
| Firewall.Service.InsertSigning | app/routes/authorization.py:147-154 | The second commit: exactly the signing event of the stored mandate is inserted, linked to the given hash, which may be outdated |
| Firewall.Service.ConfirmAuthorization | app/routes/authorization.py:116-160 | Both commits of a confirmation and the read between them, one directly after the other; a valid service stays valid and nothing is undone |
| Firewall.Service.EvaluateAgentRequest | app/policy/service.py:26-134 | Authenticates before anything else, then judges, stores and logs as one step; nothing but the log changes for a forgery; a valid service stays valid and nothing is undone |
| Firewall.Service.JudgeRequest | app/policy/service.py:66-76 | The decision is that of a revoked mandate, or of the policy with the stored nonce and use count |
| Firewall.Service.InsertRows | app/policy/service.py:78-107 | A replay keeps the first request row and id; exactly an ALLOW counts a use |
| Firewall.Service.RecordDecision | app/policy/service.py:78-126 | Rows and both events are written together, in order, to the mandate's own chain |
| Firewall.Service.RevokeAuthorization | app/routes/authorization.py:182-207 | The first revocation is stored with its event; later ones change nothing and return the first; a valid service stays valid and nothing is undone |
| Firewall.Service.ExecutePayment | app/routes/payment.py:36-86 | Executes as one step, refusing, returning the existing order or inserting a new one with its event; a valid service stays valid and nothing is undone |
| Firewall.Service.SettlePayment | app/routes/webhooks.py:51-81 | The locked part of the webhook: duplicates change nothing, otherwise seen id, status, payment event and evidence change together |
| Firewall.Service.RazorpayWebhook | app/routes/webhooks.py:22-81 | The whole handler, including its four refusals, which change nothing; a valid service stays valid and nothing is undone |
| Firewall.Service.FlagCandidate | app/payment/cleanup.py:38-56 | The locked re-check of a candidate flags it with its evidence or leaves everything alone |
| Firewall.Service.FlagCandidates | app/payment/cleanup.py:36-57 | The loop over the snapshot equals the recursive one, ends early when a lock fails, and counts what it flagged |
| Firewall.Service.FlagStalePayments | app/payment/cleanup.py:17-57 | A whole sweep as `Draining.SweepExactly` describes it; a valid service stays valid and nothing is undone |
| Uninterrupted.DeliveryIsTwoSteps | app/routes/webhooks.py:42-81 | The lookup step and the locked step, run without interruption, are the whole webhook |
| Uninterrupted.SweepIsItsSteps | app/payment/cleanup.py:24-57 | The snapshot step and the candidate steps, run without interruption, are the whole sweep |
| Uninterrupted.StepStaysReachable | app/db.py:29-47 | From a state that a legal run reaches, confirming, requesting, revoking or executing leads to such a state and undoes nothing |
| Uninterrupted.DeliveryStaysReachable | app/routes/webhooks.py:22-81 | So does a whole webhook |
| Uninterrupted.SweepStaysReachable | app/payment/cleanup.py:17-57 | So does a whole sweep |
| Preservation.InsertDecisionKeeps | app/policy/service.py:78-107 | Storing a decision keeps all table invariants: links, histories, budget, allowed carts, orders and payments |
| Preservation.ExecuteOnlyInserts | app/routes/payment.py:36-86 | Executing changes the tables only by inserting an order for a request whose whole history is one ALLOW, at the price of the allowed cart |
| Preservation.LatestAllowIsOnly | app/routes/payment.py:45-54 | If the latest decision on a request is ALLOW, it is the only decision on it |
| Preservation.FlagKeeps | app/payment/cleanup.py:41-45 | Flagging a CREATED order keeps all table invariants |
| Preservation.SettleKeeps | app/routes/webhooks.py:53-70 | Settling an order with a new payment id keeps all table invariants |
| Replay.ConfirmKeepsEvidence | app/routes/authorization.py:131-154 | After confirming, replayed evidence still gives every authorization's rows |
| Replay.DecisionKeepsEvidence | app/policy/service.py:78-126 | The two events of a request replay to exactly its changes of nonces, decisions and uses |
| Replay.RevokeKeepsEvidence | app/routes/authorization.py:189-202 | The revocation event replays to the revocation row |
| Replay.ExecuteKeepsEvidence | app/routes/payment.py:68-84 | The order event replays to the new order, in its owner's view only |
| Replay.FlagKeepsEvidence | app/payment/cleanup.py:45-55 | The stale event replays to the status change of that order |
| Replay.SettleKeepsEvidence | app/routes/webhooks.py:58-79 | The payment event replays to the status change of that order |
| Reachability.StepSafe | app/db.py:29-47 | Every step, with however old local data, keeps the whole invariant and undoes nothing |
| Reachability.RunSafe | app/db.py:29-47 | Every run keeps the invariant; no row is deleted, no key or amount changes, statuses only advance, the log only grows |
| Guarantees.EvidenceRebuildsTables | app/policy/service.py:78-126 | In every reachable state, replaying an authorization's stored chain rebuilds its envelope, revocation, use count, nonces with request id, agent and cart, decisions, orders with amount, currency and status, and payments |
| Guarantees.ChainsAlwaysVerify | app/evidence/log.py:20-71 | In every state of a run that confirms mandates at once, every chain is returned in append order, verifies, and has matching previous hashes |
| Guarantees.PaymentEvidenceIsExact | app/routes/webhooks.py:62-79 | In every reachable state the payment events of a chain are, in order, exactly the payment rows of that authorization's orders, each with payment id, order id and amount |
| Guarantees.SameChainSameView | app/evidence/log.py:20-58 | A run that leaves an authorization's chain as it was leaves all that the chain rebuilds as it was |
| Footprint.SameViewSameRows | app/models/schema.py:14-85 | Between states of which the later undoes nothing, an unchanged view means unchanged rows in all six tables, with decision and execution ids |
| Footprint.NoEvidenceNoChange | app/evidence/log.py:20-58 | A run that leaves an authorization's chain as it was has changed none of its rows: mandate, revocation, requests, decisions, executions and payments, ids included |
| Guarantees.RequestsAreDecidedOnce | app/policy/service.py:61-104 | In every reachable state each nonce has at most one request, and after the first decision on a request there is only BLOCK |
| Guarantees.OneOrderPerRequest | app/routes/payment.py:56-58 | In every reachable state no two orders belong to the same request |
| Guarantees.OrdersNeedASingleAllow | app/routes/payment.py:39-77 | A step creates an order only by executing an unrevoked mandate's request whose history is one ALLOW, for exactly its cart's total, which is within the mandate |
| Guarantees.OrderCreatedExactlyWhen | app/routes/payment.py:39-77 | Executing creates an order if and only if the mandate is not revoked and the request's whole history is one ALLOW without an order |
| Guarantees.OrderAnsweredExactlyWhen | app/routes/payment.py:36-86 | Executing answers with an order, old or new, if and only if the mandate is known and not revoked and the request's whole history is one ALLOW under it |
| Guarantees.ExistingOrderIsAnswered | app/routes/payment.py:56-58 | When the ALLOW has an order, that one is the answer and nothing changes |
| Guarantees.ExecutionIsIdempotent | app/routes/payment.py:56-58 | Executing again, with any time and ids, answers with the same order and changes nothing |
| Guarantees.StatusMatchesPayments | app/payment/cleanup.py:41-56 | In every reachable state an order is CREATED or STALE exactly while it has no payment event, is flagged in evidence exactly once if STALE and never more, and seen ids, payment events and payment evidence are one to one |
| Guarantees.StatusOnlyAdvances | app/routes/webhooks.py:49-60 | Under any interleaving an order keeps its identity and amount and never returns to CREATED, nor to STALE once paid |
| Guarantees.NoDanglingReferences | app/routes/webhooks.py:42-52 | No pending webhook or sweep, however old, meets a missing row, a lookup never finds an order without its decision, and executing never finds a decision without its request |
| Guarantees.OldLookupActsAsNow | app/routes/webhooks.py:42-81 | In every reachable state the locked part of a webhook, however old its lookup, has exactly the tables and the answer of the whole webhook made now |
| Guarantees.OldCandidateIsRechecked | app/payment/cleanup.py:24-56 | In every reachable state a sweep, however old its snapshot, flags the next order exactly when a snapshot made now would list it, and otherwise changes nothing |
| Guarantees.DeliverySettles | app/routes/webhooks.py:53-70 | An authentic delivery with a new payment id settles exactly its order, to CAPTURED exactly when it names no amount or the order's own, even if flagged or revoked before |
| Guarantees.LastPaymentDecides | app/routes/webhooks.py:57-70 | Along any run a settled order keeps its status until another payment is recorded for it, and is then CAPTURED exactly when the last one names no amount or the order's own |
| Guarantees.CapturedIsNotFinal | app/routes/webhooks.py:57-60 | A CAPTURED order becomes AMOUNT_MISMATCH by another payment with another amount, and CAPTURED again by a further one |
| Withdrawal.OrderEverPossibleExactlyWhen | app/routes/payment.py:39-77 | A decided request can be ordered by the last step of some legal run, with fresh ids, exactly when it can be ordered now: not revoked, one ALLOW as its whole history, no order yet |
| Withdrawal.SameOrderExactlyWhile | app/routes/payment.py:39-58 | After any run, executing an ordered request answers with the very same order and changes nothing exactly while the mandate is not revoked and the request has had no further decision |
| Withdrawal.ReplayedRequestsAreNeverOrdered | app/routes/payment.py:45-54 | After a second decision on a request, no continuation lets executing create an order for it |
| Withdrawal.ReplayWithdrawsAllow | app/policy/service.py:61-107 | Whatever request was allowed, sending it again before executing gives BLOCK under the same id, leaves the use spent, and makes executing answer with that BLOCK |
| Withdrawal.AllowedRequestIsOrdered | app/routes/payment.py:45-77 | Whatever request was allowed, executing it next inserts its order, at the total and currency of its cart |
| Instances.ReplayRunEndsWithoutOrder | app/policy/service.py:61-107 | A legal run from the empty database in which a repeated request takes the order away |
| Instances.CaptureIsOverwritten | app/routes/webhooks.py:57-60 | A legal run from the empty database in which an order is captured, overwritten by another payment, and restored by a third of any event type |
| Authenticity.AllowedExactlyWhen | app/policy/service.py:34-76 | The exact condition, over tables, signatures, time and cart, under which a request is turned away unauthenticated and under which it is allowed |
| Authenticity.StoredRequestIsGenuine | app/policy/service.py:34-89 | A request row is stored only for a genuine request, and as it was signed |
| Authenticity.OrdersAreSignedFor | app/routes/payment.py:60-77 | In every reachable state every order charges the total of a cart that the mandate's named agent signed with the key stored in it, under a verifying mandate that covers the cart |
| Provenance.MandatesComeFromConfirmations | app/routes/authorization.py:121-145 | In every reachable state every stored mandate is the proposal of a confirming step of the run with the agent key given there, hashed and signed as it stands |
| Provenance.OrdersTraceToConfirmations | app/routes/authorization.py:124-126 | In every reachable state every order was signed for, over the very cart it charges, with the agent key given when its mandate was confirmed |
| Provenance.RevocationsComeFromSteps | app/routes/authorization.py:188-195 | Every stored revocation carries the reason and the time of a revoking step of the run |
| Provenance.AllowsWereGivenInTime | app/policy/engine.py:86-92 | Every stored ALLOW was given to a genuine request of the run, made while the mandate was valid, inside its scopes and budget |
| SpendingBound.AllowsAreOrderedOrNot | app/routes/payment.py:56-77 | Conservation: the ALLOW decisions are as many as the orders and the ALLOW decisions without an order together |
| SpendingBound.OrderWithinBudget | app/routes/payment.py:63-77 | Every order charges a non-negative amount within its mandate's budget, in its currency |
| SpendingBound.RunSpendingIsBounded | app/policy/service.py:70-107 | In every reachable state uses equal ALLOW decisions, equal orders plus ALLOWs without one, never pass max(0, max_transactions), and all orders together charge at most uses times budget |
| RevocationLaws.StepFreezes | app/routes/payment.py:39-44 | No single step of any kind, on any data, changes the uses, ALLOW decisions, revocation or orders of a revoked mandate, beyond an order's status |
| RevocationLaws.RevocationIsAbsorbing | app/routes/authorization.py:187-203 | After revocation, in every continuation, uses, ALLOW decisions, orders and their amounts and the revocation record never change, and there is exactly one revocation event |
| RevocationLaws.RevokedRowsStay | app/routes/authorization.py:187-203 | After revocation, in every continuation, the ALLOW decisions and the orders are the same rows, ids included, up to order status, and so are the mandate's own row and its revocation |
| RevocationLaws.OldOrdersStillAdvance | app/payment/cleanup.py:37-56 | An old enough unpaid order is flagged, of any mandate, revoked or in force |
| LogIndependence.StepTwins | app/policy/service.py:34-59 | No step reads the log: two systems equal but for rejections, or for the time of signing events, answer and act alike on every step, and a rejected request changes only the log |
| Erasure.ForgedRequestsLeaveNoTrace | app/policy/service.py:34-59 | Deleting all unauthenticated requests from a run leaves a legal run with the same other answers, the same tables and pending work, and the same evidence without the rejections |
| LateSigning.ConfirmingInSteps | app/routes/authorization.py:145-154 | With the row, the unlocked read and the insert of a confirmation as separate steps and any steps in between: tables and answers are those of a legal run that confirms at once; evidence rebuilds the view exactly of the mandates whose event is logged; a chain verifies exactly unless it had grown between the read and the insert of its own confirmation |
| LateSigning.OvertakenForGood | app/evidence/log.py:61-71 | A chain that was overtaken verifies in no continuation |
| Instances.OvertakenConfirmation | app/policy/service.py:50-55 | A legal run in which the rejection of a forged request overtakes a confirmation, after which the chain does not verify, now or after any continuation |
| Instances.StoredWithoutEvidence | app/routes/authorization.py:145-154 | After the first commit of a confirmation alone, the mandate is stored and its evidence does not rebuild its rows |
| Draining.BacklogSound | app/payment/cleanup.py:28-33 | The ordered candidate query lists exactly the eligible orders, strictly oldest first |
| Draining.SweepTakesOldest | app/payment/cleanup.py:17-57 | One sweep flags exactly the oldest batch of the backlog, reports how many, and leaves the rest as the backlog |
| Draining.SweepsDrainOldestFirst | app/payment/cleanup.py:17-57 | k sweeps with the same clock flag exactly the oldest min(k * batch, n) of n orders and nothing else |
| Draining.EmptySweepMeansDrained | app/payment/cleanup.py:22-57 | A sweep flags nothing exactly when no order is eligible |
| Draining.BacklogExactly | app/payment/cleanup.py:28-33 | In tables that keep the invariants the candidates are exactly the CREATED and old enough orders, by time and then id |
| Draining.SweepExactly | app/payment/cleanup.py:17-57 | A whole sweep: refused settings change nothing, otherwise exactly the oldest batch of the CREATED and old enough orders is flagged and counted |
| Draining.SweepsFlagTheOldest | app/payment/cleanup.py:17-57 | k sweeps with the same clock flag exactly the oldest min(k * batch, n) of the n orders that are CREATED and old enough |
| Draining.SnapshotExactly | app/payment/cleanup.py:20-34 | The unlocked snapshot holds exactly the settings and the oldest batch of the backlog with their owners |
| Deduplication.FirstDeliveriesAreDistinct | app/routes/webhooks.py:53-55 | The reference list of first accepted deliveries has distinct new payment ids |
| Deduplication.RecordedExactlyOnce | app/routes/webhooks.py:42-70 | A delivery is recorded exactly when it is authentic, names a known order and its payment id is new; otherwise nothing at all changes |
| Deduplication.RepeatsChangeNothing | app/routes/webhooks.py:51-79 | Any sequence of deliveries ends in exactly the state of its first accepted deliveries alone |
| Deduplication.SeenPaymentsAreIgnored | app/routes/webhooks.py:51-54 | Under any interleaving a seen payment id stays seen, and a delivery of it looked up before that changes no table and no evidence |

## Left out

- FastAPI routing, Pydantic validation, configuration, the middleware's path matching and its 429 response: plumbing
  around the steps. Fields that validation makes mandatory are mandatory here (`cart.total` is never missing).
- The limiter is not composed with the state machine: it only removes agent requests from a run, and the theorems
  about runs hold for all of them.
- Ed25519, SHA-256, HMAC and JSON serialisation: a predicate and a symbolic hash stand for them.
- `LiveRazorpayClient`, its network errors, and orders created at the provider whose local commit then fails.
- SQLAlchemy sessions and SQLite locking: only their effect, atomic steps; the `commit=False` flag of `append_event`
  is the two appends of one step.
- `run_payment_cleanup`: its scheduling is covered by letting sweeps happen at any time.
- `_build_envelope`, the adapters, `/intent/compile`, the stateless `/policy/evaluate`, the transaction views, the
  dashboard and the demo script: field copying and presentation.
- ISO timestamps are integers and human-readable messages are dropped, also from the payload of `POLICY_EVALUATED`,
  where decision and reason remain; so is the constant `signature_verified` of a request event.
- Of the delivery stored with a payment event, only the amount it names is kept.
- Mandate fields that no modelled step reads (`merchant_categories`, `shipping_included`, `tax_included`, `reusable`,
  version, provider data) have no part in the hash; adding them would only lengthen the hashed record.
- The columns of `authorizations` that repeat envelope fields (`issued_at`, `expires_at`, `max_transactions`,
  `user_id`).
- Firewall.Service.ConfirmAuthorization: its contract is for its steps with nothing in between, since a method runs
  alone; each step has its method, and `LateSigning.ConfirmingInSteps` covers runs with other steps in between.
- EvidenceLog.EvidenceStore.AppendEvent: the same, for its read and its insert; under the authorization lock nothing
  comes between them.
- Draining.SweepsDrainOldestFirst: about sweeps in a row; concurrent steps between them are covered by the run
  theorems, not by the count.

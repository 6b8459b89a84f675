/** What the policy cascade means, stated without its order of checks. */
module PolicyLaws {
  import opened Wrappers
  import opened Canonical
  import opened PolicyEngine

  // The vocabulary of the laws, over the fields alone

  /** An optional string that is there and not empty. */
  predicate Present(value: Option<string>) {
    value.Some? && value.value != ""
  }

  /** The stored hash is that of the mandate as it stands, and the signature on this very hash verifies under the
    * key.
    */
  ghost predicate Sealed(verify: Verifier, envelope: Envelope, publicKey: string) {
    && envelope.evidenceHash == OfMandate(envelope.mandate)
    && Present(envelope.signature)
    && verify(OfMandate(envelope.mandate), envelope.signature.value, publicKey)
  }

  /** The key to check against: the caller's, or else the mandate's own. */
  function KeyFor(envelope: Envelope, ctx: Context): string {
    if Present(ctx.verificationKey) then ctx.verificationKey.value else envelope.mandate.publicKey
  }

  /** The letters of "tip" stand in the name, in any case. */
  ghost predicate MentionsTip(sku: string) {
    exists i :: 0 <= i <= |sku| - 3
             && sku[i] in {'t', 'T'} && sku[i + 1] in {'i', 'I'} && sku[i + 2] in {'p', 'P'}
  }

  predicate InCategory(mandate: Mandate, item: CartItem) {
    mandate.allowedCategories == [] || (item.category.Some? && item.category.value in mandate.allowedCategories)
  }

  function Worth(items: seq<CartItem>): int {
    if items == [] then 0 else items[0].unitPrice * items[0].quantity + Worth(items[1..])
  }

  function Units(items: seq<CartItem>): int {
    if items == [] then 0 else items[0].quantity + Units(items[1..])
  }

  /** The SKU is listed, or substitutes a listed one. */
  ghost predicate Offered(mandate: Mandate, item: CartItem) {
    mandate.allowedSkus == [] || item.sku in mandate.allowedSkus
    || (mandate.substitutionsAllowed && InCategory(mandate, item))
  }

  /** One line lies inside the product scope. Categories count only as a licence to substitute. */
  ghost predicate ItemPermitted(mandate: Mandate, item: CartItem) {
    && item.sku !in mandate.forbiddenSkus
    && Offered(mandate, item)
    && (mandate.tipsAllowed || !MentionsTip(item.sku))
    && (mandate.maxUnitPrice.Some? ==> item.unitPrice <= mandate.maxUnitPrice.value)
  }

  /** The mandate is genuine, in force, unspent and not replayed. */
  ghost predicate InForce(verify: Verifier, envelope: Envelope, ctx: Context) {
    && (ctx.skipSignatureCheck || Sealed(verify, envelope, KeyFor(envelope, ctx)))
    && envelope.mandate.issuedAt <= ctx.now <= envelope.mandate.expiresAt
    && !ctx.nonceAlreadyUsed
    && ctx.transactionsUsed < envelope.mandate.maxTransactions
  }

  /** The cart is well formed: nothing negative, and the declared total is the sum of its parts. */
  ghost predicate WellFormed(cart: Cart) {
    && 0 <= cart.total && 0 <= cart.shipping && 0 <= cart.tax
    && (forall item <- cart.items :: 0 <= item.unitPrice && 0 <= item.quantity)
    && cart.total == Worth(cart.items) + cart.shipping + cart.tax
  }

  /** The cart stays inside every scope of the mandate except the total. */
  ghost predicate InScope(mandate: Mandate, cart: Cart) {
    && cart.currency == mandate.currency
    && (mandate.merchantIds == [] || cart.merchantId in mandate.merchantIds)
    && WellFormed(cart)
    && (forall item <- cart.items :: ItemPermitted(mandate, item))
    && Units(cart.items) <= mandate.maxItems
  }

  // The functions of the cascade mean the same

  lemma SignedIsSealed(verify: Verifier, envelope: Envelope, publicKey: string)
    ensures Signed(verify, envelope, publicKey) <==> Sealed(verify, envelope, publicKey)
  {}

  lemma CheckedKeyIsKeyFor(envelope: Envelope, ctx: Context)
    ensures CheckedKey(envelope, ctx) == KeyFor(envelope, ctx)
  {}

  lemma TipIsMentioned(sku: string)
    ensures ContainsTip(sku) <==> MentionsTip(sku)
  {
    assert forall c: char :: LowerAscii(c) == 't' <==> c in {'t', 'T'};
    assert forall c: char :: LowerAscii(c) == 'i' <==> c in {'i', 'I'};
    assert forall c: char :: LowerAscii(c) == 'p' <==> c in {'p', 'P'};
  }

  lemma {:induction false} SumsAreWorthAndUnits(items: seq<CartItem>)
    ensures Sum(items, LineAmount) == Worth(items) && Sum(items, LineQuantity) == Units(items)
  {
    if items != [] {
      SumsAreWorthAndUnits(items[1..]);
    }
  }

  lemma {:induction false} NoViolationMeansPermitted(mandate: Mandate, items: seq<CartItem>)
    ensures FirstViolation(mandate, items).None? <==> forall item <- items :: ItemPermitted(mandate, item)
  {
    if items != [] {
      NoViolationMeansPermitted(mandate, items[1..]);
      assert forall item :: item in items <==> item == items[0] || item in items[1..];
      TipIsMentioned(items[0].sku);
      assert ItemViolation(mandate, items[0]).None? <==> ItemPermitted(mandate, items[0]);
    }
  }

  lemma NegativeMeansMalformed(items: seq<CartItem>)
    ensures (exists i :: 0 <= i < |items| && Negative(items[i]))
       <==> !forall item <- items :: 0 <= item.unitPrice && 0 <= item.quantity
  {
    if i :| 0 <= i < |items| && Negative(items[i]) {
      assert items[i] in items;
    }
    if item :| item in items && !(0 <= item.unitPrice && 0 <= item.quantity) {
      var i :| 0 <= i < |items| && items[i] == item;
      assert Negative(items[i]);
    }
  }

  /** The exact meaning of the three decisions. */
  lemma DecisionCharacterised(verify: Verifier, envelope: Envelope, cart: Cart, ctx: Context)
    ensures var decision := Evaluate(verify, envelope, cart, ctx).decision;
            var mandate := envelope.mandate;
            && (decision == Allow <==>
                InForce(verify, envelope, ctx) && InScope(mandate, cart) && cart.total <= mandate.maxTotal)
            && (decision == Reconsent <==>
                InForce(verify, envelope, ctx) && InScope(mandate, cart)
                && mandate.maxTotal != 0 && cart.total > mandate.maxTotal)
  {
    hide ItemPermitted, ItemViolation;
    SignedIsSealed(verify, envelope, KeyFor(envelope, ctx));
    CheckedKeyIsKeyFor(envelope, ctx);
    SumsAreWorthAndUnits(cart.items);
    NoViolationMeansPermitted(envelope.mandate, cart.items);
    NegativeMeansMalformed(cart.items);
  }

  /** A mandate changed after signing, with its stored hash left as it was, is refused as such. */
  lemma EditedMandateIsRefused(verify: Verifier, envelope: Envelope, cart: Cart, ctx: Context)
    requires !ctx.skipSignatureCheck && envelope.evidenceHash != OfMandate(envelope.mandate)
    ensures Evaluate(verify, envelope, cart, ctx) == PolicyResult(Block, SignatureInvalid)
  {}

  /** A signature binds to the mandate it was given for: if nothing else was signed, nothing passes under any other
    * mandate, whatever hash and signature are stored with it.
    */
  lemma SignaturesBindTheMandate(verify: Verifier, signed: Mandate, envelope: Envelope, cart: Cart, ctx: Context)
    requires forall digest, signature, key :: verify(digest, signature, key) ==> digest == OfMandate(signed)
    requires !ctx.skipSignatureCheck && envelope.mandate != signed
    ensures Evaluate(verify, envelope, cart, ctx) == PolicyResult(Block, SignatureInvalid)
  {
    SignedIsSealed(verify, envelope, CheckedKey(envelope, ctx));
  }

  // The exact reason

  /** The reason a line gives on its own. */
  ghost predicate LineFails(mandate: Mandate, item: CartItem, reason: Reason) {
    match reason
    case SkuForbidden => item.sku in mandate.forbiddenSkus
    case SubstitutionNotAllowed =>
      item.sku !in mandate.forbiddenSkus && !Offered(mandate, item) && mandate.substitutionsAllowed
    case SkuNotAllowed =>
      item.sku !in mandate.forbiddenSkus && !Offered(mandate, item) && !mandate.substitutionsAllowed
    case TipsNotAllowed =>
      && item.sku !in mandate.forbiddenSkus && Offered(mandate, item)
      && !mandate.tipsAllowed && MentionsTip(item.sku)
    case UnitPriceExceeded =>
      && item.sku !in mandate.forbiddenSkus && Offered(mandate, item)
      && (mandate.tipsAllowed || !MentionsTip(item.sku))
      && mandate.maxUnitPrice.Some? && item.unitPrice > mandate.maxUnitPrice.value
    case _ => false
  }

  /** The first line outside the product scope gives the reason. */
  ghost predicate FirstLineFails(mandate: Mandate, items: seq<CartItem>, reason: Reason) {
    exists i :: 0 <= i < |items| && LineFails(mandate, items[i], reason)
             && forall k :: 0 <= k < i ==> ItemPermitted(mandate, items[k])
  }

  lemma LineReason(mandate: Mandate, item: CartItem, reason: Reason)
    ensures ItemViolation(mandate, item) == Some(reason) <==> LineFails(mandate, item, reason)
    ensures ItemViolation(mandate, item).None? <==> ItemPermitted(mandate, item)
  {
    TipIsMentioned(item.sku);
  }

  lemma {:induction false} ProductReason(mandate: Mandate, items: seq<CartItem>, reason: Reason)
    ensures FirstViolation(mandate, items) == Some(reason) <==> FirstLineFails(mandate, items, reason)
  {
    hide ItemViolation, LineFails, ItemPermitted;
    if items != [] {
      LineReason(mandate, items[0], reason);
      ProductReason(mandate, items[1..], reason);
      if LineFails(mandate, items[0], reason) {
        assert FirstLineFails(mandate, items, reason);
      } else if ItemPermitted(mandate, items[0]) {
        LaterLineFails(mandate, items, reason);
      }
    }
  }

  lemma LaterLineFails(mandate: Mandate, items: seq<CartItem>, reason: Reason)
    requires items != [] && ItemPermitted(mandate, items[0]) && !LineFails(mandate, items[0], reason)
    ensures FirstLineFails(mandate, items[1..], reason) <==> FirstLineFails(mandate, items, reason)
  {
    hide LineFails, ItemPermitted;
    if FirstLineFails(mandate, items[1..], reason) {
      var i :| 0 <= i < |items[1..]| && LineFails(mandate, items[1..][i], reason)
               && forall k :: 0 <= k < i ==> ItemPermitted(mandate, items[1..][k]);
      assert forall k :: 0 < k < i + 1 ==> items[k] == items[1..][k - 1];
      assert LineFails(mandate, items[i + 1], reason);
    }
    if FirstLineFails(mandate, items, reason) {
      var i :| 0 <= i < |items| && LineFails(mandate, items[i], reason)
               && forall k :: 0 <= k < i ==> ItemPermitted(mandate, items[k]);
      assert LineFails(mandate, items[1..][i - 1], reason);
    }
  }

  /** The first checks, in their order: signature, time, currency, merchant, replay and remaining uses. */
  ghost predicate GatePasses(verify: Verifier, envelope: Envelope, cart: Cart, ctx: Context, checks: nat) {
    var mandate := envelope.mandate;
    && (checks >= 1 ==> ctx.skipSignatureCheck || Sealed(verify, envelope, KeyFor(envelope, ctx)))
    && (checks >= 2 ==> ctx.now <= mandate.expiresAt)
    && (checks >= 3 ==> mandate.issuedAt <= ctx.now)
    && (checks >= 4 ==> cart.currency == mandate.currency)
    && (checks >= 5 ==> mandate.merchantIds == [] || cart.merchantId in mandate.merchantIds)
    && (checks >= 6 ==> !ctx.nonceAlreadyUsed)
    && (checks >= 7 ==> ctx.transactionsUsed < mandate.maxTransactions)
  }

  /** The checks after them: cart form, zero budget, product scope, quantity and total. */
  ghost predicate CartPasses(mandate: Mandate, cart: Cart, checks: nat) {
    && (checks >= 8 ==> WellFormed(cart))
    && (checks >= 9 ==> !(mandate.maxTotal == 0 && cart.total > 0))
    && (checks >= 10 ==> forall item <- cart.items :: ItemPermitted(mandate, item))
    && (checks >= 11 ==> Units(cart.items) <= mandate.maxItems)
    && (checks >= 12 ==> cart.total <= mandate.maxTotal)
  }

  ghost predicate Passes(verify: Verifier, envelope: Envelope, cart: Cart, ctx: Context, checks: nat) {
    GatePasses(verify, envelope, cart, ctx, checks) && CartPasses(envelope.mandate, cart, checks)
  }

  /** Which of the checks a reason belongs to; the checks before it have all passed. */
  function CheckOf(reason: Reason): nat {
    match reason
    case SignatureInvalid => 1
    case MandateExpired => 2
    case NotYetValid => 3
    case CurrencyMismatch => 4
    case MerchantNotAllowed => 5
    case NonceAlreadyUsed => 6
    case MandateExhausted => 7
    case MalformedCart => 8
    case ZeroBudget => 9
    case QuantityExceeded => 11
    case MaxTotalExceeded => 12
    case _ => 10
  }

  lemma GateCharacterised(verify: Verifier, envelope: Envelope, cart: Cart, ctx: Context, reason: Reason)
    ensures var gate := GateReason(verify, envelope, cart, ctx);
            && (gate.None? <==> GatePasses(verify, envelope, cart, ctx, 7))
            && (gate == Some(reason) <==>
                && CheckOf(reason) <= 7
                && GatePasses(verify, envelope, cart, ctx, CheckOf(reason) - 1)
                && !GatePasses(verify, envelope, cart, ctx, CheckOf(reason)))
  {
    hide Sealed, Signed;
    SignedIsSealed(verify, envelope, KeyFor(envelope, ctx));
    CheckedKeyIsKeyFor(envelope, ctx);
  }

  lemma CartCharacterised(mandate: Mandate, cart: Cart, reason: Reason)
    ensures var result := CartVerdict(mandate, cart);
            && (result.reason == reason <==>
                if reason == NoReason then CartPasses(mandate, cart, 12)
                else
                  && CheckOf(reason) >= 8 && reason != MandateRevoked
                  && CartPasses(mandate, cart, CheckOf(reason) - 1)
                  && (if CheckOf(reason) == 10 then FirstLineFails(mandate, cart.items, reason)
                      else !CartPasses(mandate, cart, CheckOf(reason))))
            && result.decision == (match result.reason
                                   case NoReason => Allow
                                   case MaxTotalExceeded => Reconsent
                                   case _ => Block)
  {
    hide ItemPermitted, ItemViolation, FirstLineFails, Sum, Worth, Units;
    SumsAreWorthAndUnits(cart.items);
    NoViolationMeansPermitted(mandate, cart.items);
    NegativeMeansMalformed(cart.items);
    ProductReason(mandate, cart.items, reason);
    ProductReasonIsOfALine(mandate, cart.items);
  }

  /** The exact result: the reason is that of the first check that fails, for the product scope that of the first line
    * that fails, and every reason blocks except the last.
    */
  lemma ReasonCharacterised(verify: Verifier, envelope: Envelope, cart: Cart, ctx: Context, reason: Reason)
    ensures var result := Evaluate(verify, envelope, cart, ctx);
            && (result.reason == reason <==>
                if reason == NoReason then Passes(verify, envelope, cart, ctx, 12)
                else
                  && reason != MandateRevoked
                  && Passes(verify, envelope, cart, ctx, CheckOf(reason) - 1)
                  && (if CheckOf(reason) == 10 then FirstLineFails(envelope.mandate, cart.items, reason)
                      else !Passes(verify, envelope, cart, ctx, CheckOf(reason))))
            && result.decision == (match result.reason
                                   case NoReason => Allow
                                   case MaxTotalExceeded => Reconsent
                                   case _ => Block)
  {
    hide FirstLineFails, GateReason, CartVerdict, WellFormed, ItemPermitted, Sealed, Units;
    GateCharacterised(verify, envelope, cart, ctx, reason);
    CartCharacterised(envelope.mandate, cart, reason);
    var gate := GateReason(verify, envelope, cart, ctx);
    if gate.Some? {
      GateCharacterised(verify, envelope, cart, ctx, gate.value);
    }
  }

  lemma {:induction false} ProductReasonIsOfALine(mandate: Mandate, items: seq<CartItem>)
    ensures var found := FirstViolation(mandate, items);
            found.Some? ==> found.value in {SkuForbidden, SubstitutionNotAllowed, SkuNotAllowed, TipsNotAllowed,
                                            UnitPriceExceeded}
  {
    if items != [] {
      ProductReasonIsOfALine(mandate, items[1..]);
    }
  }

  lemma {:induction false} LineWithinSum(items: seq<CartItem>, item: CartItem)
    requires item in items
    requires forall other <- items :: 0 <= other.unitPrice && 0 <= other.quantity
    ensures 0 <= item.unitPrice * item.quantity <= Worth(items)
  {
    NonNegativeProduct(items[0].unitPrice, items[0].quantity);
    NonNegativeSum(items[1..]);
    if item != items[0] {
      LineWithinSum(items[1..], item);
    }
  }

  lemma NonNegativeProduct(a: int, b: int)
    requires 0 <= a && 0 <= b
    ensures 0 <= a * b
  {}

  lemma {:induction false} NonNegativeSum(items: seq<CartItem>)
    requires forall item <- items :: 0 <= item.unitPrice && 0 <= item.quantity
    ensures 0 <= Worth(items)
  {
    if items != [] {
      NonNegativeProduct(items[0].unitPrice, items[0].quantity);
      NonNegativeSum(items[1..]);
    }
  }

  /** On ALLOW no single component of the cart exceeds the budget. */
  lemma AllowBoundsEveryComponent(verify: Verifier, envelope: Envelope, cart: Cart, ctx: Context)
    requires Evaluate(verify, envelope, cart, ctx).decision == Allow
    ensures 0 <= cart.total <= envelope.mandate.maxTotal
    ensures cart.shipping <= envelope.mandate.maxTotal && cart.tax <= envelope.mandate.maxTotal
    ensures forall item <- cart.items :: item.unitPrice * item.quantity <= envelope.mandate.maxTotal
  {
    DecisionCharacterised(verify, envelope, cart, ctx);
    NonNegativeSum(cart.items);
    forall item <- cart.items
      ensures item.unitPrice * item.quantity <= envelope.mandate.maxTotal
    {
      LineWithinSum(cart.items, item);
    }
  }

  // Monotone authority

  /** List scopes: an empty list is the widest. */
  ghost predicate NarrowerList(a: seq<string>, b: seq<string>) {
    b == [] || (a != [] && forall x <- a :: x in b)
  }

  /** Mandate `a` grants no more than `b` in any scope. */
  ghost predicate Narrower(a: Mandate, b: Mandate) {
    && a.currency == b.currency
    && NarrowerList(a.merchantIds, b.merchantIds)
    && NarrowerList(a.allowedSkus, b.allowedSkus)
    && NarrowerList(a.allowedCategories, b.allowedCategories)
    && (forall sku <- b.forbiddenSkus :: sku in a.forbiddenSkus)
    && (a.substitutionsAllowed ==> b.substitutionsAllowed)
    && (a.tipsAllowed ==> b.tipsAllowed)
    && (b.maxUnitPrice.Some? ==> a.maxUnitPrice.Some? && a.maxUnitPrice.value <= b.maxUnitPrice.value)
    && a.maxTotal <= b.maxTotal
    && a.maxItems <= b.maxItems
    && b.issuedAt <= a.issuedAt && a.expiresAt <= b.expiresAt
  }

  lemma NarrowerPermitsLess(a: Mandate, b: Mandate, item: CartItem)
    requires Narrower(a, b) && ItemPermitted(a, item)
    ensures ItemPermitted(b, item)
  {}

  /** Authority is monotone. Whatever the narrower mandate allows, the wider one allows. What the
    * narrower one would put to the user again, the wider one blocks only for its zero budget.
    */
  lemma AuthorityIsMonotone(verify: Verifier, a: Envelope, b: Envelope, cart: Cart, ctxA: Context, ctxB: Context)
    requires Narrower(a.mandate, b.mandate)
    requires a.mandate.maxTransactions - ctxA.transactionsUsed <= b.mandate.maxTransactions - ctxB.transactionsUsed
    requires ctxA.now == ctxB.now && (ctxA.nonceAlreadyUsed || !ctxB.nonceAlreadyUsed)
    requires ctxB.skipSignatureCheck || Sealed(verify, b, KeyFor(b, ctxB))
    ensures Evaluate(verify, a, cart, ctxA).decision == Allow ==> Evaluate(verify, b, cart, ctxB).decision == Allow
    ensures Evaluate(verify, a, cart, ctxA).decision == Reconsent ==>
            (Evaluate(verify, b, cart, ctxB).decision == Block <==> b.mandate.maxTotal == 0 && cart.total > 0)
  {
    DecisionCharacterised(verify, a, cart, ctxA);
    DecisionCharacterised(verify, b, cart, ctxB);
    if Evaluate(verify, a, cart, ctxA).decision != Block {
      forall item <- cart.items
        ensures ItemPermitted(b.mandate, item)
      {
        NarrowerPermitsLess(a.mandate, b.mandate, item);
      }
      assert InScope(b.mandate, cart);
    }
  }

  // Invariance under reshaping the cart

  lemma {:induction false} SumOfConcat(a: seq<CartItem>, b: seq<CartItem>, measure: CartItem -> int)
    ensures Sum(a + b, measure) == Sum(a, measure) + Sum(b, measure)
  {
    if a == [] {
      assert a + b == b;
    } else {
      assert (a + b)[1..] == a[1..] + b;
      SumOfConcat(a[1..], b, measure);
    }
  }

  lemma SumWithout(items: seq<CartItem>, i: nat, measure: CartItem -> int)
    requires i < |items|
    ensures Sum(items, measure) == measure(items[i]) + Sum(items[..i] + items[i + 1..], measure)
  {
    SumOfConcat(items[..i], items[i + 1..], measure);
    SumOfConcat(items[..i], items[i..], measure);
    assert items == items[..i] + items[i..];
    assert items[i..][1..] == items[i + 1..];
  }

  lemma MultisetWithout<T>(items: seq<T>, i: nat)
    requires i < |items|
    ensures multiset(items[..i] + items[i + 1..]) == multiset(items) - multiset{items[i]}
  {
    assert items == items[..i] + [items[i]] + items[i + 1..];
  }

  lemma MultisetTail<T>(a: seq<T>)
    requires a != []
    ensures multiset(a[1..]) == multiset(a) - multiset{a[0]}
  {
    MultisetWithout(a, 0);
    assert a[..0] + a[0 + 1..] == a[1..];
  }

  lemma FirstOccurs<T>(a: seq<T>, b: seq<T>) returns (i: nat)
    requires a != [] && multiset(a) == multiset(b)
    ensures i < |b| && b[i] == a[0]
  {
    assert a[0] in multiset(a);
    assert a[0] in multiset(b);
    i :| 0 <= i < |b| && b[i] == a[0];
  }

  lemma MatchFirst<T>(a: seq<T>, b: seq<T>) returns (i: nat)
    requires a != [] && multiset(a) == multiset(b)
    ensures i < |b| && b[i] == a[0]
    ensures multiset(a[1..]) == multiset(b[..i] + b[i + 1..])
  {
    i := FirstOccurs(a, b);
    MultisetTail(a);
    MultisetWithout(b, i);
  }

  lemma {:induction false} SumOfPermutation(a: seq<CartItem>, b: seq<CartItem>, measure: CartItem -> int)
    requires multiset(a) == multiset(b)
    ensures Sum(a, measure) == Sum(b, measure)
  {
    if a == [] {
      assert |multiset(b)| == 0;
    } else {
      var i := MatchFirst(a, b);
      SumWithout(b, i, measure);
      SumOfPermutation(a[1..], b[..i] + b[i + 1..], measure);
    }
  }

  /** Two carts with the same lines up to what the checks can see get the same decision. */
  lemma SameContentSameDecision(verify: Verifier, envelope: Envelope, cart: Cart, items: seq<CartItem>, ctx: Context)
    requires Sum(items, LineAmount) == Sum(cart.items, LineAmount)
    requires Sum(items, LineQuantity) == Sum(cart.items, LineQuantity)
    requires (forall item <- items :: 0 <= item.unitPrice && 0 <= item.quantity)
        <==> (forall item <- cart.items :: 0 <= item.unitPrice && 0 <= item.quantity)
    requires (forall item <- items :: ItemPermitted(envelope.mandate, item))
        <==> (forall item <- cart.items :: ItemPermitted(envelope.mandate, item))
    ensures Evaluate(verify, envelope, cart.(items := items), ctx).decision
         == Evaluate(verify, envelope, cart, ctx).decision
  {
    SumsAreWorthAndUnits(items);
    SumsAreWorthAndUnits(cart.items);
    DecisionCharacterised(verify, envelope, cart, ctx);
    DecisionCharacterised(verify, envelope, cart.(items := items), ctx);
  }

  /** Reordering the cart lines never changes the decision (it may change the reported reason). */
  lemma DecisionIgnoresLineOrder(verify: Verifier, envelope: Envelope, cart: Cart, items: seq<CartItem>, ctx: Context)
    requires multiset(items) == multiset(cart.items)
    ensures Evaluate(verify, envelope, cart.(items := items), ctx).decision
         == Evaluate(verify, envelope, cart, ctx).decision
  {
    SumOfPermutation(items, cart.items, LineAmount);
    SumOfPermutation(items, cart.items, LineQuantity);
    forall item
      ensures item in items <==> item in cart.items
    {
      assert item in items <==> item in multiset(items);
      assert item in cart.items <==> item in multiset(cart.items);
    }
    SameContentSameDecision(verify, envelope, cart, items, ctx);
  }

  /** Splitting a line into two of the same product, with quantities that add up, never changes the decision. */
  lemma DecisionIgnoresSplitting(verify: Verifier, envelope: Envelope, cart: Cart, i: nat, q1: nat, q2: nat,
                                 ctx: Context)
    requires i < |cart.items| && cart.items[i].quantity == q1 + q2
    ensures var line := cart.items[i];
            var split := cart.items[..i] + [line.(quantity := q1), line.(quantity := q2)] + cart.items[i + 1..];
            Evaluate(verify, envelope, cart.(items := split), ctx).decision
              == Evaluate(verify, envelope, cart, ctx).decision
  {
    var line := cart.items[i];
    var first, second := line.(quantity := q1), line.(quantity := q2);
    var head, tail := cart.items[..i], cart.items[i + 1..];
    var split := head + [first, second] + tail;
    assert cart.items == head + [line] + tail;
    SplitSums(head, tail, line, first, second, LineQuantity);
    assert LineAmount(line) == LineAmount(first) + LineAmount(second) by {
      Distributes(line.unitPrice, q1, q2);
    }
    SplitSums(head, tail, line, first, second, LineAmount);
    assert forall item :: item in split <==> item in head || item == first || item == second || item in tail;
    assert forall item :: item in cart.items <==> item in head || item == line || item in tail;
    assert ItemPermitted(envelope.mandate, first) == ItemPermitted(envelope.mandate, line)
      == ItemPermitted(envelope.mandate, second);
    SameContentSameDecision(verify, envelope, cart, split, ctx);
  }

  lemma Distributes(p: int, a: int, b: int)
    ensures p * (a + b) == p * a + p * b
  {}

  lemma SplitSums(head: seq<CartItem>, tail: seq<CartItem>, line: CartItem, first: CartItem, second: CartItem,
                  measure: CartItem -> int)
    requires measure(line) == measure(first) + measure(second)
    ensures Sum(head + [first, second] + tail, measure) == Sum(head + [line] + tail, measure)
  {
    SumOfConcat(head + [first, second], tail, measure);
    SumOfConcat(head, [first, second], measure);
    SumOfConcat(head + [line], tail, measure);
    SumOfConcat(head, [line], measure);
    assert [first, second][1..] == [second] && [second][1..] == [] && [line][1..] == [];
    assert Sum([second], measure) == measure(second);
  }

  lemma {:induction false} CategoriesIgnoredByLines(mandate: Mandate, categories: seq<string>, items: seq<CartItem>)
    requires mandate.allowedSkus == [] || !mandate.substitutionsAllowed
    ensures FirstViolation(mandate.(allowedCategories := categories), items) == FirstViolation(mandate, items)
  {
    if items != [] {
      CategoriesIgnoredByLines(mandate, categories, items[1..]);
    }
  }

  /** Categories are no scope of their own: with an open product list, or without leave to substitute, the list of
    * allowed categories has no influence on any verdict.
    */
  lemma CategoriesOnlyLicenseSubstitution(mandate: Mandate, categories: seq<string>, cart: Cart)
    requires mandate.allowedSkus == [] || !mandate.substitutionsAllowed
    ensures CartVerdict(mandate.(allowedCategories := categories), cart) == CartVerdict(mandate, cart)
  {
    CategoriesIgnoredByLines(mandate, categories, cart.items);
  }

  /** Where the allowed categories matter: some list of them changes the verdict on a line exactly when the products are
    * listed, the line is a substitute, and substitution is allowed.
    */
  lemma CategoriesMatterExactlyWhen(mandate: Mandate, item: CartItem)
    ensures (exists categories ::
               ItemViolation(mandate.(allowedCategories := categories), item) != ItemViolation(mandate, item))
       <==> (&& mandate.allowedSkus != [] && item.sku !in mandate.allowedSkus
             && item.sku !in mandate.forbiddenSkus && mandate.substitutionsAllowed)
  {
    var unlike := if item.category.Some? then item.category.value + "'" else "";
    var other := if CategoryOk(mandate, item) then [unlike] else [];
    if mandate.allowedSkus != [] && item.sku !in mandate.allowedSkus
       && item.sku !in mandate.forbiddenSkus && mandate.substitutionsAllowed
    {
      if item.category.Some? {
        assert |unlike| > |item.category.value|;
      }
      assert CategoryOk(mandate.(allowedCategories := other), item) <==> !CategoryOk(mandate, item);
      assert ItemViolation(mandate.(allowedCategories := other), item) != ItemViolation(mandate, item);
    }
  }
}

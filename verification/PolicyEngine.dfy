/** The deterministic policy cascade (app/policy/engine.py). */
module PolicyEngine {
  import opened Wrappers
  import opened Canonical

  /** The keyword arguments of the evaluation: everything the caller looked up beforehand. */
  datatype Context = Context(
    now: int,
    nonceAlreadyUsed: bool,
    transactionsUsed: nat,
    verificationKey: Option<string>,
    skipSignatureCheck: bool)

  function Blocked(reason: Reason): PolicyResult {
    PolicyResult(Block, reason)
  }

  /** The envelope's stored hash matches its fields and its signature verifies. */
  predicate Signed(verify: Verifier, envelope: Envelope, publicKey: string) {
    var digest := ComputeEvidenceHash(envelope);
    && digest == envelope.evidenceHash
    && !Missing(envelope.signature)
    && verify(digest, envelope.signature.value, publicKey)
  }

  function CheckedKey(envelope: Envelope, ctx: Context): string {
    if Missing(ctx.verificationKey) then envelope.mandate.publicKey else ctx.verificationKey.value
  }

  // Sums over cart lines

  function Sum(items: seq<CartItem>, measure: CartItem -> int): int {
    if items == [] then 0 else measure(items[0]) + Sum(items[1..], measure)
  }

  function LineAmount(item: CartItem): int {
    item.unitPrice * item.quantity
  }

  function LineQuantity(item: CartItem): int {
    item.quantity
  }

  function ComputedTotal(cart: Cart): int {
    Sum(cart.items, LineAmount) + cart.shipping + cart.tax
  }

  // Checks on one cart line

  predicate Negative(item: CartItem) {
    item.unitPrice < 0 || item.quantity < 0
  }

  function LowerAscii(c: char): char {
    if 'A' <= c <= 'Z' then (c as int + 32) as char else c
  }

  /** `"tip" in sku.lower()`; only ASCII letters have t, i or p alone as their lower case. */
  predicate ContainsTip(sku: string) {
    exists i :: 0 <= i <= |sku| - 3
             && LowerAscii(sku[i]) == 't' && LowerAscii(sku[i + 1]) == 'i' && LowerAscii(sku[i + 2]) == 'p'
  }

  predicate CategoryOk(mandate: Mandate, item: CartItem) {
    mandate.allowedCategories == [] || (item.category.Some? && item.category.value in mandate.allowedCategories)
  }

  /** The body of the product loop for one line: the reason it returns with, if it returns. */
  function ItemViolation(mandate: Mandate, item: CartItem): Option<Reason> {
    if item.sku in mandate.forbiddenSkus then
      Some(SkuForbidden)
    else if mandate.allowedSkus != [] && item.sku !in mandate.allowedSkus
            && !(mandate.substitutionsAllowed && CategoryOk(mandate, item)) then
      Some(if mandate.substitutionsAllowed then SubstitutionNotAllowed else SkuNotAllowed)
    else if !mandate.tipsAllowed && ContainsTip(item.sku) then
      Some(TipsNotAllowed)
    else if mandate.maxUnitPrice.Some? && item.unitPrice > mandate.maxUnitPrice.value then
      Some(UnitPriceExceeded)
    else
      None
  }

  /** The first line that violates the product scope decides the reason. */
  function FirstViolation(mandate: Mandate, items: seq<CartItem>): Option<Reason> {
    if items == [] then None
    else if ItemViolation(mandate, items[0]).Some? then ItemViolation(mandate, items[0])
    else FirstViolation(mandate, items[1..])
  }

  // The cascade

  /** Checks 1 to 6: signature, time, currency, merchant, replay and remaining uses. */
  function GateReason(verify: Verifier, envelope: Envelope, cart: Cart, ctx: Context): Option<Reason> {
    var mandate := envelope.mandate;
    if !ctx.skipSignatureCheck && !Signed(verify, envelope, CheckedKey(envelope, ctx)) then Some(SignatureInvalid)
    else if ctx.now > mandate.expiresAt then Some(MandateExpired)
    else if ctx.now < mandate.issuedAt then Some(NotYetValid)
    else if cart.currency != mandate.currency then Some(CurrencyMismatch)
    else if mandate.merchantIds != [] && cart.merchantId !in mandate.merchantIds then Some(MerchantNotAllowed)
    else if ctx.nonceAlreadyUsed then Some(NonceAlreadyUsed)
    else if mandate.maxTransactions <= 0 || ctx.transactionsUsed >= mandate.maxTransactions then Some(MandateExhausted)
    else None
  }

  /** Checks 7 to 11: cart form, budget, product scope, quantity and total. */
  function CartVerdict(mandate: Mandate, cart: Cart): PolicyResult {
    if cart.total < 0 || cart.shipping < 0 || cart.tax < 0 then Blocked(MalformedCart)
    else if exists i :: 0 <= i < |cart.items| && Negative(cart.items[i]) then Blocked(MalformedCart)
    else if ComputedTotal(cart) != cart.total then Blocked(MalformedCart)
    else if mandate.maxTotal == 0 && cart.total > 0 then Blocked(ZeroBudget)
    else
      match FirstViolation(mandate, cart.items)
      case Some(reason) => Blocked(reason)
      case None =>
        if Sum(cart.items, LineQuantity) > mandate.maxItems then Blocked(QuantityExceeded)
        else if cart.total > mandate.maxTotal then PolicyResult(Reconsent, MaxTotalExceeded)
        else PolicyResult(Allow, NoReason)
  }

  function Evaluate(verify: Verifier, envelope: Envelope, cart: Cart, ctx: Context): PolicyResult {
    match GateReason(verify, envelope, cart, ctx)
    case Some(reason) => Blocked(reason)
    case None => CartVerdict(envelope.mandate, cart)
  }

  /** The evaluation as the source runs it: returns at the first failing check, with one loop
    * for malformed lines and one for the product scope that also accumulates the quantity.
    */
  method EvaluatePolicy(verify: Verifier, envelope: Envelope, cart: Cart, ctx: Context) returns (result: PolicyResult)
    ensures result == Evaluate(verify, envelope, cart, ctx)
  {
    var mandate := envelope.mandate;
    if !ctx.skipSignatureCheck {
      var key := CheckedKey(envelope, ctx);
      var recomputed := ComputeEvidenceHash(envelope);
      if recomputed != envelope.evidenceHash || Missing(envelope.signature)
         || !verify(recomputed, envelope.signature.value, key) {
        return Blocked(SignatureInvalid);
      }
    }
    if ctx.now > mandate.expiresAt { return Blocked(MandateExpired); }
    if ctx.now < mandate.issuedAt { return Blocked(NotYetValid); }
    if cart.currency != mandate.currency { return Blocked(CurrencyMismatch); }
    if mandate.merchantIds != [] && cart.merchantId !in mandate.merchantIds { return Blocked(MerchantNotAllowed); }
    if ctx.nonceAlreadyUsed { return Blocked(NonceAlreadyUsed); }
    if mandate.maxTransactions <= 0 { return Blocked(MandateExhausted); }
    if ctx.transactionsUsed >= mandate.maxTransactions { return Blocked(MandateExhausted); }

    if cart.total < 0 || cart.shipping < 0 || cart.tax < 0 { return Blocked(MalformedCart); }
    for i := 0 to |cart.items|
      invariant forall k :: 0 <= k < i ==> !Negative(cart.items[k])
    {
      if cart.items[i].unitPrice < 0 || cart.items[i].quantity < 0 {
        assert Negative(cart.items[i]);
        return Blocked(MalformedCart);
      }
    }
    if ComputedTotal(cart) != cart.total { return Blocked(MalformedCart); }
    if mandate.maxTotal == 0 && cart.total > 0 { return Blocked(ZeroBudget); }

    var totalQuantity := 0;
    for i := 0 to |cart.items|
      invariant FirstViolation(mandate, cart.items) == FirstViolation(mandate, cart.items[i..])
      invariant Sum(cart.items, LineQuantity) == totalQuantity + Sum(cart.items[i..], LineQuantity)
    {
      var item := cart.items[i];
      assert cart.items[i..][0] == item && cart.items[i..][1..] == cart.items[i + 1..];
      totalQuantity := totalQuantity + item.quantity;
      if item.sku in mandate.forbiddenSkus { return Blocked(SkuForbidden); }
      var skuOk := mandate.allowedSkus == [] || item.sku in mandate.allowedSkus;
      var categoryOk := CategoryOk(mandate, item);
      if mandate.allowedSkus != [] && item.sku !in mandate.allowedSkus {
        if mandate.substitutionsAllowed && categoryOk {
        } else if mandate.substitutionsAllowed {
          return Blocked(SubstitutionNotAllowed);
        } else {
          return Blocked(SkuNotAllowed);
        }
      } else if !skuOk && !categoryOk {
        assert false;
      }
      if !mandate.tipsAllowed && ContainsTip(item.sku) { return Blocked(TipsNotAllowed); }
      if mandate.maxUnitPrice.Some? && item.unitPrice > mandate.maxUnitPrice.value {
        return Blocked(UnitPriceExceeded);
      }
    }
    if totalQuantity > mandate.maxItems { return Blocked(QuantityExceeded); }
    if cart.total > mandate.maxTotal { return PolicyResult(Reconsent, MaxTotalExceeded); }
    return PolicyResult(Allow, NoReason);
  }
}

/** The records that travel between the components, and the symbolic hash over them.
  * Identifiers are strings that are only compared for equality. Timestamps are integers.
  */
module Canonical {
  import opened Wrappers

  type Id = string

  /** The signed fields of an authorization envelope that some step of the system reads. */
  datatype Mandate = Mandate(
    authorizationId: Id,
    userId: string,
    agentId: string,
    publicKey: string,
    requestPublicKey: Option<string>,
    merchantIds: seq<string>,
    allowedSkus: seq<string>,
    allowedCategories: seq<string>,
    forbiddenSkus: seq<string>,
    substitutionsAllowed: bool,
    currency: string,
    maxTotal: int,
    maxUnitPrice: Option<int>,
    tipsAllowed: bool,
    maxItems: int,
    issuedAt: int,
    expiresAt: int,
    maxTransactions: int,
    nonce: string)

  /** A mandate together with the two fields that its own hash leaves out. */
  datatype Envelope = Envelope(mandate: Mandate, evidenceHash: Hash, signature: Option<string>)

  datatype CartItem = CartItem(sku: string, unitPrice: int, quantity: int, category: Option<string>)

  datatype Cart = Cart(
    merchantId: string,
    items: seq<CartItem>,
    shipping: int,
    tax: int,
    total: int,
    currency: string)

  datatype Decision = Allow | Block | Reconsent

  datatype Reason =
    | NoReason
    | SignatureInvalid
    | MandateExpired
    | MandateRevoked
    | NotYetValid
    | CurrencyMismatch
    | MerchantNotAllowed
    | MandateExhausted
    | NonceAlreadyUsed
    | MalformedCart
    | ZeroBudget
    | SkuForbidden
    | SkuNotAllowed
    | SubstitutionNotAllowed
    | QuantityExceeded
    | UnitPriceExceeded
    | TipsNotAllowed
    | MaxTotalExceeded

  datatype PolicyResult = PolicyResult(decision: Decision, reason: Reason)

  /** Why a request is refused with status 401 before it reaches the policy. */
  datatype AuthFailure = BadMandateSignature | AgentIdMismatch | AgentKeyMissing | AgentSignatureInvalid

  /** Evidence payloads, one constructor per JSON shape: two event types that write the
    * same fields share a constructor, because only the fields are hashed.
    */
  datatype Payload =
    | EnvelopeJson(envelope: Envelope)
    | RejectionJson(claimedAgentId: string, failure: AuthFailure)
    | RequestJson(requestId: Id, nonce: string, cart: Cart, agentSignature: Option<string>)
    | VerdictJson(result: PolicyResult)
    | RevocationJson(authorizationId: Id, reason: string, revokedAt: int)
    | OrderJson(orderId: Id, amount: int, currency: string)
    | StaleJson(executionId: nat, staleOrderId: Id, createdAt: int, observedAt: int, timeoutSeconds: int)
    | PaymentJson(paymentId: Id, paidOrderId: Id, paidAmount: Option<int>)

  /** SHA-256 taken as perfect: each way of building a digest is a constructor, so digests are
    * equal exactly when their inputs are, and no digest is the all-zero genesis value.
    */
  datatype Hash =
    | Genesis
    | OfMandate(mandate: Mandate)
    | OfRequest(authorizationId: Id, agentId: string, nonce: string, cart: Cart)
    | OfPayload(payload: Payload)
    | Link(prev: Hash, payloadHash: Hash)

  /** Hash over the envelope without its own hash and signature. */
  function ComputeEvidenceHash(envelope: Envelope): Hash {
    OfMandate(envelope.mandate)
  }

  function HashJson(payload: Payload): Hash {
    OfPayload(payload)
  }

  function ChainHash(prev: Hash, payloadHash: Hash): Hash {
    Link(prev, payloadHash)
  }

  /** What the agent signs. */
  function RequestHash(authorizationId: Id, agentId: string, nonce: string, cart: Cart): Hash {
    OfRequest(authorizationId, agentId, nonce, cart)
  }

  /** Signature verification: any deterministic predicate over digest, signature and public key. */
  type Verifier = (Hash, string, string) -> bool

  /** Python's `not value` on an optional string. */
  predicate Missing(value: Option<string>) {
    value.None? || value.value == ""
  }
}

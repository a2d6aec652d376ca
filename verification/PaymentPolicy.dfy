/** Payment data and the rules for provider notifications. */
module PaymentPolicy {
  import opened Prelude
  import opened Text

  /** `Unlisted` is a runtime value outside the declared union, which `validate` must refuse. */
  datatype Status =
    | Creating | Pending | Unknown | CreateFailed | Succeeded | Failed | Cancelled
    | Unlisted(raw: string)

  /** What a payment is for; no domain method changes it. */
  datatype Order = Order(
    userId: string,
    sourceType: string,
    sourceReference: string,
    description: string,
    amountVnd: real,
    currency: string,
    provider: string,
    providerOrderId: string,
    providerRequestId: string,
    idempotencyKey: string,
    requestFingerprint: string,
    expiresAt: Option<Option<int>>)    // absent, or a date that may be invalid

  datatype Props = Props(
    order: Order,
    status: Status,
    checkoutUrl: Option<string>,
    transactionId: Option<string>,
    resultCode: Option<string>,
    version: nat)

  datatype Notification = Notification(
    provider: string,
    providerOrderId: string,
    providerRequestId: Option<string>,
    amountVnd: real,
    transactionId: Option<string>,
    resultCode: string,
    outcome: Status)

  const PROVIDERS: set<string> := {"vnpay", "momo", "zalopay"}
  const MIN_AMOUNT_VND := 10_000.0
  const MAX_AMOUNT_VND := 50_000_000.0
  const MAX_SOURCE_REFERENCE_LENGTH := 128
  const MAX_DESCRIPTION_LENGTH := 200

  predicate Mutable(status: Status) {
    status.Creating? || status.Pending? || status.Unknown?
  }

  predicate IsFinal(status: Status) {
    status.Succeeded? || status.Failed? || status.Cancelled?
  }

  predicate UrlAttachable(status: Status) {
    Mutable(status) || IsFinal(status)
  }

  /** The outcomes a verified notification can report. */
  predicate IsOutcome(status: Status) {
    status.Pending? || IsFinal(status)
  }

  function NormalizeTransactionId(value: Option<string>): Option<string> {
    if value.None? || Blank(value.value) || value.value == "0" then None else value
  }

  /** Stored ids are never blank and never the provider's "0" placeholder. */
  predicate NormalId(id: Option<string>) {
    id.Some? ==> !Blank(id.value) && id.value != "0"
  }

  datatype Existing = Duplicate | StateConflict

  predicate SameProviderResult(current: Props, n: Notification) {
    && current.status == n.outcome
    && current.resultCode == Some(n.resultCode)
    && current.transactionId == NormalizeTransactionId(n.transactionId)
  }

  function ClassifyExisting(current: Props, n: Notification): Option<Existing> {
    if current.status.CreateFailed? then Some(StateConflict)
    else if IsFinal(current.status) then
      if n.outcome.Pending? then Some(Duplicate)
      else if SameProviderResult(current, n) then Some(Duplicate) else Some(StateConflict)
    else if current.status.Pending? && n.outcome.Pending? && SameProviderResult(current, n) then Some(Duplicate)
    else if !Mutable(current.status) then Some(StateConflict)
    else None
  }

  /** The invariants `validate` checks. */
  predicate ValidProps(p: Props) {
    ValidOrder(p.order) && !p.status.Unlisted?
  }

  predicate ValidOrder(o: Order) {
    && !Blank(o.userId)
    && !Blank(o.idempotencyKey)
    && 0 < |Trim(o.sourceReference)| <= MAX_SOURCE_REFERENCE_LENGTH
    && 0 < |Trim(o.description)| <= MAX_DESCRIPTION_LENGTH
    && !Blank(o.providerOrderId)
    && !Blank(o.providerRequestId)
    && |o.requestFingerprint| > 0
    && o.amountVnd == o.amountVnd.Floor as real
    && MIN_AMOUNT_VND <= o.amountVnd <= MAX_AMOUNT_VND
    && o.currency == "VND"
    && o.sourceType == "order"
    && o.provider in PROVIDERS
    && (o.expiresAt.Some? ==> o.expiresAt.value.Some?)
  }

  /** The status sets the rules refer to. */
  lemma StatusSets(status: Status)
    ensures Mutable(status) <==> status in {Creating, Pending, Unknown}
    ensures IsFinal(status) <==> status in {Succeeded, Failed, Cancelled}
    ensures UrlAttachable(status) <==> status in {Creating, Pending, Unknown, Succeeded, Failed, Cancelled}
    ensures IsOutcome(status) <==> status in {Pending, Succeeded, Failed, Cancelled}
  {
  }

  /** An order with nothing wrong. */
  const SAMPLE_ORDER: Order := Order("u", "order", "r", "d", 10_000.0, "VND", "momo", "o", "q", "k", "f", None)

  lemma SampleIsValid()
    ensures ValidOrder(SAMPLE_ORDER)
  {
    OneLetter("u");
    OneLetter("r");
    OneLetter("d");
    OneLetter("o");
    OneLetter("q");
    OneLetter("k");
  }

  lemma OneLetter(s: string)
    requires |s| == 1 && !IsSpace(s[0])
    ensures Trim(s) == s && !Blank(s)
  {
  }

  predicate HasInk(s: string) {
    exists i | 0 <= i < |s| :: !IsSpace(s[i])
  }

  lemma InkIsNotBlank(s: string)
    ensures HasInk(s) <==> !Blank(s)
  {
    BlankIffAllSpaces(s);
  }

  /** Each field is checked on its own: with the rest valid, these are exactly its valid values. */
  lemma ValidTexts(o: Order, text: string)
    requires ValidOrder(o)
    ensures ValidOrder(o.(userId := text)) <==> HasInk(text)
    ensures ValidOrder(o.(idempotencyKey := text)) <==> HasInk(text)
    ensures ValidOrder(o.(providerOrderId := text)) <==> HasInk(text)
    ensures ValidOrder(o.(providerRequestId := text)) <==> HasInk(text)
    ensures ValidOrder(o.(sourceReference := text)) <==> HasInk(text) && |Trim(text)| <= 128
    ensures ValidOrder(o.(description := text)) <==> HasInk(text) && |Trim(text)| <= 200
    ensures ValidOrder(o.(requestFingerprint := text)) <==> text != ""
    ensures ValidOrder(o.(currency := text)) <==> text == "VND"
    ensures ValidOrder(o.(sourceType := text)) <==> text == "order"
    ensures ValidOrder(o.(provider := text)) <==> text == "vnpay" || text == "momo" || text == "zalopay"
  {
    BlankIffAllSpaces(text);
    assert HasInk(text) <==> Trim(text) != [];
  }

  lemma ValidAmounts(o: Order, amount: int, fraction: real, expiry: Option<Option<int>>)
    requires ValidOrder(o) && 0.0 <= fraction < 1.0
    ensures ValidOrder(o.(amountVnd := amount as real + fraction)) <==> fraction == 0.0 && 10_000 <= amount <= 50_000_000
    ensures ValidOrder(o.(expiresAt := expiry)) <==> expiry != Some(None)
  {
    assert (amount as real + fraction).Floor == amount;
  }
}

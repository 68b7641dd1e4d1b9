/** What payment verification promises: how each upstream failure is
    classified, which check wins when several fail, that no failure writes the
    store, and what a successful verification writes. */
module VerificationProperties {
  import opened Wrappers
  import opened Uuids
  import opened Entity
  import opened PayPal

  /** True when `part` is the tail of `whole`. */
  predicate EndsWith(whole: string, part: string) {
    |part| <= |whole| && whole[|whole| - |part|..] == part
  }

  /** A failure with the given status and reason that leaves the store as it was. */
  function Rejected(status: HttpStatus, reason: string, store: map<Uuid, RecordState>): Verification {
    Verification(Failure(StatusFailure(status, reason)), store)
  }

  /** The order response with the given body. */
  function Answered(body: OrderBody): OrderOutcome {
    OrderResponse(Some(body))
  }

  /** Failures of the two requests, each with its status, none writing the store. */
  lemma UpstreamFailures(token: TokenOutcome, order: OrderOutcome, store: map<Uuid, RecordState>)
    ensures token.TokenCallFailed? ==>
      Verify(token, order, store) == Rejected(Unauthorized, AuthenticationFailed + token.message, store)
    ensures token.TokenResponse? && (token.body.None? || AccessTokenField !in token.body.value) ==>
      Verify(token, order, store) == Rejected(BadGateway, InvalidAuthResponse, store)
    ensures AccessToken(token).Success? && order.OrderClientError? ==>
      Verify(token, order, store) == Rejected(BadRequest, ClientErrorPrefix + order.statusText, store)
    ensures AccessToken(token).Success? && order.OrderServerError? ==>
      Verify(token, order, store) == Rejected(BadGateway, ServerErrorPrefix + order.statusText, store)
    ensures AccessToken(token).Success? && order.OrderCallFailed? ==>
      Verify(token, order, store) == Rejected(InternalServerError, CommunicationError + order.message, store)
    ensures AccessToken(token).Success? && order == OrderResponse(None) ==>
      Verify(token, order, store) == Rejected(BadGateway, EmptyResponse, store)
  {
  }

  /** A failed token request decides the verification before the order is
      consulted: whatever the order request would have returned, the outcome
      is the same. */
  lemma TokenFailureIgnoresOrder(token: TokenOutcome, order1: OrderOutcome, order2: OrderOutcome, store: map<Uuid, RecordState>)
    requires AccessToken(token).Failure?
    ensures Verify(token, order1, store) == Verify(token, order2, store)
    ensures Verify(token, order1, store).result.error.status in {Unauthorized, BadGateway}
  {
  }

  /** No status field: 502, store unchanged. */
  lemma AbsentStatus(token: TokenOutcome, body: OrderBody, store: map<Uuid, RecordState>)
    requires AccessToken(token).Success?
    requires body.status.None?
    ensures Verify(token, Answered(body), store) == Rejected(BadGateway, StatusMissing, store)
  {
  }

  /** A status other than COMPLETED: 402 whose reason ends with the status,
      store unchanged, whatever the purchase units are (the status is checked first). */
  lemma IncompletePayment(token: TokenOutcome, body: OrderBody, store: map<Uuid, RecordState>)
    requires AccessToken(token).Success?
    requires body.status.Some? && body.status.value != Completed
    ensures Verify(token, Answered(body), store) == Rejected(PaymentRequired, PaymentIncomplete + body.status.value, store)
    ensures EndsWith(Verify(token, Answered(body), store).result.error.reason, body.status.value)
    ensures Verify(token, Answered(body.(purchaseUnits := None)), store) == Verify(token, Answered(body), store)
  {
    var reason := PaymentIncomplete + body.status.value;
    assert reason[|reason| - |body.status.value|..] == body.status.value;
  }

  /** COMPLETED but no purchase units, or an empty list: 502, store unchanged. */
  lemma MissingPurchaseUnits(token: TokenOutcome, body: OrderBody, store: map<Uuid, RecordState>)
    requires AccessToken(token).Success?
    requires body.status == Some(Completed)
    requires body.purchaseUnits.None? || body.purchaseUnits.value == []
    ensures Verify(token, Answered(body), store) == Rejected(BadGateway, PurchaseUnitsMissing, store)
  {
  }

  /** Only the first purchase unit is consulted: two orders that agree on
      their status and first unit verify alike, however the other units differ. */
  lemma FirstUnitOnly(token: TokenOutcome, status: Option<string>, units1: seq<map<string, string>>,
                      units2: seq<map<string, string>>, store: map<Uuid, RecordState>)
    requires |units1| > 0 && |units2| > 0 && units1[0] == units2[0]
    ensures Verify(token, Answered(OrderBody(status, Some(units1))), store)
         == Verify(token, Answered(OrderBody(status, Some(units2))), store)
  {
    var body1, body2 := OrderBody(status, Some(units1)), OrderBody(status, Some(units2));
    assert FirstReference(units1) == FirstReference(units2);
    assert ReferenceId(body1) == ReferenceId(body2);
    assert Decide(token, Answered(body1), store.Keys) == Decide(token, Answered(body2), store.Keys);
  }

  /** A first unit whose reference is the placeholder "default": 502 before
      any parse or lookup, so the outcome is the same for every store. */
  lemma PlaceholderReference(token: TokenOutcome, units: seq<map<string, string>>, store: map<Uuid, RecordState>)
    requires AccessToken(token).Success?
    requires |units| > 0 && ReferenceIdField in units[0] && units[0][ReferenceIdField] == DefaultReference
    ensures Verify(token, Answered(OrderBody(Some(Completed), Some(units))), store) == Rejected(BadGateway, ReferenceNotSet, store)
  {
  }

  /** A first unit without a reference: the null reaches the UUID parser,
      which throws an exception no handler classifies; store unchanged. */
  lemma MissingReference(token: TokenOutcome, units: seq<map<string, string>>, store: map<Uuid, RecordState>)
    requires AccessToken(token).Success?
    requires |units| > 0 && ReferenceIdField !in units[0]
    ensures Verify(token, Answered(OrderBody(Some(Completed), Some(units))), store) == Verification(Failure(NullReference), store)
  {
  }

  /** A reference that is not a UUID (and not the placeholder): 502 whose
      reason ends with the raw reference, for every store. */
  lemma UnparseableReference(token: TokenOutcome, units: seq<map<string, string>>, store: map<Uuid, RecordState>)
    requires AccessToken(token).Success?
    requires |units| > 0 && ReferenceIdField in units[0]
    requires units[0][ReferenceIdField] != DefaultReference && !IsCanonicalUuidText(units[0][ReferenceIdField])
    ensures Verify(token, Answered(OrderBody(Some(Completed), Some(units))), store)
         == Rejected(BadGateway, InvalidReference + units[0][ReferenceIdField], store)
    ensures EndsWith(InvalidReference + units[0][ReferenceIdField], units[0][ReferenceIdField])
  {
    var text := units[0][ReferenceIdField];
    assert (InvalidReference + text)[|InvalidReference + text| - |text|..] == text;
  }

  /** A well-formed reference with no stored record: 404 (not 502) whose
      reason ends with the raw reference; store unchanged. */
  lemma UnknownTransaction(token: TokenOutcome, units: seq<map<string, string>>, store: map<Uuid, RecordState>)
    requires AccessToken(token).Success?
    requires |units| > 0 && ReferenceIdField in units[0]
    requires ParseUuid(units[0][ReferenceIdField]).Some? && ParseUuid(units[0][ReferenceIdField]).value !in store
    ensures Verify(token, Answered(OrderBody(Some(Completed), Some(units))), store)
         == Rejected(NotFound, TransactionNotFound + units[0][ReferenceIdField], store)
    ensures EndsWith(TransactionNotFound + units[0][ReferenceIdField], units[0][ReferenceIdField])
  {
    var text := units[0][ReferenceIdField];
    assert text != DefaultReference;
    assert (TransactionNotFound + text)[|TransactionNotFound + text| - |text|..] == text;
  }

  /** The conditions under which a verification succeeds, all of them needed:
      a token, a completed order whose first unit names, in canonical UUID
      text, a stored record. On success the result is exactly that UUID and
      only that record's status changes, to "paid". */
  lemma SucceedsExactly(token: TokenOutcome, order: OrderOutcome, store: map<Uuid, RecordState>)
    ensures var v := Verify(token, order, store);
      v.result.Success? <==>
        AccessToken(token).Success? && order.OrderResponse? && order.body.Some?
        && order.body.value.status == Some(Completed)
        && order.body.value.purchaseUnits.Some? && |order.body.value.purchaseUnits.value| > 0
        && ReferenceIdField in order.body.value.purchaseUnits.value[0]
        && ParseUuid(order.body.value.purchaseUnits.value[0][ReferenceIdField]).Some?
        && ParseUuid(order.body.value.purchaseUnits.value[0][ReferenceIdField]).value in store
    ensures var v := Verify(token, order, store);
      v.result.Success? ==>
        var id := v.result.value;
        && id == ParseUuid(order.body.value.purchaseUnits.value[0][ReferenceIdField]).value
        && v.store.Keys == store.Keys
        && v.store[id].status == Some(Paid)
        && v.store[id].totalAmount == store[id].totalAmount
        && (forall k :: k in store && k != id ==> v.store[k] == store[k])
  {
    if order.OrderResponse? && order.body.Some? && order.body.value.purchaseUnits.Some?
       && |order.body.value.purchaseUnits.value| > 0 && ReferenceIdField in order.body.value.purchaseUnits.value[0]
       && order.body.value.purchaseUnits.value[0][ReferenceIdField] == DefaultReference
    {
      assert !IsCanonicalUuidText(DefaultReference);
    }
  }

  /** A record's identifier in canonical text is accepted as a reference
      and names that record again. */
  lemma FormattedReference(id: Uuid)
    requires WellFormed(id)
    ensures ParseReference(Some(FormatUuid(id))) == Success(id)
  {
    ParseFormat(id);
  }

  /** The reference of the example below. */
  const ExampleReference: string := "3fa85f64-5717-4562-b3fc-2c963f66afa6"

  /** The example's token response and completed order naming `ExampleReference`. */
  function ExampleToken(): TokenOutcome {
    TokenResponse(Some(map[AccessTokenField := "tok-abc"]))
  }

  function ExampleOrder(): OrderOutcome {
    Answered(OrderBody(Some(Completed), Some([map[ReferenceIdField := ExampleReference]])))
  }

  /** The example's reference is a UUID in canonical text. */
  lemma ExampleReferenceParses()
    ensures IsCanonicalUuidText(ExampleReference) && ParseUuid(ExampleReference).Some?
  {
  }

  /** An example: a token response and a COMPLETED order whose first unit
      names 3fa85f64-5717-4562-b3fc-2c963f66afa6. The record, with status
      "created", becomes "paid" and the verification returns its identifier. */
  lemma ExampleOrderPaysRecord(id: Uuid, amount: Option<int>)
    requires ParseUuid(ExampleReference) == Some(id)
    ensures Verify(ExampleToken(), ExampleOrder(), map[id := RecordState(amount, Some("created"))])
         == Verification(Success(id), map[id := RecordState(amount, Some(Paid))])
  {
    assert ExampleReference != DefaultReference;
  }

  /** Verifying the same order twice: the write is not guarded by the record's
      previous status, so the second call succeeds again with the same result
      and leaves the store as the first left it. */
  lemma RepeatedVerification(token: TokenOutcome, order: OrderOutcome, store: map<Uuid, RecordState>)
    ensures var first := Verify(token, order, store);
      Verify(token, order, first.store) == first
  {
    var first := Verify(token, order, store);
    assert first.store.Keys == store.Keys;
    assert Decide(token, order, first.store.Keys) == first.result;
  }

  /** A record that is already "paid" is paid again without complaint. */
  lemma PaidAgain(token: TokenOutcome, order: OrderOutcome, store: map<Uuid, RecordState>)
    requires Verify(token, order, store).result.Success?
    requires store[Verify(token, order, store).result.value].status == Some(Paid)
    ensures Verify(token, order, store) == Verification(Verify(token, order, store).result, store)
  {
    var id := Verify(token, order, store).result.value;
    assert store[id].(status := Some(Paid)) == store[id];
  }
}

/** A client method that walks through the happy path on the objects: a record created with
    status "created" and saved, then an order whose first unit carries the
    record's identifier, verified twice. */
module VerificationScenario {
  import opened Wrappers
  import opened Uuids
  import opened Entity
  import opened Repository
  import opened PayPal
  import VerificationProperties

  /** The order of the scenario: a token, and a completed order whose one
      purchase unit names `id`. */
  function CompletedOrderFor(id: Uuid): (r: (TokenOutcome, OrderOutcome))
    requires WellFormed(id)
    ensures Decide(r.0, r.1, {id}) == Success(id)
  {
    VerificationProperties.FormattedReference(id);
    var reference := FormatUuid(id);
    assert reference != DefaultReference;
    (TokenResponse(Some(map[AccessTokenField := "tok-abc"])),
     OrderResponse(Some(OrderBody(Some(Completed), Some([map[ReferenceIdField := reference]])))))
  }

  method CompletedOrderPaysRecord(generated: Uuid, amount: int)
    returns (first: Result<Uuid, Failure>, second: Result<Uuid, Failure>, status: Option<string>, total: Option<int>)
    requires WellFormed(generated)
    ensures first == Success(generated) && second == Success(generated)
    ensures status == Some(Paid) && total == Some(amount)
  {
    var repository := new TransactionRecordRepository();
    var record := new TransactionRecord(Some(amount));
    record.SetStatus(Some("created"));
    repository.Save(record, generated);
    var service := new PayPalService(repository);
    var (token, order) := CompletedOrderFor(generated);

    ghost var paid := map[generated := RecordState(Some(amount), Some(Paid))];
    assert repository.records == map[generated := record];
    assert repository.Snapshot().Keys == {generated};
    first := service.VerifyPayment(token, order);
    assert repository.Snapshot() == paid;
    second := service.VerifyPayment(token, order);
    assert record == repository.records[generated];
    status := record.GetStatus();
    total := record.GetTotalAmount();
  }
}

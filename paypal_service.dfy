/** Payment verification against the payment provider: fetch an access token,
    fetch the order, validate it, find the transaction record the order refers
    to and mark it paid. The two HTTP calls are not made here: what they
    returned is given to the operation as a `TokenOutcome` and an `OrderOutcome`. */
module PayPal {
  import opened Wrappers
  import opened Uuids
  import opened Entity
  import opened Repository

  /** The HTTP statuses the verification reports. */
  datatype HttpStatus = BadRequest | Unauthorized | PaymentRequired | NotFound | InternalServerError | BadGateway {
    function Code(): int {
      match this
      case BadRequest => 400
      case Unauthorized => 401
      case PaymentRequired => 402
      case NotFound => 404
      case InternalServerError => 500
      case BadGateway => 502
    }
  }

  /** How a verification fails. `StatusFailure` is a `ResponseStatusException`
      with its status and reason; `NullReference` is the NullPointerException
      that `UUID.fromString(null)` throws, which no handler classifies. */
  datatype Failure = StatusFailure(status: HttpStatus, reason: string) | NullReference

  /** What the token request produced: it threw a `RestClientException`
      (transport failure or non-2xx status), or it answered with a JSON object
      (None: null body) whose fields are given by name. */
  datatype TokenOutcome = TokenCallFailed(message: string) | TokenResponse(body: Option<map<string, string>>)

  /** The fields of an order the verification reads; each unit is a map from
      field name to value, so a missing or null `reference_id` is a missing key. */
  datatype OrderBody = OrderBody(status: Option<string>, purchaseUnits: Option<seq<map<string, string>>>)

  /** What the order request produced: a 4xx status, a 5xx status, any other
      `RestClientException`, or a 2xx response (None: null body). */
  datatype OrderOutcome =
    | OrderClientError(statusText: string)
    | OrderServerError(statusText: string)
    | OrderCallFailed(message: string)
    | OrderResponse(body: Option<OrderBody>)

  const AccessTokenField: string := "access_token"
  const ReferenceIdField: string := "reference_id"
  /** The only order status that confirms a payment. */
  const Completed: string := "COMPLETED"
  /** The provider's placeholder `reference_id` when none was set on the order. */
  const DefaultReference: string := "default"

  const AuthenticationFailed: string := "Failed to authenticate with PayPal: "
  const InvalidAuthResponse: string := "Invalid response from PayPal authentication"
  const EmptyResponse: string := "Empty response from PayPal API"
  const ClientErrorPrefix: string := "Client error when calling PayPal API: "
  const ServerErrorPrefix: string := "PayPal server error: "
  const CommunicationError: string := "Error communicating with PayPal API: "
  const StatusMissing: string := "Status field missing in PayPal response"
  const PaymentIncomplete: string := "Payment incomplete. Order status is "
  const PurchaseUnitsMissing: string := "Purchase units missing in PayPal response"
  const ReferenceNotSet: string := "TransactionID is not set in PayPal response"
  const InvalidReference: string := "Invalid transaction ID format received from PayPal: "
  const TransactionNotFound: string := "Transaction not found with ID: "

  /** The token the token request yields, as `verifyPayment` sees it: a
      `RestClientException` becomes 401, while a body that is null or lacks
      `access_token` raises a 502 that the 401 handler does not catch. */
  function AccessToken(token: TokenOutcome): (r: Result<string, Failure>)
    ensures r.Success? <==> token.TokenResponse? && token.body.Some? && AccessTokenField in token.body.value
    ensures r.Success? ==> r.value == token.body.value[AccessTokenField]
    ensures r.Failure? ==>
      r.error.StatusFailure? && r.error.status == (if token.TokenCallFailed? then Unauthorized else BadGateway)
  {
    match token
    case TokenCallFailed(message) => Failure(StatusFailure(Unauthorized, AuthenticationFailed + message))
    case TokenResponse(body) =>
      if body.None? || AccessTokenField !in body.value then Failure(StatusFailure(BadGateway, InvalidAuthResponse))
      else Success(body.value[AccessTokenField])
  }

  /** The order body, or the classified failure of the order request. The
      null-body 502 is raised inside the request's try block but is not a
      `RestClientException`, so it stays 502. */
  function FetchOrder(order: OrderOutcome): (r: Result<OrderBody, Failure>)
    ensures r.Success? <==> order.OrderResponse? && order.body.Some?
    ensures r.Success? ==> r.value == order.body.value
    ensures r.Failure? ==> r.error.StatusFailure? && r.error.status != Unauthorized
  {
    match order
    case OrderClientError(text) => Failure(StatusFailure(BadRequest, ClientErrorPrefix + text))
    case OrderServerError(text) => Failure(StatusFailure(BadGateway, ServerErrorPrefix + text))
    case OrderCallFailed(message) => Failure(StatusFailure(InternalServerError, CommunicationError + message))
    case OrderResponse(body) =>
      if body.None? then Failure(StatusFailure(BadGateway, EmptyResponse)) else Success(body.value)
  }

  /** The `reference_id` of the first purchase unit, when present (None when missing). */
  function FirstReference(units: seq<map<string, string>>): Option<string>
    requires |units| > 0
  {
    if ReferenceIdField in units[0] then Some(units[0][ReferenceIdField]) else None
  }

  /** The validation of the order body, in order: status present, status
      completed, purchase units present and non-empty, first unit's
      `reference_id` not the placeholder. A missing `reference_id` passes. */
  function ReferenceId(body: OrderBody): (r: Result<Option<string>, Failure>)
    ensures r.Success? <==>
      body.status == Some(Completed) && body.purchaseUnits.Some? && |body.purchaseUnits.value| > 0
      && FirstReference(body.purchaseUnits.value) != Some(DefaultReference)
    ensures r.Success? ==> r.value == FirstReference(body.purchaseUnits.value)
    ensures r.Failure? ==>
      r.error.StatusFailure? &&
      r.error.status == (if body.status.Some? && body.status.value != Completed then PaymentRequired else BadGateway)
  {
    if body.status.None? then Failure(StatusFailure(BadGateway, StatusMissing))
    else if body.status.value != Completed then Failure(StatusFailure(PaymentRequired, PaymentIncomplete + body.status.value))
    else if body.purchaseUnits.None? || |body.purchaseUnits.value| == 0 then Failure(StatusFailure(BadGateway, PurchaseUnitsMissing))
    else
      var reference := FirstReference(body.purchaseUnits.value);
      if reference == Some(DefaultReference) then Failure(StatusFailure(BadGateway, ReferenceNotSet))
      else Success(reference)
  }

  /** `UUID.fromString` on the reference and the handler of its
      IllegalArgumentException; a null reference escapes as NullReference. */
  function ParseReference(reference: Option<string>): (r: Result<Uuid, Failure>)
    ensures r.Success? ==> reference.Some? && WellFormed(r.value) && FormatUuid(r.value) == LowerHex(reference.value)
    ensures r.Failure? <==> reference.None? || !IsCanonicalUuidText(reference.value)
    ensures reference.None? ==> r == Failure(NullReference)
  {
    match reference
    case None => Failure(NullReference)
    case Some(text) =>
      match ParseUuid(text)
      case None => Failure(StatusFailure(BadGateway, InvalidReference + text))
      case Some(id) => FormatParse(text); Success(id)
  }

  /** The outcome of a verification when the store holds records under `known`. */
  function Decide(token: TokenOutcome, order: OrderOutcome, known: set<Uuid>): (r: Result<Uuid, Failure>)
    ensures r.Success? ==> r.value in known && WellFormed(r.value)
  {
    var accessToken :- AccessToken(token);
    var body :- FetchOrder(order);
    var reference :- ReferenceId(body);
    var id :- ParseReference(reference);
    if id in known then Success(id) else Failure(StatusFailure(NotFound, TransactionNotFound + reference.value))
  }

  /** A verification's result together with the store it leaves. */
  datatype Verification = Verification(result: Result<Uuid, Failure>, store: map<Uuid, RecordState>)

  /** Payment verification on the value of the store. */
  function Verify(token: TokenOutcome, order: OrderOutcome, store: map<Uuid, RecordState>): (v: Verification)
    ensures v.result.Failure? ==> v.store == store
    ensures v.result.Success? ==>
      v.result.value in store && v.store == store[v.result.value := store[v.result.value].(status := Some(Paid))]
  {
    var result := Decide(token, order, store.Keys);
    if result.Success? then
      var id := result.value;
      Verification(result, store[id := store[id].(status := Some(Paid))])
    else Verification(result, store)
  }

  class PayPalService {
    const repository: TransactionRecordRepository

    constructor (repository: TransactionRecordRepository)
      ensures this.repository == repository
    {
      this.repository := repository;
    }

    /** Sets the record's status to "paid" and saves it: the one write of a
        verification, to the record stored under `id` and to nothing else. */
    method MarkPaid(record: TransactionRecord, id: Uuid)
      requires repository.Valid()
      requires id in repository.records && repository.records[id] == record
      modifies repository, record
      ensures repository.Valid() && repository.records == old(repository.records)
      ensures repository.Snapshot() == old(repository.Snapshot())[id := old(record.State()).(status := Some(Paid))]
    {
      ghost var before := repository.Snapshot();
      ghost var paid := before[id := before[id].(status := Some(Paid))];
      assert forall k :: k in repository.records && k != id ==> repository.records[k] != record;
      record.SetStatus(Some(Paid));
      assert repository.Snapshot() == paid;
      ghost var stored := repository.records;
      repository.Save(record, id);
      assert repository.records == stored;
    }

    /** `verifyPayment`: the checks short-circuit on the first failure, and
        only a verification that passes all of them writes the store. */
    method VerifyPayment(token: TokenOutcome, order: OrderOutcome) returns (r: Result<Uuid, Failure>)
      requires repository.Valid()
      modifies repository, repository.records.Values
      ensures repository.Valid() && repository.records == old(repository.records)
      ensures Verification(r, repository.Snapshot()) == Verify(token, order, old(repository.Snapshot()))
    {
      var accessToken :- AccessToken(token);
      var body :- FetchOrder(order);
      var reference :- ReferenceId(body);
      var id :- ParseReference(reference);
      var found := repository.FindById(id);
      if found.None? {
        return Failure(StatusFailure(NotFound, TransactionNotFound + reference.value));
      }
      MarkPaid(found.value, id);
      r := Success(id);
    }
  }
}

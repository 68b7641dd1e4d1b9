# Payment verification of the cash register backend, in Dafny

This project models the payment-verification step of the cash register /
pledge machine backend. `PayPalService.verifyPayment` asks the payment
provider for an access token, fetches an order, validates it, looks up the
transaction record whose identifier the order carries as its first purchase
unit's `reference_id`, and sets that record's status to `"paid"`. Every
failure but one is reported as an HTTP status with a reason; a first purchase
unit without `reference_id` ends in a NullPointerException that no handler
classifies. None of the failures writes the store.

Modules:

- `Wrappers` (`wrappers.dfy`): `Option` for Java's null references, `Result` for
  a call that returns or throws.
- `Uuids` (`uuid.dfy`): UUIDs as the five groups of their canonical text
  (section 3 of RFC 4122). `ParseUuid` stands for `UUID.fromString` and
  `FormatUuid` for `UUID.toString`. Round trips are proved both ways.
- `Entity` (`transaction_record.dfy`): the class `TransactionRecord` with its
  mutable fields `id`, `totalAmount` and `status`. It has two constructors,
  two setters with frame postconditions, and the getters `GetId`,
  `GetTotalAmount` and `GetStatus`, which the setters' contracts use.
- `Repository` (`repository.dfy`): an in-memory transaction store, a class
  holding a `map<Uuid, TransactionRecord>`. Its invariant says that every
  record carries the key it is stored under. `Snapshot()` is the store's value,
  one `RecordState` per identifier.
- `PayPal` (`paypal_service.dfy`): what the two HTTP requests returned
  (`TokenOutcome`, `OrderOutcome`), the order body (`OrderBody`), the failures,
  and the decision chain as pure functions (`AccessToken`, `FetchOrder`,
  `ReferenceId`, `ParseReference`, `Decide`). `Verify` specifies the whole
  operation on the store's value. The class `PayPalService` has
  `VerifyPayment`, which runs the chain against the repository object, and
  `MarkPaid`, which does its one write.
- `VerificationProperties` and `VerificationScenario`
  (`verification_properties.dfy`): lemmas about the outcome of every branch,
  which check wins when several fail, repeated verification, a worked example
  with a literal identifier, and a client method that walks through the happy path.

Four behaviours of the code that a reader might not expect:

- A token response that is null or has no `access_token` fails with 502, not 401.
  The `ResponseStatusException` raised in `getAccessToken` is not a
  `RestClientException`, so the 401 handler does not catch it.
- A transport failure of the order request other than a 4xx or 5xx status is
  500, not 502.
- A first purchase unit without `reference_id` passes the `"default"` check.
  `UUID.fromString(null)` then throws a NullPointerException that no handler
  turns into a status. The model reports it as the failure `NullReference`.
- A parseable UUID with no stored record is 404. That `ResponseStatusException`
  is not an `IllegalArgumentException`, so the 502 handler leaves it alone.

## Model

| member | source | states |
|---|---|---|
| `Uuids.HexDigitValue` | src/main/java/de/se/cashregistersystem/service/PayPalService.java:117 | a character has a value exactly when it is a hexadecimal digit of either case, and the value is below 16 |
| `Uuids.ParseHex` | src/main/java/de/se/cashregistersystem/service/PayPalService.java:117 | a group of digits parses exactly when every character is a hexadecimal digit, and its value fits in that many digits |
| `Uuids.ParseUuid` | src/main/java/de/se/cashregistersystem/service/PayPalService.java:117 | text parses as a UUID exactly when it is in the canonical 8-4-4-4-12 form, and the result's groups fit their widths |
| `Uuids.ParseFormat` | src/main/java/de/se/cashregistersystem/service/PayPalService.java:117 | parsing the canonical text of any UUID gives that UUID back |
| `Uuids.FormatParse` | src/main/java/de/se/cashregistersystem/service/PayPalService.java:117 | formatting a parsed UUID gives the parsed text lower-cased, so two canonical references name the same record exactly when they agree up to letter case (true of this parser, which accepts only the canonical form) |
| `Entity.TransactionRecord.constructor` | src/main/java/de/se/cashregistersystem/entity/TransactionRecord.java:26-28 | the new record holds exactly the given amount, with no status and no identifier yet |
| `Entity.TransactionRecord.Empty` | src/main/java/de/se/cashregistersystem/entity/TransactionRecord.java:30-31 | the no-argument constructor leaves every field unset |
| `Entity.TransactionRecord.SetTotalAmount` | src/main/java/de/se/cashregistersystem/entity/TransactionRecord.java:33-35 | afterwards `GetTotalAmount()` returns the new amount; only that field may change, so `id` and `status` stay the same |
| `Entity.TransactionRecord.SetStatus` | src/main/java/de/se/cashregistersystem/entity/TransactionRecord.java:36-38 | afterwards `GetStatus()` returns the new status; only that field may change, so `id` and `totalAmount` stay the same |
| `Entity.TransactionRecord.GetId` | src/main/java/de/se/cashregistersystem/entity/TransactionRecord.java:39-41 | returns the `id` field |
| `Entity.TransactionRecord.GetTotalAmount` | src/main/java/de/se/cashregistersystem/entity/TransactionRecord.java:43-45 | returns the `totalAmount` field |
| `Entity.TransactionRecord.GetStatus` | src/main/java/de/se/cashregistersystem/entity/TransactionRecord.java:47-49 | returns the `status` field |
| `Repository.TransactionRecordRepository.FindById` | src/main/java/de/se/cashregistersystem/service/PayPalService.java:118-122 | finds a record exactly when one is stored under the identifier, and the record found carries that identifier |
| `Repository.TransactionRecordRepository.Save` | src/main/java/de/se/cashregistersystem/service/PayPalService.java:125 | stores the record under its identifier and keeps the store's invariant; a record with no identifier first receives the fresh, well-formed UUID given for it |
| `PayPal.AccessToken` | src/main/java/de/se/cashregistersystem/service/PayPalService.java:155-163 | a token comes back exactly when the response has a body with `access_token`; a thrown `RestClientException` becomes 401 (the handler at :37-44) and a missing body or field becomes 502, which that handler does not catch |
| `PayPal.FetchOrder` | src/main/java/de/se/cashregistersystem/service/PayPalService.java:53-82 | the order body comes back exactly when the request answered with a non-null body; every failure is a status failure and never 401 |
| `PayPal.ReferenceId` | src/main/java/de/se/cashregistersystem/service/PayPalService.java:84-114 | the body passes exactly when the status is COMPLETED, the purchase units are non-empty and the first unit's reference is not the placeholder; the result is that first reference; a failure is 402 when a status other than COMPLETED is present and 502 otherwise |
| `PayPal.ParseReference` | src/main/java/de/se/cashregistersystem/service/PayPalService.java:116-131 | fails exactly when the reference is null or not a canonical UUID, null giving the unclassified `NullReference`; on success the UUID's canonical text is the reference lower-cased |
| `PayPal.Decide` | src/main/java/de/se/cashregistersystem/service/PayPalService.java:35-122 | a verification succeeds only with a well-formed UUID that the store holds |
| `PayPal.Verify` | src/main/java/de/se/cashregistersystem/service/PayPalService.java:35-133 | every failure leaves the store as it was; a success returns a stored identifier and changes only that record's status, to "paid" |
| `PayPal.PayPalService.MarkPaid` | src/main/java/de/se/cashregistersystem/service/PayPalService.java:124-125 | the record under the identifier gets status "paid" and is saved back; no other record and no other field changes, and the store keeps the same objects |
| `PayPal.PayPalService.VerifyPayment` | src/main/java/de/se/cashregistersystem/service/PayPalService.java:35-133 | the returned result and the store's new value are exactly those of `Verify` on the store's old value; the store keeps the same record objects and its invariant |
| `VerificationProperties.UpstreamFailures` | src/main/java/de/se/cashregistersystem/service/PayPalService.java:37-82 | token request thrown: 401; token body null or without `access_token`: 502; order 4xx: 400; order 5xx: 502; other order failure: 500; null order body: 502. Each has its reason, and none writes the store |
| `VerificationProperties.TokenFailureIgnoresOrder` | src/main/java/de/se/cashregistersystem/service/PayPalService.java:37-44 | once the token step fails, the outcome is the same whatever the order request returned, and it is 401 or 502 |
| `VerificationProperties.AbsentStatus` | src/main/java/de/se/cashregistersystem/service/PayPalService.java:84-90 | an order without a status gives 502 and leaves the store unchanged |
| `VerificationProperties.IncompletePayment` | src/main/java/de/se/cashregistersystem/service/PayPalService.java:91-96 | a status other than COMPLETED gives 402 whose reason ends with the status; store unchanged; the same outcome without purchase units, since the status is checked first |
| `VerificationProperties.MissingPurchaseUnits` | src/main/java/de/se/cashregistersystem/service/PayPalService.java:98-105 | a completed order with null or empty purchase units gives 502 and leaves the store unchanged |
| `VerificationProperties.FirstUnitOnly` | src/main/java/de/se/cashregistersystem/service/PayPalService.java:107-108 | two orders with the same status and the same first unit verify alike, whatever their other units |
| `VerificationProperties.PlaceholderReference` | src/main/java/de/se/cashregistersystem/service/PayPalService.java:107-114 | a first reference equal to "default" gives 502 for every store, before any parse or lookup |
| `VerificationProperties.MissingReference` | src/main/java/de/se/cashregistersystem/service/PayPalService.java:108-117 | a first unit without `reference_id` ends in the unclassified `NullReference` failure and leaves the store unchanged |
| `VerificationProperties.UnparseableReference` | src/main/java/de/se/cashregistersystem/service/PayPalService.java:116-131 | a reference that is not a UUID gives 502 whose reason ends with the raw reference, for every store, with no write |
| `VerificationProperties.UnknownTransaction` | src/main/java/de/se/cashregistersystem/service/PayPalService.java:118-122 | a UUID with no stored record gives 404 (not 502) whose reason ends with the raw reference; store unchanged |
| `VerificationProperties.SucceedsExactly` | src/main/java/de/se/cashregistersystem/service/PayPalService.java:84-126 | success exactly when there is a token and a completed order whose first unit names, as a canonical UUID, a stored record. The result is that UUID. Only that record changes: its status becomes "paid", its amount stays, every other record stays |
| `VerificationProperties.FormattedReference` | src/main/java/de/se/cashregistersystem/service/PayPalService.java:117 | the canonical text of a record's identifier is accepted as a reference and names that identifier |
| `VerificationProperties.ExampleReferenceParses` | src/main/java/de/se/cashregistersystem/service/PayPalService.java:117 | the literal reference 3fa85f64-5717-4562-b3fc-2c963f66afa6 is canonical UUID text and parses |
| `VerificationProperties.ExampleOrderPaysRecord` | src/main/java/de/se/cashregistersystem/service/PayPalService.java:35-133 | with a token and a COMPLETED order whose first unit names 3fa85f64-5717-4562-b3fc-2c963f66afa6, a store holding that record with status "created" verifies to its identifier, and the record becomes "paid" with its amount unchanged |
| `VerificationProperties.RepeatedVerification` | src/main/java/de/se/cashregistersystem/service/PayPalService.java:124-126 | verifying the same outcomes again on the store the first call left gives the same result and the same store |
| `VerificationProperties.PaidAgain` | src/main/java/de/se/cashregistersystem/service/PayPalService.java:124-125 | the write is not guarded by the previous status: verifying an already paid record succeeds and leaves the store as it was |
| `VerificationScenario.CompletedOrderPaysRecord` | src/main/java/de/se/cashregistersystem/service/PayPalService.java:35-133 | a record created with status "created" and saved, verified twice against a completed order naming it: both calls return its identifier, and afterwards it is "paid" with its amount unchanged |

## Left out

- HTTP requests: the token and order requests are not made. Their results are the
  inputs `TokenOutcome` and `OrderOutcome`. The order identifier only selects the
  request URL, so it is not a parameter. Headers, URLs, form encoding and the
  exception messages are not modelled; the messages and status texts are strings
  inside the outcomes.
- Basic-auth credentials: building them is a call into `java.util.Base64`,
  which is not part of this model. The configured client id and secret are
  left out with them.
- Access token: its value only goes into a request header, so it does not
  influence the model. An `access_token` present with a null value is not
  distinguished from any other value.
- Java type errors: a value of the wrong JSON type behind one of the unchecked
  casts throws a ClassCastException that no handler classifies. This is not
  modelled for `status` (PayPalService.java:84), the purchase-unit list (:99),
  the first purchase unit (:107, a first unit that is not an object),
  `reference_id` (:108) or `access_token` (:163); the `string` and
  `map<string, string>` types exclude those cases. Neither is a null element of
  `purchase_units`, where `purchaseUnit.get` would throw.
- Spring and JPA wiring: dependency injection and configuration values are not
  modelled. The JPA repository is replaced by `TransactionRecordRepository`, and
  the generated identifier is a parameter of `Save`.
- Concurrency: two verifications of the same record at the same time are not
  modelled; each call is one sequential step.
- Amounts: `totalAmount` is a whole number of cents rather than a `BigDecimal`
  of scale 2, since nothing here computes with it. The non-null column
  constraint belongs to persistence and is not modelled.
- `Uuids.ParseUuid`: accepts only the canonical 36-character form. Java's
  `UUID.fromString` parses each hyphen-separated group with
  `Long.parseLong(…, 16)` and masks the result to the group's width, so it also
  accepts shorter groups, signed groups, over-long groups within 36 characters
  (`000000001-0-0-0-0` names `00000001-0000-0000-0000-000000000000`) and
  non-ASCII digits that `Character.digit` recognises. References in those forms
  would be looked up rather than rejected with 502, and two different texts of
  those forms can name the same record.
- `Brand.java` and the controller test are not part of this model. The test
  exercises a controller and a service whose source is not part of this model.

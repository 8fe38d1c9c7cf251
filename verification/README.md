# Card transaction core: gateway, processor and PIN hasher

This project models the transaction-processing core of a card-based banking
backend in Dafny and proves properties of it.

The core has three parts:

- The **gateway** ("System 1", `TransactionGatewayService`). It validates a
  request in a fixed order: card number, then amount, then type. It stops at
  the first failure. A malformed request is refused and nothing is logged.
  Only card numbers starting with `4` go on to the processor. Any other
  well-formed request is logged as a DECLINED "Card range not supported"
  record, without looking at the card store.
- The **processor** ("System 2", `TransactionProcessorService`). It looks up
  the card and checks the PIN. It then withdraws (declining "Insufficient
  balance" when the balance does not cover the amount) or tops up (always
  succeeds). Every path saves exactly one ledger record.
- The **PIN hasher** (`PinHasher`). A PIN is stored as the lowercase hex
  rendering of its SHA-256 digest. Verification recomputes that string and
  compares it for equality.

The whole system is one pure step function:
`Gateway.ProcessTransaction(sha, state, request)` returns the response and
the new state. The state holds the card store, a map from card number to
`Card(pinHash, balance)`, and the ledger, a sequence of `Txn` records.
`Runs.Run` folds that step over a sequence of requests.

Modelling choices:

- **Money** is integer cents. `Card.balance` is a decimal column of scale 2
  (`backend/src/main/java/com/banking/model/Card.java`, line 21). The core
  only adds, subtracts and compares amounts, so cents are exact.
- **SHA-256** is the parameter `sha: Sha256`. It stands for any function from
  strings to 32-byte digests. It also covers `pin.getBytes()`. Every result
  holds for every such function, so nothing depends on collision resistance.
- **Java `byte`** is signed. `String.format("%02x", b)` prints the unsigned
  reading of a negative byte (b + 256). `PinHasher.JByte` and
  `PinHasher.Unsigned` model this explicitly.
- **Nullable request fields** (card number, amount, type) are `Option`
  values, because the gateway checks them for null.
- **The ledger record type.** `backend/src/main/java/com/banking/model/Transaction.java`
  is not part of this model. The `Txn` fields are taken from how the services
  use it: the constructor `(cardNumber, type, amount)`, then `setStatus`,
  `setMessage` and `setBalanceAfter`. `balanceAfter` is taken to be null
  unless it is set.
- **Card numbers.** A card's number is its key in the store. The number the
  processor copies from `card.getCardNumber()` is therefore the request's
  number.
- **The processor's input.** The processor receives the gateway's request
  after validation, as `Routed`, with its fields known to be non-null. The
  type string is still arbitrary, so the processor's defensive "Invalid
  transaction type" branch is modelled.

Two properties one might expect do not follow from the code, and the model
states only what does:

- "A different PIN never verifies" needs SHA-256 to be collision-free, which
  cannot be derived from this code. The model proves the part that does
  follow (`PinHasher.SameStoredHashSameDigest`): two PINs accepted by one
  stored hash have the same digest.
- The processor is declared `@Transactional`, but the code takes no per-card
  lock and has no optimistic retry. The model treats each request as one
  atomic step and does not decide whether concurrent requests can lose an
  update.

## Model

| member | source | states |
|---|---|---|
| PinHasher.Unsigned | backend/src/main/java/com/banking/util/PinHasher.java:45 | The value `%02x` prints for a signed byte is in 0..255 and agrees with the byte modulo 256. |
| PinHasher.Hex2 | backend/src/main/java/com/banking/util/PinHasher.java:45 | Each byte is printed as exactly two characters, both lowercase hex digits. |
| PinHasher.HexOf | backend/src/main/java/com/banking/util/PinHasher.java:42-48 | The hex rendering is exactly twice as long as the byte array, and every character is one of `0-9a-f`. |
| PinHasher.BytesToHex | backend/src/main/java/com/banking/util/PinHasher.java:42-48 | The StringBuilder loop produces the `%02x` rendering of each byte, concatenated in input order. |
| PinHasher.HexOfAt | backend/src/main/java/com/banking/util/PinHasher.java:44-46 | Byte i of the input is rendered at positions 2i and 2i+1. |
| PinHasher.HexRoundTrip | backend/src/main/java/com/banking/util/PinHasher.java:42-48 | Decoding the hex rendering two digits at a time gives back the original bytes. |
| PinHasher.DecodedIsCanonical | backend/src/main/java/com/banking/util/PinHasher.java:42-48 | Every string the decoder accepts is the rendering of the bytes it decodes to, so the encoder and decoder are inverse bijections. |
| PinHasher.HexInjective | backend/src/main/java/com/banking/util/PinHasher.java:42-48 | Different byte arrays never render to the same hex string. |
| PinHasher.HashPin | backend/src/main/java/com/banking/util/PinHasher.java:16-24 | The stored hash of a PIN is 64 lowercase hex characters and decodes back to the PIN's SHA-256 digest. |
| PinHasher.VerifyPin | backend/src/main/java/com/banking/util/PinHasher.java:32-35 | A PIN verifies exactly when the stored string decodes to that PIN's digest. |
| PinHasher.VerifyOwnHash | backend/src/main/java/com/banking/util/PinHasher.java:32-35 | Every PIN verifies against its own hash. |
| PinHasher.VerifyIsHashEquality | backend/src/main/java/com/banking/util/PinHasher.java:32-35 | Verification holds exactly when `hashPin(pin)` equals the stored string; there is no salt and no other input. |
| PinHasher.SameStoredHashSameDigest | backend/src/main/java/com/banking/util/PinHasher.java:32-35 | Two PINs that both verify against one stored hash have equal SHA-256 digests. |
| PinHasher.HashDependsOnDigestOnly | backend/src/main/java/com/banking/util/PinHasher.java:16-20 | Two PINs hash to the same string exactly when their digests are equal; in particular, hashing is deterministic. |
| Entities.RecordedType | backend/src/main/java/com/banking/service/TransactionProcessorService.java:143 | A record's type is WITHDRAW exactly when the request's type string is "withdraw"; any other string is recorded as TOPUP. |
| Entities.DeclinedTxn | backend/src/main/java/com/banking/service/TransactionProcessorService.java:123-132 | A declined record copies the request's card number, amount and message, is DECLINED, has no balanceAfter, and stands for no balance change on any card. The gateway's helper at lines 93-101 of its own file builds the same record. |
| Entities.SuccessfulTxn | backend/src/main/java/com/banking/service/TransactionProcessorService.java:140-149 | A successful record copies the request's card number, amount and message, is SUCCESS, and carries the new balance (set at lines 86 and 110). It stands for minus the amount on the request's card for "withdraw", plus the amount otherwise, and for nothing on any other card. |
| Processor.Decline | backend/src/main/java/com/banking/service/TransactionProcessorService.java:34-39 | A decline saves one DECLINED record for the request and returns only the failure message. The card store is unchanged, the earlier records are kept, and balances still match the ledger. |
| Processor.ProcessWithdrawal | backend/src/main/java/com/banking/service/TransactionProcessorService.java:68-91 | A withdrawal succeeds exactly when balance >= amount. On success the new balance is old − amount and is >= 0, and one SUCCESS record with that balanceAfter is appended. Otherwise the result is the "Insufficient balance" decline. Other cards and the PIN hash are unchanged. |
| Processor.ProcessTopup | backend/src/main/java/com/banking/service/TransactionProcessorService.java:99-115 | A top-up always succeeds. The new balance is old + amount with no upper bound, and one SUCCESS record and a receipt carry the new balance. |
| Processor.ProcessTransaction | backend/src/main/java/com/banking/service/TransactionProcessorService.java:32-60 | Every path appends exactly one record and leaves the earlier records unchanged. Only the addressed card's balance can move, and it moves by exactly what the new record stands for. PIN hashes are unchanged. The record copies the request's number, amount and type (anything but "withdraw" is recorded as TOPUP). The response succeeds exactly when the record is SUCCESS. A record has no balanceAfter exactly when it is DECLINED. Success requires a stored card whose hash matches the PIN. |
| Processor.UnknownCardDeclined | backend/src/main/java/com/banking/service/TransactionProcessorService.java:34-39 | The outcome is the "Invalid card" decline exactly when the card number is not in the store. |
| Processor.WrongPinDeclined | backend/src/main/java/com/banking/service/TransactionProcessorService.java:44-48 | For a stored card, the outcome is the "Invalid PIN" decline exactly when the PIN does not verify against the stored hash. |
| Processor.WithdrawalOutcome | backend/src/main/java/com/banking/service/TransactionProcessorService.java:73-90 | A withdrawal with a correct PIN succeeds exactly when balance >= amount (equality succeeds). Otherwise it is the "Insufficient balance" decline with no balance change. On success the balance becomes old − amount and stays >= 0, the PIN hash is kept, and the response is "Withdrawal successful" with a receipt carrying the new balance. |
| Processor.TopupOutcome | backend/src/main/java/com/banking/service/TransactionProcessorService.java:99-114 | A top-up with a correct PIN always succeeds. The balance becomes old + amount, the PIN hash is kept, and the response is "Top-up successful" with a receipt carrying the new balance. |
| Processor.UnknownTypeDeclined | backend/src/main/java/com/banking/service/TransactionProcessorService.java:55-59 | Past the PIN check, a type other than "withdraw" or "topup" gives the "Invalid transaction type" decline. |
| Processor.ProcessorKeepsNonNegative | backend/src/main/java/com/banking/service/TransactionProcessorService.java:73-82 | With a non-negative amount, the processor never makes a balance negative. |
| Gateway.IsValidCardNumber | backend/src/main/java/com/banking/service/TransactionGatewayService.java:56-58 | A card number is valid exactly when it is non-null, 16 characters long, and every character is one of the ten ASCII digits. |
| Gateway.IsValidAmount | backend/src/main/java/com/banking/service/TransactionGatewayService.java:65-67 | An amount is valid exactly when it is non-null and at least one cent, that is, greater than zero. |
| Gateway.IsValidTransactionType | backend/src/main/java/com/banking/service/TransactionGatewayService.java:74-76 | A type is valid exactly when it is non-null and one of the two strings "withdraw" and "topup". |
| Gateway.InSupportedRange | backend/src/main/java/com/banking/service/TransactionGatewayService.java:41 | A card number is in the supported range exactly when "4" is a prefix of it. |
| Gateway.FirstFailure | backend/src/main/java/com/banking/service/TransactionGatewayService.java:28-38 | The reported message belongs to a failing check that has only passing checks before it. None is reported exactly when every check passes. |
| Gateway.ChecksInOrder | backend/src/main/java/com/banking/service/TransactionGatewayService.java:28-38 | The checks run as card format, then amount, then type, and the message is that of the first one that fails. |
| Gateway.ProcessTransaction | backend/src/main/java/com/banking/service/TransactionGatewayService.java:26-49 | A malformed request gets the first failing check's message, and the state is unchanged. A well-formed request appends exactly one record that copies the request's number, amount and type; the response succeeds exactly when that record is SUCCESS, and balances move by exactly what the record stands for. A refusal changes no card. No card is added or removed, and no PIN hash changes. A success implies a '4'-range card that is in the store, a PIN that verifies, and a record whose balanceAfter is the card's new balance. |
| Gateway.InvalidCardNumberRefused | backend/src/main/java/com/banking/service/TransactionGatewayService.java:28-30 | A null card number, or one that is not exactly 16 ASCII digits, gives "Invalid card number format", whatever the other fields hold. The ledger and the card store are unchanged. |
| Gateway.InvalidAmountRefused | backend/src/main/java/com/banking/service/TransactionGatewayService.java:32-34 | A null or non-positive amount, with a valid card number, gives "Invalid amount" and no ledger entry. |
| Gateway.InvalidTypeRefused | backend/src/main/java/com/banking/service/TransactionGatewayService.java:36-38 | With a valid card number and amount, a type other than exactly "withdraw" or "topup" (case-sensitive) gives "Invalid transaction type" and no ledger entry. |
| Gateway.UnsupportedRangeDeclined | backend/src/main/java/com/banking/service/TransactionGatewayService.java:41-45 | A well-formed request whose number does not start with '4' is refused with "Card range not supported". Exactly one DECLINED record is appended, with the request's number, amount and type. The card store is unchanged. |
| Gateway.RangeDeclineIgnoresStoreAndPin | backend/src/main/java/com/banking/service/TransactionGatewayService.java:41-45 | The range decline is the same whatever cards are stored and whatever the hash function is, so neither the store nor the PIN check is consulted. |
| Gateway.SupportedRangeRouted | backend/src/main/java/com/banking/service/TransactionGatewayService.java:47-48 | A well-formed '4'-range request gets exactly the processor's response and resulting state. |
| Gateway.GatewayKeepsNonNegative | backend/src/main/java/com/banking/service/TransactionGatewayService.java:26-49 | If no balance is negative before a request, none is negative after it. |
| Runs.RunLedgerGrowth | backend/src/main/java/com/banking/service/TransactionGatewayService.java:26-49 | Over any sequence of requests, the ledger only grows and keeps the old records as its prefix. It gains exactly one record per well-formed request. No card is created or deleted. |
| Runs.RunConserves | backend/src/main/java/com/banking/service/TransactionProcessorService.java:68-115 | After any sequence of requests, each card's balance is its initial balance plus the successful top-ups minus the successful withdrawals recorded for it. |
| Runs.RunKeepsNonNegative | backend/src/main/java/com/banking/service/TransactionProcessorService.java:73-82 | No sequence of requests makes any balance negative. |
| Runs.LedgerNeverOverdraws | backend/src/main/java/com/banking/service/TransactionProcessorService.java:73-82 | The successful withdrawals recorded for a card never exceed its initial balance plus its recorded top-ups. |
| Runs.RepeatedInvalidPin | backend/src/main/java/com/banking/service/TransactionProcessorService.java:44-48 | The same wrong-PIN request sent n times appends n identical DECLINED records (no deduplication) and changes no card. |
| Runs.StepKeepsBalancesRecorded | backend/src/main/java/com/banking/service/TransactionProcessorService.java:80-88 | If every card's newest SUCCESS record carries its current balance as balanceAfter, this still holds after one more request. |
| Runs.RunKeepsBalancesRecorded | backend/src/main/java/com/banking/service/TransactionProcessorService.java:104-111 | After any sequence of requests, every card's newest SUCCESS record carries the card's current balance as balanceAfter. |
| Runs.WithdrawalRouted | backend/src/main/java/com/banking/service/TransactionGatewayService.java:47-48 | A well-formed withdrawal request on a '4'-range card gets exactly what the processor returns for the same number, PIN, amount and type. |
| Runs.TopupRouted | backend/src/main/java/com/banking/service/TransactionGatewayService.java:47-48 | A well-formed top-up request on a '4'-range card gets exactly what the processor returns for the same number, PIN, amount and type. |
| Runs.WithdrawTopupOverdrawScenario | backend/src/main/java/com/banking/service/TransactionProcessorService.java:68-115 | Balance 1000.00: withdrawing 200.00 leaves 800.00, topping up 50.00 gives 850.00, and withdrawing 900.00 is declined "Insufficient balance" with 850.00 left. |
| Runs.OutOfRangeScenario | backend/src/main/java/com/banking/service/TransactionGatewayService.java:41-45 | A withdrawal on card 5000123456789012, with any PIN and any positive amount, is declined "Card range not supported" with one DECLINED record. |
| Runs.WrongPinScenario | backend/src/main/java/com/banking/service/TransactionProcessorService.java:44-48 | Card 4000123456789013 with wrong PIN 0000 is declined "Invalid PIN". Balances are unchanged and one record is added. |
| Runs.TwoWithdrawalsScenario | backend/src/main/java/com/banking/service/TransactionProcessorService.java:73-90 | Two withdrawals of 600.00 from 1000.00, handled in turn: the first succeeds, the second is declined, and 400.00 remains. |

## Left out

- SHA-256 and `MessageDigest` are not modelled. The digest is the parameter `sha`. The `NoSuchAlgorithmException` branch of `hashPin` is left out, because SHA-256 is always available. The platform charset of `pin.getBytes()` is folded into `sha`.
- PinHasher.SameStoredHashSameDigest: this is weaker than "a different PIN never verifies". That claim needs SHA-256 to be collision-free, which this code cannot show.
- `generateSalt` is left out. It draws from `SecureRandom`, and nothing calls it.
- A null PIN is not modelled. `hashPin` would throw a NullPointerException on it. The PIN is a non-null string.
- The processor is only ever called by the gateway with validated, non-null fields. A direct call with null fields is not modelled.
- Amounts with more than two fractional digits are not modelled. A `BigDecimal` such as 0.001 passes `isValidAmount`, but amounts here are whole cents.
- Balances have no upper bound. The `precision = 10` column limit is enforced by the database on save, and is left out.
- Timestamps, generated ids and `createdAt`/`updatedAt` are left out. They come from clocks and the database, not from this logic.
- The response's `transactionId` is never set by this code and is always null, so `Response` has no such field.
- `@Transactional`, locking and concurrent interleavings are left out. Each request is one atomic sequential step. `Runs.TwoWithdrawalsScenario` shows only the serialized outcome.
- The repositories' query methods (`findByCardNumberOrderByTimestampDesc`, `findByStatusOrderByTimestampDesc`, `existsByCardNumber`) and their newest-first ordering are left out. The store is a map and the ledger is a sequence.
- The HTTP controllers and their `@Valid` bean validation are left out. The gateway's own checks are modelled for every input, including those bean validation would reject first.
- The comparison in `verifyPin` is Java's non-constant-time `String.equals`. Timing is not modelled.
- User accounts, seed data (`DataInitializer`) and the React frontend are outside the transaction core.

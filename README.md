# Bitcoin domain-payment backend: a verified model

This project models the core of a backend that sells domain names for
Bitcoin. It covers five parts:

- **Price computation** (`get_price`): the base price, the loyalty discount
  rules (stackable and non-stackable), rounding up to 1e-7 BTC, and the
  minimum-price check.
- **Payment ledger** (the Postgres repository): the `payments` and
  `payment_transactions` tables, held in a class and changed by the methods
  that mirror the SQL statements.
- **Prototype watcher loop** (`main.rs`): the set of seen transaction ids
  and the running total, so that each transaction is credited once.
- **PKCS#7 padding** (section 6.3 of RFC 5652) and the batch-encryption
  wrappers.
- **Small conversions**: the payment status check, log-type names, the
  encryption-method tag, and chain to RPC port / network.

Files, one module each:

| file | module | source |
|---|---|---|
| `pricing.dfy` | `Pricing` | `src/endpoints/pricing.rs` |
| `payment.dfy` | `Payments` | `src/db/repositories/models/payment.rs` |
| `ledger.dfy` | `PaymentLedger` | `src/db/repositories/sqlx_postgresql/sqlx_postgresql_repository.rs` |
| `utxo_watch.dfy` | `UtxoWatch` | `src/main.rs` |
| `encryption.dfy` | `Encryption` | `src/utils/encryption.rs` |
| `status.dfy` | `PaymentStatus` | `src/endpoints/status.rs` |
| `log_types.dfy` | `LogTypes` | `src/db/log.rs` |
| `encryption_methods.dfy` | `EncryptionMethods` | `src/db/encryption_methods.rs` |
| `chain.dfy` | `BitcoinChain` | `src/bitcoin/chain.rs` |

How the model is shaped:

- **Pricing.** `Pricing.GetPrice` is the endpoint, and `Pricing.ScanDiscounts`
  is its loop with the accumulators. `GetPrice` is proved equal to the
  function `Pricing.PriceOf`. The
  lemmas are stated about `PriceOf` and about `ScanAll`, which is the loop
  as a fold.
- **Inputs for pricing.** `DOMAIN_PRICE_BTC` and `MINIMUM_DOMAIN_PRICE_BTC`
  are not shown, so they are parameters. So are the results of
  `get_addresses`, `get_wallets_collections` and
  `get_loyalty_discounts_for_collections`.
- **Ledger.** `PaymentLedger.SqlxPostgresqlRepository` holds the two tables
  as fields. Each mutator's new table is stated through a pure function of
  the old table (`WithConfirmations`, `WithReceived`, `WithInitiated`,
  `WithCompleted`).
- **Database errors.** Whether the database runs a statement at all is
  outside the code, so each method takes a flag saying so. `ok == false`
  stands for any `sqlx::Error`.
- **Watcher tick.** `UtxoWatch.Tick` is the body of the watcher's `loop`.
  The result of `list_unspent` is its input.
- **Amounts.** BTC amounts are exact reals, not `f64`. The watcher sums
  whole satoshis.

Behaviour where the model has to choose:

- **Panics become preconditions.** `LogTypes::from` on an unknown string
  and `EncryptionMethods::from` on any `i16` other than 1 panic. The model
  makes these preconditions (`IsLogTypeName`, `IsKnownTag`).
  `pkcs7_padding` with block size 0 divides by zero; it is a precondition
  too.
- **The unpadding panic is a result.** A last byte of 0 makes
  `pkcs7_unpadding` slice `input[len..len-1]`, which panics. `Unpad`
  returns `None` for that case.
- **Narrowing casts are exact.** `padding_length as u8` keeps the low
  eight bits (`AsByte`). So the padding round trip is proved for block
  sizes 1 to 255. At 256, a multiple-of-256 input gets 256 zero bytes of
  padding, and unpadding that panics. `confirmations as i32` and
  `min_confirmations as i32` keep the low 32 bits as a two's-complement
  number (`AsI32`).
- **Integer overflow fails the statement.** Postgres raises an error when
  `confirmations + $1` leaves the `integer` range, so in the model that
  statement fails and the row is unchanged.
- **Column defaults are assumed.** The model assumes these defaults for a
  new payment: `received` 0, `confirmations` 0, `initiated` and `completed`
  false, and both timestamps at creation time. Ids are handed out fresh
  from a counter, which stands for the database's UUID default.
- **No uniqueness constraints.** The schema is not shown, so there are no
  uniqueness or foreign-key constraints. `payment_transactions` is a set of
  pairs. `get_payment_by_address` returns some row with that address when
  several rows share it.
- **Stackable rules are not currency-checked.** A stackable rule's amount
  is added to the percentage total whatever its currency, as the code does.
  So a stackable "BTC" rule counts as that many percent. `ScanLists` states
  this.
- **The trait and the implementation disagree.**
  `src/db/traits/repository.rs` declares `add_payment_received` without the
  transaction id. The model follows the implementation.

## Model

| member | source | states |
|---|---|---|
| `Pricing.GetPrice` | src/endpoints/pricing.rs:45-157 | the endpoint's loop computes exactly `PriceOf`; a quantity of 0 is a bad request; an Ok price is never below the minimum |
| `Pricing.ScanDiscounts` | src/endpoints/pricing.rs:91-132 | the loop over the rules, with its six accumulators, ends in exactly the state the fold `ScanAll` describes, or stops where it meets an unknown currency; the chosen currency is "", "%" or "BTC" |
| `Pricing.CollectionQuery` | src/endpoints/pricing.rs:76-84 | the discount query lists every BRC-20 balance as kind 0, in order, then "bit-apes", "bitcoin-frogs" and "other" as kind 1 with amount 1 |
| `Pricing.DiscountsOrNone` | src/endpoints/pricing.rs:86-89 | a failed discount query counts as an empty rule list |
| `Pricing.PriceAfter` | src/endpoints/pricing.rs:111-113 | a "BTC" rule alone takes its amount off the base; a non-negative percent rule never raises the base |
| `Pricing.Ceil7` | src/endpoints/pricing.rs:142 | the rounded value is a whole multiple of 1e-7, at least the input and less than 1e-7 above it, so it is the input rounded up to the 1e-7 grid |
| `Pricing.ScanLists` | src/endpoints/pricing.rs:98-132 | the loop fails exactly when a non-stackable rule has a currency other than "%" or "BTC"; stackable rules are never checked; it lists every stackable rule, sums their amounts whatever their currency, and lists every non-stackable message |
| `Pricing.BestChoice` | src/endpoints/pricing.rs:94-139 | the chosen non-stackable rule prices strictly below the base and no higher than any other, each priced from the undiscounted base; ties keep the first; with no rule below the base nothing is chosen and the discount is (0, ""); the chosen currency is "", "%" or "BTC", so the panic branch is unreachable |
| `Pricing.BestIsUnique` | src/endpoints/pricing.rs:125-129 | at most one rule meets the best-for-buyer condition, so the choice is determined |
| `Pricing.PriceOutcomes` | src/endpoints/pricing.rs:45-156 | a zero quantity is a bad request whatever else holds, and only a zero quantity is; a failed address or balance lookup is an internal error; an unknown currency on a non-stackable rule is an internal error exactly when such a rule exists; a failed discount query means no discounts; with no such rule the answer is Ok exactly when the rounded price reaches the minimum, and otherwise the below-minimum internal error; the endpoint never answers Unauthorized |
| `Pricing.PriceResponse` | src/endpoints/pricing.rs:134-156 | an Ok response carries the stackable rules, every non-stackable message, and the best rule's amount and currency; its final price is `FinalPrice` of the rules and, read off the response's own fields, `(base - chosen BTC amount) * (1 - (stackable total + chosen percentage)/100)` rounded up to the 1e-7 grid; it is at least the minimum |
| `Pricing.NoDiscountExample` | src/endpoints/pricing.rs:61-142 | two domains at 0.0007 BTC with no rules cost 0.0014 BTC |
| `Pricing.StackedPercentExample` | src/endpoints/pricing.rs:101-142 | stackable 10% and 5% rules on 0.0007 BTC give 0.000595 BTC |
| `Pricing.BestOfTwoExample` | src/endpoints/pricing.rs:111-142 | of a 0.0002 BTC rule and a 20% rule on 0.0007 BTC, the BTC rule wins, both messages are listed, and the price is 0.0005 BTC |
| `PaymentLedger.AsI32` | src/db/repositories/sqlx_postgresql/sqlx_postgresql_repository.rs:83 | `as i32` keeps values below 2^31, wraps values from 2^31 to 2^32 to negative, and for every `u64` differs from its input by a multiple of 2^32 (it keeps the low 32 bits) |
| `PaymentLedger.NewPayment` | src/db/repositories/sqlx_postgresql/sqlx_postgresql_repository.rs:182-186 | a new row has the given account, address and amount, nothing received, no confirmations and neither flag set |
| `PaymentLedger.WithConfirmations` | src/db/repositories/sqlx_postgresql/sqlx_postgresql_repository.rs:81-85 | only that row's confirmations change, raised by the given amount; other rows and fields are unchanged, and an unknown id changes nothing |
| `PaymentLedger.WithReceived` | src/db/repositories/sqlx_postgresql/sqlx_postgresql_repository.rs:131-135 | only that row's received amount changes, raised by the given amount; other rows and fields are unchanged |
| `PaymentLedger.WithInitiated` | src/db/repositories/sqlx_postgresql/sqlx_postgresql_repository.rs:242-245 | only that row's initiated flag changes, to true; an unknown id changes nothing |
| `PaymentLedger.WithCompleted` | src/db/repositories/sqlx_postgresql/sqlx_postgresql_repository.rs:158-161 | only that row's completed flag changes, to true; an unknown id changes nothing |
| `PaymentLedger.FlagUpdatesIdempotent` | src/db/repositories/sqlx_postgresql/sqlx_postgresql_repository.rs:155-256 | initiating or completing twice is the same as once |
| `PaymentLedger.ProcessedSurvivesCredit` | src/db/repositories/sqlx_postgresql/sqlx_postgresql_repository.rs:131-135 | crediting an amount keeps every processed (transaction, address) pair processed |
| `PaymentLedger.ConfirmationsRaisedExactly` | src/db/repositories/sqlx_postgresql/sqlx_postgresql_repository.rs:81-85 | for a count below 2^31 whose sum fits, the row's confirmations rise by exactly that count |
| `PaymentLedger.SqlxPostgresqlRepository.CreatePayment` | src/db/repositories/sqlx_postgresql/sqlx_postgresql_repository.rs:174-202 | on success adds exactly one row, under an id not used before, and returns that id; on failure changes nothing |
| `PaymentLedger.SqlxPostgresqlRepository.AddPaymentConfirmation` | src/db/repositories/sqlx_postgresql/sqlx_postgresql_repository.rs:71-102 | succeeds exactly when the statement runs and the new count fits in `integer`; then the table is `WithConfirmations` of the old one, with the count cast `as i32`; otherwise nothing changes |
| `PaymentLedger.SqlxPostgresqlRepository.AddPaymentReceived` | src/db/repositories/sqlx_postgresql/sqlx_postgresql_repository.rs:104-153 | a failed insert changes nothing; a successful insert records the pair; the received amount rises by exactly the amount only when both statements succeed; after the pair is recorded, the transaction reads as processed for that payment's address |
| `PaymentLedger.SqlxPostgresqlRepository.CompletePayment` | src/db/repositories/sqlx_postgresql/sqlx_postgresql_repository.rs:155-172 | on success the table is `WithCompleted` of the old one, otherwise unchanged; the transactions table never changes |
| `PaymentLedger.SqlxPostgresqlRepository.InitiatePayment` | src/db/repositories/sqlx_postgresql/sqlx_postgresql_repository.rs:239-256 | on success the table is `WithInitiated` of the old one, otherwise unchanged; the transactions table never changes |
| `PaymentLedger.SqlxPostgresqlRepository.GetToBeInitiatedAddresses` | src/db/repositories/sqlx_postgresql/sqlx_postgresql_repository.rs:258-281 | returns one address per row with `initiated = false`, each such row exactly once |
| `PaymentLedger.SqlxPostgresqlRepository.GetToBeCompletedPayments` | src/db/repositories/sqlx_postgresql/sqlx_postgresql_repository.rs:283-318 | returns each id with initiated, not completed and confirmations at least `min_confirmations as i32` exactly once, and no other id |
| `PaymentLedger.SqlxPostgresqlRepository.GetPayment` | src/db/repositories/sqlx_postgresql/sqlx_postgresql_repository.rs:320-353 | returns the row with that id, or none when there is none |
| `PaymentLedger.SqlxPostgresqlRepository.IsAlreadyProcessed` | src/db/repositories/sqlx_postgresql/sqlx_postgresql_repository.rs:355-395 | true exactly when a recorded pair has that transaction id and a payment whose address is the given one |
| `PaymentLedger.SqlxPostgresqlRepository.GetPaymentByAddress` | src/db/repositories/sqlx_postgresql/sqlx_postgresql_repository.rs:397-430 | returns a stored row with that address exactly when one exists |
| `PaymentLedger.ReceiveFlow` | src/db/repositories/sqlx_postgresql/sqlx_postgresql_repository.rs:104-430 | on any repository, a created payment is found by id, and some row with its address is found by address, the created payment itself when no earlier row had that address; once a transaction is credited to it, that transaction reads as processed for the address and the row holds the amount; no other row changes |
| `UtxoWatch.Tick` | src/main.rs:35-52 | after a tick the seen set is the old set plus every listed transaction id, and the total rises by the amounts of the first output of each id not seen before |
| `UtxoWatch.FirstSeenExactlyOnce` | src/main.rs:41-51 | credited outputs carry pairwise distinct ids, none already seen; every new id is credited; each credited output is the first listed output with its id |
| `UtxoWatch.FirstSeenAppend` | src/main.rs:35-52 | processing two lists in turn credits what the first credits, then what the second credits after the first's ids |
| `UtxoWatch.SeenOutputIgnored` | src/main.rs:42 | an output whose id is already seen changes neither the set nor the total |
| `UtxoWatch.LaterOutputOfSameTransaction` | src/main.rs:42-48 | a later output of a transaction already listed, whatever its output index, adds nothing |
| `UtxoWatch.RunIsOnePass` | src/main.rs:32-55 | over many ticks the set only grows, the total never falls, and the run credits what one pass over all outputs credits |
| `UtxoWatch.RunFromStart` | src/main.rs:32-55 | from an empty set and a zero total, every transaction id ever listed is credited exactly once, with the amount of its first listed output |
| `Encryption.AsByte` | src/utils/encryption.rs:30 | `as u8` keeps values below 256 and, for every length, differs from it by a multiple of 256 (it keeps the low eight bits) |
| `Encryption.Pad` | src/utils/encryption.rs:27-32 | the padded length is a multiple of the block size, greater than the input's and at most one block more; the input is a prefix; every added byte is the pad length, cut to a byte |
| `Encryption.Unpad` | src/utils/encryption.rs:34-47 | panics (None) exactly when the last byte is 0; removes L bytes when the last byte L is at most the length and the L-1 bytes before it equal L; otherwise returns the input unchanged, the empty input included |
| `Encryption.UnpadPad` | src/utils/encryption.rs:27-47 | unpadding a padded input gives the input back, for block sizes 1 to 255 |
| `Encryption.UnpadPadAes` | src/utils/encryption.rs:27-47 | at the AES block size of 16 the padded length is a multiple of 16 and the round trip holds |
| `Encryption.EncryptString` | src/utils/encryption.rs:138-143 | the string's encryption and the AES256 tag |
| `Encryption.EncryptMany` | src/utils/encryption.rs:145-152 | one encrypted string per input, in order, and the AES256 tag |
| `Encryption.EncryptManyVec` | src/utils/encryption.rs:154-162 | one encrypted string per input, in order, and the AES256 tag |
| `Encryption.EncryptManyAgree` | src/utils/encryption.rs:138-162 | the array and vector forms agree, and each element is that string's `encrypt_string` |
| `PaymentStatus.Status` | src/endpoints/status.rs:21-38 | Ok with the payment exactly when it exists and the caller owns it; Not found exactly when it is missing or owned by someone else; an internal error exactly when the lookup fails |
| `PaymentStatus.OkIsOwned` | src/endpoints/status.rs:26-29 | an Ok response never carries another account's payment |
| `PaymentStatus.ForeignLooksMissing` | src/endpoints/status.rs:26-32 | someone else's payment and a missing payment give the identical response |
| `LogTypes.AsStr` | src/db/log.rs:19-27 | the name is "payment_requested", "payment_received_unconfirmed" or "payment_received_confirmed" exactly for the matching variant |
| `LogTypes.FromStr` | src/db/log.rs:8-17 | parsing an accepted name gives the variant with that name |
| `LogTypes.AsString` | src/db/log.rs:29-34 | the owned string is the same text as the borrowed one |
| `LogTypes.AsStrInjective` | src/db/log.rs:21-25 | the three variants have three distinct names |
| `LogTypes.FromAsStr` | src/db/log.rs:10-25 | every variant's name is accepted and parses back to it |
| `LogTypes.LogTypeNamesAreNames` | src/db/log.rs:10-14 | the accepted strings are exactly the variants' names |
| `EncryptionMethods.Discriminant` | src/db/encryption_methods.rs:3 | AES256 is stored as 1 |
| `EncryptionMethods.FromI16` | src/db/encryption_methods.rs:6-12 | the only accepted tag, 1, decodes to the method whose tag it is |
| `EncryptionMethods.FromDiscriminant` | src/db/encryption_methods.rs:3-10 | decoding a method's tag gives the method back |
| `BitcoinChain.DefaultRpcPort` | src/bitcoin/chain.rs:9-14 | Mainnet uses port 8332 and Testnet port 18332 |
| `BitcoinChain.NetworkOf` | src/bitcoin/chain.rs:16-21 | Mainnet is the Bitcoin network and Testnet the Testnet network |
| `BitcoinChain.DefaultRpcPortInjective` | src/bitcoin/chain.rs:9-14 | distinct chains have distinct ports |
| `BitcoinChain.NetworkOfInjective` | src/bitcoin/chain.rs:16-21 | distinct chains have distinct networks |

## Left out

- Bitcoin RPC (`Client::new`, `get_new_address`, `list_unspent`, the sleep, the `println!` output in `src/main.rs`): network I/O and console output. Each tick's `list_unspent` result is an input, and a failing call (the `unwrap` panic) is not modelled.
- Postgres plumbing (`PgPool::connect`, `DATABASE_URL`, the `fetch_*` calls, the `debug!`/`error!` tracing): the SQL statements are modelled as in-memory tables, and statement failure as an input flag.
- `add_log` and `get_session`: the first depends on AES encryption and I/O; the second is a bare single-row lookup of an unmodelled `sessions` table. `create_payment_inscription` writes a table nothing else here reads.
- AES-256 ECB, hex encoding and the key from `DATABASE_KEY` (`encrypt`, `decrypt`, `encrypt_as_string`, `decrypt_as_string`, `decrypt_string`, `decrypt_many`): foreign libraries. `encrypt_as_string` is a function parameter, and no property of decryption is claimed.
- `src/utils/get_wallets_collections.rs`: HTTP client, JSON decoding and concurrent requests. Its outcome is a function parameter of the pricing model, and the same holds for `get_addresses` and `get_loyalty_discounts_for_collections`, whose code is not shown.
- The endpoints over repository methods whose code is not shown (`src/endpoints/new.rs`, `delete.rs`, `get_private_key.rs`, `domains.rs`).
- IEEE `f64` behaviour: prices and received amounts are exact reals and watcher totals exact satoshis, so `f64` rounding error in `get_price`, in `received + $1` and in `to_btc` is not modelled.
- Concurrency between the request handlers and the watcher: every model operation is atomic, so the two statements of `add_payment_received` are a single step apart from the injected failure between them.
- `PaymentLedger.SqlxPostgresqlRepository.GetPaymentByAddress`: when several rows share an address the model returns one of them without saying which; the database's row order is not modelled.
- `PaymentLedger.SqlxPostgresqlRepository.GetToBeInitiatedAddresses`: the order of the returned addresses is not fixed, since SQL returns rows in no defined order.

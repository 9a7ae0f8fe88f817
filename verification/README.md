# Accent marketplace backend: escrow, ledger, deposits and Telegram authentication in Dafny

This project models the core of the Accent backend, a marketplace where sellers list
Telegram channels for TON and buyers pay through an escrow. The model covers four parts:

- **Orders and ledger** (`api/orders.py`). An order moves `active → escrow → completed`
  or `active → cancelled`. Every movement of money is an appended ledger entry: a `hold`
  of −price, a `refund` of +price, a `release` of +price. A balance is never stored; it
  is the sum of the user's entries. Each handler is cut into its storage round trips,
  and each round trip is one atomic step over an immutable `State` (`Store`, `Orders`).
  Concurrent handlers are interleavings of those steps: a schedule of ticks
  (`Races.Execute`). An invariant over every reachable system (`Races.Inv`) yields the
  promises the escrow makes under concurrency. Concrete schedules (`Scenarios`) show
  where the handlers as written break three of them.
- **Deposit webhook** (`api/payments.py`). It validates in a fixed order: shared secret,
  payload shape, recipient, then the `deposit_<telegram id>` comment. It deduplicates by
  transaction hash and rejects unknown users. On success it writes one deposit record and
  one ledger credit (`Payments`).
- **Authentication** (`auth.py`). `validate_telegram_init_data` parses the query string
  strictly, pops `hash`, builds the data-check string (the remaining pairs sorted by key,
  rendered `k=v` and joined by newlines) and compares its signature with the received
  hash. `get_current_user` checks the `Bearer ` header and finds or creates the user
  (`Auth`, `QueryDict`).
- **Channel registration checks** (`api/channels.py`). `validate_telegram_data` parses
  `&`/`=` itself, enforces a 24-hour `auth_date` window and checks the hash. The
  handler's input checks run before and after that validation, the `@` check included
  (`Channels`).

Python semantics the code relies on are written out in Dafny:
- `int(str)` (`IntParse`);
- `str.startswith`, `str.replace(p, "")`, `split`, `join` and code-point string order
  (`Text`);
- `dict` over query pairs, where a later duplicate key wins (`QueryDict`);
- JSON values (`JsonValue`).

Amounts are exact (`real`). Time, the bot token and the environment are parameters.
Five things the code calls but does not define are function parameters:
- the signature (`sign(token, message)`, standing for HMAC-SHA-256 under the file's own
  key derivation);
- URL-decoding (`decode`, `unquote`);
- `json.loads` of the user claim (`parseUser`);
- `eval` of the user claim (`evalUser`);
- Python's `Decimal` parse of a string amount (`parseDecimal`).

`Orders.Variant` selects the handlers as written (`AsWritten`) or with the three races
closed (`Corrected`). The findings below say what differs.

Four behaviours of the code that a reader might expect otherwise:
- creating a listing checks for an active one and then inserts in a separate round trip;
  the two are not one atomic step;
- a lost purchase race and a duplicate listing are both refused with status 400;
- the webhook compares the secret with `!=`, not in constant time;
- `auth.py` does not check `auth_date` at all; only `api/channels.py` does.

## Model

| member | source | states |
|---|---|---|
| Ledger.BalanceAppend | api/orders.py:84-90 | appending an entry moves its owner's derived balance by exactly its amount and leaves every other user's balance unchanged |
| Ledger.BalanceNoEntries | api/orders.py:90 | a user with no ledger entries has balance 0 |
| Ledger.BalanceConcat | api/orders.py:90 | the balance over two stretches of ledger is the sum of the balances over each, so the balance is a plain sum over the user's entries |
| Orders.CreateServed | api/orders.py:15-53 | a channel name under 3 characters or a price ≤ 0 is refused with 422 and changes nothing; a channel that already has an active order is refused with 400 "Channel already listed" and changes nothing; otherwise exactly one order is added, under a fresh id, active, owned by the caller, with the ledger, users and deposits untouched |
| Orders.CreateKeepsListingsUnique | api/orders.py:31-48 | served on its own, creating an order keeps at most one active order per channel |
| Orders.BuyRejected | api/orders.py:68-95 | a missing order (404), an order that is not active (400), the caller's own order (400) and a balance below the price (400 "Insufficient balance") are each refused, in that order, with every table unchanged |
| Orders.BuySucceeds | api/orders.py:97-130 | a purchase that passes its checks appends exactly one hold of −price tagged with the order and moves the order to escrow, with the caller as buyer and a deadline of now + 90 minutes; the buyer's balance drops by exactly the price and nothing else changes |
| Orders.BuyLosesRace | api/orders.py:108-128 | once the order is no longer active, the guarded update misses, and the handler appends a refund of exactly the price it held, leaves the orders untouched and answers 400 "Order already taken" |
| Orders.HoldRefundCancel | api/orders.py:97-128 | a hold and its compensating refund cancel out whatever entries fall around and between them: every balance is as if neither had been written |
| Orders.ConfirmServed | api/orders.py:143-185 | status is checked before ownership (404, then 400 "Order not in escrow", then 403); a confirmed order becomes completed and the seller receives exactly one release of the price; users, deposits and the next order id are unchanged |
| Orders.ConfirmCompletionMissed | api/orders.py:172-183 | as written, a completion that loses its race answers 500 and leaves every table as it was, so the release already appended stays |
| Orders.CancelServed | api/orders.py:198-225 | ownership is checked before status (404, then 403, then 400); only an active order is cancelled, and cancelling writes no ledger entry and leaves users, deposits and the next order id unchanged |
| Races.ExecutePreserves | api/orders.py:60-225 | every interleaving of create, buy, confirm and cancel round trips keeps the escrow invariant: holds are accounted for and winners are unique; in the corrected variant, also releases match completions, no balance is negative and each channel has at most one active listing |
| Races.LaunchInv | api/orders.py:60-225 | any batch of requests not yet begun, against a store of active, uniquely listed orders and a ledger of untagged credits, satisfies the invariant |
| Races.NoDoubleSale | api/orders.py:108-130 | under every schedule, at most one buyer of an order is told the purchase succeeded, and only once the order has left `active` |
| Races.HoldsAccounted | api/orders.py:97-128 | under every schedule, the number of holds on an order equals the number of its refunds, plus the buyers still in flight, plus one if the order is in escrow or completed |
| Races.AtMostOneRelease | api/orders.py:161-183 | corrected confirm: under every schedule, an order's seller is paid at most once, only for a completed order, and exactly once when the order is completed and no confirm is still paying |
| Races.NoOverdraft | api/orders.py:84-103 | corrected buy: under every schedule, no balance goes below zero |
| Races.ListingsStayUnique | api/orders.py:31-48 | corrected create: under every schedule, no channel has two active orders |
| Scenarios.LostRace | api/orders.py:97-128 | two buyers, each with 15, race for one order at 10: the first claim wins and gets escrow, the second gets 400 "Order already taken", and the balances end at 5 and 15, whatever the clock reads |
| Scenarios.TwoConfirmsReleaseTwice | api/orders.py:161-183 | as written, two interleaved confirms of one escrowed order both append a release: the order completes once, the second call answers 500, and the seller is paid twice the price |
| Scenarios.TwoConfirmsReleaseOnce | api/orders.py:161-183 | under the same schedule, the corrected confirm pays the seller once and refuses the second call with 400 |
| Scenarios.TwoBuysOverdraw | api/orders.py:84-103 | as written, one buyer with 10 buys two orders at 10 at once: both balance checks read 10, both purchases succeed, and the balance ends at −10 |
| Scenarios.TwoBuysRefused | api/orders.py:84-103 | under the same schedule, the corrected buy refuses the second purchase with "Insufficient balance" and the balance ends at 0 |
| Scenarios.TwoListingsOfOneChannel | api/orders.py:31-48 | as written, two interleaved creates for one channel both succeed, leaving two active orders on it |
| Scenarios.SecondListingRefused | api/orders.py:31-48 | under the same schedule, the corrected create refuses the second listing with 400 and one active order remains |
| Payments.ParsePayload | api/payments.py:23-36 | the payload is read exactly when `transaction`, `hash`, `in_msg`, `value` and `destination` are all present and `value` converts to a decimal; a missing `message` is the empty string, and the amount times 10^9 is the value received |
| Payments.DecimalOf | api/payments.py:33 | a JSON number converts to itself; a list converts exactly when it is a finite `[sign, digits, exponent]` triple; null and objects do not convert |
| Payments.TripleRoundTrip | api/payments.py:33 | `Decimal([sign, digits of n, e])` is ±n × 10^e, for every n and every integer exponent |
| Payments.ParseNotification | api/payments.py:23-33 | a TonAPI notification of `nanoton` comes back with its own hash, destination and comment, and `nanoton / 10^9` TON |
| Payments.Validate | api/payments.py:15-49 | a mismatched secret is refused with 403 before anything else; a missing body is 500; then, in order, a malformed payload is 400 "Invalid payload structure", another recipient is 400 "Wrong recipient", a non-string comment is 500, a comment without `deposit_` is 400 "Invalid deposit comment", and a remainder that is not an integer is 400 "Invalid telegram id in comment"; a request passes exactly when every check holds, with the notice those checks describe |
| Payments.Ingest | api/payments.py:53-93 | a known transaction hash answers `already_processed` with no write; an unknown user gets 404 with no write; otherwise exactly one deposit record and then one `deposit` ledger credit for that user's internal id are appended; users and orders never change |
| Payments.Webhook | api/payments.py:12-93 | a request that fails validation reaches no storage, and no path creates a user |
| Payments.SecretGate | api/payments.py:16-18 | with a non-empty secret configured, a request without the matching header gets 403 whatever its body, and nothing is written |
| Payments.NoSecretNoGate | api/payments.py:16-18 | with no secret configured, the header plays no part in the outcome |
| Payments.CreditMovesOneBalance | api/payments.py:86-93 | a credit raises the payer's balance by exactly the amount and leaves every other balance unchanged |
| Payments.ReplayIsHarmless | api/payments.py:53-63 | delivering a successfully handled notification again changes nothing and answers `already_processed` |
| Payments.HashesStayDistinct | api/payments.py:53-84 | the webhook never records two deposits with one transaction hash, so no transaction is credited twice |
| Payments.CommentRoundTrip | api/payments.py:42-49 | the comment `deposit_<id>` passes the prefix check and yields `id` back |
| Payments.NotificationRoundTrip | api/payments.py:20-49 | a notification to the configured wallet commented `deposit_<id>` validates to exactly that id and `nanoton / 10^9` TON |
| IntParse.ParseShowInt | api/payments.py:47 | `int(str(n)) == n` for every integer |
| Text.SplitJoin | api/channels.py:20 | splitting on `&` a joining of parts free of `&` gives back the parts |
| Text.JoinSplit | api/channels.py:20 | joining the pieces of a split with the same separator gives back the string |
| Text.SplitFirstAt | api/channels.py:22 | `split("=", 1)` of `a=b`, where `a` has no `=`, is `(a, b)`, so `b` may hold further `=` |
| Text.LessTotal | auth.py:24 | code-point string order, which `sorted` uses, is total, so the data-check order is determined |
| Text.LessTransitive | auth.py:24 | code-point string order is transitive |
| QueryDict.FromPairs | auth.py:17 | the dict built from a list of pairs has distinct keys, and each key maps to its last value in the list |
| QueryDict.Put | api/channels.py:23 | storing a key sets it and leaves every other key as it was |
| QueryDict.Remove | auth.py:19 | popping a key removes exactly that key |
| QueryDict.SortByKey | auth.py:24 | `sorted(items)` is sorted by key and a permutation of the items |
| QueryDict.LinesMembership | auth.py:23-25 | a pair is a line of the data-check string exactly when its key is not `hash` and the dict maps the key to that value |
| QueryDict.DataCheckStringDeterminedByContents | auth.py:23-25 | two dicts that agree on every key but `hash` have the same data-check string |
| Auth.ParseFields | auth.py:17 | strict parsing succeeds exactly when every `&`-separated field holds `=`, and fails otherwise |
| Auth.ParseInitData | auth.py:17 | the parsed dict has distinct keys, and each maps to the last value the query gave it |
| Auth.CheckSignature | auth.py:27-38 | the data is accepted exactly when a token is set, the received hash is ASCII and the signature of the data-check string equals it; a mismatch of ASCII strings is 401 "Invalid Telegram signature" |
| Auth.ValidateInitData | auth.py:13-38 | empty init data is 401 "Missing initData"; unparsable data is 500; parsed data with no `hash` or an empty one is 401 "Invalid initData"; accepted data never holds `hash` |
| Auth.AcceptedMeans | auth.py:17-38 | accepted data is the parsed dict without `hash`, a repeated name keeping its last value, and the bot's signature of its data-check string is the hash received |
| Auth.AcceptedIffSigned | auth.py:29-36 | once the data parses with a non-empty ASCII hash, a token is set and the computed signature is ASCII, the data is accepted exactly when the computed signature equals the received hash, and otherwise refused with 401 |
| Auth.ParseEncoded | auth.py:17 | a query string of fields that need no escaping parses back to those fields |
| Auth.SignedInitDataAccepted | auth.py:13-38 | fields a genuine client signs with the bot token are accepted, and the dict returned holds exactly those fields |
| Auth.FindOrCreate | auth.py:57-74 | an existing user is returned with no insert; otherwise exactly one user is inserted, with the claim's Telegram id, username and first name and an id no other user has; either way, the next lookup finds the returned user |
| Auth.FindOrCreateIdempotent | auth.py:57-74 | a second find-or-create with the same Telegram id returns the same user and inserts nothing |
| Auth.CurrentUser | auth.py:41-74 | a missing header is 422 and one not starting with `Bearer ` is 401; otherwise the verdict of validating the header with every `Bearer ` removed is passed on when it fails; validated data without a `user` claim, or with an empty one, is 401 "User not found"; a claim that parses yields the user find-or-create gives for it, with the claim's Telegram id; only users change, and only on success |
| Auth.SignedHeaderAccepted | auth.py:41-74 | a `Bearer ` header carrying init data a genuine client signed with the bot token, whose `user` claim parses, yields the user stored under that claim's Telegram id, created on first contact |
| Auth.BearerToken | auth.py:42-45 | `Bearer ` followed by init data without `Bearer ` passes the check and yields that init data |
| Store.FindUser | auth.py:57-60 | a lookup by Telegram id finds a stored user with that id, and finds none exactly when no stored user has it |
| Channels.ParseParams | api/channels.py:19-23 | the parameters have distinct keys, each mapped to its last value among the parts that hold `=` |
| Channels.PartWithoutEqualsIgnored | api/channels.py:20-21 | a part without `=` changes nothing |
| Channels.ParseEncodedParams | api/channels.py:19-23 | a query string the client builds parses back to the client's dict, a later duplicate key winning and a value keeping every `=` after the first |
| Channels.ValidateWebAppData | api/channels.py:11-40 | every failure starts "Validation failed: "; data is accepted exactly when any `auth_date` parses and is at most a day old, a token is set and `hash` equals the signature of the data-check string; the accepted dict is the full parsed dict, `hash` included |
| Channels.ExpiredIffOlderThanADay | api/channels.py:26-28 | data whose `auth_date` parses is refused as expired exactly when more than 86400 seconds have passed; at exactly 86400 it is not expired |
| Channels.NoAuthDateNoExpiry | api/channels.py:26-28 | without `auth_date`, the time plays no part in the verdict |
| Channels.SignedWebAppDataAccepted | api/channels.py:11-38 | fields a genuine client signs, sent fresh, are accepted, and the dict returned is the fields plus the signature under `hash` |
| Channels.Admit | api/channels.py:52-62 | a validation failure, a missing `user` and a `user` whose id does not evaluate are each 401; once the user evaluates, a non-string channel is 500, a string channel without a leading `@` is 400, and one with it is admitted for the evaluated id; an admitted request passed every one of these checks |
| Channels.Handle | api/channels.py:42-62 | a body that is not an object is 500; a missing or empty `initData` or `channel_username` is 400, before any validation; a non-string `initData` is 401; otherwise the verdict is that of the later checks |
| Channels.SignedRequestAdmitted | api/channels.py:42-62 | a genuine, fresh request naming a channel that starts with `@` is admitted for the user its signed `user` field names |

## Left out

- Storage and network: the Supabase tables are an immutable `State`, and each round trip is one atomic step. No insert or update fails for a storage reason, so "Failed to create order", "Failed to hold funds", "Failed to release funds", "Failed to create user" and the webhook's unchecked inserts always succeed. The REST calls of `api/channels.py:71-102` and their responses are not part of this model; `Channels.Handle` stops at `Admitted`, where they begin.
- Cryptography: SHA-256 and HMAC-SHA-256, with both files' key derivations, are the `sign` parameter. Constant-time comparison is plain equality.
- URL-decoding by `parse_qsl` and `urllib.parse.unquote`: these are the `decode` and `unquote` parameters.
- `json.loads` and `eval` of the `user` claim: these are the `parseUser` and `evalUser` parameters. `Decimal(str)` is `parseDecimal`.
- Clock: `datetime.utcnow()` and `time.time()` are a `now` parameter. `escrow_until` and `completed_at` are integer seconds rather than ISO strings. No sweeper acts on escrow deadlines, and none exists in the code.
- Payments.DecimalOf: a triple whose exponent is 'F', 'n' or 'N' (infinity and the NaNs) does not convert here, where Python goes on; a coefficient must be a JSON list, as the C `decimal` module reads it; exponents beyond the decimal context's limits are not refused; a JSON number is its exact value, not the binary float Python reads a fraction as, and a whole number written `1.0`, which Python reads as a float, counts as an `int` inside a triple.
- Decimal arithmetic: amounts are exact reals. The 28-digit `Decimal` context, NaN and Infinity amounts, and the `str(Decimal)` text round trip are not modelled.
- Channels.ValidateWebAppData: `time.time() - int(auth_date)` is computed exactly, not in binary floating point. A huge `auth_date` that would overflow the float conversion is not modelled.
- IntParse.ParseInt: only ASCII digits. Python also accepts other Unicode decimal digits and refuses more than 4300 digits.
- Channels.Repr: the text of Python's `repr` is modelled only for strings that need no escaping.
- Channels.TypeName: a JSON number with an integral value is named `int`; JSON text such as `1.0`, which Python reads as a float, is not told apart.
- The 422 responses FastAPI produces before a handler runs (schema or missing header) are reduced to status 422 with a fixed detail text.
- Concurrent webhook deliveries: each delivery is one atomic step. Two deliveries of one transaction that interleave between the duplicate check and the insert are not modelled.
- Concurrent first contact in `get_current_user`: a user insert that races another is not modelled.
- Duplicate validator drafts (`api/user.py`, `main.py`), `api/channel_orders.py`, the float balances of `api/user.py` and `api/users.py`, and the connectivity checks (`api/test_db.py`, `api/index.py`, `api/database.py`) are outside the core and not modelled.

## Findings

| source | as written | input that shows it | evidently intended | confidence | as-written member | corrected member |
|---|---|---|---|---|---|---|
| api/orders.py:153-183 | `confirm_order` appends the release, then completes the order under a status guard, and never undoes the release when the guard misses | the seller confirms an escrowed order twice at once; both calls read `escrow`, both append a release, and one completion lands; the seller is paid twice the price and the second call answers 500 | at most one release per order, paid only for the completion that lands | not executed | Scenarios.TwoConfirmsReleaseTwice | Races.AtMostOneRelease (with Scenarios.TwoConfirmsReleaseOnce) |
| api/orders.py:84-103 | `buy_order` reads the balance and inserts the hold in separate round trips | a buyer with 10 buys two different orders priced 10 at once; both balance checks read 10 before either hold lands; both purchases succeed and the balance ends at −10 | a purchase never drives a balance below zero | not executed | Scenarios.TwoBuysOverdraw | Races.NoOverdraft (with Scenarios.TwoBuysRefused) |
| api/orders.py:31-48 | `create_order` checks for an active order on the channel and inserts the new one in separate round trips | two sellers list `@news` at once; both checks see no active order and both inserts land | at most one active order per channel | not executed | Scenarios.TwoListingsOfOneChannel | Races.ListingsStayUnique (with Scenarios.SecondListingRefused) |

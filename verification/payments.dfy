/** The TON deposit webhook of api/payments.py: a validation pipeline over the request,
    then an idempotency gate on the transaction hash, then one deposit record and one
    ledger credit. */
module Payments {

  import opened Common
  import opened JsonValue
  import opened Ledger
  import opened Store
  import opened Text
  import opened IntParse

  /** The environment read at import: TON_WALLET and WEBHOOK_SECRET, None when unset. */
  datatype Config = Config(wallet: Option<string>, secret: Option<string>)

  /** The fields the handler takes out of a TonAPI notification. */
  datatype Payload = Payload(txHash: Json, destination: Json, comment: Json, amount: real)

  /** A notification that passed every check: whose transaction, for whom, how much. */
  datatype Notice = Notice(txHash: Json, telegramId: int, amount: real)

  /** The two success bodies. */
  datatype Outcome = AlreadyProcessed | Credited

  type Reply = Result<Outcome, HttpError>

  /** nanoTON per TON. */
  const NanoPerTon: real := 1000000000.0

  const DepositPrefix: string := "deposit_"

  /** The secret gate. Only a non-empty secret is enforced, and then the header must be
      present and equal to it. */
  predicate SecretAccepted(cfg: Config, header: Option<string>)
  {
    cfg.secret.None? || cfg.secret.value == "" || header == cfg.secret
  }

  /** A JSON value Python holds as an `int`: a bool (`bool` is a subclass of `int`) or a
      whole number. */
  predicate IsInt(j: Json)
  {
    j.JBool? || (j.JNum? && j.n.Floor as real == j.n)
  }

  function IntOf(j: Json): int
    requires IsInt(j)
  {
    if j.JBool? then (if j.b then 1 else 0) else j.n.Floor
  }

  /** Whether every item is an `int` from 0 through 9, as a Decimal coefficient must be. */
  predicate AllDigits(ds: seq<Json>)
  {
    forall i :: 0 <= i < |ds| ==> IsInt(ds[i]) && 0 <= IntOf(ds[i]) <= 9
  }

  /** The number a list of digits spells, most significant first. */
  function Coefficient(ds: seq<Json>): nat
    requires AllDigits(ds)
    decreases |ds|
  {
    if |ds| == 0 then 0 else Coefficient(ds[..|ds| - 1]) * 10 + IntOf(ds[|ds| - 1])
  }

  function Pow10(e: nat): (r: nat)
    ensures r >= 1
  {
    if e == 0 then 1 else 10 * Pow10(e - 1)
  }

  /** `c × 10^e`, for a negative exponent too. */
  function Scaled(c: nat, e: int): real
  {
    if e >= 0 then (c * Pow10(e)) as real else c as real / Pow10(-e) as real
  }

  /** Whether a list is a finite Decimal triple as the C `decimal` module reads one: three
      items, a sign of 0 or 1, a list of digits and an `int` exponent. */
  predicate FiniteTriple(items: seq<Json>)
  {
    && |items| == 3
    && IsInt(items[0]) && 0 <= IntOf(items[0]) <= 1
    && IsInt(items[2])
    && items[1].JArr? && AllDigits(items[1].items)
  }

  /** `Decimal([sign, digits, exponent])`. A triple whose exponent is 'F', 'n' or 'N'
      (infinity and the NaNs) has no value here, and neither has any malformed list. */
  function TripleDecimal(items: seq<Json>): (r: Option<real>)
    ensures r.Some? <==> FiniteTriple(items)
  {
    if !FiniteTriple(items) then None
    else
      var magnitude := Scaled(Coefficient(items[1].items), IntOf(items[2]));
      Some(if IntOf(items[0]) == 1 then -magnitude else magnitude)
  }

  /** `Decimal(value)` for the JSON value of `in_msg.value`, None where Python raises.
      Strings go through `parseDecimal`, Python's decimal literal syntax; a list is read
      as a `[sign, digits, exponent]` triple. */
  function DecimalOf(j: Json, parseDecimal: string -> Option<real>): (r: Option<real>)
    ensures j.JNum? ==> r == Some(j.n)
    ensures j.JArr? ==> (r.Some? <==> FiniteTriple(j.items))
    ensures (j.JNull? || j.JObj?) ==> r.None?
  {
    match j
    case JNum(n) => Some(n)
    case JBool(b) => Some(if b then 1.0 else 0.0)
    case JStr(s) => parseDecimal(s)
    case JArr(items) => TripleDecimal(items)
    case _ => None
  }

  /** The digits of `n`, most significant first, with no leading zero. */
  function DigitsOf(n: nat): (r: seq<Json>)
    ensures AllDigits(r) && Coefficient(r) == n
    decreases n
  {
    if n == 0 then []
    else
      var init := DigitsOf(n / 10);
      var r := init + [JNum((n % 10) as real)];
      assert r[..|r| - 1] == init;
      r
  }

  /** Writing any value as a triple and reading it back gives `±n × 10^e`. */
  lemma TripleRoundTrip(negative: bool, n: nat, e: int, parseDecimal: string -> Option<real>)
    ensures var sign := JNum(if negative then 1.0 else 0.0);
      DecimalOf(JArr([sign, JArr(DigitsOf(n)), JNum(e as real)]), parseDecimal)
        == Some(if negative then -Scaled(n, e) else Scaled(n, e))
  {
    var items := [JNum(if negative then 1.0 else 0.0), JArr(DigitsOf(n)), JNum(e as real)];
    assert IntOf(items[2]) == e;
    assert FiniteTriple(items);
  }

  /** A notification with every field the handler looks up, and an amount Decimal accepts. */
  predicate Shaped(data: Json, parseDecimal: string -> Option<real>)
  {
    && data.JObj? && "transaction" in data.fields
    && var tx := data.fields["transaction"];
    && tx.JObj? && "hash" in tx.fields && "in_msg" in tx.fields
    && var inMsg := tx.fields["in_msg"];
    && inMsg.JObj? && "value" in inMsg.fields && "destination" in inMsg.fields
    && DecimalOf(inMsg.fields["value"], parseDecimal).Some?
  }

  /** The `try` block: every field lookup and the conversion of the amount. Any failure in
      it is the same 400, so one None covers them all. A missing `message` is the empty
      string. */
  function ParsePayload(data: Json, parseDecimal: string -> Option<real>): (r: Option<Payload>)
    ensures r.Some? <==> Shaped(data, parseDecimal)
    ensures r.Some? ==>
      var tx := data.fields["transaction"];
      var inMsg := tx.fields["in_msg"];
      && r.value.txHash == tx.fields["hash"]
      && r.value.destination == inMsg.fields["destination"]
      && r.value.comment == (if "message" in inMsg.fields then inMsg.fields["message"] else JStr(""))
      && DecimalOf(inMsg.fields["value"], parseDecimal) == Some(r.value.amount * NanoPerTon)
  {
    var tx := Field(data, "transaction");
    if tx.None? then None
    else
      var hash := Field(tx.value, "hash");
      var inMsg := Field(tx.value, "in_msg");
      if hash.None? || inMsg.None? then None
      else
        var value := Field(inMsg.value, "value");
        var destination := Field(inMsg.value, "destination");
        if value.None? || destination.None? then None
        else
          var comment := if "message" in inMsg.value.fields then inMsg.value.fields["message"] else JStr("");
          var amount := DecimalOf(value.value, parseDecimal);
          if amount.None? then None
          else Some(Payload(hash.value, destination.value, comment, amount.value / NanoPerTon))
  }

  /** `destination != TON_WALLET` compares a JSON value with a string or None. */
  predicate SameRecipient(destination: Json, wallet: Option<string>)
  {
    match wallet
    case None => destination == JNull
    case Some(w) => destination == JStr(w)
  }

  /** Whether the request passes every check before storage and carries notice `n`: the
      secret, a readable payload, the configured recipient, and a `deposit_` comment whose
      rest is `n`'s Telegram id. */
  predicate Passes(cfg: Config, header: Option<string>, body: Option<Json>, parseDecimal: string -> Option<real>, n: Notice)
  {
    && SecretAccepted(cfg, header) && body.Some?
    && var p := ParsePayload(body.value, parseDecimal);
    && p.Some? && SameRecipient(p.value.destination, cfg.wallet)
    && p.value.comment.JStr? && StartsWith(p.value.comment.s, DepositPrefix)
    && ParseInt(RemoveAll(p.value.comment.s, DepositPrefix)) == Some(n.telegramId)
    && n.txHash == p.value.txHash && n.amount == p.value.amount
  }

  /** Every check the handler makes before it touches storage, in the handler's order.
      `body` is None when the request body is not JSON, which the handler does not catch. */
  function Validate(cfg: Config, header: Option<string>, body: Option<Json>, parseDecimal: string -> Option<real>): (r: Result<Notice, HttpError>)
    ensures !SecretAccepted(cfg, header) ==> r == Fail(403, "Invalid webhook signature")
    ensures SecretAccepted(cfg, header) && body.None? ==> r == Fail(500, "Internal Server Error")
    ensures SecretAccepted(cfg, header) && body.Some? ==>
      var p := ParsePayload(body.value, parseDecimal);
      && (p.None? ==> r == Fail(400, "Invalid payload structure"))
      && (p.Some? && !SameRecipient(p.value.destination, cfg.wallet) ==> r == Fail(400, "Wrong recipient"))
      && (p.Some? && SameRecipient(p.value.destination, cfg.wallet) ==>
            && (!p.value.comment.JStr? ==> r == Fail(500, "Internal Server Error"))
            && (p.value.comment.JStr? && !StartsWith(p.value.comment.s, DepositPrefix) ==>
                  r == Fail(400, "Invalid deposit comment"))
            && (p.value.comment.JStr? && StartsWith(p.value.comment.s, DepositPrefix)
                && ParseInt(RemoveAll(p.value.comment.s, DepositPrefix)).None? ==>
                  r == Fail(400, "Invalid telegram id in comment")))
    ensures r.Ok? ==> Passes(cfg, header, body, parseDecimal, r.value)
    ensures forall n :: Passes(cfg, header, body, parseDecimal, n) ==> r == Ok(n)
  {
    if !SecretAccepted(cfg, header) then Fail(403, "Invalid webhook signature")
    else if body.None? then Fail(500, "Internal Server Error")
    else
      var p := ParsePayload(body.value, parseDecimal);
      if p.None? then Fail(400, "Invalid payload structure")
      else if !SameRecipient(p.value.destination, cfg.wallet) then Fail(400, "Wrong recipient")
      else if !p.value.comment.JStr? then Fail(500, "Internal Server Error")
      else if !StartsWith(p.value.comment.s, DepositPrefix) then Fail(400, "Invalid deposit comment")
      else
        var id := ParseInt(RemoveAll(p.value.comment.s, DepositPrefix));
        if id.None? then Fail(400, "Invalid telegram id in comment")
        else Ok(Notice(p.value.txHash, id.value, p.value.amount))
  }

  /** Whether a deposit with this transaction hash is already recorded. */
  predicate Seen(deposits: seq<DepositRecord>, txHash: Json)
  {
    exists i :: 0 <= i < |deposits| && deposits[i].txHash == txHash
  }

  /** The storage part: the duplicate check, the user lookup, then the two inserts. */
  function Ingest(s: State, n: Notice): (r: (State, Reply))
    ensures r.0.users == s.users && r.0.orders == s.orders && r.0.nextOrderId == s.nextOrderId
    ensures Seen(s.deposits, n.txHash) ==> r == (s, Ok(AlreadyProcessed))
    ensures !Seen(s.deposits, n.txHash) && FindUser(s.users, n.telegramId).None? ==> r == (s, Fail(404, "User not found"))
    ensures r.1 == Ok(Credited) <==> !Seen(s.deposits, n.txHash) && FindUser(s.users, n.telegramId).Some?
    ensures r.1 == Ok(Credited) ==>
      && r.0.deposits == s.deposits + [DepositRecord(n.txHash, n.telegramId, n.amount)]
      && r.0.ledger == s.ledger + [Entry(FindUser(s.users, n.telegramId).value.id, None, n.amount, Deposit)]
    ensures r.1 != Ok(Credited) ==> r.0 == s
  {
    if Seen(s.deposits, n.txHash) then (s, Ok(AlreadyProcessed))
    else
      var user := FindUser(s.users, n.telegramId);
      if user.None? then (s, Fail(404, "User not found"))
      else
        var recorded := s.(deposits := s.deposits + [DepositRecord(n.txHash, n.telegramId, n.amount)]);
        (AppendEntry(recorded, Entry(user.value.id, None, n.amount, Deposit)), Ok(Credited))
  }

  /** `ton_webhook`: validation, then storage. A request that fails validation never
      reaches storage, and no path creates a user. */
  function Webhook(cfg: Config, header: Option<string>, body: Option<Json>, parseDecimal: string -> Option<real>, s: State): (r: (State, Reply))
    ensures Validate(cfg, header, body, parseDecimal).Err? ==> r == (s, Err(Validate(cfg, header, body, parseDecimal).error))
    ensures r.0.users == s.users
  {
    var checked := Validate(cfg, header, body, parseDecimal);
    if checked.Err? then (s, Err(checked.error)) else Ingest(s, checked.value)
  }

  // ---------------------------------------------------------------------------------
  // Properties

  /** With a secret configured, a request without the matching header is refused with 403
      whatever its body, and nothing is written. */
  lemma SecretGate(cfg: Config, header: Option<string>, body: Option<Json>, parseDecimal: string -> Option<real>, s: State)
    requires cfg.secret.Some? && cfg.secret.value != "" && header != cfg.secret
    ensures Webhook(cfg, header, body, parseDecimal, s) == (s, Fail(403, "Invalid webhook signature"))
  {
  }

  /** With no secret configured, the header plays no part. */
  lemma NoSecretNoGate(cfg: Config, h1: Option<string>, h2: Option<string>, body: Option<Json>, parseDecimal: string -> Option<real>, s: State)
    requires cfg.secret.None? || cfg.secret.value == ""
    ensures Webhook(cfg, h1, body, parseDecimal, s) == Webhook(cfg, h2, body, parseDecimal, s)
  {
  }

  /** A credit raises the payer's balance by exactly the amount and leaves every other
      balance alone. */
  lemma CreditMovesOneBalance(s: State, n: Notice, u: UserId)
    requires Ingest(s, n).1 == Ok(Credited)
    ensures var payer := FindUser(s.users, n.telegramId).value.id;
      Balance(Ingest(s, n).0.ledger, u) == Balance(s.ledger, u) + (if u == payer then n.amount else 0.0)
  {
    var payer := FindUser(s.users, n.telegramId).value.id;
    BalanceAppend(s.ledger, Entry(payer, None, n.amount, Deposit), u);
  }

  /** Delivering the same notification again, after it was credited or found a duplicate,
      changes nothing and answers `already_processed`. */
  lemma ReplayIsHarmless(cfg: Config, header: Option<string>, body: Option<Json>, parseDecimal: string -> Option<real>, s: State)
    requires Webhook(cfg, header, body, parseDecimal, s).1.Ok?
    ensures var s1 := Webhook(cfg, header, body, parseDecimal, s).0;
      Webhook(cfg, header, body, parseDecimal, s1) == (s1, Ok(AlreadyProcessed))
  {
    var n := Validate(cfg, header, body, parseDecimal).value;
    var r := Ingest(s, n);
    if r.1 == Ok(Credited) {
      var d := r.0.deposits;
      assert d[|d| - 1].txHash == n.txHash;
    }
  }

  /** No two deposit records share a transaction hash. */
  predicate DistinctHashes(deposits: seq<DepositRecord>)
  {
    forall i, j :: 0 <= i < j < |deposits| ==> deposits[i].txHash != deposits[j].txHash
  }

  /** The webhook keeps deposit hashes distinct, so one transaction is credited at most once. */
  lemma HashesStayDistinct(cfg: Config, header: Option<string>, body: Option<Json>, parseDecimal: string -> Option<real>, s: State)
    requires DistinctHashes(s.deposits)
    ensures DistinctHashes(Webhook(cfg, header, body, parseDecimal, s).0.deposits)
  {
  }

  /** The TonAPI notification for an incoming transfer, as a JSON document. */
  function Notification(txHash: Json, destination: string, comment: string, nanoton: int): Json
  {
    JObj(map["transaction" := JObj(map[
      "hash" := txHash,
      "in_msg" := JObj(map["value" := JNum(nanoton as real), "destination" := JStr(destination), "message" := JStr(comment)])])])
  }

  /** The comment printed for a Telegram id never contains the prefix. */
  lemma ShownIdHasNoPrefix(n: int)
    ensures !Contains(ShowInt(n), DepositPrefix)
  {
    var s := ShowInt(n);
    assert forall i :: 0 <= i < |s| ==> s[i] == '-' || IsDigit(s[i]) by {
      if n < 0 {
        assert forall i :: 1 <= i < |s| ==> s[i] == ShowNat(-n)[i - 1];
      }
    }
    NotContainsWithoutHead(s, DepositPrefix);
  }

  /** The notification's fields come back out of it unchanged, the amount in TON. */
  lemma ParseNotification(txHash: Json, destination: string, comment: string, nanoton: int, parseDecimal: string -> Option<real>)
    ensures ParsePayload(Notification(txHash, destination, comment, nanoton), parseDecimal)
         == Some(Payload(txHash, JStr(destination), JStr(comment), nanoton as real / NanoPerTon))
  {
  }

  /** The comment `deposit_<id>` passes the prefix check and yields the id back. */
  lemma CommentRoundTrip(telegramId: int)
    ensures StartsWith(DepositPrefix + ShowInt(telegramId), DepositPrefix)
    ensures ParseInt(RemoveAll(DepositPrefix + ShowInt(telegramId), DepositPrefix)) == Some(telegramId)
  {
    var comment := DepositPrefix + ShowInt(telegramId);
    assert comment[..|DepositPrefix|] == DepositPrefix;
    RemoveAllLeading(DepositPrefix, ShowInt(telegramId));
    ShownIdHasNoPrefix(telegramId);
    RemoveAllAbsent(ShowInt(telegramId), DepositPrefix);
    ParseShowInt(telegramId);
  }

  /** The round trip: a notification of `nanoton` to the configured wallet, commented
      `deposit_<id>`, validates to exactly that id and `nanoton / 10^9` TON. */
  lemma NotificationRoundTrip(cfg: Config, header: Option<string>, txHash: Json, telegramId: int, nanoton: int, parseDecimal: string -> Option<real>)
    requires SecretAccepted(cfg, header) && cfg.wallet.Some?
    ensures var body := Notification(txHash, cfg.wallet.value, DepositPrefix + ShowInt(telegramId), nanoton);
      Validate(cfg, header, Some(body), parseDecimal) == Ok(Notice(txHash, telegramId, nanoton as real / NanoPerTon))
  {
    ParseNotification(txHash, cfg.wallet.value, DepositPrefix + ShowInt(telegramId), nanoton, parseDecimal);
    CommentRoundTrip(telegramId);
  }
}

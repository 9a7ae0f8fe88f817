/** Request authentication of auth.py: the Telegram init-data check (parse, drop `hash`,
    sign the data-check string, compare) and `get_current_user`, which reads the bearer
    header, checks it, and finds or creates the user. The signing key is derived from the
    bot token and the signature computed by `sign(token, message)`, standing for
    HMAC-SHA-256 keyed with SHA-256 of the token, as hex. */
module Auth {

  import opened Common
  import opened Text
  import opened QueryDict
  import opened Ledger
  import opened Store

  /** The failure Python reports when an exception escapes a FastAPI handler. */
  function Crash<T>(): Result<T, HttpError>
  {
    Fail(500, "Internal Server Error")
  }

  /** `parse_qsl(qs, strict_parsing=True)`: the fields between `&`. A field without `=`,
      the empty field included, raises ValueError (None here); a field whose value is empty
      is dropped; name and value pass through `decode` (`+` to space, then %-escapes). */
  function ParseQslStrict(qs: string, decode: string -> string): (r: Option<seq<Pair>>)
    ensures |qs| == 0 ==> r == Some([])
  {
    if |qs| == 0 then Some([]) else ParseFields(Split(qs, '&'), decode)
  }

  function ParseFields(parts: seq<string>, decode: string -> string): (r: Option<seq<Pair>>)
    ensures r.Some? <==> forall i :: 0 <= i < |parts| ==> '=' in parts[i]
    decreases |parts|
  {
    if |parts| == 0 then Some([])
    else if '=' !in parts[0] then None
    else
      var kv := SplitFirst(parts[0], '=');
      var rest := ParseFields(parts[1..], decode);
      if rest.None? then None
      else if |kv.1| == 0 then rest
      else Some([(decode(kv.0), decode(kv.1))] + rest.value)
  }

  /** Whether every character is ASCII; `hmac.compare_digest` raises TypeError on any other `str`. */
  predicate IsAscii(s: string)
  {
    forall i :: 0 <= i < |s| ==> s[i] < 128 as char
  }

  /** `dict(parse_qsl(...))`: a later duplicate name overwrites an earlier one. */
  function ParseInitData(initData: string, decode: string -> string): (r: Option<seq<Pair>>)
    ensures r.Some? <==> ParseQslStrict(initData, decode).Some?
    ensures r.Some? ==> DistinctKeys(r.value)
    ensures r.Some? ==> forall k :: Get(r.value, k) == LastValue(ParseQslStrict(initData, decode).value, k)
  {
    var pairs := ParseQslStrict(initData, decode);
    if pairs.None? then None else Some(FromPairs(pairs.value))
  }

  /** The end of the check: derive the key from the token, sign the data-check string of
      what remains once `hash` is popped, and compare with `hmac.compare_digest`. */
  function CheckSignature(rest: seq<Pair>, received: string, token: Option<string>,
                          sign: (string, string) -> string): (r: Result<seq<Pair>, HttpError>)
    requires DistinctKeys(rest)
    ensures r.Ok? <==> token.Some? && IsAscii(received) && sign(token.value, DataCheckString(rest)) == received
    ensures r.Ok? ==> r.value == rest
    ensures token.Some? && IsAscii(received) && IsAscii(sign(token.value, DataCheckString(rest))) && r.Err? ==>
      r == Fail(401, "Invalid Telegram signature")
  {
    if token.None? then Crash()
    else
      var computed := sign(token.value, DataCheckString(rest));
      if !IsAscii(computed) || !IsAscii(received) then Crash()
      else if computed != received then Fail(401, "Invalid Telegram signature")
      else Ok(rest)
  }

  /** `validate_telegram_init_data`. `token` is BOT_TOKEN, None when unset. On success the
      parsed data is returned without its `hash`. */
  function ValidateInitData(initData: string, token: Option<string>, sign: (string, string) -> string,
                            decode: string -> string): (r: Result<seq<Pair>, HttpError>)
    ensures |initData| == 0 ==> r == Fail(401, "Missing initData")
    ensures |initData| > 0 && ParseQslStrict(initData, decode).None? ==> r == Crash()
    ensures |initData| > 0 && ParseInitData(initData, decode).Some? ==>
      var received := Get(ParseInitData(initData, decode).value, "hash");
      (received.None? || |received.value| == 0) ==> r == Fail(401, "Invalid initData")
    ensures r.Ok? ==> DistinctKeys(r.value) && "hash" !in KeySet(r.value)
  {
    if |initData| == 0 then Fail(401, "Missing initData")
    else
      var parsed := ParseInitData(initData, decode);
      if parsed.None? then Crash()
      else
        var received := Get(parsed.value, "hash");
        if received.None? || |received.value| == 0 then Fail(401, "Invalid initData")
        else CheckSignature(Remove(parsed.value, "hash"), received.value, token, sign)
  }

  /** What acceptance means: the data parsed, the dict returned is the parsed data without
      `hash` (a repeated name keeping its last value), and the bot's signature of that
      dict's data-check string is the `hash` received. */
  lemma AcceptedMeans(initData: string, token: Option<string>, sign: (string, string) -> string, decode: string -> string)
    requires ValidateInitData(initData, token, sign, decode).Ok?
    ensures var r := ValidateInitData(initData, token, sign, decode).value;
      var pairs := ParseQslStrict(initData, decode).value;
      && (forall k :: k != "hash" ==> Get(r, k) == LastValue(pairs, k))
      && token.Some? && LastValue(pairs, "hash") == Some(sign(token.value, DataCheckString(r)))
  {
    var pairs := ParseQslStrict(initData, decode).value;
    var parsed := ParseInitData(initData, decode).value;
    var r := ValidateInitData(initData, token, sign, decode).value;
    AcceptedParsed(initData, token, sign, decode);
    ParsedLast(initData, decode, "hash");
    forall k ensures Get(parsed, k) == LastValue(pairs, k) {
      ParsedLast(initData, decode, k);
    }
    assert forall k :: k != "hash" ==> Get(r, k) == LastValue(pairs, k) by {
      assert forall k :: k != "hash" ==> Get(r, k) == Get(parsed, k);
    }
  }

  /** Acceptance in terms of the parsed dict: the result is that dict without `hash`, and
      `hash` holds the signature of the result's data-check string. */
  lemma AcceptedParsed(initData: string, token: Option<string>, sign: (string, string) -> string, decode: string -> string)
    requires ValidateInitData(initData, token, sign, decode).Ok?
    ensures ParseInitData(initData, decode).Some?
    ensures var parsed := ParseInitData(initData, decode).value;
      var r := ValidateInitData(initData, token, sign, decode).value;
      && r == Remove(parsed, "hash")
      && token.Some? && Get(parsed, "hash") == Some(sign(token.value, DataCheckString(r)))
  {
    var parsed := ParseInitData(initData, decode).value;
    var received := Get(parsed, "hash");
    assert received.Some? && |received.value| > 0;
    var rest := Remove(parsed, "hash");
    assert ValidateInitData(initData, token, sign, decode) == CheckSignature(rest, received.value, token, sign);
  }

  /** The signature decides: once the data parses with a usable hash and a token is set,
      the data is accepted exactly when the computed signature equals the received one,
      and otherwise refused with 401. */
  lemma AcceptedIffSigned(initData: string, token: Option<string>, sign: (string, string) -> string, decode: string -> string)
    requires |initData| > 0 && ParseQslStrict(initData, decode).Some? && token.Some?
    requires var h := LastValue(ParseQslStrict(initData, decode).value, "hash");
      h.Some? && |h.value| > 0 && IsAscii(h.value)
    requires var rest := Remove(ParseInitData(initData, decode).value, "hash");
      IsAscii(sign(token.value, DataCheckString(rest)))
    ensures var rest := Remove(ParseInitData(initData, decode).value, "hash");
      && (ValidateInitData(initData, token, sign, decode).Ok? <==>
            Some(sign(token.value, DataCheckString(rest))) == LastValue(ParseQslStrict(initData, decode).value, "hash"))
      && (ValidateInitData(initData, token, sign, decode).Err? ==>
            ValidateInitData(initData, token, sign, decode) == Fail(401, "Invalid Telegram signature"))
  {
    ParsedLast(initData, decode, "hash");
    SignatureDecides(initData, token, sign, decode);
  }

  /** The parsed dict maps a key to the last value the query gives it. */
  lemma ParsedLast(initData: string, decode: string -> string, k: string)
    requires ParseQslStrict(initData, decode).Some?
    ensures ParseInitData(initData, decode).Some?
    ensures Get(ParseInitData(initData, decode).value, k) == LastValue(ParseQslStrict(initData, decode).value, k)
  {
  }

  /** Once the data parses with a non-empty `hash`, the signature check alone decides. */
  lemma SignatureDecides(initData: string, token: Option<string>, sign: (string, string) -> string, decode: string -> string)
    requires |initData| > 0 && ParseInitData(initData, decode).Some?
    requires var h := Get(ParseInitData(initData, decode).value, "hash"); h.Some? && |h.value| > 0
    ensures var parsed := ParseInitData(initData, decode).value;
      ValidateInitData(initData, token, sign, decode)
        == CheckSignature(Remove(parsed, "hash"), Get(parsed, "hash").value, token, sign)
  {
  }

  // ---------------------------------------------------------------------------------
  // What a Telegram client sends

  /** Characters that need no escaping in a query field: no separators, and `decode`
      leaves the text as it is. */
  predicate Plain(s: string, decode: string -> string)
  {
    '&' !in s && '=' !in s && decode(s) == s
  }

  /** Fields that need no escaping are parsed back as they were sent. */
  lemma {:induction false} ParseRendered(fields: seq<Pair>, decode: string -> string)
    requires forall i :: 0 <= i < |fields| ==> Plain(fields[i].0, decode) && Plain(fields[i].1, decode) && |fields[i].1| > 0
    ensures ParseFields(RenderAll(fields), decode) == Some(fields)
    decreases |fields|
  {
    if |fields| > 0 {
      var p := fields[0];
      SplitFirstAt(p.0, '=', p.1);
      assert Render(p) == p.0 + ['='] + p.1;
      ParseRendered(fields[1..], decode);
      assert RenderAll(fields)[1..] == RenderAll(fields[1..]);
      assert fields == [p] + fields[1..];
    }
  }

  /** For a list without repeated keys, the last value of a key is its only value. */
  lemma {:induction false} LastValueDistinct(ps: seq<Pair>, k: string)
    requires DistinctKeys(ps)
    ensures LastValue(ps, k) == Get(ps, k)
    decreases |ps|
  {
    if |ps| > 0 {
      var init := ps[..|ps| - 1];
      LastValueDistinct(init, k);
      GetAppend(init, ps[|ps| - 1], k);
      assert ps == init + [ps[|ps| - 1]];
      if ps[|ps| - 1].0 == k {
        GetKeySet(init, k);
        assert k !in KeySet(init);
      }
    }
  }

  /** Looking a key up in a list with one more pair at the end. */
  lemma {:induction false} GetAppend(ps: seq<Pair>, p: Pair, k: string)
    ensures Get(ps + [p], k) == if Get(ps, k).Some? then Get(ps, k) else if p.0 == k then Some(p.1) else None
    decreases |ps|
  {
    if |ps| > 0 {
      assert (ps + [p])[1..] == ps[1..] + [p];
      GetAppend(ps[1..], p, k);
    }
  }

  /** A query string of fields that need no escaping parses back to those fields. */
  lemma ParseEncoded(all: seq<Pair>, decode: string -> string)
    requires |all| > 0 && |all[0].0 + "=" + all[0].1| > 0
    requires forall i :: 0 <= i < |all| ==> Plain(all[i].0, decode) && Plain(all[i].1, decode) && |all[i].1| > 0
    ensures ParseQslStrict(Encode(all), decode) == Some(all)
  {
    var parts := RenderAll(all);
    forall i | 0 <= i < |parts| ensures '&' !in parts[i] {
      assert parts[i] == all[i].0 + "=" + all[i].1;
    }
    SplitJoin(parts, '&');
    ParseRendered(all, decode);
    JoinNonEmpty(parts, '&');
  }

  /** The dict the handler builds from the client's fields plus `hash`, once `hash` is
      popped, holds exactly the client's fields. */
  lemma PoppedFields(fields: seq<Pair>, h: string)
    requires DistinctKeys(fields) && "hash" !in KeySet(fields)
    ensures var all := fields + [("hash", h)];
      && LastValue(all, "hash") == Some(h)
      && forall k :: Get(Remove(FromPairs(all), "hash"), k) == Get(fields, k)
  {
    var all := fields + [("hash", h)];
    assert DistinctKeys(all) by {
      forall i, j | 0 <= i < j < |all| ensures all[i].0 != all[j].0 {
        if j == |all| - 1 {
          assert fields[i] in fields;
        }
      }
    }
    var parsed := FromPairs(all);
    forall k ensures Get(parsed, k) == Get(all, k) {
      LastValueDistinct(all, k);
    }
    GetKeySet(fields, "hash");
    forall k ensures Get(Remove(parsed, "hash"), k) == Get(fields, k) {
      GetAppend(fields, ("hash", h), k);
    }
  }

  /** The round trip with a genuine client: fields signed with the bot's token are
      accepted, and the dict returned holds exactly those fields. */
  lemma SignedInitDataAccepted(fields: seq<Pair>, token: string, sign: (string, string) -> string, decode: string -> string)
    requires DistinctKeys(fields) && "hash" !in KeySet(fields)
    requires forall i :: 0 <= i < |fields| ==> Plain(fields[i].0, decode) && Plain(fields[i].1, decode) && |fields[i].1| > 0
    requires decode("hash") == "hash"
    requires var h := sign(token, DataCheckString(fields)); Plain(h, decode) && |h| > 0 && IsAscii(h)
    ensures var h := sign(token, DataCheckString(fields));
      var r := ValidateInitData(Encode(fields + [("hash", h)]), Some(token), sign, decode);
      r.Ok? && forall k :: Get(r.value, k) == Get(fields, k)
  {
    var h := sign(token, DataCheckString(fields));
    SignedParsed(fields, h, decode);
    AcceptedWhenSigned(Encode(fields + [("hash", h)]), fields, h, token, sign, decode);
  }

  /** Signed fields parse back with `hash` last, and popping `hash` leaves the fields. */
  lemma SignedParsed(fields: seq<Pair>, h: string, decode: string -> string)
    requires DistinctKeys(fields) && "hash" !in KeySet(fields)
    requires forall i :: 0 <= i < |fields| ==> Plain(fields[i].0, decode) && Plain(fields[i].1, decode) && |fields[i].1| > 0
    requires decode("hash") == "hash" && Plain(h, decode) && |h| > 0
    ensures var all := fields + [("hash", h)];
      && ParseQslStrict(Encode(all), decode) == Some(all)
      && LastValue(all, "hash") == Some(h)
      && forall k :: Get(Remove(FromPairs(all), "hash"), k) == Get(fields, k)
  {
    PlainFields(fields, ("hash", h), decode);
    ParseEncoded(fields + [("hash", h)], decode);
    PoppedFields(fields, h);
  }

  /** Appending a field that needs no escaping keeps every field plain. */
  lemma PlainFields(fields: seq<Pair>, p: Pair, decode: string -> string)
    requires forall i :: 0 <= i < |fields| ==> Plain(fields[i].0, decode) && Plain(fields[i].1, decode) && |fields[i].1| > 0
    requires Plain(p.0, decode) && Plain(p.1, decode) && |p.1| > 0
    ensures var all := fields + [p];
      forall i :: 0 <= i < |all| ==> Plain(all[i].0, decode) && Plain(all[i].1, decode) && |all[i].1| > 0
  {
  }

  /** The last step of the round trip, once parsing is known to give back the fields and `hash`. */
  lemma AcceptedWhenSigned(qs: string, fields: seq<Pair>, h: string, token: string, sign: (string, string) -> string, decode: string -> string)
    requires DistinctKeys(fields)
    requires ParseQslStrict(qs, decode) == Some(fields + [("hash", h)])
    requires LastValue(fields + [("hash", h)], "hash") == Some(h)
    requires forall k :: Get(Remove(FromPairs(fields + [("hash", h)]), "hash"), k) == Get(fields, k)
    requires h == sign(token, DataCheckString(fields)) && |h| > 0 && IsAscii(h)
    ensures var r := ValidateInitData(qs, Some(token), sign, decode);
      r.Ok? && forall k :: Get(r.value, k) == Get(fields, k)
  {
    assert |qs| > 0;
    var parsed := ParseInitData(qs, decode).value;
    assert parsed == FromPairs(fields + [("hash", h)]);
    var rest := Remove(parsed, "hash");
    assert Get(parsed, "hash") == Some(h);
    assert ValidateInitData(qs, Some(token), sign, decode) == CheckSignature(rest, h, Some(token), sign);
    DataCheckStringDeterminedByContents(rest, fields);
  }

  // ---------------------------------------------------------------------------------
  // get_current_user

  /** The `user` claim after `json.loads`: an integer id and the optional profile fields. */
  datatype Claim = Claim(telegramId: int, username: Option<string>, firstName: Option<string>)

  const BearerPrefix: string := "Bearer "

  /** One more than every id in use. */
  function NextUserId(users: seq<User>): (r: UserId)
    ensures forall i :: 0 <= i < |users| ==> users[i].id < r
    decreases |users|
  {
    if |users| == 0 then 1
    else
      var rest := NextUserId(users[1..]);
      if users[0].id < rest then rest else users[0].id + 1
  }

  /** The find-or-create at the end of `get_current_user`. */
  function FindOrCreate(s: State, c: Claim): (r: (State, User))
    ensures FindUser(s.users, c.telegramId).Some? ==> r == (s, FindUser(s.users, c.telegramId).value)
    ensures FindUser(s.users, c.telegramId).None? ==>
      && r.0 == s.(users := s.users + [r.1])
      && r.1.telegramId == c.telegramId && r.1.username == c.username && r.1.firstName == c.firstName
      && forall i :: 0 <= i < |s.users| ==> s.users[i].id != r.1.id
    ensures FindUser(r.0.users, c.telegramId) == Some(r.1)
  {
    var found := FindUser(s.users, c.telegramId);
    if found.Some? then (s, found.value)
    else
      var u := User(NextUserId(s.users), c.telegramId, c.username, c.firstName);
      FindUserNew(s.users, u);
      (s.(users := s.users + [u]), u)
  }

  /** A lookup after appending a user with an identity nobody had finds that user. */
  lemma {:induction false} FindUserNew(users: seq<User>, u: User)
    requires FindUser(users, u.telegramId).None?
    ensures FindUser(users + [u], u.telegramId) == Some(u)
    decreases |users|
  {
    if |users| > 0 {
      assert (users + [u])[1..] == users[1..] + [u];
      FindUserNew(users[1..], u);
    }
  }

  /** Find-or-create is idempotent: the user it returns is found by the next call with the
      same Telegram id, whatever profile that call carries, and nothing more is inserted. */
  lemma FindOrCreateIdempotent(s: State, c: Claim, c2: Claim)
    requires c2.telegramId == c.telegramId
    ensures var (s1, u) := FindOrCreate(s, c);
      FindOrCreate(s1, c2) == (s1, u)
  {
  }

  /** `get_current_user`. `authorization` is None when the header is missing, which
      FastAPI answers with 422 before the handler runs. `parseUser` is `json.loads` of the
      claim followed by `["id"]`, None where either raises. */
  function CurrentUser(s: State, authorization: Option<string>, token: Option<string>,
                       sign: (string, string) -> string, decode: string -> string,
                       parseUser: string -> Option<Claim>): (r: (State, Result<User, HttpError>))
    ensures authorization.None? ==> r == (s, Fail(422, "Unprocessable Entity"))
    ensures authorization.Some? && !StartsWith(authorization.value, BearerPrefix) ==>
      r == (s, Fail(401, "Invalid Authorization header"))
    ensures authorization.Some? && StartsWith(authorization.value, BearerPrefix) ==>
      var data := ValidateInitData(RemoveAll(authorization.value, BearerPrefix), token, sign, decode);
      && (data.Err? ==> r == (s, Err(data.error)))
      && (data.Ok? ==>
            var claimText := Get(data.value, "user");
            && (claimText.None? || |claimText.value| == 0 ==> r == (s, Fail(401, "User not found")))
            && (claimText.Some? && |claimText.value| > 0 ==>
                  var claim := parseUser(claimText.value);
                  && (claim.None? ==> r == (s, Crash()))
                  && (claim.Some? ==> r.1.Ok? && r.1.value.telegramId == claim.value.telegramId
                                      && (r.0, r.1.value) == FindOrCreate(s, claim.value))))
    ensures r.0.orders == s.orders && r.0.ledger == s.ledger && r.0.deposits == s.deposits
    ensures r.1.Ok? ==> FindUser(r.0.users, r.1.value.telegramId) == Some(r.1.value)
    ensures r.1.Err? ==> r.0 == s
  {
    if authorization.None? then (s, Fail(422, "Unprocessable Entity"))
    else if !StartsWith(authorization.value, BearerPrefix) then (s, Fail(401, "Invalid Authorization header"))
    else
      var data := ValidateInitData(RemoveAll(authorization.value, BearerPrefix), token, sign, decode);
      if data.Err? then (s, Err(data.error))
      else
        var userJson := Get(data.value, "user");
        if userJson.None? || |userJson.value| == 0 then (s, Fail(401, "User not found"))
        else
          var claim := parseUser(userJson.value);
          if claim.None? then (s, Crash())
          else
            var (s1, u) := FindOrCreate(s, claim.value);
            (s1, Ok(u))
  }

  /** The round trip with a genuine client: a `Bearer ` header carrying init data signed
      with the bot's token, whose `user` claim parses, yields the user stored under the
      claim's Telegram id, created on first contact. */
  lemma SignedHeaderAccepted(s: State, fields: seq<Pair>, token: string, sign: (string, string) -> string,
                             decode: string -> string, parseUser: string -> Option<Claim>, c: Claim)
    requires DistinctKeys(fields) && "hash" !in KeySet(fields)
    requires forall i :: 0 <= i < |fields| ==> Plain(fields[i].0, decode) && Plain(fields[i].1, decode) && |fields[i].1| > 0
    requires decode("hash") == "hash"
    requires var h := sign(token, DataCheckString(fields)); Plain(h, decode) && |h| > 0 && IsAscii(h)
    requires !Contains(Encode(fields + [("hash", sign(token, DataCheckString(fields)))]), BearerPrefix)
    requires Get(fields, "user").Some? && parseUser(Get(fields, "user").value) == Some(c)
    ensures var header := BearerPrefix + Encode(fields + [("hash", sign(token, DataCheckString(fields)))]);
      var r := CurrentUser(s, Some(header), Some(token), sign, decode, parseUser);
      && r.1 == Ok(FindOrCreate(s, c).1) && r.0 == FindOrCreate(s, c).0
      && r.1.value.telegramId == c.telegramId
  {
    var initData := Encode(fields + [("hash", sign(token, DataCheckString(fields)))]);
    SignedClaim(fields, token, sign, decode, "user");
    BearerToken(initData);
    ValidatedHeader(s, BearerPrefix + initData, initData, Some(token), sign, decode, parseUser, c);
  }

  /** A claim present in signed init data survives validation unchanged and is non-empty. */
  lemma SignedClaim(fields: seq<Pair>, token: string, sign: (string, string) -> string, decode: string -> string, k: string)
    requires DistinctKeys(fields) && "hash" !in KeySet(fields)
    requires forall i :: 0 <= i < |fields| ==> Plain(fields[i].0, decode) && Plain(fields[i].1, decode) && |fields[i].1| > 0
    requires decode("hash") == "hash"
    requires var h := sign(token, DataCheckString(fields)); Plain(h, decode) && |h| > 0 && IsAscii(h)
    requires Get(fields, k).Some?
    ensures var r := ValidateInitData(Encode(fields + [("hash", sign(token, DataCheckString(fields)))]), Some(token), sign, decode);
      r.Ok? && Get(r.value, k) == Get(fields, k) && |Get(fields, k).value| > 0
  {
    SignedInitDataAccepted(fields, token, sign, decode);
    GetMember(fields, k, Get(fields, k).value);
  }

  /** A header that carries validated init data with a parsing `user` claim yields the
      user find-or-create gives for that claim. */
  lemma ValidatedHeader(s: State, header: string, initData: string, token: Option<string>,
                        sign: (string, string) -> string, decode: string -> string,
                        parseUser: string -> Option<Claim>, c: Claim)
    requires StartsWith(header, BearerPrefix) && RemoveAll(header, BearerPrefix) == initData
    requires var data := ValidateInitData(initData, token, sign, decode);
      && data.Ok? && Get(data.value, "user").Some? && |Get(data.value, "user").value| > 0
      && parseUser(Get(data.value, "user").value) == Some(c)
    ensures var r := CurrentUser(s, Some(header), token, sign, decode, parseUser);
      r.1 == Ok(FindOrCreate(s, c).1) && r.0 == FindOrCreate(s, c).0
  {
  }

  /** The token is the header after `Bearer `, when it has no further `Bearer ` in it. */
  lemma BearerToken(initData: string)
    requires !Contains(initData, BearerPrefix)
    ensures StartsWith(BearerPrefix + initData, BearerPrefix)
    ensures RemoveAll(BearerPrefix + initData, BearerPrefix) == initData
  {
    assert (BearerPrefix + initData)[..|BearerPrefix|] == BearerPrefix;
    RemoveAllLeading(BearerPrefix, initData);
    RemoveAllAbsent(initData, BearerPrefix);
  }
}

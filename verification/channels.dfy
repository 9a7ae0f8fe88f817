/** Channel registration of api/channels.py: its own Telegram WebApp check
    (`validate_telegram_data`) and the input checks of `handler` that run before it talks to
    the database. The check reads `key=value` parts of the init data itself, drops parts
    without `=`, decodes only the value, rejects data older than a day, and compares the
    `hash` field with `sign(token, data-check string)`, which stands for HMAC-SHA-256 keyed
    with HMAC-SHA-256("WebAppData", token), as hex. Every failure surfaces as text that
    starts "Validation failed: ". */
module Channels {

  import opened Common
  import opened Text
  import opened IntParse
  import opened QueryDict
  import opened JsonValue

  const ValidationPrefix: string := "Validation failed: "
  /** How old, in seconds, init data may be. */
  const MaxAge: real := 86400.0

  // ---------------------------------------------------------------------------------
  // validate_telegram_data

  /** The pairs the parsing loop stores, in order: each part with an `=` gives its text
      before the first `=` and the decoded rest; parts without `=` are skipped. */
  function ParamPairs(parts: seq<string>, unquote: string -> string): (r: seq<Pair>)
    ensures |r| <= |parts|
    decreases |parts|
  {
    if |parts| == 0 then []
    else
      var rest := ParamPairs(parts[1..], unquote);
      if '=' in parts[0] then
        var kv := SplitFirst(parts[0], '=');
        [(kv.0, unquote(kv.1))] + rest
      else rest
  }

  /** The `params` dict: a later part with the same key overwrites an earlier one. */
  function ParseParams(initData: string, unquote: string -> string): (r: seq<Pair>)
    ensures DistinctKeys(r)
    ensures forall k :: Get(r, k) == LastValue(ParamPairs(Split(initData, '&'), unquote), k)
  {
    FromPairs(ParamPairs(Split(initData, '&'), unquote))
  }

  /** Python's `repr` of a string without quotes or escapes in it. */
  function Repr(s: string): string
  {
    "'" + s + "'"
  }

  /** Whether the `auth_date` check lets the data through at time `now`: no `auth_date`,
      or one that parses to a time at most a day before `now`. */
  predicate Fresh(params: seq<Pair>, now: real)
  {
    match Get(params, "auth_date")
    case None => true
    case Some(a) => ParseInt(a).Some? && now - ParseInt(a).value as real <= MaxAge
  }

  /** Whether `hash` is present and equals the signature of the data-check string. */
  predicate Signed(params: seq<Pair>, token: string, sign: (string, string) -> string)
  {
    DistinctKeys(params) && Get(params, "hash") == Some(sign(token, DataCheckString(params)))
  }

  /** `validate_telegram_data(init_data)`, with the time and the bot token as parameters.
      On success the whole dict comes back, `hash` included. */
  function ValidateWebAppData(initData: string, now: real, token: Option<string>,
                              sign: (string, string) -> string, unquote: string -> string): (r: Result<seq<Pair>, string>)
    ensures r.Err? ==> StartsWith(r.error, ValidationPrefix)
    ensures r.Ok? <==> Fresh(ParseParams(initData, unquote), now) && token.Some?
                       && Signed(ParseParams(initData, unquote), token.value, sign)
    ensures r.Ok? ==> r.value == ParseParams(initData, unquote) && "hash" in KeySet(r.value)
  {
    var params := ParseParams(initData, unquote);
    var authDate := Get(params, "auth_date");
    if authDate.Some? && ParseInt(authDate.value).None? then
      Err(ValidationPrefix + "invalid literal for int() with base 10: " + Repr(authDate.value))
    else if authDate.Some? && now - ParseInt(authDate.value).value as real > MaxAge then
      Err(ValidationPrefix + "Data expired")
    else if token.None? then
      Err(ValidationPrefix + "'NoneType' object has no attribute 'encode'")
    else if Get(params, "hash") != Some(sign(token.value, DataCheckString(params))) then
      Err(ValidationPrefix + "Invalid hash")
    else
      GetKeySet(params, "hash");
      Ok(params)
  }

  /** The expiry rule: data whose `auth_date` parses is refused as expired exactly when
      more than a day has passed; a day to the second is still accepted. */
  lemma ExpiredIffOlderThanADay(initData: string, now: real, token: Option<string>,
                                sign: (string, string) -> string, unquote: string -> string, t: int)
    requires var a := Get(ParseParams(initData, unquote), "auth_date"); a.Some? && ParseInt(a.value) == Some(t)
    ensures ValidateWebAppData(initData, now, token, sign, unquote) == Err(ValidationPrefix + "Data expired")
            <==> now - t as real > MaxAge
  {
    var expired := ValidationPrefix + "Data expired";
    var noToken := ValidationPrefix + "'NoneType' object has no attribute 'encode'";
    var badHash := ValidationPrefix + "Invalid hash";
    assert expired[|ValidationPrefix|] == 'D';
    assert noToken[|ValidationPrefix|] == '\'';
    assert badHash[|ValidationPrefix|] == 'I';
  }

  /** Without `auth_date` the time plays no part in the verdict. */
  lemma NoAuthDateNoExpiry(initData: string, now1: real, now2: real, token: Option<string>,
                           sign: (string, string) -> string, unquote: string -> string)
    requires Get(ParseParams(initData, unquote), "auth_date").None?
    ensures ValidateWebAppData(initData, now1, token, sign, unquote)
            == ValidateWebAppData(initData, now2, token, sign, unquote)
  {
    var params := ParseParams(initData, unquote);
    assert ValidateWebAppData(initData, now1, token, sign, unquote)
           == ValidateWebAppData(initData, now2, token, sign, unquote) by {
      assert Fresh(params, now1) && Fresh(params, now2);
    }
  }

  /** A part without `=` in front of the rest of the data changes nothing. */
  lemma PartWithoutEqualsIgnored(junk: string, rest: string, unquote: string -> string)
    requires '&' !in junk && '=' !in junk
    ensures ParseParams(junk + "&" + rest, unquote) == ParseParams(rest, unquote)
  {
    var tail := "&" + rest;
    SplitGlued(junk, tail, '&');
    assert junk + "&" + rest == junk + tail;
    assert tail[1..] == rest;
    assert Split(tail, '&') == [""] + Split(rest, '&');
    assert junk + "" == junk;
    assert Split(junk + tail, '&') == [junk] + Split(rest, '&');
    assert ([junk] + Split(rest, '&'))[1..] == Split(rest, '&');
  }

  /** Fields whose keys hold neither separator, whose values hold no `&` (an `=` is fine)
      and which decoding leaves alone. */
  predicate Sendable(fields: seq<Pair>, unquote: string -> string)
  {
    forall i :: 0 <= i < |fields| ==>
      '&' !in fields[i].0 && '=' !in fields[i].0 && '&' !in fields[i].1 && unquote(fields[i].1) == fields[i].1
  }

  /** The parts of a sendable query string are read back as the fields they came from. */
  lemma {:induction false} ParamPairsRendered(fields: seq<Pair>, unquote: string -> string)
    requires Sendable(fields, unquote)
    ensures ParamPairs(RenderAll(fields), unquote) == fields
    decreases |fields|
  {
    if |fields| > 0 {
      var p := fields[0];
      SplitFirstAt(p.0, '=', p.1);
      assert Render(p) == p.0 + ['='] + p.1;
      assert Sendable(fields[1..], unquote) by {
        forall i | 0 <= i < |fields[1..]|
          ensures '&' !in fields[1..][i].0 && '=' !in fields[1..][i].0 && '&' !in fields[1..][i].1
                  && unquote(fields[1..][i].1) == fields[1..][i].1 {
          assert fields[1..][i] == fields[i + 1];
        }
      }
      ParamPairsRendered(fields[1..], unquote);
      assert RenderAll(fields)[1..] == RenderAll(fields[1..]);
      assert fields == [p] + fields[1..];
    }
  }

  /** Parsing a sendable query string rebuilds the dict a client meant, a later duplicate key
      winning and a value keeping every `=` after the first. */
  lemma ParseEncodedParams(fields: seq<Pair>, unquote: string -> string)
    requires |fields| > 0 && Sendable(fields, unquote)
    ensures ParseParams(Encode(fields), unquote) == FromPairs(fields)
  {
    var parts := RenderAll(fields);
    forall i | 0 <= i < |parts| ensures '&' !in parts[i] {
      assert parts[i] == fields[i].0 + "=" + fields[i].1;
    }
    SplitJoin(parts, '&');
    ParamPairsRendered(fields, unquote);
  }

  /** Appending `hash` to the fields sets `hash` and leaves the data-check string alone. */
  lemma HashAppended(fields: seq<Pair>, h: string)
    ensures var d := FromPairs(fields + [("hash", h)]);
      && Get(d, "hash") == Some(h)
      && (forall k :: k != "hash" ==> Get(d, k) == Get(FromPairs(fields), k))
      && DataCheckString(d) == DataCheckString(FromPairs(fields))
  {
    var all := fields + [("hash", h)];
    var d := FromPairs(all);
    assert all[..|all| - 1] == fields;
    assert forall k :: Get(d, k) == LastValue(all, k);
    assert forall k :: k != "hash" ==> LastValue(all, k) == LastValue(fields, k);
    DataCheckStringDeterminedByContents(d, FromPairs(fields));
  }

  /** Any key but `hash` keeps the last value the fields gave it. */
  lemma KeptField(fields: seq<Pair>, h: string, k: string)
    requires k != "hash"
    ensures Get(FromPairs(fields + [("hash", h)]), k) == LastValue(fields, k)
  {
    var all := fields + [("hash", h)];
    assert all[..|all| - 1] == fields;
    assert LastValue(all, k) == LastValue(fields, k);
  }

  /** Sendable fields followed by a sendable signature are sendable. */
  lemma SendableSigned(fields: seq<Pair>, h: string, unquote: string -> string)
    requires Sendable(fields, unquote) && '&' !in h && unquote(h) == h
    ensures Sendable(fields + [("hash", h)], unquote)
  {
    SendableAppend(fields, ("hash", h), unquote);
  }

  /** Appending a sendable field keeps the fields sendable. */
  lemma SendableAppend(fields: seq<Pair>, p: Pair, unquote: string -> string)
    requires Sendable(fields, unquote) && Sendable([p], unquote)
    ensures Sendable(fields + [p], unquote)
  {
    var all := fields + [p];
    forall i | 0 <= i < |all|
      ensures '&' !in all[i].0 && '=' !in all[i].0 && '&' !in all[i].1 && unquote(all[i].1) == all[i].1 {
      if i < |fields| {
        assert all[i] == fields[i];
      } else {
        assert all[i] == [p][0];
      }
    }
  }

  /** The round trip with a genuine client: fields signed with the bot's token, sent fresh,
      are accepted, and the dict returned is the dict of the fields sent and the signature
      under `hash`, a later duplicate key winning. */
  lemma SignedWebAppDataAccepted(fields: seq<Pair>, now: real, token: string,
                                 sign: (string, string) -> string, unquote: string -> string)
    requires Sendable(fields, unquote)
    requires var h := sign(token, DataCheckString(FromPairs(fields)));
      '&' !in h && unquote(h) == h
    requires match LastValue(fields, "auth_date")
      case None => true
      case Some(a) => ParseInt(a).Some? && now - ParseInt(a).value as real <= MaxAge
    ensures var h := sign(token, DataCheckString(FromPairs(fields)));
      var all := fields + [("hash", h)];
      var r := ValidateWebAppData(Encode(all), now, Some(token), sign, unquote);
      r == Ok(FromPairs(all))
  {
    var h := sign(token, DataCheckString(FromPairs(fields)));
    var all := fields + [("hash", h)];
    SendableSigned(fields, h, unquote);
    ParseEncodedParams(all, unquote);
    SignedAndFresh(fields, now, token, sign);
    ParamsAccepted(Encode(all), FromPairs(all), now, token, sign, unquote);
  }

  /** The dict of signed fields plus their signature passes both checks. */
  lemma SignedAndFresh(fields: seq<Pair>, now: real, token: string, sign: (string, string) -> string)
    requires match LastValue(fields, "auth_date")
      case None => true
      case Some(a) => ParseInt(a).Some? && now - ParseInt(a).value as real <= MaxAge
    ensures var params := FromPairs(fields + [("hash", sign(token, DataCheckString(FromPairs(fields))))]);
      Signed(params, token, sign) && Fresh(params, now)
  {
    var h := sign(token, DataCheckString(FromPairs(fields)));
    HashAppended(fields, h);
    assert "auth_date"[0] != "hash"[0];
    KeptField(fields, h, "auth_date");
  }

  /** Init data whose dict passes both checks is accepted with that dict. */
  lemma ParamsAccepted(initData: string, params: seq<Pair>, now: real, token: string,
                       sign: (string, string) -> string, unquote: string -> string)
    requires ParseParams(initData, unquote) == params
    requires Signed(params, token, sign) && Fresh(params, now)
    ensures ValidateWebAppData(initData, now, Some(token), sign, unquote) == Ok(params)
  {
  }

  // ---------------------------------------------------------------------------------
  // handler, up to the database

  /** Python truthiness of a JSON value, a missing key reading as None. */
  predicate Truthy(j: Option<Json>)
  {
    match j
    case None => false
    case Some(JNull) => false
    case Some(JBool(b)) => b
    case Some(JNum(n)) => n != 0.0
    case Some(JStr(s)) => |s| > 0
    case Some(JArr(items)) => |items| > 0
    case Some(JObj(fields)) => |fields| > 0
  }

  /** The Python type name of a decoded JSON value, as an AttributeError quotes it. */
  function TypeName(j: Json): string
  {
    match j
    case JNull => "NoneType"
    case JBool(_) => "bool"
    case JNum(n) => if n.Floor as real == n then "int" else "float"
    case JStr(_) => "str"
    case JArr(_) => "list"
    case JObj(_) => "dict"
  }

  /** The message of the AttributeError a missing method raises. */
  function NoAttribute(j: Json, name: string): string
  {
    "'" + TypeName(j) + "' object has no attribute '" + name + "'"
  }

  const RequiredMessage: string := "initData and channel_username are required"
  const AtMessage: string := "Channel username must start with @"

  /** Where the handler goes on once its checks pass: to the database lookups for this
      Telegram user and channel. */
  datatype Admitted = Admitted(telegramId: int, channel: string)

  /** The checks after the two fields are known to be present and `initData` a string:
      the signature check, the `user` claim, then the channel's form. */
  function Admit(initData: string, channel: Json, now: real, token: Option<string>,
                 sign: (string, string) -> string, unquote: string -> string,
                 evalUser: string -> Result<int, string>): (r: Result<Admitted, HttpError>)
    ensures ValidateWebAppData(initData, now, token, sign, unquote).Err? ==> r.Err? && r.error.status == 401
    ensures r.Ok? ==>
              && ValidateWebAppData(initData, now, token, sign, unquote).Ok?
              && channel == JStr(r.value.channel)
              && StartsWith(r.value.channel, "@")
              && Get(ValidateWebAppData(initData, now, token, sign, unquote).value, "user").Some?
              && evalUser(Get(ValidateWebAppData(initData, now, token, sign, unquote).value, "user").value) == Ok(r.value.telegramId)
    ensures var v := ValidateWebAppData(initData, now, token, sign, unquote);
      v.Ok? && Get(v.value, "user").None? ==> r == Fail(401, Repr("user"))
    ensures var v := ValidateWebAppData(initData, now, token, sign, unquote);
      v.Ok? && Get(v.value, "user").Some? && evalUser(Get(v.value, "user").value).Err? ==>
        r == Fail(401, evalUser(Get(v.value, "user").value).error)
    ensures var v := ValidateWebAppData(initData, now, token, sign, unquote);
      v.Ok? && Get(v.value, "user").Some? && evalUser(Get(v.value, "user").value).Ok? ==>
        && (!channel.JStr? ==> r == Fail(500, NoAttribute(channel, "startswith")))
        && (channel.JStr? && !StartsWith(channel.s, "@") ==> r == Fail(400, AtMessage))
        && (channel.JStr? && StartsWith(channel.s, "@") ==>
              r == Ok(Admitted(evalUser(Get(v.value, "user").value).value, channel.s)))
  {
    match ValidateWebAppData(initData, now, token, sign, unquote)
    case Err(e) => Fail(401, e)
    case Ok(params) =>
      match Get(params, "user")
      case None => Fail(401, Repr("user"))
      case Some(user) =>
        match evalUser(user)
        case Err(e) => Fail(401, e)
        case Ok(id) =>
          if !channel.JStr? then Fail(500, NoAttribute(channel, "startswith"))
          else if !StartsWith(channel.s, "@") then Fail(400, AtMessage)
          else Ok(Admitted(id, channel.s))
  }

  /** The checks `handler` makes before touching the database. `evalUser` stands for
      `int(eval(user)["id"])`, giving the id or the text of the exception raised. Every
      error is the `error` text with its HTTP status. */
  function Handle(body: Json, now: real, token: Option<string>, sign: (string, string) -> string,
                  unquote: string -> string, evalUser: string -> Result<int, string>): (r: Result<Admitted, HttpError>)
    ensures !body.JObj? ==> r == Fail(500, NoAttribute(body, "get"))
    ensures body.JObj? && (!Truthy(Field(body, "initData")) || !Truthy(Field(body, "channel_username")))
            ==> r == Fail(400, RequiredMessage)
    ensures body.JObj? && Truthy(Field(body, "initData")) && !Field(body, "initData").value.JStr?
            && Truthy(Field(body, "channel_username"))
            ==> r.Err? && r.error.status == 401
    ensures r.Ok? ==>
              && Field(body, "initData").value.JStr?
              && Field(body, "channel_username").Some?
              && r == Admit(Field(body, "initData").value.s, Field(body, "channel_username").value,
                            now, token, sign, unquote, evalUser)
  {
    if !body.JObj? then Fail(500, NoAttribute(body, "get"))
    else
      var initData := Field(body, "initData");
      var channel := Field(body, "channel_username");
      if !Truthy(initData) || !Truthy(channel) then Fail(400, RequiredMessage)
      else if !initData.value.JStr? then Fail(401, ValidationPrefix + NoAttribute(initData.value, "split"))
      else Admit(initData.value.s, channel.value, now, token, sign, unquote, evalUser)
  }

  /** Valid data naming a user whose id evaluates, with a channel that starts with `@`,
      is admitted. */
  lemma AdmitWhenValid(initData: string, channel: string, now: real, token: Option<string>,
                       sign: (string, string) -> string, unquote: string -> string,
                       evalUser: string -> Result<int, string>, params: seq<Pair>, id: int)
    requires ValidateWebAppData(initData, now, token, sign, unquote) == Ok(params)
    requires Get(params, "user").Some? && evalUser(Get(params, "user").value) == Ok(id)
    requires StartsWith(channel, "@")
    ensures Admit(initData, JStr(channel), now, token, sign, unquote, evalUser) == Ok(Admitted(id, channel))
  {
  }

  /** Once both fields are present and `initData` is a string, the handler's verdict is
      that of the later checks. */
  lemma HandleForwards(body: Json, now: real, token: Option<string>, sign: (string, string) -> string,
                       unquote: string -> string, evalUser: string -> Result<int, string>)
    requires body.JObj? && Truthy(Field(body, "initData")) && Truthy(Field(body, "channel_username"))
    requires Field(body, "initData").value.JStr?
    ensures Handle(body, now, token, sign, unquote, evalUser)
            == Admit(Field(body, "initData").value.s, Field(body, "channel_username").value,
                     now, token, sign, unquote, evalUser)
  {
  }

  /** The JSON body a client sends: the init data and the channel, both strings. */
  function RequestBody(initData: string, channel: string): (r: Json)
    ensures r.JObj?
    ensures Field(r, "initData") == Some(JStr(initData))
    ensures Field(r, "channel_username") == Some(JStr(channel))
  {
    assert "initData"[0] != "channel_username"[0];
    JObj(map["initData" := JStr(initData), "channel_username" := JStr(channel)])
  }

  /** A genuine, fresh request naming a channel that starts with `@` is admitted for the
      user the signed `user` field names. */
  lemma SignedRequestAdmitted(fields: seq<Pair>, channel: string, now: real, token: string,
                              sign: (string, string) -> string, unquote: string -> string,
                              evalUser: string -> Result<int, string>, id: int)
    requires Sendable(fields, unquote)
    requires var h := sign(token, DataCheckString(FromPairs(fields)));
      '&' !in h && unquote(h) == h
    requires match LastValue(fields, "auth_date")
      case None => true
      case Some(a) => ParseInt(a).Some? && now - ParseInt(a).value as real <= MaxAge
    requires LastValue(fields, "user").Some? && evalUser(LastValue(fields, "user").value) == Ok(id)
    requires StartsWith(channel, "@")
    ensures var h := sign(token, DataCheckString(FromPairs(fields)));
      var body := RequestBody(Encode(fields + [("hash", h)]), channel);
      Handle(body, now, Some(token), sign, unquote, evalUser) == Ok(Admitted(id, channel))
  {
    var h := sign(token, DataCheckString(FromPairs(fields)));
    var all := fields + [("hash", h)];
    var qs := Encode(all);
    var body := RequestBody(qs, channel);
    var r := ValidateWebAppData(qs, now, Some(token), sign, unquote);
    assert r == Ok(FromPairs(all)) by {
      SignedWebAppDataAccepted(fields, now, token, sign, unquote);
    }
    assert Get(FromPairs(all), "user") == LastValue(fields, "user") by {
      assert "user"[0] != "hash"[0];
      KeptField(fields, h, "user");
    }
    AdmitWhenValid(qs, channel, now, Some(token), sign, unquote, evalUser, FromPairs(all), id);
    EncodeNonEmpty(all);
    HandleForwards(body, now, Some(token), sign, unquote, evalUser);
  }
}

/** The HTTP boundary: the Strava webhook (subscription handshake and event
    receipt), the cron trigger of the full sync, and the OAuth callback.
    Each handler is a total function from the request's facts, the
    configuration and the outcome of the service it calls, to a response. */
module Routes {
  import opened Outcome
  import opened Json
  import opened Sync

  /** What a handler returns. `Redirect` carries the relative reference the
      target is resolved from. */
  datatype HttpResponse =
    | JsonResponse(status: int, body: Json)
    | TextResponse(status: int, text: string)
    | Redirect(target: string)

  // ---------------------------------------------------------------------
  // Webhook

  const DefaultVerifyToken: string := "STRAVA"
  const InvalidVerifyToken: string := "Token de verificação inválido"

  /** `process.env.STRAVA_VERIFY_TOKEN || "STRAVA"`: unset and empty both
      fall back. */
  function ExpectedVerifyToken(configured: Option<string>): (t: string)
    ensures Truthy(configured) ==> t == configured.value
    ensures !Truthy(configured) ==> t == DefaultVerifyToken
  {
    if Truthy(configured) then configured.value else DefaultVerifyToken
  }

  /** `GET` with the query parameters `hub.mode`, `hub.challenge` and
      `hub.verify_token` (each absent or a string). */
  function WebhookGet(hubMode: Option<string>, hubChallenge: Option<string>, hubVerifyToken: Option<string>,
                      configured: Option<string>): HttpResponse
  {
    if hubMode == Some("subscribe") && hubVerifyToken == Some(ExpectedVerifyToken(configured))
    then JsonResponse(200, JObj(map["hub.challenge" := if hubChallenge.Some? then JStr(hubChallenge.value) else JNull]))
    else TextResponse(403, InvalidVerifyToken)
  }

  /** The handshake succeeds exactly for mode "subscribe" with the expected
      token, and then echoes the challenge as it came; anything else is 403. */
  lemma HandshakeRule(hubMode: Option<string>, hubChallenge: Option<string>, hubVerifyToken: Option<string>,
                      configured: Option<string>)
    ensures var r := WebhookGet(hubMode, hubChallenge, hubVerifyToken, configured);
      && (r.JsonResponse? <==>
            hubMode == Some("subscribe")
            && hubVerifyToken.Some?
            && hubVerifyToken.value == (if Truthy(configured) then configured.value else "STRAVA"))
      && (r.JsonResponse? ==>
            && r.status == 200
            && "hub.challenge" in r.body.fields
            && (hubChallenge.Some? <==> r.body.fields["hub.challenge"].JStr?)
            && (hubChallenge.Some? ==> r.body.fields["hub.challenge"].s == hubChallenge.value))
      && (!r.JsonResponse? ==> r == TextResponse(403, InvalidVerifyToken))
  {
  }

  /** What `POST` did: its response, and the events handed to the event
      processor. */
  datatype WebhookReceipt = WebhookReceipt(response: HttpResponse, processed: seq<Json>)

  function StatusBody(status: string): Json
  {
    JObj(map["status" := JStr(status)])
  }

  /** `POST`: the body as parsed (`None` when it is not JSON), and whether
      the event processor completes for an event. */
  function WebhookPost(body: Option<Json>, processorCompletes: Json -> bool): WebhookReceipt
  {
    if body.None? then WebhookReceipt(JsonResponse(200, StatusBody("error_handled")), [])
    else if processorCompletes(body.value) then WebhookReceipt(JsonResponse(200, StatusBody("processed")), [body.value])
    else WebhookReceipt(JsonResponse(200, StatusBody("error_handled")), [body.value])
  }

  /** The receipt always answers 200; it says "processed" exactly when the
      body parsed and its processing completed; the processor runs once per
      parsed event and never for a malformed body. */
  lemma WebhookAlwaysAccepts(body: Option<Json>, processorCompletes: Json -> bool)
    ensures var w := WebhookPost(body, processorCompletes);
      && w.response.JsonResponse? && w.response.status == 200
      && (w.response.body == StatusBody("processed") <==> body.Some? && processorCompletes(body.value))
      && (w.response.body != StatusBody("processed") ==> w.response.body == StatusBody("error_handled"))
      && w.processed == (if body.Some? then [body.value] else [])
  {
    assert StatusBody("processed").fields["status"] != StatusBody("error_handled").fields["status"];
  }

  // ---------------------------------------------------------------------
  // Cron

  const SyncFailed: string := "Erro interno na sincronização"

  /** `${value}` for a variable that may be `undefined`. */
  function Interpolate(value: Option<string>): string
  {
    if value.Some? then value.value else "undefined"
  }

  /** The gate as written: the header must equal "Bearer " followed by the
      interpolated secret, which is "Bearer undefined" when no secret is
      configured. */
  predicate CronGateAsWritten(authorization: Option<string>, secret: Option<string>)
  {
    authorization == Some("Bearer " + Interpolate(secret))
  }

  /** Without a configured secret, the literal header "Bearer undefined"
      passes the gate as written. */
  lemma UnsetSecretOpensGate()
    ensures CronGateAsWritten(Some("Bearer undefined"), None)
  {
    assert "Bearer " + Interpolate(None) == "Bearer undefined";
  }

  /** The gate as intended: a secret must be configured and non-empty, and
      the header must carry exactly it. */
  predicate CronGate(authorization: Option<string>, secret: Option<string>)
  {
    Truthy(secret) && authorization == Some("Bearer " + secret.value)
  }

  /** The intended gate admits only the configured secret, and agrees with
      the gate as written whenever a secret is configured. */
  lemma CronGateSound(authorization: Option<string>, secret: Option<string>)
    ensures CronGate(authorization, secret) ==>
      secret.Some? && secret.value != "" && authorization == Some("Bearer " + secret.value)
    ensures secret == None ==> !CronGate(authorization, secret)
    ensures Truthy(secret) ==> (CronGate(authorization, secret) <==> CronGateAsWritten(authorization, secret))
  {
  }

  function StatusText(s: Status): string
  {
    if s == Fulfilled then "fulfilled" else "rejected"
  }

  function StatusOf(text: string): (s: Option<Status>)
    ensures s.Some? ==> StatusText(s.value) == text
  {
    if text == "fulfilled" then Some(Fulfilled)
    else if text == "rejected" then Some(Status.Rejected)
    else None
  }

  function EncodeDetail(d: Detail): Json
  {
    JObj(map["corredor" := JStr(d.corredor), "status" := JStr(StatusText(d.status)),
             "erro" := if d.erro.Some? then JStr(d.erro.value) else JNull])
  }

  function DecodeDetail(j: Json): Option<Detail>
  {
    if j.JObj? && "corredor" in j.fields && j.fields["corredor"].JStr?
       && "status" in j.fields && j.fields["status"].JStr? && StatusOf(j.fields["status"].s).Some?
       && "erro" in j.fields && (j.fields["erro"].JStr? || j.fields["erro"] == JNull)
    then Some(Detail(j.fields["corredor"].s, StatusOf(j.fields["status"].s).value,
                     if j.fields["erro"].JStr? then Some(j.fields["erro"].s) else None))
    else None
  }

  function DecodeDetails(items: seq<Json>): Option<seq<Detail>>
  {
    if items == [] then Some([])
    else
      var d := DecodeDetail(items[0]);
      var rest := DecodeDetails(items[1..]);
      if d.Some? && rest.Some? then Some([d.value] + rest.value) else None
  }

  /** `NextResponse.json(resultado)`: `detalhes` is present only when the
      report has it. */
  function EncodeReport(r: Report): Json
  {
    JObj(map["mensagem" := JStr(r.mensagem), "total" := JNum(r.total), "sucessos" := JNum(r.sucessos),
             "falhas" := JNum(r.falhas)]
         + (if r.detalhes.Some? then map["detalhes" := JArr(seq(|r.detalhes.value|, i requires 0 <= i < |r.detalhes.value| => EncodeDetail(r.detalhes.value[i])))]
            else map[]))
  }

  function DecodeReport(j: Json): Option<Report>
  {
    if j.JObj? && "mensagem" in j.fields && j.fields["mensagem"].JStr?
       && "total" in j.fields && j.fields["total"].JNum?
       && "sucessos" in j.fields && j.fields["sucessos"].JNum?
       && "falhas" in j.fields && j.fields["falhas"].JNum?
    then
      var base := Report(j.fields["mensagem"].s, j.fields["total"].n, j.fields["sucessos"].n, j.fields["falhas"].n, None);
      if "detalhes" !in j.fields then Some(base)
      else if j.fields["detalhes"].JArr? && DecodeDetails(j.fields["detalhes"].items).Some?
      then Some(base.(detalhes := DecodeDetails(j.fields["detalhes"].items)))
      else None
    else None
  }

  lemma DetailRoundTrip(d: Detail)
    ensures DecodeDetail(EncodeDetail(d)) == Some(d)
  {
    assert StatusOf(StatusText(d.status)) == Some(d.status);
  }

  lemma {:induction false} DetailsRoundTrip(ds: seq<Detail>)
    ensures DecodeDetails(seq(|ds|, i requires 0 <= i < |ds| => EncodeDetail(ds[i]))) == Some(ds)
  {
    var items := seq(|ds|, i requires 0 <= i < |ds| => EncodeDetail(ds[i]));
    if ds != [] {
      DetailRoundTrip(ds[0]);
      DetailsRoundTrip(ds[1..]);
      assert items[1..] == seq(|ds[1..]|, i requires 0 <= i < |ds[1..]| => EncodeDetail(ds[1..][i]));
      assert [ds[0]] + ds[1..] == ds;
    }
  }

  /** The JSON body carries the whole report. */
  lemma ReportRoundTrip(r: Report)
    ensures DecodeReport(EncodeReport(r)) == Some(r)
  {
    var j := EncodeReport(r);
    assert "mensagem" in j.fields && j.fields["mensagem"] == JStr(r.mensagem);
    assert "total" in j.fields && j.fields["total"] == JNum(r.total);
    assert "sucessos" in j.fields && j.fields["sucessos"] == JNum(r.sucessos);
    assert "falhas" in j.fields && j.fields["falhas"] == JNum(r.falhas);
    if r.detalhes.Some? {
      var ds := r.detalhes.value;
      DetailsRoundTrip(ds);
      assert j.fields["detalhes"] == JArr(seq(|ds|, i requires 0 <= i < |ds| => EncodeDetail(ds[i])));
    } else {
      assert "detalhes" !in j.fields;
    }
  }

  /** What `GET` did: its response, and whether the sync was started. */
  datatype CronReply = CronReply(response: HttpResponse, syncStarted: bool)

  /** The handler once the gate has decided, with what `sincronizarTudo`
      yields when run. */
  function CronAnswer(admitted: bool, sync: Result<Report>): CronReply
  {
    if !admitted then CronReply(TextResponse(401, "Unauthorized"), false)
    else if sync.Err? then CronReply(JsonResponse(500, JObj(map["erro" := JStr(SyncFailed)])), true)
    else CronReply(JsonResponse(200, EncodeReport(sync.value)), true)
  }

  /** `GET /api/cron/sync` as written, behind `CronGateAsWritten`. */
  function CronSyncAsWritten(authorization: Option<string>, secret: Option<string>, sync: Result<Report>): CronReply
  {
    CronAnswer(CronGateAsWritten(authorization, secret), sync)
  }

  /** `GET /api/cron/sync` behind the intended gate. */
  function CronSync(authorization: Option<string>, secret: Option<string>, sync: Result<Report>): CronReply
  {
    CronAnswer(CronGate(authorization, secret), sync)
  }

  /** The gate comes first: a refused request is 401 and starts no sync; an
      admitted one answers the report as it came, or 500 with a fixed
      message on any error. */
  lemma CronRule(authorization: Option<string>, secret: Option<string>, sync: Result<Report>)
    ensures var c := CronSync(authorization, secret, sync);
      && (c.syncStarted <==> CronGate(authorization, secret))
      && (!c.syncStarted ==> c.response == TextResponse(401, "Unauthorized"))
      && (c.syncStarted && sync.Ok? ==>
            c.response.JsonResponse? && c.response.status == 200 && DecodeReport(c.response.body) == Some(sync.value))
      && (c.syncStarted && sync.Err? ==>
            c.response == JsonResponse(500, JObj(map["erro" := JStr(SyncFailed)])))
  {
    if sync.Ok? {
      ReportRoundTrip(sync.value);
    }
  }

  /** With no secret configured, the handler as written runs the whole sync
      for a caller that sends "Bearer undefined" and hands it the report;
      behind the intended gate the same request is refused with 401. */
  lemma UnsetSecretRunsSync(sync: Result<Report>)
    ensures var c := CronSyncAsWritten(Some("Bearer undefined"), None, sync);
      && c.syncStarted
      && (sync.Ok? ==>
            c.response.JsonResponse? && c.response.status == 200 && DecodeReport(c.response.body) == Some(sync.value))
    ensures CronSync(Some("Bearer undefined"), None, sync) == CronReply(TextResponse(401, "Unauthorized"), false)
  {
    UnsetSecretOpensGate();
    if sync.Ok? {
      ReportRoundTrip(sync.value);
    }
  }

  // ---------------------------------------------------------------------
  // OAuth callback

  /** What `loginComStrava` threw: an `Error` with its message, or some
      other value. */
  datatype Thrown = ErrorInstance(message: string) | OtherValue

  const UnknownError: string := "Erro desconhecido"

  /** What `GET` did: the redirect, and the code login was attempted with. */
  datatype CallbackReply = CallbackReply(response: HttpResponse, loginWith: Option<string>)

  /** `GET /api/auth/callback` with the query parameters `code` and `error`;
      `login(code)` is `None` when the login completes. */
  function AuthCallback(code: Option<string>, error: Option<string>, login: string -> Option<Thrown>): CallbackReply
  {
    if Truthy(error) then CallbackReply(Redirect("/?error=" + error.value), None)
    else if !Truthy(code) then CallbackReply(Redirect("/?error=missing_code"), None)
    else
      match login(code.value)
      case None => CallbackReply(Redirect("/?success=true"), code)
      case Some(thrown) =>
        var message := if thrown.ErrorInstance? then thrown.message else UnknownError;
        CallbackReply(Redirect("/?error=" + EncodeUriComponent(message)), code)
  }

  /** The guards in order: a provider error wins and skips the login; then a
      missing code; only then is the login attempted, with the code. */
  lemma CallbackGuards(code: Option<string>, error: Option<string>, login: string -> Option<Thrown>)
    ensures var c := AuthCallback(code, error, login);
      && (Truthy(error) ==> c == CallbackReply(Redirect("/?error=" + error.value), None))
      && (!Truthy(error) && !Truthy(code) ==> c == CallbackReply(Redirect("/?error=missing_code"), None))
      && (c.loginWith.Some? <==> !Truthy(error) && Truthy(code))
      && (c.loginWith.Some? ==> c.loginWith == code)
  {
  }

  lemma ErrorTargetIsNotSuccess(encoded: string)
    ensures Redirect("/?error=" + encoded) != Redirect("/?success=true")
  {
    assert ("/?error=" + encoded)[2] == 'e';
  }

  /** An attempted login redirects to success exactly when it completes;
      otherwise to its encoded message, "Erro desconhecido" for a thrown
      value that is not an `Error`. */
  lemma CallbackLoginOutcome(code: Option<string>, error: Option<string>, login: string -> Option<Thrown>)
    requires !Truthy(error) && Truthy(code)
    ensures var c := AuthCallback(code, error, login);
      && (c.response == Redirect("/?success=true") <==> login(code.value).None?)
      && (login(code.value) == Some(OtherValue) ==>
            c.response == Redirect("/?error=" + EncodeUriComponent(UnknownError)))
      && (login(code.value).Some? && login(code.value).value.ErrorInstance? ==>
            c.response == Redirect("/?error=" + EncodeUriComponent(login(code.value).value.message)))
  {
    if login(code.value).Some? {
      var message := if login(code.value).value.ErrorInstance? then login(code.value).value.message else UnknownError;
      ErrorTargetIsNotSuccess(EncodeUriComponent(message));
    }
  }

  // ---------------------------------------------------------------------
  // encodeURIComponent

  /** The characters `encodeURIComponent` leaves as they are. */
  predicate Unreserved(c: char)
  {
    ('A' <= c <= 'Z') || ('a' <= c <= 'z') || ('0' <= c <= '9')
    || c == '-' || c == '_' || c == '.' || c == '!' || c == '~' || c == '*' || c == '\'' || c == '(' || c == ')'
  }

  /** The UTF-8 encoding of one code point: one byte below 0x80, two below
      0x800, three below 0x10000, four above; lead and continuation bytes
      carry the code point's bits, six per continuation byte. */
  function Utf8(c: char): (bytes: seq<int>)
    ensures 1 <= |bytes| <= 4
    ensures forall i :: 0 <= i < |bytes| ==> 0 <= bytes[i] < 256
    ensures forall i :: 1 <= i < |bytes| ==> 0x80 <= bytes[i] < 0xC0
    ensures |bytes| == 1 <==> c as int < 0x80
    ensures |bytes| == 2 <==> 0x80 <= c as int < 0x800
    ensures |bytes| == 3 <==> 0x800 <= c as int < 0x10000
    ensures |bytes| == 1 ==> bytes[0] == c as int
    ensures |bytes| == 2 ==> (0xC0 <= bytes[0] < 0xE0
      && (bytes[0] - 0xC0) * 64 + (bytes[1] - 0x80) == c as int)
    ensures |bytes| == 3 ==> (0xE0 <= bytes[0] < 0xF0
      && ((bytes[0] - 0xE0) * 64 + (bytes[1] - 0x80)) * 64 + (bytes[2] - 0x80) == c as int)
    ensures |bytes| == 4 ==> (0xF0 <= bytes[0] < 0xF8
      && (((bytes[0] - 0xF0) * 64 + (bytes[1] - 0x80)) * 64 + (bytes[2] - 0x80)) * 64 + (bytes[3] - 0x80) == c as int)
  {
    var cp := c as int;
    SplitSixBits(cp);
    SplitSixBits(cp / 64);
    SplitSixBits(cp / 4096);
    if cp < 0x80 then [cp]
    else if cp < 0x800 then [0xC0 + cp / 64, 0x80 + cp % 64]
    else if cp < 0x10000 then [0xE0 + cp / 4096, 0x80 + (cp / 64) % 64, 0x80 + cp % 64]
    else [0xF0 + cp / 262144, 0x80 + (cp / 4096) % 64, 0x80 + (cp / 64) % 64, 0x80 + cp % 64]
  }

  /** A non-negative number is its six low bits plus 64 times the rest. */
  lemma SplitSixBits(x: int)
    requires x >= 0
    ensures x == (x / 64) * 64 + x % 64 && 0 <= x % 64 < 64
    ensures (x / 64) / 64 == x / 4096 && (x / 4096) / 64 == x / 262144
  {
  }

  predicate IsHexDigit(d: char)
  {
    ('0' <= d <= '9') || ('A' <= d <= 'F') || ('a' <= d <= 'f')
  }

  /** The value of a hexadecimal digit, either case. */
  function HexValue(d: char): (v: int)
    requires IsHexDigit(d)
    ensures 0 <= v < 16
  {
    if '0' <= d <= '9' then d as int - '0' as int
    else if 'A' <= d <= 'F' then d as int - 'A' as int + 10
    else d as int - 'a' as int + 10
  }

  /** The upper-case hexadecimal digit for `k`, which reads back as `k`. */
  function HexDigit(k: int): (d: char)
    requires 0 <= k < 16
    ensures ('0' <= d <= '9') || ('A' <= d <= 'F')
    ensures IsHexDigit(d) && HexValue(d) == k
  {
    if k < 10 then ('0' as int + k) as char else ('A' as int + (k - 10)) as char
  }

  /** `%XY` for each byte, upper-case hexadecimal, high digit first. */
  function PercentEncode(bytes: seq<int>): (s: string)
    requires forall i :: 0 <= i < |bytes| ==> 0 <= bytes[i] < 256
    ensures |s| == 3 * |bytes|
    ensures forall i :: 0 <= i < |s| ==> s[i] == '%' || ('0' <= s[i] <= '9') || ('A' <= s[i] <= 'F')
    ensures forall i :: 0 <= i < |bytes| ==>
      s[3 * i] == '%' && s[3 * i + 1] == HexDigit(bytes[i] / 16) && s[3 * i + 2] == HexDigit(bytes[i] % 16)
  {
    if bytes == [] then ""
    else
      var tail := PercentEncode(bytes[1..]);
      TripletsExtend(bytes, tail);
      ['%', HexDigit(bytes[0] / 16), HexDigit(bytes[0] % 16)] + tail
  }

  /** The triplets of the first byte in front of those of the others. */
  lemma TripletsExtend(bytes: seq<int>, tail: string)
    requires bytes != [] && forall i :: 0 <= i < |bytes| ==> 0 <= bytes[i] < 256
    requires |tail| == 3 * (|bytes| - 1)
    requires forall i :: 0 <= i < |bytes| - 1 ==>
      tail[3 * i] == '%' && tail[3 * i + 1] == HexDigit(bytes[1..][i] / 16) && tail[3 * i + 2] == HexDigit(bytes[1..][i] % 16)
    ensures var s := ['%', HexDigit(bytes[0] / 16), HexDigit(bytes[0] % 16)] + tail;
      forall i :: 0 <= i < |bytes| ==>
        s[3 * i] == '%' && s[3 * i + 1] == HexDigit(bytes[i] / 16) && s[3 * i + 2] == HexDigit(bytes[i] % 16)
  {
    var s := ['%', HexDigit(bytes[0] / 16), HexDigit(bytes[0] % 16)] + tail;
    forall i | 1 <= i < |bytes|
      ensures s[3 * i] == '%' && s[3 * i + 1] == HexDigit(bytes[i] / 16) && s[3 * i + 2] == HexDigit(bytes[i] % 16)
    {
      var k := i - 1;
      assert bytes[1..][k] == bytes[i];
      assert s[3 * i] == tail[3 * k] && s[3 * i + 1] == tail[3 * k + 1] && s[3 * i + 2] == tail[3 * k + 2];
    }
  }

  function EncodeChar(c: char): string
  {
    if Unreserved(c) then [c] else PercentEncode(Utf8(c))
  }

  /** `encodeURIComponent(s)`. */
  function EncodeUriComponent(s: string): string
  {
    if s == [] then "" else EncodeChar(s[0]) + EncodeUriComponent(s[1..])
  }

  /** Text made only of unreserved characters and `%`. */
  predicate QuerySafe(t: string)
  {
    forall i :: 0 <= i < |t| ==> Unreserved(t[i]) || t[i] == '%'
  }

  lemma QuerySafeConcat(a: string, b: string)
    requires QuerySafe(a) && QuerySafe(b)
    ensures QuerySafe(a + b)
  {
    forall i | 0 <= i < |a + b| ensures Unreserved((a + b)[i]) || (a + b)[i] == '%' {
      if i >= |a| {
        assert (a + b)[i] == b[i - |a|];
      }
    }
  }

  lemma EncodeCharSafe(c: char)
    ensures QuerySafe(EncodeChar(c))
  {
    if !Unreserved(c) {
      var e := PercentEncode(Utf8(c));
      forall i | 0 <= i < |e| ensures Unreserved(e[i]) || e[i] == '%' {
        assert e[i] == '%' || ('0' <= e[i] <= '9') || ('A' <= e[i] <= 'F');
      }
    }
  }

  /** The encoding yields only unreserved characters and `%`, so the message
      stays a single query value: no `&`, `=`, `#`, `?`, `/` or space. */
  lemma {:induction false} EncodeUriComponentSafe(s: string)
    ensures forall i :: 0 <= i < |EncodeUriComponent(s)| ==>
      Unreserved(EncodeUriComponent(s)[i]) || EncodeUriComponent(s)[i] == '%'
  {
    EncodedIsQuerySafe(s);
  }

  lemma {:induction false} EncodedIsQuerySafe(s: string)
    ensures QuerySafe(EncodeUriComponent(s))
  {
    if s != [] {
      EncodedIsQuerySafe(s[1..]);
      EncodeCharSafe(s[0]);
      QuerySafeConcat(EncodeChar(s[0]), EncodeUriComponent(s[1..]));
    }
  }

  /** Text made of unreserved characters only goes through unchanged. */
  lemma {:induction false} EncodeUriComponentKeepsUnreserved(s: string)
    requires forall i :: 0 <= i < |s| ==> Unreserved(s[i])
    ensures EncodeUriComponent(s) == s
  {
    if s != [] {
      EncodeUriComponentKeepsUnreserved(s[1..]);
      assert [s[0]] + s[1..] == s;
    }
  }

  // ---------------------------------------------------------------------
  // decodeURIComponent, the inverse the redirect target is read back with

  /** The byte written as `%XY` at position `i`, if there is one there. */
  function PctByte(t: string, i: nat): (b: Option<int>)
    ensures b.Some? ==> i + 3 <= |t| && 0 <= b.value < 256
  {
    if i + 3 <= |t| && t[i] == '%' && IsHexDigit(t[i + 1]) && IsHexDigit(t[i + 2])
    then Some(HexValue(t[i + 1]) * 16 + HexValue(t[i + 2]))
    else None
  }

  /** The six payload bits of a `%XY` continuation byte (0x80 to 0xBF) at `i`. */
  function Continuation(t: string, i: nat): (bits: Option<int>)
    ensures bits.Some? ==> i + 3 <= |t| && 0 <= bits.value < 64
  {
    var b := PctByte(t, i);
    if b.Some? && 0x80 <= b.value < 0xC0 then Some(b.value - 0x80) else None
  }

  /** A decoded code point, refused when it is overlong (below `least`),
      beyond U+10FFFF or a surrogate; `k` characters were consumed. */
  function Scalar(cp: int, least: nat, k: nat): (r: Option<(char, nat)>)
    ensures r.Some? ==> r.value.1 == k && r.value.0 as int == cp
    ensures r.None? <==> !(least <= cp <= 0x10FFFF && !(0xD800 <= cp <= 0xDFFF))
  {
    if least <= cp <= 0x10FFFF && !(0xD800 <= cp <= 0xDFFF) then Some((cp as char, k)) else None
  }

  /** The character whose UTF-8 bytes are written as `%XY` triplets at the
      head of `t`, and how many characters they take; `None` when the lead
      byte, a continuation byte or the code point is not valid UTF-8. */
  function DecodeSequence(t: string): (r: Option<(char, nat)>)
    ensures r.Some? ==> 3 <= r.value.1 <= |t|
  {
    var lead := PctByte(t, 0);
    if lead.None? then None
    else
      var b := lead.value;
      var b1 := Continuation(t, 3);
      var b2 := Continuation(t, 6);
      var b3 := Continuation(t, 9);
      if b < 0x80 then Some((b as char, 3))
      else if 0xC0 <= b < 0xE0 then
        if b1.None? then None else Scalar((b - 0xC0) * 64 + b1.value, 0x80, 6)
      else if 0xE0 <= b < 0xF0 then
        if b1.None? || b2.None? then None
        else Scalar(((b - 0xE0) * 64 + b1.value) * 64 + b2.value, 0x800, 9)
      else if 0xF0 <= b < 0xF8 then
        if b1.None? || b2.None? || b3.None? then None
        else Scalar((((b - 0xF0) * 64 + b1.value) * 64 + b2.value) * 64 + b3.value, 0x10000, 12)
      else None
  }

  function Prepend(c: char, r: Option<string>): Option<string>
  {
    if r.None? then None else Some([c] + r.value)
  }

  /** `decodeURIComponent(t)`: characters other than `%` are kept, each
      `%XY` sequence becomes the character it encodes, and a malformed
      sequence (the `URIError` case) yields `None`. */
  function DecodeUriComponent(t: string): Option<string>
    decreases |t|
  {
    if t == [] then Some("")
    else if t[0] != '%' then Prepend(t[0], DecodeUriComponent(t[1..]))
    else
      var d := DecodeSequence(t);
      if d.None? then None else Prepend(d.value.0, DecodeUriComponent(t[d.value.1..]))
  }

  /** The triplet for byte `i` of a percent-encoding reads back as that byte. */
  lemma PctByteOfEncoding(bytes: seq<int>, rest: string, i: nat)
    requires forall j :: 0 <= j < |bytes| ==> 0 <= bytes[j] < 256
    requires i < |bytes|
    ensures PctByte(PercentEncode(bytes) + rest, 3 * i) == Some(bytes[i])
  {
    var e := PercentEncode(bytes);
    var t := e + rest;
    var b := bytes[i];
    var j := 3 * i;
    assert j + 3 <= |e|;
    var hi, lo := HexDigit(b / 16), HexDigit(b % 16);
    assert e[j] == '%' && e[j + 1] == hi && e[j + 2] == lo;
    assert t[j] == '%' && t[j + 1] == hi && t[j + 2] == lo;
    PctByteAt(t, j, b);
  }

  lemma PctByteAt(t: string, j: nat, b: int)
    requires 0 <= b < 256 && j + 3 <= |t|
    requires t[j] == '%' && t[j + 1] == HexDigit(b / 16) && t[j + 2] == HexDigit(b % 16)
    ensures PctByte(t, j) == Some(b)
  {
    HexPair(b);
  }

  lemma HexPair(b: int)
    requires 0 <= b < 256
    ensures HexValue(HexDigit(b / 16)) * 16 + HexValue(HexDigit(b % 16)) == b
  {
  }

  /** The `%XY` triplets of a character's UTF-8 bytes decode to that
      character and take three characters per byte. */
  lemma DecodeSequenceOfChar(c: char, rest: string)
    ensures DecodeSequence(PercentEncode(Utf8(c)) + rest) == Some((c, 3 * |Utf8(c)|))
  {
    var bytes := Utf8(c);
    var t := PercentEncode(bytes) + rest;
    ContinuationsOfEncoding(bytes, rest);
    DecodeSequenceOfBytes(t, c, bytes);
  }

  /** `t` starts with `%XY` triplets whose first byte is `bytes[0]` and
      whose later ones are continuation bytes carrying the payload bits of
      the rest. */
  predicate StartsWithTriplets(t: string, bytes: seq<int>)
  {
    && bytes != []
    && PctByte(t, 0) == Some(bytes[0])
    && forall k :: 1 <= k < |bytes| ==> Continuation(t, 3 * k) == Some(bytes[k] - 0x80)
  }

  /** The first triplet of a percent-encoding reads back as its byte, and
      the later ones, continuation bytes, as their payload bits. */
  lemma ContinuationsOfEncoding(bytes: seq<int>, rest: string)
    requires bytes != [] && forall i :: 0 <= i < |bytes| ==> 0 <= bytes[i] < 256
    requires forall i :: 1 <= i < |bytes| ==> 0x80 <= bytes[i] < 0xC0
    ensures StartsWithTriplets(PercentEncode(bytes) + rest, bytes)
  {
    var t := PercentEncode(bytes) + rest;
    PctByteOfEncoding(bytes, rest, 0);
    forall k | 1 <= k < |bytes| ensures Continuation(t, 3 * k) == Some(bytes[k] - 0x80) {
      PctByteOfEncoding(bytes, rest, k);
      ContinuationAt(t, 3 * k, bytes[k]);
    }
  }

  lemma ContinuationAt(t: string, j: nat, b: int)
    requires PctByte(t, j) == Some(b) && 0x80 <= b < 0xC0
    ensures Continuation(t, j) == Some(b - 0x80)
  {
  }

  /** Text that starts with the `%XY` triplets of a character's UTF-8 bytes
      decodes to that character. */
  lemma DecodeSequenceOfBytes(t: string, c: char, bytes: seq<int>)
    requires bytes == Utf8(c) && StartsWithTriplets(t, bytes)
    ensures DecodeSequence(t) == Some((c, 3 * |bytes|))
  {
    if |bytes| >= 2 { assert Continuation(t, 3) == Some(bytes[1] - 0x80); }
    if |bytes| >= 3 { assert Continuation(t, 6) == Some(bytes[2] - 0x80); }
    if |bytes| >= 4 { assert Continuation(t, 9) == Some(bytes[3] - 0x80); }
  }

  /** Decoding an encoded character followed by anything gives that
      character followed by the decoding of the rest. */
  lemma DecodeEncodedChar(c: char, rest: string)
    ensures DecodeUriComponent(EncodeChar(c) + rest) == Prepend(c, DecodeUriComponent(rest))
  {
    var t := EncodeChar(c) + rest;
    if Unreserved(c) {
      assert t[0] == c && t[1..] == rest;
    } else {
      DecodeSequenceOfChar(c, rest);
      var k := 3 * |Utf8(c)|;
      assert t[0] == PercentEncode(Utf8(c))[0] == '%';
      assert t[k..] == rest;
    }
  }

  /** `decodeURIComponent(encodeURIComponent(s)) == s`: the error message
      placed in the redirect is read back exactly. */
  lemma {:induction false} DecodeEncodeUriComponent(s: string)
    ensures DecodeUriComponent(EncodeUriComponent(s)) == Some(s)
  {
    if s != [] {
      DecodeEncodeUriComponent(s[1..]);
      DecodeEncodedChar(s[0], EncodeUriComponent(s[1..]));
      assert [s[0]] + s[1..] == s;
    }
  }

  /** Distinct messages give distinct redirect targets. */
  lemma EncodeUriComponentInjective(s1: string, s2: string)
    requires EncodeUriComponent(s1) == EncodeUriComponent(s2)
    ensures s1 == s2
  {
    DecodeEncodeUriComponent(s1);
    DecodeEncodeUriComponent(s2);
  }
}

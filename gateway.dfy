/** The Strava HTTP client, as an oracle: what each endpoint answers for
    given arguments is fixed in advance; the client turns the answer into
    a value or an error, and records every call it makes. */
module Gateway {
  import opened Outcome
  import opened Json
  import opened RunnerSchema
  import opened ActivitySchema

  /** What a `fetch` yields: a 2xx response with its parsed JSON body, a
      non-2xx response with its text, or a thrown network error. */
  datatype Reply<+T> = Delivered(body: T) | Rejected(text: string) | Unreachable(message: string)

  /** The three credential fields a token response carries. */
  datatype Credential = Credential(accessToken: string, refreshToken: string, expiresAt: int)

  /** The endpoints' answers. `refresh` yields the credential fields of the
      body directly, because the client casts that body without checking it.
      `rejection` is the message of the error zod throws on a body that does
      not fit its schema. */
  datatype Oracle = Oracle(
    exchange: string -> Reply<Json>,
    refresh: string -> Reply<Credential>,
    activities: (string, int) -> Reply<Json>,
    formats: Formats,
    rejection: string)

  datatype Call = ExchangeCode(code: string) | RefreshToken(refreshToken: string) | ListActivities(accessToken: string, after: int)

  /** `trocarCodigoPorToken`: exchange an authorization code, validating the
      body against the token-response schema. */
  function ExchangeResult(o: Oracle, code: string): (r: Result<TokenResponse>)
    ensures r.Ok? <==> o.exchange(code).Delivered? && ParseTokenResponse(o.formats, o.exchange(code).body).Some?
    ensures r.Ok? ==> ValidTokenResponse(o.formats, r.value)
    ensures r.Ok? ==> r.value == ParseTokenResponse(o.formats, o.exchange(code).body).value
    ensures o.exchange(code).Rejected? ==> r == Err("Falha ao trocar código por token no Strava: " + o.exchange(code).text)
  {
    match o.exchange(code)
    case Rejected(text) => Err("Falha ao trocar código por token no Strava: " + text)
    case Unreachable(message) => Err(message)
    case Delivered(body) =>
      var t := ParseTokenResponse(o.formats, body);
      if t.Some? then Ok(t.value) else Err(o.rejection)
  }

  /** `atualizarToken`: refresh grant, body cast without validation. */
  function RefreshResult(o: Oracle, refreshToken: string): (r: Result<Credential>)
    ensures r.Ok? <==> o.refresh(refreshToken).Delivered?
    ensures r.Ok? ==> r.value == o.refresh(refreshToken).body
    ensures o.refresh(refreshToken).Rejected? ==> r == Err("Falha ao atualizar token no Strava: " + o.refresh(refreshToken).text)
  {
    match o.refresh(refreshToken)
    case Rejected(text) => Err("Falha ao atualizar token no Strava: " + text)
    case Unreachable(message) => Err(message)
    case Delivered(c) => Ok(c)
  }

  /** `buscarAtividades`: the activities after the cursor, validated as an
      array of activities, all or nothing. */
  function ActivitiesResult(o: Oracle, accessToken: string, after: int): (r: Result<seq<StravaActivity>>)
    ensures r.Ok? ==> forall i :: 0 <= i < |r.value| ==> ValidActivity(o.formats, r.value[i])
    ensures r.Ok? <==>
      && o.activities(accessToken, after).Delivered?
      && o.activities(accessToken, after).body.JArr?
      && ParseActivities(o.formats, o.activities(accessToken, after).body.items).Some?
    ensures r.Ok? ==> r.value == ParseActivities(o.formats, o.activities(accessToken, after).body.items).value
  {
    match o.activities(accessToken, after)
    case Rejected(text) => Err("Falha ao buscar atividades no Strava: " + text)
    case Unreachable(message) => Err(message)
    case Delivered(body) =>
      if body.JArr? && ParseActivities(o.formats, body.items).Some?
      then
        var acts := ParseActivities(o.formats, body.items).value;
        assert forall i :: 0 <= i < |acts| ==> ValidActivity(o.formats, acts[i]) by {
          forall i | 0 <= i < |acts| ensures ValidActivity(o.formats, acts[i]) {
            assert ParseActivity(o.formats, body.items[i]) == Some(acts[i]);
          }
        }
        Ok(acts)
      else Err(o.rejection)
  }

  class StravaGateway {
    const oracle: Oracle
    /** Every request made, in order. */
    ghost var log: seq<Call>

    constructor(oracle: Oracle)
      ensures this.oracle == oracle && log == []
    {
      this.oracle := oracle;
      log := [];
    }

    method TrocarCodigoPorToken(code: string) returns (r: Result<TokenResponse>)
      modifies this`log
      ensures log == old(log) + [ExchangeCode(code)]
      ensures r == ExchangeResult(oracle, code)
      ensures r.Ok? ==> r.value == ParseTokenResponse(oracle.formats, oracle.exchange(code).body).value
    {
      log := log + [ExchangeCode(code)];
      r := ExchangeResult(oracle, code);
    }

    method AtualizarToken(refreshToken: string) returns (r: Result<Credential>)
      modifies this`log
      ensures log == old(log) + [RefreshToken(refreshToken)]
      ensures r == RefreshResult(oracle, refreshToken)
    {
      log := log + [RefreshToken(refreshToken)];
      r := RefreshResult(oracle, refreshToken);
    }

    method BuscarAtividades(accessToken: string, after: int) returns (r: Result<seq<StravaActivity>>)
      modifies this`log
      ensures log == old(log) + [ListActivities(accessToken, after)]
      ensures r == ActivitiesResult(oracle, accessToken, after)
      ensures r.Ok? ==> r.value == ParseActivities(oracle.formats, oracle.activities(accessToken, after).body.items).value
    {
      log := log + [ListActivities(accessToken, after)];
      r := ActivitiesResult(oracle, accessToken, after);
    }
  }
}

/** The zod schemas of the Strava athlete and of the OAuth token response,
    as datatypes with validity predicates, a parser that fails closed and an
    encoder that is its inverse. */
module RunnerSchema {
  import opened Outcome
  import opened Json

  /** The syntax checks zod applies to strings, left abstract:
      `z.string().datetime()` and `z.string().url()`. */
  datatype Formats = Formats(isDatetime: string -> bool, isUrl: string -> bool)

  /** The placeholder Strava sends for athletes without a photo. */
  const DefaultAvatar: string := "avatar/athlete/large.png"

  datatype Athlete = Athlete(id: int, firstname: string, lastname: string, profile: Option<string>)

  datatype TokenResponse = TokenResponse(
    tokenType: string,
    expiresAt: int,
    expiresIn: int,
    refreshToken: string,
    accessToken: string,
    athlete: Athlete)

  /** `profile`: absent, a URL, or the literal placeholder. */
  predicate ValidProfile(f: Formats, p: Option<string>)
  {
    p.None? || f.isUrl(p.value) || p.value == DefaultAvatar
  }

  predicate ValidAthlete(f: Formats, a: Athlete)
  {
    ValidProfile(f, a.profile)
  }

  /** `token_type` is the literal `"Bearer"` and the athlete is valid. */
  predicate ValidTokenResponse(f: Formats, t: TokenResponse)
  {
    t.tokenType == "Bearer" && ValidAthlete(f, t.athlete)
  }

  /** `z.string().url().optional().or(z.literal(DefaultAvatar))` on key
      `profile`: the first alternative accepts an absent key or a URL, the
      second the placeholder. */
  function ParseProfile(f: Formats, o: map<string, Json>): (r: Option<Option<string>>)
    ensures r.Some? ==> ValidProfile(f, r.value)
    ensures r == Some(None) <==> "profile" !in o
    ensures r.Some? && r.value.Some? ==> o["profile"] == JStr(r.value.value)
  {
    if "profile" !in o then Some(None)
    else if o["profile"].JStr? && (f.isUrl(o["profile"].s) || o["profile"].s == DefaultAvatar)
    then Some(Some(o["profile"].s))
    else None
  }

  /** `SchemaAtletaStrava.parse`. */
  function ParseAthlete(f: Formats, j: Json): (r: Option<Athlete>)
    ensures r.Some? ==> ValidAthlete(f, r.value)
  {
    if !j.JObj? then None
    else
      var o := j.fields;
      var id := NumberAt(o, "id");
      var first := StringAt(o, "firstname");
      var last := StringAt(o, "lastname");
      var profile := ParseProfile(f, o);
      if id.Some? && first.Some? && last.Some? && profile.Some?
      then Some(Athlete(id.value, first.value, last.value, profile.value))
      else None
  }

  /** `SchemaRespostaTokenStrava.parse`. */
  function ParseTokenResponse(f: Formats, j: Json): (r: Option<TokenResponse>)
    ensures r.Some? ==> ValidTokenResponse(f, r.value)
  {
    if !j.JObj? then None
    else
      var o := j.fields;
      var expiresAt := NumberAt(o, "expires_at");
      var expiresIn := NumberAt(o, "expires_in");
      var refresh := StringAt(o, "refresh_token");
      var access := StringAt(o, "access_token");
      var athlete := if "athlete" in o then ParseAthlete(f, o["athlete"]) else None;
      if StringAt(o, "token_type") == Some("Bearer")
        && expiresAt.Some? && expiresIn.Some? && refresh.Some? && access.Some? && athlete.Some?
      then Some(TokenResponse("Bearer", expiresAt.value, expiresIn.value, refresh.value, access.value, athlete.value))
      else None
  }

  function EncodeAthlete(a: Athlete): Json
  {
    var base := map["id" := JNum(a.id), "firstname" := JStr(a.firstname), "lastname" := JStr(a.lastname)];
    JObj(if a.profile.Some? then base["profile" := JStr(a.profile.value)] else base)
  }

  function EncodeTokenResponse(t: TokenResponse): Json
  {
    JObj(map[
      "token_type" := JStr(t.tokenType),
      "expires_at" := JNum(t.expiresAt),
      "expires_in" := JNum(t.expiresIn),
      "refresh_token" := JStr(t.refreshToken),
      "access_token" := JStr(t.accessToken),
      "athlete" := EncodeAthlete(t.athlete)])
  }

  /** Every valid athlete survives encoding and parsing. */
  lemma AthleteRoundTrip(f: Formats, a: Athlete)
    requires ValidAthlete(f, a)
    ensures ParseAthlete(f, EncodeAthlete(a)) == Some(a)
  {
  }

  /** What the parser accepts is valid and is its input with unknown keys
      stripped. */
  lemma ParseAthleteSound(f: Formats, j: Json)
    requires ParseAthlete(f, j).Some?
    ensures EmbeddedIn(EncodeAthlete(ParseAthlete(f, j).value), j)
  {
  }

  /** Every valid token response survives encoding and parsing. */
  lemma TokenResponseRoundTrip(f: Formats, t: TokenResponse)
    requires ValidTokenResponse(f, t)
    ensures ParseTokenResponse(f, EncodeTokenResponse(t)) == Some(t)
  {
    AthleteRoundTrip(f, t.athlete);
  }

  /** What the parser accepts is its input with unknown keys stripped. */
  lemma ParseTokenResponseSound(f: Formats, j: Json)
    requires ParseTokenResponse(f, j).Some?
    ensures EmbeddedIn(EncodeTokenResponse(ParseTokenResponse(f, j).value), j)
  {
    var t := ParseTokenResponse(f, j).value;
    var e := EncodeTokenResponse(t).fields;
    ParseAthleteSound(f, j.fields["athlete"]);
    forall k | k in e ensures k in j.fields && EmbeddedIn(e[k], j.fields[k]) {
      if k != "athlete" {
        assert e[k] == j.fields[k];
      }
    }
  }

  /** A token response whose `token_type` is anything but `"Bearer"` is
      rejected, however well-formed the rest is. */
  lemma TokenTypeMustBeBearer(f: Formats, j: Json)
    requires j.JObj? && "token_type" in j.fields && j.fields["token_type"] != JStr("Bearer")
    ensures ParseTokenResponse(f, j).None?
  {
  }

  /** A response without a well-formed nested athlete is rejected. */
  lemma TokenResponseNeedsAthlete(f: Formats, j: Json)
    requires j.JObj? && ("athlete" !in j.fields || ParseAthlete(f, j.fields["athlete"]).None?)
    ensures ParseTokenResponse(f, j).None?
  {
  }

  /** The required fields must carry values of the declared JSON types. */
  lemma TokenResponseFieldTypes(f: Formats, j: Json)
    requires ParseTokenResponse(f, j).Some?
    ensures j.fields["expires_at"].JNum? && j.fields["expires_in"].JNum?
    ensures j.fields["refresh_token"].JStr? && j.fields["access_token"].JStr?
    ensures j.fields["athlete"].JObj?
    ensures j.fields["athlete"].fields["id"].JNum?
    ensures j.fields["athlete"].fields["firstname"].JStr? && j.fields["athlete"].fields["lastname"].JStr?
  {
  }

  /** `profile` may be the placeholder, which is not a URL. */
  lemma PlaceholderProfileAccepted(f: Formats, id: int, first: string, last: string)
    ensures ParseAthlete(f, EncodeAthlete(Athlete(id, first, last, Some(DefaultAvatar))))
         == Some(Athlete(id, first, last, Some(DefaultAvatar)))
  {
  }

  /** A scalar embeds only in itself. */
  lemma EmbeddedScalar(e: Json, j: Json)
    requires !e.JObj? && EmbeddedIn(e, j)
    ensures j == e
  {
  }

  /** An athlete without a `profile` leaves the key out: zod would read a
      present `profile` as that value. */
  predicate AthleteKeysAbsent(a: Athlete, o: map<string, Json>)
  {
    a.profile.None? ==> "profile" !in o
  }

  /** The other direction: zod strips unknown keys rather than rejecting
      them, so any object that carries a valid athlete's keys, with any
      extra keys beside them, parses to that athlete. */
  lemma ParseAthleteAcceptsExtraKeys(f: Formats, a: Athlete, j: Json)
    requires ValidAthlete(f, a) && j.JObj? && EmbeddedIn(EncodeAthlete(a), j)
    requires AthleteKeysAbsent(a, j.fields)
    ensures ParseAthlete(f, j) == Some(a)
  {
    var e := EncodeAthlete(a).fields;
    assert "id" in e && "firstname" in e && "lastname" in e;
    EmbeddedScalar(e["id"], j.fields["id"]);
    EmbeddedScalar(e["firstname"], j.fields["firstname"]);
    EmbeddedScalar(e["lastname"], j.fields["lastname"]);
    if a.profile.Some? {
      assert "profile" in e;
      EmbeddedScalar(e["profile"], j.fields["profile"]);
    }
  }

  /** The scalar keys of a token response's encoding keep their values in any object it is embedded in. */
  lemma TokenScalarsOfEmbedded(t: TokenResponse, o: map<string, Json>)
    requires EmbeddedIn(EncodeTokenResponse(t), JObj(o))
    ensures StringAt(o, "token_type") == Some(t.tokenType)
    ensures NumberAt(o, "expires_at") == Some(t.expiresAt) && NumberAt(o, "expires_in") == Some(t.expiresIn)
    ensures StringAt(o, "refresh_token") == Some(t.refreshToken) && StringAt(o, "access_token") == Some(t.accessToken)
  {
    var e := EncodeTokenResponse(t).fields;
    assert "token_type" in e && "expires_at" in e && "expires_in" in e;
    assert "refresh_token" in e && "access_token" in e;
    EmbeddedScalar(e["token_type"], o["token_type"]);
    EmbeddedScalar(e["expires_at"], o["expires_at"]);
    EmbeddedScalar(e["expires_in"], o["expires_in"]);
    EmbeddedScalar(e["refresh_token"], o["refresh_token"]);
    EmbeddedScalar(e["access_token"], o["access_token"]);
  }

  /** The same for a token response, whose nested athlete may carry extra
      keys too. */
  lemma ParseTokenResponseAcceptsExtraKeys(f: Formats, t: TokenResponse, j: Json)
    requires ValidTokenResponse(f, t) && j.JObj? && EmbeddedIn(EncodeTokenResponse(t), j)
    requires "athlete" in j.fields && j.fields["athlete"].JObj? && AthleteKeysAbsent(t.athlete, j.fields["athlete"].fields)
    ensures ParseTokenResponse(f, j) == Some(t)
  {
    var e := EncodeTokenResponse(t).fields;
    assert "athlete" in e;
    TokenScalarsOfEmbedded(t, j.fields);
    ParseAthleteAcceptsExtraKeys(f, t.athlete, j.fields["athlete"]);
  }
}

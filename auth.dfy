/** `ServicoAutenticacao`: login through Strava OAuth for runners already in
    the store, and access tokens kept fresh with a five-minute margin. */
module Auth {
  import opened Outcome
  import opened Time
  import opened Store
  import opened RunnerSchema
  import opened Gateway

  /** A stored token counts as fresh only if it outlives now by more than this. */
  const RefreshMarginSeconds: int := 300

  const RunnerNotFoundForRefresh: string := "Corredor não encontrado para atualização de token"
  const AccessDenied: string :=
    "Acesso negado: Você não está cadastrado no sistema. Solicite um convite ao administrador."
  const LookupErrorPrefix: string := "Erro ao verificar corredor: "
  const UpdateErrorPrefix: string := "Erro ao atualizar credenciais: "

  /** What one service call does: its result, the tables afterwards, and the
      gateway calls it made, in order. */
  datatype Step<+T> = Step(result: Result<T>, tables: Tables, calls: seq<Call>)

  /** The comparison is strict: expiring exactly at the margin is stale. */
  predicate IsFresh(expiraEm: int, agora: int)
  {
    expiraEm > agora + RefreshMarginSeconds
  }

  /** The three credential columns, nothing else. */
  function CredentialPatch(c: Credential): RunnerPatch
  {
    RunnerPatch(c.accessToken, c.refreshToken, c.expiresAt, None, None)
  }

  /** The columns a login writes: credentials, display name and avatar. */
  function LoginPatch(t: TokenResponse): RunnerPatch
  {
    RunnerPatch(t.accessToken, t.refreshToken, t.expiresAt,
                Some(t.athlete.firstname + " " + t.athlete.lastname), t.athlete.profile)
  }

  /** `garantirTokenValido(stravaId)`. The error of the credential update is
      not checked: a failed update still returns the new token. */
  function GarantirTokenValidoSpec(t: Tables, faults: Faults, o: Oracle, stravaId: int, clock: Clock): Step<string>
  {
    match LookupRunner(t, faults, stravaId)
    case NoRows => Step(Err(RunnerNotFoundForRefresh), t, [])
    case LookupFailed(_) => Step(Err(RunnerNotFoundForRefresh), t, [])
    case Found(c) =>
      if IsFresh(c.expiraEm, EpochSeconds(clock.nowMs)) then Step(Ok(c.tokenAcesso), t, [])
      else
        var calls := [RefreshToken(c.tokenAtualizacao)];
        match RefreshResult(o, c.tokenAtualizacao)
        case Err(e) => Step(Err(e), t, calls)
        case Ok(novos) =>
          Step(Ok(novos.accessToken), UpdateRunnerRow(t, faults, stravaId, CredentialPatch(novos)).tables, calls)
  }

  datatype LoginResult = LoginResult(sucesso: bool, corredor: Athlete)

  /** `loginComStrava(codigo)`. */
  function LoginComStravaSpec(t: Tables, faults: Faults, o: Oracle, codigo: string): Step<LoginResult>
  {
    var calls := [ExchangeCode(codigo)];
    match ExchangeResult(o, codigo)
    case Err(e) => Step(Err(e), t, calls)
    case Ok(tok) =>
      match LookupRunner(t, faults, tok.athlete.id)
      case LookupFailed(message) => Step(Err(LookupErrorPrefix + message), t, calls)
      case NoRows => Step(Err(AccessDenied), t, calls)
      case Found(_) =>
        var w := UpdateRunnerRow(t, faults, tok.athlete.id, LoginPatch(tok));
        if w.error.Some? then Step(Err(UpdateErrorPrefix + w.error.value), t, calls)
        else Step(Ok(LoginResult(true, tok.athlete)), w.tables, calls)
  }

  // ---------------------------------------------------------------------
  // Token freshness

  /** A missing runner or a failed lookup is an error, with no other effect. */
  lemma MissingRunnerRejected(t: Tables, faults: Faults, o: Oracle, id: int, clock: Clock)
    requires !LookupRunner(t, faults, id).Found?
    ensures GarantirTokenValidoSpec(t, faults, o, id, clock) == Step(Err(RunnerNotFoundForRefresh), t, [])
  {
  }

  /** A fresh stored token is returned as it is: no refresh call, no write. */
  lemma FreshTokenReturnedUnchanged(t: Tables, faults: Faults, o: Oracle, id: int, clock: Clock)
    requires LookupRunner(t, faults, id).Found?
    requires IsFresh(t.corredores[id].expiraEm, EpochSeconds(clock.nowMs))
    ensures GarantirTokenValidoSpec(t, faults, o, id, clock) == Step(Ok(t.corredores[id].tokenAcesso), t, [])
  {
  }

  /** A stale token causes exactly one refresh call, with the stored
      refresh token. */
  lemma StaleTokenRefreshedOnce(t: Tables, faults: Faults, o: Oracle, id: int, clock: Clock)
    requires LookupRunner(t, faults, id).Found?
    requires !IsFresh(t.corredores[id].expiraEm, EpochSeconds(clock.nowMs))
    ensures GarantirTokenValidoSpec(t, faults, o, id, clock).calls == [RefreshToken(t.corredores[id].tokenAtualizacao)]
  {
  }

  /** Expiring exactly at now + 300 s already triggers a refresh. */
  lemma MarginIsStrict(t: Tables, faults: Faults, o: Oracle, id: int, clock: Clock)
    requires LookupRunner(t, faults, id).Found?
    requires t.corredores[id].expiraEm == EpochSeconds(clock.nowMs) + 300
    ensures GarantirTokenValidoSpec(t, faults, o, id, clock).calls == [RefreshToken(t.corredores[id].tokenAtualizacao)]
  {
  }

  /** A successful refresh returns the new access token and overwrites the
      three credential columns of that runner only. */
  lemma RefreshOverwritesCredentials(t: Tables, faults: Faults, o: Oracle, id: int, clock: Clock)
    requires LookupRunner(t, faults, id).Found?
    requires !IsFresh(t.corredores[id].expiraEm, EpochSeconds(clock.nowMs))
    requires o.refresh(t.corredores[id].tokenAtualizacao).Delivered?
    requires UpdateRunner(id) !in faults
    ensures var s := GarantirTokenValidoSpec(t, faults, o, id, clock);
      var novos := o.refresh(t.corredores[id].tokenAtualizacao).body;
      && s.result == Ok(novos.accessToken)
      && s.tables.atividades == t.atividades
      && s.tables.corredores.Keys == t.corredores.Keys
      && s.tables.corredores[id] == t.corredores[id].(tokenAcesso := novos.accessToken,
                                                      tokenAtualizacao := novos.refreshToken,
                                                      expiraEm := novos.expiresAt)
      && forall k :: k in t.corredores && k != id ==> s.tables.corredores[k] == t.corredores[k]
  {
  }

  /** A failed refresh is rethrown and the stored credentials stay. */
  lemma RefreshFailureKeepsStore(t: Tables, faults: Faults, o: Oracle, id: int, clock: Clock)
    requires LookupRunner(t, faults, id).Found?
    requires !IsFresh(t.corredores[id].expiraEm, EpochSeconds(clock.nowMs))
    requires !o.refresh(t.corredores[id].tokenAtualizacao).Delivered?
    ensures var s := GarantirTokenValidoSpec(t, faults, o, id, clock);
      s.result == Err(RefreshResult(o, t.corredores[id].tokenAtualizacao).error) && s.tables == t
  {
  }

  /** Whatever happens, only the credential columns of `id` can change. */
  lemma TokenCallTouchesOnlyCredentials(t: Tables, faults: Faults, o: Oracle, id: int, clock: Clock)
    ensures var s := GarantirTokenValidoSpec(t, faults, o, id, clock);
      && s.tables.atividades == t.atividades
      && s.tables.corredores.Keys == t.corredores.Keys
      && forall k :: k in t.corredores ==>
           var before, after := t.corredores[k], s.tables.corredores[k];
           after == before.(tokenAcesso := after.tokenAcesso, tokenAtualizacao := after.tokenAtualizacao,
                            expiraEm := after.expiraEm)
           && (k != id ==> after == before)
  {
  }

  /** After a refresh that was stored and yields a token valid beyond the
      margin, asking again at the same time needs no further call. */
  lemma RefreshedTokenIsFresh(t: Tables, faults: Faults, o: Oracle, id: int, clock: Clock)
    requires LookupRunner(t, faults, id).Found?
    requires !IsFresh(t.corredores[id].expiraEm, EpochSeconds(clock.nowMs))
    requires o.refresh(t.corredores[id].tokenAtualizacao).Delivered?
    requires IsFresh(o.refresh(t.corredores[id].tokenAtualizacao).body.expiresAt, EpochSeconds(clock.nowMs))
    requires UpdateRunner(id) !in faults
    ensures var first := GarantirTokenValidoSpec(t, faults, o, id, clock);
      var second := GarantirTokenValidoSpec(first.tables, faults, o, id, clock);
      second == Step(first.result, first.tables, [])
  {
    RefreshOverwritesCredentials(t, faults, o, id, clock);
  }

  /** When the update behind a refresh fails, the new token is still
      returned while the store keeps the old, now rotated, credentials. */
  lemma IgnoredUpdateErrorKeepsOldCredentials(t: Tables, faults: Faults, o: Oracle, id: int, clock: Clock)
    requires LookupRunner(t, faults, id).Found?
    requires !IsFresh(t.corredores[id].expiraEm, EpochSeconds(clock.nowMs))
    requires o.refresh(t.corredores[id].tokenAtualizacao).Delivered?
    requires UpdateRunner(id) in faults
    ensures var s := GarantirTokenValidoSpec(t, faults, o, id, clock);
      s.result == Ok(o.refresh(t.corredores[id].tokenAtualizacao).body.accessToken) && s.tables == t
  {
  }

  // ---------------------------------------------------------------------
  // Login

  /** Login never adds or removes a runner. */
  lemma LoginNeverCreatesRunners(t: Tables, faults: Faults, o: Oracle, codigo: string)
    ensures LoginComStravaSpec(t, faults, o, codigo).tables.corredores.Keys == t.corredores.Keys
    ensures LoginComStravaSpec(t, faults, o, codigo).tables.atividades == t.atividades
  {
  }

  /** An athlete who is not in the store is refused and nothing is written. */
  lemma LoginDeniedForUnknownAthlete(t: Tables, faults: Faults, o: Oracle, codigo: string)
    requires ExchangeResult(o, codigo).Ok?
    requires LookupRunner(t, faults, ExchangeResult(o, codigo).value.athlete.id).NoRows?
    ensures LoginComStravaSpec(t, faults, o, codigo) == Step(Err(AccessDenied), t, [ExchangeCode(codigo)])
  {
  }

  /** Login succeeds exactly when the code exchange, the lookup and the
      update all succeed; on any failure nothing is written. */
  lemma LoginSucceedsIff(t: Tables, faults: Faults, o: Oracle, codigo: string)
    ensures var s := LoginComStravaSpec(t, faults, o, codigo);
      && (s.result.Ok? <==>
           && ExchangeResult(o, codigo).Ok?
           && LookupRunner(t, faults, ExchangeResult(o, codigo).value.athlete.id).Found?
           && UpdateRunner(ExchangeResult(o, codigo).value.athlete.id) !in faults)
      && (s.result.Err? ==> s.tables == t)
      && s.calls == [ExchangeCode(codigo)]
  {
  }

  /** The lookup and update errors are reported with their own prefixes. */
  lemma LoginStoreErrors(t: Tables, faults: Faults, o: Oracle, codigo: string)
    requires ExchangeResult(o, codigo).Ok?
    ensures var id := ExchangeResult(o, codigo).value.athlete.id;
      var s := LoginComStravaSpec(t, faults, o, codigo);
      && (SelectRunner(id) in faults ==> s.result == Err(LookupErrorPrefix + faults[SelectRunner(id)]))
      && (LookupRunner(t, faults, id).Found? && UpdateRunner(id) in faults ==>
            s.result == Err(UpdateErrorPrefix + faults[UpdateRunner(id)]))
  {
  }

  /** A successful login writes the new credentials, the name
      "firstname lastname" and, when Strava sent one, the avatar. */
  lemma LoginSuccessUpdatesProfile(t: Tables, faults: Faults, o: Oracle, codigo: string)
    requires LoginComStravaSpec(t, faults, o, codigo).result.Ok?
    ensures var tok := ExchangeResult(o, codigo).value;
      var a := tok.athlete;
      var s := LoginComStravaSpec(t, faults, o, codigo);
      && s.result == Ok(LoginResult(true, a))
      && a.id in t.corredores
      && s.tables.corredores[a.id] == t.corredores[a.id].(
           tokenAcesso := tok.accessToken, tokenAtualizacao := tok.refreshToken, expiraEm := tok.expiresAt,
           nome := a.firstname + " " + a.lastname,
           urlAvatar := if a.profile.Some? then a.profile else t.corredores[a.id].urlAvatar)
      && forall k :: k in t.corredores && k != a.id ==> s.tables.corredores[k] == t.corredores[k]
  {
  }

  /** Token checks and logins keep every row under its own key. */
  lemma StepsKeepKeys(t: Tables, faults: Faults, o: Oracle, id: int, codigo: string, clock: Clock)
    requires WellKeyed(t)
    ensures WellKeyed(GarantirTokenValidoSpec(t, faults, o, id, clock).tables)
    ensures WellKeyed(LoginComStravaSpec(t, faults, o, codigo).tables)
  {
  }

  class AuthService {
    const db: Database
    const gateway: StravaGateway

    constructor(db: Database, gateway: StravaGateway)
      ensures this.db == db && this.gateway == gateway
    {
      this.db := db;
      this.gateway := gateway;
    }

    method GarantirTokenValido(stravaId: int, clock: Clock) returns (r: Result<string>)
      requires db.Valid()
      modifies db`corredores, gateway`log
      ensures db.Valid()
      ensures var s := GarantirTokenValidoSpec(old(db.TablesNow()), db.faults, gateway.oracle, stravaId, clock);
        r == s.result && db.TablesNow() == s.tables && gateway.log == old(gateway.log) + s.calls
    {
      var corredor := db.SelectRunner(stravaId);
      if !corredor.Found? {
        return Err(RunnerNotFoundForRefresh);
      }
      var c := corredor.runner;
      var agora := EpochSeconds(clock.nowMs);
      if IsFresh(c.expiraEm, agora) {
        return Ok(c.tokenAcesso);
      }
      var novosTokens := gateway.AtualizarToken(c.tokenAtualizacao);
      if novosTokens.Err? {
        return Err(novosTokens.error);
      }
      var unchecked := db.UpdateRunner(stravaId, CredentialPatch(novosTokens.value));
      r := Ok(novosTokens.value.accessToken);
    }

    method LoginComStrava(codigo: string) returns (r: Result<LoginResult>)
      requires db.Valid()
      modifies db`corredores, gateway`log
      ensures db.Valid()
      ensures var s := LoginComStravaSpec(old(db.TablesNow()), db.faults, gateway.oracle, codigo);
        r == s.result && db.TablesNow() == s.tables && gateway.log == old(gateway.log) + s.calls
    {
      var dadosToken := gateway.TrocarCodigoPorToken(codigo);
      if dadosToken.Err? {
        return Err(dadosToken.error);
      }
      var athlete := dadosToken.value.athlete;
      var existente := db.SelectRunner(athlete.id);
      if existente.LookupFailed? {
        return Err(LookupErrorPrefix + existente.message);
      }
      if existente.NoRows? {
        return Err(AccessDenied);
      }
      var erroAtualizacao := db.UpdateRunner(athlete.id, LoginPatch(dadosToken.value));
      if erroAtualizacao.Some? {
        return Err(UpdateErrorPrefix + erroAtualizacao.value);
      }
      r := Ok(LoginResult(true, athlete));
    }
  }
}

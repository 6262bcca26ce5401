/** `ServicoSincronizacao`: for every active runner, make sure the token is
    valid, list the activities since 1 January of the current local year,
    and upsert the runs among them. */
module Sync {
  import opened Outcome
  import opened Time
  import opened Store
  import opened ActivitySchema
  import opened Gateway
  import opened Auth

  const SelectErrorPrefix: string := "Erro ao buscar corredores: "
  const SaveErrorPrefix: string := "Erro ao salvar atividades: "
  const NoActiveRunners: string := "Nenhum corredor ativo para sincronizar"
  const SyncDone: string := "Sincronização concluída"
  const RunType: string := "Run"

  /** The activities of type "Run", in their order. */
  function RunsOf(acts: seq<StravaActivity>): (runs: seq<StravaActivity>)
    ensures |runs| <= |acts|
    ensures forall a :: a in runs <==> a in acts && a.activityType == RunType
    decreases |acts|
  {
    if acts == [] then []
    else
      var last := acts[|acts| - 1];
      assert acts == acts[..|acts| - 1] + [last];
      RunsOf(acts[..|acts| - 1]) + (if last.activityType == RunType then [last] else [])
  }

  /** The row stored for activity `a` of runner `corredorId`. */
  function RowOf(a: StravaActivity, corredorId: int): ActivityRow
  {
    ActivityRow(a.id, corredorId, a.distance, a.startDate, a.activityType)
  }

  function RowsOf(runs: seq<StravaActivity>, corredorId: int): (rows: seq<ActivityRow>)
    ensures |rows| == |runs|
    ensures forall i :: 0 <= i < |rows| ==> rows[i] == RowOf(runs[i], corredorId)
  {
    seq(|runs|, i requires 0 <= i < |runs| => RowOf(runs[i], corredorId))
  }

  /** `sincronizarCorredor(corredor)`. Every error is rethrown as it is. */
  function SincronizarCorredorSpec(t: Tables, faults: Faults, o: Oracle, c: Runner, clock: Clock): Step<()>
  {
    var tok := GarantirTokenValidoSpec(t, faults, o, c.stravaId, clock);
    if tok.result.Err? then Step(Err(tok.result.error), tok.tables, tok.calls)
    else
      var after := EpochSeconds(clock.localYearStartMs);
      var calls := tok.calls + [ListActivities(tok.result.value, after)];
      match ActivitiesResult(o, tok.result.value, after)
      case Err(e) => Step(Err(e), tok.tables, calls)
      case Ok(acts) =>
        var runs := RunsOf(acts);
        if runs == [] then Step(Ok(()), tok.tables, calls)
        else
          var w := UpsertActivityRows(tok.tables, faults, c.stravaId, RowsOf(runs, c.stravaId));
          if w.error.Some? then Step(Err(SaveErrorPrefix + w.error.value), tok.tables, calls)
          else Step(Ok(()), w.tables, calls)
  }

  /** The state after syncing `runners` one after the other, and how each
      attempt settled. */
  datatype Settled = Settled(tables: Tables, calls: seq<Call>, outcomes: seq<Result<()>>)

  function SyncAll(t: Tables, faults: Faults, o: Oracle, runners: seq<Runner>, clock: Clock): (s: Settled)
    ensures |s.outcomes| == |runners|
    decreases |runners|
  {
    if runners == [] then Settled(t, [], [])
    else
      var prev := SyncAll(t, faults, o, runners[..|runners| - 1], clock);
      var last := SincronizarCorredorSpec(prev.tables, faults, o, runners[|runners| - 1], clock);
      Settled(last.tables, prev.calls + last.calls, prev.outcomes + [last.result])
  }

  /** Syncing one more runner of the listing extends the fold by one step. */
  lemma SyncAllStep(t: Tables, faults: Faults, o: Oracle, runners: seq<Runner>, i: nat, clock: Clock)
    requires i < |runners|
    ensures var prev := SyncAll(t, faults, o, runners[..i], clock);
      var last := SincronizarCorredorSpec(prev.tables, faults, o, runners[i], clock);
      SyncAll(t, faults, o, runners[..i + 1], clock)
        == Settled(last.tables, prev.calls + last.calls, prev.outcomes + [last.result])
  {
    assert runners[..i + 1][..i] == runners[..i];
  }

  /** Appending the calls of one more attempt to the log. */
  lemma AppendLog(a: seq<Call>, b: seq<Call>, c: seq<Call>)
    ensures (a + b) + c == a + (b + c)
  {
  }

  datatype Status = Fulfilled | Rejected
  datatype Detail = Detail(corredor: string, status: Status, erro: Option<string>)
  datatype Report = Report(mensagem: string, total: int, sucessos: int, falhas: int, detalhes: Option<seq<Detail>>)

  /** `String(reason)` for a rejected attempt. */
  function Describe(message: string): string
  {
    "Error: " + message
  }

  function CountFulfilled(outcomes: seq<Result<()>>): (n: nat)
    ensures n <= |outcomes|
  {
    if outcomes == [] then 0
    else CountFulfilled(outcomes[..|outcomes| - 1]) + (if outcomes[|outcomes| - 1].Ok? then 1 else 0)
  }

  function CountRejected(outcomes: seq<Result<()>>): (n: nat)
    ensures n <= |outcomes|
  {
    if outcomes == [] then 0
    else CountRejected(outcomes[..|outcomes| - 1]) + (if outcomes[|outcomes| - 1].Err? then 1 else 0)
  }

  function DetailOf(c: Runner, outcome: Result<()>): Detail
  {
    Detail(c.nome, if outcome.Ok? then Fulfilled else Status.Rejected,
           if outcome.Err? then Some(Describe(outcome.error)) else None)
  }

  function BuildReport(runners: seq<Runner>, outcomes: seq<Result<()>>): Report
    requires |outcomes| == |runners|
  {
    if runners == [] then Report(NoActiveRunners, 0, 0, 0, None)
    else Report(SyncDone, |runners|, CountFulfilled(outcomes), CountRejected(outcomes),
                Some(seq(|runners|, i requires 0 <= i < |runners| => DetailOf(runners[i], outcomes[i]))))
  }

  /** `sincronizarTudo()`, given the order in which the store listed the
      active runners. */
  function SincronizarTudoSpec(t: Tables, faults: Faults, o: Oracle, listing: seq<Runner>, clock: Clock): Step<Report>
  {
    if StoreOp.SelectActiveRunners in faults then
      Step(Err(SelectErrorPrefix + faults[StoreOp.SelectActiveRunners]), t, [])
    else
      var s := SyncAll(t, faults, o, listing, clock);
      Step(Ok(BuildReport(listing, s.outcomes)), s.tables, s.calls)
  }

  // ---------------------------------------------------------------------
  // One runner

  /** What one runner's sync can write: its own credentials, and rows of
      type "Run" attributed to it. Nothing is deleted. */
  lemma {:induction false} RunnerSyncWrites(t: Tables, faults: Faults, o: Oracle, c: Runner, clock: Clock)
    ensures var s := SincronizarCorredorSpec(t, faults, o, c, clock);
      && s.tables.corredores.Keys == t.corredores.Keys
      && (forall k :: k in t.corredores && k != c.stravaId ==> s.tables.corredores[k] == t.corredores[k])
      && t.atividades.Keys <= s.tables.atividades.Keys
      && forall k :: k in s.tables.atividades ==>
           (k in t.atividades && s.tables.atividades[k] == t.atividades[k])
           || (s.tables.atividades[k].tipo == RunType && s.tables.atividades[k].corredorId == c.stravaId)
  {
    var tok := GarantirTokenValidoSpec(t, faults, o, c.stravaId, clock);
    TokenCallTouchesOnlyCredentials(t, faults, o, c.stravaId, clock);
    if tok.result.Ok? {
      var after := EpochSeconds(clock.localYearStartMs);
      var acts := ActivitiesResult(o, tok.result.value, after);
      if acts.Ok? && RunsOf(acts.value) != [] {
        var runs := RunsOf(acts.value);
        var rows := RowsOf(runs, c.stravaId);
        var w := UpsertActivityRows(tok.tables, faults, c.stravaId, rows);
        if w.error.None? {
          forall k | k in w.tables.atividades && !(k in t.atividades && w.tables.atividades[k] == t.atividades[k])
            ensures w.tables.atividades[k].tipo == RunType && w.tables.atividades[k].corredorId == c.stravaId
          {
            assert k in RowsById(rows);
            var i :| 0 <= i < |rows| && rows[i].id == k;
            assert runs[i] in runs;
            RowsByIdAt(rows, i);
          }
        }
      }
    }
  }

  /** A sync that settles fulfilled after listing activities has stored
      every run it listed, as that runner's row. */
  lemma SyncedRunsStored(t: Tables, faults: Faults, o: Oracle, c: Runner, clock: Clock)
    requires GarantirTokenValidoSpec(t, faults, o, c.stravaId, clock).result.Ok?
    requires SincronizarCorredorSpec(t, faults, o, c, clock).result.Ok?
    ensures var token := GarantirTokenValidoSpec(t, faults, o, c.stravaId, clock).result.value;
      var acts := ActivitiesResult(o, token, EpochSeconds(clock.localYearStartMs));
      var s := SincronizarCorredorSpec(t, faults, o, c, clock);
      && acts.Ok?
      && forall a :: a in acts.value && a.activityType == RunType ==>
           a.id in s.tables.atividades && s.tables.atividades[a.id] == RowOf(a, c.stravaId)
  {
    var token := GarantirTokenValidoSpec(t, faults, o, c.stravaId, clock).result.value;
    var acts := ActivitiesResult(o, token, EpochSeconds(clock.localYearStartMs));
    var runs := RunsOf(acts.value);
    var rows := RowsOf(runs, c.stravaId);
    forall a | a in acts.value && a.activityType == RunType
      ensures a.id in SincronizarCorredorSpec(t, faults, o, c, clock).tables.atividades
      ensures SincronizarCorredorSpec(t, faults, o, c, clock).tables.atividades[a.id] == RowOf(a, c.stravaId)
    {
      assert a in runs;
      var i :| 0 <= i < |runs| && runs[i] == a;
      assert rows[i] == RowOf(a, c.stravaId);
    }
  }

  /** The activities are listed with the token the token step returned, from
      the start of the local year, in seconds. */
  lemma ListingUsesValidToken(t: Tables, faults: Faults, o: Oracle, c: Runner, clock: Clock)
    requires GarantirTokenValidoSpec(t, faults, o, c.stravaId, clock).result.Ok?
    ensures var tok := GarantirTokenValidoSpec(t, faults, o, c.stravaId, clock);
      SincronizarCorredorSpec(t, faults, o, c, clock).calls
        == tok.calls + [ListActivities(tok.result.value, EpochSeconds(clock.localYearStartMs))]
  {
  }

  /** When the listing holds no run, the sync succeeds without writing: no
      activity row changes, whatever faults the store would raise on an
      upsert. */
  lemma NoRunsNoWrite(t: Tables, faults: Faults, o: Oracle, c: Runner, clock: Clock, acts: seq<StravaActivity>)
    requires GarantirTokenValidoSpec(t, faults, o, c.stravaId, clock).result.Ok?
    requires ActivitiesResult(o, GarantirTokenValidoSpec(t, faults, o, c.stravaId, clock).result.value,
                              EpochSeconds(clock.localYearStartMs)) == Ok(acts)
    requires RunsOf(acts) == []
    ensures var tok := GarantirTokenValidoSpec(t, faults, o, c.stravaId, clock);
      var s := SincronizarCorredorSpec(t, faults, o, c, clock);
      && s.result == Ok(())
      && s.tables == tok.tables
      && s.tables.atividades == t.atividades
  {
    TokenCallTouchesOnlyCredentials(t, faults, o, c.stravaId, clock);
  }

  /** A failing token step ends the sync before any listing. */
  lemma TokenFailureStopsSync(t: Tables, faults: Faults, o: Oracle, c: Runner, clock: Clock)
    requires GarantirTokenValidoSpec(t, faults, o, c.stravaId, clock).result.Err?
    ensures var tok := GarantirTokenValidoSpec(t, faults, o, c.stravaId, clock);
      SincronizarCorredorSpec(t, faults, o, c, clock) == Step(Err(tok.result.error), tok.tables, tok.calls)
  {
  }

  // ---------------------------------------------------------------------
  // All runners

  lemma {:induction false} CountsAddUp(outcomes: seq<Result<()>>)
    ensures CountFulfilled(outcomes) + CountRejected(outcomes) == |outcomes|
    ensures CountFulfilled(outcomes) == |outcomes| <==> forall i :: 0 <= i < |outcomes| ==> outcomes[i].Ok?
  {
    if outcomes != [] {
      var init := outcomes[..|outcomes| - 1];
      CountsAddUp(init);
      if CountFulfilled(outcomes) == |outcomes| {
        assert CountFulfilled(init) == |init|;
        forall i | 0 <= i < |outcomes| ensures outcomes[i].Ok? {
          if i < |init| { assert outcomes[i] == init[i]; }
        }
      }
      if forall i :: 0 <= i < |outcomes| ==> outcomes[i].Ok? {
        assert forall i :: 0 <= i < |init| ==> init[i] == outcomes[i];
      }
    }
  }

  /** The counts are the numbers of positions that settled each way. */
  lemma CountsAreIndexSets(outcomes: seq<Result<()>>)
    ensures CountFulfilled(outcomes) == |set i | 0 <= i < |outcomes| && outcomes[i].Ok?|
    ensures CountRejected(outcomes) == |set i | 0 <= i < |outcomes| && outcomes[i].Err?|
  {
    FulfilledIsIndexSet(outcomes);
    RejectedIsIndexSet(outcomes);
  }

  lemma {:induction false} FulfilledIsIndexSet(outcomes: seq<Result<()>>)
    ensures CountFulfilled(outcomes) == |set i | 0 <= i < |outcomes| && outcomes[i].Ok?|
  {
    if outcomes != [] {
      var n := |outcomes| - 1;
      var init := outcomes[..n];
      FulfilledIsIndexSet(init);
      var before := set i | 0 <= i < |init| && init[i].Ok?;
      var after := set i | 0 <= i < |outcomes| && outcomes[i].Ok?;
      assert forall i :: 0 <= i < n ==> init[i] == outcomes[i];
      if outcomes[n].Ok? {
        assert after == before + {n} && n !in before;
      } else {
        assert after == before;
      }
    }
  }

  lemma {:induction false} RejectedIsIndexSet(outcomes: seq<Result<()>>)
    ensures CountRejected(outcomes) == |set i | 0 <= i < |outcomes| && outcomes[i].Err?|
  {
    if outcomes != [] {
      var n := |outcomes| - 1;
      var init := outcomes[..n];
      RejectedIsIndexSet(init);
      var before := set i | 0 <= i < |init| && init[i].Err?;
      var after := set i | 0 <= i < |outcomes| && outcomes[i].Err?;
      assert forall i :: 0 <= i < n ==> init[i] == outcomes[i];
      if outcomes[n].Err? {
        assert after == before + {n} && n !in before;
      } else {
        assert after == before;
      }
    }
  }

  /** Syncing a prefix of the listing gives the prefix of the outcomes. */
  lemma {:induction false} SyncAllPrefix(t: Tables, faults: Faults, o: Oracle, runners: seq<Runner>, clock: Clock, n: nat)
    requires n <= |runners|
    ensures SyncAll(t, faults, o, runners[..n], clock).outcomes == SyncAll(t, faults, o, runners, clock).outcomes[..n]
    decreases |runners|
  {
    if n < |runners| {
      var init := runners[..|runners| - 1];
      SyncAllPrefix(t, faults, o, init, clock, n);
      assert init[..n] == runners[..n];
    } else {
      assert runners[..n] == runners;
    }
  }

  /** Runner `i` is synced against the state the runners before it left, and
      its outcome is the one recorded at index `i`. */
  lemma SyncOutcomeAt(t: Tables, faults: Faults, o: Oracle, runners: seq<Runner>, clock: Clock, i: int)
    requires 0 <= i < |runners|
    ensures SyncAll(t, faults, o, runners, clock).outcomes[i]
      == SincronizarCorredorSpec(SyncAll(t, faults, o, runners[..i], clock).tables, faults, o, runners[i], clock).result
  {
    var prev := SyncAll(t, faults, o, runners[..i], clock);
    var last := SincronizarCorredorSpec(prev.tables, faults, o, runners[i], clock);
    var upTo := SyncAll(t, faults, o, runners[..i + 1], clock);
    SyncAllStep(t, faults, o, runners, i, clock);
    SyncAllPrefix(t, faults, o, runners, clock, i + 1);
    assert upTo.outcomes == prev.outcomes + [last.result];
    assert SyncAll(t, faults, o, runners, clock).outcomes[i] == upTo.outcomes[i];
  }

  /** A sync of all runners deletes no row and adds no runner; every
      activity row it writes is a run of one of the listed runners. */
  lemma {:induction false} SyncAllWrites(t: Tables, faults: Faults, o: Oracle, runners: seq<Runner>, clock: Clock)
    ensures var s := SyncAll(t, faults, o, runners, clock);
      && s.tables.corredores.Keys == t.corredores.Keys
      && t.atividades.Keys <= s.tables.atividades.Keys
      && forall k :: k in s.tables.atividades ==>
           (k in t.atividades && s.tables.atividades[k] == t.atividades[k])
           || (s.tables.atividades[k].tipo == RunType
               && exists j :: 0 <= j < |runners| && runners[j].stravaId == s.tables.atividades[k].corredorId)
    decreases |runners|
  {
    if runners != [] {
      var init := runners[..|runners| - 1];
      var last := runners[|runners| - 1];
      SyncAllWrites(t, faults, o, init, clock);
      var prev := SyncAll(t, faults, o, init, clock);
      RunnerSyncWrites(prev.tables, faults, o, last, clock);
      var s := SyncAll(t, faults, o, runners, clock);
      forall k | k in s.tables.atividades && !(k in t.atividades && s.tables.atividades[k] == t.atividades[k])
        ensures s.tables.atividades[k].tipo == RunType
        ensures exists j :: 0 <= j < |runners| && runners[j].stravaId == s.tables.atividades[k].corredorId
      {
        if k in prev.tables.atividades && s.tables.atividades[k] == prev.tables.atividades[k] {
          var j :| 0 <= j < |init| && init[j].stravaId == prev.tables.atividades[k].corredorId;
          assert runners[j] == init[j];
        } else {
          assert runners[|runners| - 1].stravaId == s.tables.atividades[k].corredorId;
        }
      }
    }
  }

  /** A report over a non-empty listing counts every runner once: the
      successes are exactly the runners whose sync settled fulfilled, the
      failures exactly those rejected; and it details each one in listing
      order. */
  lemma BuildReportAccounts(listing: seq<Runner>, outcomes: seq<Result<()>>)
    requires |outcomes| == |listing| && listing != []
    ensures var r := BuildReport(listing, outcomes);
      && r.mensagem == SyncDone
      && r.total == |listing|
      && r.sucessos == |set i | 0 <= i < |outcomes| && outcomes[i].Ok?|
      && r.falhas == |set i | 0 <= i < |outcomes| && outcomes[i].Err?|
      && r.sucessos + r.falhas == r.total
      && (r.falhas == 0 <==> forall i :: 0 <= i < |outcomes| ==> outcomes[i].Ok?)
      && r.detalhes.Some?
      && |r.detalhes.value| == |listing|
      && forall i :: 0 <= i < |listing| ==>
           var d := r.detalhes.value[i];
           && d.corredor == listing[i].nome
           && (d.status == Fulfilled <==> outcomes[i].Ok?)
           && (d.erro.Some? <==> outcomes[i].Err?)
           && (outcomes[i].Err? ==> d.erro.value == Describe(outcomes[i].error))
  {
    CountsAddUp(outcomes);
    CountsAreIndexSets(outcomes);
    var r := BuildReport(listing, outcomes);
    assert r.sucessos == CountFulfilled(outcomes) && r.falhas == CountRejected(outcomes);
    assert r.falhas == 0 <==> CountFulfilled(outcomes) == |outcomes|;
  }

  /** The report `sincronizarTudo()` returns when the listing succeeds and
      is not empty accounts for every runner of it. */
  lemma ReportAccounts(t: Tables, faults: Faults, o: Oracle, listing: seq<Runner>, clock: Clock)
    requires StoreOp.SelectActiveRunners !in faults
    requires listing != []
    ensures var s := SincronizarTudoSpec(t, faults, o, listing, clock);
      var outcomes := SyncAll(t, faults, o, listing, clock).outcomes;
      && s.result.Ok?
      && s.result.value == BuildReport(listing, outcomes)
      && s.result.value.mensagem == SyncDone
      && s.result.value.total == |listing|
      && s.result.value.sucessos == |set i | 0 <= i < |outcomes| && outcomes[i].Ok?|
      && s.result.value.falhas == |set i | 0 <= i < |outcomes| && outcomes[i].Err?|
      && s.result.value.sucessos + s.result.value.falhas == s.result.value.total
      && (s.result.value.falhas == 0 <==> forall i :: 0 <= i < |outcomes| ==> outcomes[i].Ok?)
      && s.result.value.detalhes.Some?
      && |s.result.value.detalhes.value| == |listing|
      && forall i :: 0 <= i < |listing| ==>
           var d := s.result.value.detalhes.value[i];
           && d.corredor == listing[i].nome
           && (d.status == Fulfilled <==> outcomes[i].Ok?)
           && (d.erro.Some? <==> outcomes[i].Err?)
           && (outcomes[i].Err? ==> d.erro.value == Describe(outcomes[i].error))
  {
    var outcomes := SyncAll(t, faults, o, listing, clock).outcomes;
    BuildReportAccounts(listing, outcomes);
  }

  /** No active runner: an empty report, no call and no write. */
  lemma NothingToSync(t: Tables, faults: Faults, o: Oracle, clock: Clock)
    requires StoreOp.SelectActiveRunners !in faults
    ensures SincronizarTudoSpec(t, faults, o, [], clock) == Step(Ok(Report(NoActiveRunners, 0, 0, 0, None)), t, [])
  {
  }

  /** A failing listing of the runners is an error before any call. */
  lemma SelectFailureStopsAll(t: Tables, faults: Faults, o: Oracle, listing: seq<Runner>, clock: Clock)
    requires StoreOp.SelectActiveRunners in faults
    ensures SincronizarTudoSpec(t, faults, o, listing, clock)
      == Step(Err(SelectErrorPrefix + faults[StoreOp.SelectActiveRunners]), t, [])
  {
  }

  class SyncService {
    const db: Database
    const gateway: StravaGateway
    const auth: AuthService

    predicate Wired()
    {
      auth.db == db && auth.gateway == gateway
    }

    constructor(db: Database, gateway: StravaGateway)
      ensures this.db == db && this.gateway == gateway && Wired()
    {
      this.db := db;
      this.gateway := gateway;
      auth := new AuthService(db, gateway);
    }

    method SincronizarCorredor(c: Runner, clock: Clock) returns (r: Result<()>)
      requires db.Valid() && Wired()
      modifies db`corredores, db`atividades, gateway`log
      ensures db.Valid()
      ensures var s := SincronizarCorredorSpec(old(db.TablesNow()), db.faults, gateway.oracle, c, clock);
        r == s.result && db.TablesNow() == s.tables && gateway.log == old(gateway.log) + s.calls
    {
      var tokenAcesso := auth.GarantirTokenValido(c.stravaId, clock);
      if tokenAcesso.Err? {
        return Err(tokenAcesso.error);
      }
      var timestampInicioAno := EpochSeconds(clock.localYearStartMs);
      var atividades := gateway.BuscarAtividades(tokenAcesso.value, timestampInicioAno);
      if atividades.Err? {
        return Err(atividades.error);
      }
      var corridas := RunsOf(atividades.value);
      if corridas == [] {
        return Ok(());
      }
      var erro := db.UpsertActivities(c.stravaId, RowsOf(corridas, c.stravaId));
      if erro.Some? {
        return Err(SaveErrorPrefix + erro.value);
      }
      r := Ok(());
    }

    /** Syncs `runners` one after the other: `Promise.allSettled` over
        `sincronizarCorredor`, with the attempts run in listing order. */
    method SyncInOrder(runners: seq<Runner>, clock: Clock) returns (outcomes: seq<Result<()>>)
      requires db.Valid() && Wired()
      modifies db`corredores, db`atividades, gateway`log
      ensures db.Valid()
      ensures var s := SyncAll(old(db.TablesNow()), db.faults, gateway.oracle, runners, clock);
        outcomes == s.outcomes && db.TablesNow() == s.tables && gateway.log == old(gateway.log) + s.calls
    {
      ghost var t0, log0 := db.TablesNow(), gateway.log;
      ghost var faults, oracle := db.faults, gateway.oracle;
      ghost var acc := SyncAll(t0, faults, oracle, [], clock);
      outcomes := [];
      var i := 0;
      while i < |runners|
        invariant 0 <= i <= |runners|
        invariant acc == SyncAll(t0, faults, oracle, runners[..i], clock)
        invariant db.Valid() && db.faults == faults && gateway.oracle == oracle
        invariant outcomes == acc.outcomes
        invariant db.TablesNow() == acc.tables
        invariant gateway.log == log0 + acc.calls
      {
        ghost var last := SincronizarCorredorSpec(db.TablesNow(), db.faults, gateway.oracle, runners[i], clock);
        ghost var logBefore := gateway.log;
        var resultado := SincronizarCorredor(runners[i], clock);
        assert gateway.log == logBefore + last.calls;
        AppendLog(log0, acc.calls, last.calls);
        SyncAllStep(t0, faults, oracle, runners, i, clock);
        acc := Settled(last.tables, acc.calls + last.calls, acc.outcomes + [last.result]);
        outcomes := outcomes + [resultado];
        i := i + 1;
      }
      assert runners[..i] == runners;
    }

    /** The runners are synced in the order the store listed them,
        `listing`. */
    method SincronizarTudo(clock: Clock) returns (r: Result<Report>, ghost listing: seq<Runner>)
      requires db.Valid() && Wired()
      modifies db`corredores, db`atividades, gateway`log
      ensures db.Valid()
      ensures StoreOp.SelectActiveRunners !in db.faults ==> ActiveListing(old(db.corredores), listing)
      ensures var s := SincronizarTudoSpec(old(db.TablesNow()), db.faults, gateway.oracle, listing, clock);
        r == s.result && db.TablesNow() == s.tables && gateway.log == old(gateway.log) + s.calls
    {
      var corredores := db.SelectActiveRunners();
      if corredores.Err? {
        return Err(SelectErrorPrefix + corredores.error), [];
      }
      listing := corredores.value;
      if corredores.value == [] {
        return Ok(Report(NoActiveRunners, 0, 0, 0, None)), listing;
      }
      var resultados := SyncInOrder(corredores.value, clock);
      r := Ok(BuildReport(corredores.value, resultados));
    }
  }
}

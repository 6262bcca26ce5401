/** The two tables the services read and write (`corredores` and
    `atividades`), the store operations the services issue against them,
    and which of those operations fail. */
module Store {
  import opened Outcome

  /** A row of `corredores`, keyed by the Strava athlete id. */
  datatype Runner = Runner(
    stravaId: int,
    nome: string,
    urlAvatar: Option<string>,
    tokenAcesso: string,
    tokenAtualizacao: string,
    expiraEm: int,
    estaAtivo: bool)

  /** A row of `atividades`, keyed by the Strava activity id. */
  datatype ActivityRow = ActivityRow(id: int, corredorId: int, distancia: int, dataInicio: string, tipo: string)

  datatype Tables = Tables(corredores: map<int, Runner>, atividades: map<int, ActivityRow>)

  /** Every row sits under its own key. */
  predicate WellKeyed(t: Tables)
  {
    && (forall k :: k in t.corredores ==> t.corredores[k].stravaId == k)
    && (forall k :: k in t.atividades ==> t.atividades[k].id == k)
  }

  /** The store operations the services issue, by what they touch. An
      operation listed in a fault table fails with the message given there. */
  datatype StoreOp =
    | SelectRunner(stravaId: int)
    | UpdateRunner(stravaId: int)
    | SelectActiveRunners
    | UpsertActivities(corredorId: int)

  type Faults = map<StoreOp, string>

  /** The outcome of `.select(...).eq("strava_id", id).single()`. */
  datatype Lookup = Found(runner: Runner) | NoRows | LookupFailed(message: string)

  function LookupRunner(t: Tables, faults: Faults, id: int): (r: Lookup)
    ensures r.Found? <==> SelectRunner(id) !in faults && id in t.corredores
    ensures r.Found? ==> r.runner == t.corredores[id]
    ensures r.LookupFailed? <==> SelectRunner(id) in faults
  {
    if SelectRunner(id) in faults then LookupFailed(faults[SelectRunner(id)])
    else if id in t.corredores then Found(t.corredores[id])
    else NoRows
  }

  /** The columns an `.update({...})` sends. `urlAvatar` is `None` when the
      value sent is `undefined`: `JSON.stringify` drops the key and the
      column keeps its value. Only the login sends `nome` and `url_avatar`. */
  datatype RunnerPatch = RunnerPatch(
    tokenAcesso: string,
    tokenAtualizacao: string,
    expiraEm: int,
    nome: Option<string>,
    urlAvatar: Option<string>)

  function ApplyPatch(r: Runner, p: RunnerPatch): (r': Runner)
    ensures r'.stravaId == r.stravaId && r'.estaAtivo == r.estaAtivo
    ensures r'.tokenAcesso == p.tokenAcesso && r'.tokenAtualizacao == p.tokenAtualizacao
    ensures r'.expiraEm == p.expiraEm
    ensures r'.nome == (if p.nome.Some? then p.nome.value else r.nome)
    ensures r'.urlAvatar == (if p.urlAvatar.Some? then p.urlAvatar else r.urlAvatar)
  {
    r.(tokenAcesso := p.tokenAcesso, tokenAtualizacao := p.tokenAtualizacao, expiraEm := p.expiraEm,
       nome := if p.nome.Some? then p.nome.value else r.nome,
       urlAvatar := if p.urlAvatar.Some? then p.urlAvatar else r.urlAvatar)
  }

  /** The outcome of a write: the tables afterwards, and the error reported. */
  datatype Write = Write(tables: Tables, error: Option<string>)

  /** `.update(patch).eq("strava_id", id)`: patches the matching row, if any;
      matching no row is not an error. */
  function UpdateRunnerRow(t: Tables, faults: Faults, id: int, p: RunnerPatch): (w: Write)
    ensures w.error.Some? <==> UpdateRunner(id) in faults
    ensures w.error.Some? ==> w.tables == t
    ensures w.error.None? ==> w.tables.atividades == t.atividades
    ensures w.error.None? ==> w.tables.corredores.Keys == t.corredores.Keys
    ensures w.error.None? ==> forall k :: k in t.corredores ==>
      w.tables.corredores[k] == if k == id then ApplyPatch(t.corredores[k], p) else t.corredores[k]
  {
    if UpdateRunner(id) in faults then Write(t, Some(faults[UpdateRunner(id)]))
    else if id in t.corredores then Write(t.(corredores := t.corredores[id := ApplyPatch(t.corredores[id], p)]), None)
    else Write(t, None)
  }

  /** The runners `.select("*").eq("esta_ativo", true)` returns, in the
      order the store chose: each active runner exactly once. */
  ghost predicate ActiveListing(corredores: map<int, Runner>, s: seq<Runner>)
  {
    && (forall i :: 0 <= i < |s| ==> s[i].stravaId in corredores && corredores[s[i].stravaId] == s[i] && s[i].estaAtivo)
    && (forall k :: k in corredores && corredores[k].estaAtivo ==> exists i :: 0 <= i < |s| && s[i].stravaId == k)
    && (forall i, j :: 0 <= i < j < |s| ==> s[i].stravaId != s[j].stravaId)
  }

  /** What PostgreSQL reports when one `INSERT ... ON CONFLICT DO UPDATE`
      batch holds two rows with the same key. */
  const DuplicateKeyInBatch: string := "ON CONFLICT DO UPDATE command cannot affect row a second time"

  predicate DistinctIds(rows: seq<ActivityRow>)
  {
    forall i, j :: 0 <= i < j < |rows| ==> rows[i].id != rows[j].id
  }

  /** The rows of a batch keyed by id. */
  function RowsById(rows: seq<ActivityRow>): (m: map<int, ActivityRow>)
    ensures forall k :: k in m ==> m[k].id == k
    ensures forall k :: k in m <==> exists i :: 0 <= i < |rows| && rows[i].id == k
  {
    if rows == [] then map[]
    else RowsById(rows[..|rows| - 1])[rows[|rows| - 1].id := rows[|rows| - 1]]
  }

  lemma {:induction false} RowsByIdAt(rows: seq<ActivityRow>, i: int)
    requires DistinctIds(rows) && 0 <= i < |rows|
    ensures rows[i].id in RowsById(rows) && RowsById(rows)[rows[i].id] == rows[i]
  {
    if i < |rows| - 1 {
      RowsByIdAt(rows[..|rows| - 1], i);
    }
  }

  /** `.from("atividades").upsert(rows)`: insert or overwrite by id, all or
      nothing. Rows not in the batch are untouched. */
  function UpsertActivityRows(t: Tables, faults: Faults, corredorId: int, rows: seq<ActivityRow>): (w: Write)
    ensures w.error.Some? <==> UpsertActivities(corredorId) in faults || !DistinctIds(rows)
    ensures w.error.Some? ==> w.tables == t
    ensures w.tables.corredores == t.corredores
    ensures w.error.None? ==> w.tables.atividades.Keys == t.atividades.Keys + RowsById(rows).Keys
    ensures w.error.None? ==> forall i :: 0 <= i < |rows| ==>
      rows[i].id in w.tables.atividades && w.tables.atividades[rows[i].id] == rows[i]
    ensures w.error.None? ==> forall k :: k in t.atividades && k !in RowsById(rows).Keys ==>
      w.tables.atividades[k] == t.atividades[k]
  {
    if UpsertActivities(corredorId) in faults then Write(t, Some(faults[UpsertActivities(corredorId)]))
    else if !DistinctIds(rows) then Write(t, Some(DuplicateKeyInBatch))
    else
      var w := Write(t.(atividades := t.atividades + RowsById(rows)), None);
      assert forall i :: 0 <= i < |rows| ==> rows[i].id in w.tables.atividades && w.tables.atividades[rows[i].id] == rows[i] by {
        forall i | 0 <= i < |rows| ensures rows[i].id in w.tables.atividades && w.tables.atividades[rows[i].id] == rows[i] {
          RowsByIdAt(rows, i);
        }
      }
      w
  }

  /** Upserting the same batch again changes nothing: the rows are
      overwritten with themselves. */
  lemma UpsertIdempotent(t: Tables, faults: Faults, corredorId: int, rows: seq<ActivityRow>)
    requires UpsertActivityRows(t, faults, corredorId, rows).error.None?
    ensures var w := UpsertActivityRows(t, faults, corredorId, rows);
      UpsertActivityRows(w.tables, faults, corredorId, rows) == w
  {
    var m := t.atividades + RowsById(rows);
    assert m + RowsById(rows) == m;
  }

  lemma HasElement(s: set<int>)
    requires s != {}
    ensures exists k :: k in s
  {
    if forall k :: k !in s {
      assert false;
    }
  }

  /** Some key of a non-empty set, chosen by the store. */
  method ChooseKey(s: set<int>) returns (k: int)
    requires s != {}
    ensures k in s
  {
    HasElement(s);
    k :| k in s;
  }

  /** The database the services share. Its tables change only through the
      methods below; `faults` says which operations fail. */
  class Database {
    var corredores: map<int, Runner>
    var atividades: map<int, ActivityRow>
    const faults: Faults

    ghost predicate Valid()
      reads this
    {
      WellKeyed(Tables(corredores, atividades))
    }

    function TablesNow(): Tables
      reads this
    {
      Tables(corredores, atividades)
    }

    constructor(t: Tables, faults: Faults)
      requires WellKeyed(t)
      ensures Valid() && TablesNow() == t && this.faults == faults
    {
      corredores := t.corredores;
      atividades := t.atividades;
      this.faults := faults;
    }

    method SelectRunner(id: int) returns (r: Lookup)
      ensures r == LookupRunner(TablesNow(), faults, id)
    {
      if StoreOp.SelectRunner(id) in faults {
        r := LookupFailed(faults[StoreOp.SelectRunner(id)]);
      } else if id in corredores {
        r := Found(corredores[id]);
      } else {
        r := NoRows;
      }
    }

    method UpdateRunner(id: int, p: RunnerPatch) returns (error: Option<string>)
      requires Valid()
      modifies this`corredores
      ensures Valid()
      ensures TablesNow() == UpdateRunnerRow(old(TablesNow()), faults, id, p).tables
      ensures error == UpdateRunnerRow(old(TablesNow()), faults, id, p).error
    {
      var w := UpdateRunnerRow(TablesNow(), faults, id, p);
      corredores := w.tables.corredores;
      error := w.error;
    }

    method UpsertActivities(corredorId: int, rows: seq<ActivityRow>) returns (error: Option<string>)
      requires Valid()
      modifies this`atividades
      ensures Valid()
      ensures TablesNow() == UpsertActivityRows(old(TablesNow()), faults, corredorId, rows).tables
      ensures error == UpsertActivityRows(old(TablesNow()), faults, corredorId, rows).error
    {
      var w := UpsertActivityRows(TablesNow(), faults, corredorId, rows);
      atividades := w.tables.atividades;
      error := w.error;
    }

    /** `.from("corredores").select("*").eq("esta_ativo", true)`. */
    method SelectActiveRunners() returns (r: Result<seq<Runner>>)
      requires Valid()
      ensures StoreOp.SelectActiveRunners in faults ==> r == Err(faults[StoreOp.SelectActiveRunners])
      ensures StoreOp.SelectActiveRunners !in faults ==> r.Ok? && ActiveListing(corredores, r.value)
    {
      if StoreOp.SelectActiveRunners in faults {
        return Err(faults[StoreOp.SelectActiveRunners]);
      }
      var rest := corredores.Keys;
      var acc: seq<Runner> := [];
      while rest != {}
        invariant rest <= corredores.Keys
        invariant forall i :: 0 <= i < |acc| ==>
          acc[i].stravaId in corredores.Keys - rest && corredores[acc[i].stravaId] == acc[i] && acc[i].estaAtivo
        invariant forall k :: k in corredores.Keys - rest && corredores[k].estaAtivo ==>
          exists i :: 0 <= i < |acc| && acc[i].stravaId == k
        invariant forall i, j :: 0 <= i < j < |acc| ==> acc[i].stravaId != acc[j].stravaId
        decreases rest
      {
        var k := ChooseKey(rest);
        ghost var before := acc;
        if corredores[k].estaAtivo {
          acc := acc + [corredores[k]];
          assert acc[|acc| - 1].stravaId == k;
        }
        forall k' | k' in corredores.Keys - (rest - {k}) && corredores[k'].estaAtivo
          ensures exists i :: 0 <= i < |acc| && acc[i].stravaId == k'
        {
          if k' == k {
            assert acc[|acc| - 1].stravaId == k';
          } else {
            var i :| 0 <= i < |before| && before[i].stravaId == k';
            assert acc[i] == before[i];
          }
        }
        rest := rest - {k};
      }
      r := Ok(acc);
    }
  }
}

/** `getRankingData` and the ranking table of `RankingList`: per-runner
    distance totals over a period, in descending order. Distances are
    integer metres; the kilometre value the source divides out is left out
    (dividing by 1000 keeps the order of the totals). */
module Ranking {
  import opened Outcome
  import opened Time
  import opened Seqs

  /** An embedded `atividades (distancia, data_inicio)` row. */
  datatype Atividade = Atividade(distancia: int, dataInicio: string)

  /** A row of the ranking query: an active runner with an avatar, and all
      of their activities. */
  datatype Corredor = Corredor(stravaId: int, nome: string, urlAvatar: Option<string>, atividades: seq<Atividade>)

  /** A runner with the activities counted and their total. */
  datatype RankingItem = RankingItem(
    stravaId: int,
    nome: string,
    urlAvatar: Option<string>,
    atividades: seq<Atividade>,
    distanciaTotalMetros: int)

  /** Two instants, both inclusive. */
  datatype Window = Window(start: int, end: int)

  /** The date range, when both bounds are given (an empty string counts as
      absent); the end is moved to the last millisecond of its local day. */
  function WindowOf(cal: Calendar, startDate: Option<string>, endDate: Option<string>): Option<Window>
  {
    if Truthy(startDate) && Truthy(endDate)
    then Some(Window(cal.parse(startDate.value), cal.endOfLocalDay(cal.parse(endDate.value))))
    else None
  }

  /** Whether an activity counts: inside the window when there is one,
      otherwise in the UTC calendar year `year`. */
  function Counts(cal: Calendar, year: int, w: Option<Window>): Atividade -> bool
  {
    (a: Atividade) =>
      var d := cal.parse(a.dataInicio);
      if w.Some? then w.value.start <= d <= w.value.end else cal.utcYear(d) == year
  }

  function Distancia(a: Atividade): int
  {
    a.distancia
  }

  function TotalOf(item: RankingItem): int
  {
    item.distanciaTotalMetros
  }

  function ItemOf(cal: Calendar, year: int, w: Option<Window>, c: Corredor): RankingItem
  {
    var kept := Filter(c.atividades, Counts(cal, year, w));
    RankingItem(c.stravaId, c.nome, c.urlAvatar, kept, Sum(kept, Distancia))
  }

  function ItemsOf(cal: Calendar, year: int, w: Option<Window>, rows: seq<Corredor>): (items: seq<RankingItem>)
    ensures |items| == |rows|
    ensures forall i :: 0 <= i < |rows| ==> items[i] == ItemOf(cal, year, w, rows[i])
  {
    seq(|rows|, i requires 0 <= i < |rows| => ItemOf(cal, year, w, rows[i]))
  }

  /** `getRankingData(year, startDate, endDate)`, given what the query
      returned. */
  function GetRankingData(cal: Calendar, year: int, startDate: Option<string>, endDate: Option<string>,
                          query: Result<seq<Corredor>>): seq<RankingItem>
  {
    if query.Err? then []
    else SortDesc(ItemsOf(cal, year, WindowOf(cal, startDate, endDate), query.value), TotalOf)
  }

  /** The period test, spelled out: with both bounds given, between the
      start and the end of the end's local day, inclusive; otherwise in
      the UTC year `year`. */
  predicate InPeriod(cal: Calendar, year: int, startDate: Option<string>, endDate: Option<string>, a: Atividade)
  {
    if Truthy(startDate) && Truthy(endDate)
    then cal.parse(startDate.value) <= cal.parse(a.dataInicio) <= cal.endOfLocalDay(cal.parse(endDate.value))
    else cal.utcYear(cal.parse(a.dataInicio)) == year
  }

  /** Which activities an item keeps: with both bounds given, those between
      the start and the end of the end's day, inclusive; otherwise those of
      the UTC year. They keep their order, and the total is their sum. */
  lemma ItemCountsPeriod(cal: Calendar, year: int, startDate: Option<string>, endDate: Option<string>, c: Corredor)
    ensures var item := ItemOf(cal, year, WindowOf(cal, startDate, endDate), c);
      && item.stravaId == c.stravaId && item.nome == c.nome && item.urlAvatar == c.urlAvatar
      && Subsequence(item.atividades, c.atividades)
      && item.distanciaTotalMetros == Sum(item.atividades, Distancia)
      && (forall a :: a in c.atividades ==> (a in item.atividades <==> InPeriod(cal, year, startDate, endDate, a)))
      && forall a :: multiset(item.atividades)[a] == if InPeriod(cal, year, startDate, endDate, a) then multiset(c.atividades)[a] else 0
  {
    var w := WindowOf(cal, startDate, endDate);
    var kept := Filter(c.atividades, Counts(cal, year, w));
    FilterSubsequence(c.atividades, Counts(cal, year, w));
    forall a ensures multiset(kept)[a] == if InPeriod(cal, year, startDate, endDate, a) then multiset(c.atividades)[a] else 0 {
      FilterMultiplicity(c.atividades, Counts(cal, year, w), a);
    }
    forall a | a in c.atividades
      ensures a in kept <==> Counts(cal, year, w)(a)
    {
      var i :| 0 <= i < |c.atividades| && c.atividades[i] == a;
      if a in kept {
        var j :| 0 <= j < |kept| && kept[j] == a;
      }
    }
  }

  /** A failed query gives the empty ranking. */
  lemma QueryErrorGivesEmpty(cal: Calendar, year: int, startDate: Option<string>, endDate: Option<string>, message: string)
    ensures GetRankingData(cal, year, startDate, endDate, Err(message)) == []
  {
  }

  /** Every fetched runner appears exactly once, zero totals included, in
      non-increasing order of total; runners with equal totals keep the
      order of the query. */
  lemma RankingOrdersEveryRunner(cal: Calendar, year: int, startDate: Option<string>, endDate: Option<string>,
                                 rows: seq<Corredor>)
    ensures var ranking := GetRankingData(cal, year, startDate, endDate, Ok(rows));
      var items := ItemsOf(cal, year, WindowOf(cal, startDate, endDate), rows);
      && |ranking| == |rows|
      && multiset(ranking) == multiset(items)
      && SortedDesc(ranking, TotalOf)
      && forall k :: WithKey(ranking, TotalOf, k) == WithKey(items, TotalOf, k)
  {
    var items := ItemsOf(cal, year, WindowOf(cal, startDate, endDate), rows);
    SortDescSorted(items, TotalOf);
    forall k ensures WithKey(SortDesc(items, TotalOf), TotalOf, k) == WithKey(items, TotalOf, k) {
      SortDescStable(items, TotalOf, k);
    }
    assert |multiset(SortDesc(items, TotalOf))| == |multiset(items)|;
  }

  /** Each runner of the query has its item in the ranking. */
  lemma RankingHasEveryRunner(cal: Calendar, year: int, startDate: Option<string>, endDate: Option<string>,
                              rows: seq<Corredor>)
    ensures var ranking := GetRankingData(cal, year, startDate, endDate, Ok(rows));
      forall i :: 0 <= i < |rows| ==> ItemOf(cal, year, WindowOf(cal, startDate, endDate), rows[i]) in ranking
  {
    var items := ItemsOf(cal, year, WindowOf(cal, startDate, endDate), rows);
    SortDescSameElements(items, TotalOf);
  }

  /** Each item of the ranking is the item of a runner of the query. */
  lemma RankingHasOnlyRunners(cal: Calendar, year: int, startDate: Option<string>, endDate: Option<string>,
                              rows: seq<Corredor>)
    ensures var ranking := GetRankingData(cal, year, startDate, endDate, Ok(rows));
      forall j :: 0 <= j < |ranking| ==>
        exists i :: 0 <= i < |rows| && ranking[j] == ItemOf(cal, year, WindowOf(cal, startDate, endDate), rows[i])
  {
    var w := WindowOf(cal, startDate, endDate);
    SortDescOfImages(rows, c => ItemOf(cal, year, w, c), ItemsOf(cal, year, w, rows), TotalOf);
  }

  // ---------------------------------------------------------------------
  // RankingList

  /** The reduce of `RankingList`: adds the distance of the activities of
      UTC year `year` to `acc`. */
  function YearTotal(cal: Calendar, year: int, acts: seq<Atividade>, acc: int): int
  {
    if acts == [] then acc
    else YearTotal(cal, year, acts[1..],
                   if cal.utcYear(cal.parse(acts[0].dataInicio)) == year then acc + acts[0].distancia else acc)
  }

  /** A ranking-table entry keeps all the runner's activities and the year
      total. */
  function ListItemOf(cal: Calendar, year: int, c: Corredor): RankingItem
  {
    RankingItem(c.stravaId, c.nome, c.urlAvatar, c.atividades, YearTotal(cal, year, c.atividades, 0))
  }

  function ListItemsOf(cal: Calendar, year: int, rows: seq<Corredor>): (items: seq<RankingItem>)
    ensures |items| == |rows|
    ensures forall i :: 0 <= i < |rows| ==> items[i] == ListItemOf(cal, year, rows[i])
  {
    seq(|rows|, i requires 0 <= i < |rows| => ListItemOf(cal, year, rows[i]))
  }

  lemma {:induction false} YearTotalIsSum(cal: Calendar, year: int, acts: seq<Atividade>, acc: int)
    ensures YearTotal(cal, year, acts, acc) == acc + Sum(Filter(acts, Counts(cal, year, None)), Distancia)
  {
    if acts != [] {
      var p := Counts(cal, year, None);
      var next := if cal.utcYear(cal.parse(acts[0].dataInicio)) == year then acc + acts[0].distancia else acc;
      YearTotalIsSum(cal, year, acts[1..], next);
      var rest := Filter(acts[1..], p);
      if p(acts[0]) {
        assert Filter(acts, p) == [acts[0]] + rest;
        assert ([acts[0]] + rest)[1..] == rest;
      } else {
        assert Filter(acts, p) == rest;
      }
    }
  }

  /** The table's total for a runner is the one `getRankingData(year)`
      computes without a date range. */
  lemma ListTotalsAgree(cal: Calendar, year: int, c: Corredor)
    ensures TotalOf(ListItemOf(cal, year, c)) == TotalOf(ItemOf(cal, year, None, c))
  {
    YearTotalIsSum(cal, year, c.atividades, 0);
  }

  /** What the position cell shows. */
  datatype Mark = Crown | SilverMedal | BronzeMedal | Number(n: int)

  function MarkOf(posicao: int): Mark
  {
    if posicao == 1 then Crown
    else if posicao == 2 then SilverMedal
    else if posicao == 3 then BronzeMedal
    else Number(posicao)
  }

  /** One table row: position, its mark, the avatar source, the name, the
      "Top n" badge when there is one, and the total. */
  datatype Row = Row(posicao: int, mark: Mark, avatarSrc: string, nome: string, badge: Option<int>, distanciaTotalMetros: int)

  function RowOf(item: RankingItem, index: int): Row
  {
    var posicao := index + 1;
    Row(posicao, MarkOf(posicao), if Truthy(item.urlAvatar) then item.urlAvatar.value else "", item.nome,
        if posicao <= 3 then Some(posicao) else None, item.distanciaTotalMetros)
  }

  const LoadErrorText: string := "Erro ao carregar o ranking."

  /** The rendered component: the error message, or the table with its
      rows and, when there are none, the "no data for `year`" row. */
  datatype RankingView = LoadError(message: string) | Board(rows: seq<Row>, noDataFor: Option<int>)

  function RankingListView(cal: Calendar, year: int, query: Result<seq<Corredor>>): RankingView
  {
    if query.Err? then LoadError(LoadErrorText)
    else
      var ranking := SortDesc(ListItemsOf(cal, year, query.value), TotalOf);
      Board(seq(|ranking|, i requires 0 <= i < |ranking| => RowOf(ranking[i], i)),
            if |ranking| == 0 then Some(year) else None)
  }

  /** The position rule: row `i` is position `i + 1`; the crown marks the
      first, medals the second and third, `#n` every other; the badge shows
      exactly on the first three. */
  lemma PositionRule(cal: Calendar, year: int, rows: seq<Corredor>)
    ensures var v := RankingListView(cal, year, Ok(rows));
      && v.Board?
      && |v.rows| == |rows|
      && forall i :: 0 <= i < |v.rows| ==>
           && v.rows[i].posicao == i + 1
           && (v.rows[i].mark == Crown <==> i == 0)
           && (v.rows[i].mark == SilverMedal <==> i == 1)
           && (v.rows[i].mark == BronzeMedal <==> i == 2)
           && (i >= 3 ==> v.rows[i].mark == Number(i + 1))
           && (v.rows[i].badge.Some? <==> i < 3)
           && (v.rows[i].badge.Some? ==> v.rows[i].badge.value == i + 1)
  {
    var ranking := SortDesc(ListItemsOf(cal, year, rows), TotalOf);
    assert |multiset(ranking)| == |rows|;
  }

  /** The table lists every runner once, in non-increasing order of their
      year total; it shows the no-data row exactly when it has no rows; a
      failed query shows only the error. */
  lemma RankingListCases(cal: Calendar, year: int, query: Result<seq<Corredor>>)
    ensures query.Err? <==> RankingListView(cal, year, query) == LoadError(LoadErrorText)
    ensures query.Ok? ==>
      var v := RankingListView(cal, year, query);
      var ranking := SortDesc(ListItemsOf(cal, year, query.value), TotalOf);
      && v.Board?
      && (v.noDataFor.Some? <==> query.value == [])
      && (v.noDataFor.Some? ==> v.noDataFor.value == year && v.rows == [])
      && multiset(ranking) == multiset(ListItemsOf(cal, year, query.value))
      && (forall i :: 0 <= i < |v.rows| ==>
            v.rows[i].nome == ranking[i].nome && v.rows[i].distanciaTotalMetros == TotalOf(ranking[i]))
      && forall i, j :: 0 <= i < j < |v.rows| ==> v.rows[i].distanciaTotalMetros >= v.rows[j].distanciaTotalMetros
  {
    if query.Ok? {
      var ranking := SortDesc(ListItemsOf(cal, year, query.value), TotalOf);
      SortDescSorted(ListItemsOf(cal, year, query.value), TotalOf);
      assert |multiset(ranking)| == |query.value|;
    }
  }
}

/** The `Analytics` dashboard over a ranking: distance per month, distance
    per distance band, the month with the most distance, and the monthly
    series of the first three runners. Distances are integer metres; the
    charts show kilometres rounded with `Math.round`. */
module Analytics {
  import opened Outcome
  import opened Time
  import opened Units
  import opened Seqs
  import opened Ranking

  const Months: seq<string> := ["Jan", "Fev", "Mar", "Abr", "Mai", "Jun", "Jul", "Ago", "Set", "Out", "Nov", "Dez"]

  const FullMonths: seq<string> :=
    ["Janeiro", "Fevereiro", "Março", "Abril", "Maio", "Junho",
     "Julho", "Agosto", "Setembro", "Outubro", "Novembro", "Dezembro"]

  /** Every activity of the ranking, runner after runner. */
  function AllActivities(ranking: seq<RankingItem>): seq<Atividade>
  {
    if ranking == [] then [] else AllActivities(ranking[..|ranking| - 1]) + ranking[|ranking| - 1].atividades
  }

  function MonthOf(cal: Calendar, a: Atividade): Month
  {
    cal.utcMonth(cal.parse(a.dataInicio))
  }

  /** What an activity adds to month `m`. */
  function MonthShare(cal: Calendar, m: int): Atividade -> int
  {
    (a: Atividade) => if MonthOf(cal, a) == m then a.distancia else 0
  }

  // ---------------------------------------------------------------------
  // Months

  /** `monthlyDistance`: slot `m` holds the distance of the activities of
      UTC month `m`. */
  method MonthlyDistance(cal: Calendar, ranking: seq<RankingItem>) returns (monthlyDistance: array<int>)
    ensures fresh(monthlyDistance) && monthlyDistance.Length == 12
    ensures forall m :: 0 <= m < 12 ==> monthlyDistance[m] == Sum(AllActivities(ranking), MonthShare(cal, m))
  {
    monthlyDistance := new int[12](_ => 0);
    var i := 0;
    while i < |ranking|
      invariant 0 <= i <= |ranking|
      invariant forall m :: 0 <= m < 12 ==> monthlyDistance[m] == Sum(AllActivities(ranking[..i]), MonthShare(cal, m))
    {
      var done := AllActivities(ranking[..i]);
      var atividades := ranking[i].atividades;
      var j := 0;
      assert done + atividades[..j] == done;
      while j < |atividades|
        invariant 0 <= j <= |atividades|
        invariant forall m :: 0 <= m < 12 ==> monthlyDistance[m] == Sum(done + atividades[..j], MonthShare(cal, m))
      {
        var monthIndex := MonthOf(cal, atividades[j]);
        forall m | 0 <= m < 12
          ensures Sum(done + atividades[..j + 1], MonthShare(cal, m))
                  == Sum(done + atividades[..j], MonthShare(cal, m)) + MonthShare(cal, m)(atividades[j])
        {
          assert done + atividades[..j + 1] == (done + atividades[..j]) + [atividades[j]];
          SumSnoc(done + atividades[..j], atividades[j], MonthShare(cal, m));
        }
        monthlyDistance[monthIndex] := monthlyDistance[monthIndex] + atividades[j].distancia;
        j := j + 1;
      }
      assert ranking[..i + 1][..i] == ranking[..i];
      assert atividades[..j] == atividades;
      i := i + 1;
    }
    assert ranking[..i] == ranking;
  }

  /** The twelve month slots of the first `k` months, added up. */
  function MonthsUpTo(cal: Calendar, acts: seq<Atividade>, k: nat): int
  {
    if k == 0 then 0 else MonthsUpTo(cal, acts, k - 1) + Sum(acts, MonthShare(cal, k - 1))
  }

  lemma {:induction false} SharesUpTo(cal: Calendar, a: Atividade, rest: seq<Atividade>, k: nat)
    ensures MonthsUpTo(cal, [a] + rest, k)
            == MonthsUpTo(cal, rest, k) + (if MonthOf(cal, a) < k then a.distancia else 0)
  {
    if k > 0 {
      SharesUpTo(cal, a, rest, k - 1);
      var s := [a] + rest;
      assert s[0] == a && s[1..] == rest;
    }
  }

  /** Every activity lands in exactly one month: the slots add up to the
      total distance. */
  lemma {:induction false} MonthsCoverAll(cal: Calendar, acts: seq<Atividade>)
    ensures MonthsUpTo(cal, acts, 12) == Sum(acts, Distancia)
  {
    if acts == [] {
      ZeroUpTo(cal, 12);
    } else {
      MonthsCoverAll(cal, acts[1..]);
      assert acts == [acts[0]] + acts[1..];
      SharesUpTo(cal, acts[0], acts[1..], 12);
    }
  }

  lemma {:induction false} ZeroUpTo(cal: Calendar, k: nat)
    ensures MonthsUpTo(cal, [], k) == 0
  {
    if k > 0 {
      ZeroUpTo(cal, k - 1);
    }
  }

  /** `months.map(...)` over the slots: each month with its rounded
      kilometres. */
  datatype RadarPoint = RadarPoint(month: string, distance: int)

  function RadarData(monthlyDistance: seq<int>): (radar: seq<RadarPoint>)
    requires |monthlyDistance| == 12
    ensures |radar| == 12
    ensures forall m :: 0 <= m < 12 ==>
      radar[m].month == Months[m] && RoundKm(monthlyDistance[m]) == radar[m].distance
  {
    seq(12, m requires 0 <= m < 12 => RadarPoint(Months[m], RoundKm(monthlyDistance[m])))
  }

  /** The reduce of `maxMonthIndex` over the first `n` slots: it moves on
      only to a strictly larger value. */
  function FirstMaxIndex(s: seq<int>, n: nat): (r: nat)
    requires 0 < n <= |s|
    ensures r < n
    ensures forall j :: 0 <= j < n ==> s[j] <= s[r]
    ensures forall j :: 0 <= j < r ==> s[j] < s[r]
  {
    if n == 1 then 0
    else
      var best := FirstMaxIndex(s, n - 1);
      if s[n - 1] > s[best] then n - 1 else best
  }

  /** `maxMonthIndex`: the first slot holding the largest distance; 0 for
      no slots, the reduce's initial value. */
  function MaxMonthIndex(monthlyDistance: seq<int>): (r: nat)
    ensures |monthlyDistance| == 0 ==> r == 0
    ensures |monthlyDistance| > 0 ==>
      && r < |monthlyDistance|
      && (forall j :: 0 <= j < |monthlyDistance| ==> monthlyDistance[j] <= monthlyDistance[r])
      && (forall j :: 0 <= j < r ==> monthlyDistance[j] < monthlyDistance[r])
  {
    if |monthlyDistance| == 0 then 0 else FirstMaxIndex(monthlyDistance, |monthlyDistance|)
  }

  // ---------------------------------------------------------------------
  // Distance bands

  datatype Bucket = UpTo3 | UpTo5 | UpTo10 | UpTo21 | UpTo42 | Ultra

  /** The band of one activity; every upper bound is inclusive. */
  function BucketOf(distancia: int): (b: Bucket)
    ensures b == UpTo3 <==> distancia <= 3000
    ensures b == UpTo5 <==> 3000 < distancia <= 5000
    ensures b == UpTo10 <==> 5000 < distancia <= 10000
    ensures b == UpTo21 <==> 10000 < distancia <= 21000
    ensures b == UpTo42 <==> 21000 < distancia <= 42000
    ensures b == Ultra <==> 42000 < distancia
  {
    if distancia <= 3000 then UpTo3
    else if distancia <= 5000 then UpTo5
    else if distancia <= 10000 then UpTo10
    else if distancia <= 21000 then UpTo21
    else if distancia <= 42000 then UpTo42
    else Ultra
  }

  /** What an activity adds to band `b`. */
  function BucketShare(b: Bucket): Atividade -> int
  {
    (a: Atividade) => if BucketOf(a.distancia) == b then a.distancia else 0
  }

  /** The `buckets` record. */
  datatype Buckets = Buckets(km3: int, km5: int, km10: int, km21: int, km42: int, ultra: int)
  {
    function Get(b: Bucket): int
    {
      match b
      case UpTo3 => km3
      case UpTo5 => km5
      case UpTo10 => km10
      case UpTo21 => km21
      case UpTo42 => km42
      case Ultra => ultra
    }

    function Add(b: Bucket, d: int): (r: Buckets)
      ensures r.Get(b) == Get(b) + d
      ensures forall c :: c != b ==> r.Get(c) == Get(c)
    {
      match b
      case UpTo3 => this.(km3 := km3 + d)
      case UpTo5 => this.(km5 := km5 + d)
      case UpTo10 => this.(km10 := km10 + d)
      case UpTo21 => this.(km21 := km21 + d)
      case UpTo42 => this.(km42 := km42 + d)
      case Ultra => this.(ultra := ultra + d)
    }

    function Total(): int
    {
      km3 + km5 + km10 + km21 + km42 + ultra
    }
  }

  /** The `forEach` filling `buckets`: each band holds the distance of the
      activities in it. */
  method ClassifyDistances(ranking: seq<RankingItem>) returns (buckets: Buckets)
    ensures forall b :: buckets.Get(b) == Sum(AllActivities(ranking), BucketShare(b))
  {
    buckets := Buckets(0, 0, 0, 0, 0, 0);
    var i := 0;
    while i < |ranking|
      invariant 0 <= i <= |ranking|
      invariant forall b :: buckets.Get(b) == Sum(AllActivities(ranking[..i]), BucketShare(b))
    {
      var done := AllActivities(ranking[..i]);
      var atividades := ranking[i].atividades;
      var j := 0;
      assert done + atividades[..j] == done;
      while j < |atividades|
        invariant 0 <= j <= |atividades|
        invariant forall b :: buckets.Get(b) == Sum(done + atividades[..j], BucketShare(b))
      {
        forall b
          ensures Sum(done + atividades[..j + 1], BucketShare(b))
                  == Sum(done + atividades[..j], BucketShare(b)) + BucketShare(b)(atividades[j])
        {
          assert done + atividades[..j + 1] == (done + atividades[..j]) + [atividades[j]];
          SumSnoc(done + atividades[..j], atividades[j], BucketShare(b));
        }
        buckets := buckets.Add(BucketOf(atividades[j].distancia), atividades[j].distancia);
        j := j + 1;
      }
      assert ranking[..i + 1][..i] == ranking[..i];
      assert atividades[..j] == atividades;
      i := i + 1;
    }
    assert ranking[..i] == ranking;
  }

  /** The bands of `acts`, as the loop above leaves them. */
  function BucketsOf(acts: seq<Atividade>): (r: Buckets)
  {
    Buckets(Sum(acts, BucketShare(UpTo3)), Sum(acts, BucketShare(UpTo5)), Sum(acts, BucketShare(UpTo10)),
            Sum(acts, BucketShare(UpTo21)), Sum(acts, BucketShare(UpTo42)), Sum(acts, BucketShare(Ultra)))
  }

  /** One activity's shares of the six bands add up to its distance. */
  lemma OneBandPerActivity(a: Atividade)
    ensures BucketShare(UpTo3)(a) + BucketShare(UpTo5)(a) + BucketShare(UpTo10)(a)
      + BucketShare(UpTo21)(a) + BucketShare(UpTo42)(a) + BucketShare(Ultra)(a) == a.distancia
  {
    match BucketOf(a.distancia)
    case UpTo3 =>
    case UpTo5 =>
    case UpTo10 =>
    case UpTo21 =>
    case UpTo42 =>
    case Ultra =>
  }

  /** Six per-activity shares that always add up to `g` add up to `g`
      over any list of activities. */
  lemma {:induction false} SharesAddUp(acts: seq<Atividade>, f1: Atividade -> int, f2: Atividade -> int,
                                       f3: Atividade -> int, f4: Atividade -> int, f5: Atividade -> int,
                                       f6: Atividade -> int, g: Atividade -> int)
    requires forall a :: f1(a) + f2(a) + f3(a) + f4(a) + f5(a) + f6(a) == g(a)
    ensures Sum(acts, f1) + Sum(acts, f2) + Sum(acts, f3) + Sum(acts, f4) + Sum(acts, f5) + Sum(acts, f6)
      == Sum(acts, g)
  {
    if acts != [] {
      SharesAddUp(acts[1..], f1, f2, f3, f4, f5, f6, g);
      assert f1(acts[0]) + f2(acts[0]) + f3(acts[0]) + f4(acts[0]) + f5(acts[0]) + f6(acts[0]) == g(acts[0]);
    }
  }

  /** Every activity lands in exactly one band: the bands add up to the
      total distance. */
  lemma BucketsCoverAll(acts: seq<Atividade>)
    ensures BucketsOf(acts).Total() == Sum(acts, Distancia)
  {
    forall a: Atividade
      ensures BucketShare(UpTo3)(a) + BucketShare(UpTo5)(a) + BucketShare(UpTo10)(a)
        + BucketShare(UpTo21)(a) + BucketShare(UpTo42)(a) + BucketShare(Ultra)(a) == Distancia(a)
    {
      OneBandPerActivity(a);
    }
    SharesAddUp(acts, BucketShare(UpTo3), BucketShare(UpTo5), BucketShare(UpTo10),
                BucketShare(UpTo21), BucketShare(UpTo42), BucketShare(Ultra), Distancia);
  }

  /** A slice of the pie chart. */
  datatype Slice = Slice(range: string, distance: int)

  const BucketOrder: seq<Bucket> := [UpTo3, UpTo5, UpTo10, UpTo21, UpTo42, Ultra]
  const Ranges: seq<string> := ["Até 3km", "3-5km", "5-10km", "10-21km", "21-42km", "+42km"]

  /** The six slices in band order, with rounded kilometres. */
  function AllSlices(buckets: Buckets): (slices: seq<Slice>)
    ensures |slices| == 6
    ensures forall i :: 0 <= i < 6 ==> slices[i] == Slice(Ranges[i], RoundKm(buckets.Get(BucketOrder[i])))
  {
    seq(6, i requires 0 <= i < 6 => Slice(Ranges[i], RoundKm(buckets.Get(BucketOrder[i]))))
  }

  function IsVisible(s: Slice): bool
  {
    s.distance > 0
  }

  function SliceDistance(s: Slice): int
  {
    s.distance
  }

  /** `pieData`: the slices whose rounded distance is positive, in band
      order. */
  function PieData(buckets: Buckets): seq<Slice>
  {
    Filter(AllSlices(buckets), IsVisible)
  }

  /** The pie keeps exactly the bands of at least half a kilometre, in band
      order. */
  lemma PieKeepsVisibleBands(buckets: Buckets)
    ensures Subsequence(PieData(buckets), AllSlices(buckets))
    ensures forall i :: 0 <= i < 6 ==>
      (Slice(Ranges[i], RoundKm(buckets.Get(BucketOrder[i]))) in PieData(buckets)
        <== buckets.Get(BucketOrder[i]) >= 500)
    ensures forall s :: s in PieData(buckets) ==> s in AllSlices(buckets) && s.distance > 0
  {
    FilterSubsequence(AllSlices(buckets), IsVisible);
    forall s | s in PieData(buckets) ensures s in AllSlices(buckets) && s.distance > 0 {
      var i :| 0 <= i < |PieData(buckets)| && PieData(buckets)[i] == s;
    }
  }

  /** `totalDistance`, the centre label of the pie: with no negative
      distances, the removed slices are the empty ones, so it is the sum
      of all six rounded bands. */
  lemma PieTotalIsBandTotal(buckets: Buckets)
    requires forall b :: buckets.Get(b) >= 0
    ensures Sum(PieData(buckets), SliceDistance) == Sum(AllSlices(buckets), SliceDistance)
  {
    var all := AllSlices(buckets);
    forall i | 0 <= i < |all| && !IsVisible(all[i]) ensures SliceDistance(all[i]) == 0 {
      assert RoundKm(buckets.Get(BucketOrder[i])) >= 0;
    }
    SumFilterDropsZeros(all, IsVisible, SliceDistance);
  }

  // ---------------------------------------------------------------------
  // The first three runners

  /** `ranking.slice(0, 3)`. */
  function Top3(ranking: seq<RankingItem>): (top: seq<RankingItem>)
    ensures |top| == if |ranking| < 3 then |ranking| else 3
    ensures forall i :: 0 <= i < |top| ==> top[i] == ranking[i]
  {
    ranking[..if |ranking| < 3 then |ranking| else 3]
  }

  /** `nome.split(" ")[0]`: the text before the first space. */
  function FirstWord(nome: string): (w: string)
    ensures |w| <= |nome| && w == nome[..|w|]
    ensures ' ' !in w
    ensures |w| < |nome| ==> nome[|w|] == ' '
  {
    if nome == [] || nome[0] == ' ' then []
    else [nome[0]] + FirstWord(nome[1..])
  }

  /** One point of the area chart: the month and one value per runner. */
  datatype DataPoint = DataPoint(month: string, runners: seq<int>)

  /** The inner `forEach`: a runner's distance in month `m`. */
  method RunnerMonthDistance(cal: Calendar, runner: RankingItem, m: int) returns (monthlyDist: int)
    ensures monthlyDist == Sum(runner.atividades, MonthShare(cal, m))
  {
    monthlyDist := 0;
    var j := 0;
    while j < |runner.atividades|
      invariant 0 <= j <= |runner.atividades|
      invariant monthlyDist == Sum(runner.atividades[..j], MonthShare(cal, m))
    {
      assert runner.atividades[..j + 1] == runner.atividades[..j] + [runner.atividades[j]];
      SumSnoc(runner.atividades[..j], runner.atividades[j], MonthShare(cal, m));
      if MonthOf(cal, runner.atividades[j]) == m {
        monthlyDist := monthlyDist + runner.atividades[j].distancia;
      }
      j := j + 1;
    }
    assert runner.atividades[..j] == runner.atividades;
  }

  /** Runner `i`'s value in month `m` of the area series. */
  function SeriesValue(cal: Calendar, top: seq<RankingItem>, m: int, i: int): int
    requires 0 <= i < |top|
  {
    RoundKm(Sum(top[i].atividades, MonthShare(cal, m)))
  }

  /** `areaChartData`: for each month, each of the runners' rounded
      distance in that month, filled one runner at a time. */
  method AreaChartData(cal: Calendar, top: seq<RankingItem>) returns (points: seq<DataPoint>)
    ensures |points| == 12
    ensures forall m :: 0 <= m < 12 ==> points[m].month == Months[m] && |points[m].runners| == |top|
    ensures forall m, i :: 0 <= m < 12 && 0 <= i < |top| ==> points[m].runners[i] == SeriesValue(cal, top, m, i)
  {
    points := [];
    var m := 0;
    while m < 12
      invariant 0 <= m <= 12 && |points| == m
      invariant forall k :: 0 <= k < m ==> points[k].month == Months[k] && |points[k].runners| == |top|
      invariant forall k, i :: 0 <= k < m && 0 <= i < |top| ==> points[k].runners[i] == SeriesValue(cal, top, k, i)
    {
      var values: seq<int> := [];
      var i := 0;
      while i < |top|
        invariant 0 <= i <= |top| && |values| == i
        invariant forall r :: 0 <= r < i ==> values[r] == SeriesValue(cal, top, m, r)
      {
        var monthlyDist := RunnerMonthDistance(cal, top[i], m);
        values := values + [RoundKm(monthlyDist)];
        i := i + 1;
      }
      points := points + [DataPoint(Months[m], values)];
      m := m + 1;
    }
  }

  // ---------------------------------------------------------------------
  // The dashboard

  /** The monthly slots, as a specification. */
  function MonthlyOf(cal: Calendar, ranking: seq<RankingItem>): (monthly: seq<int>)
    ensures |monthly| == 12
  {
    seq(12, m requires 0 <= m < 12 => Sum(AllActivities(ranking), MonthShare(cal, m)))
  }

  /** What the component renders for a non-empty ranking. */
  datatype Dashboard = Dashboard(
    radar: seq<RadarPoint>,
    peakMonth: string,
    pie: seq<Slice>,
    totalDistance: int,
    legend: seq<string>,
    area: seq<DataPoint>)

  /** The legend of the area chart: each runner's first name. */
  function Legend(top: seq<RankingItem>): seq<string>
  {
    seq(|top|, i requires 0 <= i < |top| => FirstWord(top[i].nome))
  }

  /** The area series as a specification of `AreaChartData`. */
  function AreaOf(cal: Calendar, top: seq<RankingItem>): seq<DataPoint>
  {
    seq(12, m requires 0 <= m < 12 =>
      DataPoint(Months[m], seq(|top|, i requires 0 <= i < |top| => SeriesValue(cal, top, m, i))))
  }

  function DashboardOf(cal: Calendar, ranking: seq<RankingItem>): Dashboard
  {
    var monthly := MonthlyOf(cal, ranking);
    var pie := PieData(BucketsOf(AllActivities(ranking)));
    var top := Top3(ranking);
    Dashboard(RadarData(monthly), FullMonths[MaxMonthIndex(monthly)], pie, Sum(pie, SliceDistance),
              Legend(top), AreaOf(cal, top))
  }

  /** The component: nothing for an empty ranking. */
  method RenderAnalytics(cal: Calendar, ranking: seq<RankingItem>) returns (view: Option<Dashboard>)
    ensures view == if ranking == [] then None else Some(DashboardOf(cal, ranking))
  {
    var monthlyDistance := MonthlyDistance(cal, ranking);
    var monthly := monthlyDistance[..];
    assert monthly == MonthlyOf(cal, ranking);
    var radarData := RadarData(monthly);
    var buckets := ClassifyDistances(ranking);
    assert buckets == BucketsOf(AllActivities(ranking)) by {
      assert buckets.km3 == buckets.Get(UpTo3) && buckets.km5 == buckets.Get(UpTo5);
      assert buckets.km10 == buckets.Get(UpTo10) && buckets.km21 == buckets.Get(UpTo21);
      assert buckets.km42 == buckets.Get(UpTo42) && buckets.ultra == buckets.Get(Ultra);
    }
    var pieData := PieData(buckets);
    var totalDistance := Sum(pieData, SliceDistance);
    var maxMonthIndex := MaxMonthIndex(monthly);
    var top3 := Top3(ranking);
    var areaChartData := AreaChartData(cal, top3);
    var legend := Legend(top3);
    if |ranking| == 0 {
      return None;
    }
    forall m | 0 <= m < 12
      ensures areaChartData[m] == AreaOf(cal, top3)[m]
    {
      assert areaChartData[m].runners == AreaOf(cal, top3)[m].runners;
    }
    assert areaChartData == AreaOf(cal, top3);
    view := Some(Dashboard(radarData, FullMonths[maxMonthIndex], pieData, totalDistance, legend, areaChartData));
  }

  /** The distance shown per month adds up, over the year, to the distance
      of every activity of the ranking. */
  lemma MonthlyAddsUp(cal: Calendar, ranking: seq<RankingItem>)
    ensures var monthly := MonthlyOf(cal, ranking);
      monthly[0] + monthly[1] + monthly[2] + monthly[3] + monthly[4] + monthly[5] + monthly[6]
        + monthly[7] + monthly[8] + monthly[9] + monthly[10] + monthly[11]
      == Sum(AllActivities(ranking), Distancia)
  {
    var acts := AllActivities(ranking);
    var monthly := MonthlyOf(cal, ranking);
    MonthsCoverAll(cal, acts);
    forall k | 1 <= k <= 12 ensures MonthsUpTo(cal, acts, k) == MonthsUpTo(cal, acts, k - 1) + monthly[k - 1] {
    }
    assert MonthsUpTo(cal, acts, 0) == 0;
  }
}

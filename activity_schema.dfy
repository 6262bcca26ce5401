/** The zod schema of a Strava activity, with its optional nested `map` and
    `athlete` objects. */
module ActivitySchema {
  import opened Outcome
  import opened Json
  import opened RunnerSchema

  /** The nested `map` object. */
  datatype RouteMap = RouteMap(id: string, summaryPolyline: Nullish<string>, resourceState: Option<int>)

  datatype StravaActivity = StravaActivity(
    id: int,
    name: string,
    distance: int,
    movingTime: int,
    elapsedTime: int,
    totalElevationGain: int,
    activityType: string,
    startDate: string,
    startDateLocal: string,
    timezone: string,
    utcOffset: int,
    routeMap: Option<RouteMap>,
    athleteId: Option<int>)

  /** The only constraints beyond JSON types: both start dates are datetime
      strings. `type` is any string; it is not restricted to "Run". */
  predicate ValidActivity(f: Formats, a: StravaActivity)
  {
    f.isDatetime(a.startDate) && f.isDatetime(a.startDateLocal)
  }

  /** The optional `map` key: absent, or an object with a string `id`. */
  function ParseRouteMap(o: map<string, Json>): (r: Option<Option<RouteMap>>)
    ensures r == Some(None) <==> "map" !in o
  {
    if "map" !in o then Some(None)
    else if !o["map"].JObj? then None
    else
      var m := o["map"].fields;
      var id := StringAt(m, "id");
      var polyline := NullishStringAt(m, "summary_polyline");
      var state := OptionalNumberAt(m, "resource_state");
      if id.Some? && polyline.Some? && state.Some?
      then Some(Some(RouteMap(id.value, polyline.value, state.value)))
      else None
  }

  /** The optional `athlete` key: absent, or an object with a numeric `id`. */
  function ParseActivityAthlete(o: map<string, Json>): (r: Option<Option<int>>)
    ensures r == Some(None) <==> "athlete" !in o
  {
    if "athlete" !in o then Some(None)
    else if !o["athlete"].JObj? then None
    else
      var id := NumberAt(o["athlete"].fields, "id");
      if id.Some? then Some(Some(id.value)) else None
  }

  /** `SchemaAtividadeStrava.parse`. */
  function ParseActivity(f: Formats, j: Json): (r: Option<StravaActivity>)
    ensures r.Some? ==> ValidActivity(f, r.value)
  {
    if !j.JObj? then None
    else
      var o := j.fields;
      var id := NumberAt(o, "id");
      var name := StringAt(o, "name");
      var distance := NumberAt(o, "distance");
      var moving := NumberAt(o, "moving_time");
      var elapsed := NumberAt(o, "elapsed_time");
      var elevation := NumberAt(o, "total_elevation_gain");
      var kind := StringAt(o, "type");
      var start := StringAt(o, "start_date");
      var startLocal := StringAt(o, "start_date_local");
      var zone := StringAt(o, "timezone");
      var offset := NumberAt(o, "utc_offset");
      var routeMap := ParseRouteMap(o);
      var athlete := ParseActivityAthlete(o);
      if id.Some? && name.Some? && distance.Some? && moving.Some? && elapsed.Some?
        && elevation.Some? && kind.Some? && start.Some? && startLocal.Some? && zone.Some?
        && offset.Some? && routeMap.Some? && athlete.Some?
        && f.isDatetime(start.value) && f.isDatetime(startLocal.value)
      then Some(StravaActivity(id.value, name.value, distance.value, moving.value, elapsed.value,
                               elevation.value, kind.value, start.value, startLocal.value,
                               zone.value, offset.value, routeMap.value, athlete.value))
      else None
  }

  /** `z.array(SchemaAtividadeStrava).parse`: all elements or nothing. */
  function ParseActivities(f: Formats, items: seq<Json>): (r: Option<seq<StravaActivity>>)
    ensures r.Some? ==> |r.value| == |items|
    ensures r.Some? ==> forall i :: 0 <= i < |items| ==> ParseActivity(f, items[i]) == Some(r.value[i])
    ensures r.None? ==> exists i :: 0 <= i < |items| && ParseActivity(f, items[i]).None?
  {
    if items == [] then Some([])
    else
      var init := ParseActivities(f, items[..|items| - 1]);
      var last := ParseActivity(f, items[|items| - 1]);
      if init.Some? && last.Some? then Some(init.value + [last.value]) else None
  }

  function EncodeNullish(s: Nullish<string>): Json
    requires !s.Missing?
  {
    if s.Null? then JNull else JStr(s.value)
  }

  function EncodeRouteMap(m: RouteMap): Json
  {
    var base := map["id" := JStr(m.id)];
    var withLine := if m.summaryPolyline.Missing? then base
                    else base["summary_polyline" := EncodeNullish(m.summaryPolyline)];
    JObj(if m.resourceState.Some? then withLine["resource_state" := JNum(m.resourceState.value)]
         else withLine)
  }

  /** The required keys of an encoded activity. */
  function EncodeRequired(a: StravaActivity): map<string, Json>
  {
    map[
      "id" := JNum(a.id),
      "name" := JStr(a.name),
      "distance" := JNum(a.distance),
      "moving_time" := JNum(a.movingTime),
      "elapsed_time" := JNum(a.elapsedTime),
      "total_elevation_gain" := JNum(a.totalElevationGain),
      "type" := JStr(a.activityType),
      "start_date" := JStr(a.startDate),
      "start_date_local" := JStr(a.startDateLocal),
      "timezone" := JStr(a.timezone),
      "utc_offset" := JNum(a.utcOffset)]
  }

  function EncodeActivity(a: StravaActivity): Json
  {
    var base := EncodeRequired(a);
    var withMap := if a.routeMap.Some? then base["map" := EncodeRouteMap(a.routeMap.value)] else base;
    JObj(if a.athleteId.Some? then withMap["athlete" := JObj(map["id" := JNum(a.athleteId.value)])]
         else withMap)
  }

  lemma RouteMapRoundTrip(m: RouteMap)
    ensures ParseRouteMap(map["map" := EncodeRouteMap(m)]) == Some(Some(m))
  {
  }

  /** The numeric required fields, as read from `o`. */
  predicate NumbersRead(o: map<string, Json>, a: StravaActivity)
  {
    && NumberAt(o, "id") == Some(a.id)
    && NumberAt(o, "distance") == Some(a.distance)
    && NumberAt(o, "moving_time") == Some(a.movingTime)
    && NumberAt(o, "elapsed_time") == Some(a.elapsedTime)
    && NumberAt(o, "total_elevation_gain") == Some(a.totalElevationGain)
    && NumberAt(o, "utc_offset") == Some(a.utcOffset)
  }

  /** The string required fields, as read from `o`. */
  predicate StringsRead(o: map<string, Json>, a: StravaActivity)
  {
    && StringAt(o, "name") == Some(a.name)
    && StringAt(o, "type") == Some(a.activityType)
    && StringAt(o, "start_date") == Some(a.startDate)
    && StringAt(o, "start_date_local") == Some(a.startDateLocal)
    && StringAt(o, "timezone") == Some(a.timezone)
  }

  /** The required fields, read from any object that agrees with the
      encoding on the required keys. */
  predicate RequiredFieldsRead(o: map<string, Json>, a: StravaActivity)
  {
    NumbersRead(o, a) && StringsRead(o, a)
  }

  /** `o` holds the required keys of `a`'s encoding, unchanged. */
  predicate HoldsRequired(o: map<string, Json>, a: StravaActivity)
  {
    forall k :: k in EncodeRequired(a) ==> k in o && o[k] == EncodeRequired(a)[k]
  }

  lemma NumbersOfEncoding(a: StravaActivity, o: map<string, Json>)
    requires HoldsRequired(o, a)
    ensures NumbersRead(o, a)
  {
    var e := EncodeRequired(a);
    assert "id" in e && "distance" in e && "moving_time" in e;
    assert "elapsed_time" in e && "total_elevation_gain" in e && "utc_offset" in e;
  }

  lemma StringsOfEncoding(a: StravaActivity, o: map<string, Json>)
    requires HoldsRequired(o, a)
    ensures StringsRead(o, a)
  {
    var e := EncodeRequired(a);
    assert "name" in e && "type" in e && "start_date" in e;
    assert "start_date_local" in e && "timezone" in e;
  }

  /** Each key of an encoded activity reads back as the field it encodes. */
  lemma EncodedActivityFields(a: StravaActivity)
    ensures RequiredFieldsRead(EncodeActivity(a).fields, a)
    ensures ParseRouteMap(EncodeActivity(a).fields) == Some(a.routeMap)
    ensures ParseActivityAthlete(EncodeActivity(a).fields) == Some(a.athleteId)
  {
    var o := EncodeActivity(a).fields;
    var e := EncodeRequired(a);
    assert "map" !in e && "athlete" !in e;
    forall k | k in e ensures k in o && o[k] == e[k] {
      assert k != "map" && k != "athlete";
    }
    NumbersOfEncoding(a, o);
    StringsOfEncoding(a, o);
    if a.routeMap.Some? {
      RouteMapRoundTrip(a.routeMap.value);
      assert o["map"] == EncodeRouteMap(a.routeMap.value);
    }
  }

  /** Every valid activity survives encoding and parsing, whatever its type
      and whichever optional parts it has. */
  lemma ActivityRoundTrip(f: Formats, a: StravaActivity)
    requires ValidActivity(f, a)
    ensures ParseActivity(f, EncodeActivity(a)) == Some(a)
  {
    EncodedActivityFields(a);
  }

  lemma RequiredFieldsEmbedded(a: StravaActivity, o: map<string, Json>)
    requires RequiredFieldsRead(o, a)
    ensures HoldsRequired(o, a)
  {
  }

  lemma RouteMapSound(o: map<string, Json>)
    requires ParseRouteMap(o).Some? && ParseRouteMap(o).value.Some?
    ensures "map" in o && EmbeddedIn(EncodeRouteMap(ParseRouteMap(o).value.value), o["map"])
  {
  }

  /** The fields the parser read are the fields of its result. */
  lemma ParsedActivityFields(f: Formats, j: Json)
    requires ParseActivity(f, j).Some?
    ensures RequiredFieldsRead(j.fields, ParseActivity(f, j).value)
    ensures ParseRouteMap(j.fields) == Some(ParseActivity(f, j).value.routeMap)
    ensures ParseActivityAthlete(j.fields) == Some(ParseActivity(f, j).value.athleteId)
  {
  }

  /** Where each key of an encoded activity comes from. */
  lemma EncodedKeys(a: StravaActivity, k: string)
    requires k in EncodeActivity(a).fields
    ensures k == "map" ==> a.routeMap.Some? && EncodeActivity(a).fields[k] == EncodeRouteMap(a.routeMap.value)
    ensures k == "athlete" ==> a.athleteId.Some? && EncodeActivity(a).fields[k] == JObj(map["id" := JNum(a.athleteId.value)])
    ensures k != "map" && k != "athlete" ==> k in EncodeRequired(a) && EncodeActivity(a).fields[k] == EncodeRequired(a)[k]
  {
    assert "map" !in EncodeRequired(a) && "athlete" !in EncodeRequired(a);
  }

  /** One key of the encoding of what was read is embedded in `o`. */
  lemma EmbeddedKey(a: StravaActivity, o: map<string, Json>, k: string)
    requires HoldsRequired(o, a)
    requires ParseRouteMap(o) == Some(a.routeMap)
    requires ParseActivityAthlete(o) == Some(a.athleteId)
    requires k in EncodeActivity(a).fields
    ensures k in o && EmbeddedIn(EncodeActivity(a).fields[k], o[k])
  {
    EncodedKeys(a, k);
    if k == "map" {
      RouteMapSound(o);
    } else if k == "athlete" {
      assert o["athlete"].JObj? && NumberAt(o["athlete"].fields, "id") == Some(a.athleteId.value);
    } else {
      EmbeddedReflexive(o[k]);
    }
  }

  lemma EmbeddedFromFields(a: StravaActivity, o: map<string, Json>)
    requires RequiredFieldsRead(o, a)
    requires ParseRouteMap(o) == Some(a.routeMap)
    requires ParseActivityAthlete(o) == Some(a.athleteId)
    ensures EmbeddedIn(EncodeActivity(a), JObj(o))
  {
    var e := EncodeActivity(a).fields;
    RequiredFieldsEmbedded(a, o);
    forall k | k in e ensures k in o && EmbeddedIn(e[k], o[k]) {
      EmbeddedKey(a, o, k);
    }
  }

  /** What the parser accepts is its input with unknown keys stripped. */
  lemma ParseActivitySound(f: Formats, j: Json)
    requires ParseActivity(f, j).Some?
    ensures EmbeddedIn(EncodeActivity(ParseActivity(f, j).value), j)
  {
    ParsedActivityFields(f, j);
    EmbeddedFromFields(ParseActivity(f, j).value, j.fields);
  }

  /** A list is accepted exactly when every element is. */
  lemma {:induction false} ParseActivitiesAllOrNothing(f: Formats, items: seq<Json>)
    ensures ParseActivities(f, items).Some? <==> forall i :: 0 <= i < |items| ==> ParseActivity(f, items[i]).Some?
  {
  }

  /** Round trip of a whole list of valid activities. */
  lemma ActivitiesRoundTrip(f: Formats, acts: seq<StravaActivity>)
    requires forall i :: 0 <= i < |acts| ==> ValidActivity(f, acts[i])
    ensures ParseActivities(f, seq(|acts|, i requires 0 <= i < |acts| => EncodeActivity(acts[i]))) == Some(acts)
  {
    var items := seq(|acts|, i requires 0 <= i < |acts| => EncodeActivity(acts[i]));
    forall i | 0 <= i < |items| ensures ParseActivity(f, items[i]) == Some(acts[i]) {
      ActivityRoundTrip(f, acts[i]);
    }
    var r := ParseActivities(f, items);
    assert r.Some?;
    assert |r.value| == |acts|;
    assert forall i :: 0 <= i < |acts| ==> r.value[i] == acts[i];
    assert r.value == acts;
  }

  /** A route map leaves out the optional keys it does not have. */
  predicate RouteMapKeysAbsent(m: RouteMap, o: map<string, Json>)
  {
    && (m.summaryPolyline.Missing? ==> "summary_polyline" !in o)
    && (m.resourceState.None? ==> "resource_state" !in o)
  }

  /** An activity leaves out the optional keys it does not have, its
      `map` included. */
  predicate ActivityKeysAbsent(a: StravaActivity, o: map<string, Json>)
  {
    && (a.routeMap.None? ==> "map" !in o)
    && (a.athleteId.None? ==> "athlete" !in o)
    && (a.routeMap.Some? && "map" in o && o["map"].JObj? ==> RouteMapKeysAbsent(a.routeMap.value, o["map"].fields))
  }

  /** A `map` object with extra keys still reads as its route map. */
  lemma RouteMapAcceptsExtraKeys(m: RouteMap, o: map<string, Json>)
    requires "map" in o && o["map"].JObj? && EmbeddedIn(EncodeRouteMap(m), o["map"])
    requires RouteMapKeysAbsent(m, o["map"].fields)
    ensures ParseRouteMap(o) == Some(Some(m))
  {
    var e := EncodeRouteMap(m).fields;
    var mo := o["map"].fields;
    assert "id" in e;
    EmbeddedScalar(e["id"], mo["id"]);
    if !m.summaryPolyline.Missing? {
      assert "summary_polyline" in e;
      EmbeddedScalar(e["summary_polyline"], mo["summary_polyline"]);
    }
    if m.resourceState.Some? {
      assert "resource_state" in e;
      EmbeddedScalar(e["resource_state"], mo["resource_state"]);
    }
  }

  /** The required keys of an embedded encoding are in the input as they are. */
  lemma HoldsRequiredOfEmbedded(a: StravaActivity, o: map<string, Json>)
    requires EmbeddedIn(EncodeActivity(a), JObj(o))
    ensures HoldsRequired(o, a)
  {
    var e := EncodeActivity(a).fields;
    forall k | k in EncodeRequired(a) ensures k in o && o[k] == EncodeRequired(a)[k] {
      assert "map" !in EncodeRequired(a) && "athlete" !in EncodeRequired(a);
      assert k in e && e[k] == EncodeRequired(a)[k];
      EmbeddedScalar(e[k], o[k]);
    }
  }

  /** An object whose keys read as an activity's fields parses to it. */
  lemma ParseActivityOfFields(f: Formats, a: StravaActivity, o: map<string, Json>)
    requires ValidActivity(f, a) && RequiredFieldsRead(o, a)
    requires ParseRouteMap(o) == Some(a.routeMap) && ParseActivityAthlete(o) == Some(a.athleteId)
    ensures ParseActivity(f, JObj(o)) == Some(a)
  {
  }

  lemma RouteMapOfEmbedded(a: StravaActivity, o: map<string, Json>)
    requires EmbeddedIn(EncodeActivity(a), JObj(o)) && ActivityKeysAbsent(a, o)
    ensures ParseRouteMap(o) == Some(a.routeMap)
  {
    if a.routeMap.Some? {
      EncodedKeys(a, "map");
      assert "map" in EncodeActivity(a).fields;
      RouteMapAcceptsExtraKeys(a.routeMap.value, o);
    }
  }

  lemma AthleteOfEmbedded(a: StravaActivity, o: map<string, Json>)
    requires EmbeddedIn(EncodeActivity(a), JObj(o)) && ActivityKeysAbsent(a, o)
    ensures ParseActivityAthlete(o) == Some(a.athleteId)
  {
    if a.athleteId.Some? {
      var e := EncodeActivity(a).fields;
      EncodedKeys(a, "athlete");
      assert "athlete" in e;
      var ae := e["athlete"];
      assert "id" in ae.fields;
      EmbeddedScalar(ae.fields["id"], o["athlete"].fields["id"]);
    }
  }

  /** zod strips unknown keys at every level: any object that carries a
      valid activity's keys, with extra keys beside them or inside `map`
      and `athlete`, parses to that activity. */
  lemma ParseActivityAcceptsExtraKeys(f: Formats, a: StravaActivity, j: Json)
    requires ValidActivity(f, a) && j.JObj? && EmbeddedIn(EncodeActivity(a), j)
    requires ActivityKeysAbsent(a, j.fields)
    ensures ParseActivity(f, j) == Some(a)
  {
    var o := j.fields;
    HoldsRequiredOfEmbedded(a, o);
    NumbersOfEncoding(a, o);
    StringsOfEncoding(a, o);
    RouteMapOfEmbedded(a, o);
    AthleteOfEmbedded(a, o);
    ParseActivityOfFields(f, a, o);
  }

  /** `j` is an object carrying the valid activity `a`'s keys, extra keys allowed. */
  predicate CarriesActivity(f: Formats, a: StravaActivity, j: Json)
  {
    ValidActivity(f, a) && j.JObj? && EmbeddedIn(EncodeActivity(a), j) && ActivityKeysAbsent(a, j.fields)
  }

  /** A whole list of such objects parses to the list of activities. */
  lemma ParseActivitiesAcceptsExtraKeys(f: Formats, acts: seq<StravaActivity>, items: seq<Json>)
    requires |items| == |acts|
    requires forall i :: 0 <= i < |acts| ==> CarriesActivity(f, acts[i], items[i])
    ensures ParseActivities(f, items) == Some(acts)
  {
    forall i | 0 <= i < |items|
      ensures ParseActivity(f, items[i]) == Some(acts[i])
    {
      ParseActivityAcceptsExtraKeys(f, acts[i], items[i]);
    }
    ParseActivitiesAllOrNothing(f, items);
    var r := ParseActivities(f, items).value;
    assert |r| == |acts| && forall i :: 0 <= i < |acts| ==> r[i] == acts[i];
    assert r == acts;
  }
}

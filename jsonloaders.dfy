/**
 * utils/jsonloaders.py: turning a decoded JSON or GeoJSON payload into
 * records. A GeoJSON FeatureCollection gives one record per usable
 * feature (its properties plus `longitude`/`latitude` taken from the
 * geometry); a list of objects, or an object holding such a list under
 * `data`, `items` or `rows`, gives those objects as they are.
 *
 * JSON objects are field lists; `Get` finds the first field with a key,
 * which is the dictionary lookup as long as keys are distinct (as they are
 * after decoding). The records are kept as field lists: the conversion of
 * their values to typed table cells is pandas' and is not part of this
 * model.
 */
module JsonLoaders {
  import opened Seqs
  import opened Frames
  import Aggregate

  datatype Json =
    | JNull
    | JBool(b: bool)
    | JNum(x: real)
    | JStr(s: string)
    | JArr(items: seq<Json>)
    | JObj(fields: seq<(string, Json)>)

  /** One record: a dictionary with its keys in insertion order. */
  type Record = seq<(string, Json)>

  /** A decoded table before dtype inference: its columns and its records. */
  datatype JsonFrame = JsonFrame(columns: seq<string>, records: seq<Record>)

  /* ---------------- dictionaries ---------------- */

  function Keys(rec: Record): (r: seq<string>)
    ensures |r| == |rec|
  {
    if rec == [] then [] else [rec[0].0] + Keys(rec[1..])
  }

  /** `d.get(key)`: the value under `key`, or None. */
  function Get(rec: Record, key: string): (r: Option<Json>)
    ensures r.Some? <==> key in Keys(rec)
    ensures r.Some? ==> (key, r.value) in rec
  {
    if rec == [] then None
    else if rec[0].0 == key then Some(rec[0].1)
    else Get(rec[1..], key)
  }

  /** `d.get(key, default)`. */
  function GetOr(rec: Record, key: string, default: Json): (r: Json)
    ensures key !in Keys(rec) ==> r == default
    ensures key in Keys(rec) ==> (key, r) in rec
  {
    match Get(rec, key)
    case None => default
    case Some(v) => v
  }

  /**
   * `d[key] = value`: an existing key keeps its position and takes the new
   * value, a new key goes last; every other key keeps its value.
   */
  function SetField(rec: Record, key: string, value: Json): (r: Record)
    ensures Get(r, key) == Some(value)
    ensures forall k :: k != key ==> Get(r, k) == Get(rec, k)
    ensures key in Keys(rec) ==> Keys(r) == Keys(rec)
    ensures key !in Keys(rec) ==> Keys(r) == Keys(rec) + [key]
  {
    if rec == [] then [(key, value)]
    else if rec[0].0 == key then
      Cons(rec[0], rec[1..]);
      Cons((key, value), rec[1..]);
      [(key, value)] + rec[1..]
    else
      var rest := SetField(rec[1..], key, value);
      Cons(rec[0], rec[1..]);
      Cons(rec[0], rest);
      [rec[0]] + rest
  }

  /** Looking up in a record that starts with `e`. */
  lemma Cons(e: (string, Json), rest: Record)
    ensures Keys([e] + rest) == [e.0] + Keys(rest)
    ensures forall k :: Get([e] + rest, k) == if e.0 == k then Some(e.1) else Get(rest, k)
  {
    assert ([e] + rest)[1..] == rest;
  }

  /* ---------------- coordinate validation ---------------- */

  /**
   * `isinstance(x, (int, float))` and the value as a float. JSON `true`
   * and `false` decode to Python booleans, which are integers 1 and 0.
   */
  function AsNumber(j: Json): (r: Option<real>)
    ensures r.Some? <==> j.JNum? || j.JBool?
    ensures j.JNum? ==> r == Some(j.x)
  {
    match j
    case JNum(x) => Some(x)
    case JBool(b) => Some(if b then 1.0 else 0.0)
    case _ => None
  }

  /** Inclusive WGS84 bounds. */
  predicate InRange(lon: real, lat: real) {
    -180.0 <= lon <= 180.0 && -90.0 <= lat <= 90.0
  }

  /**
   * `_validate` on two numbers: the pair unchanged when it lies within the
   * bounds, otherwise no coordinates at all. The pair type makes "one
   * coordinate without the other" impossible.
   */
  function ValidateNumbers(lon: real, lat: real): (r: Option<(real, real)>)
    ensures r.Some? <==> InRange(lon, lat)
    ensures r.Some? ==> r.value == (lon, lat)
  {
    if InRange(lon, lat) then Some((lon, lat)) else None
  }

  /** `_validate` on two JSON values: both must be numbers, then as above. */
  function Validate(lon: Json, lat: Json): (r: Option<(real, real)>)
    ensures r.Some? <==> AsNumber(lon).Some? && AsNumber(lat).Some? && InRange(AsNumber(lon).value, AsNumber(lat).value)
    ensures r.Some? ==> r.value == (AsNumber(lon).value, AsNumber(lat).value)
  {
    match (AsNumber(lon), AsNumber(lat))
    case (Some(x), Some(y)) => ValidateNumbers(x, y)
    case _ => None
  }

  /* ---------------- flattening coordinates ---------------- */

  /** The position a non-nested list stands for: its first two entries when both are numbers. */
  function Position(items: seq<Json>): (r: seq<(real, real)>)
    ensures |r| <= 1
    ensures r != [] <==> |items| >= 2 && AsNumber(items[0]).Some? && AsNumber(items[1]).Some?
    ensures r != [] ==> r == [(AsNumber(items[0]).value, AsNumber(items[1]).value)]
  {
    if |items| >= 2 then
      match (AsNumber(items[0]), AsNumber(items[1]))
      case (Some(x), Some(y)) => [(x, y)]
      case _ => []
    else []
  }

  /** A list whose first element is a list: its children are walked in turn. */
  predicate Nested(items: seq<Json>) {
    |items| > 0 && items[0].JArr?
  }

  /**
   * The positions `walk` appends, depth first and left to right: a nested
   * list contributes the positions of all its children, any other list
   * its own position, anything else nothing.
   */
  function Walk(j: Json): seq<(real, real)>
    decreases j
  {
    match j
    case JArr(items) =>
      if Nested(items) then Flatten(seq(|items|, k requires 0 <= k < |items| => Walk(items[k])))
      else Position(items)
    case _ => []
  }

  /** The positions under each of the first `i` children. */
  function Walks(items: seq<Json>, i: nat): (r: seq<seq<(real, real)>>)
    requires i <= |items|
    ensures |r| == i && forall k :: 0 <= k < i ==> r[k] == Walk(items[k])
  {
    seq(i, k requires 0 <= k < i => Walk(items[k]))
  }

  lemma WalksSnoc(items: seq<Json>, i: nat)
    requires i < |items|
    ensures Flatten(Walks(items, i + 1)) == Flatten(Walks(items, i)) + Walk(items[i])
  {
    assert Walks(items, i + 1) == Walks(items, i) + [Walk(items[i])];
    FlattenSnoc(Walks(items, i), Walk(items[i]));
  }

  lemma WalkNested(items: seq<Json>)
    requires Nested(items)
    ensures Walk(JArr(items)) == Flatten(Walks(items, |items|))
  {
    assert Walks(items, |items|) == seq(|items|, k requires 0 <= k < |items| => Walk(items[k]));
  }

  /**
   * The recursive `walk` of `_flatten_coordinates`: appends the positions
   * under `obj` to the points gathered so far.
   */
  method WalkInto(obj: Json, points0: seq<(real, real)>) returns (points: seq<(real, real)>)
    ensures points == points0 + Walk(obj)
    decreases obj, 1
  {
    points := points0;
    if obj.JArr? {
      if Nested(obj.items) {
        points := WalkChildren(obj.items, points);
        WalkNested(obj.items);
      } else {
        points := points + Position(obj.items);
      }
    }
  }

  /** `for child in obj: walk(child)`, for a nested list. */
  method WalkChildren(items: seq<Json>, points0: seq<(real, real)>) returns (points: seq<(real, real)>)
    ensures points == points0 + Flatten(Walks(items, |items|))
    decreases JArr(items), 0
  {
    points := points0;
    var i := 0;
    while i < |items|
      invariant 0 <= i <= |items|
      invariant points == points0 + Flatten(Walks(items, i))
    {
      WalksSnoc(items, i);
      points := WalkInto(items[i], points);
      i := i + 1;
    }
  }

  /** `_flatten_coordinates`: every position in `coords`, in document order. */
  method FlattenCoordinates(coords: Json) returns (points: seq<(real, real)>)
    ensures points == Walk(coords)
  {
    points := WalkInto(coords, []);
  }

  /** A list of positions as GeoJSON writes it: `[[x, y], ...]`. */
  function Positions(ps: seq<(real, real)>): (r: seq<Json>)
    ensures |r| == |ps|
    ensures forall i :: 0 <= i < |ps| ==> r[i] == JArr([JNum(ps[i].0), JNum(ps[i].1)])
  {
    seq(|ps|, i requires 0 <= i < |ps| => JArr([JNum(ps[i].0), JNum(ps[i].1)]))
  }

  /** Flattening a LineString (or a ring) gives back its positions. */
  lemma WalkLineString(ps: seq<(real, real)>)
    requires ps != []
    ensures Walk(JArr(Positions(ps))) == ps
  {
    var items := Positions(ps);
    var walks := seq(|items|, k requires 0 <= k < |items| => Walk(items[k]));
    forall k | 0 <= k < |items| ensures walks[k] == [ps[k]] {
      assert Walk(items[k]) == Position([JNum(ps[k].0), JNum(ps[k].1)]);
    }
    FlattenSingletons(walks, ps);
  }

  lemma {:induction false} FlattenSingletons<T(!new)>(xss: seq<seq<T>>, xs: seq<T>)
    requires |xss| == |xs| && forall k :: 0 <= k < |xs| ==> xss[k] == [xs[k]]
    ensures Flatten(xss) == xs
  {
    if xs != [] {
      var n := |xs| - 1;
      FlattenSingletons(xss[..n], xs[..n]);
      assert xs == xs[..n] + [xs[n]];
    }
  }

  /** A Polygon's rings, written out. */
  function Rings(rings: seq<seq<(real, real)>>): (r: seq<Json>)
    ensures |r| == |rings|
    ensures forall i :: 0 <= i < |rings| ==> r[i] == JArr(Positions(rings[i]))
  {
    seq(|rings|, i requires 0 <= i < |rings| => JArr(Positions(rings[i])))
  }

  /** Flattening a Polygon gives the positions of its rings, ring after ring. */
  lemma WalkPolygon(rings: seq<seq<(real, real)>>)
    requires rings != [] && forall i :: 0 <= i < |rings| ==> rings[i] != []
    ensures Walk(JArr(Rings(rings))) == Flatten(rings)
  {
    var items := Rings(rings);
    var walks := seq(|items|, k requires 0 <= k < |items| => Walk(items[k]));
    forall k | 0 <= k < |items| ensures walks[k] == rings[k] {
      WalkLineString(rings[k]);
    }
    assert walks == rings;
  }

  /* ---------------- the representative point of a geometry ---------------- */

  function SumLon(ps: seq<(real, real)>): real {
    if ps == [] then 0.0 else SumLon(ps[..|ps| - 1]) + ps[|ps| - 1].0
  }

  function SumLat(ps: seq<(real, real)>): real {
    if ps == [] then 0.0 else SumLat(ps[..|ps| - 1]) + ps[|ps| - 1].1
  }

  /** The plain average of the vertices. */
  function Centroid(ps: seq<(real, real)>): (r: (real, real))
    requires ps != []
  {
    (SumLon(ps) / |ps| as real, SumLat(ps) / |ps| as real)
  }

  /**
   * `_get_lonlat`: nothing for a geometry that is not an object; a Point
   * with at least two coordinates gives its first two, validated; any
   * other geometry gives the validated average of all its positions, and
   * nothing when it has none.
   */
  function GetLonLat(geom: Json): (r: Option<(real, real)>)
    ensures !geom.JObj? ==> r.None?
    ensures r.Some? ==> InRange(r.value.0, r.value.1)
  {
    if !geom.JObj? then None
    else
      var coords := GetOr(geom.fields, "coordinates", JNull);
      if Get(geom.fields, "type") == Some(JStr("Point")) && coords.JArr? && |coords.items| >= 2 then
        Validate(coords.items[0], coords.items[1])
      else
        var points := Walk(coords);
        if points == [] then None else ValidateNumbers(Centroid(points).0, Centroid(points).1)
  }

  /** A point-shaped geometry: a Point whose coordinates hold at least two entries. */
  predicate PointShaped(geom: Json)
    requires geom.JObj?
  {
    var coords := GetOr(geom.fields, "coordinates", JNull);
    Get(geom.fields, "type") == Some(JStr("Point")) && coords.JArr? && |coords.items| >= 2
  }

  /**
   * A Point gives exactly its first two coordinates when they are valid;
   * every other geometry gives the average of its positions exactly when
   * that average is valid, and nothing when it has no positions.
   */
  lemma GetLonLatMeaning(geom: Json)
    requires geom.JObj?
    ensures PointShaped(geom) ==>
      var c := GetOr(geom.fields, "coordinates", JNull).items;
      GetLonLat(geom) == Validate(c[0], c[1])
    ensures !PointShaped(geom) && Walk(GetOr(geom.fields, "coordinates", JNull)) == [] ==> GetLonLat(geom).None?
    ensures !PointShaped(geom) && Walk(GetOr(geom.fields, "coordinates", JNull)) != [] ==>
      var c := Centroid(Walk(GetOr(geom.fields, "coordinates", JNull)));
      (GetLonLat(geom).Some? <==> InRange(c.0, c.1)) && (GetLonLat(geom).Some? ==> GetLonLat(geom).value == c)
  {
  }

  lemma {:induction false} SumsBetween(ps: seq<(real, real)>)
    requires forall p :: p in ps ==> InRange(p.0, p.1)
    ensures Aggregate.Within(-180.0, 180.0, |ps|, SumLon(ps))
    ensures Aggregate.Within(-90.0, 90.0, |ps|, SumLat(ps))
  {
    if ps != [] {
      var n := |ps| - 1;
      assert forall p :: p in ps[..n] ==> p in ps;
      SumsBetween(ps[..n]);
      assert ps[n] in ps;
      Aggregate.AddBetween(n, SumLon(ps[..n]), ps[n].0, -180.0, 180.0, |ps|, SumLon(ps));
      Aggregate.AddBetween(n, SumLat(ps[..n]), ps[n].1, -90.0, 90.0, |ps|, SumLat(ps));
    }
  }

  /**
   * The average of valid positions is valid, so a line or polygon all of
   * whose positions are valid always has a representative point.
   */
  lemma CentroidOfValidPositions(geom: Json)
    requires geom.JObj? && !PointShaped(geom)
    requires Walk(GetOr(geom.fields, "coordinates", JNull)) != []
    requires forall p :: p in Walk(GetOr(geom.fields, "coordinates", JNull)) ==> InRange(p.0, p.1)
    ensures GetLonLat(geom) == Some(Centroid(Walk(GetOr(geom.fields, "coordinates", JNull))))
  {
    var ps := Walk(GetOr(geom.fields, "coordinates", JNull));
    SumsBetween(ps);
    Aggregate.DivBetween(SumLon(ps), |ps|, -180.0, 180.0);
    Aggregate.DivBetween(SumLat(ps), |ps|, -90.0, 90.0);
  }

  /* ---------------- GeoJSON feature collections ---------------- */

  /** `_is_geojson`: an object whose `type` is `"FeatureCollection"`. */
  predicate IsGeojson(obj: Json) {
    obj.JObj? && Get(obj.fields, "type") == Some(JStr("FeatureCollection"))
  }

  /**
   * What `for feat in features` visits. A list gives its elements; an
   * object or a string gives its keys or characters, all strings, which
   * the loop skips; a number, boolean or null cannot be iterated.
   */
  function FeatureItems(features: Json): (r: Result<seq<Json>>)
    ensures r.Success? <==> features.JArr? || features.JObj? || features.JStr?
    ensures features.JArr? ==> r == Success(features.items)
  {
    match features
    case JArr(items) => Success(items)
    case JObj(_) => Success([])
    case JStr(_) => Success([])
    case _ => Failure("TypeError: features are not iterable")
  }

  /** A list of two-element lists whose first entries are strings: key/value pairs. */
  predicate KeyValuePairs(items: seq<Json>) {
    forall i :: 0 <= i < |items| ==> items[i].JArr? && |items[i].items| == 2 && items[i].items[0].JStr?
  }

  /** `dict(pairs)`: the pairs set in order, so a repeated key keeps its last value. */
  function FromPairs(items: seq<Json>): (r: Record)
    requires KeyValuePairs(items)
  {
    if items == [] then []
    else
      var n := |items| - 1;
      SetField(FromPairs(items[..n]), items[n].items[0].s, items[n].items[1])
  }

  /**
   * `dict(props)` AS WRITTEN: a copy of an object; a list of key/value
   * pairs or the empty string also convert; anything else, including a
   * null, raises.
   */
  function DictOf(props: Json): (r: Result<Record>)
    ensures props.JObj? ==> r == Success(props.fields)
    ensures props.JNull? || props.JNum? || props.JBool? ==> r.Failure?
  {
    match props
    case JObj(fields) => Success(fields)
    case JArr(items) => if KeyValuePairs(items) then Success(FromPairs(items)) else Failure("TypeError: cannot convert properties to dict")
    case JStr(s) => if s == "" then Success([]) else Failure("ValueError: cannot convert properties to dict")
    case _ => Failure("TypeError: cannot convert properties to dict")
  }

  /** A feature whose properties are null but whose geometry is a valid Point. */
  function NullPropertiesFeature(lon: real, lat: real): Json {
    JObj([("type", JStr("Feature")), ("properties", JNull),
          ("geometry", JObj([("type", JStr("Point")), ("coordinates", JArr([JNum(lon), JNum(lat)]))]))])
  }

  /**
   * As written, a feature with `"properties": null` (which GeoJSON
   * permits) and a valid geometry makes the whole conversion raise.
   */
  lemma NullPropertiesRaiseAsWritten()
    ensures GetLonLat(GetOr(NullPropertiesFeature(24.9, 60.2).fields, "geometry", JObj([]))) == Some((24.9, 60.2))
    ensures DictOf(GetOr(NullPropertiesFeature(24.9, 60.2).fields, "properties", JObj([]))).Failure?
  {
    var feat := NullPropertiesFeature(24.9, 60.2);
    assert Get(feat.fields, "properties") == Some(JNull);
    var geom := JObj([("type", JStr("Point")), ("coordinates", JArr([JNum(24.9), JNum(60.2)]))]);
    assert Get(feat.fields, "geometry") == Some(geom);
    assert Get(geom.fields, "type") == Some(JStr("Point"));
    assert Get(geom.fields, "coordinates") == Some(JArr([JNum(24.9), JNum(60.2)]));
  }

  /** The properties of a feature, with null read as no properties. */
  function PropertiesOf(props: Json): (r: Result<Record>)
    ensures props.JNull? ==> r == Success([])
    ensures !props.JNull? ==> r == DictOf(props)
  {
    if props.JNull? then Success([]) else DictOf(props)
  }

  /** With null read as no properties, such a feature gives a row of its coordinates alone. */
  lemma NullPropertiesGiveCoordinates(lon: real, lat: real)
    requires InRange(lon, lat)
    ensures FeatureRow(NullPropertiesFeature(lon, lat)) == Success(Some([(LONGITUDE, JNum(lon)), (LATITUDE, JNum(lat))]))
  {
    var feat := NullPropertiesFeature(lon, lat);
    var geom := JObj([("type", JStr("Point")), ("coordinates", JArr([JNum(lon), JNum(lat)]))]);
    assert Get(feat.fields, "properties") == Some(JNull);
    assert Get(feat.fields, "geometry") == Some(geom);
    assert GetOr(feat.fields, "geometry", JObj([])) == geom;
    PointLonLat(lon, lat);
    CoordinatesAlone(lon, lat);
    assert PropertiesOf(GetOr(feat.fields, "properties", JObj([]))) == Success([]);
  }

  lemma PointLonLat(lon: real, lat: real)
    requires InRange(lon, lat)
    ensures GetLonLat(JObj([("type", JStr("Point")), ("coordinates", JArr([JNum(lon), JNum(lat)]))])) == Some((lon, lat))
  {
    var coords := JArr([JNum(lon), JNum(lat)]);
    var geom := JObj([("type", JStr("Point")), ("coordinates", coords)]);
    assert Get(geom.fields, "type") == Some(JStr("Point"));
    assert Get(geom.fields, "coordinates") == Some(coords);
  }

  lemma CoordinatesAlone(lon: real, lat: real)
    ensures WithCoordinates([], (lon, lat)) == [(LONGITUDE, JNum(lon)), (LATITUDE, JNum(lat))]
  {
    var one := SetField([], LONGITUDE, JNum(lon));
    assert one == [(LONGITUDE, JNum(lon))];
    assert LONGITUDE[1] != LATITUDE[1];
    assert one[1..] == [];
    assert SetField(one, LATITUDE, JNum(lat)) == [one[0]] + SetField([], LATITUDE, JNum(lat));
  }

  /** The row of a usable feature: its properties with the coordinates set last. */
  function WithCoordinates(props: Record, lonlat: (real, real)): (r: Record)
    ensures Get(r, LONGITUDE) == Some(JNum(lonlat.0))
    ensures Get(r, LATITUDE) == Some(JNum(lonlat.1))
    ensures forall k :: k != LONGITUDE && k != LATITUDE ==> Get(r, k) == Get(props, k)
    ensures forall k :: k in Keys(props) ==> k in Keys(r)
  {
    SetField(SetField(props, LONGITUDE, JNum(lonlat.0)), LATITUDE, JNum(lonlat.1))
  }

  /**
   * One feature: skipped (None) unless it is an object with a usable
   * geometry; then its row, or the error of converting its properties.
   */
  function FeatureRow(feat: Json): (r: Result<Option<Record>>)
    ensures r.Failure? ==> feat.JObj? && GetLonLat(GetOr(feat.fields, "geometry", JObj([]))).Some?
    ensures r.Success? && r.value.Some? <==>
      feat.JObj? && GetLonLat(GetOr(feat.fields, "geometry", JObj([]))).Some?
      && PropertiesOf(GetOr(feat.fields, "properties", JObj([]))).Success?
    ensures r.Success? && r.value.Some? ==>
      r.value.value == WithCoordinates(PropertiesOf(GetOr(feat.fields, "properties", JObj([]))).value,
                                       GetLonLat(GetOr(feat.fields, "geometry", JObj([]))).value)
  {
    if !feat.JObj? then Success(None)
    else
      var lonlat := GetLonLat(GetOr(feat.fields, "geometry", JObj([])));
      if lonlat.None? then Success(None)
      else
        match PropertiesOf(GetOr(feat.fields, "properties", JObj([])))
        case Failure(e) => Failure(e)
        case Success(props) => Success(Some(WithCoordinates(props, lonlat.value)))
  }

  /** What the loop makes of each feature. */
  function Outcomes(features: seq<Json>): (r: seq<Result<Option<Record>>>)
    ensures |r| == |features| && forall i :: 0 <= i < |features| ==> r[i] == FeatureRow(features[i])
  {
    seq(|features|, i requires 0 <= i < |features| => FeatureRow(features[i]))
  }

  /** The rows gathered from the outcomes seen so far, or the first error. */
  function Collect<T>(outcomes: seq<Result<Option<T>>>): (r: Result<seq<T>>)
    ensures r.Success? ==> |r.value| <= |outcomes|
  {
    if outcomes == [] then Success([])
    else
      var n := |outcomes| - 1;
      match Collect(outcomes[..n])
      case Failure(e) => Failure(e)
      case Success(rows) =>
        match outcomes[n]
        case Failure(e) => Failure(e)
        case Success(None) => Success(rows)
        case Success(Some(row)) => Success(rows + [row])
  }

  /** Once an outcome has failed, the whole conversion has failed with its error. */
  lemma {:induction false} FailurePersists<T>(outcomes: seq<Result<Option<T>>>, i: nat)
    requires i <= |outcomes| && Collect(outcomes[..i]).Failure?
    ensures Collect(outcomes) == Collect(outcomes[..i])
    decreases |outcomes| - i
  {
    if i < |outcomes| {
      assert outcomes[..i + 1][..i] == outcomes[..i];
      FailurePersists(outcomes, i + 1);
    } else {
      assert outcomes[..i] == outcomes;
    }
  }

  function AsList<T>(row: Option<T>): seq<T> {
    if row.Some? then [row.value] else []
  }

  predicate AllSucceed<T>(outcomes: seq<Result<Option<T>>>) {
    forall i :: 0 <= i < |outcomes| ==> outcomes[i].Success?
  }

  /** The rows of the successful outcomes that carry one, in order. */
  function Present<T(!new)>(outcomes: seq<Result<Option<T>>>): seq<T>
    requires AllSucceed(outcomes)
  {
    Flatten(seq(|outcomes|, i requires 0 <= i < |outcomes| => AsList(outcomes[i].value)))
  }

  /**
   * Collecting keeps exactly one row per outcome that carries one, in
   * order, and fails exactly when some outcome is an error.
   */
  lemma {:induction false} CollectInOrder<T(!new)>(outcomes: seq<Result<Option<T>>>)
    ensures Collect(outcomes).Success? <==> AllSucceed(outcomes)
    ensures Collect(outcomes).Success? ==> Collect(outcomes).value == Present(outcomes)
  {
    if outcomes != [] {
      var n := |outcomes| - 1;
      var init := outcomes[..n];
      CollectInOrder(init);
      assert forall i :: 0 <= i < |init| ==> init[i] == outcomes[i];
      if Collect(outcomes).Success? {
        var a := seq(|init|, i requires 0 <= i < |init| => AsList(init[i].value));
        var last := AsList(outcomes[n].value);
        assert seq(|outcomes|, i requires 0 <= i < |outcomes| => AsList(outcomes[i].value)) == a + [last];
        FlattenAppend(a, [last]);
        assert Flatten([last]) == [] + last;
      } else if Collect(init).Success? {
        assert !outcomes[n].Success?;
      } else {
        var i :| 0 <= i < |init| && !init[i].Success?;
      }
    }
  }

  /** Every record key, each once, in order of first appearance. */
  function RecordColumns(records: seq<Record>): (r: seq<string>)
    ensures Distinct(r)
    ensures forall k :: k in r <==> exists i :: 0 <= i < |records| && k in Keys(records[i])
  {
    var keys := seq(|records|, i requires 0 <= i < |records| => Keys(records[i]));
    assert forall i :: 0 <= i < |records| ==> keys[i] == Keys(records[i]);
    Dedup(Flatten(keys))
  }

  /** `pd.DataFrame(records)`: the columns are every key in order of first appearance. */
  function RecordsFrame(records: seq<Record>): (r: JsonFrame)
    ensures r.records == records && r.columns == RecordColumns(records)
  {
    JsonFrame(RecordColumns(records), records)
  }

  /** The table of the rows found: with no row, exactly the two coordinate columns. */
  function RowsFrame(rows: seq<Record>): (r: JsonFrame)
    ensures rows == [] ==> r == JsonFrame([LATITUDE, LONGITUDE], [])
    ensures rows != [] ==> r == RecordsFrame(rows)
  {
    if rows == [] then JsonFrame([LATITUDE, LONGITUDE], []) else RecordsFrame(rows)
  }

  /** What `_geojson_to_dataframe` computes for a collection object. */
  function GeojsonFrame(fc: Json): (r: Result<JsonFrame>)
    requires fc.JObj?
  {
    match FeatureItems(GetOr(fc.fields, "features", JArr([])))
    case Failure(e) => Failure(e)
    case Success(features) =>
      match Collect(Outcomes(features))
      case Failure(e) => Failure(e)
      case Success(rows) => Success(RowsFrame(rows))
  }

  /** `_geojson_to_dataframe`: one pass over the features, appending rows. */
  method GeojsonToDataFrame(fc: Json) returns (r: Result<JsonFrame>)
    requires fc.JObj?
    ensures r == GeojsonFrame(fc)
  {
    var items := FeatureItems(GetOr(fc.fields, "features", JArr([])));
    if items.Failure? {
      return Failure(items.error);
    }
    var features := items.value;
    ghost var outcomes := Outcomes(features);
    var rows: seq<Record> := [];
    var i := 0;
    while i < |features|
      invariant 0 <= i <= |features|
      invariant Collect(outcomes[..i]) == Success(rows)
    {
      assert outcomes[..i + 1][..i] == outcomes[..i];
      var row := FeatureRow(features[i]);
      if row.Failure? {
        FailurePersists(outcomes, i + 1);
        return Failure(row.error);
      }
      if row.value.Some? {
        rows := rows + [row.value.value];
      }
      i := i + 1;
    }
    assert outcomes[..i] == outcomes;
    r := Success(RowsFrame(rows));
  }

  lemma {:induction false} PresentFrom<T(!new)>(outcomes: seq<Result<Option<T>>>, x: T)
    requires AllSucceed(outcomes) && x in Present(outcomes)
    ensures exists i :: 0 <= i < |outcomes| && outcomes[i] == Success(Some(x))
  {
    var lists := seq(|outcomes|, i requires 0 <= i < |outcomes| => AsList(outcomes[i].value));
    var i :| 0 <= i < |lists| && x in lists[i];
    assert outcomes[i] == Success(Some(x));
  }

  /**
   * The table of a collection: it is built exactly when no usable
   * feature's properties fail to convert; it holds one record per usable
   * feature, in feature order (with no usable feature, no records and the
   * two coordinate columns), and every record carries both coordinates,
   * within range.
   */
  lemma GeojsonFrameMeaning(fc: Json)
    requires fc.JObj?
    requires GetOr(fc.fields, "features", JArr([])).JArr?
    ensures var features := GetOr(fc.fields, "features", JArr([])).items;
      (GeojsonFrame(fc).Success? <==> forall i :: 0 <= i < |features| ==> FeatureRow(features[i]).Success?)
      && (GeojsonFrame(fc).Success? ==> GeojsonFrame(fc).value == RowsFrame(Present(Outcomes(features))))
    ensures GeojsonFrame(fc).Success? ==>
      forall row :: row in GeojsonFrame(fc).value.records ==>
        exists lon: real, lat: real :: InRange(lon, lat) && Get(row, LONGITUDE) == Some(JNum(lon)) && Get(row, LATITUDE) == Some(JNum(lat))
  {
    var features := GetOr(fc.fields, "features", JArr([])).items;
    var outcomes := Outcomes(features);
    CollectInOrder(outcomes);
    if GeojsonFrame(fc).Success? {
      forall row | row in GeojsonFrame(fc).value.records
        ensures exists lon: real, lat: real :: InRange(lon, lat) && Get(row, LONGITUDE) == Some(JNum(lon)) && Get(row, LATITUDE) == Some(JNum(lat))
      {
        PresentFrom(outcomes, row);
        var i :| 0 <= i < |outcomes| && outcomes[i] == Success(Some(row));
        var ll := GetLonLat(GetOr(features[i].fields, "geometry", JObj([]))).value;
        assert Get(row, LONGITUDE) == Some(JNum(ll.0)) && Get(row, LATITUDE) == Some(JNum(ll.1));
      }
    }
  }

  /* ---------------- dispatch ---------------- */

  /** A list all of whose elements are objects. */
  predicate IsRecordList(j: Json) {
    j.JArr? && forall i :: 0 <= i < |j.items| ==> j.items[i].JObj?
  }

  function RecordsOf(items: seq<Json>): (r: seq<Record>)
    requires forall i :: 0 <= i < |items| ==> items[i].JObj?
    ensures |r| == |items| && forall i :: 0 <= i < |items| ==> r[i] == items[i].fields
  {
    seq(|items|, i requires 0 <= i < |items| => items[i].fields)
  }

  /** The keys under which an object may hold its records, in the order tried. */
  const EMBEDDED_KEYS: seq<string> := ["data", "items", "rows"]

  predicate HoldsRecords(fields: Record, key: string) {
    Get(fields, key).Some? && IsRecordList(Get(fields, key).value)
  }

  /** The records under the first of `keys` that holds a list of objects. */
  function FirstHolding(fields: Record, keys: seq<string>): (r: Option<seq<Record>>)
    ensures r.Some? <==> exists i :: 0 <= i < |keys| && HoldsRecords(fields, keys[i])
    ensures r.Some? ==>
      (exists i :: 0 <= i < |keys| && HoldsRecords(fields, keys[i])
        && (forall j :: 0 <= j < i ==> !HoldsRecords(fields, keys[j]))
        && r.value == RecordsOf(Get(fields, keys[i]).value.items))
  {
    if keys == [] then None
    else if HoldsRecords(fields, keys[0]) then Some(RecordsOf(Get(fields, keys[0]).value.items))
    else
      var r := FirstHolding(fields, keys[1..]);
      assert forall i :: 0 <= i < |keys| - 1 ==> keys[1..][i] == keys[i + 1];
      r
  }

  /**
   * `load_json_or_geojson` after decoding (None stands for text that is
   * not JSON): a FeatureCollection is converted as GeoJSON; then a list of
   * objects is the records; then the first of `data`, `items`, `rows`
   * holding a list of objects; anything else is an error.
   */
  function LoadJsonOrGeojson(decoded: Option<Json>): (r: Result<JsonFrame>)
    ensures decoded.None? ==> r.Failure?
    ensures decoded.Some? && IsGeojson(decoded.value) ==> r == GeojsonFrame(decoded.value)
  {
    if decoded.None? then Failure("Invalid JSON")
    else
      var obj := decoded.value;
      if IsGeojson(obj) then GeojsonFrame(obj)
      else if IsRecordList(obj) then Success(RecordsFrame(RecordsOf(obj.items)))
      else if obj.JObj? && FirstHolding(obj.fields, EMBEDDED_KEYS).Some? then
        Success(RecordsFrame(FirstHolding(obj.fields, EMBEDDED_KEYS).value))
      else Failure("Unsupported JSON structure (not GeoJSON or list of records).")
  }

  /**
   * The dispatch in full: a payload that is not a FeatureCollection loads
   * exactly when it is a list of objects or holds one under `data`,
   * `items` or `rows`; the records loaded are those objects, taken from
   * the payload itself first and otherwise from the first key holding
   * them; a FeatureCollection is never read as plain records, whatever
   * else it holds.
   */
  lemma LoadDispatch(obj: Json)
    ensures !IsGeojson(obj) ==>
      (LoadJsonOrGeojson(Some(obj)).Success? <==>
        IsRecordList(obj) || (obj.JObj? && exists key :: key in EMBEDDED_KEYS && HoldsRecords(obj.fields, key)))
    ensures !IsGeojson(obj) && IsRecordList(obj) ==>
      LoadJsonOrGeojson(Some(obj)).value.records == RecordsOf(obj.items)
    ensures !IsGeojson(obj) && obj.JObj? && HoldsRecords(obj.fields, "data") ==>
      LoadJsonOrGeojson(Some(obj)).value.records == RecordsOf(Get(obj.fields, "data").value.items)
    ensures !IsGeojson(obj) && obj.JObj? && !HoldsRecords(obj.fields, "data") && HoldsRecords(obj.fields, "items") ==>
      LoadJsonOrGeojson(Some(obj)).value.records == RecordsOf(Get(obj.fields, "items").value.items)
    ensures IsGeojson(obj) ==> LoadJsonOrGeojson(Some(obj)) == GeojsonFrame(obj)
  {
    if obj.JObj? {
      EmbeddedRecords(obj.fields);
    }
  }

  /** The records an object holds: under `data`, else `items`, else `rows`. */
  lemma EmbeddedRecords(fields: Record)
    ensures FirstHolding(fields, EMBEDDED_KEYS).Some? <==> exists key :: key in EMBEDDED_KEYS && HoldsRecords(fields, key)
    ensures HoldsRecords(fields, "data") ==>
      FirstHolding(fields, EMBEDDED_KEYS) == Some(RecordsOf(Get(fields, "data").value.items))
    ensures !HoldsRecords(fields, "data") && HoldsRecords(fields, "items") ==>
      FirstHolding(fields, EMBEDDED_KEYS) == Some(RecordsOf(Get(fields, "items").value.items))
  {
    assert EMBEDDED_KEYS[1..] == ["items", "rows"] && EMBEDDED_KEYS[2..] == ["rows"];
    assert ["items", "rows"][1..] == ["rows"] && ["rows"][1..] == [];
    if exists key :: key in EMBEDDED_KEYS && HoldsRecords(fields, key) {
      var key :| key in EMBEDDED_KEYS && HoldsRecords(fields, key);
      assert key == EMBEDDED_KEYS[0] || key == EMBEDDED_KEYS[1] || key == EMBEDDED_KEYS[2];
    }
  }
}

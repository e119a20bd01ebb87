/** The GeoJSON side of the shp-write library: `justType` factories that pick
    the features of one GeoJSON geometry type (section 3.1 of RFC 7946) and
    one dimensionality out of a FeatureCollection, and return the coordinate
    rows `write` consumes together with index-aligned property rows. */
module ShpGeoJson {
  import opened JsValues
  import ShpPoly

  /** A GeoJSON `coordinates` value: a number or an array of such values. */
  datatype Coord = Number(x: real) | List(items: seq<Coord>)

  datatype GeoGeometry = GeoGeometry(geoType: string, coordinates: Coord)

  /** A feature; `geometry` is None when it is null or missing. */
  datatype Feature = Feature(geometry: Option<GeoGeometry>, properties: JsValue)

  /** What a factory returns: `{geometries, properties, type}`. */
  datatype Layer = Layer(geometries: seq<Coord>, properties: seq<JsValue>, shpType: string)

  /** `justType(type, TYPE, just3D)` */
  datatype Factory = Factory(geoType: string, shpType: string, just3D: bool)

  const point := Factory("Point", "POINT", false)
  const pointZ := Factory("Point", "POINTZ", true)
  const multipoint := Factory("MultiPoint", "MULTIPOINT", false)
  const multipointZ := Factory("MultiPoint", "MULTIPOINTZ", true)
  const line := Factory("LineString", "POLYLINE", false)
  const lineZ := Factory("LineString", "POLYLINEZ", true)
  const multiline := Factory("MultiLineString", "POLYLINE", false)
  const multilineZ := Factory("MultiLineString", "POLYLINEZ", true)
  const polygon := Factory("Polygon", "POLYGON", false)
  const polygonZ := Factory("Polygon", "POLYGONZ", true)

  // ---------------------------------------------------------------------
  // Array.prototype.filter with a callback that may throw
  // ---------------------------------------------------------------------

  function Filter(p: Feature -> Outcome<bool>, fs: seq<Feature>): (r: Outcome<seq<Feature>>)
    ensures r.Ok? ==> |r.value| <= |fs|
    decreases |fs|
  {
    if |fs| == 0 then Ok([])
    else
      var head := p(fs[0]);
      var rest := Filter(p, fs[1..]);
      if head.TypeError? || rest.TypeError? then TypeError
      else Ok(if head.value then [fs[0]] + rest.value else rest.value)
  }

  /** Both results, concatenated, or the error. */
  function Both<T>(a: Outcome<seq<T>>, b: Outcome<seq<T>>): Outcome<seq<T>> {
    if a.Ok? && b.Ok? then Ok(a.value + b.value) else TypeError
  }

  /** The filter throws exactly when its callback throws on some element. */
  lemma {:induction false} FilterOk(p: Feature -> Outcome<bool>, fs: seq<Feature>)
    ensures Filter(p, fs).Ok? <==> forall k :: 0 <= k < |fs| ==> p(fs[k]).Ok?
    decreases |fs|
  {
    if |fs| > 0 {
      FilterOk(p, fs[1..]);
      assert forall k :: 1 <= k < |fs| ==> fs[1..][k - 1] == fs[k];
    }
  }

  /** The filter keeps exactly the elements the callback accepts. */
  lemma {:induction false} FilterMembers(p: Feature -> Outcome<bool>, fs: seq<Feature>, f: Feature)
    requires Filter(p, fs).Ok?
    ensures f in Filter(p, fs).value <==> f in fs && p(f) == Ok(true)
    decreases |fs|
  {
    if |fs| > 0 {
      FilterMembers(p, fs[1..], f);
      assert f in fs <==> f == fs[0] || f in fs[1..];
    }
  }

  /** Filtering keeps the input order: it distributes over concatenation. */
  lemma {:induction false} FilterConcat(p: Feature -> Outcome<bool>, a: seq<Feature>, b: seq<Feature>)
    ensures Filter(p, a + b) == Both(Filter(p, a), Filter(p, b))
    decreases |a|
  {
    if |a| == 0 {
      assert a + b == b;
      if Filter(p, b).Ok? {
        assert [] + Filter(p, b).value == Filter(p, b).value;
      }
    } else {
      assert (a + b)[1..] == a[1..] + b;
      FilterConcat(p, a[1..], b);
      var x, y := Filter(p, a[1..]), Filter(p, b);
      if x.Ok? && y.Ok? {
        assert [a[0]] + (x.value + y.value) == ([a[0]] + x.value) + y.value;
      }
    }
  }

  // ---------------------------------------------------------------------
  // isType and isOfDimension
  // ---------------------------------------------------------------------

  /** `f.geometry.type === t`; reading `type` of a null geometry throws. */
  function IsType(t: string, f: Feature): Outcome<bool> {
    match f.geometry
    case None => TypeError
    case Some(g) => Ok(g.geoType == t)
  }

  predicate IsPointShp(shpType: string) {
    shpType == "POINT" || shpType == "POINTZ"
  }

  /** The elements `agg.concat(c)` appends: an array's entries, or a number itself. */
  function Piece(c: Coord): seq<Coord> {
    match c
    case List(items) => items
    case Number(_) => [c]
  }

  /** `coordinates.reduce((agg, c) => agg.concat(c), [])` */
  function ConcatOne(cs: seq<Coord>): seq<Coord>
    decreases |cs|
  {
    if |cs| == 0 then [] else ConcatOne(cs[..|cs| - 1]) + Piece(cs[|cs| - 1])
  }

  /** `Array.isArray(coordinates[0][0])`, throwing where `coordinates[0]` is undefined. */
  function NestedDeeper(c: Coord): Outcome<bool> {
    match c
    case Number(_) => TypeError
    case List(items) =>
      if |items| == 0 then TypeError
      else match items[0]
        case Number(_) => Ok(false)
        case List(sub) => Ok(|sub| > 0 && sub[0].List?)
  }

  /** The positions the dimension test looks at. */
  function DimensionCoords(shpType: string, c: Coord): (r: Outcome<seq<Coord>>)
    ensures IsPointShp(shpType) ==> r == Ok([c])
    ensures !IsPointShp(shpType) && NestedDeeper(c) == Ok(true) ==> r == Ok(ConcatOne(c.items))
    ensures !IsPointShp(shpType) && NestedDeeper(c) == Ok(false) ==> r == Ok(c.items)
    ensures !IsPointShp(shpType) && NestedDeeper(c).TypeError? ==> r.TypeError?
  {
    if IsPointShp(shpType) then Ok([c])
    else match NestedDeeper(c)
      case TypeError => TypeError
      case Ok(deeper) => Ok(if deeper then ConcatOne(c.items) else c.items)
  }

  /** `c.length`; a number has none. */
  function LengthOf(c: Coord): Option<nat> {
    match c
    case Number(_) => None
    case List(items) => Some(|items|)
  }

  /** `cs.every(c => c.length === 2)` */
  function EveryTwo(cs: seq<Coord>): (r: bool)
    ensures r <==> forall k :: 0 <= k < |cs| ==> LengthOf(cs[k]) == Some(2)
    decreases |cs|
  {
    if |cs| == 0 then true
    else LengthOf(cs[0]) == Some(2) && EveryTwo(cs[1..])
  }

  /** `cs.some(c => c.length >= 3)` */
  function SomeThree(cs: seq<Coord>): (r: bool)
    ensures r <==> exists k :: 0 <= k < |cs| && LengthOf(cs[k]).Some? && LengthOf(cs[k]).value >= 3
    decreases |cs|
  {
    if |cs| == 0 then false
    else (LengthOf(cs[0]).Some? && LengthOf(cs[0]).value >= 3) || SomeThree(cs[1..])
  }

  /** `isOfDimension(TYPE, just3D)(f)` */
  function InDimension(shpType: string, just3D: bool, f: Feature): Outcome<bool> {
    match f.geometry
    case None => TypeError
    case Some(g) =>
      match DimensionCoords(shpType, g.coordinates)
      case TypeError => TypeError
      case Ok(cs) => Ok(if just3D then SomeThree(cs) else EveryTwo(cs))
  }

  /** The 2D and the 3D variant of a type never both accept a feature. */
  lemma DimensionsDisjoint(shpType: string, f: Feature)
    ensures !(InDimension(shpType, true, f) == Ok(true) && InDimension(shpType, false, f) == Ok(true))
  {
  }

  /** The one-level concatenation distributes over concatenation, */
  lemma {:induction false} ConcatOneAppend(a: seq<Coord>, b: seq<Coord>)
    ensures ConcatOne(a + b) == ConcatOne(a) + ConcatOne(b)
    decreases |b|
  {
    if |b| == 0 {
      assert a + b == a;
    } else {
      var b' := b[..|b| - 1];
      assert (a + b)[..|a + b| - 1] == a + b';
      assert (a + b)[|a + b| - 1] == b[|b| - 1];
      ConcatOneAppend(a, b');
      assert ConcatOne(a + b) == ConcatOne(a + b') + Piece(b[|b| - 1]);
      assert ConcatOne(b) == ConcatOne(b') + Piece(b[|b| - 1]);
      hide ConcatOne;
      assert ConcatOne(a) + ConcatOne(b') + Piece(b[|b| - 1]) == ConcatOne(a) + (ConcatOne(b') + Piece(b[|b| - 1]));
    }
  }

  /** and takes the entries of an array and a number as it is. */
  lemma ConcatOneSingle(c: Coord)
    ensures ConcatOne([c]) == Piece(c)
  {
    assert [c][..0] == [];
  }

  // ---------------------------------------------------------------------
  // Rows
  // ---------------------------------------------------------------------

  predicate IsMultiType(geoType: string) {
    geoType == "MultiLineString" || geoType == "MultiPoint"
  }

  /** The geometry and properties rows of one kept feature: `justCoords` and
      `justProps`, or `justCoordsMulti` and `justPropsMulti` (one row per
      element, the element wrapped in an array, the properties repeated). */
  function FeatureRows(multi: bool, f: Feature): Outcome<(seq<Coord>, seq<JsValue>)> {
    match f.geometry
    case None => TypeError
    case Some(g) =>
      if !multi then Ok(([g.coordinates], [f.properties]))
      else match g.coordinates
        case Number(_) => TypeError
        case List(items) =>
          Ok((seq(|items|, k requires 0 <= k < |items| => List([items[k]])),
              seq(|items|, k requires 0 <= k < |items| => f.properties)))
  }

  /** `geometries` and `properties` for the kept features, in order. */
  function Rows(multi: bool, fs: seq<Feature>): (r: Outcome<(seq<Coord>, seq<JsValue>)>)
    ensures r.Ok? ==> |r.value.0| == |r.value.1|
    ensures r.Ok? && !multi ==> |r.value.0| == |fs|
    decreases |fs|
  {
    if |fs| == 0 then Ok(([], []))
    else
      var head := FeatureRows(multi, fs[0]);
      var rest := Rows(multi, fs[1..]);
      if head.TypeError? || rest.TypeError? then TypeError
      else Ok((head.value.0 + rest.value.0, head.value.1 + rest.value.1))
  }

  /** Rows of consecutive feature lists are consecutive. */
  lemma {:induction false} RowsConcat(multi: bool, a: seq<Feature>, b: seq<Feature>)
    requires Rows(multi, a).Ok? && Rows(multi, b).Ok?
    ensures Rows(multi, a + b) == Ok((Rows(multi, a).value.0 + Rows(multi, b).value.0,
                                      Rows(multi, a).value.1 + Rows(multi, b).value.1))
    decreases |a|
  {
    if |a| == 0 {
      assert a + b == b;
      var y := Rows(multi, b).value;
      assert [] + y.0 == y.0 && [] + y.1 == y.1;
    } else {
      assert (a + b)[1..] == a[1..] + b;
      RowsConcat(multi, a[1..], b);
      var h := FeatureRows(multi, a[0]).value;
      var x, y := Rows(multi, a[1..]).value, Rows(multi, b).value;
      assert h.0 + (x.0 + y.0) == (h.0 + x.0) + y.0;
      assert h.1 + (x.1 + y.1) == (h.1 + x.1) + y.1;
    }
  }

  /** For the single types row k is feature k's coordinates and properties. */
  lemma {:induction false} SingleRows(fs: seq<Feature>)
    requires Rows(false, fs).Ok?
    ensures forall k :: 0 <= k < |fs| ==>
              fs[k].geometry.Some? &&
              Rows(false, fs).value.0[k] == fs[k].geometry.value.coordinates &&
              Rows(false, fs).value.1[k] == fs[k].properties
    decreases |fs|
  {
    if |fs| > 0 {
      SingleRows(fs[1..]);
      forall k | 0 < k < |fs|
        ensures Rows(false, fs).value.0[k] == fs[k].geometry.value.coordinates &&
                Rows(false, fs).value.1[k] == fs[k].properties
      {
        assert fs[1..][k - 1] == fs[k];
      }
    }
  }

  /** For the multi types every geometry row is a one-element array. */
  lemma {:induction false} MultiRowsSingleton(fs: seq<Feature>)
    requires Rows(true, fs).Ok?
    ensures forall k :: 0 <= k < |Rows(true, fs).value.0| ==>
              Rows(true, fs).value.0[k].List? && |Rows(true, fs).value.0[k].items| == 1
    decreases |fs|
  {
    if |fs| > 0 {
      MultiRowsSingleton(fs[1..]);
      var head: seq<Coord> := FeatureRows(true, fs[0]).value.0;
      var rest: seq<Coord> := Rows(true, fs[1..]).value.0;
      forall k | 0 <= k < |head + rest|
        ensures (head + rest)[k].List? && |(head + rest)[k].items| == 1
      {
        if k >= |head| {
          assert (head + rest)[k] == rest[k - |head|];
        }
      }
    }
  }

  /** For the multi types a feature's element j becomes the geometry row
      `[items[j]]` and its properties the matching property row; with
      RowsConcat this fixes every row of a feature list, feature after
      feature and element after element. */
  lemma MultiFeatureRows(f: Feature, items: seq<Coord>)
    requires f.geometry.Some? && f.geometry.value.coordinates == List(items)
    ensures Rows(true, [f]) == Ok((seq(|items|, k requires 0 <= k < |items| => List([items[k]])),
                                   seq(|items|, k requires 0 <= k < |items| => f.properties)))
  {
    var h := FeatureRows(true, f).value;
    assert [f][1..] == [];
    assert Rows(true, [f][1..]) == Ok(([], []));
    assert h.0 + [] == h.0 && h.1 + [] == h.1;
  }

  /** The number of elements of each feature's top-level array. */
  function ElementCount(fs: seq<Feature>): nat
    decreases |fs|
  {
    if |fs| == 0 then 0
    else
      (if fs[0].geometry.Some? && fs[0].geometry.value.coordinates.List?
       then |fs[0].geometry.value.coordinates.items| else 0)
      + ElementCount(fs[1..])
  }

  /** A multi feature yields as many rows as it has elements. */
  lemma {:induction false} MultiRowCount(fs: seq<Feature>)
    requires Rows(true, fs).Ok?
    ensures |Rows(true, fs).value.0| == ElementCount(fs)
    decreases |fs|
  {
    if |fs| > 0 {
      MultiRowCount(fs[1..]);
    }
  }

  // ---------------------------------------------------------------------
  // The factories
  // ---------------------------------------------------------------------

  /** The features a factory keeps: of its type, then of its dimension. */
  function Selected(fac: Factory, fs: seq<Feature>): Outcome<seq<Feature>> {
    var ofType := Filter((f: Feature) => IsType(fac.geoType, f), fs);
    if ofType.TypeError? then TypeError
    else Filter((f: Feature) => InDimension(fac.shpType, fac.just3D, f), ofType.value)
  }

  /** `justType(type, TYPE, just3D)(gj)` with `gj.features` = fs. */
  function JustType(fac: Factory, fs: seq<Feature>): (r: Outcome<Layer>)
    ensures r.Ok? ==> r.value.shpType == fac.shpType
    ensures r.Ok? ==> |r.value.geometries| == |r.value.properties|
  {
    var kept := Selected(fac, fs);
    if kept.TypeError? then TypeError
    else
      var rows := Rows(IsMultiType(fac.geoType), kept.value);
      if rows.TypeError? then TypeError
      else Ok(Layer(rows.value.0, rows.value.1, fac.shpType))
  }

  /** A factory keeps a feature iff it has the factory's type exactly and
      passes the dimension test. */
  lemma SelectedMembers(fac: Factory, fs: seq<Feature>, f: Feature)
    requires Selected(fac, fs).Ok?
    ensures f in Selected(fac, fs).value <==>
            f in fs && f.geometry.Some? && f.geometry.value.geoType == fac.geoType &&
            InDimension(fac.shpType, fac.just3D, f) == Ok(true)
  {
    var pt := (g: Feature) => IsType(fac.geoType, g);
    var pd := (g: Feature) => InDimension(fac.shpType, fac.just3D, g);
    var ofType := Filter(pt, fs);
    FilterMembers(pt, fs, f);
    FilterMembers(pd, ofType.value, f);
  }

  /** The type filter of a factory throws iff some feature has no geometry. */
  lemma SelectedOk(fac: Factory, fs: seq<Feature>)
    ensures Filter((f: Feature) => IsType(fac.geoType, f), fs).Ok? <==>
            forall k :: 0 <= k < |fs| ==> fs[k].geometry.Some?
  {
    FilterOk((f: Feature) => IsType(fac.geoType, f), fs);
  }

  /** Two variants of one GeoJSON type that differ in dimension never keep
      the same feature. */
  lemma VariantsDisjoint(a: Factory, b: Factory, fs: seq<Feature>, f: Feature)
    requires a.geoType == b.geoType && a.just3D != b.just3D
    requires IsPointShp(a.shpType) == IsPointShp(b.shpType)
    requires Selected(a, fs).Ok? && Selected(b, fs).Ok?
    ensures !(f in Selected(a, fs).value && f in Selected(b, fs).value)
  {
    SelectedMembers(a, fs, f);
    SelectedMembers(b, fs, f);
    if f in Selected(a, fs).value && f in Selected(b, fs).value {
      var g := f.geometry.value;
      assert DimensionCoords(a.shpType, g.coordinates) == DimensionCoords(b.shpType, g.coordinates);
      DimensionsDisjoint(a.shpType, f);
    }
  }

  /** A collection with no feature of the factory's type gives empty rows, not an error. */
  lemma {:induction false} NothingOfType(fac: Factory, fs: seq<Feature>)
    requires forall k :: 0 <= k < |fs| ==> fs[k].geometry.Some? && fs[k].geometry.value.geoType != fac.geoType
    ensures JustType(fac, fs) == Ok(Layer([], [], fac.shpType))
  {
    var pt := (g: Feature) => IsType(fac.geoType, g);
    FilterOk(pt, fs);
    var ofType := Filter(pt, fs).value;
    if |ofType| > 0 {
      FilterMembers(pt, fs, ofType[0]);
    }
  }

  // ---------------------------------------------------------------------
  // From coordinate rows to the records of the writer
  // ---------------------------------------------------------------------

  /** A position: an array of numbers. */
  function AsPosition(c: Coord): Option<ShpPoly.Position> {
    match c
    case Number(_) => None
    case List(items) =>
      if forall k :: 0 <= k < |items| ==> items[k].Number?
      then Some(seq(|items|, k requires 0 <= k < |items| => items[k].x))
      else None
  }

  function AsPositions(cs: seq<Coord>): (r: Option<seq<ShpPoly.Position>>)
    ensures r.Some? ==> |r.value| == |cs|
    decreases |cs|
  {
    if |cs| == 0 then Some([])
    else
      var head := AsPosition(cs[0]);
      var rest := AsPositions(cs[1..]);
      if head.None? || rest.None? then None else Some([head.value] + rest.value)
  }

  function AsRings(cs: seq<Coord>): (r: Option<seq<seq<ShpPoly.Position>>>)
    ensures r.Some? ==> |r.value| == |cs|
    decreases |cs|
  {
    if |cs| == 0 then Some([])
    else
      var head := if cs[0].List? then AsPositions(cs[0].items) else None;
      var rest := AsRings(cs[1..]);
      if head.None? || rest.None? then None else Some([head.value] + rest.value)
  }

  /** The geometry a coordinate row is for `write`: a list of positions or a
      list of rings. */
  function ToPolyGeometry(c: Coord): (r: Option<ShpPoly.Geometry>)
    ensures r.Some? ==> c.List? && ShpPoly.TopCount(r.value) == |c.items|
  {
    match c
    case Number(_) => None
    case List(items) =>
      match AsPositions(items)
      case Some(ps) => Some(ShpPoly.Line(ps))
      case None =>
        match AsRings(items)
        case Some(rs) => Some(ShpPoly.Rings(rs))
        case None => None
  }

  /** Every MultiLineString row reaches `write` as a one-part geometry, so
      `shpLength` reserves exactly the bytes `write` fills for it. */
  lemma MultiLineRowsExact(fac: Factory, fs: seq<Feature>, gs: seq<ShpPoly.Geometry>)
    requires fac == multiline || fac == multilineZ
    requires JustType(fac, fs).Ok?
    requires |gs| == |JustType(fac, fs).value.geometries|
    requires forall k :: 0 <= k < |gs| ==> ToPolyGeometry(JustType(fac, fs).value.geometries[k]) == Some(gs[k])
    ensures ShpPoly.PartsExact(gs, ShpPoly.POLYLINE) && ShpPoly.PartsExact(gs, ShpPoly.POLYLINEZ)
    ensures ShpPoly.AllNonEmpty(gs) ==>
              ShpPoly.ShpLengthAsWritten(gs, ShpPoly.POLYLINE)
              == ShpPoly.RecordsLength(ShpPoly.ContentLengths(gs, ShpPoly.POLYLINE))
  {
    var kept := Selected(fac, fs).value;
    MultiRowsSingleton(kept);
    if ShpPoly.AllNonEmpty(gs) {
      ShpPoly.ShpLengthExactIff(gs, ShpPoly.POLYLINE);
    }
  }

  /** A LineString row of two or more positions reaches `write` as a bare
      line, for which `shpLength` reserves more than `write` fills. */
  lemma LineRowOverReserves(c: Coord, g: ShpPoly.Geometry)
    requires ToPolyGeometry(c) == Some(g) && g.Line? && |g.points| >= 2
    ensures ShpPoly.ShpLengthAsWritten([g], ShpPoly.POLYLINE)
            > ShpPoly.RecordsLength(ShpPoly.ContentLengths([g], ShpPoly.POLYLINE))
  {
    ShpPoly.ShpLengthExactIff([g], ShpPoly.POLYLINE);
    assert !ShpPoly.PartsExact([g], ShpPoly.POLYLINE);
  }
}

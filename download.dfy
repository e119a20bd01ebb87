/** The exporter's download helpers: the lookup tables of formats and WFS
    versions, the GeoPackage preparation of a GeoJSON feature collection
    (property filtering, id filling, table columns) and the choice of what
    a layer download produces. The requests, the format writers, the
    GeoPackage API and the download anchor are outside the model. */
module ExporterDownload {
  import opened JsText
  import opened JsValues
  import ExporterReset

  const geoJson := Str(ExporterReset.exportFormats[0])
  const gml := Str(ExporterReset.exportFormats[1])
  const shp := Str(ExporterReset.exportFormats[2])
  const gpkg := Str(ExporterReset.exportFormats[3])

  // ---------------------------------------------------------------------
  // Lookup tables
  // ---------------------------------------------------------------------

  /** `getFileEndingForFormat(format)`; `switch` compares with `===`. */
  function FileEnding(format: JsValue): string {
    if format == geoJson then "json"
    else if format == gml then "gml"
    else if format == shp then "zip"
    else if format == gpkg then "gpkg"
    else ""
  }

  predicate IsExportFormat(format: JsValue) {
    format in {geoJson, gml, shp, gpkg}
  }

  /** Each export format has its own non-empty ending; anything else has
      none, so the ending determines the format. */
  lemma FileEndings(format: JsValue, other: JsValue)
    ensures FileEnding(Str("geoJson")) == "json" && FileEnding(Str("gml")) == "gml"
    ensures FileEnding(Str("shp")) == "zip" && FileEnding(Str("gpkg")) == "gpkg"
    ensures FileEnding(format) != "" <==> IsExportFormat(format)
    ensures FileEnding(format) != "" && FileEnding(format) == FileEnding(other) ==> format == other
  {
  }

  /** The name of the downloaded file, `${layer.name}.${fileEnding}`. */
  function FileName(layerName: JsValue, format: JsValue): string {
    ToJsString(layerName) + "." + FileEnding(format)
  }

  /** An unknown format still gives a name, ending in a bare '.'. */
  lemma FileNameEnding(layerName: JsValue, format: JsValue)
    ensures IsExportFormat(format) ==> FileName(layerName, format) == ToJsString(layerName) + "." + FileEnding(format) &&
                                       FileEnding(format) != ""
    ensures !IsExportFormat(format) ==> FileName(layerName, format) == ToJsString(layerName) + "."
  {
  }

  /** `getTypeNameStringFromServiceVersion(version)` */
  function TypeNameParam(version: JsValue): JsValue {
    if version in {Str("1.0.0"), Str("1.1.0"), Str("1.1.3")} then Str("typeName")
    else if version in {Str("2.0.0"), Str("2.0.2")} then Str("typeNames")
    else Undefined
  }

  /** `getGmlMimeFromVersion(version)`; WFS 2.0.2 has no entry. */
  function GmlMime(version: JsValue): JsValue {
    if version == Str("1.1.0") then Str("text/xml; subtype=gml/3.1.1")
    else if version == Str("1.1.3") then Str("application/gml+xml; version=3.1")
    else if version == Str("2.0.0") then Str("application/gml+xml; version=3.2")
    else Undefined
  }

  /** WFS 1.x names the feature type with `typeName`, 2.x with `typeNames`;
      every version with a GML MIME type also has a type-name parameter, but
      1.0.0 and 2.0.2 have a parameter and no MIME type. */
  lemma VersionTables(version: JsValue)
    ensures TypeNameParam(version) == Str("typeName") <==> version in {Str("1.0.0"), Str("1.1.0"), Str("1.1.3")}
    ensures TypeNameParam(version) == Str("typeNames") <==> version in {Str("2.0.0"), Str("2.0.2")}
    ensures TypeNameParam(version) == Undefined <==>
              version !in {Str("1.0.0"), Str("1.1.0"), Str("1.1.3"), Str("2.0.0"), Str("2.0.2")}
    ensures GmlMime(version) != Undefined ==> TypeNameParam(version) != Undefined
    ensures GmlMime(version) != Undefined <==> version in {Str("1.1.0"), Str("1.1.3"), Str("2.0.0")}
    ensures GmlMime(Str("1.0.0")) == Undefined && GmlMime(Str("2.0.2")) == Undefined
  {
  }

  type Param = (string, string)

  /** The parameters `downloadWfsLayer` appends to the layer's URL, each
      value converted with String(). */
  function GetFeatureParams(existing: seq<Param>, version: JsValue, featureType: JsValue): seq<Param> {
    existing + [ ("service", "WFS"), ("request", "GetFeature"), ("version", ToJsString(version)),
                 ("srsName", "EPSG:4326"), (ToJsString(TypeNameParam(version)), ToJsString(featureType)) ]
  }

  /** Five parameters are appended after the existing ones; for a version
      outside the table the type parameter is literally named "undefined". */
  lemma GetFeatureParamNames(existing: seq<Param>, version: JsValue, featureType: JsValue)
    ensures var ps := GetFeatureParams(existing, version, featureType);
            && |ps| == |existing| + 5 && ps[..|existing|] == existing
            && ps[|existing| + 2] == ("version", ToJsString(version))
            && ps[|existing| + 4].1 == ToJsString(featureType)
            && (version == Str("2.0.0") ==> ps[|existing| + 4].0 == "typeNames")
            && (version == Str("1.1.0") ==> ps[|existing| + 4].0 == "typeName")
            && (TypeNameParam(version) == Undefined ==> ps[|existing| + 4].0 == "undefined")
  {
  }

  // ---------------------------------------------------------------------
  // GeoPackage data types
  // ---------------------------------------------------------------------

  const gpkgTypeKeys: seq<string> := ["boolean", "tinyint", "smallint", "mediumint", "int", "integer", "float",
                                       "double", "real", "text", "blob", "date", "datetime", "string", "number"]
  const gpkgTypeValues: seq<string> := ["BOOLEAN", "TINYINT", "SMALLINT", "MEDIUMINT", "INT", "INTEGER", "FLOAT",
                                         "DOUBLE", "REAL", "TEXT", "BLOB", "DATE", "DATETIME", "TEXT", "INT"]

  /** `GEOPACKAGEDATATYPE` */
  function GpkgTypes(): Entries {
    Zip(gpkgTypeKeys, seq(15, i requires 0 <= i < 15 => Str(gpkgTypeValues[i])))
  }

  /** `GEOPACKAGEDATATYPE[typeof value]` */
  function GpkgDataType(value: JsValue): JsValue {
    Get(GpkgTypes(), TypeOf(value))
  }

  /** A property is kept when the table has an entry for its `typeof`. */
  predicate GpkgSupported(value: JsValue) {
    Truthy(GpkgDataType(value))
  }

  lemma GpkgTypeKeysDistinct()
    ensures Distinct(gpkgTypeKeys)
  {
  }

  lemma GpkgTypeAt(i: nat)
    requires i < 15
    ensures Get(GpkgTypes(), gpkgTypeKeys[i]) == Str(gpkgTypeValues[i])
  {
    GpkgTypeKeysDistinct();
    assert gpkgTypeKeys[i] !in gpkgTypeKeys[..i];
    var vs := seq(15, i requires 0 <= i < 15 => Str(gpkgTypeValues[i]));
    assert GpkgTypes() == Zip(gpkgTypeKeys, vs);
    hide *;
    GetZip(gpkgTypeKeys, vs, i);
  }

  lemma GpkgTypeAbsent(key: string)
    requires key !in gpkgTypeKeys
    ensures Get(GpkgTypes(), key) == Undefined
  {
    assert Keys(GpkgTypes()) == gpkgTypeKeys;
  }

  /** Strings, numbers and booleans are kept, as TEXT, INT and BOOLEAN;
      objects (null included), arrays, undefined and functions are not. */
  lemma GpkgSupportedIff(value: JsValue)
    ensures GpkgSupported(value) <==> value.Bool? || value.Num? || value.Str?
    ensures value.Bool? ==> GpkgDataType(value) == Str("BOOLEAN")
    ensures value.Num? ==> GpkgDataType(value) == Str("INT")
    ensures value.Str? ==> GpkgDataType(value) == Str("TEXT")
  {
    match value
    case Bool(_) =>
      assert TypeOf(value) == gpkgTypeKeys[0] && gpkgTypeValues[0] == "BOOLEAN";
      hide *;
      GpkgTypeAt(0);
    case Num(_) =>
      assert TypeOf(value) == gpkgTypeKeys[14] && gpkgTypeValues[14] == "INT";
      hide *;
      GpkgTypeAt(14);
    case Str(_) =>
      assert TypeOf(value) == gpkgTypeKeys[13] && gpkgTypeValues[13] == "TEXT";
      hide *;
      GpkgTypeAt(13);
    case _ =>
      GpkgTypeAbsent(TypeOf(value));
  }

  // ---------------------------------------------------------------------
  // filterFeaturePropertiesForGpkg
  // ---------------------------------------------------------------------

  /** The properties of one feature left after the filter: the supported
      ones, in their order. */
  function GpkgFilter(e: Entries): (r: Entries)
    ensures |r| <= |e|
  {
    if |e| == 0 then []
    else (if GpkgSupported(e[0].1) then [e[0]] else []) + GpkgFilter(e[1..])
  }

  lemma {:induction false} GpkgFilterKeys(e: Entries, k: string)
    ensures HasKey(GpkgFilter(e), k) ==> HasKey(e, k)
  {
    hide GpkgSupported;
    if |e| > 0 {
      var head := if GpkgSupported(e[0].1) then [e[0]] else [];
      GpkgFilterKeys(e[1..], k);
      KeysCons(e[0], e[1..]);
      assert Keys(head + GpkgFilter(e[1..])) == Keys(head) + Keys(GpkgFilter(e[1..]));
    }
  }

  /** The filter keeps exactly the supported properties. */
  lemma {:induction false} GpkgFilterMembers(e: Entries, p: (string, JsValue))
    ensures p in GpkgFilter(e) <==> p in e && GpkgSupported(p.1)
  {
    hide GpkgSupported;
    if |e| > 0 {
      GpkgFilterMembers(e[1..], p);
      assert e == [e[0]] + e[1..];
    }
  }

  lemma GpkgFilterSnoc(e: Entries, i: nat)
    requires i < |e|
    ensures GpkgFilter(e[..i + 1]) == GpkgFilter(e[..i]) + (if GpkgSupported(e[i].1) then [e[i]] else [])
  {
    hide GpkgSupported;
    GpkgFilterAppend(e[..i], [e[i]]);
    assert e[..i + 1] == e[..i] + [e[i]];
  }

  lemma {:induction false} GpkgFilterAppend(a: Entries, b: Entries)
    ensures GpkgFilter(a + b) == GpkgFilter(a) + GpkgFilter(b)
  {
    hide GpkgSupported;
    if |a| > 0 {
      assert (a + b)[1..] == a[1..] + b;
      GpkgFilterAppend(a[1..], b);
    } else {
      assert a + b == b;
    }
  }

  lemma {:induction false} DeleteAbsent(e: Entries, k: string)
    requires !HasKey(e, k)
    ensures Delete(e, k) == e
  {
    if |e| > 0 {
      HasKeyCons(e, k);
      DeleteAbsent(e[1..], k);
    }
  }

  lemma {:induction false} DeleteAppend(a: Entries, b: Entries, k: string)
    ensures Delete(a + b, k) == Delete(a, k) + Delete(b, k)
  {
    if |a| > 0 {
      assert (a + b)[1..] == a[1..] + b;
      DeleteAppend(a[1..], b, k);
    } else {
      assert a + b == b;
    }
  }

  lemma NotBefore(e: Entries, i: nat)
    requires i < |e| && DistinctKeys(e)
    ensures !HasKey(e[..i], e[i].0) && !HasKey(e[i + 1..], e[i].0)
  {
    var a, b := e[..i], e[i + 1..];
    forall j | 0 <= j < |a| ensures Keys(a)[j] != e[i].0 {
      assert a[j] == e[j];
    }
    forall j | 0 <= j < |b| ensures Keys(b)[j] != e[i].0 {
      assert b[j] == e[i + 1 + j];
    }
  }

  /** Deleting the next property while walking a snapshot of distinct keys. */
  lemma DeleteNext(e: Entries, i: nat)
    requires i < |e| && DistinctKeys(e)
    ensures Delete(GpkgFilter(e[..i]) + e[i..], e[i].0) == GpkgFilter(e[..i]) + e[i + 1..]
  {
    var k := e[i].0;
    var f := GpkgFilter(e[..i]);
    NotBefore(e, i);
    GpkgFilterKeys(e[..i], k);
    assert e[i..] == [e[i]] + e[i + 1..];
    hide *;
    DeleteAppend(f, e[i..], k);
    DeleteAbsent(f, k);
    DeleteAbsent(e[i + 1..], k);
  }

  /** One step of the filter loop. */
  lemma FilterStep(e: Entries, i: nat)
    requires i < |e| && DistinctKeys(e)
    ensures (if GpkgSupported(e[i].1) then GpkgFilter(e[..i]) + e[i..] else Delete(GpkgFilter(e[..i]) + e[i..], e[i].0))
            == GpkgFilter(e[..i + 1]) + e[i + 1..]
  {
    hide GpkgSupported;
    GpkgFilterSnoc(e, i);
    if GpkgSupported(e[i].1) {
      assert e[i..] == [e[i]] + e[i + 1..];
    } else {
      DeleteNext(e, i);
    }
  }

  /** The loop over `Object.entries(feature.properties)` that deletes every
      property whose type the table lacks. `Object.entries` is a snapshot,
      so the deletions do not disturb the walk. */
  method FilterProperties(props: Entries) returns (r: Entries)
    requires DistinctKeys(props)
    ensures r == GpkgFilter(props)
  {
    r := props;
    var i := 0;
    assert props[..0] == [] && props[0..] == props;
    while i < |props|
      invariant 0 <= i <= |props|
      invariant r == GpkgFilter(props[..i]) + props[i..]
    {
      var (key, value) := props[i];
      FilterStep(props, i);
      if !GpkgSupported(value) {
        r := Delete(r, key);
      }
      i := i + 1;
    }
    assert props[..|props|] == props;
  }

  // ---------------------------------------------------------------------
  // The feature collection GeoPackage export works on
  // ---------------------------------------------------------------------

  /** The position of the first feature whose properties are null, or the
      number of features when there is none. */
  function FirstNull(ps: seq<Option<Entries>>): (k: nat)
    ensures k <= |ps| && (k < |ps| ==> ps[k].None?)
    ensures forall i :: 0 <= i < k ==> ps[i].Some?
  {
    if |ps| == 0 then 0 else if ps[0].None? then 0 else 1 + FirstNull(ps[1..])
  }

  predicate AllDistinct(ps: seq<Option<Entries>>) {
    forall i :: 0 <= i < |ps| && ps[i].Some? ==> DistinctKeys(ps[i].value)
  }

  /** The properties after the filter reached feature k: those before it
      filtered, the rest as they were. */
  function FilteredBefore(ps: seq<Option<Entries>>, k: nat): (r: seq<Option<Entries>>)
    ensures |r| == |ps|
  {
    seq(|ps|, i requires 0 <= i < |ps| => if i < k && ps[i].Some? then Some(GpkgFilter(ps[i].value)) else ps[i])
  }

  /** A feature without an id (a falsy one, 0 and "" included) gets its
      index; a truthy id is kept. */
  function WithId(e: Entries, idx: nat): Entries {
    if Truthy(Get(e, "id")) then e else Assign(e, "id", Num(idx))
  }

  function IdsBefore(ps: seq<Option<Entries>>, k: nat): (r: seq<Option<Entries>>)
    ensures |r| == |ps|
  {
    seq(|ps|, i requires 0 <= i < |ps| => if i < k && ps[i].Some? then Some(WithId(ps[i].value, i)) else ps[i])
  }

  /** A column of the GeoPackage feature table. */
  datatype Column = Column(name: string, dataType: JsValue)

  predicate IsTableColumn(key: string) {
    Lower(key) != "id" && Lower(key) != "geometry"
  }

  /** The columns `prepareGPKG` declares: every property but id and
      geometry (in any case), with the type of its value. */
  function Columns(e: Entries): seq<Column> {
    if |e| == 0 then []
    else (if IsTableColumn(e[0].0) then [Column(e[0].0, GpkgDataType(e[0].1))] else []) + Columns(e[1..])
  }

  lemma {:induction false} ColumnsAppend(a: Entries, b: Entries)
    ensures Columns(a + b) == Columns(a) + Columns(b)
  {
    if |a| > 0 {
      assert (a + b)[1..] == a[1..] + b;
      ColumnsAppend(a[1..], b);
    } else {
      assert a + b == b;
    }
  }

  /** The loop of `prepareGPKG` that pushes one column per property. */
  method TableColumns(properties: Entries) returns (cols: seq<Column>)
    ensures cols == Columns(properties)
  {
    cols := [];
    var i := 0;
    while i < |properties|
      invariant 0 <= i <= |properties|
      invariant cols == Columns(properties[..i])
    {
      var (key, value) := properties[i];
      ColumnsAppend(properties[..i], [properties[i]]);
      assert properties[..i + 1] == properties[..i] + [properties[i]];
      if IsTableColumn(key) {
        cols := cols + [Column(key, GpkgDataType(value))];
      }
      i := i + 1;
    }
    assert properties[..|properties|] == properties;
  }

  /** The columns are the properties other than id and geometry, in order. */
  lemma {:induction false} ColumnMembers(e: Entries, c: Column)
    ensures c in Columns(e) <==> exists i :: 0 <= i < |e| && IsTableColumn(e[i].0) && c == Column(e[i].0, GpkgDataType(e[i].1))
  {
    if |e| > 0 {
      ColumnMembers(e[1..], c);
      if c in Columns(e[1..]) {
        var i :| 0 <= i < |e[1..]| && IsTableColumn(e[1..][i].0) && c == Column(e[1..][i].0, GpkgDataType(e[1..][i].1));
        assert e[i + 1] == e[1..][i];
      }
      if exists i :: 0 <= i < |e| && IsTableColumn(e[i].0) && c == Column(e[i].0, GpkgDataType(e[i].1)) {
        var i :| 0 <= i < |e| && IsTableColumn(e[i].0) && c == Column(e[i].0, GpkgDataType(e[i].1));
        if i > 0 {
          assert e[1..][i - 1] == e[i];
        }
      }
    }
  }

  /** Columns of filtered properties always have a GeoPackage type. */
  lemma {:induction false} FilteredColumnsTyped(e: Entries)
    ensures forall c :: c in Columns(GpkgFilter(e)) ==> c.dataType in {Str("BOOLEAN"), Str("INT"), Str("TEXT")}
  {
    forall c | c in Columns(GpkgFilter(e)) ensures c.dataType in {Str("BOOLEAN"), Str("INT"), Str("TEXT")} {
      ColumnMembers(GpkgFilter(e), c);
      var i :| 0 <= i < |GpkgFilter(e)| && IsTableColumn(GpkgFilter(e)[i].0) &&
               c == Column(GpkgFilter(e)[i].0, GpkgDataType(GpkgFilter(e)[i].1));
      var p := GpkgFilter(e)[i];
      GpkgFilterMembers(e, p);
      GpkgSupportedIff(p.1);
    }
  }

  /** `geojson.features`, seen through their `properties`: an object, or
      null for a feature without properties (as the GeoJSON writer makes
      them). The features change in place. */
  class FeatureCollection {
    var properties: seq<Option<Entries>>

    constructor(ps: seq<Option<Entries>>)
      ensures properties == ps
    {
      properties := ps;
    }

    /** `filterFeaturePropertiesForGpkg(geojson)`. `Object.entries(null)`
        throws: the features before the first null ones are filtered by
        then, the rest are untouched. */
    method FilterForGpkg() returns (threw: bool)
      requires AllDistinct(properties)
      modifies this
      ensures threw <==> FirstNull(old(properties)) < |old(properties)|
      ensures properties == FilteredBefore(old(properties), FirstNull(old(properties)))
    {
      ghost var ps := properties;
      var i := 0;
      threw := false;
      while i < |properties|
        invariant 0 <= i <= |ps| && |properties| == |ps| && !threw
        invariant forall j :: 0 <= j < i ==> ps[j].Some?
        invariant properties == FilteredBefore(ps, i)
      {
        if properties[i].None? {
          threw := true;
          assert FirstNull(ps) == i by {
            FirstNullAt(ps, i);
          }
          return;
        }
        var filtered := FilterProperties(properties[i].value);
        properties := properties[i := Some(filtered)];
        i := i + 1;
      }
      FirstNullAt(ps, i);
    }

    /** `geojson.features.forEach((ft, idx) => { if (!ft.properties.id)
        ft.properties.id = idx; })`; reading `id` of null throws. */
    method FillIds() returns (threw: bool)
      modifies this
      ensures threw <==> FirstNull(old(properties)) < |old(properties)|
      ensures properties == IdsBefore(old(properties), FirstNull(old(properties)))
    {
      ghost var ps := properties;
      var i := 0;
      threw := false;
      while i < |properties|
        invariant 0 <= i <= |ps| && |properties| == |ps| && !threw
        invariant forall j :: 0 <= j < i ==> ps[j].Some?
        invariant properties == IdsBefore(ps, i)
      {
        if properties[i].None? {
          threw := true;
          assert FirstNull(ps) == i by {
            FirstNullAt(ps, i);
          }
          return;
        }
        properties := properties[i := Some(WithId(properties[i].value, i))];
        i := i + 1;
      }
      FirstNullAt(ps, i);
    }
  }

  lemma FirstNullAt(ps: seq<Option<Entries>>, i: nat)
    requires i <= |ps| && (forall j :: 0 <= j < i ==> ps[j].Some?) && (i < |ps| ==> ps[i].None?)
    ensures FirstNull(ps) == i
  {
  }

  /** After the id fill every feature that was reached has an id: its own
      when truthy, else its index; no other property changes. */
  lemma WithIdFields(e: Entries, idx: nat, k: string)
    ensures HasKey(WithId(e, idx), "id")
    ensures Get(WithId(e, idx), "id") == if Truthy(Get(e, "id")) then Get(e, "id") else Num(idx)
    ensures k != "id" ==> Get(WithId(e, idx), k) == Get(e, k) && (HasKey(WithId(e, idx), k) <==> HasKey(e, k))
  {
    if !Truthy(Get(e, "id")) {
      GetAssign(e, "id", Num(idx), k);
      GetAssign(e, "id", Num(idx), "id");
      HasKeyAssign(e, "id", Num(idx), k);
      HasKeyAssign(e, "id", Num(idx), "id");
    } else {
      assert HasKey(e, "id");
    }
  }

  /** `createGeoPackage(geojson)` up to the table: filter, fill the ids,
      then declare the columns of the first feature. With no feature,
      `geojson.features[0].properties` throws. When the filter throws at the
      first feature without properties, the features before it are filtered,
      none has been given an id and the rest are untouched. */
  method CreateGeoPackageColumns(fc: FeatureCollection) returns (r: Outcome<seq<Column>>)
    requires AllDistinct(fc.properties)
    modifies fc
    ensures r.Ok? <==> |old(fc.properties)| > 0 && FirstNull(old(fc.properties)) == |old(fc.properties)|
    ensures r.Ok? ==> r.value == Columns(WithId(GpkgFilter(old(fc.properties)[0].value), 0))
    ensures r.Ok? ==> fc.properties == IdsBefore(FilteredBefore(old(fc.properties), |old(fc.properties)|), |old(fc.properties)|)
    ensures FirstNull(old(fc.properties)) < |old(fc.properties)| ==>
              fc.properties == FilteredBefore(old(fc.properties), FirstNull(old(fc.properties)))
    ensures FirstNull(old(fc.properties)) >= |old(fc.properties)| ==>
              fc.properties == IdsBefore(FilteredBefore(old(fc.properties), |old(fc.properties)|), |old(fc.properties)|)
  {
    ghost var ps := fc.properties;
    var threw := fc.FilterForGpkg();
    if threw {
      return TypeError;
    }
    ghost var filtered := fc.properties;
    assert forall j :: 0 <= j < |filtered| ==> filtered[j].Some?;
    FirstNullAt(filtered, |filtered|);
    threw := fc.FillIds();
    if |fc.properties| == 0 {
      return TypeError;
    }
    assert fc.properties[0] == Some(WithId(GpkgFilter(ps[0].value), 0));
    var cols := TableColumns(fc.properties[0].value);
    r := Ok(cols);
  }

  /** Setting the id never changes the columns: id is not one. */
  lemma {:induction false} ColumnsAssignId(e: Entries, v: JsValue)
    ensures Columns(Assign(e, "id", v)) == Columns(e)
  {
    assert Lower("id") == "id";
    if |e| == 0 {
      assert Columns([("id", v)]) == [] + Columns([]);
    } else if e[0].0 == "id" {
      assert ([("id", v)] + e[1..])[1..] == e[1..];
    } else {
      ColumnsAssignId(e[1..], v);
      assert ([e[0]] + Assign(e[1..], "id", v))[1..] == Assign(e[1..], "id", v);
    }
  }

  /** The declared columns never include the id the fill adds, and each has
      a GeoPackage type. */
  lemma GeoPackageColumns(first: Entries, c: Column)
    requires c in Columns(WithId(GpkgFilter(first), 0))
    ensures IsTableColumn(c.name) && c.name != "id"
    ensures c.dataType in {Str("BOOLEAN"), Str("INT"), Str("TEXT")}
  {
    var f := GpkgFilter(first);
    hide *;
    ColumnsWithId(f);
    FilteredColumnsTyped(first);
    IdNotColumn(f, c);
  }

  lemma ColumnsWithId(f: Entries)
    ensures Columns(WithId(f, 0)) == Columns(f)
  {
    if !Truthy(Get(f, "id")) {
      ColumnsAssignId(f, Num(0));
    }
  }

  lemma IdNotColumn(f: Entries, c: Column)
    requires c in Columns(f)
    ensures IsTableColumn(c.name) && c.name != "id"
  {
    ColumnMembers(f, c);
    assert Lower("id") == "id";
  }

  // ---------------------------------------------------------------------
  // What a download produces
  // ---------------------------------------------------------------------

  /** The outcome of a layer download: a zipped shapefile, a GeoPackage, a
      blob of the given MIME type, no blob (creating the object URL of an
      undefined blob throws), the multipolygon error, or a TypeError. */
  datatype Export =
    | ShapeZip
    | GeoPackage
    | Blob(mime: JsValue)
    | NoBlob
    | ShapeUnsupportedMultiPolygon
    | ExportTypeError

  /** `geojson.features.find(f => f.geometry.type.toLowerCase() ===
      "multipolygon")`, on the features' geometry types (None: a null
      geometry, whose `type` cannot be read). */
  function FindMultiPolygon(types: seq<Option<string>>): Outcome<bool> {
    if |types| == 0 then Ok(false)
    else if types[0].None? then TypeError
    else if Lower(types[0].value) == "multipolygon" then Ok(true)
    else FindMultiPolygon(types[1..])
  }

  /** The search finds a multipolygon exactly when one comes before any
      null geometry. */
  lemma {:induction false} FindMultiPolygonIff(types: seq<Option<string>>)
    ensures FindMultiPolygon(types) == Ok(true) <==>
              exists i :: 0 <= i < |types| && types[i].Some? && Lower(types[i].value) == "multipolygon" &&
                          forall j :: 0 <= j < i ==> types[j].Some? && Lower(types[j].value) != "multipolygon"
  {
    if |types| > 0 {
      FindMultiPolygonIff(types[1..]);
      var t := types[1..];
      if FindMultiPolygon(types) == Ok(true) && types[0].Some? && Lower(types[0].value) != "multipolygon" {
        var i :| 0 <= i < |t| && t[i].Some? && Lower(t[i].value) == "multipolygon" &&
                 forall j :: 0 <= j < i ==> t[j].Some? && Lower(t[j].value) != "multipolygon";
        assert forall j :: 1 <= j < i + 1 ==> types[j] == t[j - 1];
      }
      if exists i :: 0 <= i < |types| && types[i].Some? && Lower(types[i].value) == "multipolygon" &&
                     forall j :: 0 <= j < i ==> types[j].Some? && Lower(types[j].value) != "multipolygon" {
        var i :| 0 <= i < |types| && types[i].Some? && Lower(types[i].value) == "multipolygon" &&
                 forall j :: 0 <= j < i ==> types[j].Some? && Lower(types[j].value) != "multipolygon";
        if i > 0 {
          assert forall j :: 0 <= j < i - 1 ==> t[j] == types[j + 1];
          assert t[i - 1] == types[i];
        }
      }
    }
  }

  /** The blob a draw layer's `olLayerToBlob` makes. */
  function DrawBlob(format: JsValue): Export {
    if format == geoJson then Blob(Str("application/geojson"))
    else if format == gml then Blob(Str("application/gml+xml; version=3.2"))
    else NoBlob
  }

  /** `downloadDrawLayer(layer, format)` */
  function DrawExport(format: JsValue): Export {
    if format == Str("shp") then ShapeZip
    else if format == Str("gpkg") then GeoPackage
    else DrawBlob(format)
  }

  /** `downloadGeoJsonLayer(layer, format)` */
  function GeoJsonExport(format: JsValue): Export {
    if format == Str("shp") then ShapeZip
    else if format == Str("gpkg") then GeoPackage
    else if format == geoJson then Blob(Str("application/geo+json"))
    else if format == gml then Blob(Str("application/gml+xml; version=3.2"))
    else NoBlob
  }

  /** `downloadWfsLayer(layer, boundary, format)` after the GetFeature
      request: the multipolygon search runs for every format, the error is
      raised only for a shapefile. */
  function WfsExport(format: JsValue, version: JsValue, geometryTypes: seq<Option<string>>): Export {
    match FindMultiPolygon(geometryTypes)
    case TypeError => ExportTypeError
    case Ok(containsMultiPolygons) =>
      if format == Str("shp") then (if containsMultiPolygons then ShapeUnsupportedMultiPolygon else ShapeZip)
      else if format == Str("gpkg") then GeoPackage
      else if format == geoJson then Blob(Str("application/geo+json"))
      else if format == gml then Blob(GmlMime(version))
      else NoBlob
  }

  /** Only the WFS shapefile path rejects multipolygons; draw and GeoJSON
      layers are handed to the shapefile writer unchecked. */
  lemma MultiPolygonRejection(format: JsValue, version: JsValue, geometryTypes: seq<Option<string>>)
    ensures WfsExport(format, version, geometryTypes) == ShapeUnsupportedMultiPolygon <==>
              format == Str("shp") && FindMultiPolygon(geometryTypes) == Ok(true)
    ensures DrawExport(format) != ShapeUnsupportedMultiPolygon
    ensures GeoJsonExport(format) != ShapeUnsupportedMultiPolygon
    ensures format == Str("shp") ==> DrawExport(format) == ShapeZip && GeoJsonExport(format) == ShapeZip
  {
  }

  /** A WFS GML download is typed by the version's GML MIME type, which is
      undefined for 1.0.0 and 2.0.2. */
  lemma WfsGmlBlob(version: JsValue, geometryTypes: seq<Option<string>>)
    requires FindMultiPolygon(geometryTypes).Ok?
    ensures WfsExport(gml, version, geometryTypes) == Blob(GmlMime(version))
    ensures WfsExport(geoJson, version, geometryTypes) == Blob(Str("application/geo+json"))
  {
  }

  /** `downloadLayer(layer, boundary, format)`: dispatch on `layer.type`
      with `===`; other types do nothing, given here as None. */
  function DownloadLayer(layerType: JsValue, format: JsValue, version: JsValue, geometryTypes: seq<Option<string>>): (r: Option<Export>)
    ensures layerType == Str("geoJson") ==> r == Some(GeoJsonExport(format))
    ensures layerType == Str("wfs") ==> r == Some(WfsExport(format, version, geometryTypes))
    ensures layerType == Str("draw") ==> r == Some(DrawExport(format))
    ensures layerType !in {Str("geoJson"), Str("wfs"), Str("draw")} ==> r.None?
  {
    if layerType == Str("geoJson") then Some(GeoJsonExport(format))
    else if layerType == Str("wfs") then Some(WfsExport(format, version, geometryTypes))
    else if layerType == Str("draw") then Some(DrawExport(format))
    else None
  }
}

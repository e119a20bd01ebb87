/** The WFS-T uploader's geometry checks: whether a feature may be added to
    a target layer, and which highlight type and style a geometry gets. */
module WfstCompatibility {
  import opened JsValues

  /** The geometry types that may stand in for one another. */
  function CompatibilityMap(): map<string, seq<string>> {
    map[ "Point" := ["Point", "MultiPoint"],
         "MultiPoint" := ["Point", "MultiPoint"],
         "LineString" := ["LineString", "MultiLineString"],
         "MultiLineString" := ["LineString", "MultiLineString"],
         "Polygon" := ["Polygon", "MultiPolygon"],
         "MultiPolygon" := ["Polygon", "MultiPolygon"] ]
  }

  /** Names an object literal inherits from `Object.prototype`: looking one
      up in the map gives a truthy non-array, whose missing `includes`
      throws. */
  predicate InheritedName(t: string) {
    t in {"constructor", "hasOwnProperty", "isPrototypeOf", "propertyIsEnumerable", "toLocaleString",
          "toString", "valueOf", "__proto__", "__defineGetter__", "__defineSetter__",
          "__lookupGetter__", "__lookupSetter__"}
  }

  /** The check. `featureType` is the type of the feature's geometry, None
      when the feature or its geometry is missing; `hasTarget` says whether
      a target layer was given; `layerFeatures` lists, for the layer the
      collection finds under the target's id, the geometry type of each of
      its features (None for a feature without geometry), and is None when
      there is no such layer. */
  function ValidateGeometryCompatibility(featureType: Option<string>, hasTarget: bool,
                                         layerFeatures: Option<seq<Option<string>>>): Outcome<bool> {
    if featureType.None? || !hasTarget then Ok(false)
    else if layerFeatures.None? then TypeError
    else if |layerFeatures.value| == 0 then Ok(true)
    else if layerFeatures.value[0].None? then TypeError
    else
      var expected := layerFeatures.value[0].value;
      if expected in CompatibilityMap() then Ok(featureType.value in CompatibilityMap()[expected])
      else if InheritedName(expected) then TypeError
      else Ok(featureType.value == expected)
  }

  /** The family of a standard geometry type. */
  datatype Family = Points | Lines | Polygons

  function FamilyOf(t: string): Option<Family> {
    if t == "Point" || t == "MultiPoint" then Some(Points)
    else if t == "LineString" || t == "MultiLineString" then Some(Lines)
    else if t == "Polygon" || t == "MultiPolygon" then Some(Polygons)
    else None
  }

  /** Without a feature, a geometry or a target layer the answer is false. */
  lemma MissingInput(featureType: Option<string>, hasTarget: bool, layerFeatures: Option<seq<Option<string>>>)
    requires featureType.None? || !hasTarget
    ensures ValidateGeometryCompatibility(featureType, hasTarget, layerFeatures) == Ok(false)
  {
  }

  /** A layer without features accepts every geometry type. */
  lemma EmptyLayer(t: string)
    ensures ValidateGeometryCompatibility(Some(t), true, Some([])) == Ok(true)
  {
  }

  /** Only the layer's first feature is consulted. */
  lemma FirstFeatureOnly(t: string, a: seq<Option<string>>, b: seq<Option<string>>)
    requires |a| > 0 && |b| > 0 && a[0] == b[0]
    ensures ValidateGeometryCompatibility(Some(t), true, Some(a)) == ValidateGeometryCompatibility(Some(t), true, Some(b))
  {
  }

  /** Between standard types the answer is whether they are of one family. */
  lemma Families(t: string, expected: string, rest: seq<Option<string>>)
    requires FamilyOf(t).Some? && FamilyOf(expected).Some?
    ensures ValidateGeometryCompatibility(Some(t), true, Some([Some(expected)] + rest))
            == Ok(FamilyOf(t) == FamilyOf(expected))
  {
    assert expected in CompatibilityMap();
  }

  /** A type the map does not list matches only itself. */
  lemma UnlistedType(t: string, expected: string, rest: seq<Option<string>>)
    requires FamilyOf(expected).None? && !InheritedName(expected)
    ensures ValidateGeometryCompatibility(Some(t), true, Some([Some(expected)] + rest)) == Ok(t == expected)
  {
    assert expected !in CompatibilityMap();
  }
}

module WfstHighlightType {
  import opened JsValues

  /** The highlight type for a geometry type; None for a feature without
      geometry and for the result null. */
  function GetHighlightType(geometryType: Option<string>): Option<string> {
    if geometryType == Some("Point") then Some("increase")
    else if geometryType == Some("Polygon") then Some("highlightPolygon")
    else if geometryType == Some("MultiPolygon") then Some("highlightMultiPolygon")
    else if geometryType == Some("LineString") then Some("highlightLine")
    else if geometryType == Some("MultiLineString") then Some("highlightMultiLine")
    else None
  }

  /** The table; every other type, `MultiPoint` among them, and a missing
      geometry give null. */
  lemma HighlightTable(t: Option<string>)
    ensures GetHighlightType(Some("Point")) == Some("increase")
    ensures GetHighlightType(Some("Polygon")) == Some("highlightPolygon")
    ensures GetHighlightType(Some("MultiPolygon")) == Some("highlightMultiPolygon")
    ensures GetHighlightType(Some("LineString")) == Some("highlightLine")
    ensures GetHighlightType(Some("MultiLineString")) == Some("highlightMultiLine")
    ensures GetHighlightType(t).None? <==>
              !(t in {Some("Point"), Some("Polygon"), Some("MultiPolygon"), Some("LineString"), Some("MultiLineString")})
  {
  }

  /** Different geometry types get different highlight types. */
  lemma HighlightInjective(a: Option<string>, b: Option<string>)
    requires GetHighlightType(a).Some? && GetHighlightType(a) == GetHighlightType(b)
    ensures a == b
  {
  }
}

module WfstHighlightStyle {
  import opened JsValues
  import WfstCompatibility

  /** The highlight style for a feature type; the switch compares with
      `===`, and reading a style of an undefined or null style object
      throws. */
  function GetHighlightStyleFromType(featureType: JsValue, styleObject: JsValue): Outcome<JsValue> {
    if featureType == Str("LineString") || featureType == Str("MultiLineString") then Prop(styleObject, "lineStringStyle")
    else if featureType == Str("Polygon") || featureType == Str("MultiPolygon") then Prop(styleObject, "polygonStyle")
    else Ok(Null)
  }

  /** The styles of the uploader's state, with arbitrary style values. */
  function HighlightStyles(polygonStyle: JsValue, lineStringStyle: JsValue, pointStyle: JsValue): JsValue {
    Obj([("polygonStyle", polygonStyle), ("lineStringStyle", lineStringStyle), ("pointStyle", pointStyle)])
  }

  /** Lines get the line style and polygons the polygon style; a point gets
      null although the state holds a point style. */
  lemma StyleTable(p: JsValue, l: JsValue, q: JsValue)
    ensures GetHighlightStyleFromType(Str("LineString"), HighlightStyles(p, l, q)) == Ok(l)
    ensures GetHighlightStyleFromType(Str("MultiLineString"), HighlightStyles(p, l, q)) == Ok(l)
    ensures GetHighlightStyleFromType(Str("Polygon"), HighlightStyles(p, l, q)) == Ok(p)
    ensures GetHighlightStyleFromType(Str("MultiPolygon"), HighlightStyles(p, l, q)) == Ok(p)
    ensures GetHighlightStyleFromType(Str("Point"), HighlightStyles(p, l, q)) == Ok(Null)
  {
    StylesGet(p, l, q);
    hide Get;
  }

  lemma StylesGet(p: JsValue, l: JsValue, q: JsValue)
    ensures Prop(HighlightStyles(p, l, q), "polygonStyle") == Ok(p)
    ensures Prop(HighlightStyles(p, l, q), "lineStringStyle") == Ok(l)
  {
    var e := HighlightStyles(p, l, q).entries;
    assert e[0].0 == "polygonStyle" && e[1].0 == "lineStringStyle";
    assert e[0].0 != "lineStringStyle";
  }

  /** With an object of styles the result is one of its two entries or
      null. */
  lemma OneOfTwo(featureType: JsValue, e: Entries)
    ensures var r := GetHighlightStyleFromType(featureType, Obj(e));
            r == Ok(Get(e, "lineStringStyle")) || r == Ok(Get(e, "polygonStyle")) || r == Ok(Null)
  {
  }

  /** Types the uploader treats as compatible share their highlight style. */
  lemma CompatibleShareStyle(a: string, b: string, styleObject: JsValue)
    requires WfstCompatibility.FamilyOf(a).Some? && WfstCompatibility.FamilyOf(a) == WfstCompatibility.FamilyOf(b)
    ensures GetHighlightStyleFromType(Str(a), styleObject) == GetHighlightStyleFromType(Str(b), styleObject)
  {
  }
}

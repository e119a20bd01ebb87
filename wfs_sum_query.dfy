/** The sum query addon's actions: the layers offered for selection, the
    WFS requests of a selection, the attributes and properties read from the
    responses, the alert shown when nothing was found, and the highlight of
    a selected feature. Requests, XML parsing and the map are outside the
    model; their results are parameters. */
module WfsSumQuery {
  import opened JsText
  import opened JsValues
  import PortalConfig

  // ---------------------------------------------------------------------
  // assignTypeBasedOnFeature and the highlight style
  // ---------------------------------------------------------------------

  /** `assignTypeBasedOnFeature(feature)` on the feature's geometry type:
      the upper-cased type looked up in a four-entry map. */
  function HighlightType(geomType: string): string {
    var u := Upper(geomType);
    if u == "POINT" then "increase"
    else if u == "LINESTRING" then "highlightLine"
    else if u == "POLYGON" then "highlightPolygon"
    else if u == "MULTIPOLYGON" then "highlightMultiPolygon"
    else "NOT FOUND"
  }

  lemma UpperIdempotent(s: string)
    ensures Upper(Upper(s)) == Upper(s)
  {
  }

  /** The lookup ignores case, and exactly the four geometry types are
      found. */
  lemma HighlightTypeRule(geomType: string)
    ensures HighlightType(geomType) == HighlightType(Upper(geomType))
    ensures HighlightType(geomType) != "NOT FOUND" <==> Upper(geomType) in {"POINT", "LINESTRING", "POLYGON", "MULTIPOLYGON"}
    ensures HighlightType("Polygon") == "highlightPolygon" && HighlightType("MultiPolygon") == "highlightMultiPolygon"
    ensures HighlightType("point") == "increase" && HighlightType("LineString") == "highlightLine"
    ensures HighlightType("MultiLineString") == "NOT FOUND"
  {
    UpperIdempotent(geomType);
    assert Upper("Polygon") == "POLYGON";
    assert Upper("MultiPolygon") == "MULTIPOLYGON";
    assert Upper("point") == "POINT";
    assert Upper("LineString") == "LINESTRING";
    assert Upper("MultiLineString") == "MULTILINESTRING";
  }

  datatype HighlightRules = PolygonRules | PointLineRules

  /** The style rules `highlightFeaturesFromSelection` picks. */
  function HighlightStyle(geomType: string): HighlightRules {
    var u := Upper(geomType);
    if u == "POLYGON" || u == "MULTIPOLYGON" then PolygonRules else PointLineRules
  }

  /** The polygon rules go with exactly the two polygon highlight types. */
  lemma HighlightStyleAgrees(geomType: string)
    ensures HighlightStyle(geomType) == PolygonRules <==>
              HighlightType(geomType) in {"highlightPolygon", "highlightMultiPolygon"}
  {
  }

  // ---------------------------------------------------------------------
  // getLayerForSelection
  // ---------------------------------------------------------------------

  /** `layerIdsForSelection`: nothing when falsy, a single id as a one-item
      list. */
  function SelectionIds(v: JsValue): (ids: seq<JsValue>)
    ensures !Truthy(v) ==> ids == []
    ensures Truthy(v) && !v.Arr? ==> ids == [v]
    ensures v.Arr? ==> ids == v.items
  {
    if !Truthy(v) then [] else if v.Arr? then v.items else [v]
  }

  /** `typeof layerId === "string" ? layerId : layerId.id` */
  function LayerIdOf(layerId: JsValue): Outcome<JsValue> {
    if layerId.Str? then Ok(layerId) else Prop(layerId, "id")
  }

  predicate HasId(layer: JsValue, id: JsValue) {
    Prop(layer, "id").Ok? && StrictEquals(Prop(layer, "id").value, id)
  }

  /** `allLayerConfigs.filter(l => l.id === id)[0]`: the filter reads the id
      of every configuration, the first match or undefined is taken. */
  function FindById(configs: seq<JsValue>, id: JsValue): (r: Outcome<JsValue>)
    ensures r.TypeError? <==> exists i :: 0 <= i < |configs| && Prop(configs[i], "id").TypeError?
    ensures r.Ok? && r.value != Undefined ==> r.value in configs && HasId(r.value, id)
    ensures r == Ok(Undefined) <==> (forall i :: 0 <= i < |configs| ==> Prop(configs[i], "id").Ok? && !HasId(configs[i], id))
  {
    if |configs| == 0 then Ok(Undefined)
    else
      var rest := FindById(configs[1..], id);
      assert forall i :: 1 <= i < |configs| ==> configs[i] == configs[1..][i - 1];
      match Prop(configs[0], "id")
      case TypeError => TypeError
      case Ok(v) =>
        if rest.TypeError? then TypeError
        else if StrictEquals(v, id) then Ok(configs[0]) else rest
  }

  const selectionKeys: seq<string> := ["id", "name", "url", "featureType", "version", "typ", "layerFromConfig", "server"]

  /** The object pushed onto `layersForSelection`. */
  function SelectionEntry(id: JsValue, layer: JsValue, layerId: JsValue): Entries {
    Zip(selectionKeys, [ id, OptionalProp(layer, "name"), OptionalProp(layer, "url"), OptionalProp(layer, "featureType"),
                         Or(OptionalProp(layer, "version"), Str("1.1.0")), OptionalProp(layer, "typ"), layer,
                         Or(OptionalProp(layerId, "type"), Str("deegree")) ])
  }

  /** What one entry of `layerIdsForSelection` contributes. */
  function SelectionFor(layerId: JsValue, configs: seq<JsValue>): Outcome<seq<JsValue>> {
    match LayerIdOf(layerId)
    case TypeError => TypeError
    case Ok(id) =>
      match FindById(configs, id)
      case TypeError => TypeError
      case Ok(layer) => Ok(if Truthy(layer) then [Obj(SelectionEntry(id, layer, layerId))] else [])
  }

  /** The entries of the first `n` ids, in their order; the first throw ends
      the walk. */
  function SelectionUpTo(ids: seq<JsValue>, n: nat, configs: seq<JsValue>): Outcome<seq<JsValue>>
    requires n <= |ids|
  {
    if n == 0 then Ok([])
    else match SelectionUpTo(ids, n - 1, configs)
      case TypeError => TypeError
      case Ok(before) =>
        match SelectionFor(ids[n - 1], configs)
        case TypeError => TypeError
        case Ok(more) => Ok(before + more)
  }

  /** The list `getLayerForSelection` commits. */
  function LayersForSelection(portalConfig: JsValue, configs: seq<JsValue>): Outcome<seq<JsValue>> {
    match PortalConfig.Search(portalConfig, "type", Str("wfsSumQuery"))
    case TypeError => TypeError
    case Ok(config) =>
      var ids := SelectionIds(OptionalProp(config, "layerIdsForSelection"));
      SelectionUpTo(ids, |ids|, configs)
  }

  /** `getLayerForSelection({commit})`: the `forEach` that pushes one object
      per known id. */
  method GetLayerForSelection(portalConfig: JsValue, allLayerConfigs: seq<JsValue>) returns (r: Outcome<seq<JsValue>>)
    ensures r == LayersForSelection(portalConfig, allLayerConfigs)
  {
    hide SelectionFor, PortalConfig.Search, SelectionIds;
    var found := PortalConfig.Search(portalConfig, "type", Str("wfsSumQuery"));
    if found.TypeError? {
      return TypeError;
    }
    var ids := SelectionIds(OptionalProp(found.value, "layerIdsForSelection"));
    var layersForSelection: seq<JsValue> := [];
    var i := 0;
    while i < |ids|
      invariant 0 <= i <= |ids|
      invariant SelectionUpTo(ids, i, allLayerConfigs) == Ok(layersForSelection)
    {
      var more := SelectionFor(ids[i], allLayerConfigs);
      if more.TypeError? {
        SelectionThrowsOn(ids, i + 1, |ids|, allLayerConfigs);
        return TypeError;
      }
      layersForSelection := layersForSelection + more.value;
      i := i + 1;
    }
    r := Ok(layersForSelection);
  }

  /** Once an id throws, the walk throws. */
  lemma {:induction false} SelectionThrowsOn(ids: seq<JsValue>, n: nat, m: nat, configs: seq<JsValue>)
    requires n <= m <= |ids| && SelectionUpTo(ids, n, configs).TypeError?
    ensures SelectionUpTo(ids, m, configs).TypeError?
    decreases m - n
  {
    if n < m {
      SelectionThrowsOn(ids, n, m - 1, configs);
    }
  }

  lemma EntryTopFields(id: JsValue, layer: JsValue, layerId: JsValue)
    ensures Get(SelectionEntry(id, layer, layerId), "id") == id
    ensures Get(SelectionEntry(id, layer, layerId), "version") == Or(OptionalProp(layer, "version"), Str("1.1.0"))
  {
    var vs := [ id, OptionalProp(layer, "name"), OptionalProp(layer, "url"), OptionalProp(layer, "featureType"),
                Or(OptionalProp(layer, "version"), Str("1.1.0")), OptionalProp(layer, "typ"), layer,
                Or(OptionalProp(layerId, "type"), Str("deegree")) ];
    assert SelectionEntry(id, layer, layerId) == Zip(selectionKeys, vs);
    assert selectionKeys[..4] == ["id", "name", "url", "featureType"];
    hide *;
    GetZip(selectionKeys, vs, 0);
    GetZip(selectionKeys, vs, 4);
  }

  lemma EntryLayerFields(id: JsValue, layer: JsValue, layerId: JsValue)
    ensures Get(SelectionEntry(id, layer, layerId), "layerFromConfig") == layer
    ensures Get(SelectionEntry(id, layer, layerId), "server") == Or(OptionalProp(layerId, "type"), Str("deegree"))
  {
    var vs := [ id, OptionalProp(layer, "name"), OptionalProp(layer, "url"), OptionalProp(layer, "featureType"),
                Or(OptionalProp(layer, "version"), Str("1.1.0")), OptionalProp(layer, "typ"), layer,
                Or(OptionalProp(layerId, "type"), Str("deegree")) ];
    assert SelectionEntry(id, layer, layerId) == Zip(selectionKeys, vs);
    assert selectionKeys[..6] == ["id", "name", "url", "featureType", "version", "typ"];
    assert selectionKeys[..7] == selectionKeys[..6] + ["layerFromConfig"];
    hide *;
    GetZip(selectionKeys, vs, 6);
    GetZip(selectionKeys, vs, 7);
  }

  /** A known id gives one entry naming the configuration it found, with
      version 1.1.0 and server deegree unless given; an unknown id gives
      none. */
  lemma SelectionForRule(layerId: JsValue, configs: seq<JsValue>)
    requires LayerIdOf(layerId).Ok? && FindById(configs, LayerIdOf(layerId).value).Ok?
    ensures var id := LayerIdOf(layerId).value;
            var layer := FindById(configs, id).value;
            && (layer == Undefined ==> SelectionFor(layerId, configs) == Ok([]))
            && (layer != Undefined ==>
                  && layer in configs && HasId(layer, id)
                  && (Truthy(layer) ==>
                        && SelectionFor(layerId, configs) == Ok([Obj(SelectionEntry(id, layer, layerId))])
                        && Get(SelectionEntry(id, layer, layerId), "id") == id
                        && Get(SelectionEntry(id, layer, layerId), "layerFromConfig") == layer
                        && Get(SelectionEntry(id, layer, layerId), "version") == Or(OptionalProp(layer, "version"), Str("1.1.0"))
                        && Get(SelectionEntry(id, layer, layerId), "server") == Or(OptionalProp(layerId, "type"), Str("deegree"))))
  {
    var id := LayerIdOf(layerId).value;
    var layer := FindById(configs, id).value;
    EntryTopFields(id, layer, layerId);
    EntryLayerFields(id, layer, layerId);
  }

  /** A string id names itself and has no `type`, so its server is deegree. */
  lemma StringIdDefaults(s: string, layer: JsValue)
    ensures LayerIdOf(Str(s)) == Ok(Str(s))
    ensures Get(SelectionEntry(Str(s), layer, Str(s)), "server") == Str("deegree")
  {
    EntryLayerFields(Str(s), layer, Str(s));
  }

  /** Each id contributes in its own place: the entries of a longer prefix
      extend those of a shorter one. */
  lemma {:induction false} SelectionPrefix(ids: seq<JsValue>, n: nat, m: nat, configs: seq<JsValue>)
    requires n <= m <= |ids| && SelectionUpTo(ids, m, configs).Ok?
    ensures SelectionUpTo(ids, n, configs).Ok?
    ensures SelectionUpTo(ids, n, configs).value <= SelectionUpTo(ids, m, configs).value
    decreases m - n
  {
    if n < m {
      SelectionPrefix(ids, n, m - 1, configs);
    }
  }

  // ---------------------------------------------------------------------
  // fetchFeaturesFromSelection: which coordinates
  // ---------------------------------------------------------------------

  /** Where the coordinates of the selection come from. */
  datatype SelectionSource =
    | Ignored               // a circle while no circle is defined
    | CircleCoordinates     // the circle polygon's outer ring
    | SelectedCoordinates   // the graphical selection's outer ring
    | NoCoordinates         // any other payload: `coordinatesArray.map` then throws

  function SelectionSourceOf(payloadType: JsValue, definedCircle: JsValue): SelectionSource {
    if payloadType == Str("circleFromPolygon") && !Truthy(definedCircle) then Ignored
    else if payloadType == Str("circleFromPolygon") then CircleCoordinates
    else if payloadType == Str("polygonFromGraphicalSelect") then SelectedCoordinates
    else NoCoordinates
  }

  /** A circle payload is ignored unless a circle is defined; nothing else
      is ignored. */
  lemma CircleNeedsDefinition(payloadType: JsValue, definedCircle: JsValue)
    ensures SelectionSourceOf(payloadType, definedCircle) == Ignored <==>
              payloadType == Str("circleFromPolygon") && !Truthy(definedCircle)
    ensures Truthy(definedCircle) && payloadType == Str("circleFromPolygon") ==>
              SelectionSourceOf(payloadType, definedCircle) == CircleCoordinates
  {
  }

  // ---------------------------------------------------------------------
  // GML coordinates and the request URLs
  // ---------------------------------------------------------------------

  /** `coord.join(",")` of one position. */
  function PositionText(coord: seq<int>): string {
    Join(seq(|coord|, j requires 0 <= j < |coord| => IntToString(coord[j])), ",")
  }

  /** `coordinatesArray.map(coord => coord.join(",")).join(" ")` */
  function GmlCoordinates(coords: seq<seq<int>>): string {
    Join(seq(|coords|, i requires 0 <= i < |coords| => PositionText(coords[i])), " ")
  }

  lemma {:induction false} JoinFree(parts: seq<string>, sep: string, c: char)
    requires forall k :: 0 <= k < |parts| ==> c !in parts[k]
    requires c !in sep
    ensures c !in Join(parts, sep)
    decreases |parts|
  {
    if |parts| > 1 {
      JoinFree(parts[1..], sep, c);
    }
  }

  lemma IntTextFree(n: int, c: char)
    requires c == ',' || c == ' '
    ensures c !in IntToString(n)
  {
    var t := if n < 0 then NatToString(-n) else NatToString(n);
    assert forall k :: 0 <= k < |t| ==> IsDigit(t[k]);
    if n < 0 {
      assert IntToString(n) == "-" + t;
      assert forall k :: 0 <= k < |IntToString(n)| ==> IntToString(n)[k] == '-' || IsDigit(IntToString(n)[k]);
    }
  }

  /** A position's text holds no space, so the text splits back into the
      positions at the spaces, and each position into its numbers at the
      commas. */
  lemma GmlCoordinatesSplit(coords: seq<seq<int>>)
    requires |coords| >= 1 && forall i :: 0 <= i < |coords| ==> |coords[i]| >= 1
    ensures Split(GmlCoordinates(coords), ' ') == seq(|coords|, i requires 0 <= i < |coords| => PositionText(coords[i]))
    ensures forall i :: 0 <= i < |coords| ==>
              Split(PositionText(coords[i]), ',') == seq(|coords[i]|, j requires 0 <= j < |coords[i]| => IntToString(coords[i][j]))
  {
    var texts := seq(|coords|, i requires 0 <= i < |coords| => PositionText(coords[i]));
    forall i | 0 <= i < |coords|
      ensures ' ' !in texts[i]
      ensures Split(PositionText(coords[i]), ',') == seq(|coords[i]|, j requires 0 <= j < |coords[i]| => IntToString(coords[i][j]))
    {
      var nums := seq(|coords[i]|, j requires 0 <= j < |coords[i]| => IntToString(coords[i][j]));
      forall j | 0 <= j < |nums| ensures ' ' !in nums[j] && ',' !in nums[j] {
        IntTextFree(coords[i][j], ' ');
        IntTextFree(coords[i][j], ',');
      }
      JoinFree(nums, ",", ' ');
      SplitJoin(nums, ',');
    }
    SplitJoin(texts, ' ');
  }

  /** `service.includes("?MAP=") ? "&" : "?"` */
  function QuerySeparator(service: string): string {
    if Contains(service, "?MAP=") then "&" else "?"
  }

  /** The GetFeature request URL. */
  function GetFeatureUrl(service: string, featureType: string, version: string): string {
    service + QuerySeparator(service) + "REQUEST=GetFeature&TYPENAME=" + featureType + "&SERVICE=WFS&VERSION=" + version
  }

  /** The DescribeFeatureType request URL. */
  function DescribeFeatureTypeUrl(service: string, featureType: string, version: string): string {
    service + QuerySeparator(service) + "service=WFS&version=" + version + "&request=DescribeFeatureType&typeName=" + featureType
  }

  /** A MapServer style URL that already carries `?MAP=` is continued with
      '&'; any other URL starts its query with '?'. Both requests share the
      service and separator. */
  lemma RequestUrls(service: string, featureType: string, version: string)
    ensures QuerySeparator(service) == "&" <==> Contains(service, "?MAP=")
    ensures QuerySeparator(service) == "?" <==> !Contains(service, "?MAP=")
    ensures GetFeatureUrl(service, featureType, version)[..|service| + 1] == service + QuerySeparator(service)
    ensures DescribeFeatureTypeUrl(service, featureType, version)[..|service| + 1] == service + QuerySeparator(service)
    ensures QuerySeparator("https://example.com/wfs?MAP=/maps/a.map") == "&"
  {
    assert OccursAt("https://example.com/wfs?MAP=/maps/a.map", "?MAP=", 23);
    ContainsIff("https://example.com/wfs?MAP=/maps/a.map", "?MAP=");
  }

  // ---------------------------------------------------------------------
  // Attributes
  // ---------------------------------------------------------------------

  /** `[...new Set(tagNames)]`: the first occurrence of each name, in order.
      The names are `getAttribute` results, strings or null, for which the
      set's equality is plain equality. */
  function Dedup(s: seq<JsValue>): (r: seq<JsValue>)
    ensures forall x :: x in r <==> x in s
  {
    if |s| == 0 then []
    else
      var d := Dedup(s[..|s| - 1]);
      assert s == s[..|s| - 1] + [s[|s| - 1]];
      if s[|s| - 1] in d then d else d + [s[|s| - 1]]
  }

  predicate NoRepeats(r: seq<JsValue>) {
    forall i, j :: 0 <= i < j < |r| ==> r[i] != r[j]
  }

  /** Where a value first occurs. */
  function FirstAt(s: seq<JsValue>, x: JsValue): (k: nat)
    requires x in s
    ensures k < |s| && s[k] == x && forall j :: 0 <= j < k ==> s[j] != x
  {
    if s[0] == x then 0 else 1 + FirstAt(s[1..], x)
  }

  lemma FirstAtPrefix(s: seq<JsValue>, n: nat, x: JsValue)
    requires n <= |s| && x in s[..n]
    ensures x in s && FirstAt(s, x) == FirstAt(s[..n], x)
  {
    assert forall j :: 0 <= j < n ==> s[..n][j] == s[j];
  }

  /** The deduplicated names repeat nothing and keep the order of first
      occurrence. */
  lemma {:induction false} DedupOrder(s: seq<JsValue>)
    ensures NoRepeats(Dedup(s))
    ensures forall i, j :: 0 <= i < j < |Dedup(s)| ==> FirstAt(s, Dedup(s)[i]) < FirstAt(s, Dedup(s)[j])
  {
    if |s| > 0 {
      var p := s[..|s| - 1];
      var x := s[|s| - 1];
      var d := Dedup(p);
      DedupOrder(p);
      assert s == p + [x];
      assert s[..|s| - 1] == p;
      forall y | y in d ensures FirstAt(s, y) == FirstAt(p, y) {
        FirstAtPrefix(s, |s| - 1, y);
      }
      if x !in d {
        assert FirstAt(s, x) == |s| - 1 by {
          assert x !in p;
        }
        forall i | 0 <= i < |d| ensures FirstAt(s, d[i]) < FirstAt(s, x) {
          assert d[i] in d;
        }
        assert Dedup(s) == d + [x];
      }
    }
  }

  /** The attribute names committed: deduplicated, without `geom` and
      `geometry`. */
  function UniqueAttributes(tagNames: seq<JsValue>): seq<JsValue> {
    var d := Dedup(tagNames);
    Filter(d)
  }

  function Filter(d: seq<JsValue>): (r: seq<JsValue>)
    ensures forall x :: x in r <==> x in d && x != Str("geom") && x != Str("geometry")
  {
    if |d| == 0 then []
    else
      assert d == [d[0]] + d[1..];
      (if d[0] != Str("geom") && d[0] != Str("geometry") then [d[0]] else []) + Filter(d[1..])
  }

  /** The names of r repeat nothing and keep their order of first
      occurrence in s. */
  predicate Ordered(r: seq<JsValue>, s: seq<JsValue>) {
    && NoRepeats(r) && (forall x :: x in r ==> x in s)
    && forall i, j :: 0 <= i < j < |r| ==> FirstAt(s, r[i]) < FirstAt(s, r[j])
  }

  lemma ConsOrdered(x: JsValue, f: seq<JsValue>, s: seq<JsValue>)
    requires Ordered(f, s) && x in s && forall y :: y in f ==> FirstAt(s, x) < FirstAt(s, y)
    ensures Ordered([x] + f, s)
  {
    var r := [x] + f;
    assert forall y :: y in r ==> y in s;
    assert forall j :: 0 < j < |r| ==> r[j] == f[j - 1];
    forall i, j | 0 <= i < j < |r| ensures FirstAt(s, r[i]) < FirstAt(s, r[j]) {
      if i > 0 {
        OrderedAt(f, s, i - 1, j - 1);
      } else {
        assert r[j] in f;
      }
    }
  }

  lemma OrderedAt(f: seq<JsValue>, s: seq<JsValue>, i: nat, j: nat)
    requires Ordered(f, s) && i < j < |f|
    ensures f[i] in s && f[j] in s && FirstAt(s, f[i]) < FirstAt(s, f[j])
  {
  }

  lemma OrderedTail(d: seq<JsValue>, s: seq<JsValue>)
    requires Ordered(d, s) && |d| > 0
    ensures Ordered(d[1..], s)
    ensures forall y :: y in d[1..] ==> FirstAt(s, d[0]) < FirstAt(s, y)
  {
    var t := d[1..];
    assert forall i :: 0 <= i < |t| ==> t[i] == d[i + 1];
    forall y | y in t ensures FirstAt(s, d[0]) < FirstAt(s, y) {
      var k :| 0 <= k < |t| && t[k] == y;
      assert d[k + 1] == y;
    }
  }

  lemma {:induction false} FilterKeepsOrder(d: seq<JsValue>, s: seq<JsValue>)
    requires Ordered(d, s)
    ensures Ordered(Filter(d), s)
  {
    if |d| > 0 {
      var t := d[1..];
      var f := Filter(t);
      var keep := d[0] != Str("geom") && d[0] != Str("geometry");
      assert Filter(d) == (if keep then [d[0]] else []) + f;
      assert d[0] in d;
      hide *;
      OrderedTail(d, s);
      FilterKeepsOrder(t, s);
      if keep {
        assert forall y :: y in f ==> y in t;
        ConsOrdered(d[0], f, s);
      } else {
        assert [] + f == f;
      }
    }
  }

  /** The committed attributes are the names met, each once, in order of
      first occurrence, never `geom` or `geometry`. */
  lemma UniqueAttributesRule(tagNames: seq<JsValue>)
    ensures forall x :: x in UniqueAttributes(tagNames) <==> x in tagNames && x != Str("geom") && x != Str("geometry")
    ensures NoRepeats(UniqueAttributes(tagNames))
    ensures forall i, j :: 0 <= i < j < |UniqueAttributes(tagNames)| ==>
              FirstAt(tagNames, UniqueAttributes(tagNames)[i]) < FirstAt(tagNames, UniqueAttributes(tagNames)[j])
  {
    DedupOrder(tagNames);
    FilterKeepsOrder(Dedup(tagNames), tagNames);
    assert Ordered(Filter(Dedup(tagNames)), tagNames);
  }

  // ---------------------------------------------------------------------
  // Feature properties and the alert
  // ---------------------------------------------------------------------

  /** A feature element of the response: its `gml:id` attribute and its
      descendant elements as (tag name, text content), in document order. */
  datatype GmlFeature = GmlFeature(gmlId: JsValue, elements: seq<(string, string)>)

  /** `feature.getElementsByTagName(tag)[0]?.textContent` */
  function FirstText(elements: seq<(string, string)>, tag: string): (r: Option<string>)
    ensures r.Some? <==> exists i :: 0 <= i < |elements| && elements[i].0 == tag
  {
    if |elements| == 0 then None
    else if elements[0].0 == tag then Some(elements[0].1)
    else
      assert forall i :: 1 <= i < |elements| ==> elements[i] == elements[1..][i - 1];
      FirstText(elements[1..], tag)
  }

  /** One attribute of the inner `forEach`: set when the prefixed element
      exists. */
  function WithAttribute(e: Entries, f: GmlFeature, tag: JsValue, prefix: string): Entries {
    match FirstText(f.elements, prefix + ToJsString(tag))
    case Some(text) => Assign(e, ToJsString(tag), Str(text))
    case None => e
  }

  /** The properties object after the first `n` attributes. */
  function PropertiesUpTo(f: GmlFeature, tags: seq<JsValue>, n: nat, prefix: string): Entries
    requires n <= |tags|
  {
    if n == 0 then [("id", f.gmlId)]
    else WithAttribute(PropertiesUpTo(f, tags, n - 1, prefix), f, tags[n - 1], prefix)
  }

  /** `isQGIS ? prefix : "app:"` with `prefix` "qgs:" for QGIS. */
  function AttributePrefix(isQgis: bool): string {
    if isQgis then "qgs:" else "app:"
  }

  /** The inner loop building `selectedFeatureProperty`. */
  method FeatureProperties(f: GmlFeature, tags: seq<JsValue>, isQgis: bool) returns (e: Entries)
    ensures e == PropertiesUpTo(f, tags, |tags|, AttributePrefix(isQgis))
  {
    var prefix := AttributePrefix(isQgis);
    e := [("id", f.gmlId)];
    var i := 0;
    while i < |tags|
      invariant 0 <= i <= |tags|
      invariant e == PropertiesUpTo(f, tags, i, prefix)
    {
      var key := ToJsString(tags[i]);
      var found := FirstText(f.elements, prefix + key);
      if found.Some? {
        e := Assign(e, key, Str(found.value));
      }
      i := i + 1;
    }
  }

  /** The outer loop: one properties object per feature, in order. */
  method AllFeatureProperties(features: seq<GmlFeature>, tags: seq<JsValue>, isQgis: bool) returns (all: seq<Entries>)
    ensures |all| == |features|
    ensures forall i :: 0 <= i < |features| ==> all[i] == PropertiesUpTo(features[i], tags, |tags|, AttributePrefix(isQgis))
  {
    all := [];
    var i := 0;
    while i < |features|
      invariant 0 <= i <= |features| && |all| == i
      invariant forall j :: 0 <= j < i ==> all[j] == PropertiesUpTo(features[j], tags, |tags|, AttributePrefix(isQgis))
    {
      var props := FeatureProperties(features[i], tags, isQgis);
      all := all + [props];
      i := i + 1;
    }
  }

  /** Reading a property: an attribute whose prefixed element exists holds
      that element's text; `id` is the feature's `gml:id` unless an `id`
      attribute overwrote it; nothing else is set. */
  lemma {:induction false} PropertiesRead(f: GmlFeature, tags: seq<JsValue>, n: nat, prefix: string, k: string)
    requires n <= |tags|
    ensures var named := exists i :: 0 <= i < n && ToJsString(tags[i]) == k;
            var text := FirstText(f.elements, prefix + k);
            Get(PropertiesUpTo(f, tags, n, prefix), k) ==
              if named && text.Some? then Str(text.value)
              else if k == "id" then f.gmlId
              else Undefined
  {
    if n > 0 {
      PropertiesRead(f, tags, n - 1, prefix, k);
      var e := PropertiesUpTo(f, tags, n - 1, prefix);
      var key := ToJsString(tags[n - 1]);
      if FirstText(f.elements, prefix + key).Some? {
        GetAssign(e, key, Str(FirstText(f.elements, prefix + key).value), k);
      }
    }
  }

  /** `messageKey`: the alert shown after the query, if any. */
  function AlertKey(uniqueAttributeCount: nat, featureCount: nat): Option<string> {
    if uniqueAttributeCount == 0 || featureCount == 0 then
      Some(if uniqueAttributeCount == 0 then "noAttributesFound" else "noFeatureFound")
    else None
  }

  /** Missing attributes are reported before missing features; with both
      present there is no alert. */
  lemma AlertKeyRule(uniqueAttributeCount: nat, featureCount: nat)
    ensures AlertKey(uniqueAttributeCount, featureCount) == Some("noAttributesFound") <==> uniqueAttributeCount == 0
    ensures AlertKey(uniqueAttributeCount, featureCount) == Some("noFeatureFound") <==>
              uniqueAttributeCount > 0 && featureCount == 0
    ensures AlertKey(uniqueAttributeCount, featureCount).None? <==> uniqueAttributeCount > 0 && featureCount > 0
  {
  }
}

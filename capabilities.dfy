/** The importer's capabilities helpers: the layer list of a parsed WMS or
    WFS capabilities document, the GetCapabilities query parameters and the
    service type read off the document's root tag. Fetching and XML parsing
    are outside the model: the parsers' outputs are the inputs here. */
module ImporterCapabilities {
  import opened JsText
  import opened JsValues

  // ---------------------------------------------------------------------
  // getFlatLayers
  // ---------------------------------------------------------------------

  /** The `{title, name}` entry a capabilities layer contributes: only one
      with a truthy `Name`, titled by its `Title` or else by its name. */
  function OwnEntry(e: Entries): seq<JsValue> {
    var name := Get(e, "Name");
    var title := Get(e, "Title");
    if Truthy(name) then [Obj([("title", if Truthy(title) then title else name), ("name", name)])] else []
  }

  /** `[].concat(...xs)`: an array argument contributes its items, any
      other argument itself. */
  function ConcatSpread(xs: seq<JsValue>): seq<JsValue> {
    if |xs| == 0 then [] else (if xs[0].Arr? then xs[0].items else [xs[0]]) + ConcatSpread(xs[1..])
  }

  /** Position of the own property `key` read by `obj[key]`. */
  function KeyIndex(e: Entries, key: string): (k: nat)
    requires HasKey(e, key)
    ensures k < |e| && e[k].0 == key && Get(e, key) == e[k].1
  {
    HasKeyCons(e, key);
    if e[0].0 == key then 0 else 1 + KeyIndex(e[1..], key)
  }

  /** `getFlatLayers(layer)`. An array gives one list per element (the
      concat of the mapped array only unpacks one level); an object gives
      its own entry followed by its `Layer` child's entries, which the
      spread flattens. Reading `Name` of undefined or null throws; any
      other value has neither `Name` nor an own `Layer`. */
  function FlatLayers(layer: JsValue): Outcome<seq<JsValue>>
    decreases layer
  {
    match layer
    case Undefined => TypeError
    case Null => TypeError
    case Arr(items) =>
      var results := seq(|items|, i requires 0 <= i < |items| => FlatLayers(items[i]));
      if exists i :: 0 <= i < |items| && results[i].TypeError? then TypeError
      else Ok(seq(|items|, i requires 0 <= i < |items| => if results[i].Ok? then Arr(results[i].value) else Arr([])))
    case Obj(e) =>
      if HasKey(e, "Layer") then
        var k := KeyIndex(e, "Layer");
        assert e[k] in e;
        match FlatLayers(e[k].1)
        case TypeError => TypeError
        case Ok(sub) => Ok(OwnEntry(e) + ConcatSpread(sub))
      else Ok(OwnEntry(e))
    case _ => Ok([])
  }

  /** A node's result: its own entry first, then its child's entries. */
  lemma NodeResult(e: Entries)
    ensures HasKey(e, "Layer") && FlatLayers(Get(e, "Layer")).Ok? ==>
              FlatLayers(Obj(e)) == Ok(OwnEntry(e) + ConcatSpread(FlatLayers(Get(e, "Layer")).value))
    ensures HasKey(e, "Layer") && FlatLayers(Get(e, "Layer")).TypeError? ==> FlatLayers(Obj(e)).TypeError?
    ensures !HasKey(e, "Layer") ==> FlatLayers(Obj(e)) == Ok(OwnEntry(e))
  {
  }

  /** A node contributes an entry exactly when its `Name` is truthy; a node
      without one still contributes its descendants. */
  lemma OwnEntryIff(e: Entries)
    ensures |OwnEntry(e)| == 1 <==> Truthy(Get(e, "Name"))
    ensures |OwnEntry(e)| == 0 <==> !Truthy(Get(e, "Name"))
    ensures Truthy(Get(e, "Name")) ==>
              OwnEntry(e)[0] == Obj([("title", Or(Get(e, "Title"), Get(e, "Name"))), ("name", Get(e, "Name"))])
  {
  }

  /** A top-level array yields one list per element, in order. */
  lemma ArrayResult(items: seq<JsValue>)
    ensures FlatLayers(Arr(items)).TypeError? <==> exists i :: 0 <= i < |items| && FlatLayers(items[i]).TypeError?
    ensures FlatLayers(Arr(items)).Ok? ==>
              |FlatLayers(Arr(items)).value| == |items| &&
              forall i :: 0 <= i < |items| ==> FlatLayers(Arr(items)).value[i] == Arr(FlatLayers(items[i]).value)
  {
    var results := seq(|items|, i requires 0 <= i < |items| => FlatLayers(items[i]));
    assert forall i :: 0 <= i < |items| ==> results[i] == FlatLayers(items[i]);
  }

  // A capabilities layer tree, as the WMS capabilities parser returns it:
  // every layer has an optional name and title and a list of sub-layers.

  datatype CapLayer = CapLayer(name: Option<string>, title: Option<string>, children: seq<CapLayer>)

  function OptStr(o: Option<string>): JsValue {
    if o.Some? then Str(o.value) else Undefined
  }

  const layerKeys: seq<string> := ["Name", "Title", "Layer"]

  /** The parsed object of a layer: `Name`, `Title` and the `Layer` array. */
  function Encode(t: CapLayer): JsValue
    decreases t
  {
    Obj(Zip(layerKeys, [OptStr(t.name), OptStr(t.title), Arr(EncodeAll(t.children))]))
  }

  function EncodeAll(ts: seq<CapLayer>): (r: seq<JsValue>)
    ensures |r| == |ts|
    decreases ts
  {
    seq(|ts|, i requires 0 <= i < |ts| => Encode(ts[i]))
  }

  function NonEmpty(o: Option<string>): bool {
    o.Some? && o.value != ""
  }

  /** The entry a named layer contributes. */
  function Entry(t: CapLayer): seq<JsValue> {
    if NonEmpty(t.name) then
      [Obj([("title", Str(if NonEmpty(t.title) then t.title.value else t.name.value)), ("name", Str(t.name.value))])]
    else []
  }

  function ConcatAll(xss: seq<seq<JsValue>>): seq<JsValue> {
    if |xss| == 0 then [] else xss[0] + ConcatAll(xss[1..])
  }

  /** The reference order: every named layer's entry, in pre-order. */
  function PreOrder(t: CapLayer): seq<JsValue>
    decreases t
  {
    Entry(t) + ConcatAll(seq(|t.children|, i requires 0 <= i < |t.children| => PreOrder(t.children[i])))
  }

  lemma {:induction false} ConcatSpreadLists(xss: seq<seq<JsValue>>)
    ensures ConcatSpread(seq(|xss|, i requires 0 <= i < |xss| => Arr(xss[i]))) == ConcatAll(xss)
  {
    if |xss| > 0 {
      var arrs := seq(|xss|, i requires 0 <= i < |xss| => Arr(xss[i]));
      assert arrs[1..] == seq(|xss[1..]|, i requires 0 <= i < |xss[1..]| => Arr(xss[1..][i]));
      ConcatSpreadLists(xss[1..]);
    }
  }

  lemma EncodeFields(t: CapLayer)
    ensures Encode(t).Obj?
    ensures Get(Encode(t).entries, "Name") == OptStr(t.name)
    ensures Get(Encode(t).entries, "Title") == OptStr(t.title)
    ensures HasKey(Encode(t).entries, "Layer")
    ensures Get(Encode(t).entries, "Layer") == Arr(EncodeAll(t.children))
  {
    var vs := [OptStr(t.name), OptStr(t.title), Arr(EncodeAll(t.children))];
    assert Encode(t) == Obj(Zip(layerKeys, vs));
    assert layerKeys[..1] == ["Name"] && layerKeys[..2] == ["Name", "Title"];
    hide *;
    GetZip(layerKeys, vs, 0);
    GetZip(layerKeys, vs, 1);
    GetZip(layerKeys, vs, 2);
  }

  lemma OwnEntryOfEncode(t: CapLayer)
    requires Encode(t).Obj?
    requires Get(Encode(t).entries, "Name") == OptStr(t.name)
    requires Get(Encode(t).entries, "Title") == OptStr(t.title)
    ensures OwnEntry(Encode(t).entries) == Entry(t)
  {
    hide Encode;
  }

  lemma NodeOfEncode(t: CapLayer, sub: seq<JsValue>)
    requires Encode(t).Obj? && HasKey(Encode(t).entries, "Layer")
    requires FlatLayers(Get(Encode(t).entries, "Layer")) == Ok(sub)
    ensures FlatLayers(Encode(t)) == Ok(OwnEntry(Encode(t).entries) + ConcatSpread(sub))
  {
    hide *;
    NodeResult(Encode(t).entries);
  }

  lemma ChildrenResult(ts: seq<CapLayer>, lists: seq<seq<JsValue>>)
    requires |lists| == |ts|
    requires forall i :: 0 <= i < |ts| ==> FlatLayers(EncodeAll(ts)[i]) == Ok(lists[i])
    ensures FlatLayers(Arr(EncodeAll(ts))) == Ok(seq(|lists|, i requires 0 <= i < |lists| => Arr(lists[i])))
  {
    var items := EncodeAll(ts);
    hide *;
    ArrayResult(items);
    var r := FlatLayers(Arr(items));
    assert forall i :: 0 <= i < |items| ==> FlatLayers(items[i]).Ok?;
    assert r.Ok?;
    assert forall i :: 0 <= i < |items| ==> r.value[i] == Arr(lists[i]);
    assert r.value == seq(|lists|, i requires 0 <= i < |lists| => Arr(lists[i]));
  }

  /** On a parsed layer tree, `getFlatLayers` lists the named layers in
      pre-order. */
  lemma {:induction false} FlatLayersPreOrder(t: CapLayer)
    ensures FlatLayers(Encode(t)) == Ok(PreOrder(t))
    decreases t
  {
    var lists := seq(|t.children|, i requires 0 <= i < |t.children| => PreOrder(t.children[i]));
    forall i | 0 <= i < |t.children| ensures FlatLayers(EncodeAll(t.children)[i]) == Ok(lists[i]) {
      FlatLayersPreOrder(t.children[i]);
    }
    assert PreOrder(t) == Entry(t) + ConcatAll(lists);
    hide *;
    EncodeFields(t);
    ChildrenResult(t.children, lists);
    NodeOfEncode(t, seq(|lists|, i requires 0 <= i < |lists| => Arr(lists[i])));
    OwnEntryOfEncode(t);
    ConcatSpreadLists(lists);
  }

  /** A top-level array of layer trees gives one pre-order list per tree. */
  lemma TopLevelArray(ts: seq<CapLayer>)
    ensures FlatLayers(Arr(EncodeAll(ts))) ==
            Ok(seq(|ts|, i requires 0 <= i < |ts| => Arr(PreOrder(ts[i]))))
  {
    var lists := seq(|ts|, i requires 0 <= i < |ts| => PreOrder(ts[i]));
    forall i | 0 <= i < |ts| ensures FlatLayers(EncodeAll(ts)[i]) == Ok(lists[i]) {
      FlatLayersPreOrder(ts[i]);
    }
    assert seq(|lists|, i requires 0 <= i < |lists| => Arr(lists[i]))
           == seq(|ts|, i requires 0 <= i < |ts| => Arr(PreOrder(ts[i])));
    hide *;
    ChildrenResult(ts, lists);
  }

  // ---------------------------------------------------------------------
  // getLayerNamesFromWFSCapabilities and getLayersFromCapabilities
  // ---------------------------------------------------------------------

  /** What the XML parser finds in one `FeatureType` element: the text of
      its `Title` and of its `Name`, when present. */
  datatype FeatureTypeText = FeatureTypeText(title: Option<string>, name: Option<string>)

  /** One `{name, title}` object per `FeatureType` element, in document order. */
  function WfsLayerNames(featureTypes: seq<FeatureTypeText>): (r: seq<JsValue>)
    ensures |r| == |featureTypes|
    ensures forall i :: 0 <= i < |r| ==>
              r[i] == Obj([("name", OptStr(featureTypes[i].name)), ("title", OptStr(featureTypes[i].title))])
  {
    seq(|featureTypes|, i requires 0 <= i < |featureTypes| =>
      Obj([("name", OptStr(featureTypes[i].name)), ("title", OptStr(featureTypes[i].title))]))
  }

  /** `getLayersFromCapabilities(serviceType, doc)`: `wmsLayer` is the
      parsed `Capability.Layer`, `featureTypes` the parsed FeatureType
      elements; the service type is compared with `===`. */
  function LayersFromCapabilities(serviceType: JsValue, wmsLayer: JsValue, featureTypes: seq<FeatureTypeText>): (r: Outcome<JsValue>)
    ensures serviceType == Str("wms") ==>
              (r.TypeError? <==> FlatLayers(wmsLayer).TypeError?) &&
              (r.Ok? ==> r.value == Arr(FlatLayers(wmsLayer).value))
    ensures serviceType == Str("wfs") ==> r == Ok(Arr(WfsLayerNames(featureTypes)))
    ensures serviceType != Str("wms") && serviceType != Str("wfs") ==> r == Ok(Undefined)
  {
    if serviceType == Str("wms") then
      match FlatLayers(wmsLayer)
      case Ok(layers) => Ok(Arr(layers))
      case TypeError => TypeError
    else if serviceType == Str("wfs") then Ok(Arr(WfsLayerNames(featureTypes)))
    else Ok(Undefined)
  }

  // ---------------------------------------------------------------------
  // createCapabilitiesUrl: the query parameters as a list of pairs
  // ---------------------------------------------------------------------

  type Param = (string, string)

  function Names(list: seq<Param>): (ns: seq<string>)
    ensures |ns| == |list| && forall i :: 0 <= i < |list| ==> ns[i] == list[i].0
  {
    seq(|list|, i requires 0 <= i < |list| => list[i].0)
  }

  /** Every pair not named `name`. */
  function RemoveAll(list: seq<Param>, name: string): (r: seq<Param>)
    ensures |r| <= |list|
    ensures name !in Names(r)
  {
    if |list| == 0 then []
    else if list[0].0 == name then RemoveAll(list[1..], name)
    else [list[0]] + RemoveAll(list[1..], name)
  }

  /** `URLSearchParams.set(name, value)`: the first pair named `name` takes
      the value and the later ones are removed; without one the pair is
      appended. */
  function SetParam(list: seq<Param>, name: string, value: string): (r: seq<Param>)
    ensures name in Names(list) ==> |r| <= |list|
    ensures name !in Names(list) ==> r == list + [(name, value)]
  {
    if |list| == 0 then [(name, value)]
    else if list[0].0 == name then [(name, value)] + RemoveAll(list[1..], name)
    else
      assert Names(list) == [list[0].0] + Names(list[1..]);
      [list[0]] + SetParam(list[1..], name, value)
  }

  predicate IsServiceType(value: string) {
    Lower(value) == "wms" || Lower(value) == "wfs"
  }

  /** The state of the loop over `url.searchParams`: the live list, the
      next position (the iterator reads the current list each time) and
      the two flags. */
  datatype LoopState = LoopState(list: seq<Param>, pos: nat, hasService: bool, hasRequest: bool)

  /** One iteration, on the pair read at the current position. */
  function Step(s: LoopState, serviceType: string): (r: LoopState)
    requires s.pos < |s.list|
    ensures |r.list| <= |s.list| && r.pos == s.pos + 1
  {
    var (key, value) := s.list[s.pos];
    assert key in Names(s.list);
    var l1 := if Lower(key) == "service" && !IsServiceType(value) then SetParam(s.list, key, Upper(serviceType)) else s.list;
    var hasService := s.hasService || Lower(key) == "service";
    assert Lower(key) == "request" ==> l1 == s.list;
    var l2 := if Lower(key) == "request" && Lower(value) != "getcapabilities" then SetParam(l1, key, "GetCapabilities") else l1;
    var hasRequest := s.hasRequest || Lower(key) == "request";
    LoopState(l2, s.pos + 1, hasService, hasRequest)
  }

  /** The loop run to the end. */
  function Run(s: LoopState, serviceType: string): LoopState
    decreases |s.list| - s.pos
  {
    if s.pos < |s.list| then Run(Step(s, serviceType), serviceType) else s
  }

  /** The parameters of the capabilities URL built from a base URL with
      parameters `list`. */
  function CapabilitiesParams(list: seq<Param>, serviceType: string): seq<Param> {
    Finish(Run(LoopState(list, 0, false, false), serviceType), serviceType)
  }

  /** After the loop: the missing `service` and `request` are set. */
  function Finish(s: LoopState, serviceType: string): seq<Param> {
    var l1 := if !s.hasService then SetParam(s.list, "service", Upper(serviceType)) else s.list;
    if !s.hasRequest then SetParam(l1, "request", "GetCapabilities") else l1
  }

  /** `url.searchParams` */
  class SearchParams {
    var list: seq<Param>

    constructor(initial: seq<Param>)
      ensures list == initial
    {
      list := initial;
    }

    method Set(name: string, value: string)
      modifies this
      ensures list == SetParam(old(list), name, value)
    {
      list := SetParam(list, name, value);
    }
  }

  /** `createCapabilitiesUrl(baseUrl, serviceType)` on the parsed URL's
      search parameters. */
  method CreateCapabilitiesUrl(url: SearchParams, serviceType: string)
    modifies url
    ensures url.list == CapabilitiesParams(old(url.list), serviceType)
  {
    var hasService := false;
    var hasRequest := false;
    var i := 0;
    while i < |url.list|
      invariant Run(LoopState(url.list, i, hasService, hasRequest), serviceType)
                == Run(LoopState(old(url.list), 0, false, false), serviceType)
      decreases |url.list| - i
    {
      ghost var before := LoopState(url.list, i, hasService, hasRequest);
      var (key, value) := url.list[i];
      if Lower(key) == "service" {
        if !IsServiceType(value) {
          url.Set(key, Upper(serviceType));
        }
        hasService := true;
      }
      if Lower(key) == "request" {
        if Lower(value) != "getcapabilities" {
          url.Set(key, "GetCapabilities");
        }
        hasRequest := true;
      }
      i := i + 1;
      assert LoopState(url.list, i, hasService, hasRequest) == Step(before, serviceType);
    }
    if !hasService {
      url.Set("service", Upper(serviceType));
    }
    if !hasRequest {
      url.Set("request", "GetCapabilities");
    }
  }

  // With distinct parameter names (the usual query) nothing is removed:
  // every pair is fixed in place and missing ones are appended.

  predicate DistinctNames(list: seq<Param>) {
    forall i, j :: 0 <= i < j < |list| ==> list[i].0 != list[j].0
  }

  /** What the loop makes of one pair. */
  function Fix(p: Param, serviceType: string): Param {
    if Lower(p.0) == "service" && !IsServiceType(p.1) then (p.0, Upper(serviceType))
    else if Lower(p.0) == "request" && Lower(p.1) != "getcapabilities" then (p.0, "GetCapabilities")
    else p
  }

  function FixAll(list: seq<Param>, serviceType: string): (r: seq<Param>)
    ensures |r| == |list| && forall i :: 0 <= i < |list| ==> r[i] == Fix(list[i], serviceType)
  {
    seq(|list|, i requires 0 <= i < |list| => Fix(list[i], serviceType))
  }

  predicate HasLowerName(list: seq<Param>, name: string) {
    exists i :: 0 <= i < |list| && Lower(list[i].0) == name
  }

  lemma {:induction false} RemoveAbsent(list: seq<Param>, name: string)
    requires name !in Names(list)
    ensures RemoveAll(list, name) == list
  {
    if |list| > 0 {
      assert Names(list) == [list[0].0] + Names(list[1..]);
      RemoveAbsent(list[1..], name);
    }
  }

  lemma TailDistinct(list: seq<Param>)
    requires |list| > 0 && DistinctNames(list)
    ensures DistinctNames(list[1..])
    ensures forall j :: 0 <= j < |list[1..]| ==> list[1..][j].0 != list[0].0
  {
    forall a, b | 0 <= a < b < |list[1..]| ensures list[1..][a].0 != list[1..][b].0 {
      assert list[1..][a] == list[a + 1] && list[1..][b] == list[b + 1];
    }
    forall j | 0 <= j < |list[1..]| ensures list[1..][j].0 != list[0].0 {
      assert list[1..][j] == list[j + 1];
    }
  }

  lemma SetOther(list: seq<Param>, name: string, value: string)
    requires |list| > 0 && list[0].0 != name
    ensures SetParam(list, name, value) == [list[0]] + SetParam(list[1..], name, value)
  {
  }

  lemma SetHead(list: seq<Param>, value: string)
    requires |list| > 0 && DistinctNames(list)
    ensures SetParam(list, list[0].0, value) == list[0 := (list[0].0, value)]
  {
    TailDistinct(list);
    RemoveAbsent(list[1..], list[0].0);
  }

  /** Setting the name of the pair at i, when no other pair has it,
      replaces that pair's value. */
  lemma {:induction false} SetDistinct(list: seq<Param>, i: nat, value: string)
    requires i < |list| && DistinctNames(list)
    ensures SetParam(list, list[i].0, value) == list[i := (list[i].0, value)]
  {
    var name := list[i].0;
    if i == 0 {
      SetHead(list, value);
    } else {
      var t := list[1..];
      assert t[i - 1] == list[i];
      assert list[0].0 != name;
      assert [list[0]] + t[i - 1 := (name, value)] == list[i := (name, value)];
      hide *;
      SetOther(list, name, value);
      TailDistinct(list);
      SetDistinct(t, i - 1, value);
    }
  }

  lemma FixKeepsNames(list: seq<Param>, i: nat, serviceType: string)
    requires i < |list| && DistinctNames(list)
    ensures DistinctNames(list[i := Fix(list[i], serviceType)])
    ensures Fix(list[i], serviceType).0 == list[i].0
  {
  }

  /** The state after i iterations on a list with distinct names. */
  function DistinctState(list: seq<Param>, i: nat, serviceType: string): LoopState
    requires i <= |list|
  {
    LoopState(FixAll(list[..i], serviceType) + list[i..], i, HasLowerName(list[..i], "service"), HasLowerName(list[..i], "request"))
  }

  /** The list after i iterations keeps the names, and fixing pair i
      gives the list after i + 1. */
  lemma DistinctCurrent(list: seq<Param>, i: nat, serviceType: string)
    requires i < |list| && DistinctNames(list)
    ensures var cur := FixAll(list[..i], serviceType) + list[i..];
            && |cur| == |list| && cur[i] == list[i] && DistinctNames(cur)
            && cur[i := Fix(list[i], serviceType)] == FixAll(list[..i + 1], serviceType) + list[i + 1..]
  {
    var cur := FixAll(list[..i], serviceType) + list[i..];
    assert forall j :: 0 <= j < |list| ==> cur[j].0 == list[j].0 by {
      forall j | 0 <= j < |list| ensures cur[j].0 == list[j].0 {
        if j < i {
          assert cur[j] == Fix(list[j], serviceType);
        } else {
          assert cur[j] == list[j];
        }
      }
    }
    assert cur[i := Fix(list[i], serviceType)] == FixAll(list[..i + 1], serviceType) + list[i + 1..];
  }

  lemma HasLowerSnoc(list: seq<Param>, i: nat, name: string)
    requires i < |list|
    ensures HasLowerName(list[..i + 1], name) <==> HasLowerName(list[..i], name) || Lower(list[i].0) == name
  {
    if HasLowerName(list[..i + 1], name) {
      var j :| 0 <= j < i + 1 && Lower(list[..i + 1][j].0) == name;
      if j < i {
        assert list[..i][j] == list[j];
      }
    }
    if HasLowerName(list[..i], name) {
      var j :| 0 <= j < i && Lower(list[..i][j].0) == name;
      assert list[..i + 1][j] == list[j];
    }
    if Lower(list[i].0) == name {
      assert list[..i + 1][i] == list[i];
    }
  }

  /** One iteration on a list with distinct names fixes the pair in place. */
  lemma StepAt(cur: seq<Param>, i: nat, hasService: bool, hasRequest: bool, serviceType: string)
    requires i < |cur| && DistinctNames(cur)
    ensures Step(LoopState(cur, i, hasService, hasRequest), serviceType)
            == LoopState(cur[i := Fix(cur[i], serviceType)], i + 1,
                         hasService || Lower(cur[i].0) == "service", hasRequest || Lower(cur[i].0) == "request")
  {
    var (key, value) := cur[i];
    if Lower(key) == "service" && !IsServiceType(value) {
      SetDistinct(cur, i, Upper(serviceType));
    } else if Lower(key) == "request" && Lower(value) != "getcapabilities" {
      SetDistinct(cur, i, "GetCapabilities");
    }
  }

  lemma DistinctStep(list: seq<Param>, i: nat, serviceType: string)
    requires i < |list| && DistinctNames(list)
    ensures Step(DistinctState(list, i, serviceType), serviceType) == DistinctState(list, i + 1, serviceType)
  {
    var cur := FixAll(list[..i], serviceType) + list[i..];
    var hs := HasLowerName(list[..i], "service");
    var hr := HasLowerName(list[..i], "request");
    assert DistinctState(list, i, serviceType) == LoopState(cur, i, hs, hr);
    assert DistinctState(list, i + 1, serviceType)
           == LoopState(FixAll(list[..i + 1], serviceType) + list[i + 1..], i + 1,
                        HasLowerName(list[..i + 1], "service"), HasLowerName(list[..i + 1], "request"));
    hide *;
    DistinctCurrent(list, i, serviceType);
    HasLowerSnoc(list, i, "service");
    HasLowerSnoc(list, i, "request");
    StepAt(cur, i, hs, hr, serviceType);
  }

  lemma {:induction false} DistinctRun(list: seq<Param>, i: nat, serviceType: string)
    requires i <= |list| && DistinctNames(list)
    ensures Run(DistinctState(list, i, serviceType), serviceType) == DistinctState(list, |list|, serviceType)
    decreases |list| - i
  {
    if i < |list| {
      DistinctStep(list, i, serviceType);
      DistinctRun(list, i + 1, serviceType);
      assert DistinctState(list, i, serviceType).pos < |DistinctState(list, i, serviceType).list|;
      hide Step, DistinctState;
    }
  }

  /** A name that no parameter has, in any case, is not among the names. */
  lemma LowerAbsent(list: seq<Param>, name: string)
    requires Lower(name) == name && !HasLowerName(list, name)
    ensures name !in Names(list)
  {
  }

  /** Setting a name that no parameter has in any case appends it. */
  lemma SetAbsent(list: seq<Param>, name: string, value: string)
    requires Lower(name) == name && !HasLowerName(list, name)
    ensures SetParam(list, name, value) == list + [(name, value)]
  {
    LowerAbsent(list, name);
  }

  lemma FixLowerNames(list: seq<Param>, serviceType: string, name: string)
    ensures HasLowerName(FixAll(list, serviceType), name) <==> HasLowerName(list, name)
  {
    var fixed := FixAll(list, serviceType);
    assert forall j :: 0 <= j < |list| ==> fixed[j].0 == list[j].0;
  }

  lemma AppendLower(list: seq<Param>, p: Param, name: string)
    ensures HasLowerName(list + [p], name) <==> HasLowerName(list, name) || Lower(p.0) == name
  {
    if HasLowerName(list + [p], name) {
      var j :| 0 <= j < |list| + 1 && Lower((list + [p])[j].0) == name;
      if j < |list| {
        assert (list + [p])[j] == list[j];
      }
    }
    if HasLowerName(list, name) {
      var j :| 0 <= j < |list| && Lower(list[j].0) == name;
      assert (list + [p])[j] == list[j];
    }
    assert (list + [p])[|list|] == p;
  }

  lemma RunEnds(list: seq<Param>, serviceType: string)
    requires DistinctNames(list)
    ensures Run(LoopState(list, 0, false, false), serviceType)
            == LoopState(FixAll(list, serviceType), |list|, HasLowerName(list, "service"), HasLowerName(list, "request"))
  {
    assert DistinctState(list, 0, serviceType) == LoopState(list, 0, false, false) by {
      assert FixAll(list[..0], serviceType) == [];
      assert list[0..] == list;
    }
    assert list[..|list|] == list && list[|list|..] == [];
    assert DistinctState(list, |list|, serviceType)
           == LoopState(FixAll(list, serviceType), |list|, HasLowerName(list, "service"), HasLowerName(list, "request"));
    hide *;
    DistinctRun(list, 0, serviceType);
  }

  lemma FinishOf(s: LoopState, serviceType: string)
    ensures Finish(s, serviceType)
            == var l1 := if !s.hasService then SetParam(s.list, "service", Upper(serviceType)) else s.list;
               if !s.hasRequest then SetParam(l1, "request", "GetCapabilities") else l1
  {
  }

  /** With distinct parameter names, the capabilities URL keeps every pair
      in place, fixes the `service` and `request` values, and appends the
      missing ones (`service` first, then `request`). */
  lemma CapabilitiesDistinct(list: seq<Param>, serviceType: string)
    requires DistinctNames(list)
    ensures CapabilitiesParams(list, serviceType)
            == FixAll(list, serviceType)
               + (if HasLowerName(list, "service") then [] else [("service", Upper(serviceType))])
               + (if HasLowerName(list, "request") then [] else [("request", "GetCapabilities")])
  {
    var fixed := FixAll(list, serviceType);
    var hs := HasLowerName(list, "service");
    var hr := HasLowerName(list, "request");
    var l1 := if hs then fixed else fixed + [("service", Upper(serviceType))];
    assert Lower("service") == "service" && Lower("request") == "request" && Lower("service") != "request";
    assert CapabilitiesParams(list, serviceType) == Finish(Run(LoopState(list, 0, false, false), serviceType), serviceType);
    hide *;
    RunEnds(list, serviceType);
    FinishOf(LoopState(fixed, |list|, hs, hr), serviceType);
    FixLowerNames(list, serviceType, "service");
    FixLowerNames(list, serviceType, "request");
    if !hs {
      SetAbsent(fixed, "service", Upper(serviceType));
      AppendLower(fixed, ("service", Upper(serviceType)), "request");
    }
    if !hr {
      SetAbsent(l1, "request", "GetCapabilities");
    }
  }

  /** A query without `service` or `request` gets both, upper-cased service first. */
  lemma EmptyQuery(serviceType: string)
    ensures CapabilitiesParams([], serviceType) == [("service", Upper(serviceType)), ("request", "GetCapabilities")]
  {
    CapabilitiesDistinct([], serviceType);
  }

  lemma FixExample()
    ensures Fix(("SERVICE", "wfs"), "wms") == ("SERVICE", "wfs")
    ensures Fix(("request", "GetMap"), "wms") == ("request", "GetCapabilities")
    ensures Lower("SERVICE") == "service" && Lower("request") == "request"
  {
    assert Lower("SERVICE") == "service" && Lower("wfs") == "wfs";
    assert Lower("request") == "request" && Lower("GetMap") == "getmap";
  }

  /** An existing WFS service value is kept even when a WMS is asked for;
      a wrong request value is replaced. */
  lemma ServiceKeptRequestFixed()
    ensures CapabilitiesParams([("SERVICE", "wfs"), ("request", "GetMap")], "wms")
            == [("SERVICE", "wfs"), ("request", "GetCapabilities")]
  {
    var list := [("SERVICE", "wfs"), ("request", "GetMap")];
    assert DistinctNames(list);
    FixExample();
    assert HasLowerName(list, "service") by {
      assert Lower(list[0].0) == "service";
    }
    assert HasLowerName(list, "request") by {
      assert Lower(list[1].0) == "request";
    }
    var fixed := FixAll(list, "wms");
    assert fixed == [("SERVICE", "wfs"), ("request", "GetCapabilities")];
    hide *;
    CapabilitiesDistinct(list, "wms");
  }

  /** With a repeated name the live iteration revisits the set: a later
      `service=x` overwrites the first, valid `service=wms` and removes
      itself. */
  lemma DuplicateServiceOverwritten()
    ensures CapabilitiesParams([("service", "wms"), ("service", "x")], "wfs")
            == [("service", "WFS"), ("request", "GetCapabilities")]
  {
    var list := [("service", "wms"), ("service", "x")];
    assert Lower("service") == "service" && Lower("wms") == "wms" && Lower("x") == "x";
    assert Upper("wfs") == "WFS";
    var s1 := Step(LoopState(list, 0, false, false), "wfs");
    assert s1 == LoopState(list, 1, true, false);
    var s2 := Step(s1, "wfs");
    assert RemoveAll([("service", "x")], "service") == [];
    assert s2 == LoopState([("service", "WFS")], 2, true, false);
    assert Run(LoopState(list, 0, false, false), "wfs") == s2;
    assert Names([("service", "WFS")]) == ["service"];
  }

  // ---------------------------------------------------------------------
  // detectServiceType: the root-tag rule
  // ---------------------------------------------------------------------

  /** The service type of a parsed capabilities document whose root
      element has tag name `tagName` (None: no root element). The tag is
      lower-cased; an empty tag counts as none. */
  function DetectServiceType(tagName: Option<string>): Option<string> {
    if tagName.None? || tagName.value == "" then None
    else
      var rootTag := Lower(tagName.value);
      if rootTag == "parsererror" then None
      else if Contains(rootTag, "wms_capabilities") || Contains(rootTag, "wmt_ms_capabilities") then Some("wms")
      else if Contains(rootTag, "wfs_capabilities") then Some("wfs")
      else None
  }

  predicate IsWmsTag(t: string) {
    Contains(Lower(t), "wms_capabilities") || Contains(Lower(t), "wmt_ms_capabilities")
  }

  predicate IsWfsTag(t: string) {
    Contains(Lower(t), "wfs_capabilities")
  }

  lemma ShortNoOccurrence(s: string, sub: string)
    requires |s| < |sub|
    ensures !Contains(s, sub)
  {
    ContainsIff(s, sub);
  }

  /** The rule in both directions: WMS when the lower-cased tag contains
      either WMS root name, WFS when it contains only the WFS one, and no
      type otherwise (no root element, a parser error, any other tag). */
  lemma DetectRule(tagName: Option<string>)
    ensures DetectServiceType(tagName) == Some("wms") <==> tagName.Some? && IsWmsTag(tagName.value)
    ensures DetectServiceType(tagName) == Some("wfs") <==>
              tagName.Some? && !IsWmsTag(tagName.value) && IsWfsTag(tagName.value)
    ensures DetectServiceType(tagName).None? <==>
              tagName.None? || (!IsWmsTag(tagName.value) && !IsWfsTag(tagName.value))
  {
    if tagName.Some? {
      var t := tagName.value;
      if t == "" {
        ShortNoOccurrence(Lower(t), "wms_capabilities");
        ShortNoOccurrence(Lower(t), "wmt_ms_capabilities");
        ShortNoOccurrence(Lower(t), "wfs_capabilities");
      } else if Lower(t) == "parsererror" {
        ShortNoOccurrence("parsererror", "wms_capabilities");
        ShortNoOccurrence("parsererror", "wmt_ms_capabilities");
        ShortNoOccurrence("parsererror", "wfs_capabilities");
      }
    }
  }

  lemma LowerIdempotent(s: string)
    ensures Lower(Lower(s)) == Lower(s)
  {
  }

  /** The tag name's case does not matter. */
  lemma DetectCaseInsensitive(t: string)
    ensures DetectServiceType(Some(t)) == DetectServiceType(Some(Lower(t)))
  {
    LowerIdempotent(t);
  }

  lemma PrefixedTag()
    ensures Lower("wfs:WFS_Capabilities") == "wfs:wfs_capabilities"
  {
  }

  /** A text lacking one character of `sub` does not contain `sub`. */
  lemma MissingChar(s: string, sub: string, k: nat)
    requires k < |sub| && sub[k] !in s
    ensures !Contains(s, sub)
  {
    ContainsIff(s, sub);
  }

  lemma PrefixedWfsRoot()
    ensures Contains("wfs:wfs_capabilities", "wfs_capabilities")
  {
    assert OccursAt("wfs:wfs_capabilities", "wfs_capabilities", 4);
    ContainsIff("wfs:wfs_capabilities", "wfs_capabilities");
  }

  lemma PrefixedNotWms()
    ensures !Contains("wfs:wfs_capabilities", "wms_capabilities")
    ensures !Contains("wfs:wfs_capabilities", "wmt_ms_capabilities")
  {
    assert 'm' !in "wfs:wfs_capabilities";
    assert "wms_capabilities"[1] == 'm' && "wmt_ms_capabilities"[1] == 'm';
    hide *;
    MissingChar("wfs:wfs_capabilities", "wms_capabilities", 1);
    MissingChar("wfs:wfs_capabilities", "wmt_ms_capabilities", 1);
  }

  /** A namespace-prefixed WFS root (`wfs:WFS_Capabilities`) is a WFS. */
  lemma DetectPrefixedWfs()
    ensures DetectServiceType(Some("wfs:WFS_Capabilities")) == Some("wfs")
  {
    PrefixedTag();
    PrefixedWfsRoot();
    PrefixedNotWms();
    hide Lower, Contains;
  }
}

/** The exporter's capabilities helper: the WFS layers offered for export. */
module ExporterCapabilities {
  import opened JsText
  import opened JsValues
  import ExporterReset

  /** `getBaseUrl(url)`: the text before the first '?'. */
  function BaseUrl(url: string): (r: string)
    ensures r <= url && '?' !in r
    ensures |r| < |url| ==> url[|r|] == '?'
  {
    SplitHead(url, '?');
    Split(url, '?')[0]
  }

  /** The base URL is the longest '?'-free prefix: a URL without '?' is
      its own base, and taking the base twice changes nothing. */
  lemma BaseUrlUnique(url: string, b: string)
    requires b <= url && '?' !in b && (|b| < |url| ==> url[|b|] == '?')
    ensures BaseUrl(url) == b
  {
  }

  lemma BaseUrlProperties(url: string)
    ensures '?' !in url ==> BaseUrl(url) == url
    ensures BaseUrl(BaseUrl(url)) == BaseUrl(url)
  {
    if '?' !in url {
      BaseUrlUnique(url, url);
    }
    BaseUrlUnique(BaseUrl(url), BaseUrl(url));
  }

  /** `LAYERTYPES.wfs`; the constants file is not part of this model. */
  const layerTypeWfs := "wfs"

  datatype FeatureTypeText = FeatureTypeText(title: Option<string>, name: Option<string>)

  function OptStr(o: Option<string>): JsValue {
    if o.Some? then Str(o.value) else Undefined
  }

  /** A FeatureType element as the exporter lists it: the title becomes
      the layer's `name`, the type name its `featureType`. */
  function LayerNames(ft: FeatureTypeText): Entries {
    [("name", OptStr(ft.title)), ("featureType", OptStr(ft.name))]
  }

  const decorationKeys: seq<string> := ["idx", "type", "url", "version", "exportFormats"]

  function ExportFormats(): JsValue {
    Arr([Str(ExporterReset.exportFormats[0]), Str(ExporterReset.exportFormats[1]),
         Str(ExporterReset.exportFormats[2]), Str(ExporterReset.exportFormats[3])])
  }

  function Decoration(idx: nat, baseUrl: string, version: JsValue): Entries {
    Zip(decorationKeys, [Num(idx), Str(layerTypeWfs), Str(baseUrl), version, ExportFormats()])
  }

  /** `getLayersFromCapabilities(url)`, after the fetch and the parse:
      `version` is the root element's `version` attribute and
      `featureTypes` the FeatureType elements. */
  function ExportLayers(url: string, version: JsValue, featureTypes: seq<FeatureTypeText>): (r: seq<JsValue>)
    ensures |r| == |featureTypes|
  {
    seq(|featureTypes|, i requires 0 <= i < |featureTypes| =>
      Obj(Spread(LayerNames(featureTypes[i]), Decoration(i, BaseUrl(url), version))))
  }

  lemma DecorationDistinct(idx: nat, baseUrl: string, version: JsValue)
    ensures var d := Decoration(idx, baseUrl, version);
            && DistinctKeys(d) && !HasKey(d, "name") && !HasKey(d, "featureType")
            && HasKey(d, "idx") && HasKey(d, "type") && HasKey(d, "url")
            && HasKey(d, "version") && HasKey(d, "exportFormats")
  {
    var ks := decorationKeys;
    assert Keys(Decoration(idx, baseUrl, version)) == ks;
    assert ks[0] == "idx" && ks[1] == "type" && ks[2] == "url" && ks[3] == "version" && ks[4] == "exportFormats";
  }

  lemma DecorationHead(idx: nat, baseUrl: string, version: JsValue)
    ensures var d := Decoration(idx, baseUrl, version);
            Get(d, "idx") == Num(idx) && Get(d, "type") == Str(layerTypeWfs) && Get(d, "url") == Str(baseUrl)
  {
    var vs := [Num(idx), Str(layerTypeWfs), Str(baseUrl), version, ExportFormats()];
    var ks := decorationKeys;
    assert ks[..1] == ["idx"] && ks[..2] == ["idx", "type"];
    assert Decoration(idx, baseUrl, version) == Zip(ks, vs);
    hide *;
    GetZip(ks, vs, 0);
    GetZip(ks, vs, 1);
    GetZip(ks, vs, 2);
  }

  lemma DecorationTail(idx: nat, baseUrl: string, version: JsValue)
    ensures var d := Decoration(idx, baseUrl, version);
            Get(d, "version") == version && Get(d, "exportFormats") == ExportFormats()
  {
    var vs := [Num(idx), Str(layerTypeWfs), Str(baseUrl), version, ExportFormats()];
    var ks := decorationKeys;
    assert ks[..4] == ["idx", "type", "url", "version"];
    assert Decoration(idx, baseUrl, version) == Zip(ks, vs);
    hide *;
    GetZip(ks, vs, 3);
    GetZip(ks, vs, 4);
  }

  /** Layer i of the export list: the FeatureType's title as `name`, its
      type name as `featureType`, then index i, the WFS layer type, the
      URL without its query, the document's version and the four export
      formats. */
  lemma ExportLayerFields(url: string, version: JsValue, featureTypes: seq<FeatureTypeText>, i: nat)
    requires i < |featureTypes|
    ensures var l := ExportLayers(url, version, featureTypes)[i];
            && l.Obj?
            && Get(l.entries, "name") == OptStr(featureTypes[i].title)
            && Get(l.entries, "featureType") == OptStr(featureTypes[i].name)
            && Get(l.entries, "idx") == Num(i)
            && Get(l.entries, "type") == Str(layerTypeWfs)
            && Get(l.entries, "url") == Str(BaseUrl(url))
            && Get(l.entries, "version") == version
            && Get(l.entries, "exportFormats") == Arr([Str("geoJson"), Str("gml"), Str("shp"), Str("gpkg")])
  {
    var a := LayerNames(featureTypes[i]);
    var d := Decoration(i, BaseUrl(url), version);
    assert ExportLayers(url, version, featureTypes)[i] == Obj(Spread(a, d));
    assert Get(a, "name") == OptStr(featureTypes[i].title);
    assert Get(a, "featureType") == OptStr(featureTypes[i].name);
    assert ExportFormats() == Arr([Str("geoJson"), Str("gml"), Str("shp"), Str("gpkg")]);
    hide *;
    DecorationDistinct(i, BaseUrl(url), version);
    DecorationHead(i, BaseUrl(url), version);
    DecorationTail(i, BaseUrl(url), version);
    GetSpread(a, d, "name");
    GetSpread(a, d, "featureType");
    GetSpread(a, d, "idx");
    GetSpread(a, d, "type");
    GetSpread(a, d, "url");
    GetSpread(a, d, "version");
    GetSpread(a, d, "exportFormats");
  }
}

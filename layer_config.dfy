/** The layer configs the importer addon hands to the portal's layer parser:
    one per selected WMS layer or WFS feature type, and one per layer read
    from an uploaded file. */
module AddonLayerConfig {
  import opened JsText
  import opened JsValues
  import TranslationKey
  import ImporterFile

  const idPrefix := "importedLayer_"

  /** `generateId(counter)` */
  function GenerateId(counter: JsValue): string {
    idPrefix + ToJsString(counter)
  }

  /** Different counters give different ids. */
  lemma GenerateIdInjective(m: nat, n: nat)
    requires GenerateId(Num(m)) == GenerateId(Num(n))
    ensures m == n
  {
    assert NatToString(m) == GenerateId(Num(m))[|idPrefix|..];
    assert NatToString(n) == GenerateId(Num(n))[|idPrefix|..];
    NatToStringInjective(m, n);
  }

  /** The decimal counter follows the prefix. */
  lemma GenerateIdOfCounter(c: nat)
    ensures GenerateId(Num(c)) == "importedLayer_" + NatToString(c)
  {
  }

  /** `{name, title, id}`: destructuring a layer option. */
  datatype LayerOpt = LayerOpt(name: JsValue, title: JsValue, id: JsValue)

  function ReadOpt(opt: JsValue): (r: Outcome<LayerOpt>)
    ensures r.TypeError? <==> opt.Undefined? || opt.Null?
    ensures r.Ok? ==> r.value == LayerOpt(Prop(opt, "name").value, Prop(opt, "title").value, Prop(opt, "id").value)
  {
    if opt.Undefined? || opt.Null? then TypeError
    else Ok(LayerOpt(Prop(opt, "name").value, Prop(opt, "title").value, Prop(opt, "id").value))
  }

  const wmsKeys := ["id", "parentId", "name", "typ", "layers", "url", "version", "visibility", "type",
                    "isExternal", "showInLayerTree", "legendURL", "datasets"]

  function WmsValues(url: JsValue, version: JsValue, parentId: JsValue, o: LayerOpt): seq<JsValue> {
    [ o.id, parentId, o.title, Str("WMS"), o.name, url, version, Bool(true), Str("layer"), Bool(true), Bool(true),
      Str(""), Arr([]) ]
  }

  /** `createWMSLayerConfig(url, version, parentId, {name, title, id})` */
  function WmsLayerConfig(url: JsValue, version: JsValue, parentId: JsValue, o: LayerOpt): Entries {
    Zip(wmsKeys, WmsValues(url, version, parentId, o))
  }

  /** A WMS config shows the title and requests the layer's name. */
  lemma WmsFields(url: JsValue, version: JsValue, parentId: JsValue, o: LayerOpt)
    ensures var c := WmsLayerConfig(url, version, parentId, o);
            Get(c, "name") == o.title && Get(c, "layers") == o.name && Get(c, "typ") == Str("WMS") &&
            Get(c, "visibility") == Bool(true) && Get(c, "isExternal") == Bool(true) &&
            Get(c, "id") == o.id && Get(c, "parentId") == parentId && Get(c, "url") == url &&
            Get(c, "version") == version
  {
    var vs := WmsValues(url, version, parentId, o);
    var ks := wmsKeys;
    assert vs[0] == o.id && vs[1] == parentId && vs[2] == o.title && vs[3] == Str("WMS") && vs[4] == o.name &&
           vs[5] == url && vs[6] == version && vs[7] == Bool(true) && vs[9] == Bool(true);
    assert ks[0] == "id" && ks[1] == "parentId" && ks[2] == "name" && ks[3] == "typ" && ks[4] == "layers" &&
           ks[5] == "url" && ks[6] == "version" && ks[7] == "visibility" && ks[9] == "isExternal";
    assert ks[1] !in ks[..1] && ks[2] !in ks[..2] && ks[3] !in ks[..3] && ks[4] !in ks[..4] &&
           ks[5] !in ks[..5] && ks[6] !in ks[..6] && ks[7] !in ks[..7] && ks[9] !in ks[..9];
    assert WmsLayerConfig(url, version, parentId, o) == Zip(ks, vs);
    hide *;
    GetZip(ks, vs, 0);
    GetZip(ks, vs, 1);
    GetZip(ks, vs, 2);
    GetZip(ks, vs, 3);
    GetZip(ks, vs, 4);
    GetZip(ks, vs, 5);
    GetZip(ks, vs, 6);
    GetZip(ks, vs, 7);
    GetZip(ks, vs, 9);
  }

  /** `name.split(":")[0]` */
  function FeatureNS(name: string): string {
    Split(name, ':')[0]
  }

  /** `name.split(":")[1] ? name.split(":")[1] : name` */
  function FeatureType(name: string): string {
    var parts := Split(name, ':');
    if |parts| > 1 && parts[1] != "" then parts[1] else name
  }

  /** The namespace is the text before the first ':'; the type is the text
      between the first and the second ':' when that is not empty, and
      otherwise the whole name. */
  lemma NameSplit(name: string)
    ensures FeatureNS(name) == name[..FirstIndex(name, ':')] && ':' !in FeatureNS(name)
    ensures ':' !in name ==> FeatureType(name) == name
    ensures ':' in name ==>
              var rest := name[FirstIndex(name, ':') + 1..];
              var second := rest[..FirstIndex(rest, ':')];
              FeatureType(name) == if second != "" then second else name
  {
    SplitHead(name, ':');
    SplitSingle(name, ':');
    if ':' in name {
      SplitSecond(name, ':');
    }
  }

  /** A qualified name `ns:type` is split back into its two parts; this is
      the inverse of the `featureNS + ":" + featureType` the importer getters
      show for a selected WFS layer. */
  lemma QualifiedNameSplit(ns: string, ft: string)
    requires ':' !in ns && ':' !in ft && ft != ""
    ensures FeatureNS(ns + ":" + ft) == ns
    ensures FeatureType(ns + ":" + ft) == ft
  {
    var name := ns + ":" + ft;
    assert FirstIndex(name, ':') == |ns| by {
      assert name[|ns|] == ':';
      assert forall j :: 0 <= j < |ns| ==> name[j] == ns[j];
    }
    assert name[..|ns|] == ns;
    var rest := name[|ns| + 1..];
    assert rest == ft;
    assert FirstIndex(rest, ':') == |ft|;
    assert rest[..|ft|] == ft;
    NameSplit(name);
  }

  const wfsKeys := ["type", "typ", "name", "featureNS", "featureType", "id", "parentId", "isExternal", "url",
                    "version", "showInLayerTree", "visibility"]

  function WfsValues(url: JsValue, version: JsValue, parentId: JsValue, o: LayerOpt): seq<JsValue>
    requires o.name.Str?
  {
    [ Str("layer"), Str("WFS"), o.title, Str(FeatureNS(o.name.s)), Str(FeatureType(o.name.s)), o.id, parentId,
      Bool(true), url, version, Bool(true), Bool(true) ]
  }

  /** `createWFSLayerConfig(url, version, parentId, {name, title, id})`:
      splitting a name that is not a string throws. */
  function WfsLayerConfig(url: JsValue, version: JsValue, parentId: JsValue, o: LayerOpt): (r: Outcome<Entries>)
    ensures r.TypeError? <==> !o.name.Str?
  {
    if !o.name.Str? then TypeError
    else Ok(Zip(wfsKeys, WfsValues(url, version, parentId, o)))
  }

  /** A WFS config shows the title and carries the split name. */
  lemma WfsFields(url: JsValue, version: JsValue, parentId: JsValue, o: LayerOpt)
    requires o.name.Str?
    ensures var c := WfsLayerConfig(url, version, parentId, o).value;
            Get(c, "name") == o.title && Get(c, "typ") == Str("WFS") &&
            Get(c, "featureNS") == Str(FeatureNS(o.name.s)) && Get(c, "featureType") == Str(FeatureType(o.name.s)) &&
            Get(c, "id") == o.id && Get(c, "url") == url && Get(c, "version") == version &&
            Get(c, "isExternal") == Bool(true) && Get(c, "visibility") == Bool(true)
  {
    var vs := WfsValues(url, version, parentId, o);
    var ks := wfsKeys;
    assert vs[1] == Str("WFS") && vs[2] == o.title && vs[3] == Str(FeatureNS(o.name.s)) &&
           vs[4] == Str(FeatureType(o.name.s)) && vs[5] == o.id && vs[7] == Bool(true) && vs[8] == url &&
           vs[9] == version && vs[11] == Bool(true);
    assert ks[1] == "typ" && ks[2] == "name" && ks[3] == "featureNS" && ks[4] == "featureType" && ks[5] == "id" &&
           ks[7] == "isExternal" && ks[8] == "url" && ks[9] == "version" && ks[11] == "visibility";
    assert ks[1] !in ks[..1] && ks[2] !in ks[..2] && ks[3] !in ks[..3] && ks[4] !in ks[..4] && ks[5] !in ks[..5] &&
           ks[7] !in ks[..7] && ks[8] !in ks[..8] && ks[9] !in ks[..9] && ks[11] !in ks[..11];
    assert WfsLayerConfig(url, version, parentId, o).value == Zip(ks, vs);
    hide *;
    GetZip(ks, vs, 1);
    GetZip(ks, vs, 2);
    GetZip(ks, vs, 3);
    GetZip(ks, vs, 4);
    GetZip(ks, vs, 5);
    GetZip(ks, vs, 7);
    GetZip(ks, vs, 8);
    GetZip(ks, vs, 9);
    GetZip(ks, vs, 11);
  }

  /** The config one layer option gives for a service. */
  function ConfigFor(service: string, url: JsValue, version: JsValue, folderId: JsValue, opt: JsValue): Outcome<JsValue> {
    match ReadOpt(opt)
    case TypeError => TypeError
    case Ok(o) =>
      if service == "wms" then Ok(Obj(WmsLayerConfig(url, version, folderId, o)))
      else match WfsLayerConfig(url, version, folderId, o)
        case TypeError => TypeError
        case Ok(c) => Ok(Obj(c))
  }

  /** `createLayerConfigs(service, url, version, folderId, layerOpts)`: the
      service is compared with `===`. */
  function CreateLayerConfigs(service: JsValue, url: JsValue, version: JsValue, folderId: JsValue,
                              layerOpts: seq<JsValue>): Outcome<seq<JsValue>> {
    if service == Str("wms") || service == Str("wfs") then MapOutcome(Mapper(service.s, url, version, folderId), layerOpts)
    else Ok([])
  }

  /** The callback `createLayerConfigs` maps over the options. */
  function Mapper(service: string, url: JsValue, version: JsValue, folderId: JsValue): JsValue -> Outcome<JsValue> {
    opt => ConfigFor(service, url, version, folderId, opt)
  }

  lemma MapperApply(service: string, url: JsValue, version: JsValue, folderId: JsValue, opt: JsValue)
    ensures Mapper(service, url, version, folderId)(opt) == ConfigFor(service, url, version, folderId, opt)
  {
  }

  lemma WmsConfigFor(url: JsValue, version: JsValue, folderId: JsValue, opt: JsValue)
    ensures ConfigFor("wms", url, version, folderId, opt).TypeError? <==> opt.Undefined? || opt.Null?
    ensures ConfigFor("wms", url, version, folderId, opt).Ok? ==>
              ConfigFor("wms", url, version, folderId, opt).value == Obj(WmsLayerConfig(url, version, folderId, ReadOpt(opt).value))
  {
  }

  lemma WfsConfigFor(url: JsValue, version: JsValue, folderId: JsValue, opt: JsValue)
    ensures ConfigFor("wfs", url, version, folderId, opt).TypeError? <==>
              ReadOpt(opt).TypeError? || !ReadOpt(opt).value.name.Str?
    ensures ConfigFor("wfs", url, version, folderId, opt).Ok? ==>
              ConfigFor("wfs", url, version, folderId, opt).value ==
              Obj(WfsLayerConfig(url, version, folderId, ReadOpt(opt).value).value)
  {
  }

  lemma CreateWms(url: JsValue, version: JsValue, folderId: JsValue, layerOpts: seq<JsValue>)
    ensures CreateLayerConfigs(Str("wms"), url, version, folderId, layerOpts) == MapOutcome(Mapper("wms", url, version, folderId), layerOpts)
  {
  }

  lemma CreateWfs(url: JsValue, version: JsValue, folderId: JsValue, layerOpts: seq<JsValue>)
    ensures CreateLayerConfigs(Str("wfs"), url, version, folderId, layerOpts) == MapOutcome(Mapper("wfs", url, version, folderId), layerOpts)
  {
  }

  /** WMS: one config per option, in order; only a missing option throws. */
  lemma WmsConfigs(url: JsValue, version: JsValue, folderId: JsValue, layerOpts: seq<JsValue>)
    ensures var r := CreateLayerConfigs(Str("wms"), url, version, folderId, layerOpts);
            (r.TypeError? <==> exists i :: 0 <= i < |layerOpts| && (layerOpts[i].Undefined? || layerOpts[i].Null?)) &&
            (r.Ok? ==> |r.value| == |layerOpts| &&
                       forall i :: 0 <= i < |layerOpts| ==>
                         r.value[i] == Obj(WmsLayerConfig(url, version, folderId, ReadOpt(layerOpts[i]).value)))
  {
    hide *;
    var f := Mapper("wms", url, version, folderId);
    CreateWms(url, version, folderId, layerOpts);
    forall i | 0 <= i < |layerOpts|
      ensures f(layerOpts[i]).TypeError? <==> layerOpts[i].Undefined? || layerOpts[i].Null?
      ensures f(layerOpts[i]).Ok? ==> f(layerOpts[i]).value == Obj(WmsLayerConfig(url, version, folderId, ReadOpt(layerOpts[i]).value))
    {
      MapperApply("wms", url, version, folderId, layerOpts[i]);
      WmsConfigFor(url, version, folderId, layerOpts[i]);
    }
  }

  /** WFS: one config per option, in order; a missing option or a name that
      is not a string throws. */
  lemma WfsConfigs(url: JsValue, version: JsValue, folderId: JsValue, layerOpts: seq<JsValue>)
    ensures var r := CreateLayerConfigs(Str("wfs"), url, version, folderId, layerOpts);
            (r.TypeError? <==> exists i :: 0 <= i < |layerOpts| &&
                                  (ReadOpt(layerOpts[i]).TypeError? || !ReadOpt(layerOpts[i]).value.name.Str?)) &&
            (r.Ok? ==> |r.value| == |layerOpts| &&
                       forall i :: 0 <= i < |layerOpts| ==>
                         r.value[i] == Obj(WfsLayerConfig(url, version, folderId, ReadOpt(layerOpts[i]).value).value))
  {
    hide *;
    var f := Mapper("wfs", url, version, folderId);
    CreateWfs(url, version, folderId, layerOpts);
    forall i | 0 <= i < |layerOpts|
      ensures f(layerOpts[i]).TypeError? <==> ReadOpt(layerOpts[i]).TypeError? || !ReadOpt(layerOpts[i]).value.name.Str?
      ensures f(layerOpts[i]).Ok? ==>
                f(layerOpts[i]).value == Obj(WfsLayerConfig(url, version, folderId, ReadOpt(layerOpts[i]).value).value)
    {
      MapperApply("wfs", url, version, folderId, layerOpts[i]);
      WfsConfigFor(url, version, folderId, layerOpts[i]);
    }
  }

  /** Any other service gives no configs. */
  lemma OtherServiceConfigs(service: JsValue, url: JsValue, version: JsValue, folderId: JsValue, layerOpts: seq<JsValue>)
    requires service != Str("wms") && service != Str("wfs")
    ensures CreateLayerConfigs(service, url, version, folderId, layerOpts) == Ok([])
  {
  }

  /** `url.substring(k)` for a non-negative k. */
  function Substring(s: string, k: nat): string {
    TranslationKey.Substr(s, k)
  }

  /** `addProxyIfNotContained(url)` with `window.location.origin` given as
      `origin`. A truthy URL that is not a string has no `toLowerCase` and
      throws. */
  function AddProxyIfNotContained(url: JsValue, origin: string): Outcome<JsValue> {
    if !Truthy(url) then Ok(url)
    else if !url.Str? then TypeError
    else if IndexOf(Lower(url.s), "proxyhttp") >= 0 then Ok(url)
    else if StartsWith(url.s, "http:") then Ok(Str(origin + "/proxyhttp/" + Substring(url.s, 7)))
    else if StartsWith(url.s, "https:") then Ok(Str(origin + "/proxyhttps/" + Substring(url.s, 8)))
    else Ok(Undefined)
  }

  /** A falsy URL and one already naming the proxy in any case are kept. */
  lemma ProxyKept(url: JsValue, origin: string)
    requires !Truthy(url) || (url.Str? && Contains(Lower(url.s), "proxyhttp"))
    ensures AddProxyIfNotContained(url, origin) == Ok(url)
  {
  }

  /** An http URL is routed through `/proxyhttp/`, an https URL through
      `/proxyhttps/`, with the scheme and its two slashes dropped. */
  lemma ProxyAdded(rest: string, origin: string)
    ensures !Contains(Lower("http://" + rest), "proxyhttp") ==>
              AddProxyIfNotContained(Str("http://" + rest), origin) == Ok(Str(origin + "/proxyhttp/" + rest))
    ensures !Contains(Lower("https://" + rest), "proxyhttp") ==>
              AddProxyIfNotContained(Str("https://" + rest), origin) == Ok(Str(origin + "/proxyhttps/" + rest))
  {
    var h := "http://" + rest;
    var hs := "https://" + rest;
    assert StartsWith(h, "http:") by { assert h[..5] == "http:"; }
    assert h[7..] == rest;
    assert !StartsWith(hs, "http:") by { assert hs[4] == 's'; }
    assert StartsWith(hs, "https:") by { assert hs[..6] == "https:"; }
    assert hs[8..] == rest;
  }

  /** Any other URL string without the proxy gives undefined. */
  lemma ProxyOtherScheme(url: string, origin: string)
    requires !Contains(Lower(url), "proxyhttp") && !StartsWith(url, "http:") && !StartsWith(url, "https:") && url != ""
    ensures AddProxyIfNotContained(Str(url), origin) == Ok(Undefined)
  {
  }

  lemma LowerProxyPrefix(origin: string, tail: string)
    ensures Lower(origin + "/proxyhttp" + tail)[|origin| + 1..|origin| + 10] == "proxyhttp"
  {
    var s := origin + "/proxyhttp" + tail;
    forall j | 0 <= j < 9 ensures Lower(s)[|origin| + 1 + j] == "proxyhttp"[j] {
      assert s[|origin| + 1 + j] == "proxyhttp"[j];
    }
  }

  /** A URL the function produced names the proxy, so adding it again
      changes nothing. */
  lemma ProxyIdempotent(url: JsValue, origin: string)
    requires AddProxyIfNotContained(url, origin).Ok?
    ensures var once := AddProxyIfNotContained(url, origin).value;
            AddProxyIfNotContained(once, origin) == Ok(once)
  {
    var once := AddProxyIfNotContained(url, origin).value;
    if Truthy(url) && IndexOf(Lower(url.s), "proxyhttp") < 0 && once.Str? {
      var tail := if StartsWith(url.s, "http:") then "/" + Substring(url.s, 7) else "s/" + Substring(url.s, 8);
      assert once.s == origin + "/proxyhttp" + tail;
      LowerProxyPrefix(origin, tail);
      assert OccursAt(Lower(once.s), "proxyhttp", |origin| + 1);
      ContainsIff(Lower(once.s), "proxyhttp");
    }
  }

  /** The name of a GeoJSON file layer: `fileParts.pop()` and
      `fileParts.join(".")` after splitting at '.'. */
  function StripExtension(fileName: string): string {
    var parts := Split(fileName, '.');
    Join(parts[..|parts| - 1], ".")
  }

  /** The layer name is the file name up to its last '.', so that name, '.'
      and the file ending give the file name back; a name without '.' gives
      the empty name. */
  lemma StripExtensionEnding(fileName: string)
    ensures '.' in fileName ==> StripExtension(fileName) + "." + ImporterFile.FileEnding(fileName) == fileName
    ensures '.' !in fileName ==> StripExtension(fileName) == ""
  {
    SplitSingle(fileName, '.');
    if '.' in fileName {
      DropLastPart(fileName, '.');
    }
  }

  const geoJsonKeys := ["id", "name", "parentId", "typ", "type", "url", "gfiAttributes", "gfiTheme"]

  /** `createGeoJsonLayerConfig(geojson, name, id, parentId)`, with the blob
      URL made for the GeoJSON given as `url`. */
  function GeoJsonLayerConfig(name: JsValue, id: JsValue, parentId: JsValue, url: JsValue): Entries {
    Zip(geoJsonKeys, [id, name, parentId, Str("GeoJSON"), Str("layer"), url, Str("showAll"), Str("default")])
  }

  /** A GeoJSON config carries the given name, id and URL. */
  lemma GeoJsonFields(name: JsValue, id: JsValue, parentId: JsValue, url: JsValue)
    ensures var c := GeoJsonLayerConfig(name, id, parentId, url);
            Get(c, "id") == id && Get(c, "name") == name && Get(c, "typ") == Str("GeoJSON") && Get(c, "url") == url
  {
    var vs := [id, name, parentId, Str("GeoJSON"), Str("layer"), url, Str("showAll"), Str("default")];
    var ks := geoJsonKeys;
    assert ks[1] == "name" && ks[3] == "typ" && ks[5] == "url";
    assert ks[1] !in ks[..1] && ks[3] !in ks[..3] && ks[5] !in ks[..5];
    hide *;
    GetZip(ks, vs, 0);
    GetZip(ks, vs, 1);
    GetZip(ks, vs, 3);
    GetZip(ks, vs, 5);
  }

  /** The config of one read layer, named and identified by its `key`. */
  function NamedConfig(layer: JsValue, key: string, folderId: JsValue, objectUrl: JsValue -> JsValue): Outcome<JsValue> {
    if Prop(layer, key).TypeError? then TypeError
    else Ok(Obj(GeoJsonLayerConfig(Prop(layer, key).value, Prop(layer, key).value, folderId, objectUrl(layer))))
  }

  function NamedConfigs(layers: seq<JsValue>, key: string, folderId: JsValue, objectUrl: JsValue -> JsValue): Outcome<seq<JsValue>> {
    MapOutcome(layer => NamedConfig(layer, key, folderId, objectUrl), layers)
  }

  /** One config per read layer, in order; a missing layer throws. */
  lemma NamedConfigsEach(layers: seq<JsValue>, key: string, folderId: JsValue, objectUrl: JsValue -> JsValue)
    ensures var r := NamedConfigs(layers, key, folderId, objectUrl);
            (r.TypeError? <==> exists i :: 0 <= i < |layers| && (layers[i].Undefined? || layers[i].Null?)) &&
            (r.Ok? ==> |r.value| == |layers| &&
                       forall i :: 0 <= i < |layers| ==>
                         r.value[i] == Obj(GeoJsonLayerConfig(Prop(layers[i], key).value, Prop(layers[i], key).value,
                                                              folderId, objectUrl(layers[i]))))
  {
    var f := layer => NamedConfig(layer, key, folderId, objectUrl);
    assert NamedConfigs(layers, key, folderId, objectUrl) == MapOutcome(f, layers);
    forall i | 0 <= i < |layers|
      ensures f(layers[i]).TypeError? <==> layers[i].Undefined? || layers[i].Null?
      ensures f(layers[i]).Ok? ==>
                f(layers[i]).value == Obj(GeoJsonLayerConfig(Prop(layers[i], key).value, Prop(layers[i], key).value,
                                                             folderId, objectUrl(layers[i])))
    {
    }
    hide *;
  }

  /** `createFileLayerConfigs(filetype, file, layerId, folderId)`. What the
      file readers return is given: `content` for a GeoJSON file,
      `shapeLayers` for a zipped shapefile and `featureTables` for a
      GeoPackage; `objectUrl` stands for the blob URL made of a GeoJSON. */
  function FileLayerConfigs(filetype: JsValue, fileName: string, layerId: JsValue, folderId: JsValue, content: JsValue,
                            shapeLayers: seq<JsValue>, featureTables: seq<JsValue>,
                            objectUrl: JsValue -> JsValue): Outcome<seq<JsValue>> {
    if filetype == Str("geojson") then
      Ok([Obj(GeoJsonLayerConfig(Str(StripExtension(fileName)), layerId, folderId, objectUrl(content)))])
    else if filetype == Str("shapezip") then NamedConfigs(shapeLayers, "fileName", folderId, objectUrl)
    else if filetype == Str("geopackage") then NamedConfigs(featureTables, "tableName", folderId, objectUrl)
    else Ok([])
  }

  /** A GeoJSON file gives one layer, with the given id and the file name
      without its extension; shapefile layers and GeoPackage tables each give
      one layer named and identified by their `fileName` or `tableName`;
      other file types give none. */
  lemma FileConfigs(filetype: JsValue, fileName: string, layerId: JsValue, folderId: JsValue, content: JsValue,
                    shapeLayers: seq<JsValue>, featureTables: seq<JsValue>, objectUrl: JsValue -> JsValue)
    ensures var r := FileLayerConfigs(Str("geojson"), fileName, layerId, folderId, content, shapeLayers, featureTables, objectUrl);
            r.Ok? && |r.value| == 1 && Get(r.value[0].entries, "name") == Str(StripExtension(fileName)) &&
            Get(r.value[0].entries, "id") == layerId
    ensures FileLayerConfigs(Str("shapezip"), fileName, layerId, folderId, content, shapeLayers, featureTables, objectUrl) ==
            NamedConfigs(shapeLayers, "fileName", folderId, objectUrl)
    ensures FileLayerConfigs(Str("geopackage"), fileName, layerId, folderId, content, shapeLayers, featureTables, objectUrl) ==
            NamedConfigs(featureTables, "tableName", folderId, objectUrl)
    ensures !(filetype in {Str("geojson"), Str("shapezip"), Str("geopackage")}) ==>
              FileLayerConfigs(filetype, fileName, layerId, folderId, content, shapeLayers, featureTables, objectUrl) == Ok([])
  {
    GeoJsonFields(Str(StripExtension(fileName)), layerId, folderId, objectUrl(content));
    hide GeoJsonLayerConfig, NamedConfigs, Get;
  }
}

/** The layer configs of the importer (the newer variant): WFS and GeoJSON
    configs carry a style id equal to the layer id and show all attributes
    in the feature info. */
module ImporterLayerConfig {
  import opened JsText
  import opened JsValues
  import AddonLayerConfig

  const wfsKeys := ["type", "typ", "name", "featureNS", "featureType", "id", "styleId", "gfiAttributes",
                    "gfiTheme", "parentId", "isExternal", "url", "version", "showInLayerTree", "visibility"]

  function WfsValues(url: JsValue, version: JsValue, parentId: JsValue, o: AddonLayerConfig.LayerOpt): seq<JsValue>
    requires o.name.Str?
  {
    [ Str("layer"), Str("WFS"), o.title, Str(AddonLayerConfig.FeatureNS(o.name.s)),
      Str(AddonLayerConfig.FeatureType(o.name.s)), o.id, o.id, Str("showAll"), Str("default"), parentId,
      Bool(true), url, version, Bool(true), Bool(true) ]
  }

  /** `createWFSLayerConfig(url, version, parentId, {name, title, id})` */
  function WfsLayerConfig(url: JsValue, version: JsValue, parentId: JsValue, o: AddonLayerConfig.LayerOpt): (r: Outcome<Entries>)
    ensures r.TypeError? <==> !o.name.Str?
  {
    if !o.name.Str? then TypeError
    else Ok(Zip(wfsKeys, WfsValues(url, version, parentId, o)))
  }

  /** The style id is the layer id; the name is split as in the addon. */
  lemma WfsFields(url: JsValue, version: JsValue, parentId: JsValue, o: AddonLayerConfig.LayerOpt)
    requires o.name.Str?
    ensures var c := WfsLayerConfig(url, version, parentId, o).value;
            Get(c, "styleId") == o.id && Get(c, "id") == o.id &&
            Get(c, "gfiAttributes") == Str("showAll") && Get(c, "gfiTheme") == Str("default") &&
            Get(c, "featureNS") == Str(AddonLayerConfig.FeatureNS(o.name.s)) &&
            Get(c, "featureType") == Str(AddonLayerConfig.FeatureType(o.name.s)) &&
            Get(c, "name") == o.title
  {
    var vs := WfsValues(url, version, parentId, o);
    var ks := wfsKeys;
    assert vs[2] == o.title && vs[3] == Str(AddonLayerConfig.FeatureNS(o.name.s)) &&
           vs[4] == Str(AddonLayerConfig.FeatureType(o.name.s)) && vs[5] == o.id && vs[6] == o.id &&
           vs[7] == Str("showAll") && vs[8] == Str("default");
    assert ks[2] == "name" && ks[3] == "featureNS" && ks[4] == "featureType" && ks[5] == "id" &&
           ks[6] == "styleId" && ks[7] == "gfiAttributes" && ks[8] == "gfiTheme";
    assert ks[2] !in ks[..2] && ks[3] !in ks[..3] && ks[4] !in ks[..4] && ks[5] !in ks[..5] &&
           ks[6] !in ks[..6] && ks[7] !in ks[..7] && ks[8] !in ks[..8];
    assert WfsLayerConfig(url, version, parentId, o).value == Zip(ks, vs);
    hide *;
    GetZip(ks, vs, 2);
    GetZip(ks, vs, 3);
    GetZip(ks, vs, 4);
    GetZip(ks, vs, 5);
    GetZip(ks, vs, 6);
    GetZip(ks, vs, 7);
    GetZip(ks, vs, 8);
  }

  /** Both variants build the same WFS config apart from the style and
      feature info entries. */
  lemma WfsVariants(url: JsValue, version: JsValue, parentId: JsValue, o: AddonLayerConfig.LayerOpt)
    requires o.name.Str?
    ensures var c := WfsLayerConfig(url, version, parentId, o).value;
            var a := AddonLayerConfig.WfsLayerConfig(url, version, parentId, o).value;
            c == a[..6] + [("styleId", o.id), ("gfiAttributes", Str("showAll")), ("gfiTheme", Str("default"))] + a[6..]
  {
  }

  function ConfigFor(service: string, url: JsValue, version: JsValue, folderId: JsValue, opt: JsValue): Outcome<JsValue> {
    match AddonLayerConfig.ReadOpt(opt)
    case TypeError => TypeError
    case Ok(o) =>
      if service == "wms" then Ok(Obj(AddonLayerConfig.WmsLayerConfig(url, version, folderId, o)))
      else match WfsLayerConfig(url, version, folderId, o)
        case TypeError => TypeError
        case Ok(c) => Ok(Obj(c))
  }

  /** `createLayerConfigs(service, url, version, folderId, layerOpts)` */
  function CreateLayerConfigs(service: JsValue, url: JsValue, version: JsValue, folderId: JsValue,
                              layerOpts: seq<JsValue>): Outcome<seq<JsValue>> {
    if service == Str("wms") || service == Str("wfs") then MapOutcome(Mapper(service.s, url, version, folderId), layerOpts)
    else Ok([])
  }

  /** The callback `createLayerConfigs` maps over the options. */
  function Mapper(service: string, url: JsValue, version: JsValue, folderId: JsValue): JsValue -> Outcome<JsValue> {
    opt => ConfigFor(service, url, version, folderId, opt)
  }

  lemma MapperApply(service: string, url: JsValue, version: JsValue, folderId: JsValue, opt: JsValue)
    ensures Mapper(service, url, version, folderId)(opt) == ConfigFor(service, url, version, folderId, opt)
  {
  }

  lemma WfsConfigFor(url: JsValue, version: JsValue, folderId: JsValue, opt: JsValue)
    ensures ConfigFor("wfs", url, version, folderId, opt).TypeError? <==>
              AddonLayerConfig.ReadOpt(opt).TypeError? || !AddonLayerConfig.ReadOpt(opt).value.name.Str?
    ensures ConfigFor("wfs", url, version, folderId, opt).Ok? ==>
              ConfigFor("wfs", url, version, folderId, opt).value ==
              Obj(WfsLayerConfig(url, version, folderId, AddonLayerConfig.ReadOpt(opt).value).value)
  {
  }

  lemma CreateWms(url: JsValue, version: JsValue, folderId: JsValue, layerOpts: seq<JsValue>)
    ensures CreateLayerConfigs(Str("wms"), url, version, folderId, layerOpts) == MapOutcome(Mapper("wms", url, version, folderId), layerOpts)
  {
  }

  lemma CreateWfs(url: JsValue, version: JsValue, folderId: JsValue, layerOpts: seq<JsValue>)
    ensures CreateLayerConfigs(Str("wfs"), url, version, folderId, layerOpts) == MapOutcome(Mapper("wfs", url, version, folderId), layerOpts)
  {
  }

  /** WFS: one config per option, in order; a missing option or a name that
      is not a string throws. */
  lemma WfsConfigs(url: JsValue, version: JsValue, folderId: JsValue, layerOpts: seq<JsValue>)
    ensures var r := CreateLayerConfigs(Str("wfs"), url, version, folderId, layerOpts);
            (r.TypeError? <==> exists i :: 0 <= i < |layerOpts| &&
                                  (AddonLayerConfig.ReadOpt(layerOpts[i]).TypeError? ||
                                   !AddonLayerConfig.ReadOpt(layerOpts[i]).value.name.Str?)) &&
            (r.Ok? ==> |r.value| == |layerOpts| &&
                       forall i :: 0 <= i < |layerOpts| ==>
                         r.value[i] == Obj(WfsLayerConfig(url, version, folderId, AddonLayerConfig.ReadOpt(layerOpts[i]).value).value))
  {
    hide *;
    var f := Mapper("wfs", url, version, folderId);
    CreateWfs(url, version, folderId, layerOpts);
    forall i | 0 <= i < |layerOpts|
      ensures f(layerOpts[i]).TypeError? <==> AddonLayerConfig.ReadOpt(layerOpts[i]).TypeError? ||
                                              !AddonLayerConfig.ReadOpt(layerOpts[i]).value.name.Str?
      ensures f(layerOpts[i]).Ok? ==>
                f(layerOpts[i]).value == Obj(WfsLayerConfig(url, version, folderId, AddonLayerConfig.ReadOpt(layerOpts[i]).value).value)
    {
      MapperApply("wfs", url, version, folderId, layerOpts[i]);
      WfsConfigFor(url, version, folderId, layerOpts[i]);
    }
  }

  /** WMS configs are the addon's; any other service gives none. */
  lemma WmsAndOtherConfigs(service: JsValue, url: JsValue, version: JsValue, folderId: JsValue, layerOpts: seq<JsValue>)
    ensures CreateLayerConfigs(Str("wms"), url, version, folderId, layerOpts) ==
            AddonLayerConfig.CreateLayerConfigs(Str("wms"), url, version, folderId, layerOpts)
    ensures service != Str("wms") && service != Str("wfs") ==>
              CreateLayerConfigs(service, url, version, folderId, layerOpts) == Ok([])
  {
    hide *;
    var g := Mapper("wms", url, version, folderId);
    var h := AddonLayerConfig.Mapper("wms", url, version, folderId);
    CreateWms(url, version, folderId, layerOpts);
    AddonLayerConfig.CreateWms(url, version, folderId, layerOpts);
    forall x ensures g(x) == h(x) {
      MapperApply("wms", url, version, folderId, x);
      AddonLayerConfig.MapperApply("wms", url, version, folderId, x);
      SameWmsConfig(url, version, folderId, x);
    }
    SameMap(g, h, layerOpts);
    OtherService(service, url, version, folderId, layerOpts);
  }

  lemma SameWmsConfig(url: JsValue, version: JsValue, folderId: JsValue, opt: JsValue)
    ensures ConfigFor("wms", url, version, folderId, opt) == AddonLayerConfig.ConfigFor("wms", url, version, folderId, opt)
  {
  }

  lemma OtherService(service: JsValue, url: JsValue, version: JsValue, folderId: JsValue, layerOpts: seq<JsValue>)
    ensures service != Str("wms") && service != Str("wfs") ==>
              CreateLayerConfigs(service, url, version, folderId, layerOpts) == Ok([])
  {
  }

  lemma {:induction false} SameMap(f: JsValue -> Outcome<JsValue>, g: JsValue -> Outcome<JsValue>, xs: seq<JsValue>)
    requires forall x :: f(x) == g(x)
    ensures MapOutcome(f, xs) == MapOutcome(g, xs)
    decreases |xs|
  {
    if |xs| > 0 {
      SameMap(f, g, xs[1..]);
    }
  }

  const geoJsonKeys := ["id", "name", "parentId", "styleId", "typ", "type", "url", "gfiAttributes", "gfiTheme",
                        "visibility", "showInLayerTree"]

  function GeoJsonValues(name: JsValue, id: JsValue, parentId: JsValue, url: JsValue): seq<JsValue> {
    [ id, name, parentId, id, Str("GeoJSON"), Str("layer"), url, Str("showAll"), Str("default"), Bool(true), Bool(true) ]
  }

  /** `createGeoJsonLayerConfig(geojson, name, id, parentId)` with the blob
      URL given as `url`. */
  function GeoJsonLayerConfig(name: JsValue, id: JsValue, parentId: JsValue, url: JsValue): Entries {
    Zip(geoJsonKeys, GeoJsonValues(name, id, parentId, url))
  }

  /** A GeoJSON config is styled by its own id and shown in the layer tree. */
  lemma GeoJsonFields(name: JsValue, id: JsValue, parentId: JsValue, url: JsValue)
    ensures var c := GeoJsonLayerConfig(name, id, parentId, url);
            Get(c, "styleId") == id && Get(c, "id") == id && Get(c, "name") == name &&
            Get(c, "visibility") == Bool(true) && Get(c, "showInLayerTree") == Bool(true) &&
            Get(c, "typ") == Str("GeoJSON")
  {
    var vs := GeoJsonValues(name, id, parentId, url);
    var ks := geoJsonKeys;
    assert vs[0] == id && vs[1] == name && vs[3] == id && vs[4] == Str("GeoJSON") && vs[9] == Bool(true) &&
           vs[10] == Bool(true);
    assert ks[1] == "name" && ks[3] == "styleId" && ks[4] == "typ" && ks[9] == "visibility" &&
           ks[10] == "showInLayerTree";
    assert ks[1] !in ks[..1] && ks[3] !in ks[..3] && ks[4] !in ks[..4] && ks[9] !in ks[..9] && ks[10] !in ks[..10];
    assert GeoJsonLayerConfig(name, id, parentId, url) == Zip(ks, vs);
    hide *;
    GetZip(ks, vs, 0);
    GetZip(ks, vs, 1);
    GetZip(ks, vs, 3);
    GetZip(ks, vs, 4);
    GetZip(ks, vs, 9);
    GetZip(ks, vs, 10);
  }

  function NamedConfig(layer: JsValue, key: string, folderId: JsValue, objectUrl: JsValue -> JsValue): Outcome<JsValue> {
    if Prop(layer, key).TypeError? then TypeError
    else Ok(Obj(GeoJsonLayerConfig(Prop(layer, key).value, Prop(layer, key).value, folderId, objectUrl(layer))))
  }

  function NamedConfigs(layers: seq<JsValue>, key: string, folderId: JsValue, objectUrl: JsValue -> JsValue): Outcome<seq<JsValue>> {
    MapOutcome(layer => NamedConfig(layer, key, folderId, objectUrl), layers)
  }

  /** One config per read layer, in order, styled by its own id; a missing
      layer throws. */
  lemma NamedConfigsEach(layers: seq<JsValue>, key: string, folderId: JsValue, objectUrl: JsValue -> JsValue)
    ensures var r := NamedConfigs(layers, key, folderId, objectUrl);
            (r.TypeError? <==> exists i :: 0 <= i < |layers| && (layers[i].Undefined? || layers[i].Null?)) &&
            (r.Ok? ==> |r.value| == |layers| &&
                       forall i :: 0 <= i < |layers| ==>
                         r.value[i] == Obj(GeoJsonLayerConfig(Prop(layers[i], key).value, Prop(layers[i], key).value,
                                                              folderId, objectUrl(layers[i]))))
  {
    var f := layer => NamedConfig(layer, key, folderId, objectUrl);
    assert NamedConfigs(layers, key, folderId, objectUrl) == MapOutcome(f, layers);
    forall i | 0 <= i < |layers|
      ensures f(layers[i]).TypeError? <==> layers[i].Undefined? || layers[i].Null?
      ensures f(layers[i]).Ok? ==>
                f(layers[i]).value == Obj(GeoJsonLayerConfig(Prop(layers[i], key).value, Prop(layers[i], key).value,
                                                             folderId, objectUrl(layers[i])))
    {
    }
    hide *;
  }

  /** `createFileLayerConfigs(filetype, file, layerId, folderId)`; the file
      readers' results and the blob URL are given as in the addon. */
  function FileLayerConfigs(filetype: JsValue, fileName: string, layerId: JsValue, folderId: JsValue, content: JsValue,
                            shapeLayers: seq<JsValue>, featureTables: seq<JsValue>,
                            objectUrl: JsValue -> JsValue): Outcome<seq<JsValue>> {
    if filetype == Str("geojson") then
      Ok([Obj(GeoJsonLayerConfig(Str(AddonLayerConfig.StripExtension(fileName)), layerId, folderId, objectUrl(content)))])
    else if filetype == Str("shapezip") then NamedConfigs(shapeLayers, "fileName", folderId, objectUrl)
    else if filetype == Str("geopackage") then NamedConfigs(featureTables, "tableName", folderId, objectUrl)
    else Ok([])
  }

  /** The GeoJSON file layer is named after the file without its extension
      and styled by the given id; shapefile layers use `fileName` and
      GeoPackage tables `tableName` as both name and id; unknown file types
      give no layers. */
  lemma FileConfigs(filetype: JsValue, fileName: string, layerId: JsValue, folderId: JsValue, content: JsValue,
                    shapeLayers: seq<JsValue>, featureTables: seq<JsValue>, objectUrl: JsValue -> JsValue)
    ensures var r := FileLayerConfigs(Str("geojson"), fileName, layerId, folderId, content, shapeLayers, featureTables, objectUrl);
            r.Ok? && |r.value| == 1 && Get(r.value[0].entries, "name") == Str(AddonLayerConfig.StripExtension(fileName)) &&
            Get(r.value[0].entries, "id") == layerId && Get(r.value[0].entries, "styleId") == layerId
    ensures FileLayerConfigs(Str("shapezip"), fileName, layerId, folderId, content, shapeLayers, featureTables, objectUrl) ==
            NamedConfigs(shapeLayers, "fileName", folderId, objectUrl)
    ensures FileLayerConfigs(Str("geopackage"), fileName, layerId, folderId, content, shapeLayers, featureTables, objectUrl) ==
            NamedConfigs(featureTables, "tableName", folderId, objectUrl)
    ensures !(filetype in {Str("geojson"), Str("shapezip"), Str("geopackage")}) ==>
              FileLayerConfigs(filetype, fileName, layerId, folderId, content, shapeLayers, featureTables, objectUrl) == Ok([])
  {
    GeoJsonFields(Str(AddonLayerConfig.StripExtension(fileName)), layerId, folderId, objectUrl(content));
    hide GeoJsonLayerConfig, NamedConfigs, Get;
  }
}

/** The bulk download addon's actions: the layers offered for download,
    whose `options` are set in place on the shared layer configurations,
    and the two URLs read from the addon's configuration. */
module BulkDownload {
  import opened JsValues
  import PortalConfig

  /** A layer configuration object of `allLayerConfigs`; the addon changes
      it in place, so every holder of the object sees the change. */
  class LayerConfig {
    var props: Entries

    constructor(ps: Entries)
      ensures props == ps
    {
      props := ps;
    }
  }

  /** `layer.bulkDownload === true` */
  predicate OffersDownload(props: Entries) {
    Get(props, "bulkDownload") == Bool(true)
  }

  /** The configurations kept by the filter, in order. */
  function Offered(cs: seq<LayerConfig?>): (r: seq<LayerConfig>)
    requires null !in cs
    reads cs
    ensures forall i :: 0 <= i < |r| ==> r[i] in cs && OffersDownload(r[i].props)
    ensures forall i :: 0 <= i < |cs| && OffersDownload(cs[i].props) ==> cs[i] in r
  {
    if |cs| == 0 then []
    else
      assert forall i :: 1 <= i < |cs| ==> cs[i] == cs[1..][i - 1];
      (if OffersDownload(cs[0].props) then [cs[0]] else []) + Offered(cs[1..])
  }

  /** A single configuration is kept exactly when it offers the download. */
  lemma OfferedSingle(c: LayerConfig)
    ensures Offered([c]) == if OffersDownload(c.props) then [c] else []
  {
    assert [c][1..] == [];
  }

  /** The filter works configuration by configuration: it keeps the order
      of the list and keeps a configuration listed twice twice. */
  lemma {:induction false} OfferedConcat(a: seq<LayerConfig?>, b: seq<LayerConfig?>)
    requires null !in a && null !in b
    ensures Offered(a + b) == Offered(a) + Offered(b)
    decreases |a|
  {
    if |a| == 0 {
      assert a + b == b;
    } else {
      assert (a + b)[0] == a[0] && (a + b)[1..] == a[1..] + b;
      OfferedConcat(a[1..], b);
    }
  }

  /** The hard-coded download options: "1" for the point clouds layer, "2"
      for the image data layer; other layers keep theirs. */
  function WithOptions(props: Entries): Entries {
    if Get(props, "layers") == Str("KAPPAZUNDERLIDAR") then Assign(props, "options", Str("1"))
    else if Get(props, "layers") == Str("KAPPAZUNDERPANO") then Assign(props, "options", Str("2"))
    else props
  }

  /** Only `options` changes, and applying the options twice is applying
      them once (a configuration listed twice is visited twice). */
  lemma WithOptionsRule(props: Entries, k: string)
    ensures Get(props, "layers") == Str("KAPPAZUNDERLIDAR") ==> Get(WithOptions(props), "options") == Str("1")
    ensures Get(props, "layers") == Str("KAPPAZUNDERPANO") ==> Get(WithOptions(props), "options") == Str("2")
    ensures Get(props, "layers") !in {Str("KAPPAZUNDERLIDAR"), Str("KAPPAZUNDERPANO")} ==> WithOptions(props) == props
    ensures k != "options" ==> Get(WithOptions(props), k) == Get(props, k)
    ensures WithOptions(WithOptions(props)) == WithOptions(props)
  {
    OptionsFields(props, k);
    OptionsIdempotent(props);
  }

  lemma OptionsFields(props: Entries, k: string)
    ensures Get(props, "layers") == Str("KAPPAZUNDERLIDAR") ==> Get(WithOptions(props), "options") == Str("1")
    ensures Get(props, "layers") == Str("KAPPAZUNDERPANO") ==> Get(WithOptions(props), "options") == Str("2")
    ensures k != "options" ==> Get(WithOptions(props), k) == Get(props, k)
  {
    GetAssign(props, "options", Str("1"), k);
    GetAssign(props, "options", Str("2"), k);
    GetAssign(props, "options", Str("1"), "options");
    GetAssign(props, "options", Str("2"), "options");
  }

  lemma {:induction false} AssignTwice(e: Entries, key: string, v: JsValue)
    ensures Assign(Assign(e, key, v), key, v) == Assign(e, key, v)
  {
    if |e| > 0 && e[0].0 != key {
      AssignTwice(e[1..], key, v);
      assert Assign(e, key, v) == [e[0]] + Assign(e[1..], key, v);
      assert (Assign(e, key, v))[1..] == Assign(e[1..], key, v);
    } else if |e| > 0 {
      assert (Assign(e, key, v))[1..] == e[1..];
    }
  }

  lemma OptionsIdempotent(props: Entries)
    ensures WithOptions(WithOptions(props)) == WithOptions(props)
  {
    var layers := Get(props, "layers");
    GetAssign(props, "options", Str("1"), "layers");
    GetAssign(props, "options", Str("2"), "layers");
    AssignTwice(props, "options", Str("1"));
    AssignTwice(props, "options", Str("2"));
  }

  /** `initializeLayerForDownload({commit, rootGetters})`: the filter reads
      `bulkDownload` of every configuration (a null one throws before
      anything changes); the kept ones get their options in place. */
  method InitializeLayerForDownload(configs: seq<LayerConfig?>) returns (r: Outcome<seq<LayerConfig>>)
    modifies set c | c in configs && c != null
    ensures r.TypeError? <==> null in configs
    ensures r.TypeError? ==> forall c :: c in configs && c != null ==> c.props == old(c.props)
    ensures r.Ok? ==> null !in configs && r.value == old(Offered(configs))
    ensures r.Ok? ==> forall c :: c in configs && c != null ==>
              c.props == if old(OffersDownload(c.props)) then WithOptions(old(c.props)) else old(c.props)
  {
    var objects: seq<LayerConfig> := [];
    var i := 0;
    while i < |configs|
      invariant 0 <= i <= |configs| && |objects| == i
      invariant forall j :: 0 <= j < i ==> configs[j] != null && objects[j] == configs[j]
    {
      if configs[i] == null {
        return TypeError;
      }
      objects := objects + [configs[i]];
      i := i + 1;
    }
    assert configs == objects;
    var layerForDownload := Offered(configs);
    ApplyOptions(layerForDownload);
    r := Ok(layerForDownload);
  }

  /** `layerForDownload.forEach(...)`: each listed configuration gets its
      options once, however often it is listed. */
  method ApplyOptions(layers: seq<LayerConfig>)
    modifies set c | c in layers
    ensures forall c :: c in layers ==> c.props == WithOptions(old(c.props))
  {
    hide WithOptions;
    var k := 0;
    while k < |layers|
      invariant 0 <= k <= |layers|
      invariant forall c :: c in layers ==>
                  c.props == if c in layers[..k] then WithOptions(old(c.props)) else old(c.props)
    {
      var layer := layers[k];
      OptionsIdempotent(old(layer.props));
      assert layers[..k + 1] == layers[..k] + [layer];
      layer.props := WithOptions(layer.props);
      k := k + 1;
    }
    assert layers[..k] == layers;
  }

  /** A configuration is offered only for the value `true` itself, not for
      other truthy values. */
  lemma StrictlyTrue()
    ensures OffersDownload([("bulkDownload", Bool(true))])
    ensures !OffersDownload([("bulkDownload", Str("true"))])
    ensures !OffersDownload([("bulkDownload", Num(1))])
    ensures !OffersDownload([])
  {
  }

  /** What `initializeUrls` does. */
  datatype UrlsAction =
    | CommitUrls(backendUrl: JsValue, confirmationUrl: JsValue)
    | AlertNoUrls(category: string, title: string, content: string)

  /** `initializeUrls({commit, dispatch})` */
  function InitializeUrls(portalConfig: JsValue): Outcome<UrlsAction> {
    match PortalConfig.Search(portalConfig, "type", Str("bulkDownload"))
    case TypeError => TypeError
    case Ok(config) =>
      var backend := OptionalProp(config, "backendUrl");
      var confirmation := OptionalProp(config, "confirmationUrl");
      if !Truthy(backend) || !Truthy(confirmation) then
        Ok(AlertNoUrls("error", "BulkDownload", "additional:modules.bulkDownload.noUrls"))
      else Ok(CommitUrls(backend, confirmation))
  }

  /** Both URLs are committed, as configured, exactly when both are truthy;
      otherwise one error alert and no commit. */
  lemma InitializeUrlsRule(portalConfig: JsValue)
    requires PortalConfig.Search(portalConfig, "type", Str("bulkDownload")).Ok?
    ensures var config := PortalConfig.Search(portalConfig, "type", Str("bulkDownload")).value;
            var backend := OptionalProp(config, "backendUrl");
            var confirmation := OptionalProp(config, "confirmationUrl");
            && (InitializeUrls(portalConfig).value.CommitUrls? <==> Truthy(backend) && Truthy(confirmation))
            && (InitializeUrls(portalConfig).value.CommitUrls? ==>
                  InitializeUrls(portalConfig).value == CommitUrls(backend, confirmation))
            && (!InitializeUrls(portalConfig).value.CommitUrls? ==>
                  InitializeUrls(portalConfig).value == AlertNoUrls("error", "BulkDownload", "additional:modules.bulkDownload.noUrls"))
  {
  }

  /** With no bulk download configuration found, the alert is raised. */
  lemma NoConfigAlerts(portalConfig: JsValue)
    requires PortalConfig.Search(portalConfig, "type", Str("bulkDownload")) == Ok(Null)
    ensures InitializeUrls(portalConfig).value.AlertNoUrls?
  {
  }
}

/** The road survey tool's mutations. */
module StrassenMutations {
  import opened JsValues
  import opened VuexState
  import TranslationKey

  /** `applyTranslationKey`, with the `indexOf`/`substr` test and cut. */
  method ApplyTranslationKey(state: Store, payload: JsValue) returns (thrown: bool)
    modifies state
    ensures thrown <==> TranslationKey.StripIfContained(payload).TypeError?
    ensures state.values == TranslationKey.Renamed(old(state.values), TranslationKey.StripIfContained(payload))
  {
    var target := TranslationKey.StripIfContained(payload);
    thrown := target.TypeError?;
    if target.Ok? && target.value.Some? {
      state.Set("name", Str(target.value.value));
    }
  }

  /** `setEnnLayer` */
  method SetEnnLayer(state: Store, ennLayer: JsValue)
    modifies state
    ensures state.values == old(state.values)["ennLayer" := ennLayer]
  {
    state.Set("ennLayer", ennLayer);
  }

  /** `setMarkerLayer` */
  method SetMarkerLayer(state: Store, markerLayer: JsValue)
    modifies state
    ensures state.values == old(state.values)["markerLayer" := markerLayer]
  {
    state.Set("markerLayer", markerLayer);
  }

  /** `setCoords` */
  method SetCoords(state: Store, coords: JsValue)
    modifies state
    ensures state.values == old(state.values)["coords" := coords]
  {
    state.Set("coords", coords);
  }

  /** The tests of `applyTranslationKey`: a marked name is replaced by its
      key; an unmarked name and an undefined payload keep the name. */
  lemma TranslationCases(state: Values)
    ensures TranslationKey.Renamed(state, TranslationKey.StripIfContained(
              Str(TranslationKey.marker + "additional:modules.tools.StrassenBefahrung.title")))
            == state["name" := Str("additional:modules.tools.StrassenBefahrung.title")]
    ensures TranslationKey.Renamed(state, TranslationKey.StripIfContained(Str("dies ist ein StrassenBefahrung")))
            == state
    ensures TranslationKey.Renamed(state, TranslationKey.StripIfContained(Undefined)) == state
  {
    TranslationKey.RoadSurveyCases();
  }

  /** The setters write different properties, so their order does not
      matter. */
  lemma SettersCommute(s: Values, ennLayer: JsValue, markerLayer: JsValue, coords: JsValue)
    ensures s["ennLayer" := ennLayer]["markerLayer" := markerLayer]["coords" := coords]
            == s["coords" := coords]["markerLayer" := markerLayer]["ennLayer" := ennLayer]
  {
  }
}

/** The exporter addon's mutations. */
module ExporterMutations {
  import opened JsValues
  import opened VuexState
  import TranslationKey
  import ExporterReset

  /** `applyTranslationKey`, with the `indexOf`/`substr` test and cut;
      `thrown` is true when the test or the cut throws. */
  method ApplyTranslationKey(state: Store, payload: JsValue) returns (thrown: bool)
    modifies state
    ensures thrown <==> TranslationKey.StripIfContained(payload).TypeError?
    ensures state.values == TranslationKey.Renamed(old(state.values), TranslationKey.StripIfContained(payload))
  {
    var target := TranslationKey.StripIfContained(payload);
    thrown := target.TypeError?;
    if target.Ok? && target.value.Some? {
      state.Set("name", Str(target.value.value));
    }
  }

  /** `resetExporterAddon`: the basic values, then those of the layer
      selection and of the download step. */
  method ResetExporterAddon(state: Store)
    modifies state
    ensures state.values == Overwrite(old(state.values), ExporterReset.AllResetValues())
  {
    var resetValues := ExporterReset.AllResetValues();
    state.AssignEach(resetValues);
  }

  /** `resetStep`: reading `payload.stepName` throws for an undefined or null
      payload; otherwise the step's reset values are written. */
  method ResetStep(state: Store, payload: JsValue) returns (thrown: bool)
    modifies state
    ensures thrown <==> payload.Undefined? || payload.Null?
    ensures thrown ==> state.values == old(state.values)
    ensures !thrown ==> state.values == Overwrite(old(state.values),
                                                  ExporterReset.StepResetValues(Prop(payload, "stepName").value))
  {
    var stepName := Prop(payload, "stepName");
    if stepName.TypeError? {
      thrown := true;
    } else {
      thrown := false;
      state.AssignEach(ExporterReset.StepResetValues(stepName.value));
    }
  }

  /** The full reset writes exactly the seven reset keys; the tool's name,
      the supported formats and the finish callback are kept. */
  lemma ResetFrame(s: Values, k: string)
    ensures k in Overwrite(s, ExporterReset.AllResetValues()) <==> k in s || k in ExporterReset.resetKeys
    ensures k !in ExporterReset.resetKeys && k in s ==> Overwrite(s, ExporterReset.AllResetValues())[k] == s[k]
    ensures k in ExporterReset.resetKeys ==> Overwrite(s, ExporterReset.AllResetValues())[k] == Get(ExporterReset.AllResetValues(), k)
  {
    ExporterReset.AllResetKeyList();
    hide ExporterReset.AllResetValues;
    OverwriteFrame(s, ExporterReset.AllResetValues(), k);
  }

  /** The full reset clears the capabilities URL even though the defaults
      have none: the property is written with undefined. */
  lemma ResetClearsCapabilitiesUrl(s: Values)
    ensures "capabilitiesUrl" in Overwrite(s, ExporterReset.AllResetValues())
    ensures Overwrite(s, ExporterReset.AllResetValues())["capabilitiesUrl"] == Undefined
  {
    ExporterReset.AllResetKeys();
    var all := ExporterReset.AllResetValues();
    assert all[3] == ("capabilitiesUrl", Undefined);
    assert forall j :: 0 <= j < 3 ==> all[j].0 != "capabilitiesUrl";
    assert Keys(all)[3] == "capabilitiesUrl";
    hide *;
    OverwriteFrame(s, all, "capabilitiesUrl");
  }

  /** The full reset is idempotent. */
  lemma ResetIdempotent(s: Values)
    ensures Overwrite(Overwrite(s, ExporterReset.AllResetValues()), ExporterReset.AllResetValues())
            == Overwrite(s, ExporterReset.AllResetValues())
  {
    OverwriteIdempotent(s, ExporterReset.AllResetValues());
  }
}

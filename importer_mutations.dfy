/** The importer addon's mutations: each receives the module state and
    changes it in place. */
module ImporterMutations {
  import opened JsValues
  import opened VuexState
  import TranslationKey
  import ImporterReset
  import ImporterWorkflows

  /** `applyTranslationKey`; `thrown` is true when the test itself throws. */
  method ApplyTranslationKey(state: Store, payload: JsValue) returns (thrown: bool)
    modifies state
    ensures thrown <==> TranslationKey.StripIfPrefixed(payload).TypeError?
    ensures state.values == TranslationKey.Renamed(old(state.values), TranslationKey.StripIfPrefixed(payload))
  {
    var target := TranslationKey.StripIfPrefixed(payload);
    thrown := target.TypeError?;
    if target.Ok? && target.value.Some? {
      state.Set("name", Str(target.value.value));
    }
  }

  /** `resetImporterAddon`: every key of the combined reset object is
      written, in its order. */
  method ResetImporterAddon(state: Store)
    modifies state
    ensures state.values == Overwrite(old(state.values), ImporterReset.AllResetValues())
  {
    var resetValues := ImporterReset.AllResetValues();
    state.AssignEach(resetValues);
  }

  /** `resetStep`: reading `payload.stepName` throws for an undefined or null
      payload; otherwise the step's reset values are written. */
  method ResetStep(state: Store, payload: JsValue) returns (thrown: bool)
    modifies state
    ensures thrown <==> payload.Undefined? || payload.Null?
    ensures thrown ==> state.values == old(state.values)
    ensures !thrown ==> state.values == Overwrite(old(state.values),
                                                  ImporterReset.StepResetValues(Prop(payload, "stepName").value))
  {
    var stepName := Prop(payload, "stepName");
    if stepName.TypeError? {
      thrown := true;
    } else {
      thrown := false;
      state.AssignEach(ImporterReset.StepResetValues(stepName.value));
    }
  }

  /** `incrementIdCounter` */
  method IncrementIdCounter(state: Store)
    requires "idCounter" in state.values && state.values["idCounter"].Num?
    modifies state
    ensures state.values == old(state.values)["idCounter" := Num(old(state.values)["idCounter"].n + 1)]
  {
    state.Increment("idCounter");
  }

  /** `setImportedFolderCounter`: the payload is ignored. */
  method SetImportedFolderCounter(state: Store, payload: JsValue)
    requires "importedFolderCounter" in state.values && state.values["importedFolderCounter"].Num?
    modifies state
    ensures state.values == old(state.values)["importedFolderCounter" :=
                                               Num(old(state.values)["importedFolderCounter"].n + 1)]
  {
    state.Increment("importedFolderCounter");
  }

  /** `setGeoJsonFolderCounter`: the payload is ignored. */
  method SetGeoJsonFolderCounter(state: Store, payload: JsValue)
    requires "geoJsonFolderCounter" in state.values && state.values["geoJsonFolderCounter"].Num?
    modifies state
    ensures state.values == old(state.values)["geoJsonFolderCounter" :=
                                               Num(old(state.values)["geoJsonFolderCounter"].n + 1)]
  {
    state.Increment("geoJsonFolderCounter");
  }

  /** `setShapeFileFolderCounter`: the payload is ignored. */
  method SetShapeFileFolderCounter(state: Store, payload: JsValue)
    requires "shapeFileFolderCounter" in state.values && state.values["shapeFileFolderCounter"].Num?
    modifies state
    ensures state.values == old(state.values)["shapeFileFolderCounter" :=
                                               Num(old(state.values)["shapeFileFolderCounter"].n + 1)]
  {
    state.Increment("shapeFileFolderCounter");
  }

  /** `setGeoPackageFolderCounter`: the payload is ignored. */
  method SetGeoPackageFolderCounter(state: Store, payload: JsValue)
    requires "geoPackageFolderCounter" in state.values && state.values["geoPackageFolderCounter"].Num?
    modifies state
    ensures state.values == old(state.values)["geoPackageFolderCounter" :=
                                               Num(old(state.values)["geoPackageFolderCounter"].n + 1)]
  {
    state.Increment("geoPackageFolderCounter");
  }

  const counterKeys: seq<string> := ["idCounter", "importedFolderCounter", "geoJsonFolderCounter",
                                      "shapeFileFolderCounter", "geoPackageFolderCounter"]

  lemma CountersNotReset()
    ensures forall c :: c in counterKeys ==> c !in ImporterReset.resetKeys
  {
  }

  /** The full reset writes exactly the eight reset keys and leaves every
      other property, the counters among them, as it was. */
  lemma ResetFrame(s: Values, k: string)
    ensures k in Overwrite(s, ImporterReset.AllResetValues()) <==> k in s || k in ImporterReset.resetKeys
    ensures k !in ImporterReset.resetKeys && k in s ==> Overwrite(s, ImporterReset.AllResetValues())[k] == s[k]
    ensures k in counterKeys && k in s ==> Overwrite(s, ImporterReset.AllResetValues())[k] == s[k]
  {
    ImporterReset.AllResetKeyList();
    CountersNotReset();
    hide ImporterReset.AllResetValues;
    OverwriteFrame(s, ImporterReset.AllResetValues(), k);
  }

  /** Resetting a step writes only keys of a step's reset values, never a
      counter. */
  lemma ResetStepFrame(s: Values, stepName: JsValue, k: string)
    ensures k in counterKeys && k in s ==> Overwrite(s, ImporterReset.StepResetValues(stepName))[k] == s[k]
  {
    var values := ImporterReset.StepResetValues(stepName);
    assert Keys(values) == [] || Keys(values) == ["capabilitiesUrl"] ||
           Keys(values) == ["selectedLayers", "capabilitiesVersion"] ||
           Keys(values) == ["inputFile", "selectedLayers"];
    assert k in counterKeys ==> !HasKey(values, k);
    hide ImporterReset.StepResetValues, Keys, HasKey;
    OverwriteFrame(s, values, k);
  }

  /** Resetting a step twice is resetting it once. */
  lemma ResetStepIdempotent(s: Values, stepName: JsValue)
    ensures Overwrite(Overwrite(s, ImporterReset.StepResetValues(stepName)), ImporterReset.StepResetValues(stepName))
            == Overwrite(s, ImporterReset.StepResetValues(stepName))
  {
    OverwriteIdempotent(s, ImporterReset.StepResetValues(stepName));
  }

  /** The full reset is idempotent too. */
  lemma ResetIdempotent(s: Values)
    ensures Overwrite(Overwrite(s, ImporterReset.AllResetValues()), ImporterReset.AllResetValues())
            == Overwrite(s, ImporterReset.AllResetValues())
  {
    OverwriteIdempotent(s, ImporterReset.AllResetValues());
  }
}

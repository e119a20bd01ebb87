/** The exporter addon's state defaults and the values each wizard step
    resets. */
module ExporterReset {
  import opened JsValues
  import ExporterWorkflows

  // The defaults the resets read. `DEFAULT_VALUES` has no `capabilitiesUrl`,
  // so reading it gives undefined.
  const defaultCurrentWorkflow := Str(ExporterWorkflows.defaultWorkflow)
  const defaultCurrentStep := Str(ExporterWorkflows.selectLayer)
  const defaultCurrentFormValid := Bool(false)
  const defaultSelectedLayer := Undefined
  const defaultSelectedExportFormat := Undefined

  /** `EXPORTFORMATS` */
  const exportFormats: seq<string> := ["geoJson", "gml", "shp", "gpkg"]

  /** `DEFAULT_VALUES` */
  function DefaultValues(): Entries {
    [ ("currentWorkflow", defaultCurrentWorkflow),
      ("currentStep", defaultCurrentStep),
      ("currentFormValid", defaultCurrentFormValid),
      ("onExportFinished", Undefined),
      ("selectedLayer", defaultSelectedLayer),
      ("layerSelectionList", Arr([])),
      ("supportedExportFormats", Arr([Str(exportFormats[0]), Str(exportFormats[1]),
                                      Str(exportFormats[2]), Str(exportFormats[3])])),
      ("selectedExportFormat", defaultSelectedExportFormat) ]
  }

  /** The initial `state`: the tool's own properties, then the defaults. */
  function InitialState(): Entries {
    [ ("active", Bool(false)),
      ("icon", Str("bi-download")),
      ("id", Str("exporter")),
      ("name", Str("additional:modules.tools.exporterAddon.title")) ]
    + DefaultValues()
  }

  /** `DEFAULT_VALUES.capabilitiesUrl` */
  lemma NoDefaultCapabilitiesUrl()
    ensures !HasKey(DefaultValues(), "capabilitiesUrl")
    ensures Get(DefaultValues(), "capabilitiesUrl") == Undefined
  {
    assert Keys(DefaultValues()) == ["currentWorkflow", "currentStep", "currentFormValid", "onExportFinished",
                                     "selectedLayer", "layerSelectionList", "supportedExportFormats",
                                     "selectedExportFormat"];
  }

  /** `getBasicResetValues()` */
  function BasicResetValues(): Entries {
    [ ("currentWorkflow", defaultCurrentWorkflow),
      ("currentStep", defaultCurrentStep),
      ("currentFormValid", defaultCurrentFormValid),
      ("capabilitiesUrl", Undefined) ]
  }

  /** `getStepResetValues(stepName)`: the switch compares with `===`. */
  function StepResetValues(stepName: JsValue): Entries {
    if stepName == Str(ExporterWorkflows.selectLayer) then
      [("selectedLayer", defaultSelectedLayer), ("layerSelectionList", Arr([]))]
    else if stepName == Str(ExporterWorkflows.downloadLayer) then
      [("selectedExportFormat", defaultSelectedExportFormat)]
    else if stepName == Str(ExporterWorkflows.selectExternalWfsLayer) then
      [("selectedLayer", defaultSelectedLayer), ("layerSelectionList", Arr([]))]
    else []
  }

  /** The object `resetExporterAddon` writes: the basic values spread with
      those of the layer selection and the download step. */
  function AllResetValues(): Entries {
    Spread(Spread(BasicResetValues(),
      StepResetValues(Str(ExporterWorkflows.selectLayer))),
      StepResetValues(Str(ExporterWorkflows.downloadLayer)))
  }

  /** The basic reset goes back to the default workflow's first step, marks
      the form invalid and clears the capabilities URL. */
  lemma BasicReset()
    ensures BasicResetValues() == [ ("currentWorkflow", Str("default")), ("currentStep", Str("selectLayer")),
                                    ("currentFormValid", Bool(false)), ("capabilitiesUrl", Undefined) ]
  {
  }

  /** What each step resets; both layer selection steps reset the same
      values, unknown names reset nothing. */
  lemma StepResets(stepName: JsValue)
    ensures StepResetValues(Str("selectLayer")) == [("selectedLayer", Undefined), ("layerSelectionList", Arr([]))]
    ensures StepResetValues(Str("selectExternalWfsLayer")) == StepResetValues(Str("selectLayer"))
    ensures StepResetValues(Str("downloadLayer")) == [("selectedExportFormat", Undefined)]
    ensures !(stepName in {Str("selectLayer"), Str("selectExternalWfsLayer"), Str("downloadLayer")}) ==>
              StepResetValues(stepName) == []
  {
  }

  const resetKeys: seq<string> := ["currentWorkflow", "currentStep", "currentFormValid", "capabilitiesUrl",
                                    "selectedLayer", "layerSelectionList", "selectedExportFormat"]

  lemma ResetKeysDistinct()
    ensures Distinct(resetKeys)
  {
  }

  lemma ResetAfterSelection(s0: Entries)
    requires s0 == BasicResetValues()
    ensures Spread(s0, StepResetValues(Str(ExporterWorkflows.selectLayer)))
            == s0 + [("selectedLayer", Undefined), ("layerSelectionList", Arr([]))]
    ensures Keys(s0 + [("selectedLayer", Undefined), ("layerSelectionList", Arr([]))]) == resetKeys[..6]
  {
    var s1 := s0 + [("selectedLayer", Undefined)];
    assert StepResetValues(Str(ExporterWorkflows.selectLayer))
           == [("selectedLayer", Undefined), ("layerSelectionList", Arr([]))];
    SpreadTwo(s0, "selectedLayer", Undefined, "layerSelectionList", Arr([]));
    assert Keys(s0) == resetKeys[..4];
    ResetKeysDistinct();
    FreshKey(s0, resetKeys, 4);
    KeysExtend(s0, resetKeys, 4, Undefined);
    FreshKey(s1, resetKeys, 5);
    KeysExtend(s1, resetKeys, 5, Arr([]));
    assert s0 + [("selectedLayer", Undefined), ("layerSelectionList", Arr([]))] == s1 + [("layerSelectionList", Arr([]))];
    hide Spread, StepResetValues;
  }

  lemma ResetAfterDownload(s2: Entries)
    requires Keys(s2) == resetKeys[..6]
    ensures Spread(s2, StepResetValues(Str(ExporterWorkflows.downloadLayer)))
            == s2 + [("selectedExportFormat", Undefined)]
  {
    assert StepResetValues(Str(ExporterWorkflows.downloadLayer)) == [("selectedExportFormat", Undefined)];
    SpreadOne(s2, "selectedExportFormat", Undefined);
    ResetKeysDistinct();
    FreshKey(s2, resetKeys, 6);
    hide Spread, StepResetValues;
  }

  lemma ResetChain()
    ensures AllResetValues() == BasicResetValues() + [("selectedLayer", Undefined), ("layerSelectionList", Arr([]))]
                                + [("selectedExportFormat", Undefined)]
  {
    var s0 := BasicResetValues();
    var s2 := s0 + [("selectedLayer", Undefined), ("layerSelectionList", Arr([]))];
    ResetAfterSelection(s0);
    ResetAfterDownload(s2);
    hide Spread, StepResetValues, Keys, BasicResetValues;
  }

  /** The full reset writes exactly seven properties, in this order. */
  lemma AllResetKeys()
    ensures AllResetValues() == [ ("currentWorkflow", Str("default")), ("currentStep", Str("selectLayer")),
                                  ("currentFormValid", Bool(false)), ("capabilitiesUrl", Undefined),
                                  ("selectedLayer", Undefined), ("layerSelectionList", Arr([])),
                                  ("selectedExportFormat", Undefined) ]
  {
    ResetChain();
    hide AllResetValues;
  }

  /** The keys the full reset writes are the seven reset keys. */
  lemma AllResetKeyList()
    ensures Keys(AllResetValues()) == resetKeys
  {
    AllResetKeys();
    hide AllResetValues;
  }
}

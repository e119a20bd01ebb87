/** The importer addon's state defaults and the values each wizard step
    resets. */
module ImporterReset {
  import opened JsValues
  import ImporterWorkflows

  function Strings(names: seq<string>): (r: seq<JsValue>)
    ensures |r| == |names|
    ensures forall i :: 0 <= i < |names| ==> r[i] == Str(names[i])
  {
    seq(|names|, i requires 0 <= i < |names| => Str(names[i]))
  }

  // The defaults the resets read.
  const defaultCurrentWorkflow := Undefined
  const defaultSelectedWorkflow := Str("wms")
  const defaultCurrentStep := Undefined
  const defaultCapabilitiesUrl := Str("")
  const defaultCapabilitiesVersion := Undefined
  const defaultCurrentFormValid := Bool(false)
  const defaultInputFile := Undefined

  /** `DEFAULT_VALUES` */
  function DefaultValues(): Entries {
    [ ("currentWorkflow", defaultCurrentWorkflow),
      ("selectedWorkflow", defaultSelectedWorkflow),
      ("currentStep", defaultCurrentStep),
      ("capabilitiesUrl", defaultCapabilitiesUrl),
      ("capabilitiesVersion", defaultCapabilitiesVersion),
      ("currentFormValid", defaultCurrentFormValid),
      ("selectedLayers", Arr([])),
      ("layerTreeFolderId", Str("import_folder ")),
      ("idCounter", Num(100)),
      ("importedFolderCounter", Num(0)),
      ("shapeFileFolderCounter", Num(0)),
      ("geoJsonFolderCounter", Num(0)),
      ("geoPackageFolderCounter", Num(0)),
      ("styleFillColor", Arr([Num(104), Num(170), Num(204), Num(1)])),
      ("styleStrokeColor", Arr([Num(153), Num(153), Num(153), Num(1)])),
      ("styleStrokeWidth", Num(5)),
      ("styleCircleRadius", Num(10)),
      ("inputFile", defaultInputFile),
      ("onImportFinished", Undefined),
      ("supportedImportWorkflows", Arr(Strings(ImporterWorkflows.workflowNames))),
      ("fileUploadIcon", Str("bi bi-cloud-arrow-up-fill")),
      ("removeFileIcon", Str("bi bi-x-circle-fill")) ]
  }

  /** The initial `state`: the tool's own properties, then the defaults. */
  function InitialState(): Entries {
    [ ("active", Bool(false)),
      ("icon", Str("bi-upload")),
      ("id", Str("importerAddon")),
      ("type", Str("importerAddon")),
      ("name", Str("additional:modules.tools.importerAddon.title")) ]
    + DefaultValues()
  }

  /** `getBasicResetValues()` */
  function BasicResetValues(): Entries {
    [ ("currentWorkflow", defaultCurrentWorkflow),
      ("selectedWorkflow", defaultSelectedWorkflow),
      ("currentStep", defaultCurrentStep),
      ("currentFormValid", defaultCurrentFormValid) ]
  }

  /** `getStepResetValues(stepName)`: the switch compares with `===`. */
  function StepResetValues(stepName: JsValue): Entries {
    if stepName == Str(ImporterWorkflows.provideOgcService) then
      [("capabilitiesUrl", defaultCapabilitiesUrl)]
    else if stepName == Str(ImporterWorkflows.selectLayers) then
      [("selectedLayers", Arr([])), ("capabilitiesVersion", defaultCapabilitiesVersion)]
    else if stepName == Str(ImporterWorkflows.uploadFile) then
      [("inputFile", defaultInputFile), ("selectedLayers", Arr([]))]
    else []
  }

  /** The object `resetImporterAddon` writes: the basic values spread with
      those of every step. */
  function AllResetValues(): Entries {
    Spread(Spread(Spread(Spread(BasicResetValues(),
      StepResetValues(Str(ImporterWorkflows.provideOgcService))),
      StepResetValues(Str(ImporterWorkflows.selectLayers))),
      StepResetValues(Str(ImporterWorkflows.uploadFile))),
      StepResetValues(Str(ImporterWorkflows.styleLayers)))
  }

  /** The basic reset clears the workflow and step, selects WMS and marks the
      form invalid. */
  lemma BasicReset()
    ensures BasicResetValues() == [ ("currentWorkflow", Undefined), ("selectedWorkflow", Str("wms")),
                                    ("currentStep", Undefined), ("currentFormValid", Bool(false)) ]
  {
  }

  /** What each step resets; the style step and unknown names reset nothing. */
  lemma StepResets(stepName: JsValue)
    ensures StepResetValues(Str("provideOgcService")) == [("capabilitiesUrl", Str(""))]
    ensures StepResetValues(Str("selectLayers")) == [("selectedLayers", Arr([])), ("capabilitiesVersion", Undefined)]
    ensures StepResetValues(Str("uploadFile")) == [("inputFile", Undefined), ("selectedLayers", Arr([]))]
    ensures !(stepName in {Str("provideOgcService"), Str("selectLayers"), Str("uploadFile")}) ==>
              StepResetValues(stepName) == []
  {
  }

  const resetKeys: seq<string> := ["currentWorkflow", "selectedWorkflow", "currentStep", "currentFormValid",
                                    "capabilitiesUrl", "selectedLayers", "capabilitiesVersion", "inputFile"]

  lemma ResetKeysDistinct()
    ensures Distinct(resetKeys)
  {
  }

  lemma ResetAfterOgc(s0: Entries)
    requires s0 == BasicResetValues()
    ensures Keys(s0 + [("capabilitiesUrl", Str(""))]) == resetKeys[..5]
    ensures Spread(s0, StepResetValues(Str(ImporterWorkflows.provideOgcService))) == s0 + [("capabilitiesUrl", Str(""))]
  {
    SpreadOne(s0, "capabilitiesUrl", Str(""));
    assert Keys(s0) == resetKeys[..4];
    ResetKeysDistinct();
    FreshKey(s0, resetKeys, 4);
    KeysExtend(s0, resetKeys, 4, Str(""));
  }

  lemma ResetAfterLayers(s1: Entries)
    requires Keys(s1) == resetKeys[..5]
    ensures Spread(s1, StepResetValues(Str(ImporterWorkflows.selectLayers)))
            == s1 + [("selectedLayers", Arr([])), ("capabilitiesVersion", Undefined)]
    ensures Keys(s1 + [("selectedLayers", Arr([])), ("capabilitiesVersion", Undefined)]) == resetKeys[..7]
  {
    var s2 := s1 + [("selectedLayers", Arr([]))];
    assert StepResetValues(Str(ImporterWorkflows.selectLayers))
           == [("selectedLayers", Arr([])), ("capabilitiesVersion", Undefined)];
    SpreadTwo(s1, "selectedLayers", Arr([]), "capabilitiesVersion", Undefined);
    ResetKeysDistinct();
    FreshKey(s1, resetKeys, 5);
    KeysExtend(s1, resetKeys, 5, Arr([]));
    FreshKey(s2, resetKeys, 6);
    KeysExtend(s2, resetKeys, 6, Undefined);
    assert s1 + [("selectedLayers", Arr([])), ("capabilitiesVersion", Undefined)] == s2 + [("capabilitiesVersion", Undefined)];
    hide Spread, StepResetValues;
  }

  lemma ResetAfterUpload(s1: Entries, s3: Entries)
    requires Keys(s1) == resetKeys[..5] && s3 == s1 + [("selectedLayers", Arr([])), ("capabilitiesVersion", Undefined)]
    ensures Spread(s3, StepResetValues(Str(ImporterWorkflows.uploadFile))) == s3 + [("inputFile", Undefined)]
  {
    ResetAfterLayers(s1);
    assert s3[5].1 == Arr([]);
    var s4 := s3 + [("inputFile", Undefined)];
    assert StepResetValues(Str(ImporterWorkflows.uploadFile))
           == [("inputFile", Undefined), ("selectedLayers", Arr([]))];
    SpreadTwo(s3, "inputFile", Undefined, "selectedLayers", Arr([]));
    ResetKeysDistinct();
    FreshKey(s3, resetKeys, 7);
    assert Assign(s4, "selectedLayers", Arr([])) == s4 by {
      ResetKeysDistinct();
      assert s4[5].0 == Keys(s3)[5] == resetKeys[5];
      forall j | 0 <= j < 5 ensures s4[j].0 != s4[5].0 {
        assert s4[j].0 == Keys(s3)[j] == resetKeys[j];
      }
      AssignAt(s4, 5, Arr([]));
      assert s4[5 := (s4[5].0, Arr([]))] == s4;
    }
    hide Spread, Assign, StepResetValues;
  }

  lemma ResetChain()
    ensures AllResetValues() == BasicResetValues() + [("capabilitiesUrl", Str(""))]
              + [("selectedLayers", Arr([])), ("capabilitiesVersion", Undefined)] + [("inputFile", Undefined)]
  {
    var s0 := BasicResetValues();
    var s1 := s0 + [("capabilitiesUrl", Str(""))];
    var s3 := s1 + [("selectedLayers", Arr([])), ("capabilitiesVersion", Undefined)];
    var s4 := s3 + [("inputFile", Undefined)];
    ResetAfterOgc(s0);
    ResetAfterLayers(s1);
    ResetAfterUpload(s1, s3);
    assert Spread(s4, StepResetValues(Str(ImporterWorkflows.styleLayers))) == s4 by {
      assert StepResetValues(Str(ImporterWorkflows.styleLayers)) == [];
    }
    hide Spread, StepResetValues, Keys, BasicResetValues;
  }

  /** The full reset writes exactly eight properties, in this order. */
  lemma AllResetKeys()
    ensures AllResetValues() == [ ("currentWorkflow", Undefined), ("selectedWorkflow", Str("wms")),
                                  ("currentStep", Undefined), ("currentFormValid", Bool(false)),
                                  ("capabilitiesUrl", Str("")), ("selectedLayers", Arr([])),
                                  ("capabilitiesVersion", Undefined), ("inputFile", Undefined) ]
  {
    ResetChain();
    hide AllResetValues;
  }

  /** The keys the full reset writes are the eight reset keys. */
  lemma AllResetKeyList()
    ensures Keys(AllResetValues()) == resetKeys
  {
    AllResetKeys();
    hide AllResetValues;
  }
}

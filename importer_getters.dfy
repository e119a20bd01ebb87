/** The step-navigation getters of the importer addon's store: where the
    wizard stands in the current workflow and which steps lie before and
    after it, and the names of the layers selected for import. */
module ImporterGetters {
  import opened JsText
  import opened JsValues
  import opened WizardSteps
  import ImporterWorkflows

  /** `WORKFLOWS[state.currentWorkflow]` with the key converted to a string. */
  function Lookup(workflow: JsValue): Option<seq<string>> {
    ImporterWorkflows.Workflow(ToJsString(workflow))
  }

  /** `currentWorkflowSteps`; None is undefined, for a workflow not in the table. */
  function CurrentWorkflowSteps(workflow: JsValue): Option<seq<string>> {
    if workflow == Undefined then Some([]) else Lookup(workflow)
  }

  /** `currentStepInWorkflow`; Ok(None) is undefined. Calling `indexOf` on
      the undefined step list of an unknown workflow throws. */
  function CurrentStepInWorkflow(workflow: JsValue, step: JsValue): Outcome<Option<int>> {
    if workflow == Undefined then Ok(None)
    else match Lookup(workflow)
      case None => TypeError
      case Some(steps) => Ok(Some(IndexOfStep(steps, step)))
  }

  function IsFirstStep(workflow: JsValue, step: JsValue): Outcome<bool> {
    match CurrentStepInWorkflow(workflow, step)
    case TypeError => TypeError
    case Ok(index) => Ok(index.None? || index.value == 0)
  }

  function IsLastStep(workflow: JsValue, step: JsValue): Outcome<bool> {
    match CurrentStepInWorkflow(workflow, step)
    case TypeError => TypeError
    case Ok(index) =>
      Ok(index.Some? && index.value == |CurrentWorkflowSteps(workflow).value| - 1)
  }

  /** `nextWorkflowStep`; `undefined + 1` is NaN and indexes nothing. */
  function NextWorkflowStep(workflow: JsValue, step: JsValue): Outcome<Option<string>> {
    match IsLastStep(workflow, step)
    case TypeError => TypeError
    case Ok(last) =>
      if last then Ok(None)
      else
        var index := CurrentStepInWorkflow(workflow, step).value;
        if index.None? then Ok(None) else Ok(At(CurrentWorkflowSteps(workflow).value, index.value + 1))
  }

  /** `prevWorkflowStep` */
  function PrevWorkflowStep(workflow: JsValue, step: JsValue): Outcome<Option<string>> {
    match IsFirstStep(workflow, step)
    case TypeError => TypeError
    case Ok(first) =>
      if first then Ok(None)
      else Ok(At(CurrentWorkflowSteps(workflow).value, CurrentStepInWorkflow(workflow, step).value.value - 1))
  }

  /** Without a current workflow there are no steps, the wizard counts as on
      its first and not on its last step, and there is no neighbour. */
  lemma NoWorkflow(step: JsValue)
    ensures CurrentWorkflowSteps(Undefined) == Some([])
    ensures CurrentStepInWorkflow(Undefined, step) == Ok(None)
    ensures IsFirstStep(Undefined, step) == Ok(true) && IsLastStep(Undefined, step) == Ok(false)
    ensures PrevWorkflowStep(Undefined, step) == Ok(None) && NextWorkflowStep(Undefined, step) == Ok(None)
  {
  }

  /** In a known workflow the index is the position of the step, or -1
      when the step is not part of it. */
  lemma IndexIsPosition(workflow: JsValue, step: JsValue)
    requires workflow != Undefined && Lookup(workflow).Some?
    ensures var steps := Lookup(workflow).value;
            && CurrentStepInWorkflow(workflow, step).Ok?
            && var i := CurrentStepInWorkflow(workflow, step).value.value;
            && (i == -1 <==> forall j :: 0 <= j < |steps| ==> step != Str(steps[j]))
            && (i >= 0 ==> step == Str(steps[i]))
  {
  }

  /** Step i of a known workflow: first iff i = 0, last iff i = len - 1, and
      the neighbours are the steps at i - 1 and i + 1 where they exist. */
  lemma Neighbours(workflow: JsValue, i: nat)
    requires workflow != Undefined && Lookup(workflow).Some?
    requires i < |Lookup(workflow).value|
    ensures var steps := Lookup(workflow).value;
            var step := Str(steps[i]);
            && IsFirstStep(workflow, step) == Ok(i == 0)
            && IsLastStep(workflow, step) == Ok(i == |steps| - 1)
            && NextWorkflowStep(workflow, step) == Ok(if i == |steps| - 1 then None else Some(steps[i + 1]))
            && PrevWorkflowStep(workflow, step) == Ok(if i == 0 then None else Some(steps[i - 1]))
  {
    var steps := Lookup(workflow).value;
    ImporterWorkflows.WorkflowTable(ToJsString(workflow));
    IndexOfDistinct(steps, i);
  }

  /** Going forward and then back returns to the step left. */
  lemma PrevOfNext(workflow: JsValue, i: nat)
    requires workflow != Undefined && Lookup(workflow).Some?
    requires i + 1 < |Lookup(workflow).value|
    ensures var steps := Lookup(workflow).value;
            && NextWorkflowStep(workflow, Str(steps[i])) == Ok(Some(steps[i + 1]))
            && PrevWorkflowStep(workflow, Str(steps[i + 1])) == Ok(Some(steps[i]))
  {
    Neighbours(workflow, i);
    Neighbours(workflow, i + 1);
  }

  /** A step that is not part of the workflow is neither first nor last,
      has no predecessor, and its successor is the workflow's first step. */
  lemma AbsentStep(workflow: JsValue, step: JsValue)
    requires workflow != Undefined && Lookup(workflow).Some?
    requires forall j :: 0 <= j < |Lookup(workflow).value| ==> step != Str(Lookup(workflow).value[j])
    ensures IsFirstStep(workflow, step) == Ok(false) && IsLastStep(workflow, step) == Ok(false)
    ensures NextWorkflowStep(workflow, step) == Ok(Some(Lookup(workflow).value[0]))
    ensures PrevWorkflowStep(workflow, step) == Ok(None)
  {
    ImporterWorkflows.WorkflowTable(ToJsString(workflow));
  }

  /** A workflow name that is not in the table makes every index getter throw. */
  lemma UnknownWorkflow(workflow: JsValue, step: JsValue)
    requires workflow != Undefined && Lookup(workflow).None?
    ensures CurrentStepInWorkflow(workflow, step).TypeError?
    ensures IsFirstStep(workflow, step).TypeError? && IsLastStep(workflow, step).TypeError?
    ensures NextWorkflowStep(workflow, step).TypeError? && PrevWorkflowStep(workflow, step).TypeError?
  {
  }

  // ---------------------------------------------------------------------
  // selectedLayerNamesFromLayers
  // ---------------------------------------------------------------------

  /** The name one selected layer contributes for a lower-cased workflow. */
  function LayerName(kind: string, layer: JsValue): Outcome<JsValue> {
    if kind == "wms" then Prop(layer, "layers")
    else if kind == "wfs" then
      match (Prop(layer, "featureNS"), Prop(layer, "featureType"))
      case (Ok(ns), Ok(ft)) => Ok(Str(ToJsString(ns) + ":" + ToJsString(ft)))
      case _ => TypeError
    else Prop(layer, "name")
  }

  /** `layers.map(...)` with a callback that may throw. */
  function LayerNames(kind: string, layers: seq<JsValue>): (r: Outcome<seq<JsValue>>)
    ensures r.Ok? ==> |r.value| == |layers|
    decreases |layers|
  {
    if |layers| == 0 then Ok([])
    else
      var head := LayerName(kind, layers[0]);
      var rest := LayerNames(kind, layers[1..]);
      if head.TypeError? || rest.TypeError? then TypeError else Ok([head.value] + rest.value)
  }

  /** `selectedLayerNamesFromLayers`; `toLowerCase` of a non-string throws. */
  function SelectedLayerNamesFromLayers(workflow: JsValue, selectedLayers: seq<JsValue>): Outcome<seq<JsValue>> {
    if !workflow.Str? then TypeError else LayerNames(Lower(workflow.s), selectedLayers)
  }

  /** One name per selected layer, in order: `layers` for WMS,
      `featureNS:featureType` for WFS, `name` otherwise; the workflow is
      compared without regard to case. */
  lemma {:induction false} SelectedLayerNames(w: string, layers: seq<JsValue>, k: nat)
    requires k < |layers|
    requires forall j :: 0 <= j < |layers| ==> layers[j].Obj?
    ensures SelectedLayerNamesFromLayers(Str(w), layers).Ok?
    ensures var names := SelectedLayerNamesFromLayers(Str(w), layers).value;
            var e := layers[k].entries;
            && |names| == |layers|
            && names[k] == (if Lower(w) == "wms" then Get(e, "layers")
                            else if Lower(w) == "wfs" then Str(ToJsString(Get(e, "featureNS")) + ":" + ToJsString(Get(e, "featureType")))
                            else Get(e, "name"))
  {
    LayerNamesOfObjects(Lower(w), layers, k);
  }

  lemma {:induction false} LayerNamesOfObjects(kind: string, layers: seq<JsValue>, k: nat)
    requires k < |layers|
    requires forall j :: 0 <= j < |layers| ==> layers[j].Obj?
    ensures LayerNames(kind, layers).Ok?
    ensures LayerNames(kind, layers).value[k] == LayerName(kind, layers[k]).value
    decreases |layers|
  {
    assert forall j :: 0 <= j < |layers| - 1 ==> layers[1..][j] == layers[j + 1];
    if |layers| > 1 {
      LayerNamesOfObjects(kind, layers[1..], if k == 0 then 0 else k - 1);
    }
  }
}

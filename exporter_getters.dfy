/** The step-navigation getters of the exporter addon's store and the export
    formats offered for the selected layer. */
module ExporterGetters {
  import opened JsValues
  import opened WizardSteps
  import ExporterWorkflows

  /** `WORKFLOWS[state.currentWorkflow]` with the key converted to a string. */
  function Lookup(workflow: JsValue): Option<seq<string>> {
    ExporterWorkflows.Workflow(ToJsString(workflow))
  }

  /** `currentStepInWorkflow`: `indexOf`, so a number and never undefined;
      it throws when the workflow is not in the table. */
  function CurrentStepInWorkflow(workflow: JsValue, step: JsValue): Outcome<int> {
    match Lookup(workflow)
    case None => TypeError
    case Some(steps) => Ok(IndexOfStep(steps, step))
  }

  function IsFirstStep(workflow: JsValue, step: JsValue): Outcome<bool> {
    match CurrentStepInWorkflow(workflow, step)
    case TypeError => TypeError
    case Ok(i) => Ok(i == 0)
  }

  function IsLastStep(workflow: JsValue, step: JsValue): Outcome<bool> {
    match CurrentStepInWorkflow(workflow, step)
    case TypeError => TypeError
    case Ok(i) => Ok(i == |Lookup(workflow).value| - 1)
  }

  function NextStep(workflow: JsValue, step: JsValue): Outcome<Option<string>> {
    match IsLastStep(workflow, step)
    case TypeError => TypeError
    case Ok(last) =>
      if last then Ok(None)
      else Ok(At(Lookup(workflow).value, CurrentStepInWorkflow(workflow, step).value + 1))
  }

  function PrevStep(workflow: JsValue, step: JsValue): Outcome<Option<string>> {
    match IsFirstStep(workflow, step)
    case TypeError => TypeError
    case Ok(first) =>
      if first then Ok(None)
      else Ok(At(Lookup(workflow).value, CurrentStepInWorkflow(workflow, step).value - 1))
  }

  /** The index is the step's position, -1 for a step outside the workflow. */
  lemma IndexIsPosition(workflow: JsValue, step: JsValue)
    requires Lookup(workflow).Some?
    ensures var steps := Lookup(workflow).value;
            && CurrentStepInWorkflow(workflow, step).Ok?
            && var i := CurrentStepInWorkflow(workflow, step).value;
            && (i == -1 <==> forall j :: 0 <= j < |steps| ==> step != Str(steps[j]))
            && (i >= 0 ==> step == Str(steps[i]))
  {
  }

  /** Step i: first iff i = 0, last iff i = len - 1, neighbours at i - 1 and
      i + 1 where they exist. */
  lemma Neighbours(workflow: JsValue, i: nat)
    requires Lookup(workflow).Some? && i < |Lookup(workflow).value|
    ensures var steps := Lookup(workflow).value;
            var step := Str(steps[i]);
            && IsFirstStep(workflow, step) == Ok(i == 0)
            && IsLastStep(workflow, step) == Ok(i == |steps| - 1)
            && NextStep(workflow, step) == Ok(if i == |steps| - 1 then None else Some(steps[i + 1]))
            && PrevStep(workflow, step) == Ok(if i == 0 then None else Some(steps[i - 1]))
  {
    ExporterWorkflows.WorkflowTable(ToJsString(workflow));
    IndexOfDistinct(Lookup(workflow).value, i);
  }

  /** A step outside the workflow is neither first nor last; its successor
      is the first step and it has no predecessor. */
  lemma AbsentStep(workflow: JsValue, step: JsValue)
    requires Lookup(workflow).Some?
    requires forall j :: 0 <= j < |Lookup(workflow).value| ==> step != Str(Lookup(workflow).value[j])
    ensures IsFirstStep(workflow, step) == Ok(false) && IsLastStep(workflow, step) == Ok(false)
    ensures NextStep(workflow, step) == Ok(Some(Lookup(workflow).value[0]))
    ensures PrevStep(workflow, step) == Ok(None)
  {
    ExporterWorkflows.WorkflowTable(ToJsString(workflow));
  }

  /** In the default workflow the layer selection leads to the download and
      back. */
  lemma DefaultWorkflowSteps()
    ensures NextStep(Str("default"), Str("selectLayer")) == Ok(Some("downloadLayer"))
    ensures PrevStep(Str("default"), Str("downloadLayer")) == Ok(Some("selectLayer"))
    ensures NextStep(Str("default"), Str("downloadLayer")) == Ok(None)
    ensures PrevStep(Str("default"), Str("selectLayer")) == Ok(None)
  {
    Neighbours(Str("default"), 0);
    Neighbours(Str("default"), 1);
  }

  // ---------------------------------------------------------------------
  // supportedExportFormatsForSelectedLayer
  // ---------------------------------------------------------------------

  /** `formats.filter(format => supported.includes(format))` */
  function FilterSupported(formats: seq<JsValue>, supported: seq<JsValue>): (r: seq<JsValue>)
    ensures |r| <= |formats|
    decreases |formats|
  {
    if |formats| == 0 then []
    else
      var rest := FilterSupported(formats[1..], supported);
      if Includes(supported, formats[0]) then [formats[0]] + rest else rest
  }

  /** `supported.includes(format)`, comparing with strict equality. */
  predicate Includes(supported: seq<JsValue>, v: JsValue) {
    exists j :: 0 <= j < |supported| && StrictEquals(supported[j], v)
  }

  /** `supportedExportFormatsForSelectedLayer`: nothing without a selected
      layer; `filter` of a missing `exportFormats` array throws. */
  function SupportedExportFormats(selectedLayer: JsValue, supported: seq<JsValue>): Outcome<seq<JsValue>> {
    if !Truthy(selectedLayer) then Ok([])
    else match Prop(selectedLayer, "exportFormats")
      case Ok(Arr(formats)) => Ok(FilterSupported(formats, supported))
      case _ => TypeError
  }

  /** A format is offered iff the layer lists it and it is supported. */
  lemma {:induction false} FilterSupportedMembers(formats: seq<JsValue>, supported: seq<JsValue>, v: JsValue)
    ensures v in FilterSupported(formats, supported) <==> v in formats && Includes(supported, v)
    decreases |formats|
  {
    if |formats| > 0 {
      FilterSupportedMembers(formats[1..], supported, v);
      assert v in formats <==> v == formats[0] || v in formats[1..];
    }
  }

  /** The layer's order is kept: filtering distributes over concatenation. */
  lemma {:induction false} FilterSupportedConcat(a: seq<JsValue>, b: seq<JsValue>, supported: seq<JsValue>)
    ensures FilterSupported(a + b, supported) == FilterSupported(a, supported) + FilterSupported(b, supported)
    decreases |a|
  {
    if |a| == 0 {
      assert a + b == b;
    } else {
      assert (a + b)[1..] == a[1..] + b;
      FilterSupportedConcat(a[1..], b, supported);
      var x, y := FilterSupported(a[1..], supported), FilterSupported(b, supported);
      assert [a[0]] + (x + y) == ([a[0]] + x) + y;
    }
  }

  /** Without a selected layer nothing is offered; with one, exactly its
      supported formats. */
  lemma OfferedFormats(selectedLayer: JsValue, supported: seq<JsValue>, v: JsValue)
    ensures !Truthy(selectedLayer) ==> SupportedExportFormats(selectedLayer, supported) == Ok([])
    ensures selectedLayer.Obj? && Get(selectedLayer.entries, "exportFormats").Arr? ==>
              && SupportedExportFormats(selectedLayer, supported).Ok?
              && (v in SupportedExportFormats(selectedLayer, supported).value <==>
                    v in Get(selectedLayer.entries, "exportFormats").items && Includes(supported, v))
  {
    if selectedLayer.Obj? && Get(selectedLayer.entries, "exportFormats").Arr? {
      FilterSupportedMembers(Get(selectedLayer.entries, "exportFormats").items, supported, v);
    }
  }
}

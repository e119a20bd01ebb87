/** Array operations the wizard getters of the importer and exporter addons
    use on a workflow's list of step names. */
module WizardSteps {
  import opened JsValues

  /** `steps.indexOf(step)`: the first position holding a string strictly
      equal to `step`, or -1. */
  function IndexOfStep(steps: seq<string>, step: JsValue): (i: int)
    ensures -1 <= i < |steps|
    ensures i >= 0 ==> step == Str(steps[i]) && forall j :: 0 <= j < i ==> step != Str(steps[j])
    ensures i == -1 ==> forall j :: 0 <= j < |steps| ==> step != Str(steps[j])
    decreases |steps|
  {
    if |steps| == 0 then -1
    else if step == Str(steps[0]) then 0
    else
      var rest := IndexOfStep(steps[1..], step);
      if rest == -1 then -1 else rest + 1
  }

  /** `steps[i]`: undefined outside the array. */
  function At(steps: seq<string>, i: int): (r: Option<string>)
    ensures r.Some? <==> 0 <= i < |steps|
    ensures r.Some? ==> r.value == steps[i]
  {
    if 0 <= i < |steps| then Some(steps[i]) else None
  }

  /** In a list without repetitions a step is found at its own position. */
  lemma IndexOfDistinct(steps: seq<string>, i: nat)
    requires Distinct(steps) && i < |steps|
    ensures IndexOfStep(steps, Str(steps[i])) == i
  {
  }
}

/** The exporter addon's workflows: for each export kind, the wizard steps
    in order. */
module ExporterWorkflows {
  import opened JsValues
  import opened WizardSteps

  const selectLayer := "selectLayer"
  const selectExternalWfsLayer := "selectExternalWfsLayer"
  const downloadLayer := "downloadLayer"

  /** `WORKFLOW_NAMES` */
  const defaultWorkflow := "default"
  const externalWfs := "externalWfs"

  /** `WORKFLOWS[name]`, undefined for a name that is not in the table. */
  function Workflow(name: string): Option<seq<string>> {
    if name == defaultWorkflow then Some([selectLayer, downloadLayer])
    else if name == externalWfs then Some([selectExternalWfsLayer, downloadLayer])
    else None
  }

  /** Both workflows are two distinct steps ending with the download. */
  lemma WorkflowTable(name: string)
    ensures Workflow(name).Some? <==> name == defaultWorkflow || name == externalWfs
    ensures Workflow(name).Some? ==>
              |Workflow(name).value| == 2 && Distinct(Workflow(name).value) && Workflow(name).value[1] == downloadLayer
  {
  }
}

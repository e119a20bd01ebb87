/** The importer addon's workflows: for each import kind, the wizard steps
    in order. */
module ImporterWorkflows {
  import opened JsValues
  import opened WizardSteps

  const provideOgcService := "provideOgcService"
  const selectLayers := "selectLayers"
  const styleLayers := "styleLayers"
  const uploadFile := "uploadFile"

  /** `WORKFLOWS[name]`, undefined for a name that is not in the table. */
  function Workflow(name: string): Option<seq<string>> {
    if name == "wms" then Some([provideOgcService, selectLayers])
    else if name == "wfs" then Some([provideOgcService, selectLayers, styleLayers])
    else if name == "geojson" || name == "shapezip" || name == "geopackage" then Some([uploadFile, styleLayers])
    else None
  }

  /** `getWorkflowNames()`: `Object.keys(WORKFLOWS)`. */
  const workflowNames: seq<string> := ["wms", "wfs", "geojson", "shapezip", "geopackage"]

  /** The table lists exactly the named workflows, each a non-empty list of
      distinct steps. */
  lemma WorkflowTable(name: string)
    ensures Workflow(name).Some? <==> name in workflowNames
    ensures Workflow(name).Some? ==> |Workflow(name).value| >= 2 && Distinct(Workflow(name).value)
  {
  }
}

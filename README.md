# Masterportal addons: shapefile writer, wizard state and helpers, in Dafny

This project models the computational core of a set of Masterportal addons
(importer, exporter, WFS-T uploader, WFS sum query, bulk download, road
survey) together with the PolyLine/Polygon record writer of the vendored
`@crmackey/shp-write` library they use for shapefile export.

- `shp_poly.dfy` (module `ShpPoly`): `write` lays out one main-file (SHP)
  record and one index (SHX) entry per geometry, as the ESRI Shapefile
  Technical Description (July 1998) prescribes in its sections "Main File
  Record Headers", "PolyLine", "Polygon", "PolyLineZ", "PolygonZ" and
  "Organization of the Index File". A DataView is a class whose state is the
  history of its `setInt32`/`setFloat64` writes; what the buffer holds is
  that history applied in order to a map from byte offset to typed slot.
  `write` and its helpers are methods with loops, proved against functions
  that list the writes of a record and of a whole file; lemmas about those
  functions show that the records tile the main file without gaps or
  overlaps, that each index entry points at its record, and how
  `shpLength` relates to the bytes written.
- `js_text.dfy` and `js_values.dfy` hold the JavaScript string operations
  and the JavaScript value model (objects as ordered property lists) the
  addon modules share.

- Wizard state of the importer and the exporter. The step lists of each
  workflow (`importer_workflows.dfy`, `exporter_workflows.dfy`) and the index
  arithmetic over them (`wizard_steps.dfy`) support the getters in
  `importer_getters.dfy` and `exporter_getters.dfy`. The reset tables
  (`importer_reset.dfy`, `exporter_reset.dfy`) drive the reset mutations in
  `importer_mutations.dfy` and `exporter_mutations.dfy`. The road survey
  mutations are in `strassen_mutations.dfy`.
  - A Vuex state is a class whose field is a map from state key to value
    (`vuex_state.dfy`).
  - `translation_key.dfy` holds the two ways the addons strip the
    `translate#` marker from a translation key: the importer tests for a
    prefix, the exporter and the road survey for the marker anywhere. The
    `additional:` namespace behind the marker stays in the key.
  - The importer's reset tables are taken from
    `ImporterAddon/utils/resetStep.js`, which the importer's mutations
    (`importer/store/mutationsImporterAddon.js`) use as their own
    `utils/resetStep.js`. The MIME-type table is taken from
    `importer/constants/mimetypes.js`, which `ImporterAddon/utils/file.js`
    uses as its own `constants/mimetypes.js`. The importer's default values
    are taken from `ImporterAddon/store/stateImporterAddon.js`, which
    `importer/store/mutationsImporterAddon.js` imports as its own
    `./stateImporterAddon`. The workflow table is taken from
    `importer/constants/workflows.js`, which
    `ImporterAddon/store/gettersImporterAddon.js` imports as its own
    `../constants/workflows`. The workflow names are taken from
    `importer/utils/workflows.js`, which
    `ImporterAddon/store/stateImporterAddon.js` imports as its own
    `../utils/workflows`. In each case the two copies are taken to be
    equal.
- The shapefile writer's GeoJSON front end (`shp_geojson.dfy`: the geometry
  filter, the coordinate justification and the point and poly variants)
  and its option handling (`shp_options.dfy`).
- Importer helpers:
  - the file type test (`importer_file.dfy`);
  - the hex and RGB colour conversion (`importer_color.dfy`);
  - the unique layer names (`process_layers.dfy`);
  - the layer configurations of both importer variants (`layer_config.dfy`);
  - the capabilities helpers of the importer and the exporter, including
    the capabilities URL builder as a method on a search-parameter list
    (`capabilities.dfy`).
- The exporter's download paths (`download.dfy`). The GeoPackage property
  filter and id fill are methods on a feature collection whose properties
  change in place.
- The WFS-T geometry compatibility and highlight tables
  (`wfst_geometry.dfy`) and the size converter of the WienGfi addon
  (`wiengfi_converters.dfy`).
- The configuration search both addons share (`portal_config.dfy`), the
  sum query actions (`wfs_sum_query.dfy`) and the bulk download actions
  (`bulk_download.dfy`). In the bulk download actions, layer
  configurations are objects changed in place.

The members of `JsText` and `JsValues` model JavaScript built-ins:
`toLowerCase`, `split`, `includes`, property reads, truthiness, `===`, and
object spread and assignment. They carry contracts, but they model no
file of the repository and have no rows below.

## Model

| member | source | states |
|---|---|---|
| ShpPoly.ToInt32 | exporter/node_modules/@crmackey/shp-write/src/poly.js:40-55 | the value a DataView stores for an integer lies in the signed 32-bit range and is the integer itself when it already fits |
| ShpPoly.TruncHalf | exporter/node_modules/@crmackey/shp-write/src/poly.js:40-47 | halving an even length is exact; halving a non-negative one is floor division |
| ShpPoly.DataView.SetInt32 | exporter/node_modules/@crmackey/shp-write/src/poly.js:40-48 | one 32-bit write is appended to the view's history, big-endian unless littleEndian, with ToInt32 applied to the value |
| ShpPoly.DataView.SetFloat64 | exporter/node_modules/@crmackey/shp-write/src/poly.js:49-52 | one little-endian double write is appended to the view's history |
| ShpPoly.Write | exporter/node_modules/@crmackey/shp-write/src/poly.js:4-19 | the two views receive exactly the main-file and index-file write lists of all records in order, and their contents become the old contents with those writes applied |
| ShpPoly.NextRecord | exporter/node_modules/@crmackey/shp-write/src/poly.js:11-13 | after a record the main-file cursor has grown by contentLength + 8, the index cursor by 8, and the file write lists by this record's writes and index entry |
| ShpPoly.WritePoly | exporter/node_modules/@crmackey/shp-write/src/poly.js:22-111 | record i appends its index entry (offset/2, contentLength/2) to the index view and its record writes to the main view; the cursors advance by 8, by contentLength + 8 and by contentLength + 8 |
| ShpPoly.WriteRecord | exporter/node_modules/@crmackey/shp-write/src/poly.js:46-110 | the record writes are header, part indices, XY points and, for Z types, the Z and M blocks; the cursor ends 56 + 4(parts-1) + 16n (+ 32 + 16n for Z) bytes after the record start |
| ShpPoly.WriteHeader | exporter/node_modules/@crmackey/shp-write/src/poly.js:46-55 | record number and content length big-endian at +0 and +4; type, box, part count, point count and first part index little-endian at +8 .. +52 |
| ShpPoly.WritePartIndices | exporter/node_modules/@crmackey/shp-write/src/poly.js:57-77 | part p (1 <= p < parts) gets the total length of the top-level entries before p at byte 52 + 4p |
| ShpPoly.WriteLine | exporter/node_modules/@crmackey/shp-write/src/poly.js:81-86 | X then Y of every flattened position, 16 bytes per position, a missing coordinate stored as NaN |
| ShpPoly.WriteZM | exporter/node_modules/@crmackey/shp-write/src/poly.js:88-110 | zmin, zmax, the Z values, mmin, mmax, the M values, in this order and contiguously |
| ShpPoly.WriteMeasures | exporter/node_modules/@crmackey/shp-write/src/poly.js:94-109 | one double per position, p[j] or 0 when missing, 8 bytes apart |
| ShpPoly.PartLengths | exporter/node_modules/@crmackey/shp-write/src/poly.js:57-69 | the part scan yields one length per top-level entry |
| ShpPoly.ContentLengths | exporter/node_modules/@crmackey/shp-write/src/poly.js:23-33 | one content length per geometry |
| ShpPoly.ContentLengthEven | exporter/node_modules/@crmackey/shp-write/src/poly.js:23-33 | every content length is even and at least 48, so contentLength/2 is exact |
| ShpPoly.ContentLengthsEven | exporter/node_modules/@crmackey/shp-write/src/poly.js:23-33 | every record of a file has an even content length of at least 48 |
| ShpPoly.RecordsLengthEven | exporter/node_modules/@crmackey/shp-write/src/poly.js:43-44 | the main-file cursor is even at every record start, so shxOffset/2 is exact |
| ShpPoly.RecordsLengthGrows | exporter/node_modules/@crmackey/shp-write/src/poly.js:43-44 | the record start offsets strictly increase |
| ShpPoly.IndexOffsetsIncrease | exporter/node_modules/@crmackey/shp-write/src/poly.js:40-44 | the byte offsets of the records, before the index halves them, strictly increase from entry to entry |
| ShpPoly.StoredOffsetsIncrease | exporter/node_modules/@crmackey/shp-write/src/poly.js:40-44 | while the main file stays below 2^32 bytes, the halved 32-bit offsets stored in the index are positive and strictly increase from entry to entry |
| ShpPoly.HalvedOffsetsIncrease | exporter/node_modules/@crmackey/shp-write/src/poly.js:40 | halving two offsets below 2^32 that are at least 2 apart, as `setInt32(shxI, shxOffset / 2)` does, keeps them apart and in the 32-bit range |
| ShpPoly.HeaderTiles | exporter/node_modules/@crmackey/shp-write/src/poly.js:46-55 | the ten header writes fill bytes 0 .. 56 of the record without gap or overlap |
| ShpPoly.PartIndexTiles | exporter/node_modules/@crmackey/shp-write/src/poly.js:66-77 | the part index entries fill the 4(parts-1) bytes after the header |
| ShpPoly.PointWritesTiles | exporter/node_modules/@crmackey/shp-write/src/poly.js:81-86 | the XY writes fill 16n bytes |
| ShpPoly.MeasureWritesTiles | exporter/node_modules/@crmackey/shp-write/src/poly.js:94-98 | a Z or M value block fills 8n bytes |
| ShpPoly.ZMTiles | exporter/node_modules/@crmackey/shp-write/src/poly.js:88-110 | the Z and M blocks fill 32 + 16n bytes |
| ShpPoly.RecordLayoutTiles | exporter/node_modules/@crmackey/shp-write/src/poly.js:29-33 | a record fills exactly contentLength + 8 bytes from its start |
| ShpPoly.RecordTiles | exporter/node_modules/@crmackey/shp-write/src/poly.js:22-111 | the writes for a geometry fill exactly its contentLength + 8 bytes |
| ShpPoly.IndexTiles | exporter/node_modules/@crmackey/shp-write/src/poly.js:40-41 | an index entry fills 8 bytes |
| ShpPoly.ShpWritesUpToTile | exporter/node_modules/@crmackey/shp-write/src/poly.js:19-79 | the first n records fill the main file from byte 0 up to the sum of their lengths |
| ShpPoly.ShpWritesTile | exporter/node_modules/@crmackey/shp-write/src/poly.js:19-79 | all records are contiguous and fill exactly the sum of contentLength + 8 |
| ShpPoly.IndexFileTiles | exporter/node_modules/@crmackey/shp-write/src/poly.js:40-43 | n entries fill the index from 0 to 8n |
| ShpPoly.ShxWritesTile | exporter/node_modules/@crmackey/shp-write/src/poly.js:138-140 | the index writes fill exactly shxLength bytes |
| ShpPoly.FileHoldsEveryWrite | exporter/node_modules/@crmackey/shp-write/src/poly.js:40-109 | in a tiled file no write is overwritten and nothing outside the file changes |
| ShpPoly.RecordHead | exporter/node_modules/@crmackey/shp-write/src/poly.js:46-48 | a record begins with its number, its length in 16-bit words and its type |
| ShpPoly.RecordInMainFile | exporter/node_modules/@crmackey/shp-write/src/poly.js:46-48 | after write, the main file holds at the start of record k the number k + 1, half its content length and the shape type |
| ShpPoly.EntryInIndexFile | exporter/node_modules/@crmackey/shp-write/src/poly.js:40-44 | after write, index entry k at byte 8k holds half of 100 + the start of record k and half its content length |
| ShpPoly.IndexEntryLocatesRecord | exporter/node_modules/@crmackey/shp-write/src/poly.js:40-48 | index entry k points at record k: both halvings are exact and twice the stored offset is 100 + the byte where record k's header sits |
| ShpPoly.SumPrefixMonotone | exporter/node_modules/@crmackey/shp-write/src/poly.js:67-69 | part index values never decrease |
| ShpPoly.FlattenPrefix | exporter/node_modules/@crmackey/shp-write/src/poly.js:161-171 | flattening the first rings gives a prefix of the flattened geometry |
| ShpPoly.FlattenLength | exporter/node_modules/@crmackey/shp-write/src/poly.js:161-171 | the flattened first p rings have the length the part index assigns to part p |
| ShpPoly.RingsFlattenInOrder | exporter/node_modules/@crmackey/shp-write/src/poly.js:161-171 | ring p occupies exactly the flattened points between its part index and the next, and the point count is the sum of the ring lengths |
| ShpPoly.PartCountWritten | exporter/node_modules/@crmackey/shp-write/src/poly.js:23-55 | the part count written at byte 44 of every record is 1 for the polyline types and the number of rings otherwise, and the first part index, at byte 52, is 0 |
| ShpPoly.RecordHeaderTail | exporter/node_modules/@crmackey/shp-write/src/poly.js:53-55 | the header of a record holds its part count at byte 44 and the first part index 0 at byte 52 |
| ShpPoly.PartIndexShape | exporter/node_modules/@crmackey/shp-write/src/poly.js:64-74 | between consecutive parts of a record with more than one part, the part index never decreases, and for polygon records it stays within the point count |
| ShpPoly.FoldExtentConcat | exporter/node_modules/@crmackey/shp-write/src/poly.js:142-146 | the extent of concatenated rings is the fold continued ring after ring |
| ShpPoly.ShpLength | exporter/node_modules/@crmackey/shp-write/src/poly.js:114-136 | the loop returns the sum, over geometries, of 52 + 4·(top-level entries) + 16n (+ 32 + 16n for Z) |
| ShpPoly.ShpLengthCorrected | exporter/node_modules/@crmackey/shp-write/src/poly.js:114-136 | with the record's part count the same loop returns exactly the bytes write fills |
| ShpPoly.Surplus | exporter/node_modules/@crmackey/shp-write/src/poly.js:124 | one surplus count per geometry |
| ShpPoly.AsWrittenExcess | exporter/node_modules/@crmackey/shp-write/src/poly.js:124-130 | for one geometry shpLength counts contentLength + 8 plus 4 bytes per top-level entry beyond the part count |
| ShpPoly.ShpLengthExcess | exporter/node_modules/@crmackey/shp-write/src/poly.js:114-136 | shpLength exceeds the bytes written by 4 bytes per surplus top-level entry |
| ShpPoly.PartsExactLast | exporter/node_modules/@crmackey/shp-write/src/poly.js:124 | every geometry has as many entries as parts iff the prefix does and the last one does |
| ShpPoly.ShpLengthExactIff | exporter/node_modules/@crmackey/shp-write/src/poly.js:114-136 | shpLength is never below the bytes written, and equals them iff every geometry has as many top-level entries as parts |
| ShpPoly.ShpLengthMismatch | exporter/node_modules/@crmackey/shp-write/src/poly.js:124-126 | for the line [[0,0],[1,1]] as a POLYLINE, shpLength gives 92 where write fills 88 |
| WizardSteps.IndexOfStep | ImporterAddon/store/gettersImporterAddon.js:44 | the result is -1 or a position whose step is strictly equal to the one sought with no earlier such position; -1 exactly when no step is equal |
| WizardSteps.At | ImporterAddon/store/gettersImporterAddon.js:91 | reading a step list at an index gives that step inside the list and undefined outside it |
| WizardSteps.IndexOfDistinct | exporter/store/gettersExporterAddon.js:9 | in a list without repeated steps each step is found at its own position |
| ExporterWorkflows.WorkflowTable | exporter/constants/workflows.js:3-12 | exactly "default" and "externalWfs" have a workflow; each has two distinct steps and ends with the download step |
| ImporterWorkflows.WorkflowTable | importer/constants/workflows.js:3-9 | exactly the five names returned by getWorkflowNames (importer/utils/workflows.js:8-10) have a workflow; each is at least two distinct steps |
| ImporterGetters.CurrentWorkflowSteps | ImporterAddon/store/gettersImporterAddon.js:26-31 | no contract of its own; specified by ImporterGetters.NoWorkflow, ImporterGetters.UnknownWorkflow |
| ImporterGetters.CurrentStepInWorkflow | ImporterAddon/store/gettersImporterAddon.js:40-47 | no contract of its own; specified by ImporterGetters.NoWorkflow, ImporterGetters.IndexIsPosition, ImporterGetters.UnknownWorkflow |
| ImporterGetters.IsFirstStep | ImporterAddon/store/gettersImporterAddon.js:56-62 | no contract of its own; specified by ImporterGetters.NoWorkflow, ImporterGetters.Neighbours, ImporterGetters.AbsentStep, ImporterGetters.UnknownWorkflow |
| ImporterGetters.IsLastStep | ImporterAddon/store/gettersImporterAddon.js:71-77 | no contract of its own; specified by ImporterGetters.NoWorkflow, ImporterGetters.Neighbours, ImporterGetters.AbsentStep, ImporterGetters.UnknownWorkflow |
| ImporterGetters.NextWorkflowStep | ImporterAddon/store/gettersImporterAddon.js:86-92 | no contract of its own; specified by ImporterGetters.NoWorkflow, ImporterGetters.Neighbours, ImporterGetters.PrevOfNext, ImporterGetters.AbsentStep, ImporterGetters.UnknownWorkflow |
| ImporterGetters.PrevWorkflowStep | ImporterAddon/store/gettersImporterAddon.js:101-107 | no contract of its own; specified by ImporterGetters.NoWorkflow, ImporterGetters.Neighbours, ImporterGetters.PrevOfNext, ImporterGetters.AbsentStep, ImporterGetters.UnknownWorkflow |
| ImporterGetters.NoWorkflow | ImporterAddon/store/gettersImporterAddon.js:15-107 | without a current workflow the step list is empty, the index is undefined, the wizard is on its first and not its last step, and there is no next or previous step |
| ImporterGetters.IndexIsPosition | ImporterAddon/store/gettersImporterAddon.js:40-47 | in a known workflow the index is -1 iff the current step is not in it, else a position holding the current step |
| ImporterGetters.Neighbours | ImporterAddon/store/gettersImporterAddon.js:56-107 | on step i of a known workflow: first iff i = 0, last iff i is the last position, next step i + 1 and previous step i - 1 where they exist, undefined otherwise |
| ImporterGetters.PrevOfNext | ImporterAddon/store/gettersImporterAddon.js:86-107 | moving to the next step and then to the previous one returns to the step left |
| ImporterGetters.AbsentStep | ImporterAddon/store/gettersImporterAddon.js:56-107 | a step outside the workflow (index -1) is neither first nor last, its next step is the workflow's first step and it has no previous step |
| ImporterGetters.UnknownWorkflow | ImporterAddon/store/gettersImporterAddon.js:26-47 | a defined workflow name missing from the table makes indexOf run on undefined, so the index getters all throw |
| ImporterGetters.LayerNames | ImporterAddon/store/gettersImporterAddon.js:127-137 | a mapping that does not throw gives one name per selected layer |
| ImporterGetters.SelectedLayerNamesFromLayers | ImporterAddon/store/gettersImporterAddon.js:127-137 | no contract of its own; specified by ImporterGetters.SelectedLayerNames |
| ImporterGetters.SelectedLayerNames | ImporterAddon/store/gettersImporterAddon.js:127-137 | for object layers the k-th name is `layers` for WMS, `featureNS:featureType` for WFS and `name` otherwise, the workflow compared after lower-casing |
| ImporterGetters.LayerNamesOfObjects | ImporterAddon/store/gettersImporterAddon.js:130-135 | mapping object layers never throws and the k-th result is the k-th layer's name |
| ExporterGetters.CurrentStepInWorkflow | exporter/store/gettersExporterAddon.js:8-12 | no contract of its own; specified by ExporterGetters.IndexIsPosition |
| ExporterGetters.IndexIsPosition | exporter/store/gettersExporterAddon.js:8-12 | in a known workflow the index is -1 iff the current step is not in it, else a position holding the current step |
| ExporterGetters.IsFirstStep | exporter/store/gettersExporterAddon.js:21-27 | no contract of its own; specified by ExporterGetters.Neighbours, ExporterGetters.AbsentStep |
| ExporterGetters.IsLastStep | exporter/store/gettersExporterAddon.js:36-42 | no contract of its own; specified by ExporterGetters.Neighbours, ExporterGetters.AbsentStep |
| ExporterGetters.NextStep | exporter/store/gettersExporterAddon.js:51-57 | no contract of its own; specified by ExporterGetters.Neighbours, ExporterGetters.AbsentStep, ExporterGetters.DefaultWorkflowSteps |
| ExporterGetters.PrevStep | exporter/store/gettersExporterAddon.js:66-72 | no contract of its own; specified by ExporterGetters.Neighbours, ExporterGetters.AbsentStep, ExporterGetters.DefaultWorkflowSteps |
| ExporterGetters.Neighbours | exporter/store/gettersExporterAddon.js:21-72 | on step i: first iff i = 0, last iff i is the last position, next and previous steps at i + 1 and i - 1 where they exist |
| ExporterGetters.AbsentStep | exporter/store/gettersExporterAddon.js:21-72 | a step outside the workflow is neither first nor last; its next step is the first step and it has no previous step |
| ExporterGetters.DefaultWorkflowSteps | exporter/store/gettersExporterAddon.js:51-72 | in the default workflow the layer selection leads to the download and back, with nothing before the first or after the last step |
| ExporterGetters.FilterSupported | exporter/store/gettersExporterAddon.js:85-86 | the filter never lengthens the list of formats |
| ExporterGetters.FilterSupportedMembers | exporter/store/gettersExporterAddon.js:85-86 | a format is kept iff the layer lists it and the supported list includes it |
| ExporterGetters.FilterSupportedConcat | exporter/store/gettersExporterAddon.js:85-86 | the filter keeps the layer's order: it distributes over concatenation |
| ExporterGetters.SupportedExportFormats | exporter/store/gettersExporterAddon.js:80-89 | no contract of its own; specified by ExporterGetters.OfferedFormats |
| ExporterGetters.OfferedFormats | exporter/store/gettersExporterAddon.js:80-89 | without a selected layer nothing is offered; with one, exactly the formats it lists that are supported |
| ImporterReset.BasicResetValues | ImporterAddon/utils/resetStep.js:9-16 | no contract of its own; specified by ImporterReset.BasicReset, ImporterReset.ResetChain |
| ImporterReset.BasicReset | ImporterAddon/utils/resetStep.js:9-16 | the basic reset clears the workflow and the step, selects the WMS workflow and marks the form invalid, read from the defaults at ImporterAddon/store/stateImporterAddon.js:3-9 |
| ImporterReset.StepResetValues | ImporterAddon/utils/resetStep.js:24-53 | no contract of its own; specified by ImporterReset.StepResets |
| ImporterReset.StepResets | ImporterAddon/utils/resetStep.js:24-53 | the OGC step resets the capabilities URL, the layer step a fresh empty selection and the version, the upload step the file and a fresh selection; the style step and any other name reset nothing |
| ImporterReset.AllResetValues | importer/store/mutationsImporterAddon.js:34-45 | no contract of its own; specified by ImporterReset.ResetChain, ImporterReset.AllResetKeys, ImporterReset.AllResetKeyList |
| ImporterReset.ResetChain | importer/store/mutationsImporterAddon.js:34-45 | spreading the basic and the four step objects appends each step's new keys in order, the upload step's repeated `selectedLayers` keeping its first place |
| ImporterReset.AllResetKeys | importer/store/mutationsImporterAddon.js:34-45 | the combined reset object is exactly eight properties with their default values, in this order |
| ImporterReset.AllResetKeyList | importer/store/mutationsImporterAddon.js:39-45 | the keys of the combined reset object are the eight distinct reset keys |
| ExporterReset.NoDefaultCapabilitiesUrl | exporter/store/stateExporterAddon.js:5-19 | the exporter defaults have no `capabilitiesUrl`, so reading it gives undefined |
| ExporterReset.BasicResetValues | exporter/utils/resetStep.js:9-16 | no contract of its own; specified by ExporterReset.BasicReset, ExporterReset.ResetChain |
| ExporterReset.BasicReset | exporter/utils/resetStep.js:9-16 | the basic reset returns to the default workflow's layer selection step, marks the form invalid and writes an undefined capabilities URL |
| ExporterReset.StepResetValues | exporter/utils/resetStep.js:24-52 | no contract of its own; specified by ExporterReset.StepResets |
| ExporterReset.StepResets | exporter/utils/resetStep.js:24-52 | both layer selection steps reset the selected layer and a fresh empty list, the download step the export format; other names reset nothing |
| ExporterReset.AllResetValues | exporter/store/mutationsExporterAddon.js:35-42 | no contract of its own; specified by ExporterReset.ResetChain, ExporterReset.AllResetKeys, ExporterReset.AllResetKeyList |
| ExporterReset.ResetChain | exporter/store/mutationsExporterAddon.js:35-42 | spreading the basic, layer selection and download objects appends each one's keys in order |
| ExporterReset.AllResetKeys | exporter/store/mutationsExporterAddon.js:35-42 | the combined reset object is exactly seven properties with their default values, in this order |
| ExporterReset.AllResetKeyList | exporter/store/mutationsExporterAddon.js:38-42 | the keys of the combined reset object are the seven distinct reset keys |
| VuexState.ToMap | importer/store/mutationsImporterAddon.js:39-45 | an object literal read as a map has exactly the literal's keys, each with the value the literal gives it |
| VuexState.OverwriteFrame | importer/store/mutationsImporterAddon.js:47-49 | copying an object's properties into the state changes exactly its keys, to its values, and keeps every other property |
| VuexState.OverwriteIdempotent | importer/store/mutationsImporterAddon.js:47-49 | copying the same object twice is copying it once |
| VuexState.Store.Set | importer/store/mutationsImporterAddon.js:48 | one property assignment changes that property of the state and nothing else |
| VuexState.Store.Increment | importer/store/mutationsImporterAddon.js:75 | `+= 1` on a numeric property adds one to it and changes nothing else |
| VuexState.Store.AssignEach | importer/store/mutationsImporterAddon.js:47-49 | the `for ... in` loop leaves the state overwritten with every property of the object, in order |
| TranslationKey.Substr | exporter/store/mutationsExporterAddon.js:23 | `substr` from a start inside the string is the suffix from there, past the end the empty string |
| TranslationKey.Renamed | importer/store/mutationsImporterAddon.js:21-25 | only `name` can change, and it changes, to the new name, exactly when one was found |
| TranslationKey.StripIfPrefixed | importer/store/mutationsImporterAddon.js:22-23 | no contract of its own; specified by TranslationKey.PrefixedString, TranslationKey.PrefixedOutcome, TranslationKey.VariantsAgreeOnPrefix, TranslationKey.MarkerInside |
| TranslationKey.PrefixedString | importer/store/mutationsImporterAddon.js:22-23 | the importer renames a string iff it starts with `translate#`, and the marker followed by the new name is the old name |
| TranslationKey.PrefixedOutcome | importer/store/mutationsImporterAddon.js:22 | in the importer a falsy payload changes nothing and exactly the truthy non-strings throw |
| TranslationKey.StripIfContained | exporter/store/mutationsExporterAddon.js:22-23 | no contract of its own; specified by TranslationKey.ContainedString, TranslationKey.ContainedOutcome, TranslationKey.VariantsAgreeOnPrefix, TranslationKey.MarkerInside, TranslationKey.RoadSurveyCases |
| TranslationKey.ContainedString | exporter/store/mutationsExporterAddon.js:22-23 | the exporter renames a string iff the marker occurs anywhere in it, and the new name is the string minus its first ten characters |
| TranslationKey.ContainedOutcome | exporter/store/mutationsExporterAddon.js:22-23 | a falsy payload changes nothing; a truthy non-string throws unless it is an array that does not hold the marker |
| TranslationKey.VariantsAgreeOnPrefix | strassenBefahrung/store/mutationsStrassenBefahrung.js:19-23 | on a name that starts with the marker the `startsWith`/`slice` and `indexOf`/`substr` variants give the same name |
| TranslationKey.MarkerInside | exporter/store/mutationsExporterAddon.js:22-23 | for "my translate#key" the importer keeps the name while the exporter sets "te#key" |
| TranslationKey.MissingChar | exporter/store/mutationsExporterAddon.js:22 | a string that lacks one character of the marker does not contain it |
| TranslationKey.RoadSurveyCases | masterportalVersion3/strassenBefahrung/tests/unit/store/mutationsStrassenBefahrung.spec.js:9-37 | a marked name loses its marker; an unmarked name and an undefined payload are left as they are |
| ImporterMutations.ApplyTranslationKey | importer/store/mutationsImporterAddon.js:21-25 | the importer's mutation throws iff its test does, and otherwise leaves the state renamed as the startsWith/slice rule says |
| ImporterMutations.ResetImporterAddon | importer/store/mutationsImporterAddon.js:33-50 | the state becomes the old state overwritten with the combined reset object |
| ImporterMutations.ResetStep | importer/store/mutationsImporterAddon.js:60-66 | an undefined or null payload throws and changes nothing; otherwise the state is overwritten with that step's reset values |
| ImporterMutations.IncrementIdCounter | importer/store/mutationsImporterAddon.js:74-76 | `idCounter` grows by one, nothing else changes |
| ImporterMutations.SetImportedFolderCounter | importer/store/mutationsImporterAddon.js:78-80 | `importedFolderCounter` grows by one whatever the payload, nothing else changes |
| ImporterMutations.SetGeoJsonFolderCounter | importer/store/mutationsImporterAddon.js:88-90 | `geoJsonFolderCounter` grows by one whatever the payload, nothing else changes |
| ImporterMutations.SetShapeFileFolderCounter | importer/store/mutationsImporterAddon.js:98-100 | `shapeFileFolderCounter` grows by one whatever the payload, nothing else changes |
| ImporterMutations.SetGeoPackageFolderCounter | importer/store/mutationsImporterAddon.js:108-110 | `geoPackageFolderCounter` grows by one whatever the payload, nothing else changes |
| ImporterMutations.CountersNotReset | importer/store/mutationsImporterAddon.js:33-50 | none of the five counters is among the reset keys |
| ImporterMutations.ResetFrame | importer/store/mutationsImporterAddon.js:33-50 | the full reset writes exactly the eight reset keys and keeps every other property, the counters included |
| ImporterMutations.ResetStepFrame | importer/store/mutationsImporterAddon.js:60-66 | resetting any step leaves every counter as it was |
| ImporterMutations.ResetStepIdempotent | importer/store/mutationsImporterAddon.js:60-66 | resetting a step twice is resetting it once |
| ImporterMutations.ResetIdempotent | importer/store/mutationsImporterAddon.js:33-50 | the full reset is idempotent |
| ExporterMutations.ApplyTranslationKey | exporter/store/mutationsExporterAddon.js:21-25 | the exporter's mutation throws iff its test or cut does, and otherwise leaves the state renamed as the indexOf/substr rule says |
| ExporterMutations.ResetExporterAddon | exporter/store/mutationsExporterAddon.js:33-47 | the state becomes the old state overwritten with the combined reset object |
| ExporterMutations.ResetStep | exporter/store/mutationsExporterAddon.js:57-63 | an undefined or null payload throws and changes nothing; otherwise the state is overwritten with that step's reset values |
| ExporterMutations.ResetFrame | exporter/store/mutationsExporterAddon.js:33-47 | the full reset writes exactly the seven reset keys, each to its reset value, and keeps every other property |
| ExporterMutations.ResetClearsCapabilitiesUrl | exporter/store/mutationsExporterAddon.js:33-47 | after the full reset the capabilities URL is present and undefined, although the defaults have none |
| ExporterMutations.ResetIdempotent | exporter/store/mutationsExporterAddon.js:33-47 | the full reset is idempotent |
| StrassenMutations.ApplyTranslationKey | strassenBefahrung/store/mutationsStrassenBefahrung.js:19-23 | the road survey's mutation throws iff its test or cut does, and otherwise leaves the state renamed as the indexOf/substr rule says |
| StrassenMutations.SetEnnLayer | strassenBefahrung/store/mutationsStrassenBefahrung.js:24-27 | only `ennLayer` changes, to the payload |
| StrassenMutations.SetMarkerLayer | strassenBefahrung/store/mutationsStrassenBefahrung.js:28-31 | only `markerLayer` changes, to the payload |
| StrassenMutations.SetCoords | strassenBefahrung/store/mutationsStrassenBefahrung.js:32-34 | only `coords` changes, to the payload |
| StrassenMutations.TranslationCases | masterportalVersion3/strassenBefahrung/tests/unit/store/mutationsStrassenBefahrung.spec.js:9-37 | the mutation's three test cases: a marked name is replaced by its key; an unmarked name and an undefined payload leave the state as it is |
| StrassenMutations.SettersCommute | strassenBefahrung/store/mutationsStrassenBefahrung.js:24-34 | the three setters write different properties, so their order does not matter |
| ShpGeoJson.Filter | ExporterAddon/node_modules/@crmackey/shp-write/src/geojson.js:29-30 | a filter that does not throw returns no more features than it was given |
| ShpGeoJson.FilterOk | ExporterAddon/node_modules/@crmackey/shp-write/src/geojson.js:29-30 | the filter throws iff its callback throws on some feature |
| ShpGeoJson.FilterMembers | ExporterAddon/node_modules/@crmackey/shp-write/src/geojson.js:29-30 | the filter keeps exactly the features its callback accepts |
| ShpGeoJson.FilterConcat | ExporterAddon/node_modules/@crmackey/shp-write/src/geojson.js:29-30 | filtering keeps the features' order: it distributes over concatenation |
| ShpGeoJson.DimensionCoords | ExporterAddon/node_modules/@crmackey/shp-write/src/geojson.js:83-93 | the point types test the coordinates themselves; the others flatten one level when the coordinates nest three deep, use them as they are when they nest two deep, and throw when `coordinates[0]` is missing |
| ShpGeoJson.EveryTwo | ExporterAddon/node_modules/@crmackey/shp-write/src/geojson.js:94 | the 2D test holds iff every position it examines has exactly two entries |
| ShpGeoJson.SomeThree | ExporterAddon/node_modules/@crmackey/shp-write/src/geojson.js:94 | the 3D test holds iff some position it examines has three or more entries |
| ShpGeoJson.DimensionsDisjoint | ExporterAddon/node_modules/@crmackey/shp-write/src/geojson.js:81-95 | no feature passes both the 2D and the 3D test of a type |
| ShpGeoJson.ConcatOneAppend | ExporterAddon/node_modules/@crmackey/shp-write/src/geojson.js:89-91 | the one-level flattening of the reduce distributes over concatenation |
| ShpGeoJson.ConcatOneSingle | ExporterAddon/node_modules/@crmackey/shp-write/src/geojson.js:89-91 | one element contributes its entries, or itself when it is a number |
| ShpGeoJson.Rows | ExporterAddon/node_modules/@crmackey/shp-write/src/geojson.js:34-43 | there are as many property rows as geometry rows, and for the single types one of each per kept feature |
| ShpGeoJson.RowsConcat | ExporterAddon/node_modules/@crmackey/shp-write/src/geojson.js:34-43 | the rows of consecutive feature lists are consecutive |
| ShpGeoJson.SingleRows | ExporterAddon/node_modules/@crmackey/shp-write/src/geojson.js:41-42 | for the single types row k holds feature k's coordinates and properties |
| ShpGeoJson.MultiRowsSingleton | ExporterAddon/node_modules/@crmackey/shp-write/src/geojson.js:35-61 | for MultiPoint and MultiLineString every geometry row is a one-element array |
| ShpGeoJson.MultiFeatureRows | ExporterAddon/node_modules/@crmackey/shp-write/src/geojson.js:35-75 | a multi feature with elements items gives, for each j in order, the geometry row `[items[j]]` and its own properties as the property row |
| ShpGeoJson.MultiRowCount | ExporterAddon/node_modules/@crmackey/shp-write/src/geojson.js:35-75 | a multi feature gives one row per element of its coordinates |
| ShpGeoJson.JustType | ExporterAddon/node_modules/@crmackey/shp-write/src/geojson.js:27-51 | a factory's layer carries the factory's shapefile type and as many property rows as geometry rows |
| ShpGeoJson.SelectedMembers | ExporterAddon/node_modules/@crmackey/shp-write/src/geojson.js:29-30 | a factory keeps a feature iff its geometry type is exactly the factory's and it passes the factory's dimension test |
| ShpGeoJson.SelectedOk | ExporterAddon/node_modules/@crmackey/shp-write/src/geojson.js:29-79 | the type filter throws iff some feature has no geometry |
| ShpGeoJson.VariantsDisjoint | ExporterAddon/node_modules/@crmackey/shp-write/src/geojson.js:1-10 | two factories for one GeoJSON type that differ in dimension, both point types or both not, never both keep a feature; this covers all five 2D/3D pairs |
| ShpGeoJson.NothingOfType | ExporterAddon/node_modules/@crmackey/shp-write/src/geojson.js:27-51 | a collection without features of the factory's type gives empty rows of the factory's type, not an error |
| ShpGeoJson.AsPositions | ExporterAddon/node_modules/@crmackey/shp-write/src/geojson.js:53-55 | a coordinate list read as positions keeps its length |
| ShpGeoJson.AsRings | ExporterAddon/node_modules/@crmackey/shp-write/src/geojson.js:53-55 | a coordinate list read as rings keeps its length |
| ShpGeoJson.ToPolyGeometry | ExporterAddon/node_modules/@crmackey/shp-write/src/geojson.js:53-61 | a row read as a writer geometry has as many top-level entries as the row has elements |
| ShpGeoJson.MultiLineRowsExact | ExporterAddon/node_modules/@crmackey/shp-write/src/geojson.js:7-61 | every MultiLineString row reaches the writer as a one-part geometry, so shpLength (exporter/node_modules/@crmackey/shp-write/src/poly.js:114-136) reserves exactly the bytes write fills |
| ShpGeoJson.LineRowOverReserves | ExporterAddon/node_modules/@crmackey/shp-write/src/geojson.js:5-55 | a LineString row of two or more positions reaches the writer as a bare line, for which shpLength reserves more bytes than write fills |
| ShpOptions.Basename | exporter/node_modules/@crmackey/shp-write/src/utils.js:11 | the base name is the name up to its first dot and contains no dot |
| ShpOptions.GetWriteOptions | exporter/node_modules/@crmackey/shp-write/src/utils.js:1-31 | a result that does not throw is an object |
| ShpOptions.DefaultsFixed | exporter/node_modules/@crmackey/shp-write/src/utils.js:13-30 | writing the defaults' own type names back leaves the defaults unchanged |
| ShpOptions.DefaultOptions | exporter/node_modules/@crmackey/shp-write/src/utils.js:1-31 | without usable options the ZIP is "Shapefile.zip" and the point, line and polygon files are all "Shapefile" |
| ShpOptions.StringOptions | exporter/node_modules/@crmackey/shp-write/src/utils.js:5-30 | a string argument is cut at its first dot; the ZIP is the cut name plus ".zip" and every type file gets the cut name |
| ShpOptions.ObjectOptionsError | exporter/node_modules/@crmackey/shp-write/src/utils.js:8-11 | an object argument throws iff its `name` is neither nullish nor a string, since `split` is then missing |
| ShpOptions.ObjectUnfold | exporter/node_modules/@crmackey/shp-write/src/utils.js:2-30 | an object with a usable name gives the defaults for its base name overwritten with its own properties and the merged types |
| ShpOptions.WithTypesFacts | exporter/node_modules/@crmackey/shp-write/src/utils.js:22-25 | filling in the types keeps distinct keys, keeps every other property, and adds only `types` |
| ShpOptions.ObjectName | exporter/node_modules/@crmackey/shp-write/src/utils.js:8-30 | an object's own `name` is kept as given, with no ".zip" appended; a missing one becomes the base name plus ".zip" |
| ShpOptions.ObjectPassesThrough | exporter/node_modules/@crmackey/shp-write/src/utils.js:2-30 | every other own property of an object argument passes through unchanged |
| ShpOptions.DefaultsKeys | exporter/node_modules/@crmackey/shp-write/src/utils.js:13-20 | the defaults have exactly the keys `name` and `types` |
| ShpOptions.ObjectKeys | exporter/node_modules/@crmackey/shp-write/src/utils.js:27-30 | the result has the argument's keys plus `name` and `types` |
| ShpOptions.ObjectTypes | exporter/node_modules/@crmackey/shp-write/src/utils.js:22-25 | a type the argument's `types` names keeps that value; the other types keep the base name |
| ImporterFile.FileEnding | ImporterAddon/utils/file.js:13 | no contract of its own; specified by ImporterFile.FileEndingIsLastSegment, ImporterFile.EmptyEnding, ImporterFile.AcceptedByEnding |
| ImporterFile.FileEndingIsLastSegment | ImporterAddon/utils/file.js:13 | the ending is the text after the last '.', and the whole name when it has no '.' |
| ImporterFile.EmptyEnding | ImporterAddon/utils/file.js:13-17 | the ending is empty exactly for the empty name and a name ending in '.' |
| ImporterFile.IsFileExtensionAccepted | ImporterAddon/utils/file.js:12-20 | no contract of its own; specified by ImporterFile.ExtensionAccepted, ImporterFile.ExtensionCaseInsensitive, ImporterFile.AcceptedByEnding |
| ImporterFile.ExtensionAccepted | ImporterAddon/utils/file.js:12-20 | a name with an empty ending is refused for any service; a name is accepted iff the service has an entry listing "." plus its lower-cased ending; a non-empty ending with an unknown service throws |
| ImporterFile.ExtensionCaseInsensitive | ImporterAddon/utils/file.js:19 | lower-casing the file name does not change the result |
| ImporterFile.AcceptedByEnding | ImporterAddon/utils/file.js:13-19 | the result depends only on the lower-cased ending |
| ImporterFile.IsMimeTypeAccepted | ImporterAddon/utils/file.js:29-31 | the check throws iff the service has no entry, and accepts iff the entry lists the lower-cased MIME type |
| ImporterFile.MimeTypes | importer/constants/mimetypes.js:1-5 | no contract of its own; specified by ImporterFile.MimeTypeTable, ImporterFile.GeoJsonMimeTypes |
| ImporterFile.MimeTypeTable | importer/constants/mimetypes.js:1-5 | with the importer's table a GeoPackage accepts "Application/Octet-Stream", and WMS, which has no entry, throws |
| ImporterFile.GeoJsonMimeTypes | importer/constants/mimetypes.js:2 | GeoJSON does not accept the generic binary type |
| ImporterColor.DigitValue | ImporterAddon/utils/color.js:11 | a hex digit is worth less than 16 |
| ImporterColor.HexChar | ImporterAddon/utils/color.js:31 | a value below 16 is written as one lower-case hex digit of that value |
| ImporterColor.ExpandShorthand | ImporterAddon/utils/color.js:8 | "rgb" or "#rgb" in hex digits becomes "#rrggbb"; every other string is kept |
| ImporterColor.Substring1 | ImporterAddon/utils/color.js:9 | `substring(1)` drops the first character, leaving the empty string empty |
| ImporterColor.Pairs | ImporterAddon/utils/color.js:10 | every match of `/.{2}/g` is two characters, neither a line terminator |
| ImporterColor.PairsChunks | ImporterAddon/utils/color.js:10 | on text without line terminators the matches are the consecutive two-character chunks, a trailing odd character dropped |
| ImporterColor.TrimStart | ImporterAddon/utils/color.js:11 | `parseInt` reads from a suffix that does not start with white space |
| ImporterColor.HexPrefix | ImporterAddon/utils/color.js:11 | `parseInt` reads the longest prefix of hex digits |
| ImporterColor.ParseHex | ImporterAddon/utils/color.js:11 | no contract of its own; specified by ImporterColor.ParseAll, ImporterColor.ParseHexPair |
| ImporterColor.ParseAll | ImporterAddon/utils/color.js:11 | the map parses every pair, in order |
| ImporterColor.ParseHexPair | ImporterAddon/utils/color.js:11 | two hex digits read as the byte 16·high + low, in 0 .. 255 |
| ImporterColor.HexToRgb | ImporterAddon/utils/color.js:6-12 | no contract of its own; specified by ImporterColor.HexToRgbPairs, ImporterColor.ReadThree, ImporterColor.SixDigits, ImporterColor.Shorthand, ImporterColor.SameExpansion, ImporterColor.MissingHash, ImporterColor.RoundTrip |
| ImporterColor.HexToRgbPairs | ImporterAddon/utils/color.js:6-12 | a string with at least one pair gives the parsed pairs, without throwing |
| ImporterColor.ReadThree | ImporterAddon/utils/color.js:6-12 | three pairs of hex digits give the three bytes they spell |
| ImporterColor.SixDigitPairs | ImporterAddon/utils/color.js:8-10 | "#" and six hex digits give the pairs of digits 1-2, 3-4 and 5-6 |
| ImporterColor.SixDigits | ImporterAddon/utils/color.js:6-12 | "#" and six hex digits give three integers in 0 .. 255, each read from its pair |
| ImporterColor.ShorthandExpands | ImporterAddon/utils/color.js:8 | the shorthand expands to "#" and each digit twice |
| ImporterColor.Shorthand | ImporterAddon/utils/color.js:6-12 | the shorthand "#rgb" or "rgb" reads as "#rrggbb" |
| ImporterColor.SameExpansion | ImporterAddon/utils/color.js:6-12 | two strings with the same expansion read the same |
| ImporterColor.MissingHashPairs | ImporterAddon/utils/color.js:8-10 | "aabbcc" without '#' is cut to "abbcc", so the pairs are "ab" and "bc" |
| ImporterColor.MissingHash | ImporterAddon/utils/color.js:6-12 | "aabbcc" reads as the two numbers 0xab and 0xbc: the leading digit is lost and the last dropped |
| ImporterColor.HexNat | ImporterAddon/utils/color.js:31 | `toString(16)` of a natural number is at least one hex digit |
| ImporterColor.ComponentToHex | ImporterAddon/utils/color.js:30-34 | no contract of its own; specified by ImporterColor.ComponentByte |
| ImporterColor.ComponentByte | ImporterAddon/utils/color.js:30-34 | a byte is written as two lower-case hex digits, zero-padded, whose value is the byte |
| ImporterColor.RgbToHex | ImporterAddon/utils/color.js:21-23 | no contract of its own; specified by ImporterColor.RgbToHexShape, ImporterColor.RoundTrip |
| ImporterColor.RgbToHexShape | ImporterAddon/utils/color.js:21-23 | for bytes the result is '#' followed by six lower-case hex digits |
| ImporterColor.RoundTrip | ImporterAddon/utils/color.js:6-23 | reading back what rgbToHex wrote for three bytes gives the three bytes |
| WienGfiConverters.CeilKB | masterportalVersion2/wiengfi/converters.js:8 | the kilobytes are the least integer whose 1024 bytes cover the size |
| WienGfiConverters.CeilOfNat | masterportalVersion2/wiengfi/converters.js:8 | for a natural size the result is (size + 1023) div 1024, with less than one kilobyte to spare |
| WienGfiConverters.CeilMonotone | masterportalVersion2/wiengfi/converters.js:8 | a larger size never needs fewer kilobytes |
| WienGfiConverters.ConvertBytesToKB | masterportalVersion2/wiengfi/converters.js:7-9 | no contract of its own; specified by WienGfiConverters.Examples |
| WienGfiConverters.Examples | masterportalVersion2/wiengfi/converters.js:7-9 | 0 bytes are "0 KB", 1024 bytes "1 KB" and 1025 bytes "2 KB" |
| WfstCompatibility.ValidateGeometryCompatibility | WfstUploader/utils/validateGeometryCompatibility.js:9-38 | no contract of its own; specified by WfstCompatibility.MissingInput, WfstCompatibility.EmptyLayer, WfstCompatibility.FirstFeatureOnly, WfstCompatibility.Families, WfstCompatibility.UnlistedType |
| WfstCompatibility.MissingInput | WfstUploader/utils/validateGeometryCompatibility.js:10-12 | without a feature, a geometry or a target layer the answer is false |
| WfstCompatibility.EmptyLayer | WfstUploader/utils/validateGeometryCompatibility.js:29-32 | a target layer without features accepts every geometry type |
| WfstCompatibility.FirstFeatureOnly | WfstUploader/utils/validateGeometryCompatibility.js:34-37 | only the geometry type of the layer's first feature is consulted |
| WfstCompatibility.Families | WfstUploader/utils/validateGeometryCompatibility.js:17-37 | between the six standard types the answer is whether both are points, both lines or both polygons, single or multi |
| WfstCompatibility.UnlistedType | WfstUploader/utils/validateGeometryCompatibility.js:35-37 | a type the map does not list, and that no object inherits, is compatible only with itself |
| WfstHighlightType.GetHighlightType | WfstUploader/utils/getHighlightType.js:7-32 | no contract of its own; specified by WfstHighlightType.HighlightTable, WfstHighlightType.HighlightInjective |
| WfstHighlightType.HighlightTable | WfstUploader/utils/getHighlightType.js:7-32 | the five supported geometry types map to their highlight types; every other type, MultiPoint among them, and a missing geometry give null |
| WfstHighlightType.HighlightInjective | WfstUploader/utils/getHighlightType.js:8-31 | different geometry types get different highlight types |
| WfstHighlightStyle.GetHighlightStyleFromType | WfstUploader/utils/getHighlightStyleFromType.js:7-18 | no contract of its own; specified by WfstHighlightStyle.StyleTable, WfstHighlightStyle.OneOfTwo, WfstHighlightStyle.CompatibleShareStyle |
| WfstHighlightStyle.StyleTable | WfstUploader/utils/getHighlightStyleFromType.js:7-18 | lines of either kind get the line style and polygons of either kind the polygon style; a point gets null although the state holds a point style |
| WfstHighlightStyle.StylesGet | WfstUploader/utils/getHighlightStyleFromType.js:11-14 | the style object's line and polygon entries are read as given |
| WfstHighlightStyle.OneOfTwo | WfstUploader/utils/getHighlightStyleFromType.js:7-18 | with an object of styles the result is its line style, its polygon style or null |
| WfstHighlightStyle.CompatibleShareStyle | WfstUploader/utils/getHighlightStyleFromType.js:8-14 | geometry types the uploader treats as compatible share their highlight style |
| ProcessLayers.CandidateInjective | ImporterAddon/utils/processLayersForAdding.js:27 | different rounds try different names |
| ProcessLayers.CandidateNotBase | ImporterAddon/utils/processLayersForAdding.js:27 | no round tries the base name again |
| ProcessLayers.UniqueNameDetermined | ImporterAddon/utils/processLayersForAdding.js:18-32 | at most one name is free, equal to the base name when that is free, and otherwise the first free `_k` candidate |
| ProcessLayers.FreshCandidate | ImporterAddon/utils/processLayersForAdding.js:26-30 | each round's candidate is none of the names tried before, so the loop ends |
| ProcessLayers.GenerateUniqueLayerName | ImporterAddon/utils/processLayersForAdding.js:8-32 | the result is not taken; it is the base name when that is free, else `baseName_k` for the least k >= 1 whose name is free |
| ProcessLayers.WithName | ImporterAddon/utils/processLayersForAdding.js:40-43 | the copy is an object with the new name and every other own property of the layer unchanged |
| ProcessLayers.NotThrowing | ImporterAddon/utils/processLayersForAdding.js:42 | reading `layer.name` throws exactly for undefined and null |
| ProcessLayers.ProcessLayersForAdding | ImporterAddon/utils/processLayersForAdding.js:39-44 | the map throws iff some layer is undefined or null; otherwise there is one copy per layer, in order, each with its name replaced by a unique one |
| AddonLayerConfig.GenerateId | ImporterAddon/utils/layer.js:10-12 | no contract of its own; specified by AddonLayerConfig.GenerateIdInjective, AddonLayerConfig.GenerateIdOfCounter |
| AddonLayerConfig.GenerateIdInjective | ImporterAddon/utils/layer.js:10-12 | different counters give different layer ids |
| AddonLayerConfig.GenerateIdOfCounter | ImporterAddon/utils/layer.js:10-12 | the id is "importedLayer_" followed by the counter in decimal |
| AddonLayerConfig.ReadOpt | ImporterAddon/utils/layer.js:28 | destructuring a layer option throws exactly for undefined and null, and otherwise reads its name, title and id |
| AddonLayerConfig.WmsLayerConfig | ImporterAddon/utils/layer.js:28-44 | no contract of its own; specified by AddonLayerConfig.WmsFields, AddonLayerConfig.WmsConfigFor, AddonLayerConfig.WmsConfigs |
| AddonLayerConfig.WmsFields | ImporterAddon/utils/layer.js:28-44 | a WMS config is named by the title, requests the option's name as `layers`, and carries the id, folder, URL, version, WMS type, visibility and external flag |
| AddonLayerConfig.NameSplit | ImporterAddon/utils/layer.js:67-68 | the namespace is the text before the first ':'; the feature type is the text between the first and second ':' when that is non-empty, otherwise the whole name |
| AddonLayerConfig.QualifiedNameSplit | ImporterAddon/utils/layer.js:67-68 | a name "ns:type" splits into ns and type |
| AddonLayerConfig.WfsLayerConfig | ImporterAddon/utils/layer.js:61-78 | the config throws exactly when the option's name is not a string, whose `split` is missing |
| AddonLayerConfig.WfsFields | ImporterAddon/utils/layer.js:61-78 | a WFS config is named by the title and carries the split name, the id, the URL unchanged, the version, the WFS type, the external flag and visibility |
| AddonLayerConfig.WmsConfigFor | ImporterAddon/utils/layer.js:111 | one WMS option throws exactly when it is undefined or null, else gives its WMS config |
| AddonLayerConfig.WfsConfigFor | ImporterAddon/utils/layer.js:124 | one WFS option throws exactly when it is missing or its name is not a string, else gives its WFS config |
| AddonLayerConfig.CreateLayerConfigs | ImporterAddon/utils/layer.js:172-183 | no contract of its own; specified by AddonLayerConfig.WmsConfigs, AddonLayerConfig.WfsConfigs, AddonLayerConfig.OtherServiceConfigs |
| AddonLayerConfig.WmsConfigs | ImporterAddon/utils/layer.js:110-183 | for "wms" the result throws iff some option is undefined or null, and otherwise is one WMS config per option, in order |
| AddonLayerConfig.WfsConfigs | ImporterAddon/utils/layer.js:123-183 | for "wfs" the result throws iff some option is missing or has a non-string name, and otherwise is one WFS config per option, in order |
| AddonLayerConfig.OtherServiceConfigs | ImporterAddon/utils/layer.js:172-183 | any service other than exactly "wms" or "wfs" gives no configs |
| AddonLayerConfig.AddProxyIfNotContained | ImporterAddon/utils/layer.js:86-99 | no contract of its own; specified by AddonLayerConfig.ProxyKept, AddonLayerConfig.ProxyAdded, AddonLayerConfig.ProxyOtherScheme, AddonLayerConfig.ProxyIdempotent |
| AddonLayerConfig.ProxyKept | ImporterAddon/utils/layer.js:86-99 | a falsy URL and one that names the proxy in any letter case are returned unchanged |
| AddonLayerConfig.ProxyAdded | ImporterAddon/utils/layer.js:90-95 | an http URL goes through "/proxyhttp/" and an https URL through "/proxyhttps/" on the origin, the scheme and its two slashes dropped |
| AddonLayerConfig.ProxyOtherScheme | ImporterAddon/utils/layer.js:87-96 | any other non-empty URL without the proxy gives undefined |
| AddonLayerConfig.ProxyIdempotent | ImporterAddon/utils/layer.js:86-99 | adding the proxy to a URL the function produced changes nothing |
| AddonLayerConfig.StripExtension | ImporterAddon/utils/layer.js:201-206 | no contract of its own; specified by AddonLayerConfig.StripExtensionEnding, AddonLayerConfig.FileConfigs |
| AddonLayerConfig.StripExtensionEnding | ImporterAddon/utils/layer.js:201-206 | the layer name is the file name up to its last '.', so name, '.' and ending rebuild the file name; a name without '.' gives the empty name |
| AddonLayerConfig.GeoJsonLayerConfig | ImporterAddon/utils/layer.js:141-159 | no contract of its own; specified by AddonLayerConfig.GeoJsonFields, AddonLayerConfig.NamedConfigsEach |
| AddonLayerConfig.GeoJsonFields | ImporterAddon/utils/layer.js:141-159 | a GeoJSON config carries the given name, id and object URL and the GeoJSON type |
| AddonLayerConfig.NamedConfigsEach | ImporterAddon/utils/layer.js:215-222 | one config per read layer or table, in order, named and identified by its `fileName` or `tableName`; a missing entry throws |
| AddonLayerConfig.FileLayerConfigs | ImporterAddon/utils/layer.js:195-226 | no contract of its own; specified by AddonLayerConfig.FileConfigs |
| AddonLayerConfig.FileConfigs | ImporterAddon/utils/layer.js:195-226 | a GeoJSON file gives one layer with the given id, named by the file name without extension; shapefile layers and GeoPackage tables give one layer each; other file types give none |
| ImporterLayerConfig.WfsLayerConfig | importer/utils/layer.js:63-86 | the config throws exactly when the option's name is not a string |
| ImporterLayerConfig.WfsFields | importer/utils/layer.js:63-86 | the style id is the layer id, the feature info shows all attributes with the default theme, and the name is split as in the addon |
| ImporterLayerConfig.WfsVariants | importer/utils/layer.js:69-85 | the two WFS configs are the same list of properties except for the style id and feature info entries inserted after `id` |
| ImporterLayerConfig.WfsConfigFor | importer/utils/layer.js:111 | one WFS option throws exactly when it is missing or its name is not a string, else gives its WFS config |
| ImporterLayerConfig.CreateLayerConfigs | importer/utils/layer.js:168-179 | no contract of its own; specified by ImporterLayerConfig.WfsConfigs, ImporterLayerConfig.WmsAndOtherConfigs |
| ImporterLayerConfig.WfsConfigs | importer/utils/layer.js:110-179 | for "wfs" the result throws iff some option is missing or has a non-string name, else one config per option, in order |
| ImporterLayerConfig.WmsAndOtherConfigs | importer/utils/layer.js:168-179 | the WMS configs are the addon's; any other service gives none |
| ImporterLayerConfig.SameWmsConfig | importer/utils/layer.js:30-46 | a WMS option gives the same config as in the addon |
| ImporterLayerConfig.GeoJsonLayerConfig | importer/utils/layer.js:128-155 | no contract of its own; specified by ImporterLayerConfig.GeoJsonFields, ImporterLayerConfig.NamedConfigsEach |
| ImporterLayerConfig.GeoJsonFields | importer/utils/layer.js:128-155 | a GeoJSON config is styled by its own id, visible and shown in the layer tree, with the given name |
| ImporterLayerConfig.NamedConfigsEach | importer/utils/layer.js:211-218 | one config per read layer or table, in order, styled and identified by its `fileName` or `tableName`; a missing entry throws |
| ImporterLayerConfig.FileLayerConfigs | importer/utils/layer.js:191-222 | no contract of its own; specified by ImporterLayerConfig.FileConfigs |
| ImporterLayerConfig.FileConfigs | importer/utils/layer.js:191-222 | a GeoJSON file gives one layer, with id and style id the given id, named by the file name without extension; shapefile layers and GeoPackage tables give one each; other types none |
| ImporterCapabilities.FlatLayers | importer/utils/capabilities.js:98-116 | no contract of its own; specified by ImporterCapabilities.NodeResult, ImporterCapabilities.ArrayResult, ImporterCapabilities.FlatLayersPreOrder, ImporterCapabilities.TopLevelArray, ImporterCapabilities.LayersFromCapabilities |
| ImporterCapabilities.NodeResult | importer/utils/capabilities.js:104-113 | a layer object gives its own entry, followed by its `Layer` child's lists spread into one; a child that throws makes the node throw; without an own `Layer` only the own entry |
| ImporterCapabilities.OwnEntryIff | importer/utils/capabilities.js:105-109 | a layer contributes an entry exactly when its `Name` is truthy, titled by its `Title` when truthy and by its name otherwise |
| ImporterCapabilities.ArrayResult | importer/utils/capabilities.js:101-103 | an array gives one nested list per element, in order, and throws exactly when some element does |
| ImporterCapabilities.EncodeAll | importer/utils/capabilities.js:98-116 | a parsed list of layer trees has one layer object per tree |
| ImporterCapabilities.ConcatSpreadLists | importer/utils/capabilities.js:111 | spreading a list of arrays into `concat` joins their items in order |
| ImporterCapabilities.EncodeFields | importer/utils/capabilities.js:105-110 | a parsed layer reads back its name, title and child array |
| ImporterCapabilities.FlatLayersPreOrder | importer/utils/capabilities.js:98-116 | on a parsed layer tree, `getFlatLayers` never throws and lists every named layer's entry in pre-order |
| ImporterCapabilities.TopLevelArray | importer/utils/capabilities.js:46-103 | a top-level array of layer trees gives one pre-order list per tree, nested, not flattened |
| ImporterCapabilities.WfsLayerNames | importer/utils/capabilities.js:60-77 | one `{name, title}` object per FeatureType element, in document order, undefined where an element is missing |
| ImporterCapabilities.LayersFromCapabilities | importer/utils/capabilities.js:27-38 | for exactly "wms" the flat WMS layers, throwing when they throw; for exactly "wfs" the feature type names; for any other service type undefined |
| ImporterCapabilities.Names | importer/utils/capabilities.js:140 | the names of the search parameters, in order |
| ImporterCapabilities.RemoveAll | importer/utils/capabilities.js:143 | removing a name leaves no pair of that name and never lengthens the list |
| ImporterCapabilities.SetParam | importer/utils/capabilities.js:143-158 | `searchParams.set`: a new name is appended with its value; an existing one does not lengthen the list |
| ImporterCapabilities.Step | importer/utils/capabilities.js:140-153 | one iteration never lengthens the live parameter list and advances the iterator by one |
| ImporterCapabilities.SearchParams.Set | importer/utils/capabilities.js:143 | `set` changes the list as SetParam says |
| ImporterCapabilities.CapabilitiesParams | importer/utils/capabilities.js:135-162 | no contract of its own; specified by ImporterCapabilities.CreateCapabilitiesUrl, ImporterCapabilities.CapabilitiesDistinct, ImporterCapabilities.EmptyQuery, ImporterCapabilities.ServiceKeptRequestFixed, ImporterCapabilities.DuplicateServiceOverwritten |
| ImporterCapabilities.CreateCapabilitiesUrl | importer/utils/capabilities.js:135-162 | the loop and the two final `set` calls leave the parameters CapabilitiesParams computes from the old ones |
| ImporterCapabilities.FixAll | importer/utils/capabilities.js:141-152 | each pair is fixed on its own: a service value other than wms or wfs (any case) becomes the upper-cased service type, a request other than getcapabilities (any case) becomes "GetCapabilities" |
| ImporterCapabilities.RunEnds | importer/utils/capabilities.js:137-153 | with distinct names the loop fixes every pair in place and records whether some name is service or request in any case |
| ImporterCapabilities.CapabilitiesDistinct | importer/utils/capabilities.js:135-162 | with distinct names the result is the fixed pairs, then `service` when none was present, then `request` when none was present |
| ImporterCapabilities.EmptyQuery | importer/utils/capabilities.js:154-159 | a URL without a query gets the upper-cased service type and then GetCapabilities |
| ImporterCapabilities.FixExample | importer/utils/capabilities.js:141-149 | a WFS service is kept under a WMS request type; a GetMap request is replaced, the name's case kept |
| ImporterCapabilities.ServiceKeptRequestFixed | importer/utils/capabilities.js:135-162 | `SERVICE=wfs&request=GetMap` for a WMS becomes `SERVICE=wfs&request=GetCapabilities` |
| ImporterCapabilities.DuplicateServiceOverwritten | importer/utils/capabilities.js:140-158 | two `service` pairs where the second is invalid collapse into one `service=WFS`, since `set` removes the later pair the iterator would have reached |
| ImporterCapabilities.DetectServiceType | importer/utils/capabilities.js:170-194 | no contract of its own; specified by ImporterCapabilities.DetectRule, ImporterCapabilities.DetectCaseInsensitive, ImporterCapabilities.DetectPrefixedWfs |
| ImporterCapabilities.DetectRule | importer/utils/capabilities.js:170-194 | "wms" exactly when the lower-cased root tag contains wms_capabilities or wmt_ms_capabilities; "wfs" exactly when it contains wfs_capabilities and neither of those; null for no tag, an empty tag or any other tag |
| ImporterCapabilities.DetectCaseInsensitive | importer/utils/capabilities.js:175 | the root tag's letter case does not change the detected type |
| ImporterCapabilities.DetectPrefixedWfs | importer/utils/capabilities.js:175-186 | the namespace-prefixed root `wfs:WFS_Capabilities` is detected as a WFS |
| ExporterCapabilities.BaseUrl | ExporterAddon/utils/capabilities.js:27-29 | the base URL is a prefix of the URL without '?', followed in the URL by '?' when shorter |
| ExporterCapabilities.BaseUrlUnique | ExporterAddon/utils/capabilities.js:27-29 | any prefix with those properties is the base URL |
| ExporterCapabilities.BaseUrlProperties | ExporterAddon/utils/capabilities.js:27-29 | a URL without '?' is its own base, and taking the base twice changes nothing |
| ExporterCapabilities.ExportLayers | ExporterAddon/utils/capabilities.js:51-66 | one export layer per FeatureType element |
| ExporterCapabilities.DecorationDistinct | ExporterAddon/utils/capabilities.js:56-63 | the added keys are distinct and none of them is `name` or `featureType`, so the spread layer fields survive |
| ExporterCapabilities.LayerNames | ExporterAddon/utils/capabilities.js:80-90 | no contract of its own; specified by ExporterCapabilities.ExportLayerFields |
| ExporterCapabilities.ExportLayerFields | ExporterAddon/utils/capabilities.js:51-92 | layer i is named by the element's title, has its type name as `featureType`, index i, type wfs, the base URL, the document's version and the four export formats geoJson, gml, shp and gpkg |
| ExporterDownload.FileEnding | ExporterAddon/utils/download.js:110-123 | no contract of its own; specified by ExporterDownload.FileEndings, ExporterDownload.FileNameEnding |
| ExporterDownload.FileEndings | ExporterAddon/utils/download.js:110-123 | geoJson, gml, shp and gpkg end in json, gml, zip and gpkg; a format has a non-empty ending exactly when it is one of the four, and different formats have different endings |
| ExporterDownload.FileName | ExporterAddon/utils/download.js:36 | no contract of its own; specified by ExporterDownload.FileNameEnding |
| ExporterDownload.FileNameEnding | ExporterAddon/utils/download.js:36 | the file name is the layer name, '.' and the ending; an unknown format leaves a bare '.' |
| ExporterDownload.TypeNameParam | ExporterAddon/utils/download.js:174-198 | no contract of its own; specified by ExporterDownload.VersionTables, ExporterDownload.GetFeatureParamNames |
| ExporterDownload.GmlMime | ExporterAddon/utils/download.js:206-228 | no contract of its own; specified by ExporterDownload.VersionTables, ExporterDownload.WfsGmlBlob |
| ExporterDownload.VersionTables | ExporterAddon/utils/download.js:174-228 | WFS 1.0.0, 1.1.0 and 1.1.3 use `typeName`, 2.0.0 and 2.0.2 `typeNames`, other versions none; exactly 1.1.0, 1.1.3 and 2.0.0 have a GML MIME type, so 1.0.0 and 2.0.2 have none |
| ExporterDownload.GetFeatureParams | ExporterAddon/utils/download.js:332-336 | no contract of its own; specified by ExporterDownload.GetFeatureParamNames |
| ExporterDownload.GetFeatureParamNames | ExporterAddon/utils/download.js:332-336 | five parameters are appended after the URL's own: service, request, the version, srsName and the feature type under the type-name parameter, literally "undefined" when the version has none |
| ExporterDownload.GpkgTypeKeysDistinct | exporter/constants/geoPackageDataTypes.js:1-17 | the type table has distinct keys |
| ExporterDownload.GpkgTypeAt | exporter/constants/geoPackageDataTypes.js:1-17 | every key of the table reads its own SQL type |
| ExporterDownload.GpkgTypeAbsent | exporter/constants/geoPackageDataTypes.js:1-17 | a key outside the table reads undefined |
| ExporterDownload.GpkgSupportedIff | ExporterAddon/utils/download.js:431 | a property value is kept exactly when its `typeof` is boolean, number or string, typed BOOLEAN, INT and TEXT |
| ExporterDownload.GpkgFilter | ExporterAddon/utils/download.js:429-434 | filtering never adds properties |
| ExporterDownload.GpkgFilterKeys | ExporterAddon/utils/download.js:429-434 | every key left was in the properties |
| ExporterDownload.GpkgFilterMembers | ExporterAddon/utils/download.js:429-434 | a property is left exactly when it was present with a supported value |
| ExporterDownload.GpkgFilterAppend | ExporterAddon/utils/download.js:429-434 | the filter works property by property, so it distributes over concatenation |
| ExporterDownload.FilterProperties | ExporterAddon/utils/download.js:429-434 | the loop deleting unsupported properties while walking the entries leaves the filtered properties |
| ExporterDownload.FirstNull | ExporterAddon/utils/download.js:402-429 | the position of the first feature with null properties, where the loops throw |
| ExporterDownload.FeatureCollection.FilterForGpkg | ExporterAddon/utils/download.js:427-437 | it throws exactly when some feature's properties are null; the features before the first such one are filtered, the rest unchanged |
| ExporterDownload.FeatureCollection.FillIds | ExporterAddon/utils/download.js:402-406 | it throws exactly when some feature's properties are null; each feature before it without a truthy id gets its index as id |
| ExporterDownload.WithId | ExporterAddon/utils/download.js:402-406 | no contract of its own; specified by ExporterDownload.WithIdFields, ExporterDownload.CreateGeoPackageColumns, ExporterDownload.GeoPackageColumns |
| ExporterDownload.WithIdFields | ExporterAddon/utils/download.js:403-405 | after the id step the properties have an id: the old one when truthy, else the index; every other property is unchanged |
| ExporterDownload.Columns | ExporterAddon/utils/download.js:452-460 | no contract of its own; specified by ExporterDownload.ColumnsAppend, ExporterDownload.ColumnMembers, ExporterDownload.TableColumns, ExporterDownload.FilteredColumnsTyped, ExporterDownload.ColumnsAssignId |
| ExporterDownload.ColumnsAppend | ExporterAddon/utils/download.js:452-460 | the column list of concatenated properties is the concatenation of their column lists |
| ExporterDownload.TableColumns | ExporterAddon/utils/download.js:444-466 | the loop over the first feature's properties builds exactly those columns |
| ExporterDownload.ColumnMembers | ExporterAddon/utils/download.js:452-460 | a column is declared exactly for a property whose name is not id or geometry, in any case, typed by its value |
| ExporterDownload.FilteredColumnsTyped | ExporterAddon/utils/download.js:427-466 | after the filter every column's type is BOOLEAN, INT or TEXT |
| ExporterDownload.CreateGeoPackageColumns | ExporterAddon/utils/download.js:398-419 | the table is prepared exactly when there is a first feature and no properties are null; its columns come from the first feature's filtered properties with its id, and every feature is filtered and given an id; when the filter throws at the first null properties, the features before them are filtered, none has an id added and the rest are unchanged |
| ExporterDownload.ColumnsAssignId | ExporterAddon/utils/download.js:404-456 | setting the id never changes the columns |
| ExporterDownload.GeoPackageColumns | ExporterAddon/utils/download.js:409-460 | the table's columns exclude id and geometry and are typed BOOLEAN, INT or TEXT |
| ExporterDownload.FindMultiPolygon | ExporterAddon/utils/download.js:356-357 | no contract of its own; specified by ExporterDownload.FindMultiPolygonIff, ExporterDownload.MultiPolygonRejection, ExporterDownload.WfsGmlBlob |
| ExporterDownload.FindMultiPolygonIff | ExporterAddon/utils/download.js:356-357 | a multipolygon is found exactly when one, in any case, comes before any feature without a geometry, where the search throws |
| ExporterDownload.DrawExport | ExporterAddon/utils/download.js:34-66 | no contract of its own; specified by ExporterDownload.MultiPolygonRejection, ExporterDownload.DownloadLayer |
| ExporterDownload.GeoJsonExport | ExporterAddon/utils/download.js:75-102 | no contract of its own; specified by ExporterDownload.MultiPolygonRejection, ExporterDownload.DownloadLayer |
| ExporterDownload.WfsExport | ExporterAddon/utils/download.js:325-389 | no contract of its own; specified by ExporterDownload.MultiPolygonRejection, ExporterDownload.WfsGmlBlob, ExporterDownload.DownloadLayer |
| ExporterDownload.MultiPolygonRejection | ExporterAddon/utils/download.js:361-368 | only a WFS layer exported as a shapefile raises the multipolygon error, exactly when a multipolygon was found; draw and GeoJSON layers go to the shapefile writer unchecked |
| ExporterDownload.WfsGmlBlob | ExporterAddon/utils/download.js:378-382 | a WFS layer exported as GML is a blob of the version's GML MIME type, and as GeoJSON one of `application/geo+json` |
| ExporterDownload.DownloadLayer | ExporterAddon/utils/download.js:476-490 | a geoJson, wfs or draw layer goes to its own export path; any other layer type does nothing |
| PortalConfig.Children | wfsSumQuery/store/actionsWfsSumQuery.js:22-23 | the values `for…in` walks are strictly smaller than the node, an object's values in key order or an array's items |
| PortalConfig.FirstMatch | wfsSumQuery/store/actionsWfsSumQuery.js:18-32 | the reference search over a list of nodes: a non-null result is one of them and matches |
| PortalConfig.FirstMatchAppend | wfsSumQuery/store/actionsWfsSumQuery.js:22-31 | searching a concatenation searches the second part only when the first finds nothing |
| PortalConfig.VisitedObjects | wfsSumQuery/store/actionsWfsSumQuery.js:23 | every node the walk reaches below an object is an object |
| PortalConfig.FoundIsTruthy | wfsSumQuery/store/actionsWfsSumQuery.js:24-28 | a match found below an object is truthy, so `if (found)` returns exactly the non-null results |
| PortalConfig.Search | wfsSumQuery/store/actionsWfsSumQuery.js:18-32 | no contract of its own; specified by PortalConfig.SearchIsFirstMatch, PortalConfig.SearchResult, PortalConfig.SearchThrows |
| PortalConfig.SearchIsFirstMatch | wfsSumQuery/store/actionsWfsSumQuery.js:18-32 | `searchForConfig` returns the first node of its depth-first, key-ordered walk that matches, throwing at the first unreadable node before it, and null when none matches |
| PortalConfig.FirstMatchEarliest | wfsSumQuery/store/actionsWfsSumQuery.js:18-32 | the first match is null exactly when every node is readable and none matches, and throws exactly when an unreadable node comes before any match |
| PortalConfig.SearchResult | wfsSumQuery/store/actionsWfsSumQuery.js:18-32 | a non-null result is a node of the walk with `node[key] === value`; null means every node was read and none matched; a matching root is returned itself |
| PortalConfig.SearchThrows | wfsSumQuery/store/actionsWfsSumQuery.js:19-24 | an undefined configuration throws, and so does a null value met before the match, since `typeof null` is "object"; a null value after the match is never reached |
| WfsSumQuery.HighlightType | wfsSumQuery/store/actionsWfsSumQuery.js:39-55 | no contract of its own; specified by WfsSumQuery.HighlightTypeRule, WfsSumQuery.HighlightStyleAgrees |
| WfsSumQuery.HighlightTypeRule | wfsSumQuery/store/actionsWfsSumQuery.js:39-55 | the highlight type ignores case and is NOT FOUND for anything but point, line string, polygon and multipolygon, each with its own type |
| WfsSumQuery.HighlightStyleAgrees | wfsSumQuery/store/actionsWfsSumQuery.js:253-262 | the polygon style rules are used exactly for the two polygon highlight types |
| WfsSumQuery.SelectionIds | wfsSumQuery/store/actionsWfsSumQuery.js:100-103 | a falsy `layerIdsForSelection` gives no ids, an array its items, any other value itself alone |
| WfsSumQuery.FindById | wfsSumQuery/store/actionsWfsSumQuery.js:107 | the filter throws exactly when some configuration's id cannot be read; otherwise the result is the first configuration with that id, or undefined when none has it |
| WfsSumQuery.LayersForSelection | wfsSumQuery/store/actionsWfsSumQuery.js:95-124 | no contract of its own; specified by WfsSumQuery.GetLayerForSelection |
| WfsSumQuery.GetLayerForSelection | wfsSumQuery/store/actionsWfsSumQuery.js:95-124 | the `forEach` commits exactly the list LayersForSelection describes |
| WfsSumQuery.SelectionThrowsOn | wfsSumQuery/store/actionsWfsSumQuery.js:105-121 | once an id throws, the whole action throws |
| WfsSumQuery.SelectionForRule | wfsSumQuery/store/actionsWfsSumQuery.js:106-120 | an unknown id contributes nothing; a known one contributes one entry with the id, the configuration found, its version or 1.1.0 and the id's type or deegree as server |
| WfsSumQuery.StringIdDefaults | wfsSumQuery/store/actionsWfsSumQuery.js:106-118 | a string id names itself and has no `type`, so its server is deegree |
| WfsSumQuery.SelectionPrefix | wfsSumQuery/store/actionsWfsSumQuery.js:105-121 | each id contributes in its own place: the entries of fewer ids are a prefix of those of more |
| WfsSumQuery.CircleNeedsDefinition | wfsSumQuery/store/actionsWfsSumQuery.js:134-148 | a circle payload is ignored exactly when no circle is defined; with one, its coordinates are used |
| WfsSumQuery.GmlCoordinates | wfsSumQuery/store/actionsWfsSumQuery.js:155 | no contract of its own; specified by WfsSumQuery.GmlCoordinatesSplit |
| WfsSumQuery.GmlCoordinatesSplit | wfsSumQuery/store/actionsWfsSumQuery.js:155 | the coordinates text splits at spaces back into the positions and each position at commas back into its numbers |
| WfsSumQuery.QuerySeparator | wfsSumQuery/store/actionsWfsSumQuery.js:156 | no contract of its own; specified by WfsSumQuery.RequestUrls |
| WfsSumQuery.GetFeatureUrl | wfsSumQuery/store/actionsWfsSumQuery.js:171 | no contract of its own; specified by WfsSumQuery.RequestUrls |
| WfsSumQuery.DescribeFeatureTypeUrl | wfsSumQuery/store/actionsWfsSumQuery.js:186 | no contract of its own; specified by WfsSumQuery.RequestUrls |
| WfsSumQuery.RequestUrls | wfsSumQuery/store/actionsWfsSumQuery.js:156-186 | the separator is '&' exactly when the service URL contains `?MAP=`, else '?'; both requests start with the service and that separator |
| WfsSumQuery.Dedup | wfsSumQuery/store/actionsWfsSumQuery.js:197-198 | spreading the set keeps exactly the names that occur |
| WfsSumQuery.FirstAt | wfsSumQuery/store/actionsWfsSumQuery.js:197-198 | the first position of a name holds it and no earlier one does |
| WfsSumQuery.DedupOrder | wfsSumQuery/store/actionsWfsSumQuery.js:197-198 | the spread set repeats nothing and keeps the order of first occurrence |
| WfsSumQuery.Filter | wfsSumQuery/store/actionsWfsSumQuery.js:199 | the filter keeps exactly the names other than geom and geometry |
| WfsSumQuery.FilterKeepsOrder | wfsSumQuery/store/actionsWfsSumQuery.js:199 | the filter keeps the order of first occurrence |
| WfsSumQuery.UniqueAttributes | wfsSumQuery/store/actionsWfsSumQuery.js:191-199 | no contract of its own; specified by WfsSumQuery.UniqueAttributesRule |
| WfsSumQuery.UniqueAttributesRule | wfsSumQuery/store/actionsWfsSumQuery.js:191-201 | the committed attributes are the names met other than geom and geometry, each once, in order of first occurrence |
| WfsSumQuery.FirstText | wfsSumQuery/store/actionsWfsSumQuery.js:211-212 | an element's text is found exactly when an element of that tag exists |
| WfsSumQuery.FeatureProperties | wfsSumQuery/store/actionsWfsSumQuery.js:205-214 | the inner loop builds the properties that PropertiesUpTo gives over all attributes |
| WfsSumQuery.AllFeatureProperties | wfsSumQuery/store/actionsWfsSumQuery.js:204-216 | one properties object per feature, in order, each built over all attributes |
| WfsSumQuery.PropertiesRead | wfsSumQuery/store/actionsWfsSumQuery.js:205-213 | a property holds the text of its prefixed element when the attribute is listed and the element exists; otherwise `id` holds the feature's `gml:id` and any other key is undefined |
| WfsSumQuery.AlertKey | wfsSumQuery/store/actionsWfsSumQuery.js:220-222 | no contract of its own; specified by WfsSumQuery.AlertKeyRule |
| WfsSumQuery.AlertKeyRule | wfsSumQuery/store/actionsWfsSumQuery.js:220-231 | no attributes gives noAttributesFound, attributes without features noFeatureFound, and both present no alert |
| BulkDownload.Offered | masterportalVersion3/bulkDownload/store/actionsBulkDownload.js:33 | the kept configurations are exactly those whose `bulkDownload` is `true`, in order |
| BulkDownload.OfferedSingle | masterportalVersion3/bulkDownload/store/actionsBulkDownload.js:33 | one configuration is kept exactly when its `bulkDownload` is `true` |
| BulkDownload.OfferedConcat | masterportalVersion3/bulkDownload/store/actionsBulkDownload.js:33 | the filter distributes over concatenation, so it keeps the list order and a configuration listed twice is kept twice |
| BulkDownload.WithOptions | masterportalVersion3/bulkDownload/store/actionsBulkDownload.js:35-42 | no contract of its own; specified by BulkDownload.WithOptionsRule, BulkDownload.InitializeLayerForDownload, BulkDownload.ApplyOptions |
| BulkDownload.WithOptionsRule | masterportalVersion3/bulkDownload/store/actionsBulkDownload.js:36-41 | the point-cloud layer gets options "1", the image layer "2", any other layer is unchanged; no other property changes, and applying twice is applying once |
| BulkDownload.InitializeLayerForDownload | masterportalVersion3/bulkDownload/store/actionsBulkDownload.js:32-46 | it throws, changing nothing, exactly when some configuration is null; otherwise it commits the kept configurations and sets the options of exactly those in place |
| BulkDownload.ApplyOptions | masterportalVersion3/bulkDownload/store/actionsBulkDownload.js:35-42 | each listed configuration gets its options once, however often it is listed, and nothing else changes |
| BulkDownload.StrictlyTrue | masterportalVersion3/bulkDownload/store/actionsBulkDownload.js:33 | only the value `true` itself offers a layer, not "true" or 1, and a missing flag does not |
| BulkDownload.InitializeUrls | masterportalVersion3/bulkDownload/store/actionsBulkDownload.js:51-67 | no contract of its own; specified by BulkDownload.InitializeUrlsRule, BulkDownload.NoConfigAlerts |
| BulkDownload.InitializeUrlsRule | masterportalVersion3/bulkDownload/store/actionsBulkDownload.js:51-67 | both URLs are committed as configured exactly when both are truthy; otherwise one error alert and no commit |
| BulkDownload.NoConfigAlerts | masterportalVersion3/bulkDownload/store/actionsBulkDownload.js:53-62 | without a bulk download configuration the alert is raised |

## Left out

- ShpPoly: the IEEE-754 bit patterns of doubles; a slot records the value and its byte order.
- ShpPoly: `ext.blank` and `ext.enlarge` (extent.js) and the type codes of types.js are not part of this model; the extent fold takes them as parameters and the codes are 3, 5, 13 and 15.
- ShpPoly.Write: demands non-empty geometries (and, for bare lines, non-empty positions); on those inputs the source reads `coords[0][0]` of `undefined` and throws a TypeError, which the model does not reproduce.
- ShpPoly.ShpLength: demands non-empty geometries for the same reason.
- ShpPoly.StoredOffsetsIncrease: demands a main file below 2^32 bytes. Past 2^31 16-bit words `setInt32` wraps the stored offset, and the index no longer increases. The model writes the wrap out in ToInt32 but proves nothing about the order of wrapped offsets.
- JsText: positions and lengths count Unicode scalar values, where JavaScript counts UTF-16 code units. After a character outside the Basic Multilingual Plane, `indexOf`, `slice`, `substr`, `substring`, `startsWith`, `split`, `lastIndexOf` and the `/.{2}/g` match of the model give other positions and results than JavaScript. This affects TranslationKey.StripIfPrefixed, TranslationKey.StripIfContained, ImporterColor.HexToRgb, ImporterFile.FileEnding, AddonLayerConfig.StripExtension and AddonLayerConfig.NameSplit. The model agrees with JavaScript on strings of BMP characters.
- ShpPoly: the file header, the points writer, the DBF/PRJ parts and the ZIP assembly are not part of this model.
- The constants files `steps.js`, `exportformats.js` and `layertypes.js`, and the `FILETYPES` table, are not part of this model. Steps are named by their own key, the export formats are "geoJson", "gml", "shp" and "gpkg", the layer types are "geoJson", "wfs" and "draw", and the file types are a parameter.
- JavaScript numbers are integers throughout, and letter case mapping covers ASCII only. Object keys are enumerated in insertion order, so numeric-looking keys are not moved to the front.
- StrictEquals treats two objects or arrays as unequal even when they are the same object, because values carry no identity. Only primitive values are compared with `===` here.
- URL parsing, the DOM and XML parsers and the OpenLayers formats are outside the model. Their results (root tag, FeatureType texts, parsed WMS layers, GML feature elements, search parameters) are inputs.
- fetch, axios, `Blob`, `URL.createObjectURL` and the shapefile and GeoPackage writers are outside the model. A download is reduced to the export path it takes and the MIME type of its blob.
- The GeoPackage API (`prepareGPKG`'s table creation, `addGeoJSONFeaturesToGeoPackage`, `export`) is outside the model. The columns declared are computed.
- Map, draw, alert and highlight dispatches are reduced to the values they would be given. Console output is not modelled.
- File reading is not part of this model: `readGeoJsonFile`, `readShapeZipFile` (including its wrapping of a single layer into an array), `readGeoPackageFile` and the FileReader. The layers read are inputs.
- `applyStyles` and `styleList.addToStyleList` in both layer.js files are not part of this model, because they call into the style list.
- The exporter's `capabilitiesBaseUrl` getter needs URL parsing and is not part of this model.
- WienGfiConverters: covers non-negative whole byte counts only; fractional sizes are not modelled.
- ExporterDownload: the property objects of the GeoJSON features are values, one per feature. Two features sharing one properties object are not modelled.
- ImporterCapabilities.FlatLayersPreOrder: covers layer trees whose `Name` and `Title` are strings or missing and whose `Layer` is an array. NodeResult and ArrayResult state the general rule for any value.
- ProcessLayers.ProcessLayersForAdding: checks names against the portal's layers only, as the source does. It does not check them against names given to other layers of the same batch.
- ImporterCapabilities.DuplicateServiceOverwritten: records that `searchParams.set` removes a later pair of the same name while the loop is still iterating.
- TranslationKey.MarkerInside and ImporterColor.MissingHash record behaviour of the source as written on unusual inputs. They are not claimed as defects.
- ExporterDownload.WithIdFields: records that feature 0 without an id gets the falsy id 0.
- PortalConfig.SearchThrows: records that a null value read before the match makes the search throw.
- WfsSumQuery.AllFeatureProperties: the feature elements are a list the loop walks in order. In the source, `features` comes from `getElementsByTagName` (wfsSumQuery/store/actionsWfsSumQuery.js:183). Under the DOM standard that is an HTMLCollection, which has no `forEach`, so line 204 would throw after the attributes and the feature type are committed, and the feature properties and the alert would never be reached. The model assumes a collection that offers `forEach`; the throw is not modelled. AlertKeyRule is stated under the same assumption.
- WfsSumQuery.PropertiesRead: records that an attribute named `id` overwrites the `gml:id`.

## Findings

| source | as written | input that shows it | evidently intended | confidence | as-written member | corrected member |
|---|---|---|---|---|---|---|
| exporter/node_modules/@crmackey/shp-write/src/poly.js:124 | `shpLength` takes `feature.length` as the part count | the LineString [[0,0],[1,1]] as POLYLINE: 92 bytes reserved, 88 written | the part count `write` uses (1 for the polyline types) | not executed | ShpPoly.ShpLengthMismatch | ShpPoly.ShpLengthCorrected |

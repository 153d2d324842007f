# Kale deployment panel and processor post-processing, modelled in Dafny

This project models the deployment workflow of the Kale JupyterLab side panel
(`KubeflowKaleLeftPanel`), together with the kernel-call adapters it drives
(`Commands`). It also models the post-processing that the Python
`BaseProcessor` applies to a freshly built pipeline.

- **The progress ledger.** The panel's `deploys` map takes a deploy index to
  a progress record. Updates shallow-merge into an entry, and dismissal only
  marks the entry `deleted`.
- **The module counter.** A counter outside the panel hands out the deploy
  indices.
- **The deployment attempt.** An attempt validates, compiles, uploads, runs
  and polls. Each stage is gated on the previous answer and on the deployment
  type. Every update goes to the attempt's own index, stamped with the panel's
  namespace.
- **The stage adapters.** Each adapter emits a fixed sequence of progress
  updates and returns the kernel's raw answer. A falsy answer means failure.
- **Poll loop and experiments.** The model covers the poll loop, the
  experiment resolution of `getExperiments`, and the way the metadata stored
  in a notebook is normalised when the notebook is loaded. It also covers the
  experiment selection that `render` computes.
- **Kernel query fallbacks.** The namespace, base-image and PodDefault-label
  queries each have an error fallback, and the model covers them.
- **Processor post-processing.** The processor back-reference is set, the
  PodDefault labels are merged into the step defaults, and the defaults are
  then pushed into every step's configuration.

Modules, one per file:

| module | file | content |
|---|---|---|
| `Json` | json.dfy | JavaScript values, truthiness, property access; the classified outcome of a kernel call |
| `Ledger` | ledger.dfy | progress records and the ledger; merge, fold of updates, dismissal, last-write-wins |
| `KaleMetadata` | kalemetadata.dfy | experiments, the panel's metadata record, normalisation of stored metadata, the experiment input selection |
| `Commands` | commands.dfy | the stage adapters, the compile warnings, the compiled-path rewrite, the poll loop, experiment resolution, fallbacks |
| `Workflow` | workflow.dfy | `Attempt`: the updates and kernel calls of one deployment attempt, stage by stage, and what they leave in the entry |
| `LeftPanel` | leftpanel.dfy | the panel class: state, module counter, progress updates, the run gate, the deployment driver, reset, notebook loading |
| `Processors` | processor.dfy | `BaseProcessor`, `Pipeline`, `PipelineConfig`, `Step` and the post-processing |

Kernel answers are parameters. A `DeployEnv` holds the answers one attempt
receives: the notebook path, the validation answer, the compile, upload and
run answers, and the successive poll answers. A `NotebookEnv` holds what
loading a notebook reads. A falsy answer is `None`. A kernel call that raises
is the `Raised` case of `RpcResult`, classified as the transport's `RPCError`
or as any other error.

The panel is a class. Its React state is a field the methods replace, and
`setState` is taken to apply at once. `PanelModule` holds the module-level
values: `deployIndex` and the docker image of `DefaultState.metadata`.

`RunDeploymentCommand` is proved to send exactly the updates of the
specification function `Workflow.Attempt` and to make exactly its calls.
The properties of the attempt are then lemmas about `Attempt`. They cover:

- stage gating;
- the calls made, in order, with their arguments;
- the final value of each tracked field of the entry;
- the full update sequence of a successful run.

## Model

| member | source | states |
|---|---|---|
| Json.Get | labextension/src/widgets/LeftPanel.tsx:270-276 | property access yields `undefined` unless the value is an object holding the key, and then that key's value |
| Json.StringOr | labextension/src/widgets/LeftPanel.tsx:295-300 | `v \|\| fallback` on a string field: a truthy string is kept, any falsy value gives the fallback |
| Json.Strings | labextension/src/lib/Commands.ts:231-235 | the warning lines become an array of the same length holding each line as a string |
| Ledger.Merged | labextension/src/widgets/LeftPanel.tsx:319-327 | `updateDeployProgress`: an absent entry becomes exactly the progress; an existing one gains the progress's fields, whose values win, and keeps its other fields; no other index changes |
| Ledger.Applied | labextension/src/widgets/LeftPanel.tsx:347-351 | sending a sequence of updates to one index adds that index (when something is sent) and leaves every other entry unchanged |
| Ledger.AppliedConcat | labextension/src/widgets/LeftPanel.tsx:347-351 | sending `a` then `b` is sending `a + b` |
| Ledger.AppliedFresh | labextension/src/widgets/LeftPanel.tsx:319-327 | an entry created by a sequence of updates does not depend on the rest of the ledger or on its index |
| Ledger.LastValue | labextension/src/widgets/LeftPanel.tsx:319-327 | the last value a sequence of updates gives a field is none exactly when no update carries the field |
| Ledger.LastValueAt | labextension/src/widgets/LeftPanel.tsx:319-327 | the last value is the one of the last update carrying the field |
| Ledger.LastValueConcat | labextension/src/widgets/LeftPanel.tsx:319-327 | the last value after `a + b` is `b`'s, or `a`'s when `b` does not carry the field |
| Ledger.LastWriteWins | labextension/src/widgets/LeftPanel.tsx:319-327 | after a sequence of updates each field holds the value of the last update that carried it, and a field no update carried keeps its presence and value; a single-valued field such as `message` keeps no history |
| Ledger.MergeTwo | labextension/src/widgets/LeftPanel.tsx:319-327 | merging `{a}` then `{b}` into an absent entry gives `{a, b}` |
| Ledger.MergeThree | labextension/src/widgets/LeftPanel.tsx:319-327 | merging `{a: 3}` afterwards overrides `a` and keeps `b` |
| Ledger.Dismissed | labextension/src/widgets/LeftPanel.tsx:329-333 | `onPanelRemove`: the entry keeps its fields and gains `deleted: true`; the ledger keeps every index and every other entry |
| KaleMetadata.DefaultMetadata | labextension/src/widgets/LeftPanel.tsx:81-98 | the default metadata: empty experiment, names and steps defaults, and the detected docker image |
| KaleMetadata.WithExperiment | labextension/src/widgets/LeftPanel.tsx:122-129 | `updateExperiment`: experiment and legacy `experiment_name` change together, every other field is kept |
| KaleMetadata.Filter | labextension/src/widgets/LeftPanel.tsx:275-277 | `filter`: keeps exactly the elements passing the test, no more elements than given |
| KaleMetadata.FilterHead | labextension/src/widgets/LeftPanel.tsx:278-280 | the head of a filtered list is the first element that passes |
| KaleMetadata.NormaliseMetadata | labextension/src/widgets/LeftPanel.tsx:266-303 | the stored experiment object wins; with only a legacy name, the first listed experiment of that name, else a NEW experiment of that name; no experiment at all gives the empty one; names and description default to `''`, the docker image to the default one, steps defaults are the default `[]`, other stored keys are carried along |
| KaleMetadata.LegacyChoice | labextension/src/widgets/LeftPanel.tsx:276-286 | a legacy name selects the first listed experiment of that name, or a NEW experiment of that name when none is listed |
| KaleMetadata.FirstNamedIsChosen | labextension/src/widgets/LeftPanel.tsx:274-286 | the experiment chosen by legacy name is the first listed one with that name |
| KaleMetadata.ExperimentInput | labextension/src/widgets/LeftPanel.tsx:445-466 | with no experiments listed the input selects nothing and shows `''` |
| KaleMetadata.ExperimentInputChoice | labextension/src/widgets/LeftPanel.tsx:445-466 | the input selects the first experiment matching the metadata's by id or name, else the first listed, and shows its name, or for NEW the metadata's experiment name (the legacy name when that is empty) |
| Commands.ValidateMetadata | labextension/src/lib/Commands.ts:162-184 | `showValidationProgress: true`, then `notebookValidation` with the result, which holds exactly when the answer is truthy |
| Commands.CompileWarnings | labextension/src/lib/Commands.ts:191-217 | no warning when no server image was detected or the images agree; otherwise six lines: the mismatch notice, a blank, the pipeline's image, the server's image, a blank, the advice to delete the pipeline's image, with the source's exact texts |
| Commands.ReplaceFirstAt | labextension/src/lib/Commands.ts:258-261 | `String.replace` with a string pattern replaces exactly the first occurrence |
| Commands.ReplaceFirstAbsent | labextension/src/lib/Commands.ts:258-261 | without an occurrence the text is unchanged |
| Commands.ScriptPathExample | labextension/src/lib/Commands.ts:258-261 | `/a/pipeline.yaml` is shown as `/a/kale.py` |
| Commands.CompilePipeline | labextension/src/lib/Commands.ts:223-265 | progress shown first, then the warnings only when there are some, then `compiledPath` (`'error'` on a falsy answer, the rewritten package path otherwise); returns the raw answer |
| Commands.UploadValue | labextension/src/lib/Commands.ts:282-288 | an upload answer recorded in the ledger is truthy |
| Commands.UploadPipeline | labextension/src/lib/Commands.ts:267-292 | `showUploadProgress: true`, then `{showUploadProgress: false, pipeline: false}` on a falsy answer or `{pipeline: answer}`; returns the raw answer |
| Commands.RunValue | labextension/src/lib/Commands.ts:308-316 | a recorded run is truthy exactly when the run was launched |
| Commands.RunPipeline | labextension/src/lib/Commands.ts:294-320 | `showRunProgress: true`, then `{runPipeline: answer}` or `{showRunProgress: false, runPipeline: false}`; returns the raw answer |
| Commands.PollTraceShape | labextension/src/lib/Commands.ts:146-160 | one update per poll carrying the answer; the first poll asks for the launched run and each later one for the run the previous poll returned, which was still running; polling stops exactly on an answer that does not reschedule |
| Commands.PollRun | labextension/src/lib/Commands.ts:146-160 | the loop over stubbed answers asks for, sends and leaves pending exactly what `PollTrace` says |
| Commands.ThreePolls | labextension/src/lib/Commands.ts:155-158 | answers `Running`, `Running`, `Succeeded` give exactly three polls, whatever would follow |
| Commands.UnknownStatusKeepsPolling | labextension/src/lib/Commands.ts:155-158 | a run whose status stays `null` is polled after every answer |
| Commands.UndefinedStatusStops | labextension/src/lib/Commands.ts:154-158 | a run answer that carries no status is sent and ends polling |
| Commands.FalsyAnswerStops | labextension/src/lib/Commands.ts:155-158 | a falsy answer is sent and ends polling |
| Commands.Fallback | labextension/src/lib/Commands.ts:129-135 | the fallback experiment keeps the first listed one's id and is renamed only when it is NEW, to the metadata's experiment name or else the legacy name |
| Commands.GetExperiments | labextension/src/lib/Commands.ts:104-144 | the list is the kernel's (none for a falsy answer) followed by NEW, and `experiment_name` equals the chosen experiment's name |
| Commands.GetExperimentsChoice | labextension/src/lib/Commands.ts:120-138 | the list is non-empty and ends with NEW; the choice is the first id/name match unless that is NEW or there is none, in which case the fallback |
| Commands.GetBaseImage | labextension/src/lib/Commands.ts:86-102 | an `RPCError` gives `null`, any other error is rethrown, an answer is returned unchanged |
| Commands.GetNamespace | labextension/src/lib/Commands.ts:392-403 | the namespace, or `''` on any error |
| Commands.FindPodDefaultLabelsOnServer | labextension/src/lib/Commands.ts:374-390 | the labels, or `{}` on any error |
| Workflow.CountConcat | labextension/src/widgets/LeftPanel.tsx:372-433 | calls of a stage in `a + b` are those in `a` plus those in `b` |
| Workflow.GetRuns | labextension/src/lib/Commands.ts:146-153 | one `kfp.get_run` call per polled run id, in order |
| Workflow.CountGetRuns | labextension/src/lib/Commands.ts:146-153 | polling makes only poll calls, one per requested id |
| Workflow.Snapshot | labextension/src/widgets/LeftPanel.tsx:353-358 | the attempt's copy of the metadata has the default docker image in place of an empty one, and nothing else changed |
| Workflow.StageGating | labextension/src/widgets/LeftPanel.tsx:360-433 | validation is called once when there is a path, compilation once exactly when validation succeeded, upload once exactly when compilation succeeded and the type is `upload` or `run`, run once exactly when the upload succeeded and the type is `run`; polling only after a launched run, and then at least once |
| Workflow.AttemptCount | labextension/src/widgets/LeftPanel.tsx:360-433 | the number of calls of each stage is the one the reach of the attempt gives |
| Workflow.Stamped | labextension/src/widgets/LeftPanel.tsx:347-351 | `_updateDeployProgress`: every update carries the panel's namespace, and keeps its other fields |
| Workflow.Stamp | labextension/src/widgets/LeftPanel.tsx:347-351 | the stamped updates are the updates, in order, each stamped |
| Workflow.SentConcat | labextension/src/widgets/LeftPanel.tsx:347-351 | sending stamped `a` then stamped `b` is sending stamped `a + b` |
| Workflow.EntryField | labextension/src/widgets/LeftPanel.tsx:347-351 | the entry's namespace is the panel's; every other field holds the last value the attempt sent, and is absent when none was sent |
| Workflow.StampLastValue | labextension/src/widgets/LeftPanel.tsx:347-351 | stamping changes no field but the namespace |
| Workflow.PolledFields | labextension/src/lib/Commands.ts:154-155 | polling writes only `runPipeline` |
| Workflow.UploadedFields | labextension/src/widgets/LeftPanel.tsx:418-433 | after a successful upload, the run and its polls write only the run fields |
| Workflow.UploadedRunShown | labextension/src/widgets/LeftPanel.tsx:422-433 | `showRunProgress` ends true exactly when a run was launched, and is only written for type `run` |
| Workflow.UploadedRunPipeline | labextension/src/widgets/LeftPanel.tsx:422-433 | `runPipeline` ends with the last poll's answer, the launched run before any poll, or `false` when the run failed |
| Workflow.CompileFields | labextension/src/lib/Commands.ts:223-265 | a compilation writes no tracked field but `compiledPath`, which its last update sets |
| Workflow.ValidatedHead | labextension/src/widgets/LeftPanel.tsx:381-399 | the validation message and the compilation leave the message and the compiled path |
| Workflow.ValidatedField | labextension/src/widgets/LeftPanel.tsx:381-436 | after a successful validation each tracked field ends with its expected value |
| Workflow.CompiledField | labextension/src/widgets/LeftPanel.tsx:397-436 | after a successful compilation each tracked field but `compiledPath` ends with its expected value |
| Workflow.UploadHead | labextension/src/widgets/LeftPanel.tsx:397-417 | the compile message and the upload leave the message, `pipeline` (`false` or the answer) and whether the upload progress shows |
| Workflow.UploadedField | labextension/src/widgets/LeftPanel.tsx:418-433 | after a successful upload: the upload message, `pipeline: true`, and the run fields only for type `run` |
| Workflow.AttemptField | labextension/src/widgets/LeftPanel.tsx:360-436 | every tracked field of an attempt ends with the value `Expected` gives |
| Workflow.LocatedField | labextension/src/widgets/LeftPanel.tsx:372-436 | the same, with a notebook path |
| Workflow.ValidationFields | labextension/src/lib/Commands.ts:162-184 | validation writes no tracked field |
| Workflow.FinalEntry | labextension/src/widgets/LeftPanel.tsx:335-437 | the entry an attempt leaves holds the panel's namespace, and each tracked field exactly when `Expected` gives it a value, with that value: `pipeline` ends `false` for compile-only and failed uploads and `true` after a successful one, `message` holds only the last stage's message |
| Workflow.AttemptNonEmpty | labextension/src/widgets/LeftPanel.tsx:360-383 | every attempt with an index sends at least one update |
| Workflow.UploadedCalls | labextension/src/widgets/LeftPanel.tsx:422-433 | after an upload: the run call for type `run`, then the poll calls for a launched run |
| Workflow.CompiledCalls | labextension/src/widgets/LeftPanel.tsx:401-433 | after a compilation: the upload call when asked for, then as above |
| Workflow.ValidatedCalls | labextension/src/widgets/LeftPanel.tsx:372-433 | the calls after validation are the reference list `Requests` after its first call |
| Workflow.AttemptRequests | labextension/src/widgets/LeftPanel.tsx:353-433 | the calls of an attempt are exactly `Requests`: stage order, each only when the previous stage succeeded, the snapshot passed to validation and compilation, the compile answer's package passed to upload and run, the upload's ids passed to run |
| Workflow.NoPathAttempt | labextension/src/widgets/LeftPanel.tsx:360-370 | without a notebook path: one update, no call, and an entry holding only the message and the namespace |
| Workflow.EntryExpected | labextension/src/widgets/LeftPanel.tsx:335-437 | one tracked field of the entry: present exactly when expected, with the expected value |
| Workflow.UploadScenario | labextension/src/widgets/LeftPanel.tsx:401-421 | a successful `upload` attempt of `/a/pipeline.yaml` ends with `pipeline: true`, compiled path `/a/kale.py`, the upload message, no run fields, and no run or poll call |
| Workflow.CompileFailureScenario | labextension/src/widgets/LeftPanel.tsx:386-399 | a failed compilation leaves `compiledPath: 'error'` and the validation message, no upload fields, and no upload, run or poll call |
| Workflow.FullRunSequence | labextension/src/widgets/LeftPanel.tsx:372-433 | the updates of a fully successful run attempt are the stages' updates, in stage order |
| Workflow.FullRunUpdates | labextension/src/widgets/LeftPanel.tsx:372-433 | a fully successful run attempt sends exactly: validation shown, validation passed, its message, compile shown, the warnings if any, the compiled path, its message, upload shown, the upload's answer, its message with `pipeline: true`, run shown, the run, then one update per poll |
| LeftPanel.DefaultState | labextension/src/widgets/LeftPanel.tsx:81-98 | the default state: default metadata, no run, type `compile`, nothing listed, empty ledger, disabled, no namespace |
| LeftPanel.PanelModule.constructor | labextension/src/widgets/LeftPanel.tsx:100 | the counter starts at 0 |
| LeftPanel.DetectedImage | labextension/src/widgets/LeftPanel.tsx:241-246 | the default image becomes the base image when it is a non-empty string, `''` otherwise |
| LeftPanel.Fetched | labextension/src/widgets/LeftPanel.tsx:232-263 | after the backend answered: the namespace, the kernel's experiments (none for a falsy answer) followed by NEW, the request flag lowered, and the metadata's experiment and legacy name set to the experiment `getExperiments` chose; nothing else changes |
| LeftPanel.FetchedExperiment | labextension/src/widgets/LeftPanel.tsx:249-262 | the experiment the panel ends with is the first fetched one matching the metadata's by id or name, unless that match is NEW or there is none, in which case the first fetched one, renamed after the metadata when it is NEW |
| LeftPanel.KubeflowKaleLeftPanel.constructor | labextension/src/widgets/LeftPanel.tsx:102-104 | the panel starts in the default state, and every ledger entry (there are none) belongs to an index already handed out |
| LeftPanel.KubeflowKaleLeftPanel.UpdateDeployProgress | labextension/src/widgets/LeftPanel.tsx:319-327 | the ledger becomes `Merged`, the rest of the state is unchanged, and entries keep indices already handed out |
| LeftPanel.KubeflowKaleLeftPanel.OnPanelRemove | labextension/src/widgets/LeftPanel.tsx:329-333 | the ledger becomes `Dismissed`; the rest of the state is unchanged |
| LeftPanel.KubeflowKaleLeftPanel.UpdateExperiment | labextension/src/widgets/LeftPanel.tsx:122-129 | the metadata becomes `WithExperiment`; the rest of the state is unchanged |
| LeftPanel.KubeflowKaleLeftPanel.ResetState | labextension/src/widgets/LeftPanel.tsx:159-163 | the state becomes the default one but keeps `isEnabled`, which clears the ledger, the experiments and the namespace |
| LeftPanel.KubeflowKaleLeftPanel.ActivateRunDeployState | labextension/src/widgets/LeftPanel.tsx:146-151 | while a deployment runs the call changes nothing; otherwise the type is set and one attempt of that type runs, on the next index, with the run flag lowered again at the end |
| LeftPanel.KubeflowKaleLeftPanel.SetNotebookPanel | labextension/src/widgets/LeftPanel.tsx:219-317 | without an open notebook the state is reset; with a backend, the namespace is read, the default image detected (a rethrown error ends the call) and the experiments fetched; then the metadata is normalised from the stored metadata (after a reset when it names no experiment) or set to the default |
| LeftPanel.KubeflowKaleLeftPanel.LoadBackend | labextension/src/widgets/LeftPanel.tsx:232-263 | the backend part: raises exactly on a rethrown base-image error, after setting only the namespace; otherwise the state is `Fetched` and the default image the detected one |
| LeftPanel.KubeflowKaleLeftPanel.LoadMetadata | labextension/src/widgets/LeftPanel.tsx:266-313 | the metadata part: default metadata when nothing is stored, the normalised metadata otherwise, after a reset when the stored metadata names no experiment |
| LeftPanel.KubeflowKaleLeftPanel.SendProgress | labextension/src/widgets/LeftPanel.tsx:347-351 | each update, stamped with the namespace, is merged into the entry in order; nothing else changes |
| LeftPanel.KubeflowKaleLeftPanel.RunDeploymentCommand | labextension/src/widgets/LeftPanel.tsx:335-437 | without an active notebook only the run flag is lowered and no index is taken; otherwise the counter moves to a fresh index, the updates of `Attempt` go there stamped with the namespace, the calls are `Attempt`'s, no other entry changes, the run flag is lowered, and every entry keeps an index handed out |
| LeftPanel.KubeflowKaleLeftPanel.Deploy | labextension/src/widgets/LeftPanel.tsx:353-370 | the snapshot is taken and, without a path, the single message is sent; the ledger and calls are `Attempt`'s |
| LeftPanel.KubeflowKaleLeftPanel.ValidateStage | labextension/src/widgets/LeftPanel.tsx:372-383 | validation and what follows send and call exactly what `Located` says |
| LeftPanel.KubeflowKaleLeftPanel.CompileStage | labextension/src/widgets/LeftPanel.tsx:381-399 | the validation message, the compilation and what follows are `Validated`'s |
| LeftPanel.KubeflowKaleLeftPanel.UploadStage | labextension/src/widgets/LeftPanel.tsx:397-421 | the compilation message, the upload and what follows are `Compiled`'s |
| LeftPanel.KubeflowKaleLeftPanel.RunStage | labextension/src/widgets/LeftPanel.tsx:418-436 | the upload message, the run and its polls are `Uploaded`'s |
| LeftPanel.KubeflowKaleLeftPanel.PollStage | labextension/src/widgets/LeftPanel.tsx:430-432 | polling a launched run sends and calls what `Polled` says |
| LeftPanel.KubeflowKaleLeftPanel.DeployedEntry | labextension/src/widgets/LeftPanel.tsx:345-351 | the attempt's entry is new, adds exactly its index to the ledger, and is the `Entry` of its updates |
| Processors.PipelineConfig.constructor | backend/kale/processors/baseprocessor.py:38-39 | a configuration holds the step defaults it was built with |
| Processors.Pipeline.constructor | backend/kale/processors/baseprocessor.py:40 | a new pipeline has the configuration, no steps and no processor |
| Processors.CurrentLabels | backend/kale/processors/baseprocessor.py:70-72 | `get("labels", dict())`: `{}` when absent, the mapping when present, none (the merge raises) when it is not a mapping |
| Processors.MergedLabels | backend/kale/processors/baseprocessor.py:70-72 | the PodDefault labels override key by key, keys only in the old labels keep their values, and no other key appears |
| Processors.MergedLabelsIdempotent | backend/kale/processors/baseprocessor.py:70-72 | merging the same PodDefault labels again changes nothing |
| Processors.LookupFailureKeepsLabels | backend/kale/processors/baseprocessor.py:65-72 | when the lookup raised, the labels keep their old value, or become `{}` when absent |
| Processors.Configured | backend/kale/processors/baseprocessor.py:61-72 | `labels` is always present afterwards and is a mapping; no other key changes |
| Processors.Updated | backend/kale/processors/baseprocessor.py:76 | `update`: keys of the defaults take the defaults' values, other keys keep theirs |
| Processors.UpdatedIdempotent | backend/kale/processors/baseprocessor.py:75-76 | updating a step twice with the same defaults is updating it once |
| Processors.StepsSeeLabels | backend/kale/processors/baseprocessor.py:58-59 | a step updated after the merge carries the merged labels |
| Processors.BaseProcessor.constructor | backend/kale/processors/baseprocessor.py:33-40 | a supplied configuration is kept; without one, a fresh one is built unless validation is skipped; a pipeline exists exactly when a configuration does |
| Processors.BaseProcessor.ConfigurePoddefaults | backend/kale/processors/baseprocessor.py:61-72 | the step defaults become `Configured`; raises, changing nothing, without a pipeline or when the old labels are not a mapping |
| Processors.BaseProcessor.ApplyStepsDefaults | backend/kale/processors/baseprocessor.py:74-76 | every step's configuration becomes `Updated` with the step defaults, a step listed twice included; raises without a pipeline |
| Processors.BaseProcessor.PostPipeline | backend/kale/processors/baseprocessor.py:53-59 | the back-reference is set, then the labels merged, then the defaults (with the merged labels) pushed into every step; no step added or removed; when the merge raises, the step defaults and every step's configuration are unchanged |
| Processors.BaseProcessor.Run | backend/kale/processors/baseprocessor.py:42-46 | the built steps are post-processed and the pipeline returned; when the merge raises, the step defaults and the built steps' configurations are unchanged |

## Left out

- Rendering, theming and widget properties are left out, apart from the experiment selection in `render`.
- Saving the notebook, `componentDidUpdate` and the notebook-metadata writes are left out. They are document persistence.
- Kernel transport (`_legacy_executeRpc*`, `RPCUtils`) is not part of this model. Each call's answer is a parameter.
- `resumeStateIfExploreNotebook` and `unmarshalData` are left out. They run code in the kernel and their effect on the panel is not visible here.
- Concurrency is left out: the un-awaited `runDeploymentCommand` and `pollRun`, the 2000 ms timer, and interleaved attempts. One attempt runs to completion. Its polls are sent before the run flag is lowered; the code lowers the flag first and polls later, and the final state is the same. `setState` is taken to apply at once, and the namespace is taken to be constant during an attempt.
- Commands.PollRun: polling is bounded by the stubbed answers. When they run out while the run is still running, the outcome says another poll was pending.
- The metadata record's fields are typed strings. A stored field that is not a string is read as absent, except that `experiment_name` copied from a stored experiment object with no name becomes `''` and not `undefined`.
- After construction (labextension/src/widgets/LeftPanel.tsx:104) or `resetState` (159-163), `state.metadata` is the same object as `DefaultState.metadata`. The base-image write at lines 241-246 therefore also changes the live state's `docker_image` in place, without `setState`. The model keeps the default docker image in `PanelModule` and rebuilds the default metadata as a value, so it does not capture this aliasing. The end state is the same: on every path of `setNotebookPanel` that reaches that write, the metadata step that follows replaces `state.metadata` as a whole. The model does not capture the intermediate state that a concurrent reader could observe.
- Kernel answers are typed records. A truthy compile answer always carries its package path, and a truthy upload answer always carries its pipeline and version ids. The code raises a `TypeError` on a truthy answer without `pipeline_package_path` (labextension/src/lib/Commands.ts:258) or without `pipeline.pipelineid` (labextension/src/widgets/LeftPanel.tsx:425); such answers cannot be expressed. A run's status is any JavaScript value, so an `undefined` status is modelled (`Commands.UndefinedStatusStops`).
- Commands.RunValue: every falsy run answer is recorded as `undefined`. The code records the answer itself, so a poll of a run that `kfp.get_run` reports as Python `None` leaves `runPipeline: null` in the entry (labextension/src/lib/Commands.ts:154-155). The model leaves `undefined` there instead. Gating and polling look only at truthiness, so they are the same whichever falsy value is recorded.
- Workflow.Attempt records an attempt's progress updates and its kernel calls as two separate ordered sequences. How they interleave (an update, then a call, then the next update) is not recorded.
- `to_pipeline` is abstract. Its effect is a parameter of `Run`: the steps it builds. `find_poddefault_labels` is a parameter too, with none meaning that it raised.
- The `PipelineConfig` constructor is not part of this model. What it builds from keyword arguments is a parameter.
- `Pipeline` and `Step` are reduced to the fields the processor touches.
- backend/kale/tests/unit_tests/test_config.py is not part of this model. It tests code that is not among the files modelled.

## Behaviour worth noting

- `message` is a single field that every stage overwrites. No message history is kept.
- After a successful upload, `pipeline` ends `true`. The adapter first records the upload answer there.
- `resetState` clears the ledger, the experiments and the namespace, because `DefaultState` holds them.
  - So loading a notebook whose stored metadata names no experiment discards the experiments and namespace that were just fetched.
- The no-path update also carries the namespace.
- A failed validation sends no message.

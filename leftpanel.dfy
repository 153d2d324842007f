/** The panel component `KubeflowKaleLeftPanel`: its React state, held as a
    field the methods replace (`setState` is taken to apply at once), the
    module-level deploy counter and default docker image it shares, and the
    operations that change them: progress updates, dismissal, the run gate,
    the deployment driver, the reset and the loading of a notebook. */
module LeftPanel {
  import opened Json
  import opened Ledger
  import opened KaleMetadata
  import opened Commands
  import opened Workflow

  /** The panel's state (`IState`). */
  datatype PanelState = PanelState(
    metadata: Metadata,
    runDeployment: bool,
    deploymentType: string,
    deployDebugMessage: bool,
    experiments: seq<Experiment>,
    gettingExperiments: bool,
    deploys: Deploys,
    isEnabled: bool,
    namespace: string)

  /** `DefaultState`, whose metadata carries the default docker image the
      panel last detected. */
  function DefaultState(dockerImage: string): (s: PanelState)
    ensures s.metadata == DefaultMetadata(dockerImage)
    ensures !s.runDeployment && s.deploymentType == "compile" && !s.deployDebugMessage
    ensures s.experiments == [] && !s.gettingExperiments && s.deploys == map[]
    ensures !s.isEnabled && s.namespace == ""
  {
    PanelState(DefaultMetadata(dockerImage), false, "compile", false, [], false, map[], false, "")
  }

  /** The values the module keeps outside any panel: the counter handing out
      deploy indices and the docker image of `DefaultState.metadata`. */
  class PanelModule {
    var deployIndex: nat
    var defaultDockerImage: string

    constructor ()
      ensures deployIndex == 0 && defaultDockerImage == ""
    {
      deployIndex := 0;
      defaultDockerImage := "";
    }
  }

  /** What the panel reads when it loads a notebook: whether one is open and
      how many the tracker holds, whether a backend is present, the Kale
      metadata stored in the notebook (none when the key is absent), and the
      kernel's answers. */
  datatype NotebookEnv = NotebookEnv(
    trackerSize: nat,
    notebookOpen: bool,
    backend: bool,
    stored: Option<map<string, Value>>,
    namespaceAnswer: RpcResult<string>,
    baseImageAnswer: RpcResult<Option<string>>,
    listed: Option<seq<Experiment>>)

  /** The default image after detection: the base image when it is a
      non-empty string, else `''`. */
  function DetectedImage(baseImage: Option<string>): (image: string)
    ensures baseImage.Some? && baseImage.value != "" ==> image == baseImage.value
    ensures baseImage.None? || baseImage.value == "" ==> image == ""
  {
    match baseImage
    case Some(img) => img
    case None => ""
  }

  /** The state once the backend answered: the namespace, the experiments
      the kernel listed (none for a falsy answer) with NEW last, the request
      flag lowered, and the metadata's experiment (and legacy name) replaced
      by the one `getExperiments` resolved; nothing else changes. */
  function Fetched(s: PanelState, nenv: NotebookEnv): (f: PanelState)
    ensures f.namespace == GetNamespace(nenv.namespaceAnswer) && !f.gettingExperiments
    ensures f.experiments == (match nenv.listed case None => [] case Some(es) => es) + [NEW_EXPERIMENT]
    ensures f.metadata.experimentName == f.metadata.experiment.name
    ensures f.metadata ==
      WithExperiment(s.metadata, GetExperiments(s.metadata.experiment, s.metadata.experimentName, nenv.listed).experiment)
    ensures f.(namespace := s.namespace, experiments := s.experiments, gettingExperiments := s.gettingExperiments,
               metadata := s.metadata) == s
  {
    var r := GetExperiments(s.metadata.experiment, s.metadata.experimentName, nenv.listed);
    s.(namespace := GetNamespace(nenv.namespaceAnswer), experiments := r.experiments, gettingExperiments := false,
       metadata := WithExperiment(s.metadata, r.experiment))
  }

  /** The experiment the panel ends with after the backend answered: the
      first fetched experiment matching the metadata's by id or name, unless
      that is NEW or nothing matches, in which case the first fetched one
      (renamed after the metadata when it is NEW). */
  lemma FetchedExperiment(s: PanelState, nenv: NotebookEnv)
    ensures var f := Fetched(s, nenv);
      var p := MatchesExperiment(s.metadata.experiment, s.metadata.experimentName);
      var fallback := Fallback(f.experiments[0], s.metadata.experiment, s.metadata.experimentName);
      (forall i :: FirstWith(f.experiments, p, i) ==>
        f.metadata.experiment == if f.experiments[i].id != NEW_EXPERIMENT.id then f.experiments[i] else fallback) &&
      ((forall j :: 0 <= j < |f.experiments| ==> !p(f.experiments[j])) ==> f.metadata.experiment == fallback)
  {
    GetExperimentsChoice(s.metadata.experiment, s.metadata.experimentName, nenv.listed);
  }

  /** A ledger that gains only the fresh index `n` keeps every entry at an
      index the counter has handed out. */
  lemma FreshIndexBounded(d0: Deploys, d: Deploys, n: int)
    requires forall k :: k in d0 ==> 1 <= k < n
    requires 1 <= n && d.Keys == d0.Keys + {n}
    ensures forall k :: k in d ==> 1 <= k <= n
  {
  }

  class KubeflowKaleLeftPanel {
    var state: PanelState
    const shared: PanelModule

    /** Every ledger entry belongs to an index the counter has handed out. */
    ghost predicate Valid()
      reads this, shared
    {
      forall k :: k in state.deploys ==> 1 <= k <= shared.deployIndex
    }

    constructor (shared: PanelModule)
      ensures this.shared == shared
      ensures state == DefaultState(shared.defaultDockerImage)
      ensures Valid()
    {
      this.shared := shared;
      state := DefaultState(shared.defaultDockerImage);
    }

    /** `updateDeployProgress`: creates or merges the entry at `index`. */
    method UpdateDeployProgress(index: int, progress: Progress)
      modifies this
      ensures state == old(state).(deploys := Merged(old(state.deploys), index, progress))
      ensures old(Valid()) && 1 <= index <= shared.deployIndex ==> Valid()
    {
      state := state.(deploys := Merged(state.deploys, index, progress));
    }

    /** `onPanelRemove`: marks the entry at `index` deleted. */
    method OnPanelRemove(index: int)
      requires index in state.deploys
      modifies this
      ensures state == old(state).(deploys := Dismissed(old(state.deploys), index))
      ensures old(Valid()) ==> Valid()
    {
      state := state.(deploys := Dismissed(state.deploys, index));
    }

    /** `updateExperiment`. */
    method UpdateExperiment(experiment: Experiment)
      modifies this
      ensures state == old(state).(metadata := WithExperiment(old(state.metadata), experiment))
    {
      state := state.(metadata := WithExperiment(state.metadata, experiment));
    }

    /** `resetState`: back to `DefaultState`, keeping `isEnabled`; the
      ledger, the experiments and the namespace are cleared too. */
    method ResetState()
      modifies this
      ensures state == DefaultState(shared.defaultDockerImage).(isEnabled := old(state.isEnabled))
      ensures Valid()
    {
      state := DefaultState(shared.defaultDockerImage).(isEnabled := state.isEnabled);
    }

    /** `activateRunDeployState`: starts an attempt of the given type only
      when none is running; while one runs, the call changes nothing. */
    method ActivateRunDeployState(deploymentType: string, hasNotebook: bool, env: DeployEnv) returns (calls: seq<Call>)
      requires Valid()
      modifies this, shared
      ensures Valid()
      ensures shared.defaultDockerImage == old(shared.defaultDockerImage)
      ensures old(state.runDeployment) ==>
        state == old(state) && shared.deployIndex == old(shared.deployIndex) && calls == []
      ensures !old(state.runDeployment) && !hasNotebook ==>
        state == old(state).(deploymentType := deploymentType) && shared.deployIndex == old(shared.deployIndex) && calls == []
      ensures !old(state.runDeployment) && hasNotebook ==>
        var t := Attempt(old(state.metadata), old(shared.defaultDockerImage), deploymentType, old(state.deployDebugMessage), env);
        shared.deployIndex == old(shared.deployIndex) + 1 &&
        state == old(state).(deploymentType := deploymentType,
                             deploys := Applied(old(state.deploys), shared.deployIndex, Stamp(t.updates, old(state.namespace)))) &&
        calls == t.calls
    {
      if state.runDeployment {
        return [];
      }
      state := state.(runDeployment := true, deploymentType := deploymentType);
      calls := RunDeploymentCommand(hasNotebook, env);
    }

    /** `setNotebookPanel`. Without an open notebook the state is reset.
      Otherwise, with a backend, the namespace is read, the default docker
      image is detected (an error the base-image lookup rethrows ends the
      call, reported as `raised`) and the experiments are fetched; then the
      metadata is read from the notebook: normalised when stored, the
      default otherwise, after a reset when it names no experiment. */
    method SetNotebookPanel(nenv: NotebookEnv) returns (raised: bool)
      modifies this, shared
      ensures shared.deployIndex == old(shared.deployIndex)
      ensures old(Valid()) ==> Valid()
      ensures raised <==>
        nenv.trackerSize > 0 && nenv.notebookOpen && nenv.backend && nenv.baseImageAnswer == Raised(OtherFailure)
      ensures !(nenv.trackerSize > 0 && nenv.notebookOpen) ==>
        state == DefaultState(old(shared.defaultDockerImage)).(isEnabled := old(state.isEnabled)) &&
        shared.defaultDockerImage == old(shared.defaultDockerImage)
      ensures raised ==>
        state == old(state).(namespace := GetNamespace(nenv.namespaceAnswer)) &&
        shared.defaultDockerImage == old(shared.defaultDockerImage)
      ensures nenv.trackerSize > 0 && nenv.notebookOpen && !raised ==>
        shared.defaultDockerImage ==
          if nenv.backend then DetectedImage(GetBaseImage(nenv.baseImageAnswer).value) else old(shared.defaultDockerImage)
      ensures nenv.trackerSize > 0 && nenv.notebookOpen && !raised ==>
        var loaded := if nenv.backend then Fetched(old(state), nenv) else old(state);
        match nenv.stored
        case None => state == loaded.(metadata := DefaultMetadata(shared.defaultDockerImage))
        case Some(raw) =>
          (NamesExperiment(raw) ==>
             state == loaded.(metadata := NormaliseMetadata(raw, loaded.experiments, shared.defaultDockerImage))) &&
          (!NamesExperiment(raw) ==>
             state == DefaultState(shared.defaultDockerImage).(isEnabled := old(state.isEnabled),
                                                               metadata := NormaliseMetadata(raw, [], shared.defaultDockerImage)))
    {
      raised := false;
      if !(nenv.trackerSize > 0 && nenv.notebookOpen) {
        ResetState();
        return;
      }
      if nenv.backend {
        raised := LoadBackend(nenv);
        if raised {
          return;
        }
      }
      LoadMetadata(nenv.stored);
    }

    /** The backend part of `setNotebookPanel`: the namespace, the detected
      base image, and the experiments with the metadata's experiment
      resolved against them. */
    method LoadBackend(nenv: NotebookEnv) returns (raised: bool)
      modifies this, shared
      ensures shared.deployIndex == old(shared.deployIndex)
      ensures raised <==> nenv.baseImageAnswer == Raised(OtherFailure)
      ensures raised ==>
        state == old(state).(namespace := GetNamespace(nenv.namespaceAnswer)) &&
        shared.defaultDockerImage == old(shared.defaultDockerImage)
      ensures !raised ==>
        state == Fetched(old(state), nenv) &&
        shared.defaultDockerImage == DetectedImage(GetBaseImage(nenv.baseImageAnswer).value)
    {
      state := state.(namespace := GetNamespace(nenv.namespaceAnswer));
      var baseImage := GetBaseImage(nenv.baseImageAnswer);
      if baseImage.Raised? {
        return true;
      }
      raised := false;
      shared.defaultDockerImage := DetectedImage(baseImage.value);
      state := state.(gettingExperiments := true);
      var r := GetExperiments(state.metadata.experiment, state.metadata.experimentName, nenv.listed);
      state := state.(experiments := r.experiments, gettingExperiments := false,
                      metadata := state.metadata.(experiment := r.experiment, experimentName := r.experimentName));
    }

    /** The metadata part of `setNotebookPanel`. */
    method LoadMetadata(stored: Option<map<string, Value>>)
      modifies this
      ensures stored.None? ==> state == old(state).(metadata := DefaultMetadata(shared.defaultDockerImage))
      ensures stored.Some? && NamesExperiment(stored.value) ==>
        state == old(state).(metadata := NormaliseMetadata(stored.value, old(state.experiments), shared.defaultDockerImage))
      ensures stored.Some? && !NamesExperiment(stored.value) ==>
        state == DefaultState(shared.defaultDockerImage).(isEnabled := old(state.isEnabled),
                                                          metadata := NormaliseMetadata(stored.value, [], shared.defaultDockerImage))
      ensures old(Valid()) ==> Valid()
    {
      match stored
      case None =>
        state := state.(metadata := DefaultMetadata(shared.defaultDockerImage));
      case Some(raw) =>
        if !NamesExperiment(raw) {
          ResetState();
        }
        state := state.(metadata := NormaliseMetadata(raw, state.experiments, shared.defaultDockerImage));
    }

    /** `_updateDeployProgress` applied to each update of `ps`, in order: the
      update with the panel's namespace set on it goes to `index`. */
    method SendProgress(index: int, ps: seq<Progress>)
      modifies this
      ensures state == old(state).(deploys := Applied(old(state.deploys), index, Stamp(ps, old(state.namespace))))
    {
      var i := 0;
      while i < |ps|
        invariant 0 <= i <= |ps|
        invariant state == old(state).(deploys := Applied(old(state.deploys), index, Stamp(ps[..i], old(state.namespace))))
      {
        SentStep(old(state.deploys), index, ps, i, state.namespace);
        UpdateDeployProgress(index, Stamped(ps[i], state.namespace));
        i := i + 1;
      }
      assert ps[..i] == ps;
    }
  
    /** `runDeploymentCommand`. Without an active notebook it only lowers the
      run flag. Otherwise it takes the next deploy index, and sends to that
      index, stamped with the panel's namespace, exactly the updates of
      `Attempt` for the panel's metadata, default image, deployment type and
      debug flag, making exactly its calls; the run flag is lowered on every
      exit. The new index was not in the ledger, and no other entry
      changes. */
    method RunDeploymentCommand(hasNotebook: bool, env: DeployEnv) returns (calls: seq<Call>)
      requires Valid()
      modifies this, shared
      ensures Valid()
      ensures shared.defaultDockerImage == old(shared.defaultDockerImage)
      ensures !hasNotebook ==>
        state == old(state).(runDeployment := false) && shared.deployIndex == old(shared.deployIndex) && calls == []
      ensures hasNotebook ==>
        var t := Attempt(old(state.metadata), old(shared.defaultDockerImage), old(state.deploymentType),
                         old(state.deployDebugMessage), env);
        shared.deployIndex == old(shared.deployIndex) + 1 &&
        shared.deployIndex !in old(state.deploys) &&
        state == old(state).(runDeployment := false,
                             deploys := Applied(old(state.deploys), shared.deployIndex, Stamp(t.updates, old(state.namespace)))) &&
        calls == t.calls &&
        t.updates != [] && shared.deployIndex in state.deploys &&
        state.deploys[shared.deployIndex] == Entry(t.updates, old(state.namespace))
    {
      if !hasNotebook {
        state := state.(runDeployment := false);
        return [];
      }
      shared.deployIndex := shared.deployIndex + 1;
      ghost var d0 := state.deploys;
      assert forall k :: k in d0 ==> 1 <= k < shared.deployIndex;
      calls := Deploy(shared.deployIndex, env);
      DeployedEntry(d0, shared.deployIndex, old(state.metadata), old(shared.defaultDockerImage), old(state.deploymentType),
                    old(state.deployDebugMessage), env, old(state.namespace));
      FreshIndexBounded(d0, state.deploys, shared.deployIndex);
    }

    /** The stages of one attempt, sending to the ledger entry `index`: the
      metadata is copied with the default docker image filled in, and
      without a notebook path the attempt stops with a message. */
    method Deploy(index: int, env: DeployEnv) returns (calls: seq<Call>)
      modifies this
      ensures var t := Attempt(old(state.metadata), shared.defaultDockerImage, old(state.deploymentType),
                               old(state.deployDebugMessage), env);
        state == old(state).(runDeployment := false,
                             deploys := Applied(old(state.deploys), index, Stamp(t.updates, old(state.namespace)))) &&
        calls == t.calls
    {
      var metadata := state.metadata;
      if metadata.dockerImage == "" {
        metadata := metadata.(dockerImage := shared.defaultDockerImage);
      }
      AttemptExits(state.metadata, shared.defaultDockerImage, state.deploymentType, state.deployDebugMessage, env);
      if env.notebookPath.None? {
        SendProgress(index, [Message(NoPathMessage)]);
        state := state.(runDeployment := false);
        calls := [];
      } else {
        calls := ValidateStage(index, env.notebookPath.value, metadata, env);
      }
    }

    /** With a notebook path: validation, and the compilation when it
      succeeded (`Located`). */
    method ValidateStage(index: int, path: string, metadata: Metadata, env: DeployEnv) returns (calls: seq<Call>)
      modifies this
      ensures var t := Located(path, metadata, shared.defaultDockerImage, old(state.deploymentType),
                               old(state.deployDebugMessage), env);
        state == old(state).(runDeployment := false,
                             deploys := Applied(old(state.deploys), index, Stamp(t.updates, old(state.namespace)))) &&
        calls == t.calls
    {
      LocatedExits(path, metadata, shared.defaultDockerImage, state.deploymentType, state.deployDebugMessage, env);
      ghost var d0 := state.deploys;
      var v := ValidateMetadata(env.validation);
      calls := [ValidateNotebook(path, metadata)];
      SendProgress(index, v.updates);
      if v.result {
        var rest := CompileStage(index, path, metadata, shared.defaultDockerImage, env, d0, v.updates);
        calls := calls + rest;
      } else {
        state := state.(runDeployment := false);
      }
    }

    /** After a successful validation: the validation message, the
      compilation, and the upload when it succeeded (`Validated`). */
    method CompileStage(index: int, path: string, metadata: Metadata, defaultImage: string, env: DeployEnv,
                        ghost d0: Deploys, ghost sent: seq<Progress>)
      returns (calls: seq<Call>)
      requires state.deploys == Applied(d0, index, Stamp(sent, state.namespace))
      modifies this
      ensures var t := Validated(path, metadata, defaultImage, old(state.deploymentType), old(state.deployDebugMessage), env);
        state == old(state).(runDeployment := false, deploys := Applied(d0, index, Stamp(sent + t.updates, old(state.namespace)))) &&
        calls == t.calls
    {
      ValidatedExits(path, metadata, defaultImage, state.deploymentType, state.deployDebugMessage, env);
      var c := CompilePipeline(metadata, defaultImage, env.compiled);
      calls := [CompileNotebook(path, metadata, state.deployDebugMessage)];
      Send(index, [Message(ValidatedMessage)] + c.updates, d0, sent);
      if c.result.None? {
        state := state.(runDeployment := false);
      } else {
        var rest := UploadStage(index, c.result.value, env, d0, sent + ([Message(ValidatedMessage)] + c.updates));
        calls := calls + rest;
        SentAssoc(d0, index, sent, [Message(ValidatedMessage)] + c.updates,
                  Compiled(c.result.value, old(state.deploymentType), env).updates, state.namespace);
      }
    }

    /** After a successful compilation: the compilation message, and the
      upload when the deployment type asks for one (`Compiled`). */
    method UploadStage(index: int, pkg: CompileResponse, env: DeployEnv, ghost d0: Deploys, ghost sent: seq<Progress>)
      returns (calls: seq<Call>)
      requires state.deploys == Applied(d0, index, Stamp(sent, state.namespace))
      modifies this
      ensures var t := Compiled(pkg, old(state.deploymentType), env);
        state == old(state).(runDeployment := false, deploys := Applied(d0, index, Stamp(sent + t.updates, old(state.namespace)))) &&
        calls == t.calls
    {
      CompiledExits(pkg, state.deploymentType, env);
      if state.deploymentType == "upload" || state.deploymentType == "run" {
        var u := UploadPipeline(env.uploaded);
        calls := [UploadPackage(pkg.packagePath, pkg.pipelineMetadata)];
        if u.result.None? {
          Send(index, ([Message(CompiledMessage)] + u.updates) + [NotUploaded], d0, sent);
          state := state.(runDeployment := false);
        } else {
          Send(index, [Message(CompiledMessage)] + u.updates, d0, sent);
          var rest := RunStage(index, pkg, u.result.value, env, d0, sent + ([Message(CompiledMessage)] + u.updates));
          calls := calls + rest;
          ghost var tu := Uploaded(pkg, u.result.value, old(state.deploymentType), env);
          SentAssoc(d0, index, sent, [Message(CompiledMessage)] + u.updates, tu.updates, state.namespace);
        }
      } else {
        Send(index, [Message(CompiledMessage), NotUploaded], d0, sent);
        state := state.(runDeployment := false);
        calls := [];
      }
    }

    /** After a successful upload: the upload message, and the run and its
      polling when the deployment type asks for a run (`Uploaded`). */
    method RunStage(index: int, pkg: CompileResponse, up: UploadResponse, env: DeployEnv,
                    ghost d0: Deploys, ghost sent: seq<Progress>)
      returns (calls: seq<Call>)
      requires state.deploys == Applied(d0, index, Stamp(sent, state.namespace))
      modifies this
      ensures var t := Uploaded(pkg, up, old(state.deploymentType), env);
        state == old(state).(runDeployment := false, deploys := Applied(d0, index, Stamp(sent + t.updates, old(state.namespace)))) &&
        calls == t.calls
    {
      UploadedExits(pkg, up, state.deploymentType, env);
      if state.deploymentType == "run" {
        var r := RunPipeline(env.launched);
        calls := [RunPackage(up.pipelineId, up.versionId, pkg.pipelineMetadata, pkg.packagePath)];
        Send(index, [UploadedUpdate] + r.updates, d0, sent);
        if r.result.Some? {
          var rest := PollStage(index, r.result.value, env, d0, sent + ([UploadedUpdate] + r.updates));
          calls := calls + rest;
          SentAssoc(d0, index, sent, [UploadedUpdate] + r.updates, Polled(r.result.value, env.polls).updates, state.namespace);
        }
      } else {
        Send(index, [UploadedUpdate], d0, sent);
        calls := [];
      }
      state := state.(runDeployment := false);
    }

    /** After a run was launched: poll it until it stops running, each
      answer going to the ledger (`Polled`). */
    method PollStage(index: int, run: RunHandle, env: DeployEnv, ghost d0: Deploys, ghost sent: seq<Progress>)
      returns (calls: seq<Call>)
      requires state.deploys == Applied(d0, index, Stamp(sent, state.namespace))
      modifies this
      ensures var t := Polled(run, env.polls);
        state == old(state).(deploys := Applied(d0, index, Stamp(sent + t.updates, old(state.namespace)))) &&
        calls == t.calls
    {
      var requested, updates, pending := PollRun(run, env.polls);
      Send(index, updates, d0, sent);
      calls := GetRuns(requested);
    }

    /** The attempt's entry in the ledger is new, and every earlier entry
      keeps an index the counter handed out before. */
    lemma DeployedEntry(d0: Deploys, index: int, m: Metadata, defaultImage: string, deploymentType: string,
                        debug: bool, env: DeployEnv, ns: string)
      requires index !in d0
      ensures var t := Attempt(m, defaultImage, deploymentType, debug, env);
        var d := Applied(d0, index, Stamp(t.updates, ns));
        t.updates != [] && d.Keys == d0.Keys + {index} && index in d && d[index] == Entry(t.updates, ns)
    {
      var t := Attempt(m, defaultImage, deploymentType, debug, env);
      AttemptNonEmpty(m, defaultImage, deploymentType, debug, env);
      AppliedFresh(d0, index, Stamp(t.updates, ns));
    }

    /** `SendProgress` continuing an attempt that already sent `sent` to
      `index` of the ledger `d0`. */
    method Send(index: int, ps: seq<Progress>, ghost d0: Deploys, ghost sent: seq<Progress>)
      requires state.deploys == Applied(d0, index, Stamp(sent, state.namespace))
      modifies this
      ensures state == old(state).(deploys := Applied(d0, index, Stamp(sent + ps, old(state.namespace))))
    {
      SendProgress(index, ps);
      SentConcat(d0, index, sent, ps, state.namespace);
    }
  }
}

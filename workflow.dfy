/** One deployment attempt of `runDeploymentCommand`, from the moment its
    deploy index is allocated: the stages validate, compile, upload and run,
    each gated on the previous stage's truthy answer and on the requested
    deployment type, and the polling of a launched run. `Attempt` gives the
    updates the attempt sends to its ledger entry and the kernel calls it
    makes; the panel's method is proved to do exactly this, and the lemmas
    below state what the source promises about it. */
module Workflow {
  import opened Json
  import opened Ledger
  import opened KaleMetadata
  import opened Commands

  /** The kernel's answers for one attempt, and the notebook's path (none
      when the panel cannot resolve one). `polls` stubs the successive
      answers of `kfp.get_run`. */
  datatype DeployEnv = DeployEnv(
    notebookPath: Option<string>,
    validation: Value,
    compiled: Option<CompileResponse>,
    uploaded: Option<UploadResponse>,
    launched: Option<RunHandle>,
    polls: seq<Option<RunHandle>>)

  datatype Stage = Validate | Compile | Upload | Run | Poll
  {
    /** The position of the stage in the workflow. */
    function Rank(): nat
    {
      match this
      case Validate => 0
      case Compile => 1
      case Upload => 2
      case Run => 3
      case Poll => 4
    }
  }

  /** A kernel call of the attempt, with the arguments it carries. */
  datatype Call =
    | ValidateNotebook(path: string, metadata: Metadata)
    | CompileNotebook(path: string, metadata: Metadata, debug: bool)
    | UploadPackage(packagePath: string, pipelineMetadata: Value)
    | RunPackage(pipelineId: string, versionId: string, pipelineMetadata: Value, packagePath: string)
    | GetRun(runId: string)
  {
    function StageOf(): Stage
    {
      match this
      case ValidateNotebook(_, _) => Validate
      case CompileNotebook(_, _, _) => Compile
      case UploadPackage(_, _) => Upload
      case RunPackage(_, _, _, _) => Run
      case GetRun(_) => Poll
    }
  }

  /** The updates sent and the calls made, in order. */
  datatype Trace = Trace(updates: seq<Progress>, calls: seq<Call>)

  function Then(a: Trace, b: Trace): Trace
  {
    Trace(a.updates + b.updates, a.calls + b.calls)
  }

  /** How many calls of stage `s` were made. */
  function Count(calls: seq<Call>, s: Stage): nat
  {
    if calls == [] then 0
    else (if calls[0].StageOf() == s then 1 else 0) + Count(calls[1..], s)
  }

  lemma {:induction false} CountConcat(a: seq<Call>, b: seq<Call>, s: Stage)
    ensures Count(a + b, s) == Count(a, s) + Count(b, s)
  {
    if a != [] {
      assert (a + b)[0] == a[0];
      assert (a + b)[1..] == a[1..] + b;
      CountConcat(a[1..], b, s);
    } else {
      assert a + b == b;
    }
  }

  /** The `kfp.get_run` calls for the run ids polled. */
  function GetRuns(ids: seq<string>): (calls: seq<Call>)
    ensures |calls| == |ids|
    ensures forall k :: 0 <= k < |ids| ==> calls[k] == GetRun(ids[k])
  {
    seq(|ids|, k requires 0 <= k < |ids| => GetRun(ids[k]))
  }

  lemma {:induction false} CountGetRuns(ids: seq<string>, s: Stage)
    ensures Count(GetRuns(ids), s) == if s == Poll then |ids| else 0
  {
    if ids != [] {
      assert GetRuns(ids)[1..] == GetRuns(ids[1..]);
      CountGetRuns(ids[1..], s);
    }
  }

  const NoPathMessage: string := "No active notebook path found."
  const ValidatedMessage: string := "Validation completed successfully"
  const CompiledMessage: string := "Notebook compiled successfully"
  const UploadedMessage: string := "Pipeline uploaded successfully"

  function Message(text: string): Progress
  {
    map["message" := Str(text)]
  }

  /** The update after a successful upload. */
  const UploadedUpdate: Progress := map["message" := Str(UploadedMessage), "pipeline" := Bool(true)]

  /** The update that marks the pipeline as not uploaded. */
  const NotUploaded: Progress := map["pipeline" := Bool(false)]

  /** The attempt's copy of the metadata: an empty docker image is replaced
      by the default one; nothing else changes. */
  function Snapshot(m: Metadata, defaultImage: string): (s: Metadata)
    ensures s.dockerImage == if m.dockerImage == "" then defaultImage else m.dockerImage
    ensures s.(dockerImage := m.dockerImage) == m
  {
    if m.dockerImage == "" then m.(dockerImage := defaultImage) else m
  }

  /** Whether the deployment type asks for an upload. */
  predicate Uploads(deploymentType: string)
  {
    deploymentType == "upload" || deploymentType == "run"
  }

  /** Everything the attempt does once its deploy index is allocated. */
  function Attempt(m: Metadata, defaultImage: string, deploymentType: string, debug: bool, env: DeployEnv): Trace
  {
    var md := Snapshot(m, defaultImage);
    match env.notebookPath
    case None => Trace([Message(NoPathMessage)], [])
    case Some(path) => Located(path, md, defaultImage, deploymentType, debug, env)
  }

  /** With a notebook path: validate. */
  function Located(path: string, md: Metadata, defaultImage: string, deploymentType: string, debug: bool, env: DeployEnv)
    : Trace
  {
    var v := ValidateMetadata(env.validation);
    Then(Trace(v.updates, [ValidateNotebook(path, md)]),
      if v.result then Validated(path, md, defaultImage, deploymentType, debug, env) else Trace([], []))
  }

  /** After a successful validation: compile. */
  function Validated(path: string, md: Metadata, defaultImage: string, deploymentType: string, debug: bool, env: DeployEnv)
    : Trace
  {
    var c := CompilePipeline(md, defaultImage, env.compiled);
    Then(Trace([Message(ValidatedMessage)] + c.updates, [CompileNotebook(path, md, debug)]),
      match c.result
      case None => Trace([], [])
      case Some(pkg) => Compiled(pkg, deploymentType, env))
  }

  /** After a successful compilation: upload when the type asks for it. */
  function Compiled(pkg: CompileResponse, deploymentType: string, env: DeployEnv): Trace
  {
    if Uploads(deploymentType) then
      var u := UploadPipeline(env.uploaded);
      Then(Trace([Message(CompiledMessage)] + u.updates, [UploadPackage(pkg.packagePath, pkg.pipelineMetadata)]),
        match u.result
        case None => Trace([NotUploaded], [])
        case Some(up) => Uploaded(pkg, up, deploymentType, env))
    else Trace([Message(CompiledMessage), NotUploaded], [])
  }

  /** After a successful upload: run when the type asks for it. */
  function Uploaded(pkg: CompileResponse, up: UploadResponse, deploymentType: string, env: DeployEnv): Trace
  {
    if deploymentType == "run" then
      var r := RunPipeline(env.launched);
      Then(Trace([UploadedUpdate] + r.updates, [RunPackage(up.pipelineId, up.versionId, pkg.pipelineMetadata, pkg.packagePath)]),
        match r.result
        case None => Trace([], [])
        case Some(run) => Polled(run, env.polls))
    else Trace([UploadedUpdate], [])
  }

  /** After a run was launched: poll it. */
  function Polled(run: RunHandle, answers: seq<Option<RunHandle>>): Trace
  {
    var p := PollTrace(run.id, answers);
    Trace(p.updates, GetRuns(p.requested))
  }

  /** How far the attempt gets, stage by stage. */
  datatype Reach = Reach(located: bool, validated: bool, compiled: bool, uploading: bool,
                         uploaded: bool, running: bool, launched: bool)

  function ReachOf(deploymentType: string, env: DeployEnv): Reach
  {
    var located := env.notebookPath.Some?;
    var validated := located && Truthy(env.validation);
    var compiled := validated && env.compiled.Some?;
    var uploading := compiled && Uploads(deploymentType);
    var uploaded := uploading && env.uploaded.Some?;
    var running := uploaded && deploymentType == "run";
    var launched := running && env.launched.Some?;
    Reach(located, validated, compiled, uploading, uploaded, running, launched)
  }

  /** Stage gating: each stage is called at most once, and exactly when the
      previous stage succeeded and the deployment type asks for it; polling
      happens only for a launched run. */
  lemma StageGating(m: Metadata, defaultImage: string, deploymentType: string, debug: bool, env: DeployEnv)
    ensures var t := Attempt(m, defaultImage, deploymentType, debug, env);
      var r := ReachOf(deploymentType, env);
      Count(t.calls, Validate) == (if r.located then 1 else 0) &&
      Count(t.calls, Compile) == (if r.validated then 1 else 0) &&
      Count(t.calls, Upload) == (if r.uploading then 1 else 0) &&
      Count(t.calls, Run) == (if r.running then 1 else 0) &&
      (!r.launched ==> Count(t.calls, Poll) == 0) &&
      (r.launched && env.polls != [] ==> Count(t.calls, Poll) > 0)
  {
    AttemptCount(m, defaultImage, deploymentType, debug, env, Validate);
    AttemptCount(m, defaultImage, deploymentType, debug, env, Compile);
    AttemptCount(m, defaultImage, deploymentType, debug, env, Upload);
    AttemptCount(m, defaultImage, deploymentType, debug, env, Run);
    AttemptCount(m, defaultImage, deploymentType, debug, env, Poll);
    if ReachOf(deploymentType, env).launched && env.polls != [] {
      PollTraceShape(env.launched.value.id, env.polls);
    }
  }

  /** The number of calls of stage `s` the attempt makes, stage by stage. */
  function CountIn(deploymentType: string, env: DeployEnv, s: Stage): nat
  {
    var r := ReachOf(deploymentType, env);
    match s
    case Validate => if r.located then 1 else 0
    case Compile => if r.validated then 1 else 0
    case Upload => if r.uploading then 1 else 0
    case Run => if r.running then 1 else 0
    case Poll => if r.launched then |PollTrace(env.launched.value.id, env.polls).requested| else 0
  }

  lemma UploadedCount(pkg: CompileResponse, up: UploadResponse, deploymentType: string, env: DeployEnv, s: Stage)
    requires ReachOf(deploymentType, env).uploaded && up == env.uploaded.value
    ensures Count(Uploaded(pkg, up, deploymentType, env).calls, s) == if s.Rank() >= 3 then CountIn(deploymentType, env, s) else 0
  {
    UploadedExits(pkg, up, deploymentType, env);
    if deploymentType == "run" && env.launched.Some? {
      var polled := Polled(env.launched.value, env.polls);
      CountConcat([RunPackage(up.pipelineId, up.versionId, pkg.pipelineMetadata, pkg.packagePath)], polled.calls, s);
      CountGetRuns(PollTrace(env.launched.value.id, env.polls).requested, s);
    }
  }

  lemma CompiledCount(pkg: CompileResponse, deploymentType: string, env: DeployEnv, s: Stage)
    requires ReachOf(deploymentType, env).compiled && pkg == env.compiled.value
    ensures Count(Compiled(pkg, deploymentType, env).calls, s) == if s.Rank() >= 2 then CountIn(deploymentType, env, s) else 0
  {
    CompiledExits(pkg, deploymentType, env);
    if Uploads(deploymentType) && env.uploaded.Some? {
      var rest := Uploaded(pkg, env.uploaded.value, deploymentType, env);
      CountConcat([UploadPackage(pkg.packagePath, pkg.pipelineMetadata)], rest.calls, s);
      UploadedCount(pkg, env.uploaded.value, deploymentType, env, s);
    }
  }

  lemma ValidatedCount(path: string, md: Metadata, defaultImage: string, deploymentType: string, debug: bool, env: DeployEnv, s: Stage)
    requires ReachOf(deploymentType, env).validated
    ensures Count(Validated(path, md, defaultImage, deploymentType, debug, env).calls, s)
      == if s.Rank() >= 1 then CountIn(deploymentType, env, s) else 0
  {
    ValidatedExits(path, md, defaultImage, deploymentType, debug, env);
    if env.compiled.Some? {
      var rest := Compiled(env.compiled.value, deploymentType, env);
      CountConcat([CompileNotebook(path, md, debug)], rest.calls, s);
      CompiledCount(env.compiled.value, deploymentType, env, s);
    }
  }

  lemma AttemptCount(m: Metadata, defaultImage: string, deploymentType: string, debug: bool, env: DeployEnv, s: Stage)
    ensures Count(Attempt(m, defaultImage, deploymentType, debug, env).calls, s) == CountIn(deploymentType, env, s)
  {
    var md := Snapshot(m, defaultImage);
    AttemptExits(m, defaultImage, deploymentType, debug, env);
    if env.notebookPath.Some? {
      var path := env.notebookPath.value;
      LocatedExits(path, md, defaultImage, deploymentType, debug, env);
      if ReachOf(deploymentType, env).validated {
        var rest := Validated(path, md, defaultImage, deploymentType, debug, env);
        CountConcat([ValidateNotebook(path, md)], rest.calls, s);
        ValidatedCount(path, md, defaultImage, deploymentType, debug, env, s);
      }
    }
  }

  // ------------------------------------------------------------ the entry

  /** `_updateDeployProgress`: an update of the attempt, with the namespace
      the panel holds set on it (replacing one the update carried). */
  function Stamped(p: Progress, ns: string): (q: Progress)
    ensures q.Keys == p.Keys + {"namespace"}
    ensures q["namespace"] == Str(ns)
    ensures forall f :: f in p && f != "namespace" ==> q[f] == p[f]
  {
    p + map["namespace" := Str(ns)]
  }

  function Stamp(ps: seq<Progress>, ns: string): (r: seq<Progress>)
    ensures |r| == |ps|
    ensures forall k :: 0 <= k < |ps| ==> r[k] == Stamped(ps[k], ns)
  {
    seq(|ps|, k requires 0 <= k < |ps| => Stamped(ps[k], ns))
  }

  /** Sending `a` and then `b`, stamped, is sending `a + b`, stamped. */
  lemma SentConcat(deploys: Deploys, index: int, a: seq<Progress>, b: seq<Progress>, ns: string)
    ensures Applied(Applied(deploys, index, Stamp(a, ns)), index, Stamp(b, ns)) == Applied(deploys, index, Stamp(a + b, ns))
  {
    assert Stamp(a + b, ns) == Stamp(a, ns) + Stamp(b, ns);
    AppliedConcat(deploys, index, Stamp(a, ns), Stamp(b, ns));
  }

  /** Sending one more stamped update merges it into the entry. */
  lemma SentStep(deploys: Deploys, index: int, ps: seq<Progress>, i: int, ns: string)
    requires 0 <= i < |ps|
    ensures Applied(deploys, index, Stamp(ps[..i + 1], ns)) ==
      Merged(Applied(deploys, index, Stamp(ps[..i], ns)), index, Stamped(ps[i], ns))
  {
    var st := Stamp(ps[..i + 1], ns);
    assert st[..i] == Stamp(ps[..i], ns);
  }

  /** Sending `sent + head` and then `tail` is sending `sent` and then
      `head + tail`. */
  lemma SentAssoc(deploys: Deploys, index: int, sent: seq<Progress>, head: seq<Progress>, tail: seq<Progress>, ns: string)
    ensures Applied(deploys, index, Stamp((sent + head) + tail, ns)) == Applied(deploys, index, Stamp(sent + (head + tail), ns))
  {
    assert (sent + head) + tail == sent + (head + tail);
  }

  /** `Attempt`, exit by exit: without a path, and with one. */
  lemma AttemptExits(m: Metadata, defaultImage: string, deploymentType: string, debug: bool, env: DeployEnv)
    ensures env.notebookPath.None? ==>
      Attempt(m, defaultImage, deploymentType, debug, env) == Trace([Message(NoPathMessage)], [])
    ensures env.notebookPath.Some? ==>
      Attempt(m, defaultImage, deploymentType, debug, env) ==
      Located(env.notebookPath.value, Snapshot(m, defaultImage), defaultImage, deploymentType, debug, env)
  {
  }

  /** `Located`, exit by exit: after a failed validation, and after a
      successful one. */
  lemma LocatedExits(path: string, md: Metadata, defaultImage: string, deploymentType: string, debug: bool, env: DeployEnv)
    ensures var v := ValidateMetadata(env.validation);
      var call := ValidateNotebook(path, md);
      var rest := Validated(path, md, defaultImage, deploymentType, debug, env);
      (!v.result ==> Located(path, md, defaultImage, deploymentType, debug, env) == Trace(v.updates, [call])) &&
      (v.result ==> Located(path, md, defaultImage, deploymentType, debug, env) == Trace(v.updates + rest.updates, [call] + rest.calls))
  {
  }

  /** `Validated`, exit by exit. */
  lemma ValidatedExits(path: string, md: Metadata, defaultImage: string, deploymentType: string, debug: bool, env: DeployEnv)
    ensures var c := CompilePipeline(md, defaultImage, env.compiled);
      var head := [Message(ValidatedMessage)] + c.updates;
      var call := CompileNotebook(path, md, debug);
      (env.compiled.None? ==> Validated(path, md, defaultImage, deploymentType, debug, env) == Trace(head, [call])) &&
      (env.compiled.Some? ==>
         Validated(path, md, defaultImage, deploymentType, debug, env) ==
         Trace(head + Compiled(env.compiled.value, deploymentType, env).updates,
               [call] + Compiled(env.compiled.value, deploymentType, env).calls))
  {
  }

  /** `Uploaded`, exit by exit. */
  lemma UploadedExits(pkg: CompileResponse, up: UploadResponse, deploymentType: string, env: DeployEnv)
    ensures var r := RunPipeline(env.launched);
      var head := [UploadedUpdate] + r.updates;
      var call := RunPackage(up.pipelineId, up.versionId, pkg.pipelineMetadata, pkg.packagePath);
      (deploymentType == "run" && env.launched.None? ==>
         Uploaded(pkg, up, deploymentType, env) == Trace(head, [call])) &&
      (deploymentType == "run" && env.launched.Some? ==>
         Uploaded(pkg, up, deploymentType, env) ==
         Trace(head + Polled(env.launched.value, env.polls).updates, [call] + Polled(env.launched.value, env.polls).calls)) &&
      (deploymentType != "run" ==> Uploaded(pkg, up, deploymentType, env) == Trace([UploadedUpdate], []))
  {
  }

  /** `Compiled`, exit by exit. */
  lemma CompiledExits(pkg: CompileResponse, deploymentType: string, env: DeployEnv)
    ensures var u := UploadPipeline(env.uploaded);
      var head := [Message(CompiledMessage)] + u.updates;
      var call := UploadPackage(pkg.packagePath, pkg.pipelineMetadata);
      (Uploads(deploymentType) && env.uploaded.None? ==>
         Compiled(pkg, deploymentType, env) == Trace(head + [NotUploaded], [call])) &&
      (Uploads(deploymentType) && env.uploaded.Some? ==>
         Compiled(pkg, deploymentType, env) ==
         Trace(head + Uploaded(pkg, env.uploaded.value, deploymentType, env).updates,
               [call] + Uploaded(pkg, env.uploaded.value, deploymentType, env).calls)) &&
      (!Uploads(deploymentType) ==> Compiled(pkg, deploymentType, env) == Trace([Message(CompiledMessage), NotUploaded], []))
  {
  }

  /** The ledger entry of an attempt that sent the updates `ps`, starting from
      an absent entry (every attempt gets a fresh index). */
  function Entry(ps: seq<Progress>, ns: string): (e: Progress)
    requires ps != []
  {
    Applied(map[], 0, Stamp(ps, ns))[0]
  }

  /** The entry's namespace is the panel's; every other field holds the last
      value the attempt sent for it, and is absent when none was sent. */
  lemma EntryField(ps: seq<Progress>, ns: string, f: string)
    requires ps != []
    ensures f == "namespace" ==> f in Entry(ps, ns) && Entry(ps, ns)[f] == Str(ns)
    ensures f != "namespace" ==> (f in Entry(ps, ns) <==> LastValue(ps, f).Some?)
    ensures f != "namespace" && f in Entry(ps, ns) ==> Entry(ps, ns)[f] == LastValue(ps, f).value
  {
    var st := Stamp(ps, ns);
    LastWriteWins(map[], 0, st, f);
    if f == "namespace" {
      LastValueAt(st, f, |st| - 1);
    } else {
      StampLastValue(ps, ns, f);
    }
  }

  lemma {:induction false} StampLastValue(ps: seq<Progress>, ns: string, f: string)
    requires f != "namespace"
    ensures LastValue(Stamp(ps, ns), f) == LastValue(ps, f)
    decreases |ps|
  {
    if ps != [] {
      var init := ps[..|ps| - 1];
      assert Stamp(ps, ns)[..|ps| - 1] == Stamp(init, ns);
      StampLastValue(init, ns, f);
    }
  }

  /** The message the entry ends with: each stage's message replaces the
      previous one, and a failed validation sends none. */
  function FinalMessage(r: Reach): Option<Value>
  {
    if !r.located then Some(Str(NoPathMessage))
    else if !r.validated then None
    else if !r.compiled then Some(Str(ValidatedMessage))
    else if !r.uploaded then Some(Str(CompiledMessage))
    else Some(Str(UploadedMessage))
  }

  /** The path shown for a compilation: the script's path, or `'error'`. */
  function CompiledPath(compiled: Option<CompileResponse>): Value
  {
    match compiled
    case None => Str("error")
    case Some(pkg) => Str(ScriptPath(pkg.packagePath))
  }

  const RunFields: set<string> := {"showRunProgress", "runPipeline"}

  /** Polling only writes `runPipeline`. */
  lemma PolledFields(run: RunHandle, answers: seq<Option<RunHandle>>, f: string)
    requires f != "runPipeline"
    ensures LastValue(Polled(run, answers).updates, f) == None
  {
    PollTraceShape(run.id, answers);
  }

  lemma UploadedFields(pkg: CompileResponse, up: UploadResponse, deploymentType: string, env: DeployEnv, f: string)
    requires f !in RunFields
    ensures LastValue(Uploaded(pkg, up, deploymentType, env).updates, f) == LastValue([UploadedUpdate], f)
  {
    if deploymentType == "run" {
      var rn := RunPipeline(env.launched);
      var rest := match rn.result case None => Trace([], []) case Some(run) => Polled(run, env.polls);
      LastValueConcat([UploadedUpdate] + rn.updates, rest.updates, f);
      LastValueConcat([UploadedUpdate], rn.updates, f);
      if env.launched.Some? {
        PolledFields(env.launched.value, env.polls, f);
      }
    }
  }

  lemma UploadedRunShown(pkg: CompileResponse, up: UploadResponse, deploymentType: string, env: DeployEnv)
    ensures LastValue(Uploaded(pkg, up, deploymentType, env).updates, "showRunProgress")
      == if deploymentType == "run" then Some(Bool(env.launched.Some?)) else None
  {
    var f := "showRunProgress";
    if deploymentType == "run" {
      var rn := RunPipeline(env.launched);
      var rest := match rn.result case None => Trace([], []) case Some(run) => Polled(run, env.polls);
      LastValueConcat([UploadedUpdate] + rn.updates, rest.updates, f);
      LastValueConcat([UploadedUpdate], rn.updates, f);
      if env.launched.Some? {
        PolledFields(env.launched.value, env.polls, f);
        LastValueAt(rn.updates, f, 0);
      } else {
        LastValueAt(rn.updates, f, 1);
      }
    }
  }

  lemma UploadedRunPipeline(pkg: CompileResponse, up: UploadResponse, deploymentType: string, env: DeployEnv)
    ensures LastValue(Uploaded(pkg, up, deploymentType, env).updates, "runPipeline")
      == if deploymentType == "run" then Some(LastRun(env)) else None
  {
    var f := "runPipeline";
    if deploymentType == "run" {
      var rn := RunPipeline(env.launched);
      var rest := match rn.result case None => Trace([], []) case Some(run) => Polled(run, env.polls);
      LastValueConcat([UploadedUpdate] + rn.updates, rest.updates, f);
      LastValueConcat([UploadedUpdate], rn.updates, f);
      LastValueAt(rn.updates, f, 1);
      if env.launched.Some? {
        var p := PollTrace(env.launched.value.id, env.polls);
        PollTraceShape(env.launched.value.id, env.polls);
        if |p.updates| > 0 {
          LastValueAt(p.updates, f, |p.updates| - 1);
        }
      }
    }
  }

  /** What the entry ends with, field by field, for the fields the stages
      write: the pipeline flag, the message, the compiled path, and whether
      the upload and run progress were shown. */
  function Expected(deploymentType: string, env: DeployEnv, f: string): Option<Value>
  {
    var r := ReachOf(deploymentType, env);
    if f == "pipeline" then (if r.compiled then Some(Bool(r.uploaded)) else None)
    else if f == "message" then FinalMessage(r)
    else if f == "compiledPath" then (if r.validated then Some(CompiledPath(env.compiled)) else None)
    else if f == "showUploadProgress" then (if r.uploading then Some(Bool(r.uploaded)) else None)
    else if f == "showRunProgress" then (if r.running then Some(Bool(r.launched)) else None)
    else if f == "runPipeline" then (if r.running then Some(LastRun(env)) else None)
    else None
  }

  /** The run the entry shows last: `false` when the run was not launched,
      else the answer of the last poll, or the launched run before any. */
  function LastRun(env: DeployEnv): Value
  {
    match env.launched
    case None => Bool(false)
    case Some(run) =>
      var n := |PollTrace(run.id, env.polls).updates|;
      PollTraceShape(run.id, env.polls);
      if n == 0 then RunValue(env.launched) else RunValue(env.polls[n - 1])
  }

  /** The fields whose final value `Expected` gives. */
  const Tracked: set<string> :=
    {"pipeline", "message", "compiledPath", "showUploadProgress", "showRunProgress", "runPipeline"}

  /** A compilation writes none of the tracked fields but `compiledPath`,
      which its last update sets. */
  lemma CompileFields(md: Metadata, defaultImage: string, compiled: Option<CompileResponse>, f: string)
    ensures var c := CompilePipeline(md, defaultImage, compiled);
      f in Tracked && f != "compiledPath" ==> LastValue(c.updates, f) == None
    ensures LastValue(CompilePipeline(md, defaultImage, compiled).updates, "compiledPath") == Some(CompiledPath(compiled))
  {
    var c := CompilePipeline(md, defaultImage, compiled);
    LastValueAt(c.updates, "compiledPath", |c.updates| - 1);
    if f in Tracked && f != "compiledPath" {
      TrackedKey(f);
      forall k | 0 <= k < |c.updates| ensures f !in c.updates[k] {
        assert c.updates[k].Keys <= CompileKeys;
      }
    }
  }

  /** The fields a compilation writes. */
  const CompileKeys: set<string> := {"showCompileProgress", "docManager", "compileWarnings", "compiledPath"}

  /** The tracked fields are none of those validation writes, nor the
      namespace, and `compiledPath` is the only one a compilation writes. */
  lemma TrackedKey(f: string)
    requires f in Tracked
    ensures f != "showValidationProgress" && f != "notebookValidation" && f != "namespace"
    ensures f != "compiledPath" ==> f !in CompileKeys
  {
  }

  lemma ValidatedField(path: string, md: Metadata, defaultImage: string, deploymentType: string, debug: bool, env: DeployEnv, f: string)
    requires ReachOf(deploymentType, env).validated && f in Tracked
    ensures LastValue(Validated(path, md, defaultImage, deploymentType, debug, env).updates, f) == Expected(deploymentType, env, f)
  {
    ValidatedExits(path, md, defaultImage, deploymentType, debug, env);
    var head := [Message(ValidatedMessage)] + CompilePipeline(md, defaultImage, env.compiled).updates;
    ValidatedHead(md, defaultImage, env.compiled, f);
    if env.compiled.Some? {
      var rest := Compiled(env.compiled.value, deploymentType, env);
      LastValueConcat(head, rest.updates, f);
      CompiledField(env.compiled.value, deploymentType, env, f);
    }
  }

  /** What the validation message and the compilation leave in the tracked
      fields: the message and the compiled path, and nothing else. */
  lemma ValidatedHead(md: Metadata, defaultImage: string, compiled: Option<CompileResponse>, f: string)
    requires f in Tracked
    ensures LastValue([Message(ValidatedMessage)] + CompilePipeline(md, defaultImage, compiled).updates, f) ==
      if f == "compiledPath" then Some(CompiledPath(compiled))
      else if f == "message" then Some(Str(ValidatedMessage))
      else None
  {
    var c := CompilePipeline(md, defaultImage, compiled);
    LastValueConcat([Message(ValidatedMessage)], c.updates, f);
    CompileFields(md, defaultImage, compiled, f);
  }

  lemma CompiledField(pkg: CompileResponse, deploymentType: string, env: DeployEnv, f: string)
    requires ReachOf(deploymentType, env).compiled && pkg == env.compiled.value && f in Tracked
    ensures LastValue(Compiled(pkg, deploymentType, env).updates, f)
      == if f == "compiledPath" then None else Expected(deploymentType, env, f)
  {
    CompiledExits(pkg, deploymentType, env);
    if Uploads(deploymentType) {
      var head := [Message(CompiledMessage)] + UploadPipeline(env.uploaded).updates;
      UploadHead(env.uploaded, f);
      if env.uploaded.None? {
        LastValueConcat(head, [NotUploaded], f);
      } else {
        LastValueConcat(head, Uploaded(pkg, env.uploaded.value, deploymentType, env).updates, f);
        UploadedField(pkg, env.uploaded.value, deploymentType, env, f);
      }
    }
  }

  /** What the compilation message and the upload leave in the tracked
      fields: the message, the pipeline flag and whether the upload
      progress shows. */
  lemma UploadHead(response: Option<UploadResponse>, f: string)
    requires f in Tracked
    ensures LastValue([Message(CompiledMessage)] + UploadPipeline(response).updates, f) ==
      if f == "message" then Some(Str(CompiledMessage))
      else if f == "pipeline" then Some(if response.None? then Bool(false) else UploadValue(response.value))
      else if f == "showUploadProgress" then Some(Bool(response.Some?))
      else None
  {
    var u := UploadPipeline(response);
    LastValueConcat([Message(CompiledMessage)], u.updates, f);
    LastValueConcat([u.updates[0]], [u.updates[1]], f);
    assert u.updates == [u.updates[0]] + [u.updates[1]];
  }

  /** What a successful upload and what follows it leave in the tracked
      fields. */
  lemma UploadedField(pkg: CompileResponse, up: UploadResponse, deploymentType: string, env: DeployEnv, f: string)
    requires f in Tracked
    ensures LastValue(Uploaded(pkg, up, deploymentType, env).updates, f) ==
      if f == "message" then Some(Str(UploadedMessage))
      else if f == "pipeline" then Some(Bool(true))
      else if f == "showRunProgress" then (if deploymentType == "run" then Some(Bool(env.launched.Some?)) else None)
      else if f == "runPipeline" then (if deploymentType == "run" then Some(LastRun(env)) else None)
      else None
  {
    if f == "showRunProgress" {
      UploadedRunShown(pkg, up, deploymentType, env);
    } else if f == "runPipeline" {
      UploadedRunPipeline(pkg, up, deploymentType, env);
    } else {
      UploadedFields(pkg, up, deploymentType, env, f);
    }
  }

  /** What an attempt leaves in its entry, for the tracked fields: the value
      `Expected` gives. */
  lemma AttemptField(m: Metadata, defaultImage: string, deploymentType: string, debug: bool, env: DeployEnv, f: string)
    requires f in Tracked
    ensures LastValue(Attempt(m, defaultImage, deploymentType, debug, env).updates, f) == Expected(deploymentType, env, f)
  {
    if env.notebookPath.Some? {
      LocatedField(m, defaultImage, deploymentType, debug, env, f);
    } else {
      var t := Attempt(m, defaultImage, deploymentType, debug, env);
      assert t.updates == [Message(NoPathMessage)];
      if f == "message" {
        LastValueAt(t.updates, f, 0);
      }
    }
  }

  /** Validation writes none of the tracked fields. */
  lemma ValidationFields(response: Value, f: string)
    requires f in Tracked
    ensures LastValue(ValidateMetadata(response).updates, f) == None
  {
    TrackedKey(f);
  }

  lemma LocatedField(m: Metadata, defaultImage: string, deploymentType: string, debug: bool, env: DeployEnv, f: string)
    requires f in Tracked && env.notebookPath.Some?
    ensures LastValue(Attempt(m, defaultImage, deploymentType, debug, env).updates, f) == Expected(deploymentType, env, f)
  {
    var md := Snapshot(m, defaultImage);
    var path := env.notebookPath.value;
    AttemptExits(m, defaultImage, deploymentType, debug, env);
    LocatedExits(path, md, defaultImage, deploymentType, debug, env);
    var v := ValidateMetadata(env.validation);
    ValidationFields(env.validation, f);
    if v.result {
      var rest := Validated(path, md, defaultImage, deploymentType, debug, env);
      LastValueConcat(v.updates, rest.updates, f);
      ValidatedField(path, md, defaultImage, deploymentType, debug, env, f);
    }
  }

  /** The entry an attempt leaves: its namespace is the panel's, and each
      tracked field is present exactly when `Expected` gives it a value,
      with that value. In particular `pipeline` ends `false` for a
      compile-only attempt and for a failed upload and `true` after a
      successful one, and `message` holds only the last stage's message. */
  lemma FinalEntry(m: Metadata, defaultImage: string, deploymentType: string, debug: bool, env: DeployEnv, ns: string)
    ensures var t := Attempt(m, defaultImage, deploymentType, debug, env);
      t.updates != [] &&
      "namespace" in Entry(t.updates, ns) && Entry(t.updates, ns)["namespace"] == Str(ns) &&
      forall f :: f in Tracked ==>
        (f in Entry(t.updates, ns) <==> Expected(deploymentType, env, f).Some?) &&
        (f in Entry(t.updates, ns) ==> Entry(t.updates, ns)[f] == Expected(deploymentType, env, f).value)
  {
    var t := Attempt(m, defaultImage, deploymentType, debug, env);
    AttemptNonEmpty(m, defaultImage, deploymentType, debug, env);
    EntryField(t.updates, ns, "namespace");
    forall f | f in Tracked
      ensures (f in Entry(t.updates, ns) <==> Expected(deploymentType, env, f).Some?) &&
        (f in Entry(t.updates, ns) ==> Entry(t.updates, ns)[f] == Expected(deploymentType, env, f).value)
    {
      EntryExpected(m, defaultImage, deploymentType, debug, env, ns, f);
    }
  }

  /** Every attempt sends at least one update. */
  lemma AttemptNonEmpty(m: Metadata, defaultImage: string, deploymentType: string, debug: bool, env: DeployEnv)
    ensures Attempt(m, defaultImage, deploymentType, debug, env).updates != []
  {
    if env.notebookPath.Some? {
      assert |ValidateMetadata(env.validation).updates| == 2;
    }
  }

  // ------------------------------------------------------------ requests

  /** The kernel calls an attempt makes, stage by stage: each stage's call
      when the attempt gets that far, carrying the snapshot and the previous
      stages' answers, then one `kfp.get_run` per poll. */
  function Requests(md: Metadata, debug: bool, deploymentType: string, env: DeployEnv): seq<Call>
  {
    var r := ReachOf(deploymentType, env);
    (if r.located then [ValidateNotebook(env.notebookPath.value, md)] else []) +
    ((if r.validated then [CompileNotebook(env.notebookPath.value, md, debug)] else []) +
     ((if r.uploading then [UploadPackage(env.compiled.value.packagePath, env.compiled.value.pipelineMetadata)] else []) +
      ((if r.running then
          [RunPackage(env.uploaded.value.pipelineId, env.uploaded.value.versionId,
                      env.compiled.value.pipelineMetadata, env.compiled.value.packagePath)]
        else []) +
       (if r.launched then GetRuns(PollTrace(env.launched.value.id, env.polls).requested) else []))))
  }

  lemma UploadedCalls(pkg: CompileResponse, up: UploadResponse, deploymentType: string, env: DeployEnv)
    requires ReachOf(deploymentType, env).uploaded && pkg == env.compiled.value && up == env.uploaded.value
    ensures var r := ReachOf(deploymentType, env);
      Uploaded(pkg, up, deploymentType, env).calls ==
        (if r.running then [RunPackage(up.pipelineId, up.versionId, pkg.pipelineMetadata, pkg.packagePath)] else []) +
        (if r.launched then GetRuns(PollTrace(env.launched.value.id, env.polls).requested) else [])
  {
    UploadedExits(pkg, up, deploymentType, env);
  }

  lemma CompiledCalls(pkg: CompileResponse, deploymentType: string, env: DeployEnv)
    requires ReachOf(deploymentType, env).compiled && pkg == env.compiled.value
    ensures var r := ReachOf(deploymentType, env);
      Compiled(pkg, deploymentType, env).calls ==
        (if r.uploading then [UploadPackage(pkg.packagePath, pkg.pipelineMetadata)] else []) +
        ((if r.running then
            [RunPackage(env.uploaded.value.pipelineId, env.uploaded.value.versionId, pkg.pipelineMetadata, pkg.packagePath)]
          else []) +
         (if r.launched then GetRuns(PollTrace(env.launched.value.id, env.polls).requested) else []))
  {
    CompiledExits(pkg, deploymentType, env);
    if env.uploaded.Some? && Uploads(deploymentType) {
      UploadedCalls(pkg, env.uploaded.value, deploymentType, env);
    }
  }

  lemma ValidatedCalls(path: string, md: Metadata, defaultImage: string, deploymentType: string, debug: bool, env: DeployEnv)
    requires ReachOf(deploymentType, env).validated && env.notebookPath == Some(path)
    ensures Requests(md, debug, deploymentType, env) ==
      [ValidateNotebook(path, md)] + Validated(path, md, defaultImage, deploymentType, debug, env).calls
  {
    ValidatedExits(path, md, defaultImage, deploymentType, debug, env);
    if env.compiled.Some? {
      CompiledCalls(env.compiled.value, deploymentType, env);
    }
  }

  /** The calls of an attempt are exactly `Requests`: in stage order, each
      made only when the previous stage succeeded, with the snapshot taken
      before validation and each stage's arguments taken from the previous
      stages' answers. */
  lemma AttemptRequests(m: Metadata, defaultImage: string, deploymentType: string, debug: bool, env: DeployEnv)
    ensures Attempt(m, defaultImage, deploymentType, debug, env).calls == Requests(Snapshot(m, defaultImage), debug, deploymentType, env)
  {
    var md := Snapshot(m, defaultImage);
    AttemptExits(m, defaultImage, deploymentType, debug, env);
    if env.notebookPath.Some? {
      LocatedExits(env.notebookPath.value, md, defaultImage, deploymentType, debug, env);
      if ReachOf(deploymentType, env).validated {
        ValidatedCalls(env.notebookPath.value, md, defaultImage, deploymentType, debug, env);
      }
    }
  }

  // ------------------------------------------------------------ scenarios

  /** Without a notebook path the attempt sends the single message and calls
      nothing; its entry holds only that message and the namespace. */
  lemma NoPathAttempt(m: Metadata, defaultImage: string, deploymentType: string, debug: bool, env: DeployEnv, ns: string)
    requires env.notebookPath.None?
    ensures var t := Attempt(m, defaultImage, deploymentType, debug, env);
      t.calls == [] && |t.updates| == 1 &&
      Entry(t.updates, ns) == map["message" := Str(NoPathMessage), "namespace" := Str(ns)]
  {
    AttemptExits(m, defaultImage, deploymentType, debug, env);
    var st := Stamp([Message(NoPathMessage)], ns);
    assert st[0] == Message(NoPathMessage) + map["namespace" := Str(ns)];
    assert st[..0] == [];
    assert Applied(map[], 0, st) == Merged(map[], 0, st[0]);
  }

  /** The entry's value of one tracked field. */
  lemma EntryExpected(m: Metadata, defaultImage: string, deploymentType: string, debug: bool, env: DeployEnv, ns: string, f: string)
    requires f in Tracked
    ensures var t := Attempt(m, defaultImage, deploymentType, debug, env);
      t.updates != [] &&
      (f in Entry(t.updates, ns) <==> Expected(deploymentType, env, f).Some?) &&
      (f in Entry(t.updates, ns) ==> Entry(t.updates, ns)[f] == Expected(deploymentType, env, f).value)
  {
    var t := Attempt(m, defaultImage, deploymentType, debug, env);
    AttemptNonEmpty(m, defaultImage, deploymentType, debug, env);
    TrackedKey(f);
    EntryField(t.updates, ns, f);
    AttemptField(m, defaultImage, deploymentType, debug, env, f);
  }

  /** An attempt of type `upload` whose validation, compilation of
      `/a/pipeline.yaml` and upload succeed ends with `pipeline: true`, the
      compiled path `/a/kale.py`, the upload message, and no run field; it
      neither runs nor polls. */
  lemma UploadScenario(m: Metadata, defaultImage: string, debug: bool, env: DeployEnv, ns: string, packagePath: string)
    requires env.notebookPath.Some? && env.validation == Bool(true)
    requires packagePath == "/a/pipeline.yaml"
    requires env.compiled.Some? && env.compiled.value.packagePath == packagePath
    requires env.uploaded.Some?
    ensures var t := Attempt(m, defaultImage, "upload", debug, env);
      var e := Entry(t.updates, ns);
      "pipeline" in e && e["pipeline"] == Bool(true) &&
      "compiledPath" in e && e["compiledPath"] == Str("/a/kale.py") &&
      "message" in e && e["message"] == Str(UploadedMessage) &&
      "showUploadProgress" in e && e["showUploadProgress"] == Bool(true) &&
      "showRunProgress" !in e && "runPipeline" !in e &&
      Count(t.calls, Run) == 0 && Count(t.calls, Poll) == 0
  {
    var tp := "upload";
    var t := Attempt(m, defaultImage, tp, debug, env);
    var e := Entry(t.updates, ns);
    assert ReachOf(tp, env).uploaded && !ReachOf(tp, env).running;
    assert "pipeline" in e && e["pipeline"] == Bool(true) by {
      EntryExpected(m, defaultImage, tp, debug, env, ns, "pipeline");
    }
    assert "message" in e && e["message"] == Str(UploadedMessage) by {
      EntryExpected(m, defaultImage, tp, debug, env, ns, "message");
    }
    assert "compiledPath" in e && e["compiledPath"] == Str("/a/kale.py") by {
      EntryExpected(m, defaultImage, tp, debug, env, ns, "compiledPath");
      ScriptPathExample(packagePath);
    }
    assert "showUploadProgress" in e && e["showUploadProgress"] == Bool(true) by {
      EntryExpected(m, defaultImage, tp, debug, env, ns, "showUploadProgress");
    }
    assert "showRunProgress" !in e by {
      EntryExpected(m, defaultImage, tp, debug, env, ns, "showRunProgress");
    }
    assert "runPipeline" !in e by {
      EntryExpected(m, defaultImage, tp, debug, env, ns, "runPipeline");
    }
    StageGating(m, defaultImage, tp, debug, env);
  }

  /** When the compilation fails, the entry shows the compiled path
      `'error'` and the validation message, and nothing of the upload: no
      upload or run call is made, whatever the deployment type. */
  lemma CompileFailureScenario(m: Metadata, defaultImage: string, deploymentType: string, debug: bool, env: DeployEnv, ns: string)
    requires env.notebookPath.Some? && Truthy(env.validation) && env.compiled.None?
    ensures var t := Attempt(m, defaultImage, deploymentType, debug, env);
      var e := Entry(t.updates, ns);
      "compiledPath" in e && e["compiledPath"] == Str("error") &&
      "message" in e && e["message"] == Str(ValidatedMessage) &&
      "showUploadProgress" !in e && "pipeline" !in e &&
      Count(t.calls, Upload) == 0 && Count(t.calls, Run) == 0 && Count(t.calls, Poll) == 0
  {
    var t := Attempt(m, defaultImage, deploymentType, debug, env);
    var e := Entry(t.updates, ns);
    assert "compiledPath" in e && e["compiledPath"] == Str("error") by {
      EntryExpected(m, defaultImage, deploymentType, debug, env, ns, "compiledPath");
    }
    assert "message" in e && e["message"] == Str(ValidatedMessage) by {
      EntryExpected(m, defaultImage, deploymentType, debug, env, ns, "message");
    }
    assert "showUploadProgress" !in e by {
      EntryExpected(m, defaultImage, deploymentType, debug, env, ns, "showUploadProgress");
    }
    assert "pipeline" !in e by {
      EntryExpected(m, defaultImage, deploymentType, debug, env, ns, "pipeline");
    }
    StageGating(m, defaultImage, deploymentType, debug, env);
  }

  /** The updates of a run attempt in which every stage succeeds, stage by
      stage. */
  lemma FullRunSequence(m: Metadata, defaultImage: string, debug: bool, env: DeployEnv)
    requires ReachOf("run", env).launched
    ensures var md := Snapshot(m, defaultImage);
      Attempt(m, defaultImage, "run", debug, env).updates ==
        ValidateMetadata(env.validation).updates +
        (([Message(ValidatedMessage)] + CompilePipeline(md, defaultImage, env.compiled).updates) +
         (([Message(CompiledMessage)] + UploadPipeline(env.uploaded).updates) +
          (([UploadedUpdate] + RunPipeline(env.launched).updates) + PollTrace(env.launched.value.id, env.polls).updates)))
  {
    var md := Snapshot(m, defaultImage);
    var path := env.notebookPath.value;
    var pkg := env.compiled.value;
    var up := env.uploaded.value;
    var v := ValidateMetadata(env.validation);
    var c := CompilePipeline(md, defaultImage, env.compiled);
    var u := UploadPipeline(env.uploaded);
    var r := RunPipeline(env.launched);
    var polls := PollTrace(env.launched.value.id, env.polls).updates;
    var tu := Uploaded(pkg, up, "run", env).updates;
    assert tu == ([UploadedUpdate] + r.updates) + polls;
    var tc := Compiled(pkg, "run", env).updates;
    assert tc == ([Message(CompiledMessage)] + u.updates) + tu;
    var tv := Validated(path, md, defaultImage, "run", debug, env).updates;
    assert tv == ([Message(ValidatedMessage)] + c.updates) + tc;
  }

  /** A run attempt in which every stage succeeds sends, in this order:
      validation shown, validation passed, the validation message,
      compilation shown, the warnings when there are any, the compiled path,
      the compilation message, upload shown, the upload's answer, the upload
      message, run shown and the launched run; then one update per poll. */
  lemma FullRunUpdates(m: Metadata, defaultImage: string, debug: bool, env: DeployEnv)
    requires ReachOf("run", env).launched
    ensures var t := Attempt(m, defaultImage, "run", debug, env);
      var md := Snapshot(m, defaultImage);
      var w := if CompileWarnings(md.dockerImage, defaultImage) == [] then 0 else 1;
      var polls := PollTrace(env.launched.value.id, env.polls).updates;
      |t.updates| == 11 + w + |polls| &&
      t.updates[0] == map["showValidationProgress" := Bool(true)] &&
      t.updates[1] == map["notebookValidation" := Bool(true)] &&
      t.updates[2] == Message(ValidatedMessage) &&
      t.updates[3] == CompileShown &&
      (w == 1 ==> t.updates[4] == map["compileWarnings" := Strings(CompileWarnings(md.dockerImage, defaultImage))]) &&
      t.updates[4 + w] == map["compiledPath" := Str(ScriptPath(env.compiled.value.packagePath))] &&
      t.updates[5 + w] == Message(CompiledMessage) &&
      t.updates[6 + w] == map["showUploadProgress" := Bool(true)] &&
      t.updates[7 + w] == map["pipeline" := UploadValue(env.uploaded.value)] &&
      t.updates[8 + w] == UploadedUpdate &&
      t.updates[9 + w] == map["showRunProgress" := Bool(true)] &&
      t.updates[10 + w] == map["runPipeline" := RunValue(env.launched)] &&
      t.updates[11 + w..] == polls
  {
    FullRunSequence(m, defaultImage, debug, env);
    var md := Snapshot(m, defaultImage);
    RunLayout(ValidateMetadata(env.validation).updates, CompilePipeline(md, defaultImage, env.compiled).updates,
      UploadPipeline(env.uploaded).updates, RunPipeline(env.launched).updates,
      PollTrace(env.launched.value.id, env.polls).updates);
  }

  /** Where each stage's updates sit in the updates of a run attempt in
      which every stage succeeds. */
  lemma RunLayout(v: seq<Progress>, c: seq<Progress>, u: seq<Progress>, r: seq<Progress>, polls: seq<Progress>)
    requires |v| == 2 && 2 <= |c| <= 3 && |u| == 2 && |r| == 2
    ensures var t := v + (([Message(ValidatedMessage)] + c) + (([Message(CompiledMessage)] + u) + (([UploadedUpdate] + r) + polls)));
      var w := |c| - 2;
      |t| == 11 + w + |polls| &&
      t[0] == v[0] && t[1] == v[1] && t[2] == Message(ValidatedMessage) && t[3] == c[0] &&
      (w == 1 ==> t[4] == c[1]) && t[4 + w] == c[1 + w] &&
      t[5 + w] == Message(CompiledMessage) && t[6 + w] == u[0] && t[7 + w] == u[1] &&
      t[8 + w] == UploadedUpdate && t[9 + w] == r[0] && t[10 + w] == r[1] && t[11 + w..] == polls
  {
    var w := |c| - 2;
    var tail3 := ([UploadedUpdate] + r) + polls;
    var tail2 := ([Message(CompiledMessage)] + u) + tail3;
    var tail1 := ([Message(ValidatedMessage)] + c) + tail2;
    assert tail3[0] == UploadedUpdate && tail3[1] == r[0] && tail3[2] == r[1] && tail3[3..] == polls;
    assert tail2[0] == Message(CompiledMessage) && tail2[1] == u[0] && tail2[2] == u[1] && tail2[3..] == tail3;
    assert tail1[0] == Message(ValidatedMessage) && tail1[1] == c[0] && tail1[2 + w] == c[1 + w];
    assert w == 1 ==> tail1[2] == c[1];
    assert tail1[3 + w..] == tail2;
    assert (v + tail1)[2..] == tail1;
  }
}

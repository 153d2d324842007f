/** The stage adapters of the deployment (`Commands`): each builds a kernel
    request, reads the kernel's answer (a falsy answer is a failure) and
    reports progress through the `onUpdate` callback. The kernel is an
    oracle: every answer is a parameter. The callback is modelled by the
    ordered list of updates an adapter sends, which the panel applies to its
    ledger in that order. */
module Commands {
  import opened Json
  import opened Ledger
  import opened KaleMetadata

  /** The updates an adapter sent, in order, and what it returned. */
  datatype Emitted<T> = Emitted(updates: seq<Progress>, result: T)

  // ---------------------------------------------------------------- validate

  /** `validateMetadata`: announces validation, then reports and returns
      whether the kernel's answer was truthy. */
  function ValidateMetadata(response: Value): (r: Emitted<bool>)
    ensures r.result <==> Truthy(response)
    ensures |r.updates| == 2
    ensures r.updates[0] == map["showValidationProgress" := Bool(true)]
    ensures r.updates[1] == map["notebookValidation" := Bool(r.result)]
  {
    var ok := Truthy(response);
    Emitted([map["showValidationProgress" := Bool(true)], map["notebookValidation" := Bool(ok)]], ok)
  }

  // ---------------------------------------------------------------- compile

  const ImageMismatch: string :=
    "The image you used to create the notebook server is different from the image you have selected for your pipeline."
  const PipelineImageLead: string := "Your Kubeflow pipeline will use the following image: <pre><b>"
  const ServerImageLead: string := "You created the notebook server using the following image: <pre><b>"
  const ImageTail: string := "</b></pre>"
  const ImageAdvice: string :=
    "To use this notebook server's image as base image for the pipeline steps, delete the existing docker image from the Advanced Settings section."

  /** `getCompileWarnings`: a warning only when a server image was detected
      and the pipeline's image differs from it; the warning names both. */
  function CompileWarnings(dockerImage: string, defaultImage: string): (lines: seq<string>)
    ensures lines == [] <==> defaultImage == "" || dockerImage == defaultImage
    ensures lines != [] ==> |lines| == 6 && lines[1] == "" && lines[4] == ""
    ensures lines != [] ==> lines[0] == ImageMismatch && lines[5] == ImageAdvice
    ensures lines != [] ==> lines[2] == PipelineImageLead + dockerImage + ImageTail
    ensures lines != [] ==> lines[3] == ServerImageLead + defaultImage + ImageTail
  {
    if defaultImage != "" && dockerImage != defaultImage then
      [ImageMismatch, "", PipelineImageLead + dockerImage + ImageTail,
       ServerImageLead + defaultImage + ImageTail, "", ImageAdvice]
    else []
  }

  /** `pat` occurs in `s` at position `i`. */
  predicate OccursAt(s: string, pat: string, i: int)
  {
    0 <= i && i + |pat| <= |s| && s[i..i + |pat|] == pat
  }

  /** JavaScript's `s.replace(pat, rep)` with a string pattern: only the
      first occurrence is replaced (`rep` holds no `$` pattern). */
  function ReplaceFirst(s: string, pat: string, rep: string): (r: string)
    decreases |s|
  {
    if OccursAt(s, pat, 0) then rep + s[|pat|..]
    else if s == [] then s
    else [s[0]] + ReplaceFirst(s[1..], pat, rep)
  }

  lemma OccursAtTail(s: string, pat: string, j: int)
    requires s != [] && 1 <= j
    ensures OccursAt(s, pat, j) <==> OccursAt(s[1..], pat, j - 1)
  {
    if j + |pat| <= |s| {
      assert s[1..][j - 1..j - 1 + |pat|] == s[j..j + |pat|];
    }
  }

  /** No occurrence before `i` in `s` means none before `i - 1` in its tail. */
  lemma NoEarlierInTail(s: string, pat: string, i: int)
    requires s != [] && 1 <= i
    requires forall j :: 0 <= j < i ==> !OccursAt(s, pat, j)
    ensures forall j :: 0 <= j < i - 1 ==> !OccursAt(s[1..], pat, j)
  {
    forall j | 0 <= j < i - 1
      ensures !OccursAt(s[1..], pat, j)
    {
      OccursAtTail(s, pat, j + 1);
    }
  }

  /** Replacing at the first occurrence: the text before it, the
      replacement, and the text after it. */
  lemma {:induction false} ReplaceFirstAt(s: string, pat: string, rep: string, i: nat)
    requires OccursAt(s, pat, i)
    requires forall j :: 0 <= j < i ==> !OccursAt(s, pat, j)
    ensures ReplaceFirst(s, pat, rep) == s[..i] + rep + s[i + |pat|..]
    decreases i
  {
    if i == 0 {
      assert s[..0] == [];
    } else {
      var t := s[1..];
      OccursAtTail(s, pat, i);
      NoEarlierInTail(s, pat, i);
      ReplaceFirstStep(s, pat, rep);
      ReplaceFirstAt(t, pat, rep, i - 1);
      SpliceTail(s, ReplaceFirst(t, pat, rep), rep, i, |pat|);
    }
  }

  /** Before the first occurrence, the first character is kept. */
  lemma ReplaceFirstStep(s: string, pat: string, rep: string)
    requires s != [] && !OccursAt(s, pat, 0)
    ensures ReplaceFirst(s, pat, rep) == [s[0]] + ReplaceFirst(s[1..], pat, rep)
  {
  }

  /** Splicing `rep` into the tail of `s` at `i - 1` is splicing it into
      `s` at `i`, once the first character is put back. */
  lemma SpliceTail(s: string, rt: string, rep: string, i: int, n: nat)
    requires 1 <= i && i + n <= |s|
    requires rt == s[1..][..i - 1] + rep + s[1..][i - 1 + n..]
    ensures [s[0]] + rt == s[..i] + rep + s[i + n..]
  {
    assert s[..i] == [s[0]] + s[1..][..i - 1];
    assert s[1..][i - 1 + n..] == s[i + n..];
  }

  /** Without an occurrence the text is returned unchanged. */
  lemma {:induction false} ReplaceFirstAbsent(s: string, pat: string, rep: string)
    requires forall j :: 0 <= j <= |s| ==> !OccursAt(s, pat, j)
    ensures ReplaceFirst(s, pat, rep) == s
    decreases |s|
  {
    assert !OccursAt(s, pat, 0);
    if s != [] {
      forall j | 0 <= j <= |s| - 1 ensures !OccursAt(s[1..], pat, j) {
        OccursAtTail(s, pat, j + 1);
      }
      ReplaceFirstAbsent(s[1..], pat, rep);
    }
  }

  /** The kernel's answer to a compilation. */
  datatype CompileResponse = CompileResponse(packagePath: string, pipelineMetadata: Value)

  /** The generated script's path shown for a compiled package. */
  function ScriptPath(packagePath: string): string
  {
    ReplaceFirst(packagePath, "pipeline.yaml", "kale.py")
  }

  /** The package `/a/pipeline.yaml` is shown as the script `/a/kale.py`. */
  lemma ScriptPathExample(path: string)
    requires path == "/a/pipeline.yaml"
    ensures ScriptPath(path) == "/a/kale.py"
  {
    var pat := "pipeline.yaml";
    assert path[0..13][0] != pat[0] && path[1..14][0] != pat[0] && path[2..15][0] != pat[0];
    assert path[3..16] == pat;
    ReplaceFirstAt(path, pat, "kale.py", 3);
    assert path[..3] == "/a/" && path[16..] == [];
  }

  /** The first update of a compilation: progress shown, with the document
      manager handed to the progress view. */
  const CompileShown: Progress := map["showCompileProgress" := Bool(true), "docManager" := HostObject]

  /** `compilePipeline`: announces the compilation, then the image warnings
      when there are any, then the compiled path (`'error'` on a falsy
      answer); returns the raw answer. */
  function CompilePipeline(metadata: Metadata, defaultImage: string, response: Option<CompileResponse>)
    : (r: Emitted<Option<CompileResponse>>)
    ensures r.result == response
    ensures var warnings := CompileWarnings(metadata.dockerImage, defaultImage);
      |r.updates| == (if warnings == [] then 2 else 3) &&
      (warnings != [] ==> r.updates[1] == map["compileWarnings" := Strings(warnings)])
    ensures r.updates[0] == CompileShown
    ensures response.None? ==> r.updates[|r.updates| - 1] == map["compiledPath" := Str("error")]
    ensures response.Some? ==>
      r.updates[|r.updates| - 1] == map["compiledPath" := Str(ScriptPath(response.value.packagePath))]
  {
    var warnings := CompileWarnings(metadata.dockerImage, defaultImage);
    var shown := [CompileShown] + (if |warnings| > 0 then [map["compileWarnings" := Strings(warnings)]] else []);
    match response
    case None => Emitted(shown + [map["compiledPath" := Str("error")]], response)
    case Some(c) => Emitted(shown + [map["compiledPath" := Str(ScriptPath(c.packagePath))]], response)
  }

  // ---------------------------------------------------------------- upload

  /** The kernel's answer to an upload. */
  datatype UploadResponse = UploadResponse(alreadyExists: bool, pipelineId: string, versionId: string, name: string)

  /** An upload answer as the object the kernel sends. */
  function UploadValue(u: UploadResponse): (v: Value)
    ensures Truthy(v)
  {
    Obj(map[
      "already_exists" := Bool(u.alreadyExists),
      "pipeline" := Obj(map["pipelineid" := Str(u.pipelineId), "versionid" := Str(u.versionId), "name" := Str(u.name)])])
  }

  /** `uploadPipeline`: announces the upload, then either hides the progress
      and marks the pipeline failed, or records the answer; returns the raw
      answer. */
  function UploadPipeline(response: Option<UploadResponse>): (r: Emitted<Option<UploadResponse>>)
    ensures r.result == response
    ensures |r.updates| == 2 && r.updates[0] == map["showUploadProgress" := Bool(true)]
    ensures response.None? ==> r.updates[1] == map["showUploadProgress" := Bool(false), "pipeline" := Bool(false)]
    ensures response.Some? ==> r.updates[1] == map["pipeline" := UploadValue(response.value)]
  {
    var shown := map["showUploadProgress" := Bool(true)];
    match response
    case None => Emitted([shown, map["showUploadProgress" := Bool(false), "pipeline" := Bool(false)]], response)
    case Some(u) => Emitted([shown, map["pipeline" := UploadValue(u)]], response)
  }

  // ---------------------------------------------------------------- run

  /** A pipeline run as the kernel reports it. Its status is a JavaScript
      value: a string, `null`, or `undefined` when the run carries none. */
  datatype RunHandle = RunHandle(id: string, status: Value)

  /** A run answer as a value: the run object, or `undefined` for a falsy
      answer. */
  function RunValue(run: Option<RunHandle>): (v: Value)
    ensures Truthy(v) <==> run.Some?
  {
    match run
    case None => Undefined
    case Some(h) =>
      Obj(map["id" := Str(h.id), "status" := h.status])
  }

  /** `runPipeline`: announces the run, then records the run or hides the
      progress and marks the run failed; returns the raw answer. */
  function RunPipeline(response: Option<RunHandle>): (r: Emitted<Option<RunHandle>>)
    ensures r.result == response
    ensures |r.updates| == 2 && r.updates[0] == map["showRunProgress" := Bool(true)]
    ensures response.None? ==> r.updates[1] == map["showRunProgress" := Bool(false), "runPipeline" := Bool(false)]
    ensures response.Some? ==> r.updates[1] == map["runPipeline" := RunValue(response)]
  {
    var shown := map["showRunProgress" := Bool(true)];
    match response
    case None => Emitted([shown, map["showRunProgress" := Bool(false), "runPipeline" := Bool(false)]], response)
    case Some(_) => Emitted([shown, map["runPipeline" := RunValue(response)]], response)
  }

  // ---------------------------------------------------------------- poll

  /** `pollRun` polls again, with the run it was just given, exactly when
      that run is truthy and its status is `Running` or `null`. */
  predicate Reschedules(run: Option<RunHandle>)
  {
    run.Some? && (run.value.status == Str("Running") || run.value.status == Null)
  }

  /** The run ids asked for, the updates sent, and whether another poll was
      still due when the stubbed answers ran out. */
  datatype PollOutcome = PollOutcome(requested: seq<string>, updates: seq<Progress>, pending: bool)

  /** The poll update for one answer. */
  function PollUpdate(run: Option<RunHandle>): Progress
  {
    map["runPipeline" := RunValue(run)]
  }

  /** The polls made from the run `runId` when the kernel's successive answers
      are `answers`: each poll asks for the run the previous one returned. */
  function PollTrace(runId: string, answers: seq<Option<RunHandle>>): PollOutcome
    decreases |answers|
  {
    if answers == [] then PollOutcome([], [], true)
    else if Reschedules(answers[0]) then
      var rest := PollTrace(answers[0].value.id, answers[1..]);
      PollOutcome([runId] + rest.requested, [PollUpdate(answers[0])] + rest.updates, rest.pending)
    else PollOutcome([runId], [PollUpdate(answers[0])], false)
  }

  /** What the polls are: one update per poll carrying the answer; the first
      poll asks for the launched run and each later one for the run the
      previous poll returned, which was still running; polling stopped early
      exactly on an answer that does not reschedule. */
  lemma {:induction false} PollTraceShape(runId: string, answers: seq<Option<RunHandle>>)
    ensures var t := PollTrace(runId, answers);
      |t.requested| == |t.updates| <= |answers| &&
      (answers != [] ==> |t.requested| > 0 && t.requested[0] == runId) &&
      (forall k :: 0 <= k < |t.updates| ==> t.updates[k] == PollUpdate(answers[k])) &&
      (forall k :: 0 <= k < |t.requested| - 1 ==> Reschedules(answers[k]) && t.requested[k + 1] == answers[k].value.id) &&
      (t.pending <==> |t.requested| == |answers| && (answers == [] || Reschedules(answers[|answers| - 1])))
    decreases |answers|
  {
    if answers != [] && Reschedules(answers[0]) {
      PollTraceShape(answers[0].value.id, answers[1..]);
      var rest := PollTrace(answers[0].value.id, answers[1..]);
      var t := PollTrace(runId, answers);
      forall k | 1 <= k < |t.updates| ensures t.updates[k] == PollUpdate(answers[k]) {
        assert t.updates[k] == rest.updates[k - 1];
      }
      forall k | 1 <= k < |t.requested| - 1
        ensures Reschedules(answers[k]) && t.requested[k + 1] == answers[k].value.id
      {
        assert t.requested[k + 1] == rest.requested[k];
      }
    }
  }

  /** The polls `t`, preceded by the ones already made. */
  function After(requested: seq<string>, updates: seq<Progress>, t: PollOutcome): PollOutcome
  {
    PollOutcome(requested + t.requested, updates + t.updates, t.pending)
  }

  /** One poll moves from the polls still to come to the ones made. */
  lemma AfterShift(requested: seq<string>, updates: seq<Progress>, id: string, update: Progress, t: PollOutcome)
    ensures After(requested, updates, PollOutcome([id] + t.requested, [update] + t.updates, t.pending)) ==
      After(requested + [id], updates + [update], t)
  {
    assert requested + ([id] + t.requested) == (requested + [id]) + t.requested;
    assert updates + ([update] + t.updates) == (updates + [update]) + t.updates;
  }

  /** `pollRun` with its timer replaced by a loop over stubbed answers: each
      round sends the answer and polls again only while the run is still
      running; the loop also ends when the answers run out. */
  method PollRun(run: RunHandle, answers: seq<Option<RunHandle>>)
    returns (requested: seq<string>, updates: seq<Progress>, pending: bool)
    ensures PollOutcome(requested, updates, pending) == PollTrace(run.id, answers)
  {
    requested, updates, pending := [], [], true;
    var current := run.id;
    var i := 0;
    while pending && i < |answers|
      invariant 0 <= i <= |answers|
      invariant pending ==> PollTrace(run.id, answers) == After(requested, updates, PollTrace(current, answers[i..]))
      invariant !pending ==> PollTrace(run.id, answers) == PollOutcome(requested, updates, false)
      decreases |answers| - i
    {
      var answer := answers[i];
      ghost var rest := answers[i..];
      assert rest[0] == answer && rest[1..] == answers[i + 1..];
      if Reschedules(answer) {
        ghost var later := PollTrace(answer.value.id, answers[i + 1..]);
        assert PollTrace(current, rest) ==
          PollOutcome([current] + later.requested, [PollUpdate(answer)] + later.updates, later.pending);
        AfterShift(requested, updates, current, PollUpdate(answer), later);
        requested, updates := requested + [current], updates + [PollUpdate(answer)];
        current := answer.value.id;
      } else {
        assert PollTrace(current, rest) == PollOutcome([current], [PollUpdate(answer)], false);
        requested, updates := requested + [current], updates + [PollUpdate(answer)];
        pending := false;
      }
      i := i + 1;
    }
    if pending {
      assert answers[i..] == [];
    }
  }

  /** Answers `Running`, `Running`, `Succeeded` give exactly three polls,
      whatever the kernel would have answered next. */
  lemma ThreePolls(runId: string, later: seq<Option<RunHandle>>)
    ensures var answers := [Some(RunHandle("r1", Str("Running"))), Some(RunHandle("r2", Str("Running"))),
                            Some(RunHandle("r3", Str("Succeeded")))] + later;
      var t := PollTrace(runId, answers);
      t.requested == [runId, "r1", "r2"] && !t.pending
  {
    var answers := [Some(RunHandle("r1", Str("Running"))), Some(RunHandle("r2", Str("Running"))),
                    Some(RunHandle("r3", Str("Succeeded")))] + later;
    var third := answers[2..];
    assert third[0] == Some(RunHandle("r3", Str("Succeeded")));
    assert PollTrace("r2", third).requested == ["r2"] && !PollTrace("r2", third).pending;
    assert answers[1..][1..] == third;
    assert PollTrace("r1", answers[1..]).requested == ["r1", "r2"];
  }

  /** While every answer is a run whose status is `null`, polling never stops:
      every answer is polled for and another poll is still due. */
  lemma {:induction false} UnknownStatusKeepsPolling(runId: string, answers: seq<Option<RunHandle>>)
    requires forall k :: 0 <= k < |answers| ==> answers[k].Some? && answers[k].value.status == Null
    ensures |PollTrace(runId, answers).requested| == |answers|
    ensures PollTrace(runId, answers).pending
    decreases |answers|
  {
    if answers != [] {
      UnknownStatusKeepsPolling(answers[0].value.id, answers[1..]);
    }
  }

  /** A run that carries no status ends polling after that poll: only
      `Running` and `null` reschedule, and `undefined` is neither. */
  lemma UndefinedStatusStops(runId: string, answers: seq<Option<RunHandle>>)
    requires answers != [] && answers[0].Some? && answers[0].value.status == Undefined
    ensures PollTrace(runId, answers) == PollOutcome([runId], [map["runPipeline" := RunValue(answers[0])]], false)
  {
  }

  /** A falsy answer ends polling after that poll. */
  lemma FalsyAnswerStops(runId: string, answers: seq<Option<RunHandle>>)
    requires answers != [] && answers[0].None?
    ensures PollTrace(runId, answers) == PollOutcome([runId], [map["runPipeline" := Undefined]], false)
  {
  }

  // ---------------------------------------------------------------- experiments

  /** What `getExperiments` returns. */
  datatype ExperimentsResult = ExperimentsResult(experiments: seq<Experiment>, experiment: Experiment, experimentName: string)

  function MatchesExperiment(experiment: Experiment, experimentName: string): Experiment -> bool
  {
    (e: Experiment) => e.id == experiment.id || e.name == experiment.name || e.name == experimentName
  }

  /** The experiment used when nothing usable matched: the first listed one,
      renamed only when it is the NEW pseudo-experiment (recognised by name). */
  function Fallback(first: Experiment, experiment: Experiment, experimentName: string): (e: Experiment)
    ensures e.id == first.id
    ensures first.name != NEW_EXPERIMENT.name ==> e == first
    ensures first.name == NEW_EXPERIMENT.name ==>
      e.name == (if experiment.name != "" then experiment.name else experimentName)
  {
    if first.name == NEW_EXPERIMENT.name then
      first.(name := if experiment.name != "" then experiment.name else experimentName)
    else first
  }

  /** `getExperiments`: the listed experiments (none for a falsy answer)
      followed by NEW; the first one matching the metadata by id or name
      unless there is none or it is NEW, in which case the fallback. */
  function GetExperiments(experiment: Experiment, experimentName: string, listed: Option<seq<Experiment>>)
    : (r: ExperimentsResult)
    ensures r.experiments == (match listed case None => [] case Some(es) => es) + [NEW_EXPERIMENT]
    ensures r.experimentName == r.experiment.name
  {
    var experiments := match listed case None => [NEW_EXPERIMENT] case Some(es) => es + [NEW_EXPERIMENT];
    var selected := Filter(experiments, MatchesExperiment(experiment, experimentName));
    var chosen :=
      if |selected| == 0 || selected[0].id == NEW_EXPERIMENT.id then Fallback(experiments[0], experiment, experimentName)
      else selected[0];
    ExperimentsResult(experiments, chosen, chosen.name)
  }

  /** The list always ends with NEW, and the experiment chosen is the first
      match unless that match is NEW or there is none. */
  lemma GetExperimentsChoice(experiment: Experiment, experimentName: string, listed: Option<seq<Experiment>>)
    ensures var r := GetExperiments(experiment, experimentName, listed);
      r.experiments != [] && r.experiments[|r.experiments| - 1] == NEW_EXPERIMENT
    ensures var r := GetExperiments(experiment, experimentName, listed);
      forall i :: FirstWith(r.experiments, MatchesExperiment(experiment, experimentName), i) ==>
        r.experiment == if r.experiments[i].id != NEW_EXPERIMENT.id then r.experiments[i]
                        else Fallback(r.experiments[0], experiment, experimentName)
    ensures var r := GetExperiments(experiment, experimentName, listed);
      (forall j :: 0 <= j < |r.experiments| ==> !MatchesExperiment(experiment, experimentName)(r.experiments[j])) ==>
        r.experiment == Fallback(r.experiments[0], experiment, experimentName)
  {
    var r := GetExperiments(experiment, experimentName, listed);
    var p := MatchesExperiment(experiment, experimentName);
    forall i | FirstWith(r.experiments, p, i)
      ensures Filter(r.experiments, p) != [] && Filter(r.experiments, p)[0] == r.experiments[i]
    {
      FilterHead(r.experiments, p, i);
    }
    var f := Filter(r.experiments, p);
    if f != [] {
      assert f[0] in f;
    }
  }

  // ---------------------------------------------------------------- fallbacks

  /** `getBaseImage`: the image (or `null`) the kernel returns; `null` when
      the call fails with an RPC error; any other failure is raised again. */
  function GetBaseImage(answer: RpcResult<Option<string>>): (r: RpcResult<Option<string>>)
    ensures r.Raised? <==> answer == Raised(OtherFailure)
    ensures answer == Raised(RpcFailure) ==> r == Returned(None)
    ensures answer.Returned? ==> r == answer
  {
    match answer
    case Returned(_) => answer
    case Raised(RpcFailure) => Returned(None)
    case Raised(OtherFailure) => answer
  }

  /** `getNamespace`: the namespace, or `''` on any failure. */
  function GetNamespace(answer: RpcResult<string>): (ns: string)
    ensures answer.Returned? ==> ns == answer.value
    ensures answer.Raised? ==> ns == ""
  {
    match answer
    case Returned(ns) => ns
    case Raised(_) => ""
  }

  /** `findPodDefaultLabelsOnServer`: the labels, or none on any failure. */
  function FindPodDefaultLabelsOnServer(answer: RpcResult<map<string, string>>): (labels: map<string, string>)
    ensures answer.Returned? ==> labels == answer.value
    ensures answer.Raised? ==> labels == map[]
  {
    match answer
    case Returned(labels) => labels
    case Raised(_) => map[]
  }
}

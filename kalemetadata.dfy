/** The pipeline metadata the panel keeps for the active notebook
    (`IKaleNotebookMetadata`), the experiments it is matched against, and the
    pure rules that read the notebook's stored metadata and choose what the
    experiment input shows. */
module KaleMetadata {
  import opened Json

  datatype Experiment = Experiment(id: string, name: string)

  /** The pseudo-experiment offered to create a new one. */
  const NEW_EXPERIMENT: Experiment := Experiment("new", "+ New Experiment")

  /** The panel's metadata record. `extra` holds every other key of the
      notebook's stored metadata, which the record spread carries along. */
  datatype Metadata = Metadata(
    experiment: Experiment,
    experimentName: string,
    pipelineName: string,
    pipelineDescription: string,
    dockerImage: string,
    stepsDefaults: seq<string>,
    extra: map<string, Value>)

  /** The keys the metadata record names explicitly. */
  const NamedKeys: set<string> :=
    {"experiment", "experiment_name", "pipeline_name", "pipeline_description", "docker_image", "steps_defaults"}

  /** `DefaultState.metadata`, whose docker image is the one detected for the
      notebook server (a module-level value the panel overwrites). */
  function DefaultMetadata(dockerImage: string): (m: Metadata)
    ensures m.experiment == Experiment("", "") && m.experimentName == ""
    ensures m.pipelineName == "" && m.pipelineDescription == ""
    ensures m.dockerImage == dockerImage && m.stepsDefaults == [] && m.extra == map[]
  {
    Metadata(Experiment("", ""), "", "", "", dockerImage, [], map[])
  }

  /** `updateExperiment`: the experiment and the legacy `experiment_name`
      change together; every other field is kept. */
  function WithExperiment(m: Metadata, e: Experiment): (r: Metadata)
    ensures r.experiment == e && r.experimentName == e.name
    ensures r.(experiment := m.experiment, experimentName := m.experimentName) == m
  {
    m.(experiment := e, experimentName := e.name)
  }

  /** `xs.filter(p)`. */
  function Filter(xs: seq<Experiment>, p: Experiment -> bool): (r: seq<Experiment>)
    ensures |r| <= |xs|
    ensures forall e :: e in r ==> e in xs && p(e)
    ensures forall k :: 0 <= k < |xs| && p(xs[k]) ==> xs[k] in r
  {
    if xs == [] then []
    else (if p(xs[0]) then [xs[0]] else []) + Filter(xs[1..], p)
  }

  /** `i` is the position of the first element of `xs` that passes `p`. */
  predicate FirstWith(xs: seq<Experiment>, p: Experiment -> bool, i: int)
  {
    0 <= i < |xs| && p(xs[i]) && forall j :: 0 <= j < i ==> !p(xs[j])
  }

  /** The head of a filtered list is the first element that passes, and the
      filtered list is empty exactly when nothing passes. */
  lemma {:induction false} FilterHead(xs: seq<Experiment>, p: Experiment -> bool, i: nat)
    requires FirstWith(xs, p, i)
    ensures Filter(xs, p) != [] && Filter(xs, p)[0] == xs[i]
  {
    if i > 0 {
      FilterHead(xs[1..], p, i - 1);
    }
  }

  function NameIs(name: string): Experiment -> bool
  {
    (e: Experiment) => e.name == name
  }

  /** The stored metadata's value at `key` (`undefined` when absent). */
  function Field(raw: map<string, Value>, key: string): Value
  {
    if key in raw then raw[key] else Undefined
  }

  /** Whether the stored metadata names an experiment, by object or by the
      legacy name; when it does not, the panel resets its state first. */
  predicate NamesExperiment(raw: map<string, Value>)
  {
    Truthy(Field(raw, "experiment")) || StringOr(Field(raw, "experiment_name"), "") != ""
  }

  /** The panel's metadata built from the notebook's stored metadata. */
  function NormaliseMetadata(raw: map<string, Value>, experiments: seq<Experiment>, defaultImage: string): (m: Metadata)
    ensures var exp := Field(raw, "experiment");
      Truthy(exp) ==>
        m.experiment == Experiment(StringOr(Get(exp, "id"), ""), StringOr(Get(exp, "name"), "")) &&
        m.experimentName == StringOr(Get(exp, "name"), "")
    ensures var name := StringOr(Field(raw, "experiment_name"), "");
      !Truthy(Field(raw, "experiment")) && name != "" ==>
        m.experimentName == name &&
        (forall i :: FirstWith(experiments, NameIs(name), i) ==> m.experiment == experiments[i]) &&
        ((forall i :: 0 <= i < |experiments| ==> experiments[i].name != name) ==>
          m.experiment == Experiment(NEW_EXPERIMENT.id, name))
    ensures !NamesExperiment(raw) ==> m.experiment == Experiment("", "") && m.experimentName == ""
    ensures m.pipelineName == StringOr(Field(raw, "pipeline_name"), "")
    ensures m.pipelineDescription == StringOr(Field(raw, "pipeline_description"), "")
    ensures m.dockerImage == StringOr(Field(raw, "docker_image"), defaultImage)
    ensures m.dockerImage == "" ==> defaultImage == ""
    ensures m.stepsDefaults == []
    ensures m.extra == raw - NamedKeys
  {
    var exp := Field(raw, "experiment");
    var name := StringOr(Field(raw, "experiment_name"), "");
    var experiment :=
      if Truthy(exp) then Experiment(StringOr(Get(exp, "id"), ""), StringOr(Get(exp, "name"), ""))
      else if name != "" then LegacyChoice(experiments, name)
      else Experiment("", "");
    var experimentName :=
      if Truthy(exp) then StringOr(Get(exp, "name"), "")
      else if name != "" then name
      else "";
    Metadata(experiment, experimentName,
      StringOr(Field(raw, "pipeline_name"), ""),
      StringOr(Field(raw, "pipeline_description"), ""),
      StringOr(Field(raw, "docker_image"), defaultImage),
      [],
      raw - NamedKeys)
  }

  /** The experiment a legacy name selects: the first listed experiment of
      that name, or a new experiment of that name when none is listed. */
  function LegacyChoice(experiments: seq<Experiment>, name: string): (e: Experiment)
    ensures forall i :: FirstWith(experiments, NameIs(name), i) ==> e == experiments[i]
    ensures (forall i :: 0 <= i < |experiments| ==> experiments[i].name != name) ==>
      e == Experiment(NEW_EXPERIMENT.id, name)
  {
    var matching := Filter(experiments, NameIs(name));
    FirstNamedIsChosen(experiments, name);
    assert (forall i :: 0 <= i < |experiments| ==> experiments[i].name != name) ==> matching == [] by {
      if matching != [] {
        assert matching[0] in matching;
      }
    }
    if |matching| > 0 then matching[0] else Experiment(NEW_EXPERIMENT.id, name)
  }

  /** The experiment chosen by legacy name is the first one listed with that
      name; with none listed, a new experiment of that name. */
  lemma FirstNamedIsChosen(experiments: seq<Experiment>, name: string)
    ensures forall i :: FirstWith(experiments, NameIs(name), i) ==>
      Filter(experiments, NameIs(name)) != [] && Filter(experiments, NameIs(name))[0] == experiments[i]
  {
    forall i | FirstWith(experiments, NameIs(name), i)
      ensures Filter(experiments, NameIs(name)) != [] && Filter(experiments, NameIs(name))[0] == experiments[i]
    {
      FilterHead(experiments, NameIs(name), i);
    }
  }

  /** What the experiment input shows: the id it selects and the text it
      holds. */
  datatype InputSelection = InputSelection(selected: string, value: string)

  function IdOrNameIs(x: Experiment): Experiment -> bool
  {
    (e: Experiment) => e.id == x.id || e.name == x.name
  }

  /** The selection computed in `render`: the first listed experiment whose
      id or name matches the metadata's, else the first listed one; a chosen
      NEW experiment shows the metadata's experiment name, or the legacy
      name when that is empty. */
  function ExperimentInput(experiments: seq<Experiment>, m: Metadata): (r: InputSelection)
    ensures experiments == [] ==> r == InputSelection("", "")
  {
    var selected := Filter(experiments, IdOrNameIs(m.experiment));
    var selected := if |experiments| > 0 && |selected| == 0 then selected + [experiments[0]] else selected;
    if |selected| == 0 then InputSelection("", "")
    else
      var chosen := selected[0];
      InputSelection(chosen.id,
        if chosen.id == NEW_EXPERIMENT.id then
          (if m.experiment.name != "" then m.experiment.name else m.experimentName)
        else chosen.name)
  }

  /** The text shown for an experiment the input selects. */
  function ShownName(chosen: Experiment, m: Metadata): string
  {
    if chosen.id == NEW_EXPERIMENT.id then
      (if m.experiment.name != "" then m.experiment.name else m.experimentName)
    else chosen.name
  }

  /** The input selects the first experiment matching the metadata by id or
      name, and when none matches, the first listed experiment. */
  lemma ExperimentInputChoice(experiments: seq<Experiment>, m: Metadata)
    ensures forall i :: FirstWith(experiments, IdOrNameIs(m.experiment), i) ==>
      ExperimentInput(experiments, m) == InputSelection(experiments[i].id, ShownName(experiments[i], m))
    ensures experiments != [] && (forall j :: 0 <= j < |experiments| ==> !IdOrNameIs(m.experiment)(experiments[j])) ==>
      ExperimentInput(experiments, m) == InputSelection(experiments[0].id, ShownName(experiments[0], m))
  {
    var p := IdOrNameIs(m.experiment);
    forall i | FirstWith(experiments, p, i)
      ensures Filter(experiments, p) != [] && Filter(experiments, p)[0] == experiments[i]
    {
      FilterHead(experiments, p, i);
    }
    if experiments != [] && forall j :: 0 <= j < |experiments| ==> !p(experiments[j]) {
      var f := Filter(experiments, p);
      if f != [] {
        assert f[0] in f;
      }
    }
  }
}

/** The backend's `BaseProcessor`: it owns the pipeline a concrete processor
    builds, and after the build it merges the labels of the namespace's
    PodDefaults into the pipeline's step defaults and pushes those defaults
    into every step's configuration. Configuration dictionaries are maps
    from keys to JSON-like values. */
module Processors {
  import opened Json

  /** A configuration dictionary. */
  type Dict = map<string, Value>

  /** The pipeline configuration; only its step defaults are modelled. */
  class PipelineConfig {
    var stepsDefaults: Dict

    constructor (stepsDefaults: Dict)
      ensures this.stepsDefaults == stepsDefaults
    {
      this.stepsDefaults := stepsDefaults;
    }
  }

  /** A pipeline step; only its configuration is modelled. */
  class Step {
    var config: Dict

    constructor (config: Dict)
      ensures this.config == config
    {
      this.config := config;
    }
  }

  /** The pipeline: its configuration, its steps, and the processor that
      generated it. */
  class Pipeline {
    const config: PipelineConfig
    var steps: seq<Step>
    var processor: BaseProcessor?

    constructor (config: PipelineConfig)
      ensures this.config == config && steps == [] && processor == null
    {
      this.config := config;
      steps := [];
      processor := null;
    }
  }

  /** The labels already in the step defaults, as `get("labels", dict())`
      reads them: none when the key holds something that is not a mapping,
      on which the merge raises. */
  function CurrentLabels(stepsDefaults: Dict): (r: Option<Dict>)
    ensures "labels" !in stepsDefaults ==> r == Some(map[])
    ensures "labels" in stepsDefaults && stepsDefaults["labels"].Obj? ==> r == Some(stepsDefaults["labels"].fields)
    ensures r.None? <==> "labels" in stepsDefaults && !stepsDefaults["labels"].Obj?
  {
    if "labels" !in stepsDefaults then Some(map[])
    else if stepsDefaults["labels"].Obj? then Some(stepsDefaults["labels"].fields)
    else None
  }

  /** `{**labels, **podDefaults}`: the PodDefault labels override key by key,
      and a key only the old labels hold keeps its value. */
  function MergedLabels(labels: Dict, podDefaults: map<string, string>): (r: Dict)
    ensures r.Keys == labels.Keys + podDefaults.Keys
    ensures forall k :: k in podDefaults ==> r[k] == Str(podDefaults[k])
    ensures forall k :: k in labels && k !in podDefaults ==> r[k] == labels[k]
  {
    labels + map k | k in podDefaults :: Str(podDefaults[k])
  }

  /** Merging the same PodDefault labels a second time changes nothing. */
  lemma MergedLabelsIdempotent(labels: Dict, podDefaults: map<string, string>)
    ensures MergedLabels(MergedLabels(labels, podDefaults), podDefaults) == MergedLabels(labels, podDefaults)
  {
    var once := MergedLabels(labels, podDefaults);
    var twice := MergedLabels(once, podDefaults);
    assert twice.Keys == once.Keys;
    forall k | k in once
      ensures twice[k] == once[k]
    {
      if k in podDefaults {
        assert twice[k] == Str(podDefaults[k]);
      } else {
        assert twice[k] == once[k];
      }
    }
  }

  /** When the PodDefault lookup raised, the labels keep their old value,
      or become empty when there were none. */
  lemma LookupFailureKeepsLabels(stepsDefaults: Dict)
    requires CurrentLabels(stepsDefaults).Some?
    ensures var r := Configured(stepsDefaults, CurrentLabels(stepsDefaults).value, None);
      r["labels"] == if "labels" in stepsDefaults then stepsDefaults["labels"] else Obj(map[])
  {
    var labels := CurrentLabels(stepsDefaults).value;
    assert MergedLabels(labels, map[]) == labels by {
      assert MergedLabels(labels, map[]).Keys == labels.Keys;
    }
  }

  /** The step defaults after `_configure_poddefaults`, given the old
      labels and the PodDefault labels found (none when the lookup raised). */
  function Configured(stepsDefaults: Dict, labels: Dict, found: Option<map<string, string>>): (r: Dict)
    ensures r.Keys == stepsDefaults.Keys + {"labels"}
    ensures forall k :: k in stepsDefaults && k != "labels" ==> r[k] == stepsDefaults[k]
    ensures r["labels"].Obj?
  {
    var podDefaults := match found case None => map[] case Some(l) => l;
    stepsDefaults["labels" := Obj(MergedLabels(labels, podDefaults))]
  }

  /** A step's configuration after `update(stepsDefaults)`: every key of the
      defaults takes the defaults' value, and every other key keeps its own. */
  function Updated(config: Dict, stepsDefaults: Dict): (r: Dict)
    ensures r.Keys == config.Keys + stepsDefaults.Keys
    ensures forall k :: k in stepsDefaults ==> r[k] == stepsDefaults[k]
    ensures forall k :: k in config && k !in stepsDefaults ==> r[k] == config[k]
  {
    config + stepsDefaults
  }

  /** Updating twice with the same defaults is updating once, so a step
      listed twice ends like a step listed once. */
  lemma UpdatedIdempotent(config: Dict, stepsDefaults: Dict)
    ensures Updated(Updated(config, stepsDefaults), stepsDefaults) == Updated(config, stepsDefaults)
  {
    var once := Updated(config, stepsDefaults);
    assert Updated(once, stepsDefaults).Keys == once.Keys;
  }

  /** After the post-processing, every step sees the merged labels. */
  lemma StepsSeeLabels(config: Dict, stepsDefaults: Dict, labels: Dict, found: Option<map<string, string>>)
    ensures var sd := Configured(stepsDefaults, labels, found);
      var podDefaults := match found case None => map[] case Some(l) => l;
      "labels" in Updated(config, sd) && Updated(config, sd)["labels"] == Obj(MergedLabels(labels, podDefaults))
  {
  }

  class BaseProcessor {
    var config: PipelineConfig?
    var pipeline: Pipeline?

    /** `__init__`: a supplied configuration is kept; without one, and
      unless validation is skipped, one is built from the keyword arguments
      (the step defaults the configuration class would produce from them
      are given as `built`). A pipeline exists exactly when a configuration
      does. */
    constructor (config: PipelineConfig?, skipValidation: bool, built: Dict)
      ensures config != null ==> this.config == config
      ensures config == null && !skipValidation ==>
        this.config != null && fresh(this.config) && this.config.stepsDefaults == built
      ensures config == null && skipValidation ==> this.config == null
      ensures (pipeline != null) <==> (this.config != null)
      ensures pipeline != null ==>
        fresh(pipeline) && pipeline.config == this.config && pipeline.steps == [] && pipeline.processor == null
    {
      var c := config;
      if config == null && !skipValidation {
        c := new PipelineConfig(built);
      }
      this.config := c;
      if c != null {
        pipeline := new Pipeline(c);
      } else {
        pipeline := null;
      }
    }

    /** `_configure_poddefaults`: the step defaults' labels become the old
      labels overridden by the PodDefault labels found (`found` is none when
      the lookup raised, which is logged and counts as no labels). Raises,
      changing nothing, when there is no pipeline or the old labels are not
      a mapping. */
    method ConfigurePoddefaults(found: Option<map<string, string>>) returns (raised: bool)
      modifies if pipeline != null then {pipeline.config} else {}
      ensures raised <==> pipeline == null || CurrentLabels(old(pipeline.config.stepsDefaults)).None?
      ensures pipeline != null && raised ==> pipeline.config.stepsDefaults == old(pipeline.config.stepsDefaults)
      ensures !raised ==>
        var sd := old(pipeline.config.stepsDefaults);
        pipeline.config.stepsDefaults == Configured(sd, CurrentLabels(sd).value, found)
    {
      if pipeline == null {
        return true;
      }
      var labels := CurrentLabels(pipeline.config.stepsDefaults);
      if labels.None? {
        return true;
      }
      var podDefaults: map<string, string> := map[];
      if found.Some? {
        podDefaults := found.value;
      }
      raised := false;
      pipeline.config.stepsDefaults :=
        pipeline.config.stepsDefaults["labels" := Obj(MergedLabels(labels.value, podDefaults))];
    }

    /** `_apply_steps_defaults`: every step's configuration is updated with
      the step defaults; no step is added or removed. A step listed twice is
      updated twice, which ends the same. */
    method ApplyStepsDefaults() returns (raised: bool)
      modifies if pipeline != null then set j | 0 <= j < |pipeline.steps| :: pipeline.steps[j] else {}
      ensures raised <==> pipeline == null
      ensures pipeline != null ==>
        forall j :: 0 <= j < |pipeline.steps| ==>
          pipeline.steps[j].config == Updated(old(pipeline.steps[j].config), pipeline.config.stepsDefaults)
    {
      if pipeline == null {
        return true;
      }
      raised := false;
      var steps := pipeline.steps;
      var sd := pipeline.config.stepsDefaults;
      var i := 0;
      while i < |steps|
        invariant 0 <= i <= |steps|
        invariant forall j :: 0 <= j < |steps| ==>
          steps[j].config == if steps[j] in steps[..i] then Updated(old(steps[j].config), sd) else old(steps[j].config)
      {
        var step := steps[i];
        if step in steps[..i] {
          UpdatedIdempotent(old(step.config), sd);
        }
        step.config := Updated(step.config, sd);
        assert steps[..i + 1] == steps[..i] + [step];
        i := i + 1;
      }
      assert steps[..i] == steps;
    }

    /** `run`: the concrete processor's `to_pipeline` builds the steps
      (given here as `produced`), the pipeline is post-processed, and the
      pipeline is returned. Without a pipeline the post-processing raises. */
    method Run(produced: seq<Step>, found: Option<map<string, string>>) returns (p: Pipeline?, raised: bool)
      modifies if pipeline != null then {pipeline, pipeline.config} else {}
      modifies set j | 0 <= j < |produced| :: produced[j]
      ensures raised <==> pipeline == null || CurrentLabels(old(pipeline.config.stepsDefaults)).None?
      ensures !raised ==> p == pipeline
      ensures pipeline != null ==> pipeline.processor == this && pipeline.steps == produced
      ensures pipeline != null && raised ==>
        pipeline.config.stepsDefaults == old(pipeline.config.stepsDefaults) &&
        forall j :: 0 <= j < |produced| ==> produced[j].config == old(produced[j].config)
      ensures !raised ==>
        var sd := old(pipeline.config.stepsDefaults);
        pipeline.config.stepsDefaults == Configured(sd, CurrentLabels(sd).value, found) &&
        forall j :: 0 <= j < |produced| ==>
          produced[j].config == Updated(old(produced[j].config), pipeline.config.stepsDefaults)
    {
      if pipeline == null {
        return null, true;
      }
      pipeline.steps := produced;
      raised := PostPipeline(found);
      p := pipeline;
    }

    /** `_post_pipeline`: the pipeline learns its processor, then the
      PodDefault labels are merged, and only then are the defaults pushed
      into the steps, so every step sees the merged labels. Without a
      pipeline the back-reference is skipped and the merge raises. */
    method PostPipeline(found: Option<map<string, string>>) returns (raised: bool)
      modifies if pipeline != null then {pipeline, pipeline.config} + set j | 0 <= j < |pipeline.steps| :: pipeline.steps[j] else {}
      ensures raised <==> pipeline == null || CurrentLabels(old(pipeline.config.stepsDefaults)).None?
      ensures pipeline != null ==> pipeline.processor == this && pipeline.steps == old(pipeline.steps)
      ensures pipeline != null && raised ==>
        pipeline.config.stepsDefaults == old(pipeline.config.stepsDefaults) &&
        forall j :: 0 <= j < |pipeline.steps| ==> pipeline.steps[j].config == old(pipeline.steps[j].config)
      ensures !raised ==>
        var sd := old(pipeline.config.stepsDefaults);
        pipeline.config.stepsDefaults == Configured(sd, CurrentLabels(sd).value, found) &&
        forall j :: 0 <= j < |pipeline.steps| ==>
          pipeline.steps[j].config == Updated(old(pipeline.steps[j].config), pipeline.config.stepsDefaults)
    {
      if pipeline != null {
        pipeline.processor := this;
      }
      raised := ConfigurePoddefaults(found);
      if raised {
        return;
      }
      raised := ApplyStepsDefaults();
    }
  }
}

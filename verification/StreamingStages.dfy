/** What a client sees of the engine's stages: which steps, in which order. */
module StreamingStages {
  import opened Options
  import opened Streaming
  import opened StreamingRuns

  const ENGINE_STAGES: seq<string> := ["plan", "prompt", "llm", "guard", "execute", "interpret"]

  const UI_STEPS: seq<string> := ["understand", "generate", "validate", "execute", "interpret"]

  /** The step that shows the stage. */
  predicate ShownAs(stage: string, step: string) {
    || (stage == "plan" && step == "understand") || (stage == "prompt" && step == "understand")
    || (stage == "llm" && step == "generate") || (stage == "guard" && step == "validate")
    || (stage == "execute" && step == "execute") || (stage == "interpret" && step == "interpret")
  }

  /** The table has these six pairs and no others. */
  lemma StageTable(stage: string, step: string)
    ensures UiStep(stage) == Some(step) <==> ShownAs(stage, step)
    ensures UiStep(stage).None? <==> stage !in ENGINE_STAGES
  {
    assert ENGINE_STAGES[0] == "plan" && ENGINE_STAGES[1] == "prompt" && ENGINE_STAGES[2] == "llm";
    assert ENGINE_STAGES[3] == "guard" && ENGINE_STAGES[4] == "execute" && ENGINE_STAGES[5] == "interpret";
  }

  /** The positions of the transitions whose stage has a step, in order. */
  function Positions(script: seq<Transition>): (ps: seq<nat>)
    ensures forall k :: 0 <= k < |ps| ==> ps[k] < |script|
    ensures forall j, k :: 0 <= j < k < |ps| ==> ps[j] < ps[k]
    ensures forall i: nat :: i < |script| ==> (i in ps <==> script[i].stage in ENGINE_STAGES)
  {
    if script == [] then []
    else
      var n := |script| - 1;
      var before := Positions(script[..n]);
      assert forall i :: 0 <= i < n ==> script[..n][i] == script[i];
      if script[n].stage in ENGINE_STAGES then before + [n] else before
  }

  /** The stages shown are, one by one, the steps of those transitions with their states. */
  predicate Shows(script: seq<Transition>, stages: seq<Message>) {
    && |stages| == |Positions(script)|
    && forall k :: 0 <= k < |stages| ==>
         var t := script[Positions(script)[k]];
         stages[k].Stage? && ShownAs(t.stage, stages[k].step) && stages[k].state == t.state
  }

  lemma {:induction false} MappedSnoc(script: seq<Transition>, t: Transition)
    ensures Mapped(script + [t]) == Mapped(script) + OnStage(t)
  {
    if script == [] {
      assert script + [t] == [t];
    } else {
      assert (script + [t])[1..] == script[1..] + [t];
      MappedSnoc(script[1..], t);
    }
  }

  lemma OnStageShows(t: Transition)
    ensures if t.stage in ENGINE_STAGES then
              |OnStage(t)| == 1 && OnStage(t)[0].Stage? && ShownAs(t.stage, OnStage(t)[0].step)
              && OnStage(t)[0].state == t.state
            else OnStage(t) == []
  {
    hide ENGINE_STAGES, ShownAs, UiStep;
    StageTable(t.stage, if UiStep(t.stage).Some? then UiStep(t.stage).value else "");
  }

  lemma PositionsSnoc(script: seq<Transition>, t: Transition)
    ensures Positions(script + [t]) == Positions(script) + if t.stage in ENGINE_STAGES then [|script|] else []
  {
    assert (script + [t])[..|script|] == script;
  }

  lemma ShowsSnoc(script: seq<Transition>, stages: seq<Message>, t: Transition)
    requires Shows(script, stages)
    ensures Shows(script + [t], stages + OnStage(t))
  {
    OnStageShows(t);
    PositionsSnoc(script, t);
    hide OnStage, ShownAs, ENGINE_STAGES, Positions;
    var ps, all := Positions(script), script + [t];
    forall k | 0 <= k < |stages| ensures all[Positions(all)[k]] == script[ps[k]] {
      assert Positions(all)[k] == ps[k];
    }
  }

  lemma {:induction false} MappedShows(script: seq<Transition>)
    ensures Shows(script, Mapped(script))
  {
    if script != [] {
      var n := |script| - 1;
      MappedShows(script[..n]);
      hide OnStage, Shows;
      assert script == script[..n] + [script[n]];
      MappedSnoc(script[..n], script[n]);
      ShowsSnoc(script[..n], Mapped(script[..n]), script[n]);
    }
  }

  /** A finished stream showed the step of every transition that has one, in the engine's order and
      with its state, and nothing else before its last frame: the turn, or the failure if it raised. */
  lemma FinishedShows(cfg: Config, requests: seq<Spec>, actions: seq<Action>, i: nat)
    requires Run(cfg, Initial(cfg, requests), actions).Some? && i < |requests|
    ensures var st := Run(cfg, Initial(cfg, requests), actions).value;
            && |st.streams| == |requests|
            && (st.streams[i].phase.Finished? ==>
                  var frames := st.streams[i].frames;
                  && frames != []
                  && (if requests[i].streaming then Shows(requests[i].script, frames[..|frames| - 1])
                      else |frames| == 1)
                  && frames[|frames| - 1] == (if requests[i].turnReturns then Turn else Failed))
  {
    hide Run, Initial, Shows, Mapped;
    StreamContent(cfg, requests, actions, i);
    MappedShows(requests[i].script);
    var st := Run(cfg, Initial(cfg, requests), actions).value;
    var frames := st.streams[i].frames;
    assert st.streams[i].phase.Finished? && requests[i].streaming ==>
             frames[..|frames| - 1] == Mapped(requests[i].script);
  }

  /** Whatever stands in `names` of `order` stands in that order. */
  predicate InOrder(names: seq<string>, order: seq<string>) {
    forall i, j, a, b ::
      0 <= i < j < |names| && 0 <= a < |order| && 0 <= b < |order| && names[i] == order[a] && names[j] == order[b] ==>
        a <= b
  }

  function StageNames(script: seq<Transition>): seq<string> {
    seq(|script|, i requires 0 <= i < |script| => script[i].stage)
  }

  function StepNames(stages: seq<Message>): seq<string> {
    seq(|stages|, i requires 0 <= i < |stages| => if stages[i].Stage? then stages[i].step else "")
  }

  /** The place of a step among the steps from the place of its stage among the stages. */
  function StepPlace(a: nat): nat { if a == 0 then 0 else a - 1 }

  lemma StepsFollowStages(stage: string, step: string, a: nat, b: nat)
    requires ShownAs(stage, step) && a < |ENGINE_STAGES| && ENGINE_STAGES[a] == stage
    requires b < |UI_STEPS| && UI_STEPS[b] == step
    ensures b == StepPlace(a)
  {
  }

  lemma StageHasPlace(stage: string) returns (a: nat)
    requires stage in ENGINE_STAGES
    ensures a < |ENGINE_STAGES| && ENGINE_STAGES[a] == stage
  {
    a :| a < |ENGINE_STAGES| && ENGINE_STAGES[a] == stage;
  }

  /** When the engine passes its stages in their order, the client sees the steps in theirs. */
  lemma StepsInOrder(script: seq<Transition>, stages: seq<Message>)
    requires Shows(script, stages) && InOrder(StageNames(script), ENGINE_STAGES)
    ensures InOrder(StepNames(stages), UI_STEPS)
  {
    hide ShownAs;
    var ps, names, steps := Positions(script), StageNames(script), StepNames(stages);
    forall i, j, a, b | 0 <= i < j < |steps| && 0 <= a < |UI_STEPS| && 0 <= b < |UI_STEPS|
                        && steps[i] == UI_STEPS[a] && steps[j] == UI_STEPS[b]
      ensures a <= b
    {
      assert ps[i] in ps && ps[j] in ps && ps[i] < ps[j];
      var x := StageHasPlace(script[ps[i]].stage);
      var y := StageHasPlace(script[ps[j]].stage);
      StepsFollowStages(script[ps[i]].stage, steps[i], x, a);
      StepsFollowStages(script[ps[j]].stage, steps[j], y, b);
      assert names[ps[i]] == ENGINE_STAGES[x] && names[ps[j]] == ENGINE_STAGES[y];
    }
  }
}

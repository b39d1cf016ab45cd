// The stage runner: runs a list of steps in order and stops at the first one
// that raises, re-raising its exception. A step's import, lookup and call are
// one oracle from the state of the world to the new state and an outcome.

module PipelineRunner {
  import opened Values
  import Location = TransformDimLocation
  import Parameter = TransformDimParameter

  /** A step: the module to import and the function to call in it. */
  datatype Step = Step(moduleName: string, functionName: string)

  const DailySteps: seq<Step> := [
    Step("src.extract_openaq_locations", "main"),
    Step("src.extract_openaq_sensors", "main"),
    Step("src.extract_openaq_meausurements", "main"),
    Step("src.transform_dim_location", "main"),
    Step("src.transform_dim_sensor", "main"),
    Step("src.transform_fact_measurements", "main"),
    Step("src.load_dim_location", "load_dim_location"),
    Step("src.load_dim_sensor", "load_dim_sensor"),
    Step("src.load_fact_measurements", "load_fact_measurements")
  ]

  const WeeklySteps: seq<Step> := [
    Step("src.extract_openaq_parameters", "main"),
    Step("src.transform_dim_parameter", "main"),
    Step("src.load_dim_parameter", "load_dim_parameter")
  ]

  /** The world after a run, the steps attempted and how the run ended. */
  datatype Run<W> = Run(world: W, ran: seq<Step>, out: Outcome<Error>)

  /** Running `steps` from `w`: each step in turn, stopping at the first failure. */
  function RunSteps<W>(steps: seq<Step>, w: W, perform: (W, Step) -> (W, Outcome<Error>)): Run<W>
    decreases |steps|
  {
    if steps == [] then Run(w, [], Pass)
    else
      var (w1, o) := perform(w, steps[0]);
      if o.Fail? then Run(w1, [steps[0]], o)
      else
        var rest := RunSteps(steps[1..], w1, perform);
        Run(rest.world, [steps[0]] + rest.ran, rest.out)
  }

  /** The steps attempted are a prefix of the list, in order. The run passes only when
      every step was attempted and passed; when it fails, every step before the last
      attempted one passed, and the last one raised the exception the run re-raises. */
  lemma RunStepsSpec<W>(steps: seq<Step>, w: W, perform: (W, Step) -> (W, Outcome<Error>))
    ensures var r := RunSteps(steps, w, perform);
      |r.ran| <= |steps| && r.ran == steps[..|r.ran|]
    ensures var r := RunSteps(steps, w, perform);
      r.out.Pass? ==> r.ran == steps
    ensures var r := RunSteps(steps, w, perform);
      r.out.Fail? ==>
        r.ran != [] &&
        RunSteps(steps[..|r.ran| - 1], w, perform).out == Pass &&
        perform(RunSteps(steps[..|r.ran| - 1], w, perform).world, steps[|r.ran| - 1]) == (r.world, r.out)
  {
    RunStepsPrefix(steps, w, perform);
    RunStepsFailure(steps, w, perform);
  }

  /** The attempted steps are a prefix; all of them when the run passes. */
  lemma {:induction false} RunStepsPrefix<W>(steps: seq<Step>, w: W, perform: (W, Step) -> (W, Outcome<Error>))
    ensures var r := RunSteps(steps, w, perform);
      |r.ran| <= |steps| && r.ran == steps[..|r.ran|] && (r.out.Pass? ==> r.ran == steps)
    decreases |steps|
  {
    if steps != [] {
      var (w1, o) := perform(w, steps[0]);
      if o.Pass? {
        RunStepsPrefix(steps[1..], w1, perform);
      } else {
        assert steps[..1] == [steps[0]];
      }
    }
  }

  /** A failed run is a passing run of the steps before the last attempted one,
      followed by that step failing. */
  lemma {:induction false} RunStepsFailure<W>(steps: seq<Step>, w: W, perform: (W, Step) -> (W, Outcome<Error>))
    ensures var r := RunSteps(steps, w, perform);
      r.out.Fail? ==>
        r.ran != [] && |r.ran| <= |steps| &&
        RunSteps(steps[..|r.ran| - 1], w, perform).out == Pass &&
        perform(RunSteps(steps[..|r.ran| - 1], w, perform).world, steps[|r.ran| - 1]) == (r.world, r.out)
    decreases |steps|
  {
    if steps != [] {
      var (w1, o) := perform(w, steps[0]);
      if o.Pass? {
        var tail := steps[1..];
        RunStepsFailure(tail, w1, perform);
        var rest := RunSteps(tail, w1, perform);
        if rest.out.Fail? {
          var m := |rest.ran|;
          assert steps[..m] == [steps[0]] + tail[..m - 1];
          RunStepsPassingPrefix(steps[0], tail[..m - 1], w, perform);
        }
      } else {
        assert steps[..0] == [];
      }
    }
  }

  lemma RunStepsPassingPrefix<W>(s: Step, tail: seq<Step>, w: W, perform: (W, Step) -> (W, Outcome<Error>))
    requires perform(w, s).1.Pass?
    ensures RunSteps([s] + tail, w, perform) ==
      var rest := RunSteps(tail, perform(w, s).0, perform);
      Run(rest.world, [s] + rest.ran, rest.out)
  {
    assert ([s] + tail)[1..] == tail;
  }

  /** `_execute_steps`. */
  method ExecuteSteps<W>(steps: seq<Step>, world: W, perform: (W, Step) -> (W, Outcome<Error>))
    returns (world': W, ran: seq<Step>, out: Outcome<Error>)
    ensures Run(world', ran, out) == RunSteps(steps, world, perform)
  {
    world', ran, out := world, [], Pass;
    for i := 0 to |steps|
      invariant ran == steps[..i]
      invariant var rest := RunSteps(steps[i..], world', perform);
        RunSteps(steps, world, perform) == Run(rest.world, ran + rest.ran, rest.out)
    {
      var step := steps[i];
      assert steps[i..][0] == step && steps[i..][1..] == steps[i + 1..];
      var (w1, o) := perform(world', step);
      world' := w1;
      ran := ran + [step];
      assert steps[..i + 1] == steps[..i] + [step];
      if o.Fail? {
        out := o;
        return;
      }
    }
    assert steps[|steps|..] == [];
  }

  method RunDailyPipeline<W>(world: W, perform: (W, Step) -> (W, Outcome<Error>))
    returns (world': W, ran: seq<Step>, out: Outcome<Error>)
    ensures Run(world', ran, out) == RunSteps(DailySteps, world, perform)
  {
    world', ran, out := ExecuteSteps(DailySteps, world, perform);
  }

  method RunWeeklyPipeline<W>(world: W, perform: (W, Step) -> (W, Outcome<Error>))
    returns (world': W, ran: seq<Step>, out: Outcome<Error>)
    ensures Run(world', ran, out) == RunSteps(WeeklySteps, world, perform)
  {
    world', ran, out := ExecuteSteps(WeeklySteps, world, perform);
  }

  /** When the first `n` steps pass and step `n` raises, the run ends there with
      that exception, having attempted exactly the first `n + 1` steps. */
  lemma {:induction false} RunStopsAt<W>(steps: seq<Step>, w: W, perform: (W, Step) -> (W, Outcome<Error>), n: nat)
    requires n < |steps|
    requires RunSteps(steps[..n], w, perform).out == Pass
    requires perform(RunSteps(steps[..n], w, perform).world, steps[n]).1.Fail?
    ensures RunSteps(steps, w, perform).out == perform(RunSteps(steps[..n], w, perform).world, steps[n]).1
    ensures RunSteps(steps, w, perform).ran == steps[..n + 1]
  {
    if n > 0 {
      var (w1, o) := perform(w, steps[0]);
      assert steps[..n][0] == steps[0];
      assert o.Pass?;
      assert steps[..n][1..] == steps[1..][..n - 1];
      RunStopsAt(steps[1..], w1, perform, n - 1);
      assert steps[..n + 1] == [steps[0]] + steps[1..][..n];
    }
  }

  /** Importing the location transform's module raises ImportError, so once the
      three extracts have passed, the daily run stops at step 4 with that error and
      none of the later transforms or loads is attempted. */
  lemma DailyStopsAtLocationTransform<W>(w: W, perform: (W, Step) -> (W, Outcome<Error>))
    requires RunSteps(DailySteps[..3], w, perform).out == Pass
    requires perform(RunSteps(DailySteps[..3], w, perform).world, DailySteps[3]).1 == Location.ImportOutcome
    ensures RunSteps(DailySteps, w, perform).out == Fail(ImportError)
    ensures RunSteps(DailySteps, w, perform).ran == DailySteps[..4]
    ensures forall j :: 4 <= j < |DailySteps| ==> DailySteps[j] !in RunSteps(DailySteps, w, perform).ran
  {
    RunStopsAt(DailySteps, w, perform, 3);
  }

  /** Importing the parameter transform's module raises NameError, so once the
      parameter extract has passed, the weekly run stops there with that error and
      the parameter load never runs. */
  lemma WeeklyStopsAtParameterTransform<W>(w: W, perform: (W, Step) -> (W, Outcome<Error>))
    requires perform(w, WeeklySteps[0]).1 == Pass
    requires perform(perform(w, WeeklySteps[0]).0, WeeklySteps[1]).1 == Parameter.ImportOutcome
    ensures RunSteps(WeeklySteps, w, perform).out == Fail(NameError)
    ensures RunSteps(WeeklySteps, w, perform).ran == WeeklySteps[..2]
    ensures WeeklySteps[2] !in RunSteps(WeeklySteps, w, perform).ran
  {
    var w1 := perform(w, WeeklySteps[0]).0;
    assert WeeklySteps[1..][0] == WeeklySteps[1];
  }
}

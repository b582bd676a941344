/** When the core refines the sequential machine: exactly while its double-trap flag is up to date,
    and in every run exactly with a queue of at most five entries. */
module FlagTheorems {
  import opened Uarch
  import opened Core
  import opened Refine
  import opened Runs
  import opened Wrap
  import opened HardwareRuns
  import opened QuietRuns
  import opened Theorems
  import Stale
  import Depth
  import Timing
  import Isa

  /** What has been committed is a report of the sequential machine. */
  ghost predicate Refined(cfg: Config, env: Isa.Env, w: World) {
    exists states: seq<Isa.Arch> ::
      Sequential(env, Origin(cfg), w.samples, states) && Reported(env, w.samples, states, w.commits)
  }

  lemma ReportsAreRefined(cfg: Config, env: Isa.Env, w: World)
    requires w.commits == Isa.Reports(env, Origin(cfg), w.samples)
    ensures Refined(cfg, env, w)
  {
    hide Sequential, Reported, States;
    StatesAreSequential(env, Origin(cfg), w.samples);
    StatesReport(env, Origin(cfg), w.samples);
    assert Sequential(env, Origin(cfg), w.samples, States(env, Origin(cfg), w.samples));
  }

  lemma {:induction false} SequentialIsRun(env: Isa.Env, start: Isa.Arch, samples: seq<Isa.Sample>, states: seq<Isa.Arch>, k: nat)
    requires Sequential(env, start, samples, states) && k <= |samples|
    ensures states[k] == Isa.Run(env, start, samples[..k])
  {
    hide Isa.Step;
    if k > 0 {
      SequentialIsRun(env, start, samples, states, k - 1);
      assert samples[..k] == samples[..k - 1] + [samples[k - 1]];
      RunExtends(env, start, samples[..k - 1], samples[k - 1]);
      assert states[k - 1 + 1] == states[k];
    }
  }

  lemma OneBadCommit(cfg: Config, env: Isa.Env, w: World, k: nat)
    requires k < |w.samples| == |w.commits|
    requires w.commits[k] != Isa.Report(env, Isa.Run(env, Origin(cfg), w.samples[..k]), w.samples[k])
    ensures !Refined(cfg, env, w)
  {
    hide Isa.Report, Isa.Run, Sequential;
    if Refined(cfg, env, w) {
      var states: seq<Isa.Arch> :|
        Sequential(env, Origin(cfg), w.samples, states) && Reported(env, w.samples, states, w.commits);
      SequentialIsRun(env, Origin(cfg), w.samples, states, k);
    }
  }

  // ---- a single run ---------------------------------------------------------------------------------

  /** While the flag has served, all is well, up to one cycle further. */
  lemma ServedIsRefined(cfg: Config, env: Isa.Env, inputs: seq<Inputs>, trace: seq<World>, j: nat)
    requires cfg.Valid() && cfg.ids.Wrapped? && IsRun(cfg, inputs, trace) && HonestAlong(env, inputs, trace) && j < |inputs|
    requires forall k :: 0 <= k < j ==> FlagServes(trace[k], inputs[k])
    ensures Follows(Ideal(cfg), env, Watch(Ideal(cfg), inputs[..j]))
    ensures trace[j] == NarrowWorld(Watch(Ideal(cfg), inputs[..j]))
    ensures Refined(cfg, env, trace[j + 1])
  {
    hide Watch, Cycle, Start, Honest, FlagServes, Follows, HonestRun, ServedRun, Narrow, Refined;
    TraceHonest(cfg, env, inputs, trace, j);
    ServedPrefix(cfg, inputs, trace, j);
    TwinFollows(cfg, env, inputs[..j]);
    TraceIsWatch(cfg, inputs, trace, j);
    TraceIsWatch(cfg, inputs, trace, j + 1);
    var w, input := Watch(Ideal(cfg), inputs[..j]), inputs[j];
    NextTwin(cfg, inputs, j);
    Stale.GoodCommit(Ideal(cfg), env, w, input);
    ReportsAreRefined(cfg, env, trace[j + 1]);
  }

  lemma NextTwin(cfg: Config, inputs: seq<Inputs>, j: nat)
    requires cfg.Valid() && cfg.ids.Wrapped? && j < |inputs|
    ensures Watch(cfg, inputs[..j + 1]) == NarrowWorld(Cycle(Ideal(cfg), Watch(Ideal(cfg), inputs[..j]), inputs[j]))
    ensures Watch(Ideal(cfg), inputs[..j + 1]) == Cycle(Ideal(cfg), Watch(Ideal(cfg), inputs[..j]), inputs[j])
  {
    hide Cycle, Start, Narrow;
    assert Hardware(cfg) == cfg;
    HardwareRuns.HardwareIsIdeal(cfg, inputs[..j + 1]);
    assert inputs[..j + 1][..j] == inputs[..j];
  }

  lemma {:induction false} ServedPrefix(cfg: Config, inputs: seq<Inputs>, trace: seq<World>, n: nat)
    requires IsRun(cfg, inputs, trace) && n <= |inputs| && forall k :: 0 <= k < n ==> FlagServes(trace[k], inputs[k])
    ensures ServedRun(cfg, inputs[..n])
  {
    hide Watch, FlagServes, Cycle, Start;
    if n > 0 {
      ServedPrefix(cfg, inputs, trace, n - 1);
      TraceIsWatch(cfg, inputs, trace, n - 1);
      assert inputs[..n][..n - 1] == inputs[..n - 1];
    }
  }

  /** The first stale read breaks the refinement two cycles later. */
  lemma StaleIsNotRefined(cfg: Config, env: Isa.Env, inputs: seq<Inputs>, trace: seq<World>, k: nat)
    requires cfg.Valid() && cfg.ids.Wrapped? && IsRun(cfg, inputs, trace) && HonestAlong(env, inputs, trace)
    requires k + 1 < |inputs| && !FlagServes(trace[k], inputs[k])
    requires forall j :: 0 <= j < k ==> FlagServes(trace[j], inputs[j])
    ensures !Refined(cfg, env, trace[k + 2])
  {
    hide Watch, Cycle, Start, Honest, FlagServes, Follows, Narrow, Refined;
    ServedIsRefined(cfg, env, inputs, trace, k);
    ServesNarrow(Watch(Ideal(cfg), inputs[..k]), inputs[k]);
    StaleTwin(cfg, env, inputs, k);
    TraceIsWatch(cfg, inputs, trace, k + 2);
  }

  /** In any honest run of any configuration, everything committed is right if and only if the double-trap
      flag is up to date whenever it is consulted. (What the last cycle consults is not committed yet.) */
  lemma RefinedExactly(cfg: Config, env: Isa.Env, inputs: seq<Inputs>, trace: seq<World>)
    requires cfg.Valid() && cfg.ids.Wrapped? && IsRun(cfg, inputs, trace) && HonestAlong(env, inputs, trace)
    ensures (forall j :: 0 <= j <= |inputs| ==> Refined(cfg, env, trace[j])) <==>
            (forall k :: 0 <= k < |inputs| - 1 ==> FlagServes(trace[k], inputs[k]))
  {
    hide Cycle, Start, Honest, FlagServes, Refined;
    if forall k :: 0 <= k < |inputs| - 1 ==> FlagServes(trace[k], inputs[k]) {
      forall j | 0 <= j <= |inputs|
        ensures Refined(cfg, env, trace[j])
      {
        if j == 0 {
          StartIsRefined(cfg, env);
        } else {
          ServedIsRefined(cfg, env, inputs, trace, j - 1);
        }
      }
    } else {
      var k :| 0 <= k < |inputs| - 1 && !FlagServes(trace[k], inputs[k]);
      var first := FirstStale(inputs, trace, k);
      StaleIsNotRefined(cfg, env, inputs, trace, first);
    }
  }

  lemma StartIsRefined(cfg: Config, env: Isa.Env)
    ensures Refined(cfg, env, Start(cfg))
  {
    hide Refined, Reset;
    ReportsAreRefined(cfg, env, Start(cfg));
  }

  lemma {:induction false} FirstStale(inputs: seq<Inputs>, trace: seq<World>, k: nat) returns (first: nat)
    requires |trace| == |inputs| + 1 && k < |inputs| && !FlagServes(trace[k], inputs[k])
    ensures first <= k && !FlagServes(trace[first], inputs[first])
    ensures forall j :: 0 <= j < first ==> FlagServes(trace[j], inputs[j])
  {
    hide FlagServes;
    if j :| 0 <= j < k && !FlagServes(trace[j], inputs[j]) {
      first := FirstStale(inputs, trace, j);
    } else {
      first := k;
    }
  }

  // ---- every run ----------------------------------------------------------------------------------------

  /** Every honest run of the configuration commits what the sequential machine reports. */
  ghost predicate Refines(cfg: Config) {
    forall env: Isa.Env, inputs: seq<Inputs>, trace: seq<World> ::
      IsRun(cfg, inputs, trace) && HonestAlong(env, inputs, trace) ==> Refined(cfg, env, trace[|inputs|])
  }

  /** The run of `Depth`, on the idealised core. */
  lemma DeepRun(ideal: Config)
    requires ideal.Valid() && ideal.ids.Unbounded? && ideal.queueDepth >= 6
    ensures var inputs, env := Depth.Fed(ideal, 41), Depth.Program(ideal.resetPc);
      && HonestRun(ideal, env, inputs)
      && Follows(ideal, env, Watch(ideal, inputs[..39])) && !FlagServes(Watch(ideal, inputs[..39]), inputs[39])
  {
    hide Watch, Cycle, Start, Honest, FlagServes, Follows, Depth.Fed, Depth.Program, HonestRun, StaleFlag, Timing.Prodded,
         Stopped, Halting;
    Prefixes(ideal);
    Depth.FedIsHonest(ideal, 41);
    var inputs, env := Depth.Fed(ideal, 41), Depth.Program(ideal.resetPc);
    var w := Watch(ideal, Depth.Fed(ideal, 39));
    QuietProdded(env, w.cpu);
    assert inputs[39] == Timing.Prodded(env, w.cpu, false, false);
    Depth.StaleInTheEnd(ideal, inputs[39]);
    NotServed(w, inputs[39]);
  }

  /** What the hardware has committed two cycles later is refined by nothing. */
  lemma StaleTwin(cfg: Config, env: Isa.Env, inputs: seq<Inputs>, n: nat)
    requires cfg.Valid() && cfg.ids.Wrapped? && n + 1 < |inputs|
    requires Follows(Ideal(cfg), env, Watch(Ideal(cfg), inputs[..n])) && !FlagServes(Watch(Ideal(cfg), inputs[..n]), inputs[n])
    ensures var last := Watch(cfg, inputs[..n + 2]); !Refined(cfg, env, last) && |last.commits| == |last.samples|
  {
    hide Watch, Cycle, Start, Honest, FlagServes, Follows, NarrowFrontend, NarrowBackend, Refined, Isa.Report, Isa.Run;
    var ideal, w := Ideal(cfg), Watch(Ideal(cfg), inputs[..n]);
    NextTwin(cfg, inputs, n);
    NextTwin(cfg, inputs, n + 1);
    Stale.BadCommit(ideal, env, w, inputs[n], inputs[n + 1]);
    var last := Watch(cfg, inputs[..n + 2]);
    OneBadCommit(cfg, env, last, |last.samples| - 1);
  }

  /** What the plain interpreter prints is a report of the sequential machine on low wires. */
  lemma PrintedIsRefined(cfg: Config, env: Isa.Env, w: World, states: seq<Isa.Arch>)
    requires QuietWorld(w) && |w.commits| == |w.samples|
    requires Interpreted(env, Origin(cfg), states) && Printed(env, states, w.commits)
    ensures Refined(cfg, env, w)
  {
    hide Isa.Step, Isa.Report;
    var n := |w.commits|;
    forall k | 0 <= k < n
      ensures states[k + 1] == Isa.Step(env, states[k], w.samples[k])
      ensures w.commits[k] == Isa.Report(env, states[k], w.samples[k])
    {
      QuietStep(env, states[k], w.samples[k]);
    }
    assert Sequential(env, Origin(cfg), w.samples, states[..n + 1]);
  }

  /** The run of `Depth` on the hardware: with the wires low it commits what no run of the plain interpreter
      prints. */
  lemma DeepQueueFails(cfg: Config)
    requires cfg.Valid() && cfg.ids.Wrapped? && cfg.queueDepth >= 6
    ensures exists inputs: seq<Inputs>, trace: seq<World> ::
      && IsRun(cfg, inputs, trace) && HonestAlong(Depth.Program(cfg.resetPc), inputs, trace) && Low(inputs)
      && !Refined(cfg, Depth.Program(cfg.resetPc), trace[|inputs|])
      && forall states :: Interpreted(Depth.Program(cfg.resetPc), Origin(cfg), states) ==>
           !Printed(Depth.Program(cfg.resetPc), states, trace[|inputs|].commits)
  {
    hide Watch, Cycle, Start, Honest, FlagServes, Follows, Narrow, Refined, Depth.Fed, Depth.Program, HonestRun, StaleFlag,
         Timing.Prodded, Interpreted, Printed, QuietWorld, QuietInput;
    var ideal, env := Ideal(cfg), Depth.Program(cfg.resetPc);
    var inputs := Depth.Fed(ideal, 41);
    var trace := Trace(cfg, inputs);
    TraceIsRun(cfg, inputs);
    DeepRun(ideal);
    assert inputs[..41] == inputs;
    HonestHardware(cfg, env, inputs, |inputs|);
    StaleTwin(cfg, env, inputs, 39);
    Depth.FedIsLow(ideal, 41);
    QuietWatch(cfg, inputs);
    forall states | Interpreted(env, Origin(cfg), states)
      ensures !Printed(env, states, trace[41].commits)
    {
      if Printed(env, states, trace[41].commits) {
        PrintedIsRefined(cfg, env, trace[41], states);
      }
    }
  }

  lemma NotServed(w: World, input: Inputs)
    requires !Stopped(w.commits) && !Halting(w.cpu.be) && w.cpu.be.mem.Alive() && StaleFlag(w.cpu.be, input)
    ensures !FlagServes(w, input)
  {}

  lemma QuietProdded(env: Isa.Env, s: Cpu)
    ensures forall answer :: MipOf(Timing.Prodded(env, s, answer, false)) == 0
  {
    Depth.QuietMip();
  }

  lemma Prefixes(cfg: Config)
    ensures var inputs := Depth.Fed(cfg, 41);
      && inputs[..39] == Depth.Fed(cfg, 39)
      && inputs[39] == Timing.Prodded(Depth.Program(cfg.resetPc), Watch(cfg, Depth.Fed(cfg, 39)).cpu, false, false)
  {
    hide Watch, Timing.Prodded, Depth.Fed, Depth.Program;
    Depth.FedPrefix(cfg, 41);
    Depth.FedPrefix(cfg, 40);
    assert Depth.Fed(cfg, 41)[..39] == Depth.Fed(cfg, 41)[..40][..39];
    assert Depth.Fed(cfg, 41)[39] == Depth.Fed(cfg, 41)[..40][39];
  }

  function Trace(cfg: Config, inputs: seq<Inputs>): (trace: seq<World>)
    ensures |trace| == |inputs| + 1 && forall k :: 0 <= k <= |inputs| ==> trace[k] == Watch(cfg, inputs[..k])
  {
    seq(|inputs| + 1, k requires 0 <= k <= |inputs| => Watch(cfg, inputs[..k]))
  }

  lemma TraceIsRun(cfg: Config, inputs: seq<Inputs>)
    ensures IsRun(cfg, inputs, Trace(cfg, inputs))
  {
    hide Cycle, Start;
    forall k | 0 <= k < |inputs|
      ensures Trace(cfg, inputs)[k + 1] == Cycle(cfg, Trace(cfg, inputs)[k], inputs[k])
    {
      assert inputs[..k + 1][..k] == inputs[..k];
    }
  }

  lemma {:induction false} HonestHardware(cfg: Config, env: Isa.Env, inputs: seq<Inputs>, n: nat)
    requires cfg.Valid() && cfg.ids.Wrapped? && n <= |inputs| && HonestRun(Ideal(cfg), env, inputs[..n])
    ensures forall k :: 0 <= k < n ==> Honest(env, Trace(cfg, inputs)[k], inputs[k])
  {
    hide Watch, Cycle, Start, Honest, Narrow;
    if n > 0 {
      assert inputs[..n][..n - 1] == inputs[..n - 1];
      HonestHardware(cfg, env, inputs, n - 1);
      assert Hardware(cfg) == cfg;
      HardwareRuns.HardwareIsIdeal(cfg, inputs[..n - 1]);
      HonestNarrow(env, Watch(Ideal(cfg), inputs[..n - 1]), inputs[n - 1]);
    }
  }

  /** A configuration commits what the sequential machine reports in all its honest runs, if and only if
      its queue has at most five entries. */
  lemma DepthDecides(cfg: Config)
    requires cfg.Valid() && cfg.ids.Wrapped?
    ensures Refines(cfg) <==> cfg.queueDepth <= 5
  {
    hide Cycle, Start, Sequential, Reported, Honest, FlagServes, Stopped, Depth.Program;
    if cfg.queueDepth <= 5 {
      forall env: Isa.Env, inputs: seq<Inputs>, trace: seq<World> | IsRun(cfg, inputs, trace) && HonestAlong(env, inputs, trace)
        ensures Refined(cfg, env, trace[|inputs|])
      {
        Theorems.ShortQueuesServe(cfg, inputs, trace);
        PipelineRefinesIsa(cfg, env, inputs, trace);
      }
    } else {
      DeepQueueFails(cfg);
    }
  }
}

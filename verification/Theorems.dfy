/** What the core promises. A run is given by the trace of its states, and a run of the sequential
    machine by the trace of its states; each theorem is about every run of the hardware. */
module Theorems {
  import opened Words
  import opened Uarch
  import opened Core
  import opened Refine
  import opened Runs
  import opened Progress
  import opened Wrap
  import opened Liveness
  import opened QuietRuns
  import opened HardwareRuns
  import ExecCorrect
  import Traps
  import Reachable
  import Ledger
  import Chains
  import CoreInv
  import Handler
  import Bench
  import Isa

  // ---- traces ------------------------------------------------------------------------------

  /** `trace` holds the core and its observer in front of every cycle and after the last. */
  ghost predicate IsRun(cfg: Config, inputs: seq<Inputs>, trace: seq<World>) {
    && |trace| == |inputs| + 1
    && trace[0] == Start(cfg)
    && forall k :: 0 <= k < |inputs| ==> trace[k + 1] == Cycle(cfg, trace[k], inputs[k])
  }

  /** In every cycle the memories keep their promises. */
  ghost predicate HonestAlong(env: Isa.Env, inputs: seq<Inputs>, trace: seq<World>)
    requires |trace| == |inputs| + 1
  {
    forall k :: 0 <= k < |inputs| ==> Honest(env, trace[k], inputs[k])
  }

  /** `states` is what the sequential machine goes through when its steps see `samples`. */
  ghost predicate Sequential(env: Isa.Env, start: Isa.Arch, samples: seq<Isa.Sample>, states: seq<Isa.Arch>) {
    && |states| == |samples| + 1
    && states[0] == start
    && forall k :: 0 <= k < |samples| ==> states[k + 1] == Isa.Step(env, states[k], samples[k])
  }

  /** `commits` is what it reports on the way. */
  ghost predicate Reported(env: Isa.Env, samples: seq<Isa.Sample>, states: seq<Isa.Arch>, commits: seq<Isa.Commit>) {
    && |commits| == |samples| < |states|
    && forall k :: 0 <= k < |commits| ==> commits[k] == Isa.Report(env, states[k], samples[k])
  }

  /** Whenever MEM consults the double-trap flag, the flag is up to date. */
  ghost predicate FlagServed(inputs: seq<Inputs>, trace: seq<World>)
    requires |trace| == |inputs| + 1
  {
    forall k :: 0 <= k < |inputs| ==> FlagServes(trace[k], inputs[k])
  }

  /** A run of the hardware with memories that answer truly, at whatever time, in which the
      double-trap flag serves. */
  ghost predicate GoodTrace(cfg: Config, env: Isa.Env, inputs: seq<Inputs>, trace: seq<World>) {
    && cfg.Valid() && cfg.ids.Wrapped?
    && IsRun(cfg, inputs, trace) && HonestAlong(env, inputs, trace) && FlagServed(inputs, trace)
  }

  // ---- traces and functions --------------------------------------------------------------------

  // `Runs.Watch` and `Isa.Run` compute the last state of a trace; the proofs are about them.

  lemma {:induction false} TraceIsWatch(cfg: Config, inputs: seq<Inputs>, trace: seq<World>, k: nat)
    requires IsRun(cfg, inputs, trace) && k <= |inputs|
    ensures trace[k] == Watch(cfg, inputs[..k])
  {
    hide Cycle, Start;
    if k > 0 {
      TraceIsWatch(cfg, inputs, trace, k - 1);
      assert inputs[..k][..k - 1] == inputs[..k - 1];
    }
  }

  lemma TraceEnd(cfg: Config, inputs: seq<Inputs>, trace: seq<World>)
    requires IsRun(cfg, inputs, trace)
    ensures trace[|inputs|] == Watch(cfg, inputs)
  {
    hide Watch, IsRun;
    TraceIsWatch(cfg, inputs, trace, |inputs|);
    assert inputs[..|inputs|] == inputs;
  }

  lemma {:induction false} TraceHonest(cfg: Config, env: Isa.Env, inputs: seq<Inputs>, trace: seq<World>, k: nat)
    requires IsRun(cfg, inputs, trace) && HonestAlong(env, inputs, trace) && k <= |inputs|
    ensures HonestRun(cfg, env, inputs[..k])
  {
    hide Watch, Honest, Cycle, Start;
    if k > 0 {
      TraceHonest(cfg, env, inputs, trace, k - 1);
      TraceIsWatch(cfg, inputs, trace, k - 1);
      assert inputs[..k][..k - 1] == inputs[..k - 1];
    }
  }

  lemma {:induction false} TraceServed(cfg: Config, inputs: seq<Inputs>, trace: seq<World>, k: nat)
    requires IsRun(cfg, inputs, trace) && FlagServed(inputs, trace) && k <= |inputs|
    ensures ServedRun(cfg, inputs[..k])
  {
    hide Watch, FlagServes, Cycle, Start;
    if k > 0 {
      TraceServed(cfg, inputs, trace, k - 1);
      TraceIsWatch(cfg, inputs, trace, k - 1);
      assert inputs[..k][..k - 1] == inputs[..k - 1];
    }
  }

  /** The states of the sequential machine. */
  function States(env: Isa.Env, start: Isa.Arch, samples: seq<Isa.Sample>): (states: seq<Isa.Arch>)
    ensures |states| == |samples| + 1
    decreases |samples|
  {
    if samples == [] then [start]
    else
      var before := States(env, start, samples[..|samples| - 1]);
      before + [Isa.Step(env, before[|samples| - 1], samples[|samples| - 1])]
  }

  lemma {:induction false} StatesAt(env: Isa.Env, start: Isa.Arch, samples: seq<Isa.Sample>, k: nat)
    requires k <= |samples|
    ensures States(env, start, samples)[k] == Isa.Run(env, start, samples[..k])
    decreases |samples|
  {
    hide Isa.Step;
    if k < |samples| {
      StatesAt(env, start, samples[..|samples| - 1], k);
      assert samples[..|samples| - 1][..k] == samples[..k];
    } else {
      assert samples[..k] == samples;
      if samples != [] {
        StatesAt(env, start, samples[..k - 1], k - 1);
        assert samples[..k - 1][..k - 1] == samples[..k - 1];
      }
    }
  }

  lemma StatesAreSequential(env: Isa.Env, start: Isa.Arch, samples: seq<Isa.Sample>)
    ensures Sequential(env, start, samples, States(env, start, samples))
  {
    hide Isa.Step, States, Isa.Run;
    var states := States(env, start, samples);
    StatesAt(env, start, samples, 0);
    Traps.RunNothing(env, start);
    assert samples[..0] == [];
    forall k | 0 <= k < |samples|
      ensures states[k + 1] == Isa.Step(env, states[k], samples[k])
    {
      StatesAt(env, start, samples, k);
      StatesAt(env, start, samples, k + 1);
      assert samples[..k + 1] == samples[..k] + [samples[k]];
      RunExtends(env, start, samples[..k], samples[k]);
    }
  }

  lemma StatesReport(env: Isa.Env, start: Isa.Arch, samples: seq<Isa.Sample>)
    ensures Reported(env, samples, States(env, start, samples), Isa.Reports(env, start, samples))
  {
    hide Isa.Report, Isa.Run, States;
    forall k | 0 <= k < |samples|
      ensures Isa.Reports(env, start, samples)[k] == Isa.Report(env, States(env, start, samples)[k], samples[k])
    {
      Traps.ReportAt(env, start, samples, k);
      StatesAt(env, start, samples, k);
    }
  }

  /** The state of the idealised core at the end of the run. */
  function Twin(cfg: Config, inputs: seq<Inputs>): World { Watch(Ideal(cfg), inputs) }

  lemma GoodTwin(cfg: Config, env: Isa.Env, inputs: seq<Inputs>, trace: seq<World>)
    requires GoodTrace(cfg, env, inputs, trace)
    ensures Follows(Ideal(cfg), env, Twin(cfg, inputs))
    ensures trace[|inputs|] == NarrowWorld(Twin(cfg, inputs))
    ensures Origin(Ideal(cfg)) == Origin(cfg)
  {
    hide Watch, Cycle, Start, HonestAlong, HonestRun, FlagServed, ServedRun, Follows, Narrow;
    TraceEnd(cfg, inputs, trace);
    TraceHonest(cfg, env, inputs, trace, |inputs|);
    TraceServed(cfg, inputs, trace, |inputs|);
    assert inputs[..|inputs|] == inputs;
    TwinFollows(cfg, env, inputs);
  }

  lemma TwinEnd(cfg: Config, inputs: seq<Inputs>, trace: seq<World>)
    requires cfg.Valid() && cfg.ids.Wrapped? && IsRun(cfg, inputs, trace)
    ensures trace[|inputs|] == NarrowWorld(Twin(cfg, inputs))
  {
    hide Watch, Cycle, Start, Narrow;
    TraceEnd(cfg, inputs, trace);
    assert Hardware(cfg) == cfg;
    HardwareRuns.HardwareIsIdeal(cfg, inputs);
  }

  // ---- safety: what is committed ---------------------------------------------------------------------

  /** The hardware commits, up to and including the first halt, what the sequential machine reports
      step by step, and shows a halt exactly when that machine has halted. */
  lemma PipelineRefinesIsa(cfg: Config, env: Isa.Env, inputs: seq<Inputs>, trace: seq<World>)
    requires GoodTrace(cfg, env, inputs, trace)
    ensures var w := trace[|inputs|];
      exists states: seq<Isa.Arch> ::
        && Sequential(env, Origin(cfg), w.samples, states)
        && Reported(env, w.samples, states, w.commits)
        && (Stopped(w.commits) <==> states[|w.samples|].halted)
  {
    hide Twin, Cycle, Start, HonestAlong, FlagServed, Narrow, Isa.Run, Isa.Reports, States, Sequential, Reported, Stopped,
         CoreInv.Inv, Rel;
    GoodTwin(cfg, env, inputs, trace);
    var w := trace[|inputs|];
    StatesAreSequential(env, Origin(cfg), w.samples);
    StatesReport(env, Origin(cfg), w.samples);
    StatesAt(env, Origin(cfg), w.samples, |w.samples|);
    assert w.samples[..|w.samples|] == w.samples;
    assert Sequential(env, Origin(cfg), w.samples, States(env, Origin(cfg), w.samples));
  }

  /** With a queue of at most five entries the flag serves every run. */
  lemma ShortQueuesServe(cfg: Config, inputs: seq<Inputs>, trace: seq<World>)
    requires cfg.Valid() && cfg.ids.Wrapped? && cfg.queueDepth <= 5 && IsRun(cfg, inputs, trace)
    ensures FlagServed(inputs, trace)
  {
    hide Watch, Cycle, Start, FlagServes, ServedRun;
    assert Hardware(cfg) == cfg;
    Runs.ShortQueuesServe(Ideal(cfg), inputs);
    ServedIdeal(cfg, inputs);
    assert inputs[..|inputs|] == inputs;
    ServedTrace(cfg, inputs, trace, |inputs|);
  }

  lemma {:induction false} ServedTrace(cfg: Config, inputs: seq<Inputs>, trace: seq<World>, n: nat)
    requires IsRun(cfg, inputs, trace) && n <= |inputs| && ServedRun(cfg, inputs[..n])
    ensures forall k :: 0 <= k < n ==> FlagServes(trace[k], inputs[k])
  {
    hide Watch, Cycle, Start, FlagServes;
    if n > 0 {
      assert inputs[..n][..n - 1] == inputs[..n - 1];
      ServedTrace(cfg, inputs, trace, n - 1);
      TraceIsWatch(cfg, inputs, trace, n - 1);
    }
  }

  /** With any queue it serves a program that has no handler whose second word the vector comes to
      point at. */
  lemma PlainHandlersServe(cfg: Config, env: Isa.Env, inputs: seq<Inputs>, trace: seq<World>)
    requires cfg.Valid() && cfg.ids.Wrapped? && IsRun(cfg, inputs, trace) && HonestAlong(env, inputs, trace)
    requires forall states: seq<Isa.Arch>, k ::
      Sequential(env, Origin(cfg), trace[|inputs|].samples, states) && 0 <= k < |states| - 1 ==>
        !SelfVectored(env, states[k], states[k + 1])
    ensures FlagServed(inputs, trace)
  {
    hide Watch, Cycle, Start, FlagServes, ServedRun, HonestAlong, HonestRun, Sequential, SelfVectored, NeverSelfVectored,
         Narrow;
    assert Hardware(cfg) == cfg;
    assert inputs[..|inputs|] == inputs;
    TraceHonest(cfg, env, inputs, trace, |inputs|);
    HonestIdeal(cfg, env, inputs);
    TwinEnd(cfg, inputs, trace);
    var samples := trace[|inputs|].samples;
    NeverSelf(env, Origin(cfg), samples, |samples|);
    assert samples[..|samples|] == samples;
    Runs.PlainHandlersServe(Ideal(cfg), env, inputs);
    ServedIdeal(cfg, inputs);
    ServedTrace(cfg, inputs, trace, |inputs|);
  }

  lemma {:induction false} NeverSelf(env: Isa.Env, start: Isa.Arch, samples: seq<Isa.Sample>, n: nat)
    requires n <= |samples|
    requires forall states: seq<Isa.Arch>, k ::
      Sequential(env, start, samples, states) && 0 <= k < |states| - 1 ==> !SelfVectored(env, states[k], states[k + 1])
    ensures NeverSelfVectored(env, start, samples[..n])
  {
    hide SelfVectored, Isa.Run, Sequential;
    if n > 0 {
      NeverSelf(env, start, samples, n - 1);
      StatesAreSequential(env, start, samples);
      StatesAt(env, start, samples, n - 1);
      StatesAt(env, start, samples, n);
      assert samples[..n][..n - 1] == samples[..n - 1];
      var states := States(env, start, samples);
      assert !SelfVectored(env, states[n - 1], states[n - 1 + 1]);
    }
  }

  /** Each commit is of the architectural successor of the one before. */
  lemma CommitsFollowOn(cfg: Config, env: Isa.Env, inputs: seq<Inputs>, trace: seq<World>)
    requires GoodTrace(cfg, env, inputs, trace)
    ensures var w := trace[|inputs|];
      exists states: seq<Isa.Arch> :: Sequential(env, Origin(cfg), w.samples, states) && |w.commits| == |w.samples| &&
        forall k :: 0 <= k < |w.commits| ==> w.commits[k].pc == states[k].pc
  {
    hide Cycle, Start, HonestAlong, FlagServed, Sequential, Isa.Report, Stopped;
    PipelineRefinesIsa(cfg, env, inputs, trace);
    var w := trace[|inputs|];
    var states: seq<Isa.Arch> :| Sequential(env, Origin(cfg), w.samples, states) && Reported(env, w.samples, states, w.commits);
    forall k | 0 <= k < |w.commits|
      ensures w.commits[k].pc == states[k].pc
    {
      Traps.ReportPc(env, states[k], w.samples[k]);
    }
  }

  /** No commit but the last is a halt. */
  predicate HaltsLast(commits: seq<Isa.Commit>) { forall k :: 0 <= k < |commits| - 1 ==> !commits[k].halt.Halt? }

  lemma HaltsLastNext(cfg: Config, w: World, input: Inputs)
    requires HaltsLast(w.commits)
    ensures HaltsLast(Cycle(cfg, w, input).commits)
  {
    hide Cycle, CommitOf;
    CycleLogs(cfg, w, input);
  }

  lemma HaltsLastStart(cfg: Config)
    ensures HaltsLast(Start(cfg).commits)
  {}

  /** The commit log ends with its first halt. */
  lemma {:induction false} OneHalt(cfg: Config, inputs: seq<Inputs>, trace: seq<World>, n: nat)
    requires IsRun(cfg, inputs, trace) && n <= |inputs|
    ensures HaltsLast(trace[n].commits)
  {
    hide Cycle, Start, HaltsLast;
    if n == 0 {
      HaltsLastStart(cfg);
    } else {
      OneHalt(cfg, inputs, trace, n - 1);
      HaltsLastNext(cfg, trace[n - 1], inputs[n - 1]);
      assert trace[n - 1 + 1] == trace[n];
    }
  }

  /** The data requests are those of the sequential machine, in its order and once each. The bus is
      ahead of the commits by the instruction in WB and the one in MEM, at most. */
  lemma BusIsSequential(cfg: Config, env: Isa.Env, inputs: seq<Inputs>, trace: seq<World>)
    requires GoodTrace(cfg, env, inputs, trace)
    requires !Stopped(trace[|inputs|].commits) && !Halting(trace[|inputs|].cpu.be)
    ensures var w := trace[|inputs|];
      exists flight: seq<Isa.Sample>, states: seq<Isa.Arch> ::
        && |flight| <= 2
        && Sequential(env, Origin(cfg), w.samples + flight, states)
        && states[|w.samples| + |flight|].bus == w.bus
  {
    hide Twin, Cycle, Start, HonestAlong, FlagServed, Follows, Isa.Run, States, Sequential, Stopped, NarrowFrontend,
         NarrowRows, NarrowToken;
    GoodTwin(cfg, env, inputs, trace);
    var w := Twin(cfg, inputs);
    TokenFieldsNarrow(w.cpu.be.wb);
    PacketNarrow(w.cpu.be.wb, 0);
    Reachable.BusIn(Ideal(cfg), env, w);
    var samples := w.samples + Reachable.InFlight(w);
    StatesAreSequential(env, Origin(cfg), samples);
    StatesAt(env, Origin(cfg), samples, |samples|);
    assert samples[..|samples|] == samples;
    assert Sequential(env, Origin(cfg), w.samples + Reachable.InFlight(w), States(env, Origin(cfg), samples));
  }

  /** The wires are low all along. */
  ghost predicate Low(inputs: seq<Inputs>) { forall k :: 0 <= k < |inputs| ==> QuietInput(inputs[k]) }

  /** `states` is the plain interpreter's run. */
  ghost predicate Interpreted(env: Isa.Env, start: Isa.Arch, states: seq<Isa.Arch>) {
    && |states| > 0 && states[0] == start
    && forall k :: 0 <= k < |states| - 1 ==> states[k + 1] == Isa.Step(env, states[k], Isa.Quiet)
  }

  ghost predicate Printed(env: Isa.Env, states: seq<Isa.Arch>, commits: seq<Isa.Commit>) {
    && |commits| < |states|
    && forall k :: 0 <= k < |commits| ==> commits[k] == Isa.Report(env, states[k], Isa.Quiet)
  }

  lemma {:induction false} StepsAt(n: nat, k: nat)
    requires k < n
    ensures Steps(n)[k] == Isa.Quiet
  {
    if k < n - 1 {
      StepsAt(n - 1, k);
    }
  }

  lemma StepsInterpret(env: Isa.Env, start: Isa.Arch, n: nat)
    ensures var states := States(env, start, Steps(n));
      Interpreted(env, start, states) && Printed(env, states, Isa.Reports(env, start, Steps(n)))
  {
    hide Isa.Step, Isa.Report, States, Steps, Isa.Reports;
    var samples := Steps(n);
    StatesAreSequential(env, start, samples);
    StatesReport(env, start, samples);
    forall k | 0 <= k < n
      ensures samples[k] == Isa.Quiet
    {
      StepsAt(n, k);
    }
  }

  lemma QuietCommits(cfg: Config, env: Isa.Env, inputs: seq<Inputs>, trace: seq<World>)
    requires GoodTrace(cfg, env, inputs, trace) && Low(inputs)
    ensures var w := trace[|inputs|];
      && |w.commits| == |w.samples|
      && w.commits == Isa.Reports(env, Origin(cfg), Steps(|w.commits|))
      && (Stopped(w.commits) <==> Isa.Run(env, Origin(cfg), Steps(|w.commits|)).halted)
  {
    hide Watch, Cycle, Start, HonestAlong, FlagServed, Isa.Run, Stopped, Narrow, CoreInv.Inv, Rel;
    GoodTwin(cfg, env, inputs, trace);
    QuietWatch(Ideal(cfg), inputs);
    QuietSamples(env, Origin(cfg), trace[|inputs|].samples);
  }

  /** With the wires low the commits are what the plain interpreter prints, and the memory traffic is
      the interpreter's, at most two steps ahead. */
  lemma QuietRefinement(cfg: Config, env: Isa.Env, inputs: seq<Inputs>, trace: seq<World>)
    requires GoodTrace(cfg, env, inputs, trace) && Low(inputs)
    ensures var w := trace[|inputs|];
      exists states: seq<Isa.Arch> ::
        && Interpreted(env, Origin(cfg), states) && Printed(env, states, w.commits)
        && |w.commits| < |states| <= |w.commits| + 3
        && (Stopped(w.commits) <==> states[|w.commits|].halted)
        && (!Stopped(w.commits) && !Halting(w.cpu.be) ==> states[|states| - 1].bus == w.bus)
  {
    hide Cycle, Start, HonestAlong, FlagServed, Isa.Run, States, Stopped, Halting, Isa.Reports, Interpreted, Printed;
    QuietCommits(cfg, env, inputs, trace);
    var ahead := QuietBus(cfg, env, inputs, trace);
    var w := trace[|inputs|];
    var n := |w.commits|;
    var states := States(env, Origin(cfg), Steps(n + ahead));
    StepsInterpret(env, Origin(cfg), n + ahead);
    StepsRun(env, Origin(cfg), n, n + ahead);
    StepsRun(env, Origin(cfg), n + ahead, n + ahead);
    ReportsPrefix(env, Origin(cfg), n, n + ahead);
    PrintedPrefix(env, states, Isa.Reports(env, Origin(cfg), Steps(n + ahead)), n);
    assert Interpreted(env, Origin(cfg), states);
  }

  lemma QuietBus(cfg: Config, env: Isa.Env, inputs: seq<Inputs>, trace: seq<World>) returns (ahead: nat)
    requires GoodTrace(cfg, env, inputs, trace) && Low(inputs)
    ensures ahead <= 2
    ensures var w := trace[|inputs|];
      !Stopped(w.commits) && !Halting(w.cpu.be) ==> w.bus == Isa.Run(env, Origin(cfg), Steps(|w.samples| + ahead)).bus
  {
    hide Watch, Cycle, Start, HonestAlong, FlagServed, Follows, Isa.Run, Stopped, NarrowFrontend, NarrowRows, NarrowToken;
    GoodTwin(cfg, env, inputs, trace);
    QuietWatch(Ideal(cfg), inputs);
    var w := Twin(cfg, inputs);
    TokenFieldsNarrow(w.cpu.be.wb);
    PacketNarrow(w.cpu.be.wb, 0);
    ahead := |Reachable.InFlight(w)|;
    if !Stopped(w.commits) && !Halting(w.cpu.be) {
      Reachable.BusIn(Ideal(cfg), env, w);
      QuietSamples(env, Origin(cfg), w.samples + Reachable.InFlight(w));
    }
  }

  lemma StepsRun(env: Isa.Env, start: Isa.Arch, k: nat, n: nat)
    requires k <= n
    ensures States(env, start, Steps(n))[k] == Isa.Run(env, start, Steps(k))
  {
    hide States, Isa.Run;
    StatesAt(env, start, Steps(n), k);
    StepsPrefix(n, k);
  }

  lemma PrintedPrefix(env: Isa.Env, states: seq<Isa.Arch>, commits: seq<Isa.Commit>, n: nat)
    requires Printed(env, states, commits) && n <= |commits|
    ensures Printed(env, states, commits[..n])
  {
    hide Isa.Report;
  }

  /** Forwarding, queue depth and memory latencies are invisible: of two runs of a program, whatever
      these are in each, one commits a prefix of what the other does. */
  lemma TimingIsInvisible(cfg: Config, cfg': Config, env: Isa.Env, inputs: seq<Inputs>, inputs': seq<Inputs>,
                          trace: seq<World>, trace': seq<World>)
    requires GoodTrace(cfg, env, inputs, trace) && Low(inputs)
    requires GoodTrace(cfg', env, inputs', trace') && Low(inputs')
    requires cfg.resetPc == cfg'.resetPc
    requires |trace[|inputs|].commits| <= |trace'[|inputs'|].commits|
    ensures trace[|inputs|].commits <= trace'[|inputs'|].commits
  {
    hide Cycle, Start, HonestAlong, FlagServed, Isa.Run, Isa.Reports, Stopped;
    QuietCommits(cfg, env, inputs, trace);
    QuietCommits(cfg', env, inputs', trace');
    ReportsPrefix(env, Origin(cfg), |trace[|inputs|].commits|, |trace'[|inputs'|].commits|);
  }

  // ---- traps -------------------------------------------------------------------------------------------

  /** Precise traps. A committed trap keeps the registers, saves the pc, and the next commit is at the
      vector. The state behind it is exactly that of a trap taken in front of the instruction, if and
      only if the instruction had sent no memory request and had changed no CSR state that the trap
      entry does not overwrite. */
  lemma PreciseTraps(cfg: Config, env: Isa.Env, inputs: seq<Inputs>, trace: seq<World>, k: nat)
    requires GoodTrace(cfg, env, inputs, trace) && k < |trace[|inputs|].commits|
    requires trace[|inputs|].commits[k].trap.Trap? && trace[|inputs|].commits[k].halt == Isa.Running
    ensures var w := trace[|inputs|];
      exists states: seq<Isa.Arch> :: Sequential(env, Origin(cfg), w.samples, states) && |w.samples| == |w.commits| &&
        TrapAt(env, states[k], w.samples[k], states[k + 1], w.commits[k].trap) &&
        (k + 1 < |w.commits| ==> w.commits[k + 1].pc == states[k + 1].pc)
  {
    hide Twin, Cycle, Start, HonestAlong, FlagServed, Narrow, Isa.Run, States, Stopped, Isa.Reports, Isa.Report,
         Isa.Step, Sequential, TrapAt, CoreInv.Inv, Rel;
    GoodTwin(cfg, env, inputs, trace);
    OneHalt(cfg, inputs, trace, |inputs|);
    var w := trace[|inputs|];
    var states := States(env, Origin(cfg), w.samples);
    StatesAreSequential(env, Origin(cfg), w.samples);
    StateStep(env, Origin(cfg), w.samples, k);
    Traps.ReportAt(env, Origin(cfg), w.samples, k);
    StatesAt(env, Origin(cfg), w.samples, k);
    Traps.StillRunning(env, Origin(cfg), w.samples, k);
    TrapIsTrap(env, states[k], w.samples[k]);
    if k + 1 < |w.commits| {
      Traps.ReportAt(env, Origin(cfg), w.samples, k + 1);
      StatesAt(env, Origin(cfg), w.samples, k + 1);
      Traps.ReportPc(env, states[k + 1], w.samples[k + 1]);
    }
    assert Sequential(env, Origin(cfg), w.samples, states);
  }

  /** `n` is the state after a trap on the instruction in front of which the state was `a`. */
  ghost predicate TrapAt(env: Isa.Env, a: Isa.Arch, s: Isa.Sample, n: Isa.Arch, trap: Isa.TrapEffect) {
    var i := ExecCorrect.InstrAt(env, a.pc);
    && trap == Isa.Trap(n.csrs.mcause, a.pc, 0)
    && n.regs == a.regs && n.pc == n.csrs.mtvec && n.csrs.mepc == AlignDown(a.pc) && !n.csrs.mie && n.lastTrap
    && n.bus == (if Traps.HasSent(i, s) then a.bus + [Isa.Transaction(a, i)] else a.bus)
    && (n == Traps.TrapEntry(a, n.csrs.mcause) <==>
        !Traps.HasSent(i, s) && Traps.SameBelowTrap(Isa.CsrsAfter(a, i, s.mipRead), a.csrs))
  }

  lemma StateStep(env: Isa.Env, start: Isa.Arch, samples: seq<Isa.Sample>, k: nat)
    requires k < |samples|
    ensures States(env, start, samples)[k + 1] == Isa.Step(env, States(env, start, samples)[k], samples[k])
  {
    hide States, Isa.Step;
    StatesAreSequential(env, start, samples);
  }

  lemma TrapIsTrap(env: Isa.Env, a: Isa.Arch, s: Isa.Sample)
    requires !a.halted && Isa.Report(env, a, s).trap.Trap? && Isa.Report(env, a, s).halt == Isa.Running
    ensures TrapAt(env, a, s, Isa.Step(env, a, s), Isa.Report(env, a, s).trap)
  {
    hide Isa.Step, Isa.Report, ExecCorrect.InstrAt, Isa.CsrsAfter, Isa.Transaction, Traps.TrapEntry, Traps.SameBelowTrap,
         AlignDown;
    TrapSets(env, a, s);
    Traps.PreciseExactly(env, a, s);
  }

  lemma TrapSets(env: Isa.Env, a: Isa.Arch, s: Isa.Sample)
    requires !a.halted && Isa.Report(env, a, s).trap.Trap? && Isa.Report(env, a, s).halt == Isa.Running
    ensures Isa.Step(env, a, s).lastTrap
  {
    hide Isa.OutcomeOf, HaltExitCode, Isa.EnterTrap;
  }

  /** While a trap commits, nothing live is behind it, and the core's registers, CSRs and memory
      traffic are already those of the sequential machine behind the trap. */
  lemma TrapCommits(cfg: Config, env: Isa.Env, inputs: seq<Inputs>, trace: seq<World>)
    requires GoodTrace(cfg, env, inputs, trace) && !Stopped(trace[|inputs|].commits)
    requires var wb := trace[|inputs|].cpu.be.wb; wb.Alive() && wb.trapPending && !wb.halt
    ensures var w := trace[|inputs|];
      var be := w.cpu.be;
      && !be.mem.Alive() && !be.exe.valid && !be.reqSent
      && exists states: seq<Isa.Arch> :: Sequential(env, Origin(cfg), w.samples + [w.wbSample], states) &&
           var n := states[|w.samples| + 1];
           && n.lastTrap && be.wb.ir.pc == states[|w.samples|].pc
           && be.regs == n.regs && ExecCorrect.AbsCsrs(be.csrs) == n.csrs && w.bus == n.bus
  {
    hide Twin, Cycle, Start, HonestAlong, FlagServed, Follows, Isa.Run, States, Stopped, Isa.Step, Sequential,
         ExecCorrect.AbsCsrs, NarrowFrontend, NarrowRows, NarrowToken;
    GoodTwin(cfg, env, inputs, trace);
    var w := Twin(cfg, inputs);
    TokenFieldsNarrow(w.cpu.be.wb);
    PacketNarrow(w.cpu.be.wb, 0);
    PacketNarrow(w.cpu.be.mem, 0);
    TokenFieldsNarrow(w.cpu.be.exe);
    Traps.TrapInWb(Ideal(cfg), env, w);
    var samples := w.samples + [w.wbSample];
    StatesAreSequential(env, Origin(cfg), samples);
    StatesAt(env, Origin(cfg), samples, |w.samples|);
    StateStep(env, Origin(cfg), samples, |w.samples|);
    assert samples[..|w.samples|] == w.samples;
    assert Sequential(env, Origin(cfg), w.samples + [w.wbSample], States(env, Origin(cfg), samples));
  }

  // ---- forwarding -----------------------------------------------------------------------------------------

  /** Forwarding is transparent: unless an older instruction is about to halt or trap, the token in EXE
      is the instruction that the sequential machine comes to after all older ones, and carries that
      machine's register values. */
  lemma OperandsAreArchitectural(cfg: Config, env: Isa.Env, inputs: seq<Inputs>, trace: seq<World>)
    requires GoodTrace(cfg, env, inputs, trace)
    requires !Stopped(trace[|inputs|].commits) && !Halting(trace[|inputs|].cpu.be)
    requires trace[|inputs|].cpu.be.exe.valid
    ensures var w := trace[|inputs|];
      exists older: seq<Isa.Sample>, states: seq<Isa.Arch> ::
        && |older| == (if w.cpu.be.wb.Alive() then 1 else 0) + (if w.cpu.be.mem.Alive() then 1 else 0)
        && Sequential(env, Origin(cfg), w.samples + older, states)
        && var e, t := states[|w.samples| + |older|], w.cpu.be.exe;
           !e.halted && !(w.cpu.be.mem.Alive() && e.lastTrap) ==>
             && t.ir == ExecCorrect.DecodeAt(env, e.pc)
             && (t.ir.rs1Use ==> t.rs1Val == ReadReg(e.regs, t.ir.rs1))
             && (t.ir.rs2Use ==> t.rs2Val == ReadReg(e.regs, t.ir.rs2))
  {
    hide Twin, Cycle, Start, HonestAlong, FlagServed, Follows, Isa.Run, States, Stopped, Isa.Step, Sequential,
         ExecCorrect.DecodeAt, ReadReg, NarrowFrontend, NarrowRows, NarrowToken, Reachable.Older;
    GoodTwin(cfg, env, inputs, trace);
    var w := Twin(cfg, inputs);
    TokenFieldsNarrow(w.cpu.be.wb);
    PacketNarrow(w.cpu.be.wb, 0);
    PacketNarrow(w.cpu.be.mem, 0);
    TokenFieldsNarrow(w.cpu.be.exe);
    Reachable.OperandsIn(Ideal(cfg), env, w);
    OlderStates(env, Origin(cfg), w);
    OlderLength(w);
  }

  lemma OlderLength(w: World)
    ensures |Reachable.Older(w)| == (if w.cpu.be.wb.Alive() then 1 else 0) + (if w.cpu.be.mem.Alive() then 1 else 0)
  {}

  lemma OlderStates(env: Isa.Env, start: Isa.Arch, w: World)
    ensures var samples := w.samples + Reachable.Older(w);
      && Sequential(env, start, samples, States(env, start, samples))
      && States(env, start, samples)[|samples|] == Isa.Run(env, start, samples)
      && States(env, start, samples)[|w.samples|] == Isa.Run(env, start, w.samples)
  {
    hide Isa.Run, States, Sequential, Reachable.Older;
    var samples := w.samples + Reachable.Older(w);
    StatesAreSequential(env, start, samples);
    StatesAt(env, start, samples, |samples|);
    StatesAt(env, start, samples, |w.samples|);
    assert samples[..|samples|] == samples && samples[..|w.samples|] == w.samples;
  }

  /** A scoreboard row that is live and marked ready in MEM or WB stands for a final value: the one on
      that stage's result bus is what the sequential machine leaves in the row's register, unless the
      instruction traps or halts. In WB every live row of an instruction that does neither is ready. */
  lemma ResultBusesAreFinal(cfg: Config, env: Isa.Env, inputs: seq<Inputs>, trace: seq<World>)
    requires GoodTrace(cfg, env, inputs, trace)
    requires !Stopped(trace[|inputs|].commits) && !Halting(trace[|inputs|].cpu.be)
    ensures var w := trace[|inputs|];
      exists older: seq<Isa.Sample>, states: seq<Isa.Arch> ::
        && |older| == (if w.cpu.be.wb.Alive() then 1 else 0) + (if w.cpu.be.mem.Alive() then 1 else 0)
        && Sequential(env, Origin(cfg), w.samples + older, states)
        && BusesFinal(w.cpu.be, states[|w.samples| + (if w.cpu.be.wb.Alive() then 1 else 0)], states[|w.samples| + |older|])
  {
    hide Twin, Cycle, Start, HonestAlong, FlagServed, Follows, Isa.Run, States, Stopped, Isa.Step, Sequential,
         ReadReg, NarrowFrontend, NarrowRow, NarrowToken, Reachable.Older;
    GoodTwin(cfg, env, inputs, trace);
    OlderLength(Twin(cfg, inputs));
    var w := Twin(cfg, inputs);
    TokenFieldsNarrow(w.cpu.be.wb);
    TokenFieldsNarrow(w.cpu.be.mem);
    PacketNarrow(w.cpu.be.wb, 0);
    PacketNarrow(w.cpu.be.mem, 0);
    Reachable.ResultBusesIn(Ideal(cfg), env, w);
    RowFieldsNarrow(w.cpu.be.rows.mem);
    RowFieldsNarrow(w.cpu.be.rows.wb);
    OlderStates(env, Origin(cfg), w);
    Reachable.OlderRun(Ideal(cfg), env, w);
    WbState(env, Origin(cfg), w);
  }

  /** `m` is the state behind WB's instruction, `e` the one behind MEM's. */
  ghost predicate BusesFinal(be: Backend, m: Isa.Arch, e: Isa.Arch) {
    && (be.rows.wb.valid && !be.rows.wb.killed && be.rows.wb.rdToWrite && !be.wb.trapPending ==>
          be.rows.wb.rdReady && be.wb.rdValue == ReadReg(m.regs, be.rows.wb.rd))
    && (be.rows.mem.valid && !be.rows.mem.killed && be.rows.mem.rdToWrite && be.rows.mem.rdReady &&
        !e.halted && !e.lastTrap ==>
          be.mem.rdValue == ReadReg(e.regs, be.rows.mem.rd))
  }

  lemma RowFieldsNarrow(r: Row)
    ensures var n := NarrowRow(r);
      n.valid == r.valid && n.killed == r.killed && n.rdToWrite == r.rdToWrite && n.rd == r.rd && n.rdReady == r.rdReady
  {}

  lemma WbState(env: Isa.Env, start: Isa.Arch, w: World)
    ensures States(env, start, w.samples + Reachable.Older(w))[|w.samples| + (if w.cpu.be.wb.Alive() then 1 else 0)] ==
            ArchMem(env, Isa.Run(env, start, w.samples), w)
  {
    hide Isa.Run, States, Isa.Step;
    var samples := w.samples + Reachable.Older(w);
    StatesAt(env, start, samples, |w.samples|);
    assert samples[..|w.samples|] == w.samples;
    if w.cpu.be.wb.Alive() {
      StatesAt(env, start, samples, |w.samples| + 1);
      assert samples[..|w.samples| + 1] == w.samples + [w.wbSample];
      RunExtends(env, start, w.samples, w.wbSample);
    }
  }

  // ---- liveness ---------------------------------------------------------------------------------------------

  /** For how long the present requests have been waiting, all along a run. */
  ghost predicate WaitsAlong(cfg: Config, inputs: seq<Inputs>, trace: seq<World>, waits: seq<Waits>) {
    && |trace| == |inputs| + 1 == |waits|
    && waits[0] == Waits(0, 0)
    && forall k :: 0 <= k < |inputs| ==> waits[k + 1] == WaitsNext(cfg, trace[k].cpu, inputs[k], waits[k])
  }

  /** No request, accepted or not, waits for `n` cycles. */
  ghost predicate PromptAlong(n: nat, waits: seq<Waits>) { forall k :: 0 <= k < |waits| ==> Prompt(n, waits[k]) }

  lemma {:induction false} WaitsAt(cfg: Config, inputs: seq<Inputs>, trace: seq<World>, waits: seq<Waits>, k: nat)
    requires IsRun(cfg, inputs, trace) && WaitsAlong(cfg, inputs, trace, waits) && k <= |inputs|
    ensures waits[k] == Waiting(cfg, inputs[..k])
  {
    hide Watch, Cycle, Start, WaitsNext;
    if k > 0 {
      WaitsAt(cfg, inputs, trace, waits, k - 1);
      TraceIsWatch(cfg, inputs, trace, k - 1);
      assert inputs[..k][..k - 1] == inputs[..k - 1];
    }
  }

  lemma {:induction false} PromptPrefix(cfg: Config, n: nat, inputs: seq<Inputs>, trace: seq<World>, waits: seq<Waits>, k: nat)
    requires IsRun(cfg, inputs, trace) && WaitsAlong(cfg, inputs, trace, waits) && PromptAlong(n, waits)
    requires k <= |inputs|
    ensures PromptMemories(cfg, n, inputs[..k])
  {
    hide IsRun, Waiting, WaitsNext;
    WaitsAt(cfg, inputs, trace, waits, k);
    if k > 0 {
      PromptPrefix(cfg, n, inputs, trace, waits, k - 1);
      assert inputs[..k][..k - 1] == inputs[..k - 1];
    }
  }

  /** Whatever the program, the interrupt wires and the contents of the memories: if no request waits
      for `n` cycles, the hardware commits at least once in `Bound + 1` cycles, until it halts. */
  lemma Throughput(cfg: Config, n: nat, inputs: seq<Inputs>, trace: seq<World>, waits: seq<Waits>)
    requires cfg.Valid() && cfg.ids.Wrapped? && IsRun(cfg, inputs, trace)
    requires WaitsAlong(cfg, inputs, trace, waits) && PromptAlong(n, waits)
    ensures var w := trace[|inputs|];
      Stopped(w.commits) || |inputs| < (3 + 2 * n + 5 * (cfg.queueDepth + 1) * (n + 1) + 1) * (|w.commits| + 1)
  {
    hide Cycle, Start, WaitsAlong, PromptAlong, Stopped, PromptMemories;
    PromptPrefix(cfg, n, inputs, trace, waits, |inputs|);
    assert inputs[..|inputs|] == inputs;
    PromptCommits(cfg, n, inputs, trace);
  }

  lemma PromptCommits(cfg: Config, n: nat, inputs: seq<Inputs>, trace: seq<World>)
    requires cfg.Valid() && cfg.ids.Wrapped? && IsRun(cfg, inputs, trace) && PromptMemories(cfg, n, inputs)
    ensures var w := trace[|inputs|];
      Stopped(w.commits) || |inputs| < (3 + 2 * n + 5 * (cfg.queueDepth + 1) * (n + 1) + 1) * (|w.commits| + 1)
  {
    hide Watch, Cycle, Start, Stopped, PromptMemories, Narrow, Bound;
    assert Hardware(cfg) == cfg;
    PromptIdeal(cfg, n, inputs);
    IdealThroughput(Ideal(cfg), n, inputs);
    TwinEnd(cfg, inputs, trace);
    SameBound(cfg, n);
    BoundIs(cfg, n);
  }

  /** From every state of a run, the next commit comes within the bound. */
  lemma CommitsSoon(cfg: Config, n: nat, inputs: seq<Inputs>, trace: seq<World>, waits: seq<Waits>, k: nat)
    requires cfg.Valid() && cfg.ids.Wrapped? && IsRun(cfg, inputs, trace)
    requires WaitsAlong(cfg, inputs, trace, waits) && PromptAlong(n, waits)
    requires k + 3 + 2 * n + 5 * (cfg.queueDepth + 1) * (n + 1) <= |inputs|
    ensures exists j :: k <= j <= k + 3 + 2 * n + 5 * (cfg.queueDepth + 1) * (n + 1) && trace[j].cpu.be.wb.Alive()
  {
    hide Watch, Cycle, Start, WaitsAlong, PromptAlong;
    PromptPrefix(cfg, n, inputs, trace, waits, |inputs|);
    assert inputs[..|inputs|] == inputs;
    BoundIs(cfg, n);
    var j := Liveness.CommitsWithin(cfg, n, inputs, k);
    TraceIsWatch(cfg, inputs, trace, j);
  }

  lemma BoundIs(cfg: Config, n: nat)
    ensures Bound(cfg, n) == 3 + 2 * n + 5 * (cfg.queueDepth + 1) * (n + 1)
  {
    Associates(5, cfg.queueDepth + 1, n + 1);
  }

  lemma Associates(a: nat, b: nat, c: nat)
    ensures a * (b * c) == a * b * c
  {}

  /** The plain interpreter halts in its `h`-th step. */
  ghost predicate HaltsAfter(env: Isa.Env, start: Isa.Arch, h: nat) {
    h > 0 &&
    forall states: seq<Isa.Arch> :: Interpreted(env, start, states) && |states| == h + 1 ==>
      states[h].halted && !states[h - 1].halted
  }

  lemma HaltsInRun(env: Isa.Env, start: Isa.Arch, h: nat)
    requires HaltsAfter(env, start, h)
    ensures Isa.Run(env, start, Steps(h)).halted && !Isa.Run(env, start, Steps(h - 1)).halted
  {
    hide Isa.Run, Interpreted, States;
    StepsInterpret(env, start, h);
    StepsRun(env, start, h, h);
    StepsRun(env, start, h - 1, h);
  }

  lemma PrintsSteps(env: Isa.Env, start: Isa.Arch, h: nat, commits: seq<Isa.Commit>)
    requires commits == Isa.Reports(env, start, Steps(h))
    ensures exists states: seq<Isa.Arch> :: Interpreted(env, start, states) && |states| == h + 1 && Printed(env, states, commits)
  {
    hide Interpreted, Printed, States, Isa.Reports;
    StepsInterpret(env, start, h);
    assert Interpreted(env, start, States(env, start, Steps(h)));
  }

  lemma CompletesRun(cfg: Config, env: Isa.Env, inputs: seq<Inputs>, trace: seq<World>, b: nat, h: nat)
    requires GoodTrace(cfg, env, inputs, trace) && Low(inputs) && HaltsAfter(env, Origin(cfg), h)
    requires Stopped(trace[|inputs|].commits) || |inputs| < b * (|trace[|inputs|].commits| + 1)
    requires |inputs| >= b * (h + 1)
    ensures var w := trace[|inputs|];
      |w.commits| == h &&
      exists states: seq<Isa.Arch> ::
        Interpreted(env, Origin(cfg), states) && |states| == h + 1 && Printed(env, states, w.commits)
  {
    hide Cycle, Start, HonestAlong, FlagServed, Isa.Run, Interpreted, Isa.Reports, HaltsAfter, Printed, Stopped;
    QuietCommits(cfg, env, inputs, trace);
    OneHalt(cfg, inputs, trace, |inputs|);
    HaltsInRun(env, Origin(cfg), h);
    Completes(env, Origin(cfg), trace[|inputs|].commits, |inputs|, b, h);
    PrintsSteps(env, Origin(cfg), h, trace[|inputs|].commits);
  }

  /** If the plain interpreter halts after `h` steps, the hardware gets there in a bounded number of
      cycles and has then committed exactly what the interpreter prints in those steps. */
  lemma RunsToCompletion(cfg: Config, env: Isa.Env, n: nat, inputs: seq<Inputs>, trace: seq<World>, waits: seq<Waits>,
                         h: nat)
    requires GoodTrace(cfg, env, inputs, trace) && Low(inputs)
    requires WaitsAlong(cfg, inputs, trace, waits) && PromptAlong(n, waits)
    requires HaltsAfter(env, Origin(cfg), h)
    requires |inputs| >= (3 + 2 * n + 5 * (cfg.queueDepth + 1) * (n + 1) + 1) * (h + 1)
    ensures var w := trace[|inputs|];
      |w.commits| == h &&
      exists states: seq<Isa.Arch> ::
        Interpreted(env, Origin(cfg), states) && |states| == h + 1 && Printed(env, states, w.commits)
  {
    hide Cycle, Start, HonestAlong, FlagServed, WaitsAlong, PromptAlong, Interpreted, HaltsAfter, Printed, Stopped, Low;
    Throughput(cfg, n, inputs, trace, waits);
    CompletesRun(cfg, env, inputs, trace, 3 + 2 * n + 5 * (cfg.queueDepth + 1) * (n + 1) + 1, h);
  }

  // ---- identities ----------------------------------------------------------------------------------------------

  /** On the same inputs, and whatever they are, the hardware with its 2-bit epochs and 8-bit
      identifiers goes through the states of a core whose identities never wrap, as far as its
      registers hold them. */
  lemma HardwareIsIdeal(cfg: Config, inputs: seq<Inputs>, trace: seq<World>, ideal: seq<World>, k: nat)
    requires cfg.Valid() && cfg.ids.Wrapped? && k <= |inputs|
    requires IsRun(cfg, inputs, trace) && IsRun(cfg.(ids := Unbounded), inputs, ideal)
    ensures trace[k].cpu == Narrow(ideal[k].cpu)
    ensures trace[k].commits == ideal[k].commits && trace[k].bus == ideal[k].bus
  {
    hide Watch, Cycle, Start, Narrow;
    TraceIsWatch(cfg, inputs, trace, k);
    TraceIsWatch(cfg.(ids := Unbounded), inputs, ideal, k);
    assert Hardware(cfg) == cfg && Ideal(cfg) == cfg.(ids := Unbounded);
    HardwareRuns.HardwareIsIdeal(cfg, inputs[..k]);
  }

  /** In every state of the hardware the live tokens, the queue, the fetched and the requested
      instruction and the next one to request are one chain, once their epochs and identifiers are
      counted without wrapping: within an epoch the pc steps by four and the identifier by one. No part
      of it lags the present epoch by more than two. */
  lemma OneStream(cfg: Config, inputs: seq<Inputs>, trace: seq<World>)
    requires cfg.Valid() && cfg.ids.Wrapped? && IsRun(cfg, inputs, trace)
    ensures exists s: Cpu :: trace[|inputs|].cpu == Narrow(s) && StreamOk(s)
  {
    hide Watch, Cycle, Start, Chains.Chain, CoreInv.Stream, CoreInv.Mirrored, CoreInv.TokensOk, CoreInv.WbOk, Narrow;
    TwinEnd(cfg, inputs, trace);
    InvRun(Ideal(cfg), inputs);
    var s := Twin(cfg, inputs).cpu;
    CoreInv.StreamEpochs(s);
    assert trace[|inputs|].cpu == Narrow(s);
  }

  ghost predicate StreamOk(s: Cpu) {
    var links := CoreInv.Stream(s);
    && Chains.Chain(links)
    && forall k :: 0 <= k < |links| ==> links[k].epoch <= s.fe.epoch <= links[k].epoch + 2
  }

  /** With a queue of at most five entries the double-trap flag is settled whenever MEM holds a live
      instruction: no commit is about to change it. */
  lemma FlagIsSettled(cfg: Config, inputs: seq<Inputs>, trace: seq<World>)
    requires cfg.Valid() && cfg.ids.Wrapped? && cfg.queueDepth <= 5 && IsRun(cfg, inputs, trace)
    ensures var be := trace[|inputs|].cpu.be;
      be.wb.Alive() && be.mem.Alive() ==> !be.lastTrap && !be.wb.trapPending
  {
    hide Watch, Cycle, Start, CoreInv.Inv, Handler.HandlerTiming, NarrowToken, NarrowFrontend, NarrowRows;
    TwinEnd(cfg, inputs, trace);
    TimingRun(Ideal(cfg), inputs);
    InvRun(Ideal(cfg), inputs);
    var s := Twin(cfg, inputs).cpu;
    PacketNarrow(s.be.wb, 0);
    PacketNarrow(s.be.mem, 0);
    TokenFieldsNarrow(s.be.wb);
    if s.be.wb.Alive() && s.be.mem.Alive() {
      Handler.FlagNeverStale(Ideal(cfg), s);
    }
  }

  /** What a core has issued, committed and killed, all along a run. */
  ghost predicate LogAlong(cfg: Config, inputs: seq<Inputs>, trace: seq<World>, logs: seq<Ledger.Log>) {
    && |trace| == |inputs| + 1 == |logs|
    && logs[0] == Ledger.Log([], [], [])
    && forall k :: 0 <= k < |inputs| ==> logs[k + 1] == Ledger.LogNext(cfg, trace[k].cpu, inputs[k], logs[k])
  }

  lemma {:induction false} LogAt(cfg: Config, inputs: seq<Inputs>, trace: seq<World>, logs: seq<Ledger.Log>, k: nat)
    requires IsRun(cfg, inputs, trace) && LogAlong(cfg, inputs, trace, logs) && k <= |inputs|
    ensures logs[k] == Ledger.LogOf(cfg, inputs[..k])
  {
    hide Watch, Cycle, Start, Ledger.LogNext;
    if k > 0 {
      LogAt(cfg, inputs, trace, logs, k - 1);
      TraceIsWatch(cfg, inputs, trace, k - 1);
      assert inputs[..k][..k - 1] == inputs[..k - 1];
    }
  }

  /** No instruction of the hardware is issued twice. Each one issued has committed once, has been killed
      once or is in the pipeline once, never two of these, and nothing else commits; commits are in order
      of issue. Instructions are told apart by the identities of `twin`, the idealised core on the same
      inputs, whose states the hardware goes through. */
  lemma ExactlyOnce(cfg: Config, inputs: seq<Inputs>, trace: seq<World>, twin: seq<World>, logs: seq<Ledger.Log>,
                    x: Chains.Link)
    requires cfg.Valid() && cfg.ids.Wrapped?
    requires IsRun(cfg, inputs, trace) && IsRun(cfg.(ids := Unbounded), inputs, twin)
    requires LogAlong(cfg.(ids := Unbounded), inputs, twin, logs)
    ensures var log, flight := logs[|inputs|], Ledger.Flight(twin[|inputs|].cpu.be);
      && trace[|inputs|].cpu == Narrow(twin[|inputs|].cpu)
      && multiset(log.retired)[x] + multiset(log.killed)[x] + multiset(flight)[x] == (if x in log.issued then 1 else 0)
      && Ledger.Increasing(log.issued) && Ledger.Increasing(log.retired + flight)
  {
    hide Watch, Cycle, Start, Ledger.LogOf, Ledger.LogNext, Ledger.Increasing, Ledger.Flight, Ledger.Behind, Narrow;
    var ideal := cfg.(ids := Unbounded);
    HardwareIsIdeal(cfg, inputs, trace, twin, |inputs|);
    TraceEnd(ideal, inputs, twin);
    LogAt(ideal, inputs, twin, logs, |inputs|);
    assert inputs[..|inputs|] == inputs;
    Ledger.AccountRun(ideal, inputs);
    var log := logs[|inputs|];
    if x in log.issued {
      var i :| 0 <= i < |log.issued| && log.issued[i] == x;
      Ledger.IncreasingOnce(log.issued, i);
    } else {
      assert multiset(log.issued)[x] == 0;
    }
  }

  /** Younger instructions are suppressed for good. Let a trap in MEM or a transfer in EXE redirect the
      hardware in cycle `i`. Then nothing younger than the redirecting instruction that had been
      requested by then is live in EXE, MEM or WB in any later cycle; so it is not issued any more, and
      neither writes a CSR or a register, nor sends a request, redirects or commits. */
  lemma YoungerNeverAct(cfg: Config, inputs: seq<Inputs>, trace: seq<World>, twin: seq<World>, i: nat, j: nat, x: Chains.Link)
    requires cfg.Valid() && cfg.ids.Wrapped? && i < j <= |inputs|
    requires IsRun(cfg, inputs, trace) && IsRun(cfg.(ids := Unbounded), inputs, twin)
    requires Redirect(trace[i].cpu.be, inputs[i])
    requires Ledger.Before(Ledger.Redirecting(twin[i].cpu.be, inputs[i]), x) && x.epoch <= twin[i].cpu.fe.epoch
    ensures trace[j].cpu == Narrow(twin[j].cpu) && x !in Ledger.Flight(twin[j].cpu.be)
  {
    hide Watch, Cycle, Start, Ledger.Flight, Narrow, Redirect, Ledger.Before, Ledger.Redirecting;
    HardwareIsIdeal(cfg, inputs, trace, twin, i);
    HardwareIsIdeal(cfg, inputs, trace, twin, j);
    RedirectTwin(twin[i].cpu, inputs[i]);
    Spared(cfg.(ids := Unbounded), inputs, twin, i, j);
  }

  lemma RedirectTwin(s: Cpu, input: Inputs)
    ensures Redirect(Narrow(s).be, input) == Redirect(s.be, input)
  {
    hide KillOf, NarrowFrontend, NarrowToken, NarrowRows;
    SignalsNarrow(s.be, input);
  }

  lemma {:induction false} Spared(cfg: Config, inputs: seq<Inputs>, twin: seq<World>, i: nat, j: nat)
    requires cfg.Valid() && cfg.ids.Unbounded? && i < j <= |inputs| && IsRun(cfg, inputs, twin)
    requires Redirect(twin[i].cpu.be, inputs[i])
    ensures twin[j].cpu.fe.epoch > twin[i].cpu.fe.epoch
    ensures Ledger.Spares(Ledger.Redirecting(twin[i].cpu.be, inputs[i]), twin[i].cpu.fe.epoch, Ledger.Flight(twin[j].cpu.be))
  {
    hide Watch, Cycle, Start, Ledger.Flight, Redirect, Ledger.Spares, Ledger.Redirecting, CoreInv.Inv, Step;
    TraceIsWatch(cfg, inputs, twin, j - 1);
    InvRun(cfg, inputs[..j - 1]);
    CycleLogs(cfg, twin[j - 1], inputs[j - 1]);
    assert twin[j - 1 + 1] == twin[j];
    if i + 1 == j {
      Ledger.RedirectSpares(cfg, twin[i].cpu, inputs[i]);
    } else {
      Spared(cfg, inputs, twin, i, j - 1);
      Ledger.SparesNext(cfg, twin[j - 1].cpu, inputs[j - 1], Ledger.Redirecting(twin[i].cpu.be, inputs[i]), twin[i].cpu.fe.epoch);
    }
  }

  /** The comparisons of a kill on wrapped identifiers are exact: it spares MEM's token, strikes EXE's
      exactly when MEM's traps, and an instruction that is being issued meets none. */
  lemma KillsAreExact(cfg: Config, inputs: seq<Inputs>, trace: seq<World>, input: Inputs)
    requires cfg.Valid() && cfg.ids.Wrapped? && IsRun(cfg, inputs, trace)
    ensures var s := trace[|inputs|].cpu;
      var be, kill := s.be, KillOf(s.be, input);
      && (be.mem.Alive() ==> !KilledByEvent(Wrapped, true, be.mem.epoch, be.mem.seqId, kill))
      && (be.exe.valid ==>
            (KilledByEvent(Wrapped, true, be.exe.epoch, be.exe.seqId, kill) <==> TrapFlush(be, input)))
      && (Issues(cfg, s, input) ==> kill == NoKill)
  {
    hide Watch, Cycle, Start, KilledByEvent, KillOf, TrapFlush, Issues, Narrow, CoreInv.Inv;
    TwinEnd(cfg, inputs, trace);
    assert Hardware(cfg) == cfg;
    InvRun(Ideal(cfg), inputs);
    Reachable.KillsIn(cfg, Twin(cfg, inputs).cpu, input);
  }

  // ---- the testbench -------------------------------------------------------------------------------------------

  /** A run in the testbench of tb/tb_top.sv: always ready, and the response registers answer the
      requests of the cycle before. */
  ghost predicate BenchRun(cfg: Config, env: Isa.Env, wires: seq<Bench.Wires>, inputs: seq<Inputs>, trace: seq<World>) {
    && IsRun(cfg, inputs, trace) && |inputs| == |wires|
    && (wires != [] ==> inputs[0] == Bench.InputOf(Bench.Idle, wires[0]))
    && forall k :: 0 <= k < |wires| - 1 ==>
         inputs[k + 1] == Bench.InputOf(Bench.PortsNext(cfg, env, trace[k], inputs[k]), wires[k + 1])
  }

  lemma {:induction false} BenchFeeds(cfg: Config, env: Isa.Env, wires: seq<Bench.Wires>, inputs: seq<Inputs>,
                                      trace: seq<World>, k: nat)
    requires BenchRun(cfg, env, wires, inputs, trace) && k <= |wires|
    ensures inputs[..k] == Bench.Feed(cfg, env, wires[..k])
  {
    hide Watch, Cycle, Start, Bench.PortsNext, Bench.InputOf, Bench.Idle;
    if k > 0 {
      BenchFeeds(cfg, env, wires, inputs, trace, k - 1);
      assert wires[..k][..k - 1] == wires[..k - 1];
      assert inputs[..k] == inputs[..k - 1] + [inputs[k - 1]];
      if k > 1 {
        TraceIsWatch(cfg, inputs, trace, k - 2);
        assert inputs[..k - 1][..k - 2] == inputs[..k - 2];
      }
    }
  }

  lemma BenchIsFed(cfg: Config, env: Isa.Env, wires: seq<Bench.Wires>, inputs: seq<Inputs>, trace: seq<World>)
    requires BenchRun(cfg, env, wires, inputs, trace)
    ensures inputs == Bench.Feed(cfg, env, wires) && trace[|inputs|] == Watch(cfg, inputs)
  {
    hide Watch, Cycle, Start, Bench.PortsNext, Bench.InputOf, Bench.Feed;
    BenchFeeds(cfg, env, wires, inputs, trace, |wires|);
    assert inputs[..|wires|] == inputs && wires[..|wires|] == wires;
    TraceEnd(cfg, inputs, trace);
  }

  lemma BenchIsGood(cfg: Config, env: Isa.Env, wires: seq<Bench.Wires>, inputs: seq<Inputs>, trace: seq<World>)
    requires cfg.Valid() && cfg.ids.Wrapped? && cfg.queueDepth <= 5 && BenchRun(cfg, env, wires, inputs, trace)
    ensures GoodTrace(cfg, env, inputs, trace) && PromptMemories(cfg, 1, inputs)
  {
    hide Watch, Cycle, Start, Bench.Feed, Bench.PortsNext, Bench.InputOf, HonestRun, FlagServes, Honest, PromptMemories;
    BenchIsFed(cfg, env, wires, inputs, trace);
    Bench.FeedIsHonest(cfg, env, wires);
    Bench.FeedIsPrompt(cfg, env, wires);
    assert inputs[..|inputs|] == inputs;
    HonestTrace(cfg, env, inputs, trace, |inputs|);
    ShortQueuesServe(cfg, inputs, trace);
  }

  lemma {:induction false} HonestTrace(cfg: Config, env: Isa.Env, inputs: seq<Inputs>, trace: seq<World>, n: nat)
    requires IsRun(cfg, inputs, trace) && n <= |inputs| && HonestRun(cfg, env, inputs[..n])
    ensures forall k :: 0 <= k < n ==> Honest(env, trace[k], inputs[k])
  {
    hide Watch, Cycle, Start, Honest;
    if n > 0 {
      assert inputs[..n][..n - 1] == inputs[..n - 1];
      HonestTrace(cfg, env, inputs, trace, n - 1);
      TraceIsWatch(cfg, inputs, trace, n - 1);
    }
  }

  /** In the testbench, with any interrupts and a queue of at most five entries, the refinement holds
      with nothing else assumed. */
  lemma BenchRefinesIsa(cfg: Config, env: Isa.Env, wires: seq<Bench.Wires>, inputs: seq<Inputs>, trace: seq<World>)
    requires cfg.Valid() && cfg.ids.Wrapped? && cfg.queueDepth <= 5 && BenchRun(cfg, env, wires, inputs, trace)
    ensures var w := trace[|inputs|];
      exists states: seq<Isa.Arch> ::
        && Sequential(env, Origin(cfg), w.samples, states)
        && Reported(env, w.samples, states, w.commits)
  {
    hide GoodTrace, Sequential, Reported, Bench.PortsNext, Bench.InputOf, Cycle, Start;
    BenchIsGood(cfg, env, wires, inputs, trace);
    PipelineRefinesIsa(cfg, env, inputs, trace);
  }

  /** In the testbench, with the wires low, the default core runs a program that halts after `h` steps
      to its end within 56 cycles a step, and its commits are what the plain interpreter prints. */
  lemma BenchRunsPrograms(cfg: Config, env: Isa.Env, wires: seq<Bench.Wires>, inputs: seq<Inputs>, trace: seq<World>, h: nat)
    requires cfg.Valid() && cfg.ids.Wrapped? && cfg.queueDepth == 4 && BenchRun(cfg, env, wires, inputs, trace)
    requires forall k :: 0 <= k < |wires| ==> wires[k] == Bench.Wires(false, false, false)
    requires HaltsAfter(env, Origin(cfg), h) && |wires| >= 56 * (h + 1)
    ensures var w := trace[|inputs|];
      |w.commits| == h &&
      exists states: seq<Isa.Arch> ::
        Interpreted(env, Origin(cfg), states) && |states| == h + 1 && Printed(env, states, w.commits)
  {
    hide GoodTrace, Bench.PortsNext, Bench.InputOf, Cycle, Start, Bench.Feed, Interpreted, Printed, HaltsAfter, Stopped;
    BenchIsGood(cfg, env, wires, inputs, trace);
    BenchIsFed(cfg, env, wires, inputs, trace);
    Bench.FeedIsQuiet(cfg, env, wires);
    PromptCommits(cfg, 1, inputs, trace);
    CompletesRun(cfg, env, inputs, trace, 56, h);
  }
}

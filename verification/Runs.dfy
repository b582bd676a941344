/** Whole runs of the core against whole runs of the sequential machine. */
module Runs {
  import opened Words
  import opened Uarch
  import opened Datapath
  import opened Core
  import opened CoreInv
  import opened ExecCorrect
  import opened Refine
  import opened Handler
  import Isa
  import Chains
  import FrontendInv

  // ---- runs ------------------------------------------------------------------------------------

  /** The core and its observer after the given cycles. */
  function Watch(cfg: Config, inputs: seq<Inputs>): World {
    if inputs == [] then Start(cfg)
    else Cycle(cfg, Watch(cfg, inputs[..|inputs| - 1]), inputs[|inputs| - 1])
  }

  /** In every cycle of the run the memories keep their promises. */
  ghost predicate HonestRun(cfg: Config, env: Isa.Env, inputs: seq<Inputs>) {
    inputs == [] ||
    var before := inputs[..|inputs| - 1];
    HonestRun(cfg, env, before) && Honest(env, Watch(cfg, before), inputs[|inputs| - 1])
  }

  function Origin(cfg: Config): Isa.Arch { Isa.ResetArch(cfg.resetPc) }

  // ---- the double-trap flag --------------------------------------------------------------------

  /** `a` is at the first word of a handler and `b`, right behind it, at the second; the second
      word may trap, and the trap vector then points at that second word itself. */
  ghost predicate SelfVectored(env: Isa.Env, a: Isa.Arch, b: Isa.Arch) {
    var i := InstrAt(env, b.pc);
    var from := Isa.CsrsAfter(b, i, 0);
    && a.lastTrap && !b.lastTrap && !b.halted && b.pc == Plus(a.pc, 4)
    && from.mtvec == b.pc && (i.Ecall? || from.mie)
  }

  ghost predicate NeverSelfVectored(env: Isa.Env, a: Isa.Arch, samples: seq<Isa.Sample>) {
    samples == [] ||
    var before := samples[..|samples| - 1];
    NeverSelfVectored(env, a, before) && !SelfVectored(env, Isa.Run(env, a, before), Isa.Run(env, a, samples))
  }

  /** The pending bits are read-only, so no CSR effect depends on the interrupt wires. */
  lemma CsrsIgnoreWires(a: Isa.Arch, i: Isa.Instr, mip: Word)
    ensures Isa.CsrsAfter(a, i, mip) == Isa.CsrsAfter(a, i, 0)
  {
    hide Flag, AlignDown, Isa.CsrUpdate, Isa.CsrOperand, Isa.CsrWrites, Isa.LeaveTrap;
  }

  /** MEM and the sequential machine agree on whether a trap is one too many, exactly when the flag
      that MEM reads is not stale. */
  lemma FlagDecides(cfg: Config, env: Isa.Env, a: Isa.Arch, w: World, input: Inputs)
    requires Inv(cfg, w.cpu) && Rel(env, a, w) && !Halting(w.cpu.be)
    requires w.cpu.be.mem.Alive() && TrapWanted(w.cpu.be.mem, w.cpu.be.csrs, MipOf(input))
    ensures var be, m := w.cpu.be, ArchMem(env, a, w);
      (DoubleTrap(be.mem, be.csrs, MipOf(input), be.lastTrap) <==>
       Isa.DoubleTrap(m, Isa.CsrsAfter(m, InstrAt(env, m.pc), w.memMip))) <==> !StaleFlag(be, input)
  {
    hide Plus, Isa.Step, Executed, Isa.CsrsAfter, EarlyAt, Stream, Mirrored, TokensOk, Chains.Chain, EpochsOk,
         PreHalt, AsyncCause, InstrAt, AlignDown, Packet, Observe, Isa.Report, Flag;
    var be, m := w.cpu.be, ArchMem(env, a, w);
    Committed(env, a, w);
    ExecutedFields(env, m, w.memMip, be.mem);
    MemPreHalt(env, m, w.memMip, be.mem);
  }

  lemma StaleIsSelfVectored(cfg: Config, env: Isa.Env, a: Isa.Arch, w: World, input: Inputs)
    requires Inv(cfg, w.cpu) && Rel(env, a, w) && !Halting(w.cpu.be)
    requires w.cpu.be.mem.Alive() && StaleFlag(w.cpu.be, input)
    ensures SelfVectored(env, a, ArchMem(env, a, w))
  {
    hide Plus, Isa.Step, Executed, Isa.CsrsAfter, EarlyAt, Stream, Mirrored, TokensOk, Chains.Chain, EpochsOk,
         PreHalt, AsyncCause, InstrAt, AlignDown, Packet, Observe, Isa.Report, Flag;
    var be, m, mip := w.cpu.be, ArchMem(env, a, w), MipOf(input);
    var i := InstrAt(env, m.pc);
    Committed(env, a, w);
    ExecutedFields(env, m, w.memMip, be.mem);
    MemPreHalt(env, m, w.memMip, be.mem);
    NoEarlyHaltLegal(env, m);
    InterruptAgrees(be.csrs, mip);
    CsrsIgnoreWires(m, i, w.memMip);
  }

  // ---- every run -----------------------------------------------------------------------------------

  /** What has been committed is a run of the sequential machine, and unless that has halted the
      whole pipeline is related to its state. */
  ghost predicate Follows(cfg: Config, env: Isa.Env, w: World) {
    var a := Isa.Run(env, Origin(cfg), w.samples);
    && Inv(cfg, w.cpu)
    && w.commits == Isa.Reports(env, Origin(cfg), w.samples)
    && Stopped(w.commits) == a.halted
    && (!a.halted ==> Rel(env, a, w))
  }

  lemma FollowsStart(cfg: Config, env: Isa.Env)
    requires cfg.Valid()
    ensures Follows(cfg, env, Start(cfg))
  {
    InvReset(cfg);
    StatusFlags();
    assert FrontendInv.FrontLinks(Reset(cfg).fe) == [Chains.Link(0, 0, cfg.resetPc)];
  }

  lemma RunExtends(env: Isa.Env, a: Isa.Arch, samples: seq<Isa.Sample>, s: Isa.Sample)
    ensures Isa.Run(env, a, samples + [s]) == Isa.Step(env, Isa.Run(env, a, samples), s)
    ensures Isa.Reports(env, a, samples + [s]) ==
            Isa.Reports(env, a, samples) + [Isa.Report(env, Isa.Run(env, a, samples), s)]
  {
    assert (samples + [s])[..|samples + [s]| - 1] == samples;
  }

  lemma ReportOfHalt(env: Isa.Env, a: Isa.Arch, s: Isa.Sample)
    requires !a.halted
    ensures Isa.Report(env, a, s).halt.Halt? == Isa.Step(env, a, s).halted
  {
    hide Isa.OutcomeOf, HaltExitCode;
  }

  /** In this cycle MEM may rely on the double-trap flag. */
  ghost predicate FlagServes(w: World, input: Inputs) {
    !Stopped(w.commits) && !Halting(w.cpu.be) && w.cpu.be.mem.Alive() ==> !StaleFlag(w.cpu.be, input)
  }

  lemma CycleLogs(cfg: Config, w: World, input: Inputs)
    ensures var next, logs := Cycle(cfg, w, input), w.cpu.be.wb.Alive() && !Stopped(w.commits);
      && next.cpu == Step(cfg, w.cpu, input)
      && next.samples == (if logs then w.samples + [w.wbSample] else w.samples)
      && next.commits == (if logs then w.commits + [CommitOf(w.cpu.be)] else w.commits)
  {
    hide Step, MemStall, DmemRequest, EventOf, CommitOf, MipOf;
  }

  lemma FollowsNext(cfg: Config, env: Isa.Env, w: World, input: Inputs)
    requires cfg.ids.Unbounded? && Follows(cfg, env, w) && Honest(env, w, input) && FlagServes(w, input)
    ensures Follows(cfg, env, Cycle(cfg, w, input))
  {
    hide Step, Cycle, Inv, RelWb, RelCode, RelFlight, Honest, StaleFlag, Isa.Step, Isa.Report, CommitOf, Isa.Run,
         Isa.Reports;
    var a := Isa.Run(env, Origin(cfg), w.samples);
    InvStep(cfg, w.cpu, input);
    CycleLogs(cfg, w, input);
    if !Stopped(w.commits) {
      Committed(env, a, w);
      RunExtends(env, Origin(cfg), w.samples, w.wbSample);
      ReportOfHalt(env, a, w.wbSample);
      if !Halting(w.cpu.be) {
        RelNext(cfg, env, a, w, input);
      }
    }
  }

  /** The idealised core reaches only states that satisfy the invariant, whatever its inputs. */
  lemma {:induction false} InvRun(cfg: Config, inputs: seq<Inputs>)
    requires cfg.Valid() && cfg.ids.Unbounded?
    ensures Inv(cfg, Watch(cfg, inputs).cpu)
    decreases |inputs|
  {
    hide Cycle, Inv, Step;
    if inputs == [] {
      InvReset(cfg);
    } else {
      var before, input := inputs[..|inputs| - 1], inputs[|inputs| - 1];
      InvRun(cfg, before);
      InvStep(cfg, Watch(cfg, before).cpu, input);
      CycleLogs(cfg, Watch(cfg, before), input);
    }
  }

  lemma {:induction false} TimingRun(cfg: Config, inputs: seq<Inputs>)
    requires cfg.Valid() && cfg.ids.Unbounded? && cfg.queueDepth <= 5
    ensures HandlerTiming(Watch(cfg, inputs).cpu)
    decreases |inputs|
  {
    hide Cycle, Inv, Step, HandlerTiming;
    if inputs == [] {
      TimingStart(cfg);
    } else {
      var before, input := inputs[..|inputs| - 1], inputs[|inputs| - 1];
      TimingRun(cfg, before);
      InvRun(cfg, before);
      HandlerTimingNext(cfg, Watch(cfg, before).cpu, input);
      CycleLogs(cfg, Watch(cfg, before), input);
    }
  }

  lemma TimingStart(cfg: Config)
    ensures HandlerTiming(Start(cfg).cpu)
  {}

  /** In every cycle of the run MEM may rely on the flag. */
  ghost predicate ServedRun(cfg: Config, inputs: seq<Inputs>) {
    inputs == [] ||
    var before := inputs[..|inputs| - 1];
    ServedRun(cfg, before) && FlagServes(Watch(cfg, before), inputs[|inputs| - 1])
  }

  lemma {:induction false} IdealFollows(cfg: Config, env: Isa.Env, inputs: seq<Inputs>)
    requires cfg.Valid() && cfg.ids.Unbounded? && HonestRun(cfg, env, inputs) && ServedRun(cfg, inputs)
    ensures Follows(cfg, env, Watch(cfg, inputs))
    decreases |inputs|
  {
    hide Cycle, Follows, Honest, FlagServes;
    if inputs == [] {
      FollowsStart(cfg, env);
    } else {
      var before, input := inputs[..|inputs| - 1], inputs[|inputs| - 1];
      IdealFollows(cfg, env, before);
      FollowsNext(cfg, env, Watch(cfg, before), input);
    }
  }

  /** With a queue of at most five entries the flag serves every run. */
  lemma {:induction false} ShortQueuesServe(cfg: Config, inputs: seq<Inputs>)
    requires cfg.Valid() && cfg.ids.Unbounded? && cfg.queueDepth <= 5
    ensures ServedRun(cfg, inputs)
    decreases |inputs|
  {
    hide Cycle, Inv, HandlerTiming;
    if inputs != [] {
      var before := inputs[..|inputs| - 1];
      ShortQueuesServe(cfg, before);
      TimingRun(cfg, before);
      InvRun(cfg, before);
      var s := Watch(cfg, before).cpu;
      if s.be.wb.Alive() && s.be.mem.Alive() {
        FlagNeverStale(cfg, s);
      }
    }
  }

  /** With any queue it serves a program of which no handler is self-vectored. */
  lemma {:induction false} PlainHandlersServe(cfg: Config, env: Isa.Env, inputs: seq<Inputs>)
    requires cfg.Valid() && cfg.ids.Unbounded? && HonestRun(cfg, env, inputs)
    requires NeverSelfVectored(env, Origin(cfg), Watch(cfg, inputs).samples)
    ensures ServedRun(cfg, inputs)
    decreases |inputs|
  {
    hide Cycle, Follows, Honest, FlagServes, SelfVectored, Isa.Run;
    if inputs != [] {
      var before, input := inputs[..|inputs| - 1], inputs[|inputs| - 1];
      var w := Watch(cfg, before);
      CycleLogs(cfg, w, input);
      assert (w.samples + [w.wbSample])[..|w.samples + [w.wbSample]| - 1] == w.samples;
      PlainHandlersServe(cfg, env, before);
      IdealFollows(cfg, env, before);
      PlainHandlerServes(cfg, env, w, input);
    }
  }

  lemma PlainHandlerServes(cfg: Config, env: Isa.Env, w: World, input: Inputs)
    requires Follows(cfg, env, w) && NeverSelfVectored(env, Origin(cfg), Cycle(cfg, w, input).samples)
    ensures FlagServes(w, input)
  {
    hide Cycle, SelfVectored, Isa.Run, Inv, RelWb, RelCode, RelFlight, Isa.Step, Isa.Reports;
    if !FlagServes(w, input) {
      CycleLogs(cfg, w, input);
      RunExtends(env, Origin(cfg), w.samples, w.wbSample);
      assert (w.samples + [w.wbSample])[..|w.samples + [w.wbSample]| - 1] == w.samples;
      StaleIsSelfVectored(cfg, env, Isa.Run(env, Origin(cfg), w.samples), w, input);
    }
  }
}

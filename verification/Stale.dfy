/** What a stale double-trap flag does: the core stops where the sequential machine takes a trap, and
    what it commits is no longer a report of that machine. */
module Stale {
  import opened Words
  import opened Uarch
  import opened Datapath
  import opened Core
  import opened CoreInv
  import opened ExecCorrect
  import opened Refine
  import opened Runs
  import opened FrontendInv
  import Chains
  import Isa

  /** The sequential machine takes a trap on MEM's instruction. */
  lemma TrapsInstead(env: Isa.Env, a: Isa.Arch, w: World, input: Inputs)
    requires Rel(env, a, w) && !Halting(w.cpu.be) && WbOk(w.cpu.be)
    requires w.cpu.be.mem.Alive() && StaleFlag(w.cpu.be, input)
    ensures var be, m := w.cpu.be, ArchMem(env, a, w);
      !m.halted && Isa.Report(env, m, SampleOf(w.memMip, MipOf(input), be.reqSent, input.dmemResp)).trap.Trap?
  {
    hide Isa.Step, Executed, Isa.CsrsAfter, EarlyAt, PreHalt, AsyncCause, InstrAt, AlignDown, Isa.Report, Plus,
         RelBus, RelFetch, RelExe, RelCode, Finished, AbsCsrs, Isa.PendingInterrupt, IllegalNow, MisalignedTarget;
    var be, m, mip := w.cpu.be, ArchMem(env, a, w), MipOf(input);
    var s := SampleOf(w.memMip, mip, be.reqSent, input.dmemResp);
    Committed(env, a, w);
    ExecutedFields(env, m, w.memMip, be.mem);
    MemPreHalt(env, m, w.memMip, be.mem);
    NoEarlyHaltLegal(env, m);
    InterruptAgrees(be.csrs, mip);
    WantedStep(env, m, s);
  }

  /** MEM stops it. */
  lemma StopsInMem(cfg: Config, w: World, input: Inputs)
    requires Inv(cfg, w.cpu) && cfg.ids.Unbounded? && w.cpu.be.mem.Alive() && StaleFlag(w.cpu.be, input)
    ensures var next := Cycle(cfg, w, input);
      && next.cpu.be.wb.Alive() && !next.cpu.be.wb.trapPending && next.cpu.be.wb.halt
      && next.wbSample == SampleOf(w.memMip, MipOf(input), w.cpu.be.reqSent, input.dmemResp)
  {
    hide Step, Cycle, MemOut, AsyncCause, PreHalt, KillOf, KilledByEvent, EpochsOk, WbOk, TrapDrained, FetchOk, QueueOk,
         Chains.Chain, Stream, AlignDown, Plus;
    var be := w.cpu.be;
    NoStall(be, input);
    TokensMove(cfg, w.cpu, input);
    StateMoves(cfg, w.cpu, input);
    WorldMoves(cfg, w, input);
    KillsExactly(cfg, w.cpu, input);
    MemOutFields(be.mem, be.csrs, MipOf(input), be.lastTrap, be.reqSent, input.dmemResp);
  }

  lemma NoStall(be: Backend, input: Inputs)
    requires be.mem.Alive() && StaleFlag(be, input)
    ensures !MemStall(be, input) && DoubleTrap(be.mem, be.csrs, MipOf(input), be.lastTrap)
    ensures !TakeTrap(be.mem, be.csrs, MipOf(input), be.lastTrap)
    ensures TakeHalt(be.mem, be.csrs, MipOf(input), be.lastTrap)
  {
    hide TrapWanted, MtvecBase;
  }

  /** Two cycles after a stale read the observer's last commit is none that the sequential machine
      reports for its sample. */
  lemma BadCommit(cfg: Config, env: Isa.Env, w: World, input: Inputs, input': Inputs)
    requires cfg.ids.Unbounded? && Follows(cfg, env, w) && !FlagServes(w, input)
    ensures var w2 := Cycle(cfg, Cycle(cfg, w, input), input');
      && |w2.commits| == |w2.samples| > 0
      && w2.commits[|w2.samples| - 1] !=
         Isa.Report(env, Isa.Run(env, Origin(cfg), w2.samples[..|w2.samples| - 1]), w2.samples[|w2.samples| - 1])
  {
    hide Cycle, Isa.Run, Isa.Step, Isa.Report, Inv, StaleFlag, RelFlight, RelCode, RelWb, Isa.Reports;
    var a := Isa.Run(env, Origin(cfg), w.samples);
    var w1 := Cycle(cfg, w, input);
    var w2 := Cycle(cfg, w1, input');
    StaleWb(w.cpu.be, input);
    InvParts(cfg, w.cpu);
    Committed(env, a, w) by {
      RelIsWb(env, a, w);
    }
    CycleLogs(cfg, w, input);
    CycleLogs(cfg, w1, input');
    StopsInMem(cfg, w, input);
    TrapsInstead(env, a, w, input);
    RunExtends(env, Origin(cfg), w.samples, w.wbSample);
    ReportOfHalt(env, a, w.wbSample);
    assert w2.samples[..|w2.samples| - 1] == w1.samples;
    ShownTrap(w1.cpu.be);
  }

  lemma RelIsWb(env: Isa.Env, a: Isa.Arch, w: World)
    requires Rel(env, a, w)
    ensures RelWb(env, a, w)
  {}

  lemma StaleWb(be: Backend, input: Inputs)
    requires StaleFlag(be, input)
    ensures be.wb.Alive()
  {}

  lemma ShownTrap(be: Backend)
    requires !be.wb.trapPending
    ensures CommitOf(be).trap == Isa.NoTrap
  {
    hide HaltExitCode;
  }

  // ---- the converse ---------------------------------------------------------------------------------

  /** Whatever happens in a cycle, what has been committed after it is right if all was well before it. */
  lemma GoodCommit(cfg: Config, env: Isa.Env, w: World, input: Inputs)
    requires Follows(cfg, env, w)
    ensures var next := Cycle(cfg, w, input);
      next.commits == Isa.Reports(env, Origin(cfg), next.samples)
  {
    hide Cycle, Isa.Run, Isa.Step, Isa.Report, Inv, RelFlight, RelCode, RelWb, Isa.Reports;
    CycleLogs(cfg, w, input);
    if !Stopped(w.commits) {
      var a := Isa.Run(env, Origin(cfg), w.samples);
      RelIsWb(env, a, w);
      Committed(env, a, w);
      RunExtends(env, Origin(cfg), w.samples, w.wbSample);
    }
  }
}

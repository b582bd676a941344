/** One program, one run: the core takes an interrupt on an instruction whose CSR write it keeps, so the
    handler finds the CSRs of a state in which the instruction has been carried out and the pc of one in
    which it has not. */
module Imprecise {
  import opened Words
  import opened Uarch
  import opened Datapath
  import opened Core
  import opened ExecCorrect
  import opened Refine
  import opened Runs
  import opened Wrap
  import opened HardwareRuns
  import opened Timing
  import opened Scripts
  import opened Theorems
  import opened FlagTheorems
  import Traps
  import Isa

  /** `csrrwi x0, mstatus, 8` enables interrupts, `csrrwi x0, mie, 8` the software interrupt. */
  const ENABLE: Word := 0x3004_5073
  const ALLOW: Word := 0x3044_5073
  const NOP: Word := 0x13

  /** The software interrupt, in `mip` and in `mie`. */
  const MSIP: Word := 8

  function WordAt(r: Word, pc: Word): Word {
    if pc == r then ENABLE else if pc == r + 4 then ALLOW else NOP
  }

  function Program(r: Word): Isa.Env {
    Isa.Env(pc => Isa.Fetched(WordAt(r, pc), false), bus => Isa.Reply(0, false))
  }

  lemma WordsDecode()
    ensures Isa.Decode(ENABLE) == Isa.Csr(Isa.Rw, 0, 0x300, Isa.FromImm(8))
    ensures Isa.Decode(ALLOW) == Isa.Csr(Isa.Rw, 0, 0x304, Isa.FromImm(8))
    ensures Isa.Decode(NOP) == Isa.OpImm(Isa.Addi, 0, 0, 0)
  {}

  lemma AllFree(r: Word, pc: Word)
    ensures Free(DecodeAt(Program(r), pc))
  {
    hide DecodeAt, Isa.Decode;
    DecodedAt(Program(r), pc);
    WordsDecode();
  }

  // ---- what the sequential machine makes of it ---------------------------------------------------------

  function Second(r: Word): Isa.Arch { Isa.Step(Program(r), Isa.ResetArch(r), Seen(MSIP)) }

  lemma Bits()
    ensures Flag(8, 8) && !Flag(8, 0x80) && !Flag(8, 0x800) && Mip(true, false, false) == 8
  {}

  lemma Offset(r: Word)
    ensures Plus(r, 4) == r + 4
  {}

  lemma Enables(r: Word)
    ensures Does(Program(r), Isa.ResetArch(r), Plain, MSIP)
    ensures forall s: Isa.Sample :: s.mipRead == s.mipTake == MSIP ==> Isa.Step(Program(r), Isa.ResetArch(r), s) == Second(r)
    ensures Second(r).pc == r + 4 && Second(r).csrs == Isa.ResetCsrs.(mie := true) && !Second(r).lastTrap && !Second(r).halted
  {
    hide Isa.Step, Does, Isa.Decode, Plus, WriteReg;
    Offset(r);
    EnableStep(Program(r), Isa.ResetArch(r), Seen(MSIP));
    EnableDoes(Program(r), Isa.ResetArch(r));
    forall s: Isa.Sample | s.mipRead == s.mipTake == MSIP
      ensures Isa.Step(Program(r), Isa.ResetArch(r), s) == Second(r)
    {
      EnableStep(Program(r), Isa.ResetArch(r), s);
    }
  }

  lemma SecondPc(r: Word)
    ensures Second(r).pc == r + 4
  {
    hide Second, Does, Isa.Step;
    Enables(r);
  }

  lemma EnableStep(env: Isa.Env, a: Isa.Arch, s: Isa.Sample)
    requires !a.halted && env.code(a.pc) == Isa.Fetched(ENABLE, false) && a.csrs == Isa.ResetCsrs
    requires s.mipRead == s.mipTake == MSIP
    ensures Isa.Step(env, a, s) ==
            Isa.Arch(Plus(a.pc, 4), WriteReg(a.regs, 0, Isa.ReadCsr(a.csrs, MSIP, 0x300)), Isa.ResetCsrs.(mie := true),
                     a.bus, false, false)
  {
    hide Isa.Decode, WriteReg, Plus, AlignDown, Isa.CsrsAfter, Isa.PendingInterrupt, EarlyAt, Isa.ReadCsr, Isa.EarlyHalt;
    WordsDecode();
    CsrWord(env, a, 0x300);
    Effects(a);
    Interrupts();
    EarlyIs(env, a);
  }

  lemma EarlyIs(env: Isa.Env, a: Isa.Arch)
    ensures EarlyAt(env, a) == Isa.EarlyHalt(a, InstrAt(env, a.pc), env.code(a.pc).error)
  {}

  lemma EnableDoes(env: Isa.Env, a: Isa.Arch)
    requires !a.halted && env.code(a.pc) == Isa.Fetched(ENABLE, false) && a.csrs == Isa.ResetCsrs
    ensures Does(env, a, Plain, MSIP)
  {
    hide Isa.Decode, EarlyAt, Isa.CsrsAfter, Isa.PendingInterrupt;
    WordsDecode();
    CsrWord(env, a, 0x300);
    Effects(a);
    Interrupts();
  }

  /** What is common to the two words. */
  lemma CsrWord(env: Isa.Env, a: Isa.Arch, addr: bv12)
    requires env.code(a.pc).error == false && (addr == 0x300 || addr == 0x304)
    requires InstrAt(env, a.pc) == Isa.Csr(Isa.Rw, 0, addr, Isa.FromImm(8))
    ensures EarlyAt(env, a) == HaltNone && Isa.JumpTarget(a, InstrAt(env, a.pc)) == None
  {
    hide Isa.Decode, InstrAt;
  }

  lemma Effects(a: Isa.Arch)
    ensures Isa.CsrsAfter(a, Isa.Csr(Isa.Rw, 0, 0x300, Isa.FromImm(8)), MSIP) == a.csrs.(mie := true, mpie := false)
    ensures Isa.CsrsAfter(a, Isa.Csr(Isa.Rw, 0, 0x304, Isa.FromImm(8)), MSIP) ==
            a.csrs.(msie := true, mtie := false, meie := false)
  {
    hide Flag;
    Bits();
  }

  lemma Interrupts()
    ensures Isa.PendingInterrupt(Isa.ResetCsrs.(mie := true), MSIP) == None
    ensures Isa.PendingInterrupt(Isa.ResetCsrs.(mie := true, msie := true), MSIP) == Some(0x8000_0003)
  {
    hide Flag;
    Bits();
  }

  /** The second word traps, and takes effect. */
  lemma Allows(r: Word, s: Isa.Sample)
    requires s.mipRead == s.mipTake == MSIP
    ensures Does(Program(r), Second(r), Call, MSIP)
    ensures var n := Isa.Step(Program(r), Second(r), s);
      n.csrs == Isa.ResetCsrs.(mpie := true, msie := true, mepc := AlignDown(r + 4), mcause := 0x8000_0003)
  {
    hide Isa.Decode, Plus, AlignDown, Isa.Step, Does, Second;
    Enables(r);
    AllowStep(Program(r), Second(r), s);
    AllowDoes(Program(r), Second(r));
  }

  lemma AllowDoes(env: Isa.Env, a: Isa.Arch)
    requires !a.halted && env.code(a.pc) == Isa.Fetched(ALLOW, false) && a.csrs == Isa.ResetCsrs.(mie := true)
    ensures Does(env, a, Call, MSIP)
  {
    hide Isa.Decode, EarlyAt, Isa.CsrsAfter, Isa.PendingInterrupt;
    WordsDecode();
    CsrWord(env, a, 0x304);
    Effects(a);
    Interrupts();
  }

  lemma AllowStep(env: Isa.Env, a: Isa.Arch, s: Isa.Sample)
    requires !a.halted && !a.lastTrap && env.code(a.pc) == Isa.Fetched(ALLOW, false) && a.csrs == Isa.ResetCsrs.(mie := true)
    requires s.mipRead == s.mipTake == MSIP
    ensures Isa.Step(env, a, s).csrs ==
            Isa.ResetCsrs.(mpie := true, msie := true, mepc := AlignDown(a.pc), mcause := 0x8000_0003)
  {
    hide Isa.Decode, AlignDown, Isa.CsrsAfter, Isa.PendingInterrupt, EarlyAt, Isa.EarlyHalt;
    WordsDecode();
    CsrWord(env, a, 0x304);
    Effects(a);
    Interrupts();
    EarlyIs(env, a);
  }

  const Ops: seq<Op> := [Plain, Call]

  function States(r: Word): seq<Isa.Arch> { [Isa.ResetArch(r), Second(r)] }

  lemma Scripted(cfg: Config)
    ensures Script(cfg, Program(cfg.resetPc), MSIP, States(cfg.resetPc), Ops)
  {
    hide Isa.Step, Does, Free, DecodeAt, WordAt, Second;
    var r := cfg.resetPc;
    Enables(r);
    Allows(r, Seen(MSIP));
    forall pc
      ensures Free(DecodeAt(Program(r), pc))
    {
      AllFree(r, pc);
    }
  }

  // ---- cycle by cycle ------------------------------------------------------------------------------------

  function Timeline(k: nat): (View, nat) {
    var phase := if k % 3 == 0 then Ask else if k % 3 == 1 then Wait else Held;
    if k < 3 then (View(false, false, false, false, phase, 0, 0), 0)
    else if k == 3 then (View(false, false, false, false, phase, 0, 1), 0)
    else if k == 4 then (View(false, false, true, false, phase, 0, 0), 0)
    else if k == 5 then (View(false, true, false, false, phase, 0, 0), 0)
    else if k == 6 then (View(true, false, false, false, phase, 0, 1), 0)
    else if k == 7 then (View(false, false, true, false, phase, 0, 0), 1)
    else (View(false, true, false, false, phase, 0, 0), 1)
  }

  lemma TimelineMoves(k: nat)
    requires k < 8
    ensures var (v, n) := Timeline(k);
      && InScript(Ops, v, n) && !TrapsNow(Ops, v, n) && v.stale + v.current <= 1
      && Next(Ops, v, n, false) == Timeline(k + 1)
  {}

  /** The inputs of the first `n` cycles: the software interrupt is pending throughout. */
  function Fed(cfg: Config, n: nat): (inputs: seq<Inputs>)
    ensures |inputs| == n
  {
    Feed(cfg, Program(cfg.resetPc), {}, true, n)
  }

  lemma {:induction false} OnTimeline(cfg: Config, k: nat)
    requires cfg.Valid() && cfg.ids.Unbounded? && cfg.queueDepth >= 2 && k <= 8
    ensures On(cfg, Program(cfg.resetPc), MSIP, States(cfg.resetPc), Watch(cfg, Fed(cfg, k)), Timeline(k).0, Timeline(k).1)
  {
    hide Cycle, On, Script, Timeline, Next, TrapsNow, Start, InScript, Feed, Second, Prodded;
    if k == 0 {
      OnStart(cfg);
    } else {
      OnTimeline(cfg, k - 1);
      FeedPrefix(cfg, Program(cfg.resetPc), {}, true, k);
      Scripted(cfg);
      TimelineMoves(k - 1);
      Bits();
      var (v, n) := Timeline(k - 1);
      OnNext(cfg, Program(cfg.resetPc), MSIP, States(cfg.resetPc), Ops, Watch(cfg, Fed(cfg, k - 1)), v, n, false, true);
    }
  }

  lemma OnStart(cfg: Config)
    requires cfg.Valid() && cfg.ids.Unbounded? && cfg.queueDepth >= 2
    ensures On(cfg, Program(cfg.resetPc), MSIP, States(cfg.resetPc), Watch(cfg, []), Timeline(0).0, 0)
    ensures Fed(cfg, 0) == [] && Timeline(0).1 == 0
  {
    hide Isa.Step, WordAt;
    FollowsStart(cfg, Program(cfg.resetPc));
  }

  /** In front of cycle 7 the second word is in EXE. */
  lemma InExe(cfg: Config)
    requires cfg.Valid() && cfg.ids.Unbounded? && cfg.queueDepth >= 2
    ensures var be := Watch(cfg, Fed(cfg, 7)).cpu.be;
      be.exe.valid && !be.mem.Alive() && !be.wb.Alive() && AbsCsrs(be.csrs) == Isa.ResetCsrs.(mie := true)
  {
    hide Watch, Cycle, Script, Start, Feed, Second, Prodded, Follows, Stopped, Isa.Step, Isa.Run, AbsCsrs, Fetches, Rel, RelMem,
         RelBus, RelExe, RelFetch, Does;
    var r, w, v := cfg.resetPc, Watch(cfg, Fed(cfg, 7)), Timeline(7).0;
    Scripted(cfg);
    OnTimeline(cfg, 7);
    StillOn(cfg, Program(r), MSIP, States(r), Ops, w, v, 1);
    Enables(r);
  }

  lemma LeavesMem(cfg: Config)
    requires cfg.Valid() && cfg.ids.Unbounded? && cfg.queueDepth >= 2
    ensures var w, env := Watch(cfg, Fed(cfg, 9)), Program(cfg.resetPc);
      && Follows(cfg, env, w) && !Stopped(w.commits) && |w.samples| == 1 && Isa.Run(env, Origin(cfg), w.samples) == Second(cfg.resetPc)
      && w.wbSample.mipRead == w.wbSample.mipTake == MSIP
      && w.cpu.be.wb.Alive() && w.cpu.be.wb.trapPending && !w.cpu.be.wb.halt
  {
    hide Watch, Cycle, On, Script, Start, Feed, Second, Prodded, Follows, Stopped, Isa.Step, Isa.Run, Honest;
    var env, r, v := Program(cfg.resetPc), cfg.resetPc, Timeline(8).0;
    var w := Watch(cfg, Fed(cfg, 8));
    Scripted(cfg);
    OnTimeline(cfg, 8);
    FeedPrefix(cfg, env, {}, true, 9);
    var input := Prodded(env, w.cpu, false, true);
    ProddedHonest(env, w, false, true);
    Interrupted(env, w.cpu);
    TrapArrives(cfg, env, MSIP, States(r), Ops, w, v, 1, input) by {
      Enables(r);
    }
    CycleAfter(cfg, Fed(cfg, 9));
  }

  /** In front of cycle 9 it is in WB, and its trap commits. */
  lemma InWb(cfg: Config)
    requires cfg.Valid() && cfg.ids.Unbounded? && cfg.queueDepth >= 2
    ensures var w := Watch(cfg, Fed(cfg, 9));
      var be := w.cpu.be;
      && |w.commits| == 1 && be.wb.Alive() && be.wb.trapPending && !be.wb.halt && be.wb.ir.pc == cfg.resetPc + 4
      && AbsCsrs(be.csrs) ==
         Isa.ResetCsrs.(mpie := true, msie := true, mepc := AlignDown(cfg.resetPc + 4), mcause := 0x8000_0003)
  {
    hide Watch, Cycle, Feed, Fed, Second, Follows, Stopped, Isa.Step, Isa.Run, AbsCsrs, AlignDown, Does, Program;
    LeavesMem(cfg);
    TrapCsrs(cfg, Watch(cfg, Fed(cfg, 9)));
  }

  lemma TrapCsrs(cfg: Config, w: World)
    requires Follows(cfg, Program(cfg.resetPc), w) && !Stopped(w.commits)
    requires Isa.Run(Program(cfg.resetPc), Origin(cfg), w.samples) == Second(cfg.resetPc)
    requires w.wbSample.mipRead == w.wbSample.mipTake == MSIP
    requires w.cpu.be.wb.Alive() && w.cpu.be.wb.trapPending && !w.cpu.be.wb.halt
    ensures |w.commits| == |w.samples| && w.cpu.be.wb.ir.pc == cfg.resetPc + 4
    ensures AbsCsrs(w.cpu.be.csrs) ==
            Isa.ResetCsrs.(mpie := true, msie := true, mepc := AlignDown(cfg.resetPc + 4), mcause := 0x8000_0003)
  {
    hide Second, Follows, Stopped, Isa.Step, Isa.Run, AbsCsrs, AlignDown, Does, Program, Origin;
    var env, r := Program(cfg.resetPc), cfg.resetPc;
    Traps.TrapInWb(cfg, env, w);
    SecondPc(r);
    Allows(r, w.wbSample);
    FollowsCommits(cfg, env, w);
  }

  lemma Interrupted(env: Isa.Env, s: Cpu)
    ensures MipOf(Prodded(env, s, false, true)) == MSIP
  {
    Bits();
  }

  lemma FollowsCommits(cfg: Config, env: Isa.Env, w: World)
    requires Follows(cfg, env, w)
    ensures |w.commits| == |w.samples|
  {}

  lemma CycleAfter(cfg: Config, inputs: seq<Inputs>)
    requires inputs != []
    ensures Watch(cfg, inputs) == Cycle(cfg, Watch(cfg, inputs[..|inputs| - 1]), inputs[|inputs| - 1])
  {}

  /** From reset the hardware executes `csrrwi mstatus` and `csrrwi mie` with the software interrupt
      pending. In front of cycle 7 the second instruction is in EXE and mie is clear. In front of cycle 9
      its trap commits, with its own pc saved as the place to return to, and mie is set. */
  lemma ImpreciseTrap(cfg: Config)
    requires cfg.Valid() && cfg.ids.Wrapped? && cfg.queueDepth >= 2
    ensures exists inputs: seq<Inputs>, trace: seq<World> ::
      && IsRun(cfg, inputs, trace) && |inputs| == 9 && HonestAlong(Program(cfg.resetPc), inputs, trace)
      && var before, w := AbsCsrs(trace[7].cpu.be.csrs), trace[9];
         var be, after := w.cpu.be, AbsCsrs(w.cpu.be.csrs);
         && trace[7].cpu.be.exe.valid && !before.msie
         && |w.commits| == 1 && be.wb.Alive() && be.wb.trapPending && !be.wb.halt && be.wb.ir.pc == cfg.resetPc + 4
         && after.mepc == AlignDown(cfg.resetPc + 4) && after.mcause == 0x8000_0003 && after.msie
  {
    hide Watch, Cycle, Start, Honest, HonestRun, NarrowFrontend, NarrowRows, NarrowToken, AbsCsrs, Feed, AlignDown, Prodded, Follows;
    var ideal, env := Ideal(cfg), Program(cfg.resetPc);
    var inputs := Fed(ideal, 9);
    var trace := Trace(cfg, inputs);
    TraceIsRun(cfg, inputs);
    FeedIsHonest(ideal, env, {}, true, 9);
    assert inputs[..9] == inputs;
    HonestHardware(cfg, env, inputs, 9);
    FeedPrefix(ideal, env, {}, true, 9);
    FeedPrefix(ideal, env, {}, true, 8);
    assert inputs[..7] == inputs[..8][..7];
    InExe(ideal);
    InWb(ideal);
    OnHardware(cfg, inputs[..7]);
    OnHardware(cfg, inputs);
  }

  lemma OnHardware(cfg: Config, inputs: seq<Inputs>)
    requires cfg.Valid() && cfg.ids.Wrapped?
    ensures var w, ideal := Watch(cfg, inputs), Watch(Ideal(cfg), inputs);
      && w.commits == ideal.commits && w.cpu.be.csrs == ideal.cpu.be.csrs && w.cpu.be.exe.valid == ideal.cpu.be.exe.valid
      && w.cpu.be.wb.ir == ideal.cpu.be.wb.ir && w.cpu.be.wb.Alive() == ideal.cpu.be.wb.Alive()
      && w.cpu.be.wb.trapPending == ideal.cpu.be.wb.trapPending && w.cpu.be.wb.halt == ideal.cpu.be.wb.halt
  {
    hide Watch, Cycle, NarrowFrontend, NarrowRows;
    assert Hardware(cfg) == cfg;
    HardwareRuns.HardwareIsIdeal(cfg, inputs);
    TokenFieldsNarrow(Watch(Ideal(cfg), inputs).cpu.be.wb);
  }
}

/** One program, one run: with a queue of six or more entries the core reads a double-trap flag that
    is out of date, and stops where the sequential machine goes on. */
module Depth {
  import opened Words
  import opened Uarch
  import opened Core
  import opened Datapath
  import opened ExecCorrect
  import opened Refine
  import opened Runs
  import opened Timing
  import opened Scripts
  import opened QuietRuns
  import CoreInv
  import Isa

  // ---- the program ----------------------------------------------------------------------------

  const LW: Word := 0x2083
  const ECALL: Word := 0x73
  const NOP: Word := 0x13

  /** `csrrwi x0, mtvec, uimm` */
  function MoveWord(uimm: bv5): Word { 0x3050_5073 | ((uimm as Word) << 15) }

  /** The handler lies clear of the four words from `r` on. */
  function Handler(r: Word): bv5 { if r == 12 || r == 16 || r == 20 || r == 24 || r == 28 then 0 else 24 }

  /** From the reset pc `r`: set the vector, load twice, ECALL. The handler moves the vector to its
      second word, which is an ECALL too. */
  function WordAt(r: Word, pc: Word): Word {
    var h := Handler(r);
    if pc == h as Word then MoveWord(h + 4)
    else if pc == (h + 4) as Word then ECALL
    else if pc == r then MoveWord(h)
    else if pc == r + 4 || pc == r + 8 then LW
    else if pc == r + 12 then ECALL
    else NOP
  }

  function Program(r: Word): Isa.Env {
    Isa.Env(pc => Isa.Fetched(WordAt(r, pc), false), bus => Isa.Reply(0, false))
  }

  lemma WordsOf(r: Word)
    ensures var h := Handler(r);
      && WordAt(r, r) == MoveWord(h) && WordAt(r, r + 4) == LW && WordAt(r, r + 8) == LW && WordAt(r, r + 12) == ECALL
      && WordAt(r, h as Word) == MoveWord(h + 4) && WordAt(r, (h as Word) + 4) == ECALL
      && (h + 4) as Word == h as Word + 4
  {}

  lemma MoveDecodes(uimm: bv5)
    requires uimm == 0 || uimm == 4 || uimm == 24 || uimm == 28
    ensures Isa.Decode(MoveWord(uimm)) == Isa.Csr(Isa.Rw, 0, 0x305, Isa.FromImm(uimm))
  {
    assert Isa.Decode(0x3050_5073) == Isa.Csr(Isa.Rw, 0, 0x305, Isa.FromImm(0));
    assert Isa.Decode(0x3052_5073) == Isa.Csr(Isa.Rw, 0, 0x305, Isa.FromImm(4));
    assert Isa.Decode(0x305c_5073) == Isa.Csr(Isa.Rw, 0, 0x305, Isa.FromImm(24));
    assert Isa.Decode(0x305e_5073) == Isa.Csr(Isa.Rw, 0, 0x305, Isa.FromImm(28));
  }

  lemma OthersDecode()
    ensures Isa.Decode(LW) == Isa.Load(Isa.Lw, 1, 0, 0)
    ensures Isa.Decode(ECALL) == Isa.Ecall
    ensures Isa.Decode(NOP) == Isa.OpImm(Isa.Addi, 0, 0, 0)
  {}

  /** No word of the program reads a register other than x0. */
  lemma AllFree(r: Word, pc: Word)
    ensures Free(DecodeAt(Program(r), pc))
  {
    hide DecodeAt, MoveWord, Isa.Decode;
    DecodedAt(Program(r), pc);
    MoveDecodes(Handler(r));
    MoveDecodes(Handler(r) + 4);
    OthersDecode();
  }

  // ---- what the sequential machine makes of it --------------------------------------------------------

  ghost predicate At(a: Isa.Arch, pc: Word, vector: Word, lastTrap: bool) {
    a.pc == pc && a.csrs.mtvec == vector && a.lastTrap == lastTrap && !a.halted
  }

  lemma AlignedVectors()
    ensures AlignDown(0) == 0 && AlignDown(4) == 4 && AlignDown(24) == 24 && AlignDown(28) == 28
  {}

  lemma MoveStep(env: Isa.Env, a: Isa.Arch, uimm: bv5)
    requires env.code(a.pc) == Isa.Fetched(MoveWord(uimm), false) && !a.halted
    requires uimm == 0 || uimm == 4 || uimm == 24 || uimm == 28
    ensures Does(env, a, Plain, 0)
    ensures At(Isa.Step(env, a, Isa.Quiet), Plus(a.pc, 4), uimm as Word, false)
  {
    hide MoveWord, Isa.Decode, AlignDown, Flag, Isa.PendingInterrupt, WriteReg;
    MoveDecodes(uimm);
    AlignedVectors();
    var i := Isa.Csr(Isa.Rw, 0, 0x305, Isa.FromImm(uimm));
    QuietWires(Isa.CsrsAfter(a, i, 0));
  }

  lemma ZeroAddress()
    ensures SignExtend12(0) == 0 && Plus(0, 0) == 0 && !Flag(0, 3)
  {}

  lemma LoadStep(env: Isa.Env, a: Isa.Arch, reply: Isa.Reply)
    requires env.code(a.pc) == Isa.Fetched(LW, false) && !a.halted && !reply.error
    requires forall bus :: env.reply(bus) == reply
    ensures Does(env, a, Load, 0)
    ensures At(Isa.Step(env, a, Isa.Quiet), Plus(a.pc, 4), a.csrs.mtvec, false)
  {
    hide Isa.Decode, AlignDown, Flag, Isa.PendingInterrupt, WriteReg, SignExtend12, Plus, Isa.Lanes, Isa.LoadResult;
    OthersDecode();
    ZeroAddress();
    QuietWires(a.csrs);
  }

  lemma CallStep(env: Isa.Env, a: Isa.Arch)
    requires env.code(a.pc) == Isa.Fetched(ECALL, false) && !a.halted
    ensures Does(env, a, Call, 0)
    ensures !(a.lastTrap && a.pc == a.csrs.mtvec) ==> At(Isa.Step(env, a, Isa.Quiet), a.csrs.mtvec, a.csrs.mtvec, true)
  {
    hide Isa.Decode, AlignDown, Flag, Isa.PendingInterrupt;
    OthersDecode();
    QuietWires(a.csrs);
  }

  /** The states of the sequential machine. */
  function Arch(r: Word, k: nat): Isa.Arch {
    if k == 0 then Isa.ResetArch(r) else Isa.Step(Program(r), Arch(r, k - 1), Isa.Quiet)
  }

  lemma Offsets(r: Word)
    ensures Plus(r, 4) == r + 4 && Plus(r + 4, 4) == r + 8 && Plus(r + 8, 4) == r + 12
    ensures Plus(Handler(r) as Word, 4) == Handler(r) as Word + 4
  {}

  lemma Vectors(r: Word)
    ensures var h := Handler(r); (h == 0 || h == 24) && (h + 4 == 4 || h + 4 == 28)
  {}

  /** Four words, the trap, and the handler's first word, which leaves the vector at the second. */
  lemma Goes(r: Word)
    ensures var h := Handler(r) as Word;
      && At(Arch(r, 0), r, 0, false) && At(Arch(r, 1), r + 4, h, false) && At(Arch(r, 2), r + 8, h, false)
      && At(Arch(r, 3), r + 12, h, false) && At(Arch(r, 4), h, h, true) && At(Arch(r, 5), h + 4, h + 4, false)
    ensures Does(Program(r), Arch(r, 0), Plain, 0) && Does(Program(r), Arch(r, 1), Load, 0)
    ensures Does(Program(r), Arch(r, 2), Load, 0) && Does(Program(r), Arch(r, 3), Call, 0)
    ensures Does(Program(r), Arch(r, 4), Plain, 0) && Does(Program(r), Arch(r, 5), Call, 0)
  {
    hide MoveWord, Isa.Step, Does, Handler, WordAt, Plus;
    var env, h := Program(r), Handler(r);
    WordsOf(r);
    Offsets(r);
    Vectors(r);
    MoveStep(env, Arch(r, 0), h);
    LoadStep(env, Arch(r, 1), Isa.Reply(0, false));
    LoadStep(env, Arch(r, 2), Isa.Reply(0, false));
    CallStep(env, Arch(r, 3));
    MoveStep(env, Arch(r, 4), h + 4);
    CallStep(env, Arch(r, 5));
  }

  const Ops: seq<Op> := [Plain, Load, Load, Call, Plain, Call]

  function States(r: Word): (arch: seq<Isa.Arch>)
    ensures |arch| == 6 && forall k :: 0 <= k < 6 ==> arch[k] == Arch(r, k)
  {
    seq(6, k requires 0 <= k => Arch(r, k))
  }

  lemma Scripted(cfg: Config)
    ensures Script(cfg, Program(cfg.resetPc), 0, States(cfg.resetPc), Ops)
  {
    hide Isa.Step, Does, Free, DecodeAt, WordAt, Handler;
    var r := cfg.resetPc;
    var env, arch := Program(r), States(r);
    Goes(r);
    forall k, s: Isa.Sample | 0 <= k < |Ops| - 1 && s.mipRead == s.mipTake == 0
      ensures Isa.Step(env, arch[k], s) == arch[k + 1]
    {
      QuietStep(env, arch[k], s);
    }
    forall pc
      ensures Free(DecodeAt(env, pc))
    {
      AllFree(r, pc);
    }
  }

  // ---- cycle by cycle ------------------------------------------------------------------------------------

  /** The loads are answered in cycles 11 and 29. */
  const Answers: set<nat> := {11, 29}

  /** How many instructions have committed, and what the core looks like, in front of cycle `k`. The
      second load waits until the queue holds five entries; behind it comes the ECALL. */
  function Timeline(k: nat): (View, nat) {
    var phase := if (if k <= 30 then k else k + 2) % 3 == 0 then Ask else if (if k <= 30 then k else k + 2) % 3 == 1 then Wait else Held;
    if k < 3 then (View(false, false, false, false, phase, 0, 0), 0)
    else if k == 3 then (View(false, false, false, false, phase, 0, 1), 0)
    else if k == 4 then (View(false, false, true, false, phase, 0, 0), 0)
    else if k == 5 then (View(false, true, false, false, phase, 0, 0), 0)
    else if k == 6 then (View(true, false, false, false, phase, 0, 1), 0)
    else if k == 7 then (View(false, false, true, false, phase, 0, 0), 1)
    else if k == 8 then (View(false, true, false, false, phase, 0, 0), 1)
    else if k < 12 then (View(false, true, false, true, phase, 0, 1), 1)
    else if k == 12 then (View(true, false, true, false, phase, 0, 1), 1)
    else if k < 30 then (View(false, true, true, k > 13, phase, 0, (k - 12) / 3), 2)
    else if k == 30 then (View(true, true, true, false, phase, 0, 5), 2)
    else if k == 31 then (View(true, false, false, false, phase, 5, 0), 3)
    else if k < 34 then (View(false, false, false, false, phase, 36 - k, 0), 4)
    else if k < 37 then (View(false, false, false, false, phase, 36 - k, 1), 4)
    else if k == 37 then (View(false, false, true, false, phase, 0, 1), 4)
    else if k == 38 then (View(false, true, true, false, phase, 0, 0), 4)
    else (View(true, true, false, false, phase, 0, 0), 4)
  }

  lemma TimelineMoves(k: nat)
    requires k < 39
    ensures var (v, n) := Timeline(k);
      InScript(Ops, v, n) && v.stale + v.current <= 5 && Next(Ops, v, n, k in Answers) == Timeline(k + 1)
  {}

  lemma TimelineTraps(k: nat)
    requires k < 39
    ensures var (v, n) := Timeline(k); TrapsWell(Ops, v, n) && (TrapsNow(Ops, v, n) ==> n < 4)
  {}

  /** The inputs of the first `n` cycles. */
  function Fed(cfg: Config, n: nat): (inputs: seq<Inputs>)
    ensures |inputs| == n
  {
    Feed(cfg, Program(cfg.resetPc), Answers, false, n)
  }

  lemma FedPrefix(cfg: Config, n: nat)
    requires n > 0
    ensures Fed(cfg, n)[..n - 1] == Fed(cfg, n - 1)
    ensures Fed(cfg, n)[n - 1] == Prodded(Program(cfg.resetPc), Watch(cfg, Fed(cfg, n - 1)).cpu, n - 1 in Answers, false)
  {
    FeedPrefix(cfg, Program(cfg.resetPc), Answers, false, n);
  }

  lemma FedIsHonest(cfg: Config, n: nat)
    ensures HonestRun(cfg, Program(cfg.resetPc), Fed(cfg, n))
  {
    FeedIsHonest(cfg, Program(cfg.resetPc), Answers, false, n);
  }

  lemma {:induction false} FedIsLow(cfg: Config, n: nat)
    ensures forall k :: 0 <= k < n ==> QuietInput(Fed(cfg, n)[k])
  {
    hide Watch;
    if n > 0 {
      FedIsLow(cfg, n - 1);
      FedPrefix(cfg, n);
    }
  }

  lemma {:induction false} OnTimeline(cfg: Config, k: nat)
    requires cfg.Valid() && cfg.ids.Unbounded? && cfg.queueDepth >= 6 && k <= 39
    ensures On(cfg, Program(cfg.resetPc), 0, States(cfg.resetPc), Watch(cfg, Fed(cfg, k)), Timeline(k).0, Timeline(k).1)
  {
    hide Cycle, On, Script, Timeline, Next, TrapsNow, TrapsWell, Start, InScript, Feed, Fed, Arch, Prodded;
    if k == 0 {
      OnStart(cfg);
    } else {
      OnTimeline(cfg, k - 1);
      FedPrefix(cfg, k);
      Scripted(cfg);
      TimelineMoves(k - 1);
      TimelineTraps(k - 1);
      LastTraps(cfg.resetPc);
      QuietMip();
      var (v, n) := Timeline(k - 1);
      OnNext(cfg, Program(cfg.resetPc), 0, States(cfg.resetPc), Ops, Watch(cfg, Fed(cfg, k - 1)), v, n, k - 1 in Answers, false);
    }
  }

  lemma QuietMip()
    ensures Mip(false, false, false) == 0
  {}

  lemma LastTraps(r: Word)
    ensures forall n :: 0 <= n < 4 ==> !States(r)[n].lastTrap
    ensures forall n :: 0 <= n < 6 ==> !States(r)[n].halted
  {
    hide Isa.Step, Does, Handler, WordAt;
    Goes(r);
  }

  lemma OnStart(cfg: Config)
    requires cfg.Valid() && cfg.ids.Unbounded?
    ensures On(cfg, Program(cfg.resetPc), 0, States(cfg.resetPc), Watch(cfg, []), Timeline(0).0, 0)
    ensures Fed(cfg, 0) == [] && Timeline(0).1 == 0
  {
    hide Isa.Step, WordAt, Handler;
    FollowsStart(cfg, Program(cfg.resetPc));
  }

  lemma EcallAtVector(r: Word)
    ensures var h := Handler(r) as Word; InstrAt(Program(r), h + 4) == Isa.Ecall
  {
    hide Isa.Decode, Handler, WordAt;
    WordsOf(r);
    OthersDecode();
  }

  /** In cycle 39 the handler's first word is in WB and its second, an ECALL at the vector, in MEM,
      while the flag still tells of the trap before. */
  lemma StaleInTheEnd(cfg: Config, input: Inputs)
    requires cfg.Valid() && cfg.ids.Unbounded? && cfg.queueDepth >= 6 && MipOf(input) == 0
    ensures var w := Watch(cfg, Fed(cfg, 39));
      && Follows(cfg, Program(cfg.resetPc), w) && !Stopped(w.commits) && !Halting(w.cpu.be)
      && w.cpu.be.mem.Alive() && StaleFlag(w.cpu.be, input)
  {
    hide Watch, Feed, Fed, Isa.Step, Isa.Run, Does, States, Arch, WordAt, Handler, Rel, Isa.Reports, CoreInv.Inv, StaleFlag, Plus,
         Script, ArchMem, Stopped, InstrAt, Follows;
    var r := cfg.resetPc;
    var env, w, arch := Program(r), Watch(cfg, Fed(cfg, 39)), States(r);
    OnTimeline(cfg, 39);
    Scripted(cfg);
    Goes(r);
    EcallAtVector(r);
    BehindWb(cfg, env, 0, arch, Ops, w, Timeline(39).0, 4);
    Stale(env, arch[4], arch[5], w, input);
  }

  lemma Stale(env: Isa.Env, a: Isa.Arch, b: Isa.Arch, w: World, input: Inputs)
    requires Rel(env, a, w) && !Halting(w.cpu.be) && w.cpu.be.wb.Alive() && w.cpu.be.mem.Alive()
    requires ArchMem(env, a, w) == b && a.lastTrap && Does(env, b, Call, 0) && b.pc == b.csrs.mtvec
    requires InstrAt(env, b.pc).Ecall? && w.memMip == 0 == MipOf(input)
    ensures StaleFlag(w.cpu.be, input)
  {
    hide Isa.Step, Does, ArchMem, RelBus, RelFetch, RelExe, RelCode, Executed, TrapWanted, MemStall, InstrAt, AlignDown,
         Finished;
    MemDoes(env, b, w, input, Call);
    NotHalted(env, b, Call, 0);
    DoesEarly(env, b, Call, 0);
  }

  lemma DoesEarly(env: Isa.Env, a: Isa.Arch, op: Op, mip: Word)
    requires Does(env, a, op, mip)
    ensures EarlyAt(env, a) == HaltNone
  {}
}

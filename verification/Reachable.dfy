/** What holds in every reachable state of the hardware, whatever its inputs. Identities that the
    hardware keeps modulo 4 and 256 are compared with those of the idealised core on the same run. */
module Reachable {
  import opened Words
  import opened Uarch
  import opened Datapath
  import opened Core
  import opened CoreInv
  import opened FrontendInv
  import opened Chains
  import opened ExecCorrect
  import opened Refine
  import opened Runs
  import opened HardwareRuns
  import opened Wrap
  import DecodeCorrect
  import Isa

  /** The state of the idealised core after the same cycles. */
  function Shadow(cfg: Config, inputs: seq<Inputs>): Cpu { Watch(Ideal(cfg), inputs).cpu }

  function State(cfg: Config, inputs: seq<Inputs>): Cpu { Watch(Hardware(cfg), inputs).cpu }

  lemma StateIsNarrow(cfg: Config, inputs: seq<Inputs>)
    requires cfg.Valid()
    ensures State(cfg, inputs) == Narrow(Shadow(cfg, inputs))
    ensures Inv(Ideal(cfg), Shadow(cfg, inputs))
  {
    hide Watch, Inv, Narrow;
    HardwareIsIdeal(cfg, inputs);
    InvRun(Ideal(cfg), inputs);
  }

  /** Two-bit epochs never alias: a queue entry, an outstanding request or a live token lags the
      present epoch by at most two, so equal bits mean equal epochs. */
  lemma EpochsNeverAlias(cfg: Config, inputs: seq<Inputs>, k: nat)
    requires cfg.Valid()
    ensures var hw, s := State(cfg, inputs), Shadow(cfg, inputs);
      && (k < |s.fe.queue| ==>
            && k < |hw.fe.queue| && s.fe.queue[k].epoch <= s.fe.epoch <= s.fe.queue[k].epoch + 2
            && (hw.fe.queue[k].epoch == hw.fe.epoch <==> s.fe.queue[k].epoch == s.fe.epoch))
      && (s.fe.fetch.outstanding ==>
            && s.fe.fetch.reqEpoch <= s.fe.epoch <= s.fe.fetch.reqEpoch + 2
            && (hw.fe.fetch.reqEpoch == hw.fe.epoch <==> s.fe.fetch.reqEpoch == s.fe.epoch))
  {
    hide Watch, Plus, NarrowToken, NarrowRows, NarrowEpoch, Mirrored, TokensOk, WbOk, TrapDrained;
    StateIsNarrow(cfg, inputs);
    var s := Shadow(cfg, inputs);
    StreamEpochs(s);
    RequestLag(Ideal(cfg), s);
    if k < |s.fe.queue| {
      assert Stream(s)[|BackLinks(s.be)| + k] == LinkOf(s.fe.queue[k]);
      EpochsDoNotAlias(s.fe.queue[k].epoch, s.fe.epoch);
    }
    if s.fe.fetch.outstanding {
      EpochsDoNotAlias(s.fe.fetch.reqEpoch, s.fe.epoch);
    }
  }

  /** The fetch filters agree on every response: the drop mark and the epoch comparison reject the
      same requests, and a request never competes with a held packet for the output register. */
  lemma FetchFiltersAgree(cfg: Config, inputs: seq<Inputs>)
    requires cfg.Valid()
    ensures var fe := State(cfg, inputs).fe;
      && (fe.fetch.drop ==> fe.fetch.outstanding)
      && (fe.fetch.outstanding ==> !fe.fetch.out.valid && (fe.fetch.drop <==> fe.fetch.reqEpoch != fe.epoch))
      && (fe.fetch.out.valid ==> fe.fetch.out.epoch == fe.epoch)
      && |fe.queue| <= cfg.queueDepth
  {
    hide Watch, Plus, NarrowToken, NarrowRows, NarrowEpoch, Mirrored, TokensOk, WbOk, TrapDrained, Stream, EpochsOk;
    StateIsNarrow(cfg, inputs);
    EpochsNeverAlias(cfg, inputs, 0);
  }

  /** Each row of the scoreboard agrees with the token register of its stage. */
  lemma ScoreboardMirrors(cfg: Config, inputs: seq<Inputs>)
    requires cfg.Valid()
    ensures Mirrored(State(cfg, inputs).be)
  {
    hide Watch, Plus, NarrowEpoch, NarrowSeq, TokensOk, WbOk, TrapDrained, Stream, EpochsOk, FetchOk, QueueOk, Chain;
    StateIsNarrow(cfg, inputs);
    NewRowNarrow(QueueEntry(0, 0, NoIr));
  }

  /** The comparisons that a kill event makes on wrapped identifiers, when the idealised state is `s`. */
  lemma KillsIn(cfg: Config, s: Cpu, input: Inputs)
    requires Inv(Ideal(cfg), s)
    ensures var be := Narrow(s).be;
      var kill := KillOf(be, input);
      && (be.mem.Alive() ==> !KilledByEvent(Wrapped, true, be.mem.epoch, be.mem.seqId, kill))
      && (be.exe.valid ==>
            (KilledByEvent(Wrapped, true, be.exe.epoch, be.exe.seqId, kill) <==> TrapFlush(be, input)))
      && (Issues(Hardware(cfg), Narrow(s), input) ==> kill == NoKill)
  {
    hide Plus, NarrowToken, NarrowRows, Inv, KilledByEvent, MemStall, TakeTrap, KillOf, Issues, Comparable, TrapFlush,
         NarrowEpoch, NarrowSeq, NarrowKill;
    SignalsNarrow(s.be, input);
    IssueNarrow(cfg, s, input);
    KillsExactly(Ideal(cfg), s, input);
    KillsComparable(cfg, s, input);
    TokenFieldsNarrow(s.be.mem);
    TokenFieldsNarrow(s.be.exe);
    if s.be.mem.Alive() {
      KilledNarrow(true, s.be.mem.epoch, s.be.mem.seqId, KillOf(s.be, input));
    }
    if s.be.exe.valid {
      KilledNarrow(true, s.be.exe.epoch, s.be.exe.seqId, KillOf(s.be, input));
    }
    NoKillStays();
  }

  // ---- what the relation says in one state --------------------------------------------------------------

  /** The samples of WB's and MEM's instructions, both of which are older than EXE's. */
  function Older(w: World): seq<Isa.Sample> {
    (if w.cpu.be.wb.Alive() then [w.wbSample] else []) + (if w.cpu.be.mem.Alive() then [Undisturbed(w.memMip)] else [])
  }

  /** The samples of the instructions in WB and, if its request is out, in MEM. */
  function InFlight(w: World): seq<Isa.Sample> {
    (if w.cpu.be.wb.Alive() then [w.wbSample] else []) + (if w.cpu.be.reqSent then [Undisturbed(w.memMip)] else [])
  }

  lemma UndisturbedAccess(env: Isa.Env, a: Isa.Arch, mip: Word)
    requires !a.halted && EarlyAt(env, a) == HaltNone && Isa.IsMemory(InstrAt(env, a.pc))
    ensures Isa.Step(env, a, Undisturbed(mip)).bus == a.bus + [Isa.Transaction(a, InstrAt(env, a.pc))]
  {
    hide Isa.Decode, Isa.EarlyHalt, Isa.CsrsAfter, Isa.Result, Isa.DataAddress, Isa.Lanes, Isa.Width,
         Isa.PendingInterrupt, Isa.Transaction;
    QuietWires(Isa.CsrsAfter(a, InstrAt(env, a.pc), mip));
  }

  /** The samples up to WB's instruction. */
  function Done(w: World): seq<Isa.Sample> {
    if w.cpu.be.wb.Alive() then w.samples + [w.wbSample] else w.samples
  }

  lemma DoneRun(cfg: Config, env: Isa.Env, w: World)
    ensures Isa.Run(env, Origin(cfg), Done(w)) == ArchMem(env, Isa.Run(env, Origin(cfg), w.samples), w)
  {
    hide Isa.Run, Isa.Step;
    RunExtends(env, Origin(cfg), w.samples, w.wbSample);
  }

  lemma DoneParts(w: World)
    ensures w.samples + Older(w) == Done(w) + (if w.cpu.be.mem.Alive() then [Undisturbed(w.memMip)] else [])
    ensures w.samples + InFlight(w) == Done(w) + (if w.cpu.be.reqSent then [Undisturbed(w.memMip)] else [])
  {}

  lemma BusIn(cfg: Config, env: Isa.Env, w: World)
    requires Follows(cfg, env, w) && !Stopped(w.commits) && !Halting(w.cpu.be)
    ensures w.bus == Isa.Run(env, Origin(cfg), w.samples + InFlight(w)).bus
  {
    hide Isa.Run, Isa.Step, RelWb, RelCode, RelCsrs, RelMem, RelExe, RelFetch, Inv, Isa.Reports, EarlyAt, InstrAt,
         Isa.Transaction, ArchMem, ArchExe, Done, InFlight;
    var m := ArchMem(env, Isa.Run(env, Origin(cfg), w.samples), w);
    Committed(env, Isa.Run(env, Origin(cfg), w.samples), w);
    DoneRun(cfg, env, w);
    DoneParts(w);
    if w.cpu.be.reqSent {
      RunExtends(env, Origin(cfg), Done(w), Undisturbed(w.memMip));
      UndisturbedAccess(env, m, w.memMip);
    } else {
      assert Done(w) + [] == Done(w);
    }
  }

  lemma OlderRun(cfg: Config, env: Isa.Env, w: World)
    ensures var m := ArchMem(env, Isa.Run(env, Origin(cfg), w.samples), w);
      Isa.Run(env, Origin(cfg), w.samples + Older(w)) == ArchExe(env, m, w)
  {
    hide Isa.Run, Isa.Step, ArchMem, Done, Older;
    DoneRun(cfg, env, w);
    DoneParts(w);
    if w.cpu.be.mem.Alive() {
      RunExtends(env, Origin(cfg), Done(w), Undisturbed(w.memMip));
    } else {
      assert Done(w) + [] == Done(w);
    }
  }

  /** Unless an older instruction is about to halt or trap, the token in EXE is the instruction that
      the sequential machine executes after all older ones, with that machine's register values. */
  lemma OperandsIn(cfg: Config, env: Isa.Env, w: World)
    requires Follows(cfg, env, w) && !Stopped(w.commits) && !Halting(w.cpu.be) && w.cpu.be.exe.valid
    ensures var t, e := w.cpu.be.exe, Isa.Run(env, Origin(cfg), w.samples + Older(w));
      !e.halted && !(w.cpu.be.mem.Alive() && e.lastTrap) ==>
        t.ir == DecodeAt(env, e.pc) && Operands(e.regs, t.ir, t.rs1Val, t.rs2Val)
  {
    hide Isa.Run, Isa.Step, RelWb, RelCode, RelCsrs, RelMem, RelBus, RelFetch, Inv, Isa.Reports, DecodeAt, Operands,
         Issued, DecodeCorrect.Implements;
    OlderRun(cfg, env, w);
    var e := Isa.Run(env, Origin(cfg), w.samples + Older(w));
    if !e.halted && !(w.cpu.be.mem.Alive() && e.lastTrap) {
      IssuedFields(env, e, w.cpu.be.exe);
    }
  }

  /** A step that runs through and is no memory access writes its result, and nothing else. */
  lemma PlainWrites(env: Isa.Env, a: Isa.Arch, mip: Word)
    requires !a.halted && !Isa.IsMemory(InstrAt(env, a.pc))
    ensures var n, i := Isa.Step(env, a, Undisturbed(mip)), InstrAt(env, a.pc);
      !n.halted && !n.lastTrap ==>
        n.regs == WriteReg(a.regs, Isa.Result(a, i, mip, 0).0, Isa.Result(a, i, mip, 0).1)
  {
    hide Isa.Decode, Isa.EarlyHalt, Isa.CsrsAfter, Isa.Result, Isa.PendingInterrupt, Isa.Transaction, WriteReg, Isa.NextPc;
    QuietWires(Isa.CsrsAfter(a, InstrAt(env, a.pc), mip));
  }

  /** MEM's result bus, for an instruction that is no load. */
  lemma MemBus(env: Isa.Env, m: Isa.Arch, mip: Word, t: Token)
    requires !m.halted && Executed(env, m, mip, t) && Writes(t.ir) && !IsLoad(t.ir)
    ensures var e := Isa.Step(env, m, Undisturbed(mip));
      !e.halted && !e.lastTrap ==> ReadReg(e.regs, t.ir.rd) == t.rdValue
  {
    hide InstrAt, Executed, Isa.Step, Isa.Result, WriteReg, ReadReg, EarlyAt, IllegalNow, MisalignedTarget, Isa.CsrsAfter,
         Isa.NextPc, Isa.DataAddress, Isa.Width;
    var i := InstrAt(env, m.pc);
    var e := Isa.Step(env, m, Undisturbed(mip));
    if !e.halted && !e.lastTrap {
      UndisturbedFlow(env, m, mip);
      NoEarlyHaltLegal(env, m);
      ExecutedFields(env, m, mip, t);
      if Isa.IsMemory(i) {
        LoadedValue(env, m, mip, t, 0);
      } else {
        PlainResult(env, m, mip, t);
        PlainWrites(env, m, mip);
        ReadAfterWrite(m.regs, t.ir.rd, t.rdValue, t.ir.rd);
      }
    }
  }

  /** A row of MEM or WB that is live and marked ready stands for a value on that stage's result bus,
      and the value is the one the sequential machine leaves in the row's register, unless the
      instruction traps or halts. */
  lemma ResultBusesIn(cfg: Config, env: Isa.Env, w: World)
    requires Follows(cfg, env, w) && !Stopped(w.commits) && !Halting(w.cpu.be)
    ensures var be, a := w.cpu.be, Isa.Run(env, Origin(cfg), w.samples);
      var m := ArchMem(env, a, w);
      var e := ArchExe(env, m, w);
      && (be.rows.wb.valid && !be.rows.wb.killed && be.rows.wb.rdToWrite && !be.wb.trapPending ==>
            be.rows.wb.rdReady && be.wb.rdValue == ReadReg(m.regs, be.rows.wb.rd))
      && (be.rows.mem.valid && !be.rows.mem.killed && be.rows.mem.rdToWrite && be.rows.mem.rdReady &&
          !e.halted && !e.lastTrap ==>
            be.mem.rdValue == ReadReg(e.regs, be.rows.mem.rd))
  {
    hide Isa.Run, Isa.Step, RelCode, RelCsrs, RelBus, RelExe, RelFetch, Isa.Reports, Executed, WriteReg, ReadReg,
         Packet, Observe, Isa.Report, DecodeAt, EpochsOk, WbOk, TrapDrained, FetchOk, QueueOk, Chain, Stream, TokensOk;
    var be, a := w.cpu.be, Isa.Run(env, Origin(cfg), w.samples);
    var m := ArchMem(env, a, w);
    Committed(env, a, w);
    ReadAfterWrite(a.regs, be.wb.ir.rd, be.wb.rdValue, be.wb.ir.rd);
    if be.mem.Alive() && Writes(be.mem.ir) && !IsLoad(be.mem.ir) {
      MemBus(env, m, w.memMip, be.mem);
    }
  }

  // ---- suppression ----------------------------------------------------------------------------------------

  /** In the cycle of a trap, EXE's instruction has no effect: with any other token in EXE the
      registers, the CSRs, the memory request and the redirect are the same; and both tokens behind
      the trap are dead from then on. */
  lemma TrapSuppressesExe(cfg: Config, inputs: seq<Inputs>, input: Inputs, x: Token)
    requires cfg.Valid() && TrapFlush(State(cfg, inputs).be, input)
    ensures var s := State(cfg, inputs);
      var be, next := s.be.(exe := x), Step(Hardware(cfg), s, input).be;
      && CsrsNext(be, input) == next.csrs && RegsNext(be) == next.regs
      && DmemRequest(be, input) == DmemRequest(s.be, input) && !DmemRequest(be, input).valid
      && RedirectOf(be, input) == Some(MtvecBase(s.be.csrs))
      && !next.mem.Alive() && !next.exe.valid && next.wb.Alive() && next.wb.trapPending
  {
    hide Watch, Plus, NarrowRows, Inv, PreHalt, AsyncCause, LsuBe, LsuWdata, AlignDown, NarrowFrontend, EnterTrap,
         Step, FrontendNext, IssueToken, NarrowEpoch, NarrowSeq, WriteReg;
    StateIsNarrow(cfg, inputs);
    var s := Shadow(cfg, inputs);
    StepNarrow(cfg, s, input);
    SignalsNarrow(s.be, input);
    TokensMove(Ideal(cfg), s, input);
    InvParts(Ideal(cfg), s);
    IssueTokenShape(Ideal(cfg), s, input);
    FlushRedirects(s.be, input);
    StateMoves(Hardware(cfg), Narrow(s), input);
  }

  /** A dead token acts nowhere: in MEM it neither stalls, traps nor requests, in WB it writes and
      commits nothing. */
  lemma DeadTokensAreInert(be: Backend, input: Inputs)
    ensures !be.mem.Alive() ==>
      !MemStall(be, input) && !TrapFlush(be, input) && !DmemRequest(be, input).valid
    ensures !be.exe.Alive() ==> !ExeRedirect(be, input) && CsrsAfterExe(be.exe, be.csrs, MipOf(input)) == be.csrs
    ensures !be.wb.Alive() ==> RegsNext(be) == be.regs && !Packet(be.wb, be.regs[10]).storeValid
  {
    hide AsyncCause, PreHalt, Taken, LsuBe, LsuWdata, WriteCsr, CsrNew, LeaveTrap, CsrIllegal, WriteReg, HaltExitCode;
  }
}

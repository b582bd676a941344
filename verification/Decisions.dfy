/** What the hardware decides in a cycle, in terms of its tokens and its input wires: whether the head of
    the queue issues, which interrupt is taken, and what a halt exits with. */
module Decisions {
  import opened Words
  import opened Uarch
  import opened Datapath
  import opened Core
  import opened CoreInv
  import opened FrontendInv
  import opened Refine
  import opened Runs
  import opened Wrap
  import opened HardwareRuns
  import opened Theorems
  import Arithmetic
  import Chains
  import ExecCorrect
  import Numbers
  import Isa
  import Reachable

  // ---- issue --------------------------------------------------------------------------------

  predicate Reads(ir: DecodedIr, r: RegIndex) { (ir.rs1Use && ir.rs1 == r) || (ir.rs2Use && ir.rs2 == r) }

  /** A live instruction that is to write `r`. */
  predicate Produces(t: Token, r: RegIndex) { t.Alive() && t.ir.rdToWrite && t.ir.rd == r && r != 0 }

  /** The youngest value of `r` is not to be had yet. `answered`: WB's instruction has left MEM with the
      answer to its request. */
  predicate Awaited(cfg: Config, be: Backend, answered: bool, r: RegIndex) {
    || Produces(be.exe, r)
    || (Produces(be.mem, r) && (!cfg.memForwarding || IsLoad(be.mem.ir)))
    || (Produces(be.wb, r) && !Produces(be.mem, r) && (!cfg.wbForwarding || (IsLoad(be.wb.ir) && !answered)))
  }

  /** Readiness of WB's row after a cycle. */
  ghost predicate WbRowSays(be: Backend, answered: bool) {
    be.wb.Alive() ==> (be.rows.wb.rdReady <==> !IsLoad(be.wb.ir) || answered)
  }

  lemma WbReadiness(cfg: Config, s: Cpu, input: Inputs)
    requires Inv(cfg, s) && cfg.ids.Unbounded?
    ensures WbRowSays(Step(cfg, s, input).be, s.be.reqSent && input.dmemResp.valid)
  {
    hide Chains.Chain, EpochsOk, WbOk, TrapDrained, FetchOk, QueueOk, TokensOk, Step, MemStall, KilledByEvent;
    TokensMove(cfg, s, input);
    WbRow(cfg, s, input);
    if !MemStall(s.be, input) && Step(cfg, s, input).be.wb.Alive() {
      WbAlive(cfg, s, input);
    }
  }

  lemma WbRow(cfg: Config, s: Cpu, input: Inputs)
    ensures !MemStall(s.be, input) ==>
      (Step(cfg, s, input).be.rows.wb.rdReady <==> s.be.rows.mem.rdReady || MemRdReady(s.be, input))
  {
    hide MemStall, KillOf, KillRowIfYounger, MemRdReady, Issues, CsrsNext, RegsNext, MemNext, WbNext, FrontendNext, IssueToken;
  }

  lemma WbAlive(cfg: Config, s: Cpu, input: Inputs)
    requires Inv(cfg, s) && cfg.ids.Unbounded? && !MemStall(s.be, input) && Step(cfg, s, input).be.wb.Alive()
    ensures s.be.mem.Alive() && SameInstr(Step(cfg, s, input).be.wb, s.be.mem)
  {
    hide Chains.Chain, EpochsOk, WbOk, TrapDrained, FetchOk, QueueOk, TokensOk, Step, MemStall, KilledByEvent, Mirrored;
    TokensMove(cfg, s, input);
  }

  /** The source that is selected for a register, by the tokens. */
  lemma HazardIs(cfg: Config, be: Backend, answered: bool, use: bool, r: RegIndex)
    requires Mirrored(be) && WbRowSays(be, answered)
    ensures SelectSource(cfg, be.rows, use, r) == Hazard <==> use && Awaited(cfg, be, answered, r)
  {}

  lemma IssueIn(cfg: Config, s: Cpu, input: Inputs, answered: bool)
    requires Mirrored(s.be) && WbRowSays(s.be, answered)
    requires IrValid(s.fe, Redirect(s.be, input)) && !MemStall(s.be, input)
    ensures !Issues(cfg, s, input) <==> exists r :: Reads(s.fe.queue[0].ir, r) && Awaited(cfg, s.be, answered, r)
  {
    hide Awaited, SelectSource, Mirrored, MemStall, Redirect, WbRowSays;
    var ir := s.fe.queue[0].ir;
    HazardIs(cfg, s.be, answered, ir.rs1Use, ir.rs1);
    HazardIs(cfg, s.be, answered, ir.rs2Use, ir.rs2);
    if !Issues(cfg, s, input) {
      if SelectSource(cfg, s.be.rows, ir.rs1Use, ir.rs1) == Hazard {
        assert Reads(ir, ir.rs1) && Awaited(cfg, s.be, answered, ir.rs1);
      } else {
        assert Reads(ir, ir.rs2) && Awaited(cfg, s.be, answered, ir.rs2);
      }
    }
  }

  /** WB's instruction has left MEM with an answer, at the end of the run. */
  predicate Answered(inputs: seq<Inputs>, trace: seq<World>)
    requires |trace| == |inputs| + 1
  {
    inputs != [] && trace[|inputs| - 1].cpu.be.reqSent && inputs[|inputs| - 1].dmemResp.valid
  }

  /** In every state of the hardware, unless MEM stalls, a valid head of the queue is held back if and only
      if it reads a register whose youngest value is not to be had. In particular, while no halt is in WB
      and with both forwarding paths: if and only if EXE's instruction is to write such a register, or a
      load in MEM is. Without forwarding: if and only if an instruction in EXE, MEM or WB is. */
  lemma IssueDecision(cfg: Config, inputs: seq<Inputs>, trace: seq<World>, input: Inputs)
    requires cfg.Valid() && cfg.ids.Wrapped? && IsRun(cfg, inputs, trace)
    requires IrValid(trace[|inputs|].cpu.fe, Redirect(trace[|inputs|].cpu.be, input)) && !MemStall(trace[|inputs|].cpu.be, input)
    ensures var s := trace[|inputs|].cpu;
      var ir, be := s.fe.queue[0].ir, s.be;
      && (!Issues(cfg, s, input) <==> exists r :: Reads(ir, r) && Awaited(cfg, be, Answered(inputs, trace), r))
      && (cfg.memForwarding && cfg.wbForwarding && !Halting(be) ==>
            (!Issues(cfg, s, input) <==>
             exists r :: Reads(ir, r) && (Produces(be.exe, r) || (Produces(be.mem, r) && IsLoad(be.mem.ir)))))
      && (!cfg.memForwarding && !cfg.wbForwarding ==>
            (!Issues(cfg, s, input) <==>
             exists r :: Reads(ir, r) && (Produces(be.exe, r) || Produces(be.mem, r) || Produces(be.wb, r))))
  {
    hide Watch, Cycle, Start, Awaited, Inv, Mirrored, MemStall, Redirect, Issues, Narrow, WbRowSays, Produces, Reads;
    TraceEnd(cfg, inputs, trace);
    RowsOfRun(cfg, inputs, trace);
    IssueIn(cfg, trace[|inputs|].cpu, input, Answered(inputs, trace));
    WbHasResult(cfg, inputs, trace, input);
    var s := trace[|inputs|].cpu;
    forall r
      ensures cfg.memForwarding && cfg.wbForwarding && !Halting(s.be) ==>
        (Awaited(cfg, s.be, Answered(inputs, trace), r) <==>
         Produces(s.be.exe, r) || (Produces(s.be.mem, r) && IsLoad(s.be.mem.ir)))
      ensures !cfg.memForwarding && !cfg.wbForwarding ==>
        (Awaited(cfg, s.be, Answered(inputs, trace), r) <==>
         Produces(s.be.exe, r) || Produces(s.be.mem, r) || Produces(s.be.wb, r))
    {
      AwaitedForwarded(cfg, s.be, Answered(inputs, trace), r);
    }
  }

  lemma AwaitedForwarded(cfg: Config, be: Backend, answered: bool, r: RegIndex)
    requires be.wb.Alive() && !Halting(be) && IsLoad(be.wb.ir) ==> answered
    ensures cfg.memForwarding && cfg.wbForwarding && !Halting(be) ==>
      (Awaited(cfg, be, answered, r) <==> Produces(be.exe, r) || (Produces(be.mem, r) && IsLoad(be.mem.ir)))
    ensures !cfg.memForwarding && !cfg.wbForwarding ==>
      (Awaited(cfg, be, answered, r) <==> Produces(be.exe, r) || Produces(be.mem, r) || Produces(be.wb, r))
  {}

  lemma RowsOfRun(cfg: Config, inputs: seq<Inputs>, trace: seq<World>)
    requires cfg.Valid() && cfg.ids.Wrapped? && IsRun(cfg, inputs, trace)
    ensures Mirrored(trace[|inputs|].cpu.be) && WbRowSays(trace[|inputs|].cpu.be, Answered(inputs, trace))
  {
    hide Cycle, Start, Inv, NarrowToken, NarrowRow, WbRowSays, Mirrored, NarrowFrontend;
    TraceEnd(cfg, inputs, trace);
    assert Hardware(cfg) == cfg;
    Reachable.ScoreboardMirrors(cfg, inputs);
    HardwareRuns.HardwareIsIdeal(cfg, inputs);
    var ideal := Ideal(cfg);
    if inputs == [] {
      NoRowYet(cfg);
    } else {
      var n := |inputs| - 1;
      var before := inputs[..n];
      TraceIsWatch(cfg, inputs, trace, n);
      HardwareRuns.HardwareIsIdeal(cfg, before);
      InvRun(ideal, before);
      CycleLogs(ideal, Watch(ideal, before), inputs[n]);
      WbReadiness(ideal, Watch(ideal, before).cpu, inputs[n]);
      WbRowNarrow(Watch(ideal, inputs).cpu.be, Answered(inputs, trace));
    }
  }

  lemma NoRowYet(cfg: Config)
    ensures WbRowSays(Start(cfg).cpu.be, false)
  {}

  lemma WbRowNarrow(be: Backend, answered: bool)
    requires WbRowSays(be, answered)
    ensures WbRowSays(NarrowBackend(be), answered)
  {}

  /** A load in WB that does not halt has been answered: were it to trap, the head would not be valid. */
  lemma WbHasResult(cfg: Config, inputs: seq<Inputs>, trace: seq<World>, input: Inputs)
    requires cfg.Valid() && cfg.ids.Wrapped? && IsRun(cfg, inputs, trace)
    requires IrValid(trace[|inputs|].cpu.fe, Redirect(trace[|inputs|].cpu.be, input))
    ensures var be := trace[|inputs|].cpu.be; be.wb.Alive() && !Halting(be) && IsLoad(be.wb.ir) ==> Answered(inputs, trace)
  {
    hide Watch, Cycle, Start, Redirect, Answered;
    RowsOfRun(cfg, inputs, trace);
    NoHeadBehindTrap(cfg, inputs, trace);
  }

  lemma NoHeadBehindTrap(cfg: Config, inputs: seq<Inputs>, trace: seq<World>)
    requires cfg.Valid() && cfg.ids.Wrapped? && IsRun(cfg, inputs, trace)
    ensures var s := trace[|inputs|].cpu; s.be.wb.Alive() && s.be.wb.trapPending && s.fe.queue != [] ==> HeadStale(s.fe)
  {
    hide Watch, Cycle, Start, NarrowFrontend, NarrowRows, NarrowToken, Inv;
    TwinEnd(cfg, inputs, trace);
    InvRun(Ideal(cfg), inputs);
    var s := Twin(cfg, inputs).cpu;
    TokenFieldsNarrow(s.be.wb);
    HeadStaleNarrow(Ideal(cfg), s);
    QueueNarrow(s.fe);
    if s.be.wb.Alive() && s.be.wb.trapPending && s.fe.queue != [] {
      DrainedHead(Ideal(cfg), s);
    }
  }

  lemma DrainedHead(cfg: Config, s: Cpu)
    requires Inv(cfg, s) && s.be.wb.Alive() && s.be.wb.trapPending && s.fe.queue != []
    ensures HeadStale(s.fe)
  {
    hide Chains.Chain, EpochsOk, WbOk, FetchOk, QueueOk, TokensOk, Mirrored;
  }

  lemma QueueNarrow(fe: Frontend)
    ensures NarrowFrontend(fe).queue == [] <==> fe.queue == []
  {}

  // ---- interrupts ---------------------------------------------------------------------------------

  /** Bits 3, 7 and 11 of `mip` are the wires, and there are no others. */
  lemma WiresInMip(input: Inputs)
    ensures Flag(MipOf(input), 0x8) == input.msip && Flag(MipOf(input), 0x80) == input.mtip
    ensures Flag(MipOf(input), 0x800) == input.meip && MipOf(input) & 0xffff_f777 == 0
  {}

  /** The interrupt that MEM finds, by the wires and the enables: external before software before timer. */
  function Requested(c: Isa.Csrs, input: Inputs): Option<Word> {
    if !c.mie then None
    else if c.meie && input.meip then Some(0x8000_000b)
    else if c.msie && input.msip then Some(0x8000_0003)
    else if c.mtie && input.mtip then Some(0x8000_0007)
    else None
  }

  lemma InterruptByWires(c: CsrRegs, input: Inputs)
    ensures AsyncCause(c, MipOf(input)) ==
            var r := Requested(ExecCorrect.AbsCsrs(c), input); if r.Some? then r.value else 0
  {
    hide AsyncCause, Flag, ExecCorrect.AbsCsrs;
    WiresInMip(input);
    ExecCorrect.InterruptAgrees(c, MipOf(input));
  }

  /** MEM wants a trap on a live instruction that does not halt before it, exactly for an ECALL or for an
      enabled interrupt whose wire is high; the cause is that of the interrupt, if there is one. */
  lemma TrapByWires(be: Backend, input: Inputs)
    ensures var r := Requested(ExecCorrect.AbsCsrs(be.csrs), input);
      && (TrapWanted(be.mem, be.csrs, MipOf(input)) <==>
          be.mem.Alive() && !PreHalt(be.mem) && (r.Some? || be.mem.ir.sysKind == SysEcall))
      && TrapCause(be.csrs, MipOf(input)) == (if r.Some? then r.value else 11)
  {
    hide AsyncCause, PreHalt, ExecCorrect.AbsCsrs;
    InterruptByWires(be.csrs, input);
  }

  /** In this cycle MEM takes a trap on the instruction at `pc` with the given cause: that of an enabled
      interrupt whose wire is high, or else that of an ECALL. */
  ghost predicate Takes(be: Backend, input: Inputs, pc: Word, cause: Word) {
    && TrapFlush(be, input) && be.mem.ir.pc == pc
    && match Requested(ExecCorrect.AbsCsrs(be.csrs), input)
       case Some(c) => cause == c
       case None => cause == 11 && be.mem.ir.sysKind == SysEcall
  }

  ghost predicate Took(inputs: seq<Inputs>, trace: seq<World>, n: nat, pc: Word, cause: Word)
    requires n <= |inputs| < |trace|
  {
    exists k :: 0 <= k < n && Takes(trace[k].cpu.be, inputs[k], pc, cause)
  }

  lemma FlushTakes(be: Backend, input: Inputs)
    requires TrapFlush(be, input)
    ensures Takes(be, input, be.mem.ir.pc, TrapCause(be.csrs, MipOf(input)))
  {
    hide AsyncCause, PreHalt, ExecCorrect.AbsCsrs, Requested, MtvecBase, MemStall, TrapCause;
    TrapByWires(be, input);
  }

  /** What is in WB came from MEM in the cycle before. */
  lemma TrapEnters(cfg: Config, s: Cpu, input: Inputs)
    requires Inv(cfg, s) && cfg.ids.Unbounded?
    ensures var wb := Step(cfg, s, input).be.wb;
      wb.Alive() && wb.trapPending ==> Takes(s.be, input, wb.ir.pc, wb.trapCause)
  {
    hide Chains.Chain, EpochsOk, WbOk, TrapDrained, FetchOk, QueueOk, Mirrored, Step, MemStall, KilledByEvent, TrapFlush,
         Takes, TrapCause, KillOf;
    TokensMove(cfg, s, input);
    var wb := Step(cfg, s, input).be.wb;
    if wb.Alive() && wb.trapPending {
      FlushTakes(s.be, input);
      CauseKept(cfg, s, input);
    }
  }

  lemma CauseKept(cfg: Config, s: Cpu, input: Inputs)
    requires TrapFlush(s.be, input)
    ensures Step(cfg, s, input).be.wb.trapCause == TrapCause(s.be.csrs, MipOf(input))
  {
    hide TrapCause, AsyncCause, PreHalt, TrapWanted, MtvecBase, KilledByEvent, KillOf, LsuBe, LoadValue, PreHaltKind, MemNext,
         RowsNext, CsrsNext, FrontendNext, IssueToken, DmemRequest, RegsNext, Stall;
  }

  lemma TakesNarrow(be: Backend, input: Inputs, pc: Word, cause: Word)
    ensures Takes(NarrowBackend(be), input, pc, cause) <==> Takes(be, input, pc, cause)
  {
    hide NarrowToken, NarrowRows, TrapFlush, ExecCorrect.AbsCsrs, Requested;
    SignalsNarrow(be, input);
    TokenFieldsNarrow(be.mem);
  }

  lemma TrapEntersHardware(cfg: Config, inputs: seq<Inputs>, trace: seq<World>, n: nat)
    requires cfg.Valid() && cfg.ids.Wrapped? && IsRun(cfg, inputs, trace) && n < |inputs|
    ensures var wb := trace[n + 1].cpu.be.wb;
      wb.Alive() && wb.trapPending ==> Takes(trace[n].cpu.be, inputs[n], wb.ir.pc, wb.trapCause)
  {
    hide Cycle, Start, Inv, NarrowRows, NarrowFrontend, NarrowToken, Step, Takes;
    var ideal, before := Ideal(cfg), inputs[..n];
    assert Hardware(cfg) == cfg;
    assert inputs[..n + 1][..n] == before;
    TraceIsWatch(cfg, inputs, trace, n);
    TraceIsWatch(cfg, inputs, trace, n + 1);
    HardwareRuns.HardwareIsIdeal(cfg, before);
    HardwareRuns.HardwareIsIdeal(cfg, inputs[..n + 1]);
    InvRun(ideal, before);
    var s := Watch(ideal, before).cpu;
    CycleLogs(ideal, Watch(ideal, before), inputs[n]);
    TrapEnters(ideal, s, inputs[n]);
    var wb := Step(ideal, s, inputs[n]).be.wb;
    TokenFieldsNarrow(wb);
    CauseNarrow(wb);
    TakesNarrow(s.be, inputs[n], wb.ir.pc, wb.trapCause);
  }

  lemma CauseNarrow(t: Token)
    ensures NarrowToken(t).trapCause == t.trapCause
  {}

  lemma CommitShows(be: Backend)
    ensures var t := CommitOf(be).trap;
      if be.wb.trapPending then t.Trap? && t.mepc == be.wb.ir.pc && t.cause == be.wb.trapCause else t == Isa.NoTrap
  {
    hide HaltExitCode;
  }

  /** In every run of the hardware, whatever its inputs, each committed trap is one that MEM took on that
      instruction in a cycle of the run; an interrupt only if its wire was high and enabled in that cycle. */
  lemma {:induction false} TrapsComeFromWires(cfg: Config, inputs: seq<Inputs>, trace: seq<World>, n: nat)
    requires cfg.Valid() && cfg.ids.Wrapped? && IsRun(cfg, inputs, trace) && n <= |inputs|
    ensures forall i :: 0 <= i < |trace[n].commits| && trace[n].commits[i].trap.Trap? ==>
      Took(inputs, trace, n, trace[n].commits[i].trap.mepc, trace[n].commits[i].trap.cause)
    ensures var wb := trace[n].cpu.be.wb; wb.Alive() && wb.trapPending ==> Took(inputs, trace, n, wb.ir.pc, wb.trapCause)
  {
    hide Cycle, Takes, CommitOf, Reset;
    if n > 0 {
      TrapsComeFromWires(cfg, inputs, trace, n - 1);
      TrapEntersHardware(cfg, inputs, trace, n - 1);
      CycleLogs(cfg, trace[n - 1], inputs[n - 1]);
      CommitShows(trace[n - 1].cpu.be);
      assert trace[n - 1 + 1] == trace[n];
    } else {
      NothingInWb(cfg);
    }
  }

  lemma NothingInWb(cfg: Config)
    ensures !Start(cfg).cpu.be.wb.Alive()
  {}

  // ---- exit codes -----------------------------------------------------------------------------------

  lemma ReportExits(env: Isa.Env, a: Isa.Arch, s: Isa.Sample)
    ensures var halt := Isa.Report(env, a, s).halt;
      halt.Halt? ==> Arithmetic.ExitsWith(halt.kind, a.regs[10], halt.exitCode)
  {
    hide Isa.OutcomeOf, Arithmetic.ExitsWith, HaltExitCode;
    match Isa.OutcomeOf(env, a, s)
    case Stops(kind, _, _) => Arithmetic.ExitCodes(kind, a.regs[10]);
    case _ =>
  }

  /** A committed halt exits with a0 modulo 256 if it is voluntary, where a0 is the sequential machine's,
      and with the fixed code of its kind otherwise. */
  lemma HaltsExit(cfg: Config, env: Isa.Env, inputs: seq<Inputs>, trace: seq<World>)
    requires GoodTrace(cfg, env, inputs, trace)
    ensures var w := trace[|inputs|];
      exists states: seq<Isa.Arch> :: Sequential(env, Origin(cfg), w.samples, states) && |w.commits| == |w.samples| &&
        forall k :: 0 <= k < |w.commits| && w.commits[k].halt.Halt? ==>
          Arithmetic.ExitsWith(w.commits[k].halt.kind, states[k].regs[10], w.commits[k].halt.exitCode)
  {
    hide Cycle, Start, HonestAlong, FlagServed, Sequential, Isa.Report, Stopped, Arithmetic.ExitsWith;
    PipelineRefinesIsa(cfg, env, inputs, trace);
    var w := trace[|inputs|];
    var states: seq<Isa.Arch> :| Sequential(env, Origin(cfg), w.samples, states) && Reported(env, w.samples, states, w.commits);
    forall k | 0 <= k < |w.commits|
      ensures w.commits[k].halt.Halt? ==>
        Arithmetic.ExitsWith(w.commits[k].halt.kind, states[k].regs[10], w.commits[k].halt.exitCode)
    {
      ReportExits(env, states[k], w.samples[k]);
    }
  }

  // ---- back-pressure ----------------------------------------------------------------------------------

  predicate HasRoom(cfg: Config, fe: Frontend) {
    fe.fetch.outstanding || fe.fetch.out.valid ==> |fe.queue| < cfg.queueDepth
  }

  lemma RoomNext(cfg: Config, fe: Frontend, input: Inputs, redirect: Option<Word>, issues: bool)
    requires FetchOk(fe) && HasRoom(cfg, fe) && (issues ==> fe.queue != [])
    ensures HasRoom(cfg, FrontendNext(cfg, fe, input, redirect, issues))
  {
    hide Plus, DecodeFetched;
  }

  lemma RoomAtReset(cfg: Config)
    ensures HasRoom(cfg, Start(cfg).cpu.fe)
  {}

  lemma RoomNarrow(cfg: Config, fe: Frontend)
    ensures HasRoom(cfg, NarrowFrontend(fe)) == HasRoom(cfg, fe)
  {}

  lemma {:induction false} RoomRun(cfg: Config, inputs: seq<Inputs>)
    requires cfg.Valid() && cfg.ids.Unbounded?
    ensures HasRoom(cfg, Watch(cfg, inputs).cpu.fe)
    decreases |inputs|
  {
    hide Cycle, Step, HasRoom, FrontendNext, Start, Mirrored, TokensOk, EpochsOk, WbOk, TrapDrained, Chains.Chain, QueueOk;
    if inputs == [] {
      RoomAtReset(cfg);
    } else {
      var before, input := inputs[..|inputs| - 1], inputs[|inputs| - 1];
      var s := Watch(cfg, before).cpu;
      RoomRun(cfg, before);
      InvRun(cfg, before);
      CycleLogs(cfg, Watch(cfg, before), input);
      FrontendOf(cfg, s, input);
      RoomNext(cfg, s.fe, input, RedirectOf(s.be, input), Issues(cfg, s, input));
    }
  }

  /** Fetching is only held up in front of a full queue, and what has been fetched never is: a request is
      made in every cycle without a redirect in which none is out, nothing is held and the queue has room;
      while one is out or its word is held there is room; and a held word enters the queue at once. */
  lemma FetchedWordHasRoom(cfg: Config, inputs: seq<Inputs>, trace: seq<World>, input: Inputs)
    requires cfg.Valid() && cfg.ids.Wrapped? && IsRun(cfg, inputs, trace)
    ensures var s := trace[|inputs|].cpu;
      var flush := Redirect(s.be, input);
      && HasRoom(cfg, s.fe)
      && (ImemReqValid(cfg, s.fe, flush) <==>
          !flush && !s.fe.fetch.outstanding && !s.fe.fetch.out.valid && |s.fe.queue| < cfg.queueDepth)
      && (Pushes(cfg, s.fe, flush) <==> s.fe.fetch.out.valid && !flush)
  {
    hide Watch, Cycle, Start, NarrowFrontend, NarrowBackend, Redirect;
    TwinEnd(cfg, inputs, trace);
    RoomRun(Ideal(cfg), inputs);
    RoomNarrow(cfg, Twin(cfg, inputs).cpu.fe);
    SameRoom(cfg, Twin(cfg, inputs).cpu.fe);
  }

  lemma SameRoom(cfg: Config, fe: Frontend)
    ensures HasRoom(Ideal(cfg), fe) == HasRoom(cfg, fe)
  {}
}

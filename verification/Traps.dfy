/** Traps: exactly when they are precise, in the sequential machine and in the pipeline, and what
    commits after them. */
module Traps {
  import opened Words
  import opened Uarch
  import opened Datapath
  import opened Core
  import opened CoreInv
  import opened ExecCorrect
  import opened Refine
  import opened Runs
  import Isa

  /** The trap entry of section 3.1.14 of the Privileged ISA, from the state in front of the instruction. */
  function TrapEntry(a: Isa.Arch, cause: Word): Isa.Arch {
    a.(pc := a.csrs.mtvec, csrs := Isa.EnterTrap(a.csrs, cause, a.pc, 0), lastTrap := true)
  }

  /** Equal in all that a trap entry does not overwrite. */
  predicate SameBelowTrap(c: Isa.Csrs, d: Isa.Csrs) {
    c.mie == d.mie && c.msie == d.msie && c.mtie == d.mtie && c.meie == d.meie && c.mtvec == d.mtvec && c.mscratch == d.mscratch
  }

  predicate HasSent(i: Isa.Instr, s: Isa.Sample) { Isa.IsMemory(i) && s.sent }

  /** A step that traps leaves the registers alone, saves the pc and goes to the vector. It leaves
      the state of a precise trap exactly when the instruction had neither sent its memory request
      nor changed CSR state that outlives the trap entry. */
  lemma PreciseExactly(env: Isa.Env, a: Isa.Arch, s: Isa.Sample)
    requires !a.halted && Isa.Step(env, a, s).lastTrap
    ensures var n, i := Isa.Step(env, a, s), InstrAt(env, a.pc);
      var from := Isa.CsrsAfter(a, i, s.mipRead);
      && Isa.Report(env, a, s).trap == Isa.Trap(n.csrs.mcause, a.pc, 0)
      && n.regs == a.regs && n.pc == n.csrs.mtvec && n.csrs.mepc == AlignDown(a.pc) && !n.csrs.mie
      && n.bus == (if !HasSent(i, s) then a.bus else a.bus + [Isa.Transaction(a, i)])
      && (n == TrapEntry(a, n.csrs.mcause) <==> !HasSent(i, s) && SameBelowTrap(from, a.csrs))
  {
    hide InstrAt, Isa.Step, Isa.Report, Isa.CsrsAfter, Isa.Transaction, Isa.EnterTrap, SameBelowTrap;
    var i := InstrAt(env, a.pc);
    var from := Isa.CsrsAfter(a, i, s.mipRead);
    TrapShape(env, a, s);
    var cause := Isa.Step(env, a, s).csrs.mcause;
    EntryFields(from, cause, a.pc);
    EntryAgrees(from, a.csrs, cause, a.pc);
    if HasSent(i, s) {
      assert |a.bus + [Isa.Transaction(a, i)]| != |a.bus|;
    }
  }

  lemma EntryFields(from: Isa.Csrs, cause: Word, epc: Word)
    ensures var c := Isa.EnterTrap(from, cause, epc, 0);
      c.mtvec == from.mtvec && c.mepc == AlignDown(epc) && !c.mie && c.mcause == cause
  {
    hide AlignDown;
  }

  lemma EntryAgrees(from: Isa.Csrs, before: Isa.Csrs, cause: Word, epc: Word)
    ensures Isa.EnterTrap(from, cause, epc, 0) == Isa.EnterTrap(before, cause, epc, 0) && from.mtvec == before.mtvec <==>
            SameBelowTrap(from, before)
  {
    hide AlignDown;
  }

  /** A step that traps, by what it keeps and what it has done. */
  lemma TrapShape(env: Isa.Env, a: Isa.Arch, s: Isa.Sample)
    requires !a.halted && Isa.Step(env, a, s).lastTrap
    ensures var n, i := Isa.Step(env, a, s), InstrAt(env, a.pc);
      var from := Isa.CsrsAfter(a, i, s.mipRead);
      var bus := if HasSent(i, s) then a.bus + [Isa.Transaction(a, i)] else a.bus;
      && n == Isa.Arch(from.mtvec, a.regs, Isa.EnterTrap(from, n.csrs.mcause, a.pc, 0), bus, true, false)
      && Isa.Report(env, a, s).trap == Isa.Trap(n.csrs.mcause, a.pc, 0)
  {
    hide Isa.Decode, Isa.EarlyHalt, Isa.CsrsAfter, Isa.PendingInterrupt, Isa.Transaction, AlignDown, Isa.Perform;
    PerformCompletes(env, a, InstrAt(env, a.pc), s);
  }

  lemma PerformCompletes(env: Isa.Env, a: Isa.Arch, i: Isa.Instr, s: Isa.Sample)
    ensures !Isa.Perform(env, a, i, s).Traps?
  {
    hide Isa.CsrsAfter, Isa.Result, Isa.DataAddress, Isa.Lanes, Isa.Width, Isa.Transaction, Isa.NextPc;
  }

  /** ECALL, and any interrupt on an instruction that is not a CSR access, MRET or a sent memory
      access, is precise. */
  lemma OrdinaryTrapsArePrecise(env: Isa.Env, a: Isa.Arch, s: Isa.Sample)
    requires !a.halted && Isa.Step(env, a, s).lastTrap
    requires !HasSent(InstrAt(env, a.pc), s)
    requires InstrAt(env, a.pc).Csr? ==> !Isa.CsrWrites(InstrAt(env, a.pc).cop, InstrAt(env, a.pc).src)
    requires !InstrAt(env, a.pc).Mret?
    ensures Isa.Step(env, a, s) == TrapEntry(a, Isa.Step(env, a, s).csrs.mcause)
  {
    hide Isa.Decode, Isa.Step, Isa.PendingInterrupt, Isa.Transaction, AlignDown, Isa.CsrWrites, Isa.ReadCsr, Isa.CsrUpdate,
         Isa.Report, TrapEntry;
    PreciseExactly(env, a, s);
  }

  // ---- in the pipeline -------------------------------------------------------------------------------

  /** While a trap commits: the instructions behind it are gone, and the core's registers, CSRs and
      memory traffic are those of the sequential machine after the trap. */
  lemma TrapInWb(cfg: Config, env: Isa.Env, w: World)
    requires Follows(cfg, env, w) && !Stopped(w.commits)
    requires w.cpu.be.wb.Alive() && w.cpu.be.wb.trapPending && !w.cpu.be.wb.halt
    ensures var be, a := w.cpu.be, Isa.Run(env, Origin(cfg), w.samples);
      var n := Isa.Step(env, a, w.wbSample);
      && !a.halted && n.lastTrap && be.wb.ir.pc == a.pc
      && be.regs == n.regs && AbsCsrs(be.csrs) == n.csrs && w.bus == n.bus
      && !be.mem.Alive() && !be.exe.valid && !be.reqSent
  {
    hide Isa.Run, Isa.Step, RelCode, RelMem, AbsCsrs, Packet, RelExe, RelFetch, Isa.Reports, EarlyAt, InstrAt,
         Isa.Transaction, Stream, EpochsOk, Mirrored, TrapDrained, Isa.Report, DecodeAt, Observe;
    TrapReports(env, Isa.Run(env, Origin(cfg), w.samples), w.wbSample, w.cpu.be.wb);
  }

  /** A committing trap is a trap of the sequential machine, which keeps the registers. */
  lemma TrapReports(env: Isa.Env, a: Isa.Arch, s: Isa.Sample, t: Token)
    requires Finished(env, a, s, t) && t.trapPending && !t.halt
    ensures Isa.Step(env, a, s).lastTrap && Isa.Step(env, a, s).regs == a.regs
  {
    hide Isa.Step, Packet, Observe, Isa.Report, DecodeAt, WriteReg;
  }

  lemma ReportPc(env: Isa.Env, a: Isa.Arch, s: Isa.Sample)
    ensures Isa.Report(env, a, s).pc == a.pc
  {
    hide Isa.OutcomeOf, HaltExitCode;
  }

  lemma {:induction false} ReportAt(env: Isa.Env, a: Isa.Arch, samples: seq<Isa.Sample>, k: nat)
    requires k < |samples|
    ensures Isa.Reports(env, a, samples)[k] == Isa.Report(env, Isa.Run(env, a, samples[..k]), samples[k])
    decreases |samples|
  {
    hide Isa.Report, Isa.Run;
    var n := |samples| - 1;
    if k < n {
      ReportAt(env, a, samples[..n], k);
      assert samples[..n][..k] == samples[..k];
    }
  }

  /** The sequential machine runs until it reports a halt. */
  lemma {:induction false} StillRunning(env: Isa.Env, start: Isa.Arch, samples: seq<Isa.Sample>, k: nat)
    requires !start.halted && k <= |samples|
    requires forall j :: 0 <= j < k ==> !Isa.Reports(env, start, samples)[j].halt.Halt?
    ensures !Isa.Run(env, start, samples[..k]).halted
  {
    hide Isa.Run, Isa.Step, Isa.Report;
    if k == 0 {
      RunNothing(env, start);
    } else {
      StillRunning(env, start, samples, k - 1);
      ReportAt(env, start, samples, k - 1);
      var a := Isa.Run(env, start, samples[..k - 1]);
      ReportOfHalt(env, a, samples[k - 1]);
      assert samples[..k] == samples[..k - 1] + [samples[k - 1]];
      RunExtends(env, start, samples[..k - 1], samples[k - 1]);
    }
  }

  lemma RunNothing(env: Isa.Env, a: Isa.Arch)
    ensures Isa.Run(env, a, []) == a
  {}
}

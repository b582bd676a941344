/** Stage by stage, what EXE, MEM and WB compute for one instruction is what the sequential
    machine does with it. Nothing here knows about the pipeline around the instruction. */
module ExecCorrect {
  import opened Words
  import opened Uarch
  import opened Datapath
  import opened DecodeCorrect
  import Isa
  import Decoder

  function DecodeAt(env: Isa.Env, pc: Word): DecodedIr {
    Decoder.Decode(pc, env.code(pc).inst, env.code(pc).error)
  }

  function InstrAt(env: Isa.Env, pc: Word): Isa.Instr { Isa.Decode(env.code(pc).inst) }

  lemma DecodedAt(env: Isa.Env, pc: Word)
    ensures Implements(DecodeAt(env, pc), InstrAt(env, pc))
    ensures DecodeAt(env, pc).pc == pc
    ensures DecodeAt(env, pc).ifBusError == env.code(pc).error
    ensures Decoder.WellFormed(DecodeAt(env, pc))
  {
    hide Implements, Decoder.Decode, Decoder.WellFormed, Isa.Decode;
    DecoderImplements(pc, env.code(pc).inst, env.code(pc).error);
    Decoder.DecodeWellFormed(pc, env.code(pc).inst, env.code(pc).error);
    Decoder.DecodeKeeps(pc, env.code(pc).inst, env.code(pc).error);
  }

  // ---- CSR file ------------------------------------------------------------------------

  /** The machine-mode state that the CSR registers hold. */
  function AbsCsrs(c: CsrRegs): Isa.Csrs {
    Isa.Csrs(Flag(c.mstatus, 0x8), Flag(c.mstatus, 0x80),
             Flag(c.mie, 0x8), Flag(c.mie, 0x80), Flag(c.mie, 0x800),
             AlignDown(c.mtvec), c.mscratch, AlignDown(c.mepc), c.mcause, c.mtval)
  }

  lemma OneBit(m: Word, bit: Word)
    requires bit == 0x8 || bit == 0x80 || bit == 0x800
    ensures Keep(m, bit) == if Flag(m, bit) then bit else 0
  {}

  lemma MstatusSplits(m: Word)
    ensures Keep(m, 0x88) | 0x1800 == 0x1800 | Keep(m, 0x8) | Keep(m, 0x80)
  {}

  lemma MieSplits(m: Word)
    ensures Keep(m, 0x888) == Keep(m, 0x8) | Keep(m, 0x80) | Keep(m, 0x800)
  {}

  lemma MstatusReads(c: CsrRegs)
    ensures MstatusOut(c) == Isa.MstatusValue(AbsCsrs(c))
  {
    hide Flag, Keep, AlignDown;
    MstatusSplits(c.mstatus);
    OneBit(c.mstatus, 0x8);
    OneBit(c.mstatus, 0x80);
  }

  lemma MieReads(c: CsrRegs)
    ensures MieOut(c) == Isa.MieValue(AbsCsrs(c))
  {
    hide Flag, Keep, AlignDown;
    MieSplits(c.mie);
    OneBit(c.mie, 0x8);
    OneBit(c.mie, 0x80);
    OneBit(c.mie, 0x800);
  }

  lemma CsrReadAgrees(c: CsrRegs, mip: Word, addr: bv12)
    ensures ReadCsr(c, mip, addr) == Isa.ReadCsr(AbsCsrs(c), mip, addr)
  {
    hide Flag, AlignDown, MstatusOut, MieOut, Isa.MstatusValue, Isa.MieValue;
    MstatusReads(c);
    MieReads(c);
  }

  lemma MstatusWriteAgrees(c: CsrRegs, v: Word)
    ensures AbsCsrs(c.(mstatus := Keep(v, 0x88))) == AbsCsrs(c).(mie := Flag(v, 0x8), mpie := Flag(v, 0x80))
  {
    hide Flag, Keep, AlignDown;
    FlagOfKeep(v, 0x88, 0x8);
    FlagOfKeep(v, 0x88, 0x80);
  }

  lemma MieWriteAgrees(c: CsrRegs, v: Word)
    ensures AbsCsrs(c.(mie := Keep(v, 0x888))) ==
            AbsCsrs(c).(msie := Flag(v, 0x8), mtie := Flag(v, 0x80), meie := Flag(v, 0x800))
  {
    hide Flag, Keep, AlignDown;
    FlagOfKeep(v, 0x888, 0x8);
    FlagOfKeep(v, 0x888, 0x80);
    FlagOfKeep(v, 0x888, 0x800);
  }

  lemma PlainWriteAgrees(c: CsrRegs, v: Word)
    ensures AbsCsrs(c.(mtvec := AlignDown(v))) == AbsCsrs(c).(mtvec := AlignDown(v))
    ensures AbsCsrs(c.(mepc := AlignDown(v))) == AbsCsrs(c).(mepc := AlignDown(v))
    ensures AbsCsrs(c.(mscratch := v)) == AbsCsrs(c).(mscratch := v)
    ensures AbsCsrs(c.(mcause := v)) == AbsCsrs(c).(mcause := v)
    ensures AbsCsrs(c.(mtval := v)) == AbsCsrs(c).(mtval := v)
  {
    hide Flag, Keep, AlignDown;
    AlignDownTwice(v);
  }

  lemma CsrWriteAgrees(c: CsrRegs, addr: bv12, v: Word)
    ensures AbsCsrs(WriteCsr(c, addr, v)) == Isa.WriteCsr(AbsCsrs(c), addr, v)
  {
    hide Flag, Keep, AlignDown, AbsCsrs;
    MstatusWriteAgrees(c, v);
    MieWriteAgrees(c, v);
    PlainWriteAgrees(c, v);
  }

  lemma CsrLegality(addr: bv12, writes: bool)
    ensures CsrIllegal(addr, writes) <==> !Isa.CsrLegal(addr, writes)
  {
    assert addr & 0xc00 == 0xc00 <==> addr >= 0xc00;
  }

  lemma StatusFlags()
    ensures Flag(0x80, 0x80) && !Flag(0x80, 0x8)
    ensures Flag(0x88, 0x80) && Flag(0x88, 0x8)
    ensures !Flag(0, 0x80) && !Flag(0, 0x8) && !Flag(0, 0x800)
  {}

  lemma TrapEntryAgrees(c: CsrRegs, cause: Word, epc: Word, tval: Word)
    ensures AbsCsrs(EnterTrap(c, cause, epc, tval)) == Isa.EnterTrap(AbsCsrs(c), cause, epc, tval)
  {
    hide Flag, Keep, AlignDown;
    AlignDownTwice(epc);
    StatusFlags();
  }

  lemma TrapReturnAgrees(c: CsrRegs)
    ensures AbsCsrs(LeaveTrap(c)) == Isa.LeaveTrap(AbsCsrs(c))
  {
    hide Flag, Keep, AlignDown;
    StatusFlags();
    assert MSTATUS_MPIE | MSTATUS_MIE == 0x88;
  }

  lemma EnabledBit(mie: Word, mip: Word, bit: Word)
    requires bit == 0x8 || bit == 0x80 || bit == 0x800
    ensures Flag(Keep(Keep(mie, 0x888), mip), bit) <==> Flag(mie, bit) && Flag(mip, bit)
  {}

  lemma MstatusMie(m: Word)
    ensures Flag(Keep(m, 0x88) | 0x1800, 0x8) == Flag(m, 0x8)
  {}

  lemma InterruptAgrees(c: CsrRegs, mip: Word)
    ensures Isa.PendingInterrupt(AbsCsrs(c), mip) ==
            if AsyncCause(c, mip) == 0 then None else Some(AsyncCause(c, mip))
  {
    hide Flag, Keep, AlignDown;
    MstatusMie(c.mstatus);
    EnabledBit(c.mie, mip, 0x8);
    EnabledBit(c.mie, mip, 0x80);
    EnabledBit(c.mie, mip, 0x800);
  }

  /** With the interrupt wires low nothing is pending. */
  lemma QuietWires(c: Isa.Csrs)
    ensures Mip(false, false, false) == 0
    ensures Isa.PendingInterrupt(c, 0) == None
  {
    StatusFlags();
  }

  // ---- what EXE computes -----------------------------------------------------------------

  /** The operands that the instruction uses are the architectural register values. */
  ghost predicate Operands(regs: Regs, ir: DecodedIr, v1: Word, v2: Word) {
    (ir.rs1Use ==> v1 == ReadReg(regs, ir.rs1)) && (ir.rs2Use ==> v2 == ReadReg(regs, ir.rs2))
  }

  /** `t` has been issued for the instruction that `a` is about to execute. */
  ghost predicate Issued(env: Isa.Env, a: Isa.Arch, t: Token) {
    && t == FreshToken(t.epoch, t.seqId, DecodeAt(env, a.pc), t.rs1Val, t.rs2Val)
    && Operands(a.regs, t.ir, t.rs1Val, t.rs2Val)
  }

  lemma UpperAgrees(a: Isa.Arch, i: Isa.Instr, ir: DecodedIr, t: Token, mip: Word)
    requires Implements(ir, i) && t.ir == ir && ir.pc == a.pc
    requires i.Lui? || i.Auipc?
    ensures AluResult(t) == Isa.Result(a, i, mip, 0).1
  {
    hide Plus, ReadReg, Isa.UpperImmediate;
    PlusZero(ir.imm);
  }

  lemma AluOps(a: Word, b: Word)
    ensures forall op: Isa.RegOp :: Alu(AluOfReg(op), a, b) == Isa.RegResult(op, a, b)
    ensures forall op: Isa.ImmOp :: Alu(AluOfImm(op), a, b) == Isa.ImmResult(op, a, b)
    ensures forall op: Isa.ShiftOp :: Alu(AluOfShift(op), a, b) == Isa.ShiftResult(op, a, Shamt(b))
  {
    hide Plus, Minus, BitXor, BitOr, BitAnd, BitClear, ShiftLeft, ShiftRight, Less, SignedLess, ArithShiftRight, Shamt;
  }

  lemma AluImmAgrees(a: Isa.Arch, i: Isa.Instr, ir: DecodedIr, t: Token, mip: Word)
    requires Implements(ir, i) && Operands(a.regs, ir, t.rs1Val, t.rs2Val) && t.ir == ir
    requires i.OpImm?
    ensures AluResult(t) == Isa.Result(a, i, mip, 0).1
  {
    hide Alu, Isa.ImmResult, ReadReg, Shamt, SignExtend12, IsJalrWord;
    AluOps(t.rs1Val, ir.imm);
  }

  lemma AluShiftAgrees(a: Isa.Arch, i: Isa.Instr, ir: DecodedIr, t: Token, mip: Word)
    requires Implements(ir, i) && Operands(a.regs, ir, t.rs1Val, t.rs2Val) && t.ir == ir
    requires i.ShiftImm?
    ensures AluResult(t) == Isa.Result(a, i, mip, 0).1
  {
    hide Alu, Isa.ShiftResult, ReadReg, Shamt, SignExtend12, IsJalrWord;
    AluOps(t.rs1Val, ir.imm);
  }

  lemma AluRegAgrees(a: Isa.Arch, i: Isa.Instr, ir: DecodedIr, t: Token, mip: Word)
    requires Implements(ir, i) && Operands(a.regs, ir, t.rs1Val, t.rs2Val) && t.ir == ir
    requires i.Op?
    ensures AluResult(t) == Isa.Result(a, i, mip, 0).1
  {
    hide Alu, Isa.RegResult, ReadReg, Shamt, SignExtend12, IsJalrWord;
    AluOps(t.rs1Val, t.rs2Val);
  }

  lemma AddressAgrees(a: Isa.Arch, i: Isa.Instr, ir: DecodedIr, t: Token)
    requires Implements(ir, i) && Operands(a.regs, ir, t.rs1Val, t.rs2Val) && t.ir == ir
    requires Isa.IsMemory(i)
    ensures AluResult(t) == Isa.DataAddress(a, i)
    ensures IsMem(ir) && (IsLoad(ir) <==> i.Load?)
    ensures IsStore(ir) ==> t.rs2Val == ReadReg(a.regs, i.rs2)
  {
    hide Plus, Minus, BitXor, BitOr, BitAnd, BitClear, ShiftLeft, ShiftRight, Less, ReadReg, SignedLess,
         ArithShiftRight, Shamt, SignExtend12;
  }

  lemma BranchClass(i: Isa.Instr, ir: DecodedIr)
    requires Implements(ir, i)
    ensures ir.fu == FuBranch <==> i.Jal? || i.Jalr? || i.Branch? || (i.Illegal? && i.jump != Isa.NoJump)
    ensures !i.Illegal? ==> (ir.sysKind == SysMret <==> i.Mret?)
  {
    hide SignExtend12, Isa.Offset12, Isa.Offset20, Opcode, Isa.UpperImmediate, Shamt;
  }

  lemma BranchAgrees(a: Isa.Arch, i: Isa.Instr, ir: DecodedIr, t: Token)
    requires Implements(ir, i) && Operands(a.regs, ir, t.rs1Val, t.rs2Val) && t.ir == ir && ir.pc == a.pc
    requires i.Branch?
    ensures Isa.JumpTarget(a, i) == if Taken(t) then Some(ActualTarget(t)) else None
  {
    hide Plus, ReadReg, Less, SignedLess, SignExtend12, Isa.Offset12, Isa.Offset20, ClearBit0, Opcode,
         Isa.UpperImmediate, Shamt;
  }

  lemma TransferAgrees(a: Isa.Arch, i: Isa.Instr, ir: DecodedIr, t: Token)
    requires Implements(ir, i) && Operands(a.regs, ir, t.rs1Val, t.rs2Val) && t.ir == ir && ir.pc == a.pc
    ensures Isa.JumpTarget(a, i) == if Taken(t) then Some(ActualTarget(t)) else None
  {
    hide Plus, ReadReg, Less, SignedLess, SignExtend12, Isa.Offset12, Isa.Offset20, ClearBit0, Opcode,
         Isa.UpperImmediate, Shamt;
    hide Isa.Holds, BranchOf;
    BranchClass(i, ir);
    if i.Branch? {
      BranchAgrees(a, i, ir, t);
    }
  }

  /** What `t` holds after EXE has worked on the instruction that `a` is about to execute. */
  ghost predicate Executed(env: Isa.Env, a: Isa.Arch, mip: Word, t: Token) {
    var d, i := DecodeAt(env, a.pc), InstrAt(env, a.pc);
    && t.Alive() && !t.trapPending
    && t.ir.(illegal := d.illegal) == d
    && ExecutedFlags(a, i, t)
    && ExecutedAddress(a, i, t)
    && ExecutedResult(a, i, mip, d, t)
  }

  ghost predicate IllegalNow(i: Isa.Instr) {
    i.Illegal? || (i.Csr? && !Isa.CsrLegal(i.addr, Isa.CsrWrites(i.cop, i.src)))
  }

  ghost predicate MisalignedTarget(a: Isa.Arch, i: Isa.Instr) {
    var target := Isa.JumpTarget(a, i);
    target.Some? && Flag(target.value, 3)
  }

  ghost predicate ExecutedFlags(a: Isa.Arch, i: Isa.Instr, t: Token) {
    && (t.ir.illegal <==> IllegalNow(i))
    && (t.halt <==> MisalignedTarget(a, i))
    && t.haltKind == (if t.halt then HaltMisalignPc else HaltNone)
  }

  ghost predicate ExecutedAddress(a: Isa.Arch, i: Isa.Instr, t: Token) {
    && (Isa.IsMemory(i) ==> t.memAddr == Isa.DataAddress(a, i))
    && (i.Store? ==> t.rs2Val == ReadReg(a.regs, i.rs2))
  }

  ghost predicate ExecutedResult(a: Isa.Arch, i: Isa.Instr, mip: Word, d: DecodedIr, t: Token) {
    !i.Illegal? && !Isa.IsMemory(i) ==>
      && Isa.Result(a, i, mip, 0).0 == (if d.rdToWrite then d.rd else 0)
      && (d.rdToWrite ==> t.rdValue == Isa.Result(a, i, mip, 0).1)
  }

  lemma ExeOutFields(t: Token, c: CsrRegs, mip: Word, trap: bool)
    ensures var x := ExeOut(t, c, mip, trap);
      && x.valid == t.valid && x.killed == t.killed && x.trapPending == t.trapPending
      && x.epoch == t.epoch && x.seqId == t.seqId
      && x.rs2Val == t.rs2Val
      && x.ir == (if t.Alive() && t.ir.fu == FuCsr && !trap && CsrIllegal(t.ir.csrAddr, t.ir.csrWrites)
                  then t.ir.(illegal := true) else t.ir)
      && x.halt == (t.halt || (t.Alive() && Taken(t) && Flag(ActualTarget(t), 3)))
      && x.haltKind == (if t.Alive() && Taken(t) && Flag(ActualTarget(t), 3) then HaltMisalignPc else t.haltKind)
      && x.memAddr == (if t.ir.fu == FuBranch && IsJalr(t.ir) then ActualTarget(t) else AluResult(t))
      && x.rdValue == (if t.ir.fu == FuBranch then Plus(t.ir.pc, 4)
                       else if t.ir.fu == FuCsr then ReadCsr(c, mip, t.ir.csrAddr) else AluResult(t))
  {
    hide Plus, Flag, ReadCsr, AluResult, ActualTarget, Taken, CsrIllegal, Opcode;
  }

  lemma CsrClass(i: Isa.Instr, ir: DecodedIr)
    requires Implements(ir, i)
    ensures ir.fu == FuCsr <==> i.Csr?
    ensures i.Csr? ==> ir.csrAddr == i.addr && ir.csrWrites == Isa.CsrWrites(i.cop, i.src)
    ensures ir.illegal <==> i.Illegal?
  {
    hide SignExtend12, Shamt, Isa.Offset12, Isa.Offset20, Isa.UpperImmediate, Opcode, Isa.CsrWrites;
  }

  lemma MisalignedAgrees(a: Isa.Arch, i: Isa.Instr, t: Token)
    requires Implements(t.ir, i) && Operands(a.regs, t.ir, t.rs1Val, t.rs2Val) && t.ir.pc == a.pc
    ensures MisalignedTarget(a, i) <==> Taken(t) && Flag(ActualTarget(t), 3)
  {
    hide Flag, ActualTarget, Taken, Isa.JumpTarget, Operands, Implements;
    TransferAgrees(a, i, t.ir, t);
  }

  lemma IllegalAgrees(i: Isa.Instr, ir: DecodedIr)
    requires Implements(ir, i)
    ensures IllegalNow(i) <==> ir.illegal || (ir.fu == FuCsr && CsrIllegal(ir.csrAddr, ir.csrWrites))
  {
    hide CsrIllegal, Isa.CsrLegal, Isa.CsrWrites, Implements;
    CsrClass(i, ir);
    if i.Csr? {
      CsrLegality(i.addr, ir.csrWrites);
    }
  }

  lemma ExeFlags(a: Isa.Arch, i: Isa.Instr, t: Token, c: CsrRegs, mip: Word)
    requires Implements(t.ir, i) && Operands(a.regs, t.ir, t.rs1Val, t.rs2Val) && t.ir.pc == a.pc
    requires t.Alive() && !t.halt && t.haltKind == HaltNone
    ensures ExecutedFlags(a, i, ExeOut(t, c, mip, false))
  {
    hide Flag, ActualTarget, Taken, CsrIllegal, Operands, Implements, ExeOut, Plus, ReadCsr, AluResult, IsJalr,
         MisalignedTarget, IllegalNow;
    MisalignedAgrees(a, i, t);
    IllegalAgrees(i, t.ir);
    ExeOutFields(t, c, mip, false);
  }

  lemma ExeAddress(a: Isa.Arch, i: Isa.Instr, t: Token, c: CsrRegs, mip: Word)
    requires Implements(t.ir, i) && Operands(a.regs, t.ir, t.rs1Val, t.rs2Val)
    ensures ExecutedAddress(a, i, ExeOut(t, c, mip, false))
  {
    hide AluResult, Operands, Implements, Isa.DataAddress, ReadReg, ExeOut, Opcode;
    ExeOutFields(t, c, mip, false);
    if Isa.IsMemory(i) {
      AddressAgrees(a, i, t.ir, t);
    }
  }

  /** Which instructions write which register. */
  lemma ResultClass(a: Isa.Arch, i: Isa.Instr, ir: DecodedIr, mip: Word, word: Word)
    requires Implements(ir, i) && !i.Illegal?
    ensures Isa.Result(a, i, mip, word).0 == if ir.rdToWrite then ir.rd else 0
    ensures ir.fu == FuInt && ir.rdToWrite ==> i.Lui? || i.Auipc? || i.OpImm? || i.ShiftImm? || i.Op?
    ensures ir.fu == FuBranch && ir.rdToWrite ==> i.Jal? || i.Jalr?
    ensures ir.fu == FuLoad || ir.fu == FuStore <==> Isa.IsMemory(i)
    ensures ir.fu == FuSystem ==> !ir.rdToWrite
  {
    hide Plus, ReadReg, Isa.ReadCsr, Isa.RegResult, Isa.ImmResult, Isa.ShiftResult, Isa.UpperImmediate, Shamt,
         SignExtend12, Isa.Offset12, Isa.Offset20, Opcode, Isa.LoadResult, Isa.CsrWrites, Isa.DataAddress;
  }

  lemma ExeResult(a: Isa.Arch, i: Isa.Instr, t: Token, c: CsrRegs, mip: Word)
    requires Implements(t.ir, i) && Operands(a.regs, t.ir, t.rs1Val, t.rs2Val) && t.ir.pc == a.pc
    requires AbsCsrs(c) == a.csrs
    ensures ExecutedResult(a, i, mip, t.ir, ExeOut(t, c, mip, false))
  {
    hide Plus, ReadCsr, Isa.ReadCsr, AluResult, ActualTarget, Taken, Operands, AbsCsrs, Implements, ExeOut, Isa.Result, CsrIllegal;
    if !i.Illegal? && !Isa.IsMemory(i) {
      LinkOrCsr(a, i, mip);
      ResultClass(a, i, t.ir, mip, 0);
      CsrClass(i, t.ir);
      ExeOutFields(t, c, mip, false);
      CsrReadAgrees(c, mip, t.ir.csrAddr);
      if t.ir.fu == FuInt && t.ir.rdToWrite {
        AluAgrees(a, i, t, mip);
      }
    }
  }

  lemma LinkOrCsr(a: Isa.Arch, i: Isa.Instr, mip: Word)
    ensures i.Jal? || i.Jalr? ==> Isa.Result(a, i, mip, 0).1 == Plus(a.pc, 4)
    ensures i.Csr? ==> Isa.Result(a, i, mip, 0).1 == Isa.ReadCsr(a.csrs, mip, i.addr)
  {
    hide Plus, Isa.ReadCsr;
  }

  lemma AluAgrees(a: Isa.Arch, i: Isa.Instr, t: Token, mip: Word)
    requires Implements(t.ir, i) && Operands(a.regs, t.ir, t.rs1Val, t.rs2Val) && t.ir.pc == a.pc
    requires i.Lui? || i.Auipc? || i.OpImm? || i.ShiftImm? || i.Op?
    ensures AluResult(t) == Isa.Result(a, i, mip, 0).1
  {
    hide Operands, Implements, AluResult, Isa.Result;
    if i.Lui? || i.Auipc? {
      UpperAgrees(a, i, t.ir, t, mip);
    } else if i.OpImm? {
      AluImmAgrees(a, i, t.ir, t, mip);
    } else if i.ShiftImm? {
      AluShiftAgrees(a, i, t.ir, t, mip);
    } else {
      AluRegAgrees(a, i, t.ir, t, mip);
    }
  }

  lemma IllegalRestored(d: DecodedIr)
    ensures d.(illegal := d.illegal) == d
    ensures d.(illegal := true).(illegal := d.illegal) == d
  {}

  lemma IssuedFields(env: Isa.Env, a: Isa.Arch, t: Token)
    requires Issued(env, a, t)
    ensures t.ir == DecodeAt(env, a.pc) && t.Alive() && !t.halt && t.haltKind == HaltNone && !t.trapPending
    ensures Operands(a.regs, t.ir, t.rs1Val, t.rs2Val)
    ensures Implements(t.ir, InstrAt(env, a.pc)) && t.ir.pc == a.pc && Decoder.WellFormed(t.ir)
  {
    hide DecodeAt, InstrAt, Operands, Implements, Decoder.WellFormed;
    DecodedAt(env, a.pc);
  }

  lemma ExeKeepsIr(t: Token, c: CsrRegs, mip: Word)
    requires t.Alive() && !t.trapPending
    ensures var x := ExeOut(t, c, mip, false);
      x.Alive() && !x.trapPending && x.ir.(illegal := t.ir.illegal) == t.ir
  {
    hide CsrIllegal, ReadCsr, AluResult, ActualTarget, Taken, Flag, Plus, ExeOut, IsJalr;
    ExeOutFields(t, c, mip, false);
    IllegalRestored(t.ir);
  }

  /** EXE works on the instruction correctly, given the CSR state that `a` has. */
  lemma ExeExecutes(env: Isa.Env, a: Isa.Arch, t: Token, c: CsrRegs, mip: Word)
    requires Issued(env, a, t) && AbsCsrs(c) == a.csrs
    ensures Executed(env, a, mip, ExeOut(t, c, mip, false))
  {
    hide DecodeAt, InstrAt, AbsCsrs, Operands, ExecutedFlags, ExecutedAddress, ExecutedResult, Implements, ExeOut,
         Issued;
    IssuedFields(env, a, t);
    ExeKeepsIr(t, c, mip);
    ExeFlags(a, InstrAt(env, a.pc), t, c, mip);
    ExeAddress(a, InstrAt(env, a.pc), t, c, mip);
    ExeResult(a, InstrAt(env, a.pc), t, c, mip);
  }

  // ---- EXE's effect on the CSRs and on the fetch stream ---------------------------------------

  lemma CsrSourceAgrees(a: Isa.Arch, i: Isa.Instr, t: Token)
    requires Implements(t.ir, i) && Operands(a.regs, t.ir, t.rs1Val, t.rs2Val) && i.Csr?
    ensures CsrSource(t) == Isa.CsrOperand(a, i.src)
    ensures t.ir.sysKind == SysOfCsr(i.cop)
  {
    hide ReadReg, SignExtend12, Isa.Offset12, Isa.Offset20, Opcode, Isa.UpperImmediate, Shamt;
  }

  lemma CsrNewAgrees(cop: Isa.CsrOp, before: Word, source: Word)
    ensures CsrNew(SysOfCsr(cop), before, source) == Isa.CsrUpdate(cop, before, source)
  {
    hide BitOr, BitClear;
  }

  lemma MretKeepsTheRest(c: CsrRegs)
    ensures c.(mstatus := LeaveTrap(c).mstatus) == LeaveTrap(c)
  {}

  /** CSR writes and MRET have their architectural effect, unless the instruction is illegal. */
  lemma ExeCsrs(env: Isa.Env, a: Isa.Arch, t: Token, c: CsrRegs, mip: Word)
    requires Issued(env, a, t) && AbsCsrs(c) == a.csrs
    requires !IllegalNow(InstrAt(env, a.pc))
    ensures AbsCsrs(CsrsAfterExe(t, c, mip)) == Isa.CsrsAfter(a, InstrAt(env, a.pc), mip)
  {
    hide DecodeAt, InstrAt, AbsCsrs, Operands, Implements, Issued, CsrNew, Isa.CsrUpdate, ReadCsr, Isa.ReadCsr, WriteCsr,
         Isa.WriteCsr, CsrSource, Isa.CsrOperand, CsrIllegal, Isa.CsrLegal, LeaveTrap, Isa.LeaveTrap, SysOfCsr,
         Isa.CsrWrites;
    var i := InstrAt(env, a.pc);
    IssuedFields(env, a, t);
    CsrClass(i, t.ir);
    BranchClass(i, t.ir);
    if i.Csr? {
      CsrSourceAgrees(a, i, t);
      CsrLegality(i.addr, t.ir.csrWrites);
      CsrReadAgrees(c, mip, i.addr);
      var v := CsrNew(t.ir.sysKind, ReadCsr(c, mip, i.addr), CsrSource(t));
      CsrNewAgrees(i.cop, ReadCsr(c, mip, i.addr), CsrSource(t));
      CsrWriteAgrees(c, i.addr, v);
    } else if i.Mret? {
      MretKeepsTheRest(c);
      TrapReturnAgrees(c);
    }
  }

  predicate MretFields(w: Word) {
    Opcode(w) == OPCODE_SYSTEM && Funct3(w) == 0 && Funct12(w) == FUNCT12_MRET
  }

  /** EXE returns from a trap on exactly the words with the function fields of MRET. If their register
      fields are not both zero they are illegal, and halt in MEM; the sequential machine changes no CSR
      on them, but EXE has redirected and restored mstatus. */
  lemma StrayMret(pc: Word, w: Word, busError: bool, a: Isa.Arch, t: Token, c: CsrRegs, mip: Word)
    requires t.Alive() && t.ir == Decoder.Decode(pc, w, busError)
    ensures t.ir.sysKind == SysMret <==> MretFields(w)
    ensures MretFields(w) ==>
      && Transfers(t) && TransferTarget(t, c) == MepcOut(c)
      && AbsCsrs(CsrsAfterExe(t, c, mip)) == Isa.LeaveTrap(AbsCsrs(c))
      && (Isa.Decode(w).Illegal? <==> Rs1(w) != 0 || Rd(w) != 0)
    ensures MretFields(w) && Isa.Decode(w).Illegal? ==> PreHalt(t) && Isa.CsrsAfter(a, Isa.Decode(w), mip) == a.csrs
  {
    hide AbsCsrs, LeaveTrap, Isa.LeaveTrap, Taken, ReadCsr, WriteCsr, CsrNew, CsrIllegal, Decoder.Decode, Isa.Decode, MretFields,
         MemMisaligned;
    MretInCore(pc, w, busError);
    if MretFields(w) {
      MretInIsa(w);
    }
    MretKeepsTheRest(c);
    TrapReturnAgrees(c);
  }

  lemma MretInCore(pc: Word, w: Word, busError: bool)
    ensures Decoder.Decode(pc, w, busError).sysKind == SysMret <==> MretFields(w)
    ensures MretFields(w) ==> Decoder.Decode(pc, w, busError).fu == FuSystem
    ensures MretFields(w) ==> (Decoder.Decode(pc, w, busError).illegal <==> Rs1(w) != 0 || Rd(w) != 0)
  {
  }

  lemma MretInIsa(w: Word)
    requires MretFields(w)
    ensures Isa.Decode(w) == if Rs1(w) != 0 || Rd(w) != 0 then Isa.Illegal(Isa.NoJump) else Isa.Mret
  {
    hide Rs1, Rs2, Rd, Funct12, Funct3, Funct7, Opcode;
  }

  /** Without a trap or a halt, EXE redirects to the architectural successor, or the successor is
      the next word. */
  lemma ExeNextPc(env: Isa.Env, a: Isa.Arch, t: Token, c: CsrRegs)
    requires Issued(env, a, t) && AbsCsrs(c) == a.csrs
    requires !InstrAt(env, a.pc).Illegal?
    ensures Isa.NextPc(a, InstrAt(env, a.pc)) == if Transfers(t) then TransferTarget(t, c) else Plus(a.pc, 4)
  {
    hide DecodeAt, InstrAt, Operands, Implements, Issued, Plus, Isa.JumpTarget, Taken, ActualTarget, AlignDown, Flag;
    var i := InstrAt(env, a.pc);
    IssuedFields(env, a, t);
    BranchClass(i, t.ir);
    TransferAgrees(a, i, t.ir, t);
  }

  // ---- the data port -----------------------------------------------------------------------------

  function LaneMask(be: bv4): Word {
    (if be & 1 != 0 then 0xff else 0) | (if be & 2 != 0 then 0xff00 else 0) |
    (if be & 4 != 0 then 0xff_0000 else 0) | (if be & 8 != 0 then 0xff00_0000 else 0)
  }

  /** What the bus sees of an accepted request: data lanes that are not enabled do not count. */
  function EventOf(req: MemReq): Isa.BusEvent {
    if req.we then Isa.BusWrite(req.addr, req.be, Keep(req.wdata, LaneMask(req.be))) else Isa.BusRead(req.addr, req.be)
  }

  function WidthOf(len: MemLen): Word { match len case Len1 => 1 case Len2 => 2 case Len4 => 4 }

  lemma LanesAgree(addr: Word, len: MemLen)
    ensures LsuBe(addr, len) == Isa.Lanes(addr, WidthOf(len))
  {}

  lemma AlignmentAgrees(addr: Word, len: MemLen)
    ensures LsuMisaligned(addr, len) == Isa.Misaligned(addr, WidthOf(len))
  {
    match len
    case Len1 => assert addr & 0 == 0;
    case Len2 =>
    case Len4 =>
  }

  lemma LaneMasks()
    ensures LaneMask(1) == 0xff && LaneMask(2) == 0xff00 && LaneMask(4) == 0xff_0000 && LaneMask(8) == 0xff00_0000
    ensures LaneMask(3) == 0xffff && LaneMask(0xc) == 0xffff_0000
    ensures LaneMask(0xf) == 0xffff_ffff
  {}

  lemma LowHalf(v: Word)
    ensures Keep(v & 0xffff, 0xffff) == v & 0xffff
  {}

  lemma HighHalf(v: Word)
    ensures Keep(ShiftLeft(v & 0xffff, 16), 0xffff_0000) == v << 16
  {}

  lemma Lane0(v: Word)
    ensures Keep(Replicate(v), 0xff) == v & 0xff
  {}

  lemma Lane1(v: Word)
    ensures Keep(ShiftLeft(Replicate(v), 8), 0xff00) == (v & 0xff) << 8
  {}

  lemma Lane2(v: Word)
    ensures Keep(ShiftLeft(Replicate(v), 16), 0xff_0000) == (v & 0xff) << 16
  {}

  lemma Lane3(v: Word)
    ensures Keep(ShiftLeft(Replicate(v), 24), 0xff00_0000) == v << 24
  {}

  lemma StoreByteAgrees(addr: Word, v: Word)
    ensures Keep(LsuWdata(addr, v, Len1), LaneMask(LsuBe(addr, Len1))) == Isa.ToLanes(addr, 1, v)
  {
    hide LaneMask, Keep, Replicate, ShiftLeft;
    LaneMasks();
    if addr & 3 == 0 {
      Lane0(v);
    } else if addr & 3 == 1 {
      Lane1(v);
    } else if addr & 3 == 2 {
      Lane2(v);
    } else {
      Lane3(v);
    }
  }

  lemma StoreHalfAgrees(addr: Word, v: Word)
    ensures Keep(LsuWdata(addr, v, Len2), LaneMask(LsuBe(addr, Len2))) == Isa.ToLanes(addr, 2, v)
  {
    hide LaneMask, Keep, ShiftLeft;
    LaneMasks();
    LowHalf(v);
    HighHalf(v);
  }

  lemma KeepAll(v: Word)
    ensures Keep(v, 0xffff_ffff) == v
  {}

  lemma StoreLanesAgree(addr: Word, v: Word, len: MemLen)
    ensures Keep(LsuWdata(addr, v, len), LaneMask(LsuBe(addr, len))) == Isa.ToLanes(addr, WidthOf(len), v)
  {
    hide LaneMask, Keep;
    match len
    case Len1 => StoreByteAgrees(addr, v);
    case Len2 => StoreHalfAgrees(addr, v);
    case Len4 =>
      LaneMasks();
      KeepAll(v);
  }

  lemma SignFills(v: Word)
    ensures v < 0x100 ==> SignFillByte(v) == Isa.SignExtend(v, 0x80)
    ensures v < 0x1_0000 ==> SignFillHalf(v) == Isa.SignExtend(v, 0x8000)
  {}

  lemma LanesExtracted(addr: Word, word: Word)
    ensures LoadByte(addr, word) == Isa.FromLanes(addr, 1, word)
    ensures LoadHalf(addr, word) == Isa.FromLanes(addr, 2, word)
  {}

  lemma ExtractedBounds(addr: Word, word: Word)
    ensures LoadByte(addr, word) < 0x100
    ensures LoadHalf(addr, word) < 0x1_0000
  {}

  lemma LoadAgrees(lk: Isa.LoadKind, addr: Word, word: Word)
    ensures LoadValue(addr, word, LenOfLoad(lk), lk != Isa.Lbu && lk != Isa.Lhu) == Isa.LoadResult(lk, addr, word)
  {
    hide LoadByte, LoadHalf, Isa.SignExtend, SignFillByte, SignFillHalf;
    ExtractedBounds(addr, word);
    LanesExtracted(addr, word);
    SignFills(LoadByte(addr, word));
    SignFills(LoadHalf(addr, word));
  }

  // ---- what MEM decides -------------------------------------------------------------------------

  function EarlyAt(env: Isa.Env, a: Isa.Arch): HaltKind {
    Isa.EarlyHalt(a, InstrAt(env, a.pc), env.code(a.pc).error)
  }

  lemma SameButIllegal(ir: DecodedIr, d: DecodedIr)
    requires ir.(illegal := d.illegal) == d
    ensures ir.fu == d.fu && ir.sysKind == d.sysKind && ir.memLen == d.memLen && ir.loadSignext == d.loadSignext
    ensures ir.rd == d.rd && ir.rdToWrite == d.rdToWrite && ir.pc == d.pc && ir.ifBusError == d.ifBusError
  {}

  lemma MemClass(i: Isa.Instr, ir: DecodedIr)
    requires Implements(ir, i) && !i.Illegal?
    ensures IsMem(ir) == Isa.IsMemory(i)
    ensures IsStore(ir) == i.Store?
    ensures (ir.sysKind == SysEbreak) == i.Ebreak?
    ensures (ir.sysKind == SysEcall) == i.Ecall?
    ensures i.Load? ==> ir.memLen == LenOfLoad(i.lk) && ir.loadSignext == (i.lk != Isa.Lbu && i.lk != Isa.Lhu)
    ensures i.Store? ==> ir.memLen == LenOfStore(i.sk) && !ir.rdToWrite
    ensures Isa.IsMemory(i) ==> WidthOf(ir.memLen) == Isa.Width(i)
  {
    hide SignExtend12, Isa.Offset12, Isa.Offset20, Opcode, Isa.UpperImmediate, Shamt, Isa.CsrWrites;
  }

  /** The fields of an executed token that MEM looks at. */
  lemma ExecutedFields(env: Isa.Env, a: Isa.Arch, mip: Word, t: Token)
    requires Executed(env, a, mip, t)
    ensures t.Alive() && !t.trapPending && t.ir.pc == a.pc
    ensures t.ir.ifBusError == env.code(a.pc).error
    ensures (t.ir.illegal <==> IllegalNow(InstrAt(env, a.pc)))
    ensures (t.halt <==> MisalignedTarget(a, InstrAt(env, a.pc)))
    ensures t.haltKind == (if t.halt then HaltMisalignPc else HaltNone)
    ensures var i := InstrAt(env, a.pc); !i.Illegal? ==>
      && IsMem(t.ir) == Isa.IsMemory(i) && IsStore(t.ir) == i.Store?
      && (t.ir.sysKind == SysEbreak) == i.Ebreak? && (t.ir.sysKind == SysEcall) == i.Ecall?
      && (Isa.IsMemory(i) ==> WidthOf(t.ir.memLen) == Isa.Width(i) && t.memAddr == Isa.DataAddress(a, i))
  {
    hide DecodeAt, InstrAt, Implements, IllegalNow, MisalignedTarget, Decoder.WellFormed, Isa.DataAddress, ReadReg,
         Isa.Result;
    DecodedAt(env, a.pc);
    SameButIllegal(t.ir, DecodeAt(env, a.pc));
    if !InstrAt(env, a.pc).Illegal? {
      MemClass(InstrAt(env, a.pc), DecodeAt(env, a.pc));
    }
  }

  /** MEM halts an instruction before any memory access exactly when the machine does. */
  lemma MemPreHalt(env: Isa.Env, a: Isa.Arch, mip: Word, t: Token)
    requires Executed(env, a, mip, t)
    ensures PreHalt(t) <==> EarlyAt(env, a) != HaltNone
    ensures PreHalt(t) ==> PreHaltKind(t) == EarlyAt(env, a)
  {
    hide InstrAt, Executed, LsuMisaligned, Isa.Misaligned, Isa.JumpTarget, Flag, Isa.DataAddress, Isa.CsrLegal,
         Isa.CsrWrites, WidthOf, Isa.Width;
    ExecutedFields(env, a, mip, t);
    AlignmentAgrees(t.memAddr, t.ir.memLen);
  }

  lemma MemOutFields(t: Token, c: CsrRegs, mip: Word, lastTrap: bool, reqSent: bool, resp: MemResp)
    requires t.Alive() && !t.trapPending
    ensures var x := MemOut(t, c, mip, lastTrap, reqSent, resp);
      var trap := TakeTrap(t, c, mip, lastTrap);
      var stop := TakeHalt(t, c, mip, lastTrap);
      var busError := IsMem(t.ir) && reqSent && resp.valid && resp.error;
      && x.Alive() && x.ir == t.ir && x.epoch == t.epoch && x.seqId == t.seqId
      && x.storeStrb == LsuBe(t.memAddr, t.ir.memLen) && x.storeData == t.rs2Val && x.storeAddr == t.memAddr
      && x.rdValue == (if IsLoad(t.ir) && resp.valid
                       then LoadValue(t.memAddr, resp.rdata, t.ir.memLen, t.ir.loadSignext) else t.rdValue)
      && x.trapPending == trap
      && (trap ==> x.trapCause == TrapCause(c, mip) && x.trapTval == 0)
      && x.halt == (t.halt || stop || busError)
      && x.haltKind == (if busError then (if IsStore(t.ir) then HaltBusErrorSt else HaltBusErrorLd)
                        else if stop then (if DoubleTrap(t, c, mip, lastTrap) then HaltDoubleTrap else PreHaltKind(t))
                        else t.haltKind)
  {
    hide LsuBe, LoadValue, TakeTrap, TakeHalt, TrapCause, DoubleTrap, PreHaltKind;
  }

  /** What a monitor reads off a commit packet: fields that are not flagged valid do not count. */
  function Observe(p: CommitPacket): Isa.Commit {
    Isa.Commit(p.pc, p.rd, p.rdValue,
               if p.storeValid then Isa.StoreEffect(p.storeAddr, p.storeData, p.storeStrb) else Isa.NoStore,
               if p.haltObserved then Isa.Halt(p.haltKind, p.haltExitCode) else Isa.Running,
               if p.trapTaken then Isa.Trap(p.trapCause, p.trapMepc, p.trapMtval) else Isa.NoTrap)
  }

  /** `x` leaves MEM with all that the step of `a` does to the registers and reports. */
  ghost predicate Finished(env: Isa.Env, a: Isa.Arch, s: Isa.Sample, x: Token) {
    var next := Isa.Step(env, a, s);
    && x.Alive()
    && x.ir.pc == a.pc && x.ir.rd == DecodeAt(env, a.pc).rd && x.ir.rdToWrite == DecodeAt(env, a.pc).rdToWrite
    && Observe(Packet(x, a.regs[10])) == Isa.Report(env, a, s)
    && x.halt == next.halted
    && (!x.halt ==> x.trapPending == next.lastTrap)
    && next.regs == (if RfWe(x) then WriteReg(a.regs, x.ir.rd, x.rdValue) else a.regs)
  }

  /** Everything that holds around MEM while it works on the instruction that `a` is about to
      execute. `mipRead` is what EXE saw of the interrupt wires. */
  ghost predicate AtMem(env: Isa.Env, a: Isa.Arch, t: Token, c: CsrRegs, mipRead: Word, mip: Word,
                        lastTrap: bool, reqSent: bool, resp: MemResp)
  {
    var i := InstrAt(env, a.pc);
    && !a.halted
    && Executed(env, a, mipRead, t)
    && (EarlyAt(env, a) == HaltNone ==> AbsCsrs(c) == Isa.CsrsAfter(a, i, mipRead))
    && (TrapWanted(t, c, mip) && a.pc == MtvecBase(c) ==> lastTrap == a.lastTrap)
    && (reqSent ==>
          && EarlyAt(env, a) == HaltNone && Isa.IsMemory(i)
          && (resp.valid ==> Isa.Reply(resp.rdata, resp.error) == env.reply(a.bus + [Isa.Transaction(a, i)])))
  }

  function SampleOf(mipRead: Word, mip: Word, reqSent: bool, resp: MemResp): Isa.Sample {
    Isa.Sample(mipRead, mip, reqSent, resp.valid)
  }

  /** Which of its outcomes the machine has, in terms of MEM's signals. */
  lemma MemOutcome(env: Isa.Env, a: Isa.Arch, t: Token, c: CsrRegs, mipRead: Word, mip: Word,
                   lastTrap: bool, reqSent: bool, resp: MemResp)
    requires AtMem(env, a, t, c, mipRead, mip, lastTrap, reqSent, resp)
    ensures var i, early := InstrAt(env, a.pc), EarlyAt(env, a);
      var from := Isa.CsrsAfter(a, i, mipRead);
      var s := SampleOf(mipRead, mip, reqSent, resp);
      && t.Alive() && (PreHalt(t) <==> early != HaltNone)
      && (early == HaltNone ==>
            && from == AbsCsrs(c)
            && Isa.PendingInterrupt(from, mip) ==
               (if AsyncCause(c, mip) == 0 then None else Some(AsyncCause(c, mip)))
            && (TrapWanted(t, c, mip) <==> AsyncCause(c, mip) != 0 || i.Ecall?)
            && (TrapWanted(t, c, mip) ==> (DoubleTrap(t, c, mip, lastTrap) <==> Isa.DoubleTrap(a, from))))
  {
    hide InstrAt, Executed, Isa.CsrsAfter, AsyncCause, Isa.PendingInterrupt, EarlyAt, PreHaltKind;
    ExecutedFields(env, a, mipRead, t);
    MemPreHalt(env, a, mipRead, t);
    InterruptAgrees(c, mip);
    if EarlyAt(env, a) == HaltNone {
      NoEarlyHaltLegal(env, a);
    }
  }

  lemma NoEarlyHaltLegal(env: Isa.Env, a: Isa.Arch)
    requires EarlyAt(env, a) == HaltNone
    ensures !InstrAt(env, a.pc).Illegal? && !InstrAt(env, a.pc).Ebreak? && !IllegalNow(InstrAt(env, a.pc))
    ensures !MisalignedTarget(a, InstrAt(env, a.pc)) && !env.code(a.pc).error
    ensures Isa.IsMemory(InstrAt(env, a.pc)) ==>
      !Isa.Misaligned(Isa.DataAddress(a, InstrAt(env, a.pc)), Isa.Width(InstrAt(env, a.pc)))
  {
    hide InstrAt, Isa.JumpTarget, Flag, Isa.DataAddress, Isa.CsrLegal, Isa.CsrWrites, Isa.Width, Isa.Misaligned;
  }

  /** A halt before any memory access. */
  lemma FinishesEarly(env: Isa.Env, a: Isa.Arch, t: Token, c: CsrRegs, mipRead: Word, mip: Word,
                      lastTrap: bool, reqSent: bool, resp: MemResp)
    requires AtMem(env, a, t, c, mipRead, mip, lastTrap, reqSent, resp) && EarlyAt(env, a) != HaltNone
    ensures !Accesses(t, c, mip, lastTrap) && !TakeTrap(t, c, mip, lastTrap)
    ensures Finished(env, a, SampleOf(mipRead, mip, reqSent, resp), MemOut(t, c, mip, lastTrap, reqSent, resp))
  {
    hide Isa.Decode, DecodeAt, Executed, Isa.CsrsAfter, AsyncCause, Isa.PendingInterrupt, Isa.EarlyHalt, PreHaltKind,
         PreHalt, MemOut, HaltExitCode, LsuBe, LoadValue, Isa.Transaction;
    MemOutcome(env, a, t, c, mipRead, mip, lastTrap, reqSent, resp);
    MemPreHalt(env, a, mipRead, t);
    TokenOfInstr(env, a, mipRead, t);
    MemOutFields(t, c, mip, lastTrap, reqSent, resp);
  }

  lemma TokenOfInstr(env: Isa.Env, a: Isa.Arch, mip: Word, t: Token)
    requires Executed(env, a, mip, t)
    ensures t.Alive() && !t.trapPending && t.ir.pc == a.pc
    ensures t.ir.rd == DecodeAt(env, a.pc).rd && t.ir.rdToWrite == DecodeAt(env, a.pc).rdToWrite
  {
    hide DecodeAt, InstrAt, Implements, Decoder.WellFormed, ExecutedFlags, ExecutedAddress, ExecutedResult;
    DecodedAt(env, a.pc);
    SameButIllegal(t.ir, DecodeAt(env, a.pc));
  }

  /** The request that an interrupted access had sent has been answered by an error. */
  predicate AnswerFails(env: Isa.Env, a: Isa.Arch, i: Isa.Instr, s: Isa.Sample) {
    Isa.IsMemory(i) && s.sent && s.answered && env.reply(a.bus + [Isa.Transaction(a, i)]).error
  }

  /** What is reported of an instruction that is to trap. */
  function TrapReport(a: Isa.Arch, i: Isa.Instr, failed: bool, double: bool, cause: Word): Isa.Commit {
    Isa.Commit(a.pc, 0, 0, Isa.NoStore,
               if failed then Isa.Halt(Isa.BusErrorKind(i), HaltExitCode(Isa.BusErrorKind(i), a.regs[10]))
               else if double then Isa.Halt(HaltDoubleTrap, HaltExitCode(HaltDoubleTrap, a.regs[10])) else Isa.Running,
               if double then Isa.NoTrap else Isa.Trap(cause, a.pc, 0))
  }

  predicate Wants(env: Isa.Env, a: Isa.Arch, s: Isa.Sample) {
    var i := InstrAt(env, a.pc);
    Isa.PendingInterrupt(Isa.CsrsAfter(a, i, s.mipRead), s.mipTake).Some? || i.Ecall?
  }

  /** The sequential machine's step for an ECALL, or for an instruction that meets an interrupt. */
  lemma WantedStep(env: Isa.Env, a: Isa.Arch, s: Isa.Sample)
    requires !a.halted && EarlyAt(env, a) == HaltNone && Wants(env, a, s)
    ensures var i, next := InstrAt(env, a.pc), Isa.Step(env, a, s);
      var from := Isa.CsrsAfter(a, i, s.mipRead);
      var interrupt := Isa.PendingInterrupt(from, s.mipTake);
      var double, failed := Isa.DoubleTrap(a, from), AnswerFails(env, a, i, s);
      && next.regs == a.regs
      && next.halted == (failed || double)
      && (!next.halted ==> next.lastTrap)
      && Isa.Report(env, a, s) ==
         TrapReport(a, i, failed, double, if interrupt.Some? then interrupt.value else 11)
  {
    hide Isa.Decode, Isa.EarlyHalt, Isa.CsrsAfter, Isa.PendingInterrupt, Isa.Transaction, HaltExitCode, Isa.DoubleTrap,
         Isa.EnterTrap, Isa.Perform;
  }

  /** An ECALL or an interrupt that is taken, or is one too many on the first instruction of a handler. */
  lemma FinishesInTrap(env: Isa.Env, a: Isa.Arch, t: Token, c: CsrRegs, mipRead: Word, mip: Word,
                       lastTrap: bool, reqSent: bool, resp: MemResp)
    requires AtMem(env, a, t, c, mipRead, mip, lastTrap, reqSent, resp)
    requires TrapWanted(t, c, mip)
    ensures !Accesses(t, c, mip, lastTrap)
    ensures Finished(env, a, SampleOf(mipRead, mip, reqSent, resp), MemOut(t, c, mip, lastTrap, reqSent, resp))
  {
    hide InstrAt, DecodeAt, Executed, Isa.CsrsAfter, AsyncCause, Isa.PendingInterrupt, EarlyAt, PreHaltKind,
         PreHalt, MemOut, HaltExitCode, LsuBe, LoadValue, Isa.Transaction, IllegalNow, MisalignedTarget, WidthOf, Isa.Width,
         Isa.DataAddress, AbsCsrs, Isa.Step, Isa.Report, Isa.DoubleTrap;
    MemOutcome(env, a, t, c, mipRead, mip, lastTrap, reqSent, resp);
    MemPreHalt(env, a, mipRead, t);
    TokenOfInstr(env, a, mipRead, t);
    ExecutedFields(env, a, mipRead, t);
    NoEarlyHaltLegal(env, a);
    MemOutFields(t, c, mip, lastTrap, reqSent, resp);
    WantedStep(env, a, SampleOf(mipRead, mip, reqSent, resp));
  }

  lemma PlainResult(env: Isa.Env, a: Isa.Arch, mip: Word, t: Token)
    requires Executed(env, a, mip, t)
    ensures var i := InstrAt(env, a.pc); !i.Illegal? && !Isa.IsMemory(i) ==>
      && Isa.Result(a, i, mip, 0).0 == (if t.ir.rdToWrite then t.ir.rd else 0)
      && (t.ir.rdToWrite ==> t.rdValue == Isa.Result(a, i, mip, 0).1)
  {
    hide DecodeAt, InstrAt, ExecutedFlags, ExecutedAddress, Isa.Result;
    SameButIllegal(t.ir, DecodeAt(env, a.pc));
  }

  /** The sequential machine's step for an instruction that neither halts, traps nor accesses memory. */
  lemma PlainStep(env: Isa.Env, a: Isa.Arch, s: Isa.Sample)
    requires !a.halted && EarlyAt(env, a) == HaltNone && !Wants(env, a, s) && !Isa.IsMemory(InstrAt(env, a.pc))
    ensures var next, r := Isa.Step(env, a, s), Isa.Result(a, InstrAt(env, a.pc), s.mipRead, 0);
      && !next.halted && !next.lastTrap && next.regs == WriteReg(a.regs, r.0, r.1)
      && Isa.Report(env, a, s) == Isa.Commit(a.pc, r.0, if r.0 == 0 then 0 else r.1, Isa.NoStore, Isa.Running, Isa.NoTrap)
  {
    hide Isa.Decode, Isa.EarlyHalt, Isa.CsrsAfter, Isa.PendingInterrupt, Isa.Transaction, HaltExitCode, Isa.DoubleTrap,
         Isa.EnterTrap, Isa.Result, Isa.NextPc;
  }

  /** An instruction that neither halts, traps nor accesses memory. */
  lemma FinishesPlainly(env: Isa.Env, a: Isa.Arch, t: Token, c: CsrRegs, mipRead: Word, mip: Word,
                        lastTrap: bool, reqSent: bool, resp: MemResp)
    requires AtMem(env, a, t, c, mipRead, mip, lastTrap, reqSent, resp)
    requires EarlyAt(env, a) == HaltNone && !TrapWanted(t, c, mip) && !IsMem(t.ir)
    ensures Finished(env, a, SampleOf(mipRead, mip, reqSent, resp), MemOut(t, c, mip, lastTrap, reqSent, resp))
  {
    hide Isa.Decode, DecodeAt, Isa.CsrsAfter, AsyncCause, Isa.PendingInterrupt, Isa.EarlyHalt, PreHaltKind,
         PreHalt, MemOut, HaltExitCode, LsuBe, LoadValue, Isa.Transaction, TrapCause, IllegalNow, MisalignedTarget,
         WidthOf, Isa.Width, Isa.DataAddress, AbsCsrs, Executed, Isa.Result, Isa.NextPc, Isa.Step, Isa.Report;
    MemOutcome(env, a, t, c, mipRead, mip, lastTrap, reqSent, resp);
    MemPreHalt(env, a, mipRead, t);
    TokenOfInstr(env, a, mipRead, t);
    ExecutedFields(env, a, mipRead, t);
    PlainResult(env, a, mipRead, t);
    MemOutFields(t, c, mip, lastTrap, reqSent, resp);
    NoEarlyHaltLegal(env, a);
    PlainStep(env, a, SampleOf(mipRead, mip, reqSent, resp));
  }

  /** The bus transaction of the instruction is the one that MEM requests. */
  lemma RequestAgrees(env: Isa.Env, a: Isa.Arch, t: Token, c: CsrRegs, mipRead: Word, mip: Word,
                      lastTrap: bool, reqSent: bool)
    requires Executed(env, a, mipRead, t) && EarlyAt(env, a) == HaltNone
    requires DmemReq(t, c, mip, lastTrap, reqSent).valid
    ensures Isa.IsMemory(InstrAt(env, a.pc))
    ensures EventOf(DmemReq(t, c, mip, lastTrap, reqSent)) == Isa.Transaction(a, InstrAt(env, a.pc))
  {
    hide InstrAt, Executed, Isa.CsrsAfter, AsyncCause, EarlyAt, PreHalt, LsuBe, LsuWdata, LaneMask, Keep, Isa.Lanes,
         Isa.ToLanes, IllegalNow, MisalignedTarget, WidthOf, Isa.Width, Isa.DataAddress, ReadReg;
    ExecutedFields(env, a, mipRead, t);
    NoEarlyHaltLegal(env, a);
    StoreValueOf(env, a, mipRead, t);
    LanesAgree(t.memAddr, t.ir.memLen);
    StoreLanesAgree(t.memAddr, t.rs2Val, t.ir.memLen);
  }

  lemma StoreValueOf(env: Isa.Env, a: Isa.Arch, mip: Word, t: Token)
    requires Executed(env, a, mip, t)
    ensures InstrAt(env, a.pc).Store? ==> t.rs2Val == ReadReg(a.regs, InstrAt(env, a.pc).rs2)
  {
    hide DecodeAt, InstrAt, ExecutedFlags, ExecutedResult, Isa.DataAddress, ReadReg;
  }

  lemma LoadedValue(env: Isa.Env, a: Isa.Arch, mip: Word, t: Token, word: Word)
    requires Executed(env, a, mip, t) && Isa.IsMemory(InstrAt(env, a.pc))
    ensures var i := InstrAt(env, a.pc);
      && Isa.Result(a, i, mip, word).0 == (if t.ir.rdToWrite then t.ir.rd else 0)
      && IsLoad(t.ir) == i.Load? && IsStore(t.ir) == i.Store?
      && (i.Load? ==> Isa.Result(a, i, mip, word).1 == LoadValue(t.memAddr, word, t.ir.memLen, t.ir.loadSignext))
      && (i.Store? ==> !t.ir.rdToWrite)
  {
    hide DecodeAt, InstrAt, Implements, Decoder.WellFormed, ExecutedFlags, ExecutedResult, Isa.DataAddress, ReadReg,
         LoadValue, Isa.LoadResult;
    DecodedAt(env, a.pc);
    SameButIllegal(t.ir, DecodeAt(env, a.pc));
    MemClass(InstrAt(env, a.pc), DecodeAt(env, a.pc));
    ResultClass(a, InstrAt(env, a.pc), DecodeAt(env, a.pc), mip, word);
    if InstrAt(env, a.pc).Load? {
      LoadAgrees(InstrAt(env, a.pc).lk, t.memAddr, word);
    }
  }

  /** The sequential machine's step for a load or store that no interrupt meets. */
  lemma AccessStep(env: Isa.Env, a: Isa.Arch, s: Isa.Sample)
    requires !a.halted && EarlyAt(env, a) == HaltNone && Isa.IsMemory(InstrAt(env, a.pc))
    requires Isa.PendingInterrupt(Isa.CsrsAfter(a, InstrAt(env, a.pc), s.mipRead), s.mipTake) == None
    ensures var i, next, report := InstrAt(env, a.pc), Isa.Step(env, a, s), Isa.Report(env, a, s);
      var reply := env.reply(a.bus + [Isa.Transaction(a, i)]);
      var (rd, v) := Isa.Result(a, i, s.mipRead, reply.rdata);
      var addr := Isa.DataAddress(a, i);
      && !next.lastTrap
      && next.halted == reply.error
      && next.regs == (if reply.error then a.regs else WriteReg(a.regs, rd, v))
      && report == if reply.error then
           Isa.Commit(a.pc, 0, 0, Isa.NoStore,
                      Isa.Halt(Isa.BusErrorKind(i), HaltExitCode(Isa.BusErrorKind(i), a.regs[10])), Isa.NoTrap)
         else
           Isa.Commit(a.pc, rd, if rd == 0 then 0 else v,
                      if i.Store? then Isa.StoreEffect(addr, ReadReg(a.regs, i.rs2), Isa.Lanes(addr, Isa.Width(i)))
                      else Isa.NoStore,
                      Isa.Running, Isa.NoTrap)
  {
    hide Isa.Decode, Isa.EarlyHalt, Isa.CsrsAfter, Isa.PendingInterrupt, Isa.Transaction, Isa.Result, Isa.Width,
         Isa.DataAddress, Isa.Lanes, HaltExitCode, ReadReg, WriteReg;
  }

  /** A load or store whose response has arrived. */
  lemma FinishesAccess(env: Isa.Env, a: Isa.Arch, t: Token, c: CsrRegs, mipRead: Word, mip: Word,
                       lastTrap: bool, reqSent: bool, resp: MemResp)
    requires AtMem(env, a, t, c, mipRead, mip, lastTrap, reqSent, resp)
    requires Accesses(t, c, mip, lastTrap) && reqSent && resp.valid
    ensures Finished(env, a, SampleOf(mipRead, mip, reqSent, resp), MemOut(t, c, mip, lastTrap, reqSent, resp))
  {
    hide InstrAt, DecodeAt, Executed, Isa.CsrsAfter, AsyncCause, Isa.PendingInterrupt, EarlyAt, PreHaltKind,
         PreHalt, MemOut, HaltExitCode, LsuBe, LoadValue, Isa.Transaction, TrapCause, IllegalNow, MisalignedTarget,
         WidthOf, Isa.Width, Isa.DataAddress, AbsCsrs, Isa.Result, Isa.Lanes, ReadReg, Isa.Step, Isa.Report;
    MemOutcome(env, a, t, c, mipRead, mip, lastTrap, reqSent, resp);
    NoEarlyHaltLegal(env, a);
    TokenOfInstr(env, a, mipRead, t);
    ExecutedFields(env, a, mipRead, t);
    LoadedValue(env, a, mipRead, t, resp.rdata);
    StoreValueOf(env, a, mipRead, t);
    LanesAgree(t.memAddr, t.ir.memLen);
    MemOutFields(t, c, mip, lastTrap, reqSent, resp);
    AccessStep(env, a, SampleOf(mipRead, mip, reqSent, resp));
  }

  /** Whatever leaves MEM has had, and reports, the effect of the sequential machine's step. */
  lemma MemFinishes(env: Isa.Env, a: Isa.Arch, t: Token, c: CsrRegs, mipRead: Word, mip: Word,
                    lastTrap: bool, reqSent: bool, resp: MemResp)
    requires AtMem(env, a, t, c, mipRead, mip, lastTrap, reqSent, resp)
    requires !Stall(t, c, mip, lastTrap, reqSent, resp)
    ensures Finished(env, a, SampleOf(mipRead, mip, reqSent, resp), MemOut(t, c, mip, lastTrap, reqSent, resp))
  {
    hide Executed, Finished, EarlyAt, MemOut, TrapWanted, InstrAt, LsuMisaligned, Isa.Misaligned, AbsCsrs,
         Isa.CsrsAfter, Isa.Transaction, PreHalt;
    if EarlyAt(env, a) != HaltNone {
      FinishesEarly(env, a, t, c, mipRead, mip, lastTrap, reqSent, resp);
    } else if TrapWanted(t, c, mip) {
      FinishesInTrap(env, a, t, c, mipRead, mip, lastTrap, reqSent, resp);
    } else if !IsMem(t.ir) {
      FinishesPlainly(env, a, t, c, mipRead, mip, lastTrap, reqSent, resp);
    } else {
      AccessesOrHalts(env, a, t, c, mipRead, mip, lastTrap, reqSent, resp);
      FinishesAccess(env, a, t, c, mipRead, mip, lastTrap, reqSent, resp);
    }
  }

  lemma AccessesOrHalts(env: Isa.Env, a: Isa.Arch, t: Token, c: CsrRegs, mipRead: Word, mip: Word,
                        lastTrap: bool, reqSent: bool, resp: MemResp)
    requires AtMem(env, a, t, c, mipRead, mip, lastTrap, reqSent, resp) && EarlyAt(env, a) == HaltNone
    requires !TrapWanted(t, c, mip) && IsMem(t.ir)
    ensures Accesses(t, c, mip, lastTrap)
  {
    hide Executed, EarlyAt, InstrAt, AbsCsrs, Isa.CsrsAfter, AsyncCause, LsuMisaligned;
    MemPreHalt(env, a, mipRead, t);
    ExecutedFields(env, a, mipRead, t);
  }

  /** A trap leaves the machine at the handler, with the CSRs that CSRFile enters it with. */
  lemma TrapState(env: Isa.Env, a: Isa.Arch, t: Token, c: CsrRegs, mipRead: Word, mip: Word,
                  lastTrap: bool, reqSent: bool, resp: MemResp)
    requires AtMem(env, a, t, c, mipRead, mip, lastTrap, reqSent, resp)
    requires TakeTrap(t, c, mip, lastTrap)
    ensures var next := Isa.Step(env, a, SampleOf(mipRead, mip, reqSent, resp));
      !next.halted ==>
        && next.lastTrap && next.pc == MtvecBase(c)
        && next.csrs == AbsCsrs(EnterTrap(c, TrapCause(c, mip), t.ir.pc, 0))
        && next.bus == a.bus + (if reqSent then [Isa.Transaction(a, InstrAt(env, a.pc))] else [])
  {
    hide Isa.Decode, Executed, Isa.CsrsAfter, AsyncCause, Isa.PendingInterrupt, Isa.EarlyHalt, PreHalt, EnterTrap,
         Isa.EnterTrap, Isa.Transaction, AlignDown, Flag;
    MemOutcome(env, a, t, c, mipRead, mip, lastTrap, reqSent, resp);
    TokenOfInstr(env, a, mipRead, t);
    TrapEntryAgrees(c, TrapCause(c, mip), t.ir.pc, 0);
  }

  /** What an instruction that meets no interrupt and is no ECALL does, whatever was sent. */
  lemma UnwantedStep(env: Isa.Env, a: Isa.Arch, s: Isa.Sample)
    requires !a.halted && EarlyAt(env, a) == HaltNone && !Wants(env, a, s)
    ensures var i, next := InstrAt(env, a.pc), Isa.Step(env, a, s);
      && next == Isa.Step(env, a, Undisturbed(s.mipRead)) && !next.lastTrap
      && next.bus == a.bus + (if Isa.IsMemory(i) then [Isa.Transaction(a, i)] else [])
  {
    hide Isa.Decode, Isa.CsrsAfter, Isa.PendingInterrupt, Isa.EarlyHalt, Isa.Transaction, Isa.Result, Isa.NextPc,
         Isa.DataAddress, Isa.Lanes, Isa.Width, WriteReg, ReadReg;
    QuietWires(Isa.CsrsAfter(a, InstrAt(env, a.pc), s.mipRead));
  }

  lemma EarlyStep(env: Isa.Env, a: Isa.Arch, s: Isa.Sample)
    requires !a.halted && EarlyAt(env, a) != HaltNone
    ensures Isa.Step(env, a, s).halted
  {
    hide Isa.Decode, Isa.CsrsAfter, Isa.PendingInterrupt, Isa.EarlyHalt, Isa.Interrupted, Isa.Perform;
  }

  /** Without a trap the wires did not matter to the step, and the bus has seen what was sent. */
  lemma FlowState(env: Isa.Env, a: Isa.Arch, t: Token, c: CsrRegs, mipRead: Word, mip: Word,
                  lastTrap: bool, reqSent: bool, resp: MemResp)
    requires AtMem(env, a, t, c, mipRead, mip, lastTrap, reqSent, resp)
    requires !TakeTrap(t, c, mip, lastTrap) && !Stall(t, c, mip, lastTrap, reqSent, resp)
    ensures var next := Isa.Step(env, a, SampleOf(mipRead, mip, reqSent, resp));
      !next.halted ==>
        && next == Isa.Step(env, a, Undisturbed(mipRead)) && !next.lastTrap
        && next.bus == a.bus + (if reqSent then [Isa.Transaction(a, InstrAt(env, a.pc))] else [])
  {
    hide InstrAt, Executed, Isa.CsrsAfter, AsyncCause, Isa.PendingInterrupt, EarlyAt, PreHalt, Isa.Step, AbsCsrs,
         Isa.Transaction, LsuMisaligned, Isa.DoubleTrap, IllegalNow, MisalignedTarget, Isa.DataAddress, Isa.Width;
    var s := SampleOf(mipRead, mip, reqSent, resp);
    MemOutcome(env, a, t, c, mipRead, mip, lastTrap, reqSent, resp);
    ExecutedFields(env, a, mipRead, t);
    if EarlyAt(env, a) != HaltNone {
      EarlyStep(env, a, s);
    } else if TrapWanted(t, c, mip) {
      WantedStep(env, a, s);
    } else {
      NoEarlyHaltLegal(env, a);
      UnwantedStep(env, a, s);
      if IsMem(t.ir) {
        AccessesOrHalts(env, a, t, c, mipRead, mip, lastTrap, reqSent, resp);
      }
    }
  }

  /** The sample of an instruction on which no interrupt is taken. */
  function Undisturbed(mipRead: Word): Isa.Sample { Isa.Sample(mipRead, 0, false, false) }
}

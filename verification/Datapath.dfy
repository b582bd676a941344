/** The combinational units of the backend: src/alu.sv, src/branch_unit.sv, src/lsu.sv,
    src/load_data_filter.sv and the functions of src/CSRFile.sv. */
module Datapath {
  import opened Words
  import opened Uarch

  function Alu(op: AluOp, lhs: Word, rhs: Word): Word {
    match op
    case AluAdd => Plus(lhs, rhs)
    case AluSll => ShiftLeft(lhs, Shamt(rhs))
    case AluSlt => if SignedLess(lhs, rhs) then 1 else 0
    case AluSltu => if Less(lhs, rhs) then 1 else 0
    case AluXor => BitXor(lhs, rhs)
    case AluSrl => ShiftRight(lhs, Shamt(rhs))
    case AluOr => BitOr(lhs, rhs)
    case AluAnd => BitAnd(lhs, rhs)
    case AluSub => Minus(lhs, rhs)
    case AluSra => ArithShiftRight(lhs, Shamt(rhs))
  }

  function BranchTaken(op: BranchOp, rs1Val: Word, rs2Val: Word): bool {
    match op
    case BrJump => true
    case BrEq => rs1Val == rs2Val
    case BrNe => rs1Val != rs2Val
    case BrLt => SignedLess(rs1Val, rs2Val)
    case BrLtu => Less(rs1Val, rs2Val)
    case BrGe => !SignedLess(rs1Val, rs2Val)
    case BrGeu => !Less(rs1Val, rs2Val)
  }

  // ---- lsu.sv -------------------------------------------------------------------------

  function LsuBe(addr: Word, len: MemLen): bv4 {
    match len
    case Len1 => if addr & 3 == 0 then 1 else if addr & 3 == 1 then 2 else if addr & 3 == 2 then 4 else 8
    case Len2 => if addr & 2 != 0 then 0xc else 0x3
    case Len4 => 0xf
  }

  function Replicate(data: Word): Word {
    var b := data & 0xff;
    b | (b << 8) | (b << 16) | (b << 24)
  }

  /** SB replicates its byte on all lanes before shifting; SH fills one half with zeros. */
  function LsuWdata(addr: Word, data: Word, len: MemLen): Word {
    match len
    case Len1 =>
      if addr & 3 == 0 then Replicate(data)
      else if addr & 3 == 1 then ShiftLeft(Replicate(data), 8)
      else if addr & 3 == 2 then ShiftLeft(Replicate(data), 16)
      else ShiftLeft(Replicate(data), 24)
    case Len2 => if addr & 2 != 0 then ShiftLeft(data & 0xffff, 16) else data & 0xffff
    case Len4 => data
  }

  predicate LsuMisaligned(addr: Word, len: MemLen) {
    match len
    case Len1 => false
    case Len2 => addr & 1 != 0
    case Len4 => addr & 3 != 0
  }

  // ---- load_data_filter.sv --------------------------------------------------------------

  function LoadByte(addr: Word, rdata: Word): Word {
    if addr & 3 == 0 then rdata & 0xff else if addr & 3 == 1 then (rdata >> 8) & 0xff
    else if addr & 3 == 2 then (rdata >> 16) & 0xff else rdata >> 24
  }

  function LoadHalf(addr: Word, rdata: Word): Word {
    if addr & 2 != 0 then rdata >> 16 else rdata & 0xffff
  }

  /** Copies of the sign bit above a byte or a half-word. */
  function SignFillByte(b: Word): Word { if b & 0x80 != 0 then b | 0xffff_ff00 else b }
  function SignFillHalf(h: Word): Word { if h & 0x8000 != 0 then h | 0xffff_0000 else h }

  function LoadValue(addr: Word, rdata: Word, len: MemLen, signext: bool): Word {
    match len
    case Len1 => var b := LoadByte(addr, rdata); if signext then SignFillByte(b) else b
    case Len2 => var h := LoadHalf(addr, rdata); if signext then SignFillHalf(h) else h
    case Len4 => rdata
  }

  // ---- CSRFile.sv ---------------------------------------------------------------------------

  const MSTATUS_MIE: Word := 0x8
  const MSTATUS_MPIE: Word := 0x80
  const MSTATUS_MPP_M: Word := 0x1800
  const MSTATUS_MASK: Word := 0x88
  const MIE_MASK: Word := 0x888
  const MIP_MSIP: Word := 0x8
  const MIP_MTIP: Word := 0x80
  const MIP_MEIP: Word := 0x800

  datatype CsrRegs = CsrRegs(mstatus: Word, mie: Word, mtvec: Word, mscratch: Word,
                             mepc: Word, mcause: Word, mtval: Word)
  const ResetCsrRegs := CsrRegs(0, 0, 0, 0, 0, 0, 0)

  function Mip(msip: bool, mtip: bool, meip: bool): Word {
    (if msip then MIP_MSIP else 0) | (if mtip then MIP_MTIP else 0) | (if meip then MIP_MEIP else 0)
  }

  function MtvecBase(c: CsrRegs): Word { AlignDown(c.mtvec) }
  function MepcOut(c: CsrRegs): Word { AlignDown(c.mepc) }
  function MstatusOut(c: CsrRegs): Word { Keep(c.mstatus, MSTATUS_MASK) | MSTATUS_MPP_M }
  function MieOut(c: CsrRegs): Word { Keep(c.mie, MIE_MASK) }

  predicate Recognised(addr: bv12) {
    || addr == 0x300 || addr == 0x301 || addr == 0x304 || addr == 0x305
    || addr == 0x340 || addr == 0x341 || addr == 0x342 || addr == 0x343 || addr == 0x344
    || addr == 0xf11 || addr == 0xf12 || addr == 0xf13 || addr == 0xf14
  }

  predicate Writable(addr: bv12) { Recognised(addr) && addr & 0xc00 != 0xc00 }

  function ReadCsr(c: CsrRegs, mip: Word, addr: bv12): Word {
    if addr == 0x300 then MstatusOut(c)
    else if addr == 0x301 then 0x4000_0100
    else if addr == 0x304 then MieOut(c)
    else if addr == 0x305 then MtvecBase(c)
    else if addr == 0x340 then c.mscratch
    else if addr == 0x341 then MepcOut(c)
    else if addr == 0x342 then c.mcause
    else if addr == 0x343 then c.mtval
    else if addr == 0x344 then mip
    else 0
  }

  function CsrNew(kind: SysKind, before: Word, source: Word): Word {
    match kind
    case SysCsrRw => source
    case SysCsrRs => BitOr(before, source)
    case SysCsrRc => BitClear(before, source)
    case _ => before
  }

  predicate CsrIllegal(addr: bv12, writes: bool) { !Recognised(addr) || (writes && !Writable(addr)) }

  function WriteCsr(c: CsrRegs, addr: bv12, v: Word): CsrRegs {
    if addr == 0x300 then c.(mstatus := Keep(v, MSTATUS_MASK))
    else if addr == 0x304 then c.(mie := Keep(v, MIE_MASK))
    else if addr == 0x305 then c.(mtvec := AlignDown(v))
    else if addr == 0x340 then c.(mscratch := v)
    else if addr == 0x341 then c.(mepc := AlignDown(v))
    else if addr == 0x342 then c.(mcause := v)
    else if addr == 0x343 then c.(mtval := v)
    else c
  }

  function EnterTrap(c: CsrRegs, cause: Word, epc: Word, tval: Word): CsrRegs {
    c.(mepc := AlignDown(epc), mcause := cause, mtval := tval,
       mstatus := if Flag(c.mstatus, MSTATUS_MIE) then MSTATUS_MPIE else 0)
  }

  function LeaveTrap(c: CsrRegs): CsrRegs {
    c.(mstatus := MSTATUS_MPIE | (if Flag(c.mstatus, MSTATUS_MPIE) then MSTATUS_MIE else 0))
  }

  // ---- exe_stage.sv ----------------------------------------------------------------------------

  function AluLhs(t: Token): Word {
    match t.ir.op1 case Op1Pc => t.ir.pc case Op1Zero => 0 case Op1Rs1 => t.rs1Val
  }

  function AluResult(t: Token): Word {
    Alu(t.ir.aluOp, AluLhs(t), if t.ir.op2.Op2Imm? then t.ir.imm else t.rs2Val)
  }

  predicate IsJalr(ir: DecodedIr) { Opcode(ir.rawInst) == OPCODE_JALR }

  function ActualTarget(t: Token): Word {
    if IsJalr(t.ir) then ClearBit0(Plus(t.rs1Val, t.ir.imm)) else Plus(t.ir.pc, t.ir.imm)
  }

  predicate Taken(t: Token) { t.ir.fu == FuBranch && BranchTaken(t.ir.branchOp, t.rs1Val, t.rs2Val) }

  /** What makes EXE redirect the frontend once it may: a taken transfer, or MRET. */
  predicate Transfers(t: Token) { t.Alive() && (Taken(t) || t.ir.sysKind == SysMret) }

  function TransferTarget(t: Token, c: CsrRegs): Word {
    if t.ir.sysKind == SysMret then MepcOut(c) else ActualTarget(t)
  }

  function CsrSource(t: Token): Word {
    if t.ir.csrSourceIsImm then t.ir.csrSourceImm else t.rs1Val
  }

  /** The token that leaves EXE. `trap`: MEM takes a trap in this cycle, so no CSR access commits. */
  function ExeOut(t: Token, c: CsrRegs, mip: Word, trap: bool): Token {
    var result := AluResult(t);
    var csr := t.ir.fu == FuCsr;
    var misaligned := t.Alive() && Taken(t) && Flag(ActualTarget(t), 3);
    t.(memAddr := if t.ir.fu == FuBranch && IsJalr(t.ir) then ActualTarget(t) else result,
       storeData := t.rs2Val,
       rdValue := if t.ir.fu == FuBranch then Plus(t.ir.pc, 4)
                  else if csr then ReadCsr(c, mip, t.ir.csrAddr) else result,
       ir := if t.Alive() && csr && !trap && CsrIllegal(t.ir.csrAddr, t.ir.csrWrites)
             then t.ir.(illegal := true) else t.ir,
       halt := t.halt || misaligned,
       haltKind := if misaligned then HaltMisalignPc else t.haltKind)
  }

  /** The CSR file after the cycle in which EXE commits `t`: CSR writes, then MRET. */
  function CsrsAfterExe(t: Token, c: CsrRegs, mip: Word): CsrRegs {
    var written :=
      if t.Alive() && t.ir.fu == FuCsr && t.ir.csrWrites && !CsrIllegal(t.ir.csrAddr, t.ir.csrWrites)
      then WriteCsr(c, t.ir.csrAddr, CsrNew(t.ir.sysKind, ReadCsr(c, mip, t.ir.csrAddr), CsrSource(t)))
      else c;
    if t.Alive() && t.ir.sysKind == SysMret then written.(mstatus := LeaveTrap(c).mstatus) else written
  }

  // ---- mem_stage.sv ------------------------------------------------------------------------------

  function AsyncCause(c: CsrRegs, mip: Word): Word {
    var pending := Keep(MieOut(c), mip);
    if !Flag(MstatusOut(c), MSTATUS_MIE) then 0
    else if Flag(pending, MIP_MEIP) then 0x8000_000b
    else if Flag(pending, MIP_MSIP) then 0x8000_0003
    else if Flag(pending, MIP_MTIP) then 0x8000_0007
    else 0
  }

  predicate MemMisaligned(t: Token) { IsMem(t.ir) && LsuMisaligned(t.memAddr, t.ir.memLen) }

  predicate PreHalt(t: Token) {
    t.halt || t.ir.ifBusError || t.ir.illegal || t.ir.sysKind == SysEbreak || MemMisaligned(t)
  }

  predicate TrapWanted(t: Token, c: CsrRegs, mip: Word) {
    t.Alive() && !PreHalt(t) && (AsyncCause(c, mip) != 0 || t.ir.sysKind == SysEcall)
  }

  predicate DoubleTrap(t: Token, c: CsrRegs, mip: Word, lastTrap: bool) {
    TrapWanted(t, c, mip) && lastTrap && t.ir.pc == MtvecBase(c)
  }

  predicate TakeTrap(t: Token, c: CsrRegs, mip: Word, lastTrap: bool) {
    TrapWanted(t, c, mip) && !DoubleTrap(t, c, mip, lastTrap)
  }

  predicate TakeHalt(t: Token, c: CsrRegs, mip: Word, lastTrap: bool) {
    (t.Alive() && PreHalt(t)) || DoubleTrap(t, c, mip, lastTrap)
  }

  function TrapCause(c: CsrRegs, mip: Word): Word {
    if AsyncCause(c, mip) != 0 then AsyncCause(c, mip) else 11
  }

  /** A memory access that neither traps nor halts; it holds MEM until its response. */
  predicate Accesses(t: Token, c: CsrRegs, mip: Word, lastTrap: bool) {
    t.Alive() && IsMem(t.ir) && !LsuMisaligned(t.memAddr, t.ir.memLen) &&
    !TakeTrap(t, c, mip, lastTrap) && !TakeHalt(t, c, mip, lastTrap)
  }

  predicate Stall(t: Token, c: CsrRegs, mip: Word, lastTrap: bool, reqSent: bool, resp: MemResp) {
    Accesses(t, c, mip, lastTrap) && !(reqSent && resp.valid)
  }

  function DmemReq(t: Token, c: CsrRegs, mip: Word, lastTrap: bool, reqSent: bool): MemReq {
    var go := Accesses(t, c, mip, lastTrap);
    MemReq(go && !reqSent, t.memAddr, go && IsStore(t.ir),
           LsuBe(t.memAddr, t.ir.memLen), LsuWdata(t.memAddr, t.rs2Val, t.ir.memLen))
  }

  function PreHaltKind(t: Token): HaltKind {
    if t.halt then t.haltKind
    else if t.ir.ifBusError then HaltBusErrorIf
    else if t.ir.illegal then HaltIllegal
    else if t.ir.sysKind == SysEbreak then HaltVoluntary
    else if MemMisaligned(t) then (if IsStore(t.ir) then HaltMisalignSt else HaltMisalignLd)
    else HaltNone
  }

  /** The token that leaves MEM. */
  function MemOut(t: Token, c: CsrRegs, mip: Word, lastTrap: bool, reqSent: bool, resp: MemResp): Token {
    var trap := TakeTrap(t, c, mip, lastTrap);
    var stop := TakeHalt(t, c, mip, lastTrap);
    var busError := t.Alive() && IsMem(t.ir) && reqSent && resp.valid && resp.error;
    t.(storeStrb := LsuBe(t.memAddr, t.ir.memLen), storeData := t.rs2Val, storeAddr := t.memAddr,
       rdValue := if t.Alive() && IsLoad(t.ir) && resp.valid
                  then LoadValue(t.memAddr, resp.rdata, t.ir.memLen, t.ir.loadSignext) else t.rdValue,
       trapPending := t.trapPending || trap,
       trapCause := if trap then TrapCause(c, mip) else t.trapCause,
       trapTval := if trap then 0 else t.trapTval,
       halt := t.halt || stop || busError,
       haltKind := if busError then (if IsStore(t.ir) then HaltBusErrorSt else HaltBusErrorLd)
                   else if stop then (if DoubleTrap(t, c, mip, lastTrap) then HaltDoubleTrap else PreHaltKind(t))
                   else t.haltKind)
  }

  // ---- wb_stage.sv ----------------------------------------------------------------------------------

  predicate RfWe(t: Token) { t.Alive() && !t.trapPending && !t.halt && Writes(t.ir) }

  /** `commit_packet_t`, without its CSR snapshots and the unused `rd_to_write`. */
  datatype CommitPacket = CommitPacket(
    pc: Word, rdValue: Word, rd: RegIndex, storeValid: bool, storeAddr: Word, storeData: Word, storeStrb: bv4,
    haltObserved: bool, haltKind: HaltKind, haltExitCode: bv8,
    trapTaken: bool, trapCause: Word, trapMepc: Word, trapMtval: Word)

  function Packet(t: Token, x10: Word): CommitPacket {
    CommitPacket(t.ir.pc, if RfWe(t) then t.rdValue else 0, if RfWe(t) then t.ir.rd else 0,
                 t.Alive() && !t.trapPending && !t.halt && IsStore(t.ir),
                 t.storeAddr, t.storeData, t.storeStrb,
                 t.halt, t.haltKind, HaltExitCode(t.haltKind, x10),
                 t.trapPending, t.trapCause, t.ir.pc, t.trapTval)
  }
}

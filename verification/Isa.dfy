/** The sequential machine the pipeline is compared with: RV32I (sections 2.2 to 2.6 of the
    Unprivileged ISA 20191213), Zicsr (section 9.1) and machine-mode traps (sections 3.1.6,
    3.1.9, 3.1.14 and 3.3.2 of the Privileged ISA 20211203), one instruction per step, with the
    repository's halt model in place of most exceptions. It has no pipeline in it. */
module Isa {
  import opened Words
  import Uarch

  type HaltKind = Uarch.HaltKind

  // ---- abstract syntax ---------------------------------------------------------------

  datatype Cond = Eq | Ne | Lt | Ge | Ltu | Geu
  datatype LoadKind = Lb | Lh | Lw | Lbu | Lhu
  datatype StoreKind = Sb | Sh | Sw
  datatype ImmOp = Addi | Slti | Sltiu | Xori | Ori | Andi
  datatype ShiftOp = Sll | Srl | Sra
  datatype RegOp = Add | Sub | SllR | Slt | Sltu | Xor | SrlR | SraR | Or | And
  datatype CsrOp = Rw | Rs | Rc
  datatype CsrSource = FromReg(rs1: RegIndex) | FromImm(uimm: bv5)

  /** The control transfer that the machine still evaluates for an illegal word. */
  datatype StrayJump = NoJump | Relative(off12: bv12) | Indirect(rs1: RegIndex, imm12: bv12)

  /** Branch and JAL offsets are kept as encoded: in units of two bytes. */
  datatype Instr =
    | Lui(rd: RegIndex, imm20: bv20)
    | Auipc(rd: RegIndex, imm20: bv20)
    | Jal(rd: RegIndex, off20: bv20)
    | Jalr(rd: RegIndex, rs1: RegIndex, imm12: bv12)
    | Branch(cond: Cond, rs1: RegIndex, rs2: RegIndex, off12: bv12)
    | Load(lk: LoadKind, rd: RegIndex, rs1: RegIndex, imm12: bv12)
    | Store(sk: StoreKind, rs1: RegIndex, rs2: RegIndex, imm12: bv12)
    | OpImm(iop: ImmOp, rd: RegIndex, rs1: RegIndex, imm12: bv12)
    | ShiftImm(sop: ShiftOp, rd: RegIndex, rs1: RegIndex, shamt: bv5)
    | Op(rop: RegOp, rd: RegIndex, rs1: RegIndex, rs2: RegIndex)
    | Fence(rd: RegIndex, rs1: RegIndex, imm12: bv12)
    | Ecall | Ebreak | Mret | Wfi
    | Csr(cop: CsrOp, rd: RegIndex, addr: bv12, src: CsrSource)
    | Illegal(jump: StrayJump)

  // ---- decoding -------------------------------------------------------------------------

  function ShiftOfFunct(f3: bv3, alternate: bool): ShiftOp {
    if f3 == 1 then Sll else if alternate then Sra else Srl
  }

  function RegOpOf(f3: bv3, alternate: bool): RegOp {
    if f3 == 0 then (if alternate then Sub else Add)
    else if f3 == 1 then SllR
    else if f3 == 2 then Slt
    else if f3 == 3 then Sltu
    else if f3 == 4 then Xor
    else if f3 == 5 then (if alternate then SraR else SrlR)
    else if f3 == 6 then Or
    else And
  }

  function ImmOpOf(f3: bv3): ImmOp {
    if f3 == 0 then Addi else if f3 == 2 then Slti else if f3 == 3 then Sltiu
    else if f3 == 4 then Xori else if f3 == 6 then Ori else Andi
  }

  /** Encodings the standard reserves but the machine executes as the plain operation. */
  predicate Reserved(w: Word) {
    Opcode(w) == OPCODE_OP && Funct7(w) == 0x20 && Funct3(w) != 0 && Funct3(w) != 5
  }

  function DecodeOp(w: Word): Instr {
    if Funct7(w) != 0 && Funct7(w) != 0x20 then Illegal(NoJump)
    else Op(RegOpOf(Funct3(w), Funct7(w) == 0x20), Rd(w), Rs1(w), Rs2(w))
  }

  function DecodeOpImm(w: Word): Instr {
    var f3, f7 := Funct3(w), Funct7(w);
    if f3 == 1 || f3 == 5 then
      if f7 == 0 || (f3 == 5 && f7 == 0x20)
      then ShiftImm(ShiftOfFunct(f3, f7 == 0x20), Rd(w), Rs1(w), Rs2(w))
      else Illegal(NoJump)
    else OpImm(ImmOpOf(f3), Rd(w), Rs1(w), Funct12(w))
  }

  function LoadKindOf(f3: bv3): LoadKind {
    if f3 == 0 then Lb else if f3 == 1 then Lh else if f3 == 2 then Lw else if f3 == 4 then Lbu else Lhu
  }

  function DecodeLoad(w: Word): Instr {
    var f3 := Funct3(w);
    if f3 == 3 || f3 >= 6 then Illegal(NoJump) else Load(LoadKindOf(f3), Rd(w), Rs1(w), Funct12(w))
  }

  /** The S format splits its immediate: bits 11:5 sit in funct7, bits 4:0 in rd. */
  function StoreImm12(w: Word): bv12 { (((w >> 25) << 5) | ((w >> 7) & 0x1f)) as bv12 }

  function DecodeStore(w: Word): Instr {
    var f3 := Funct3(w);
    if f3 > 2 then Illegal(NoJump)
    else Store(if f3 == 0 then Sb else if f3 == 1 then Sh else Sw, Rs1(w), Rs2(w), StoreImm12(w))
  }

  /** The B format holds imm[12|10:5] in bits 31:25 and imm[4:1|11] in bits 11:7. */
  function BranchOff12(w: Word): bv12 {
    (((w >> 31) << 11) | (((w >> 7) & 1) << 10) | (((w >> 25) & 0x3f) << 4) | ((w >> 8) & 0xf)) as bv12
  }

  function DecodeBranch(w: Word): Instr {
    var f3 := Funct3(w);
    if f3 == 2 || f3 == 3 then Illegal(Relative(BranchOff12(w)))
    else
      var cond := if f3 == 0 then Eq else if f3 == 1 then Ne else if f3 == 4 then Lt
                  else if f3 == 5 then Ge else if f3 == 6 then Ltu else Geu;
      Branch(cond, Rs1(w), Rs2(w), BranchOff12(w))
  }

  /** The J format holds imm[20|10:1|11|19:12] in bits 31:12. */
  function JumpOff20(w: Word): bv20 {
    (((w >> 31) << 19) | (((w >> 12) & 0xff) << 11) | (((w >> 20) & 1) << 10) | ((w >> 21) & 0x3ff)) as bv20
  }

  function UpperImm20(w: Word): bv20 { (w >> 12) as bv20 }

  function DecodePrivileged(w: Word): Instr {
    if Rs1(w) != 0 || Rd(w) != 0 then Illegal(NoJump)
    else if Funct12(w) == FUNCT12_ECALL then Ecall
    else if Funct12(w) == FUNCT12_EBREAK then Ebreak
    else if Funct12(w) == FUNCT12_MRET then Mret
    else if Funct12(w) == FUNCT12_WFI then Wfi
    else Illegal(NoJump)
  }

  function DecodeSystem(w: Word): Instr {
    var f3 := Funct3(w);
    if f3 == 0 then DecodePrivileged(w)
    else if f3 == 4 then Illegal(NoJump)
    else
      var cop := if f3 == 1 || f3 == 5 then Rw else if f3 == 2 || f3 == 6 then Rs else Rc;
      Csr(cop, Rd(w), Funct12(w), if f3 >= 5 then FromImm(Rs1(w)) else FromReg(Rs1(w)))
  }

  function Decode(w: Word): Instr {
    var opcode := Opcode(w);
    if opcode == OPCODE_OP then DecodeOp(w)
    else if opcode == OPCODE_OP_IMM then DecodeOpImm(w)
    else if opcode == OPCODE_LOAD then DecodeLoad(w)
    else if opcode == OPCODE_STORE then DecodeStore(w)
    else if opcode == OPCODE_BRANCH then DecodeBranch(w)
    else if opcode == OPCODE_JAL then Jal(Rd(w), JumpOff20(w))
    else if opcode == OPCODE_JALR then
      if Funct3(w) == 0 then Jalr(Rd(w), Rs1(w), Funct12(w)) else Illegal(Indirect(Rs1(w), Funct12(w)))
    else if opcode == OPCODE_AUIPC then Auipc(Rd(w), UpperImm20(w))
    else if opcode == OPCODE_LUI then Lui(Rd(w), UpperImm20(w))
    else if opcode == OPCODE_MISC_MEM then
      if Funct3(w) == 0 then Fence(Rd(w), Rs1(w), Funct12(w)) else Illegal(NoJump)
    else if opcode == OPCODE_SYSTEM then DecodeSystem(w)
    else Illegal(NoJump)
  }

  // ---- encoding (section 2.2, 2.3 and chapter 24 tables) ------------------------------------

  function RType(opcode: bv7, f3: bv3, f7: bv7, rd: RegIndex, rs1: RegIndex, rs2: RegIndex): Word {
    (opcode as bv32) | ((rd as bv32) << 7) | ((f3 as bv32) << 12) | ((rs1 as bv32) << 15) |
    ((rs2 as bv32) << 20) | ((f7 as bv32) << 25)
  }

  function IType(opcode: bv7, f3: bv3, rd: RegIndex, rs1: RegIndex, imm12: bv12): Word {
    (opcode as bv32) | ((rd as bv32) << 7) | ((f3 as bv32) << 12) | ((rs1 as bv32) << 15) |
    ((imm12 as bv32) << 20)
  }

  function SType(opcode: bv7, f3: bv3, rs1: RegIndex, rs2: RegIndex, imm12: bv12): Word {
    RType(opcode, f3, (imm12 >> 5) as bv7, (imm12 & 0x1f) as bv5, rs1, rs2)
  }

  /** `off12` is imm[12:1]: bit 11 goes to bit 31, bit 10 to bit 7. */
  function BType(opcode: bv7, f3: bv3, rs1: RegIndex, rs2: RegIndex, off12: bv12): Word {
    RType(opcode, f3,
          (((off12 >> 11) << 6) | ((off12 >> 4) & 0x3f)) as bv7,
          (((off12 & 0xf) << 1) | ((off12 >> 10) & 1)) as bv5, rs1, rs2)
  }

  function UType(opcode: bv7, rd: RegIndex, imm20: bv20): Word {
    (opcode as bv32) | ((rd as bv32) << 7) | UpperImmediate(imm20)
  }

  /** `off20` is imm[20:1]. */
  function JType(opcode: bv7, rd: RegIndex, off20: bv20): Word {
    UType(opcode, rd,
          ((off20 >> 19) << 19) | ((off20 & 0x3ff) << 9) | (((off20 >> 10) & 1) << 8) | ((off20 >> 11) & 0xff))
  }

  function CondFunct3(c: Cond): bv3 {
    match c case Eq => 0 case Ne => 1 case Lt => 4 case Ge => 5 case Ltu => 6 case Geu => 7
  }
  function LoadFunct3(k: LoadKind): bv3 { match k case Lb => 0 case Lh => 1 case Lw => 2 case Lbu => 4 case Lhu => 5 }
  function StoreFunct3(k: StoreKind): bv3 { match k case Sb => 0 case Sh => 1 case Sw => 2 }
  function ImmFunct3(o: ImmOp): bv3 {
    match o case Addi => 0 case Slti => 2 case Sltiu => 3 case Xori => 4 case Ori => 6 case Andi => 7
  }
  function ShiftFunct3(o: ShiftOp): bv3 { if o == Sll then 1 else 5 }
  function RegFunct3(o: RegOp): bv3 {
    match o
    case Add => 0 case Sub => 0 case SllR => 1 case Slt => 2 case Sltu => 3 case Xor => 4
    case SrlR => 5 case SraR => 5 case Or => 6 case And => 7
  }
  function CsrFunct3(o: CsrOp, src: CsrSource): bv3 {
    if src.FromImm? then (match o case Rw => 5 case Rs => 6 case Rc => 7)
    else (match o case Rw => 1 case Rs => 2 case Rc => 3)
  }

  /** The standard encoding of a legal instruction. */
  function Encode(i: Instr): Word
    requires !i.Illegal?
  {
    match i
    case Lui(rd, imm20) => UType(OPCODE_LUI, rd, imm20)
    case Auipc(rd, imm20) => UType(OPCODE_AUIPC, rd, imm20)
    case Jal(rd, off20) => JType(OPCODE_JAL, rd, off20)
    case Jalr(rd, rs1, imm12) => IType(OPCODE_JALR, 0, rd, rs1, imm12)
    case Branch(cond, rs1, rs2, off12) => BType(OPCODE_BRANCH, CondFunct3(cond), rs1, rs2, off12)
    case Load(lk, rd, rs1, imm12) => IType(OPCODE_LOAD, LoadFunct3(lk), rd, rs1, imm12)
    case Store(sk, rs1, rs2, imm12) => SType(OPCODE_STORE, StoreFunct3(sk), rs1, rs2, imm12)
    case OpImm(iop, rd, rs1, imm12) => IType(OPCODE_OP_IMM, ImmFunct3(iop), rd, rs1, imm12)
    case ShiftImm(sop, rd, rs1, shamt) =>
      RType(OPCODE_OP_IMM, ShiftFunct3(sop), if sop == Sra then 0x20 else 0, rd, rs1, shamt)
    case Op(rop, rd, rs1, rs2) =>
      RType(OPCODE_OP, RegFunct3(rop), if rop == Sub || rop == SraR then 0x20 else 0, rd, rs1, rs2)
    case Fence(rd, rs1, imm12) => IType(OPCODE_MISC_MEM, 0, rd, rs1, imm12)
    case Ecall => IType(OPCODE_SYSTEM, 0, 0, 0, FUNCT12_ECALL)
    case Ebreak => IType(OPCODE_SYSTEM, 0, 0, 0, FUNCT12_EBREAK)
    case Mret => IType(OPCODE_SYSTEM, 0, 0, 0, FUNCT12_MRET)
    case Wfi => IType(OPCODE_SYSTEM, 0, 0, 0, FUNCT12_WFI)
    case Csr(cop, rd, addr, src) =>
      IType(OPCODE_SYSTEM, CsrFunct3(cop, src), rd, if src.FromImm? then src.uimm else src.rs1, addr)
  }

  // ---- control and status registers ------------------------------------------------------------

  /** Machine-mode state by meaning: interrupt-enable stack, enables, and plain registers. */
  datatype Csrs = Csrs(mie: bool, mpie: bool, msie: bool, mtie: bool, meie: bool,
                       mtvec: Word, mscratch: Word, mepc: Word, mcause: Word, mtval: Word)

  const ResetCsrs := Csrs(false, false, false, false, false, 0, 0, 0, 0, 0)

  predicate KnownCsr(addr: bv12) {
    addr in {0x300, 0x301, 0x304, 0x305, 0x340, 0x341, 0x342, 0x343, 0x344, 0xf11, 0xf12, 0xf13, 0xf14}
  }

  /** Addresses whose two top bits are 11 are read-only. */
  predicate ReadOnlyCsr(addr: bv12) { addr >= 0xc00 }

  function MstatusValue(c: Csrs): Word { 0x1800 | (if c.mie then 0x8 else 0) | (if c.mpie then 0x80 else 0) }

  function MieValue(c: Csrs): Word {
    (if c.msie then 0x8 else 0) | (if c.mtie then 0x80 else 0) | (if c.meie then 0x800 else 0)
  }

  function ReadCsr(c: Csrs, mip: Word, addr: bv12): Word {
    if addr == 0x300 then MstatusValue(c)
    else if addr == 0x301 then 0x4000_0100
    else if addr == 0x304 then MieValue(c)
    else if addr == 0x305 then c.mtvec
    else if addr == 0x340 then c.mscratch
    else if addr == 0x341 then c.mepc
    else if addr == 0x342 then c.mcause
    else if addr == 0x343 then c.mtval
    else if addr == 0x344 then mip
    else 0
  }

  function WriteCsr(c: Csrs, addr: bv12, v: Word): Csrs {
    if addr == 0x300 then c.(mie := Flag(v, 0x8), mpie := Flag(v, 0x80))
    else if addr == 0x304 then c.(msie := Flag(v, 0x8), mtie := Flag(v, 0x80), meie := Flag(v, 0x800))
    else if addr == 0x305 then c.(mtvec := AlignDown(v))
    else if addr == 0x340 then c.(mscratch := v)
    else if addr == 0x341 then c.(mepc := AlignDown(v))
    else if addr == 0x342 then c.(mcause := v)
    else if addr == 0x343 then c.(mtval := v)
    else c
  }

  function EnterTrap(c: Csrs, cause: Word, epc: Word, tval: Word): Csrs {
    c.(mpie := c.mie, mie := false, mepc := AlignDown(epc), mcause := cause, mtval := tval)
  }

  function LeaveTrap(c: Csrs): Csrs { c.(mie := c.mpie, mpie := true) }

  /** Enabled and pending interrupts by priority: external, software, timer. */
  function PendingInterrupt(c: Csrs, mip: Word): Option<Word> {
    if !c.mie then None
    else if c.meie && Flag(mip, 0x800) then Some(0x8000_000b)
    else if c.msie && Flag(mip, 0x8) then Some(0x8000_0003)
    else if c.mtie && Flag(mip, 0x80) then Some(0x8000_0007)
    else None
  }

  predicate CsrWrites(cop: CsrOp, src: CsrSource) {
    cop == Rw || (if src.FromImm? then src.uimm != 0 else src.rs1 != 0)
  }

  predicate CsrLegal(addr: bv12, writes: bool) { KnownCsr(addr) && (writes ==> !ReadOnlyCsr(addr)) }

  function CsrUpdate(cop: CsrOp, before: Word, operand: Word): Word {
    match cop
    case Rw => operand
    case Rs => BitOr(before, operand)
    case Rc => BitClear(before, operand)
  }

  // ---- machine state and its environment ----------------------------------------------------------

  datatype Fetched = Fetched(inst: Word, error: bool)
  datatype Reply = Reply(rdata: Word, error: bool)

  /** One data-bus transaction on the aligned word that holds `addr`; `be` selects byte lanes. */
  datatype BusEvent = BusRead(addr: Word, be: bv4) | BusWrite(addr: Word, be: bv4, lanes: Word)

  /** Instruction memory is fixed while the program runs. The data side is any device: the reply
      to a transaction may depend on every transaction up to and including it. */
  datatype Env = Env(code: Word -> Fetched, reply: seq<BusEvent> -> Reply)

  /** `lastTrap`: the previous step entered a trap handler. */
  datatype Arch = Arch(pc: Word, regs: Regs, csrs: Csrs, bus: seq<BusEvent>, lastTrap: bool, halted: bool)

  function ResetArch(resetPc: Word): Arch { Arch(resetPc, ZeroRegs(), ResetCsrs, [], false, false) }

  /** What an instruction sees of the interrupt wires: when a CSR instruction reads `mip`, and
      when the machine decides whether to take an interrupt on it. `sent` and `answered` say
      whether its bus transaction had been accepted and answered by then. */
  datatype Sample = Sample(mipRead: Word, mipTake: Word, sent: bool, answered: bool)

  const Quiet := Sample(0, 0, false, false)

  /** The architectural effects a step reports. */
  datatype StoreEffect = NoStore | StoreEffect(addr: Word, data: Word, strb: bv4)
  datatype HaltEffect = Running | Halt(kind: HaltKind, exitCode: bv8)
  datatype TrapEffect = NoTrap | Trap(cause: Word, mepc: Word, mtval: Word)
  datatype Commit = Commit(pc: Word, rd: RegIndex, rdValue: Word, store: StoreEffect, halt: HaltEffect, trap: TrapEffect)

  // ---- instruction semantics -----------------------------------------------------------------------

  function Holds(cond: Cond, a: Word, b: Word): bool {
    match cond
    case Eq => a == b
    case Ne => a != b
    case Lt => SignedLess(a, b)
    case Ge => !SignedLess(a, b)
    case Ltu => Less(a, b)
    case Geu => !Less(a, b)
  }

  /** A 12-bit count of half-words, sign-extended to a byte offset. */
  function Offset12(off12: bv12): Word { SignExtend12(off12) << 1 }

  function Offset20(off20: bv20): Word {
    (if off20 >= 0x8_0000 then (off20 as bv32) | 0xfff0_0000 else off20 as bv32) << 1
  }

  function UpperImmediate(imm20: bv20): Word { (imm20 as bv32) << 12 }

  function RegResult(op: RegOp, a: Word, b: Word): Word {
    match op
    case Add => Plus(a, b)
    case Sub => Minus(a, b)
    case SllR => ShiftLeft(a, Shamt(b))
    case Slt => if SignedLess(a, b) then 1 else 0
    case Sltu => if Less(a, b) then 1 else 0
    case Xor => BitXor(a, b)
    case SrlR => ShiftRight(a, Shamt(b))
    case SraR => ArithShiftRight(a, Shamt(b))
    case Or => BitOr(a, b)
    case And => BitAnd(a, b)
  }

  function ImmResult(op: ImmOp, a: Word, imm: Word): Word {
    match op
    case Addi => Plus(a, imm)
    case Slti => if SignedLess(a, imm) then 1 else 0
    case Sltiu => if Less(a, imm) then 1 else 0
    case Xori => BitXor(a, imm)
    case Ori => BitOr(a, imm)
    case Andi => BitAnd(a, imm)
  }

  function ShiftResult(op: ShiftOp, a: Word, shamt: bv5): Word {
    match op
    case Sll => ShiftLeft(a, shamt)
    case Srl => ShiftRight(a, shamt)
    case Sra => ArithShiftRight(a, shamt)
  }

  /** The target of a control transfer that is taken. */
  function JumpTarget(a: Arch, i: Instr): Option<Word> {
    match i
    case Jal(_, off20) => Some(Plus(a.pc, Offset20(off20)))
    case Jalr(_, rs1, imm12) => Some(ClearBit0(Plus(ReadReg(a.regs, rs1), SignExtend12(imm12))))
    case Branch(cond, rs1, rs2, off12) =>
      if Holds(cond, ReadReg(a.regs, rs1), ReadReg(a.regs, rs2)) then Some(Plus(a.pc, Offset12(off12))) else None
    case Illegal(Relative(off12)) => Some(Plus(a.pc, Offset12(off12)))
    case Illegal(Indirect(rs1, imm12)) => Some(ClearBit0(Plus(ReadReg(a.regs, rs1), SignExtend12(imm12))))
    case _ => None
  }

  predicate IsMemory(i: Instr) { i.Load? || i.Store? }

  function DataAddress(a: Arch, i: Instr): Word
    requires IsMemory(i)
  {
    Plus(ReadReg(a.regs, i.rs1), SignExtend12(i.imm12))
  }

  /** Access size in bytes. */
  function Width(i: Instr): Word
    requires IsMemory(i)
  {
    match i
    case Load(lk, _, _, _) => if lk == Lw then 4 else if lk == Lh || lk == Lhu then 2 else 1
    case Store(sk, _, _, _) => if sk == Sw then 4 else if sk == Sh then 2 else 1
  }

  predicate Misaligned(addr: Word, width: Word) { Flag(addr, width - 1) }

  /** The byte lanes of an access of `width` bytes at `addr`, in the word that holds it. */
  function Lanes(addr: Word, width: Word): bv4 {
    if width == 4 then 0xf else if width == 2 then (if addr & 2 != 0 then 0xc else 0x3)
    else if addr & 3 == 0 then 0x1 else if addr & 3 == 1 then 0x2 else if addr & 3 == 2 then 0x4 else 0x8
  }

  /** The store value moved to its byte lanes, with all other lanes zero. */
  function ToLanes(addr: Word, width: Word, v: Word): Word {
    if width == 4 then v
    else if width == 2 then (if addr & 2 != 0 then v << 16 else v & 0xffff)
    else if addr & 3 == 0 then v & 0xff
    else if addr & 3 == 1 then (v & 0xff) << 8
    else if addr & 3 == 2 then (v & 0xff) << 16
    else v << 24
  }

  /** The bytes at `addr` in the word that holds it, brought down to bit 0. */
  function FromLanes(addr: Word, width: Word, word: Word): Word {
    if width == 4 then word
    else if width == 2 then (if addr & 2 != 0 then word >> 16 else word & 0xffff)
    else if addr & 3 == 0 then word & 0xff
    else if addr & 3 == 1 then (word >> 8) & 0xff
    else if addr & 3 == 2 then (word >> 16) & 0xff
    else word >> 24
  }

  /** `v` is below twice `half`; values from `half` on stand for negative numbers. */
  function SignExtend(v: Word, half: Word): Word {
    if v >= half then v - half - half else v
  }

  function LoadResult(lk: LoadKind, addr: Word, word: Word): Word {
    match lk
    case Lw => FromLanes(addr, 4, word)
    case Lhu => FromLanes(addr, 2, word)
    case Lbu => FromLanes(addr, 1, word)
    case Lh => SignExtend(FromLanes(addr, 2, word), 0x8000)
    case Lb => SignExtend(FromLanes(addr, 1, word), 0x80)
  }

  function Transaction(a: Arch, i: Instr): BusEvent
    requires IsMemory(i)
  {
    var addr := DataAddress(a, i);
    if i.Load? then BusRead(addr, Lanes(addr, Width(i)))
    else BusWrite(addr, Lanes(addr, Width(i)), ToLanes(addr, Width(i), ReadReg(a.regs, i.rs2)))
  }

  function CsrOperand(a: Arch, src: CsrSource): Word {
    match src
    case FromReg(rs1) => ReadReg(a.regs, rs1)
    case FromImm(uimm) => uimm as bv32
  }

  /** The effect of CSR instructions and MRET on machine-mode state. */
  function CsrsAfter(a: Arch, i: Instr, mip: Word): Csrs {
    match i
    case Csr(cop, _, addr, src) =>
      if CsrWrites(cop, src)
      then WriteCsr(a.csrs, addr, CsrUpdate(cop, ReadCsr(a.csrs, mip, addr), CsrOperand(a, src)))
      else a.csrs
    case Mret => LeaveTrap(a.csrs)
    case _ => a.csrs
  }

  /** Halts that the instruction and its operands determine, in the machine's order: a taken
      transfer to a misaligned address comes first, even for a word that could not be fetched
      or is not a legal instruction. */
  function EarlyHalt(a: Arch, i: Instr, fetchError: bool): HaltKind {
    var target := JumpTarget(a, i);
    if target.Some? && Flag(target.value, 3) then Uarch.HaltMisalignPc
    else if fetchError then Uarch.HaltBusErrorIf
    else if i.Illegal? || (i.Csr? && !CsrLegal(i.addr, CsrWrites(i.cop, i.src))) then Uarch.HaltIllegal
    else if i.Ebreak? then Uarch.HaltVoluntary
    else if IsMemory(i) && Misaligned(DataAddress(a, i), Width(i)) then
      if i.Store? then Uarch.HaltMisalignSt else Uarch.HaltMisalignLd
    else Uarch.HaltNone
  }

  /** The destination register and its value when the instruction completes. */
  function Result(a: Arch, i: Instr, mip: Word, word: Word): (r: (RegIndex, Word)) {
    match i
    case Lui(rd, imm20) => (rd, UpperImmediate(imm20))
    case Auipc(rd, imm20) => (rd, Plus(a.pc, UpperImmediate(imm20)))
    case Jal(rd, _) => (rd, Plus(a.pc, 4))
    case Jalr(rd, _, _) => (rd, Plus(a.pc, 4))
    case Load(lk, rd, _, _) => (rd, LoadResult(lk, DataAddress(a, i), word))
    case OpImm(iop, rd, rs1, imm12) => (rd, ImmResult(iop, ReadReg(a.regs, rs1), SignExtend12(imm12)))
    case ShiftImm(sop, rd, rs1, shamt) => (rd, ShiftResult(sop, ReadReg(a.regs, rs1), shamt))
    case Op(rop, rd, rs1, rs2) => (rd, RegResult(rop, ReadReg(a.regs, rs1), ReadReg(a.regs, rs2)))
    case Csr(_, rd, addr, _) => (rd, ReadCsr(a.csrs, mip, addr))
    case _ => (0, 0)
  }

  function NextPc(a: Arch, i: Instr): Word {
    if i.Mret? then a.csrs.mepc
    else
      var target := JumpTarget(a, i);
      if target.Some? then target.value else Plus(a.pc, 4)
  }

  // ---- one step ---------------------------------------------------------------------------------------

  /** How the step ends. A trap carries the CSR state it is entered from: effects that the
      instruction has already had on the CSRs stay. A halt reports a trap beside it only when
      an interrupt and a failing bus reply meet. */
  datatype Outcome =
    | Stops(kind: HaltKind, bus: seq<BusEvent>, trap: TrapEffect)
    | Traps(cause: Word, from: Csrs, bus: seq<BusEvent>)
    | Completes(rd: RegIndex, rdValue: Word, store: StoreEffect, next: Word, csrs: Csrs, bus: seq<BusEvent>)

  /** An ECALL, or an interrupt, on the first instruction of a trap handler stops the machine. */
  predicate DoubleTrap(a: Arch, from: Csrs) { a.lastTrap && a.pc == from.mtvec }

  function BusErrorKind(i: Instr): HaltKind {
    if i.Store? then Uarch.HaltBusErrorSt else Uarch.HaltBusErrorLd
  }

  /** An interrupt on instruction `i`, which may already have acted on the CSRs and the bus. */
  function Interrupted(env: Env, a: Arch, i: Instr, s: Sample, cause: Word, from: Csrs): Outcome {
    var sent := IsMemory(i) && s.sent;
    var bus := if sent then a.bus + [Transaction(a, i)] else a.bus;
    if sent && s.answered && env.reply(bus).error then
      Stops(BusErrorKind(i), bus, if DoubleTrap(a, from) then NoTrap else Trap(cause, a.pc, 0))
    else if DoubleTrap(a, from) then Stops(Uarch.HaltDoubleTrap, bus, NoTrap)
    else Traps(cause, from, bus)
  }

  function Perform(env: Env, a: Arch, i: Instr, s: Sample): Outcome {
    var csrs := CsrsAfter(a, i, s.mipRead);
    if IsMemory(i) then
      var addr := DataAddress(a, i);
      var bus := a.bus + [Transaction(a, i)];
      var reply := env.reply(bus);
      if reply.error then
        Stops(BusErrorKind(i), bus, NoTrap)
      else
        var (rd, v) := Result(a, i, s.mipRead, reply.rdata);
        Completes(rd, v,
                  if i.Store? then StoreEffect(addr, ReadReg(a.regs, i.rs2), Lanes(addr, Width(i))) else NoStore,
                  Plus(a.pc, 4), csrs, bus)
    else
      var (rd, v) := Result(a, i, s.mipRead, 0);
      Completes(rd, v, NoStore, NextPc(a, i), csrs, a.bus)
  }

  function OutcomeOf(env: Env, a: Arch, s: Sample): Outcome {
    var f := env.code(a.pc);
    var i := Decode(f.inst);
    var early := EarlyHalt(a, i, f.error);
    var from := CsrsAfter(a, i, s.mipRead);
    var interrupt := PendingInterrupt(from, s.mipTake);
    if early != Uarch.HaltNone then Stops(early, a.bus, NoTrap)
    else if interrupt.Some? then Interrupted(env, a, i, s, interrupt.value, from)
    else if i.Ecall? then
      if DoubleTrap(a, from) then Stops(Uarch.HaltDoubleTrap, a.bus, NoTrap) else Traps(11, from, a.bus)
    else Perform(env, a, i, s)
  }

  /** The state after one step, and what the step reports. A halted machine stays put. */
  function Step(env: Env, a: Arch, s: Sample): Arch {
    if a.halted then a
    else
      match OutcomeOf(env, a, s)
      case Stops(_, bus, _) => a.(bus := bus, lastTrap := false, halted := true)
      case Traps(cause, from, bus) =>
        a.(pc := from.mtvec, csrs := EnterTrap(from, cause, a.pc, 0), bus := bus, lastTrap := true)
      case Completes(rd, v, _, next, csrs, bus) =>
        Arch(next, WriteReg(a.regs, rd, v), csrs, bus, false, false)
  }

  function Report(env: Env, a: Arch, s: Sample): Commit {
    match OutcomeOf(env, a, s)
    case Stops(kind, _, trap) => Commit(a.pc, 0, 0, NoStore, Halt(kind, Uarch.HaltExitCode(kind, a.regs[10])), trap)
    case Traps(cause, _, _) => Commit(a.pc, 0, 0, NoStore, Running, Trap(cause, a.pc, 0))
    case Completes(rd, v, store, _, _, _) => Commit(a.pc, rd, if rd == 0 then 0 else v, store, Running, NoTrap)
  }

  // ---- runs ----------------------------------------------------------------------------------------------

  function Run(env: Env, a: Arch, samples: seq<Sample>): Arch
    decreases |samples|
  {
    if samples == [] then a
    else Step(env, Run(env, a, samples[..|samples| - 1]), samples[|samples| - 1])
  }

  function Reports(env: Env, a: Arch, samples: seq<Sample>): (commits: seq<Commit>)
    ensures |commits| == |samples|
    decreases |samples|
  {
    if samples == [] then []
    else
      var before := samples[..|samples| - 1];
      Reports(env, a, before) + [Report(env, Run(env, a, before), samples[|samples| - 1])]
  }
}

/** The decoder against the instruction set: decoding inverts encoding, the decoder accepts
    exactly the legal words plus one family of reserved ones, and its control signals say what
    the instruction is. */
module DecodeCorrect {
  import opened Words
  import opened Uarch
  import opened Isa
  import Rtl = Decoder

  // ---- the format slices invert the format builders -----------------------------------------

  lemma RTypeFields(opcode: bv7, f3: bv3, f7: bv7, rd: RegIndex, rs1: RegIndex, rs2: RegIndex)
    ensures var w := RType(opcode, f3, f7, rd, rs1, rs2);
      && Opcode(w) == opcode && Funct3(w) == f3 && Funct7(w) == f7
      && Rd(w) == rd && Rs1(w) == rs1 && Rs2(w) == rs2
  {}

  lemma ITypeFields(opcode: bv7, f3: bv3, rd: RegIndex, rs1: RegIndex, imm12: bv12)
    ensures var w := IType(opcode, f3, rd, rs1, imm12);
      && Opcode(w) == opcode && Funct3(w) == f3 && Rd(w) == rd && Rs1(w) == rs1 && Funct12(w) == imm12
  {}

  lemma STypeFields(opcode: bv7, f3: bv3, rs1: RegIndex, rs2: RegIndex, imm12: bv12)
    ensures var w := SType(opcode, f3, rs1, rs2, imm12);
      Opcode(w) == opcode && Funct3(w) == f3 && Rs1(w) == rs1 && Rs2(w) == rs2 && StoreImm12(w) == imm12
  {}

  lemma BTypeFields(opcode: bv7, f3: bv3, rs1: RegIndex, rs2: RegIndex, off12: bv12)
    ensures var w := BType(opcode, f3, rs1, rs2, off12);
      Opcode(w) == opcode && Funct3(w) == f3 && Rs1(w) == rs1 && Rs2(w) == rs2 && BranchOff12(w) == off12
  {}

  lemma UTypeFields(opcode: bv7, rd: RegIndex, imm20: bv20)
    ensures var w := UType(opcode, rd, imm20);
      Opcode(w) == opcode && Rd(w) == rd && UpperImm20(w) == imm20
  {}

  lemma JTypeFields(opcode: bv7, rd: RegIndex, off20: bv20)
    ensures var w := JType(opcode, rd, off20);
      Opcode(w) == opcode && Rd(w) == rd && JumpOff20(w) == off20
  {}

  lemma DecodeEncodeCsr(i: Instr)
    requires i.Csr?
    ensures Decode(Encode(i)) == i
    ensures !Reserved(Encode(i))
  {
    hide Opcode, Rd, Rs1, Rs2, Funct3, Funct7, Funct12, IType, DecodePrivileged;
    ITypeFields(OPCODE_SYSTEM, CsrFunct3(i.cop, i.src), i.rd, if i.src.FromImm? then i.src.uimm else i.src.rs1, i.addr);
    assert Decode(Encode(i)) == DecodeSystem(Encode(i));
  }

  lemma DecodeEncodeSystem(i: Instr)
    requires i.Ecall? || i.Ebreak? || i.Mret? || i.Wfi?
    ensures Decode(Encode(i)) == i
    ensures !Reserved(Encode(i))
  {
    hide Opcode, Rd, Rs1, Rs2, Funct3, Funct7, Funct12, RType, IType, SType, BType, UType, JType,
         StoreImm12, BranchOff12, JumpOff20, UpperImm20;
    match i
    case Ecall => ITypeFields(OPCODE_SYSTEM, 0, 0, 0, FUNCT12_ECALL);
    case Ebreak => ITypeFields(OPCODE_SYSTEM, 0, 0, 0, FUNCT12_EBREAK);
    case Mret => ITypeFields(OPCODE_SYSTEM, 0, 0, 0, FUNCT12_MRET);
    case Wfi => ITypeFields(OPCODE_SYSTEM, 0, 0, 0, FUNCT12_WFI);
  }

  lemma DecodeEncodeMemory(i: Instr)
    requires i.Load? || i.Store?
    ensures Decode(Encode(i)) == i
    ensures !Reserved(Encode(i))
  {
    hide Opcode, Rd, Rs1, Rs2, Funct3, Funct7, Funct12, RType, IType, SType, BType, UType, JType,
         StoreImm12, BranchOff12, JumpOff20, UpperImm20;
    match i
    case Load(lk, rd, rs1, imm12) => ITypeFields(OPCODE_LOAD, LoadFunct3(lk), rd, rs1, imm12);
    case Store(sk, rs1, rs2, imm12) => STypeFields(OPCODE_STORE, StoreFunct3(sk), rs1, rs2, imm12);
  }

  lemma DecodeEncodeBranch(i: Instr)
    requires i.Branch?
    ensures Decode(Encode(i)) == i
    ensures !Reserved(Encode(i))
  {
    hide Opcode, Rd, Rs1, Rs2, Funct3, Funct7, Funct12, RType, IType, SType, BType, UType, JType,
         StoreImm12, BranchOff12, JumpOff20, UpperImm20;
    BTypeFields(OPCODE_BRANCH, CondFunct3(i.cond), i.rs1, i.rs2, i.off12);
  }

  lemma DecodeEncodeAlu(i: Instr)
    requires i.OpImm? || i.ShiftImm? || i.Op?
    ensures Decode(Encode(i)) == i
    ensures !Reserved(Encode(i))
  {
    hide Opcode, Rd, Rs1, Rs2, Funct3, Funct7, Funct12, RType, IType, SType, BType, UType, JType,
         StoreImm12, BranchOff12, JumpOff20, UpperImm20;
    match i
    case OpImm(iop, rd, rs1, imm12) => ITypeFields(OPCODE_OP_IMM, ImmFunct3(iop), rd, rs1, imm12);
    case ShiftImm(sop, rd, rs1, shamt) =>
      RTypeFields(OPCODE_OP_IMM, ShiftFunct3(sop), if sop == Sra then 0x20 else 0, rd, rs1, shamt);
    case Op(rop, rd, rs1, rs2) =>
      RTypeFields(OPCODE_OP, RegFunct3(rop), if rop == Sub || rop == SraR then 0x20 else 0, rd, rs1, rs2);
  }

  /** Decoding inverts encoding, for every legal instruction. */
  lemma DecodeEncode(i: Instr)
    requires !i.Illegal?
    ensures Decode(Encode(i)) == i
    ensures !Reserved(Encode(i))
  {
    hide Opcode, Rd, Rs1, Rs2, Funct3, Funct7, Funct12, RType, IType, SType, BType, UType, JType,
         StoreImm12, BranchOff12, JumpOff20, UpperImm20;
    match i
    case Lui(rd, imm20) => UTypeFields(OPCODE_LUI, rd, imm20);
    case Auipc(rd, imm20) => UTypeFields(OPCODE_AUIPC, rd, imm20);
    case Jal(rd, off20) => JTypeFields(OPCODE_JAL, rd, off20);
    case Jalr(rd, rs1, imm12) => ITypeFields(OPCODE_JALR, 0, rd, rs1, imm12);
    case Branch(_, _, _, _) => DecodeEncodeBranch(i);
    case Load(_, _, _, _) => DecodeEncodeMemory(i);
    case Store(_, _, _, _) => DecodeEncodeMemory(i);
    case Fence(rd, rs1, imm12) => ITypeFields(OPCODE_MISC_MEM, 0, rd, rs1, imm12);
    case OpImm(_, _, _, _) => DecodeEncodeAlu(i);
    case ShiftImm(_, _, _, _) => DecodeEncodeAlu(i);
    case Op(_, _, _, _) => DecodeEncodeAlu(i);
    case Csr(_, _, _, _) => DecodeEncodeCsr(i);
    case _ => DecodeEncodeSystem(i);
  }

  // ---- the format builders invert the slices ---------------------------------------------------

  lemma RTypeRebuild(w: Word)
    ensures RType(Opcode(w), Funct3(w), Funct7(w), Rd(w), Rs1(w), Rs2(w)) == w
  {}

  lemma ITypeRebuild(w: Word)
    ensures IType(Opcode(w), Funct3(w), Rd(w), Rs1(w), Funct12(w)) == w
  {}

  lemma STypeRebuild(w: Word)
    ensures SType(Opcode(w), Funct3(w), Rs1(w), Rs2(w), StoreImm12(w)) == w
  {}

  lemma BTypeRebuild(w: Word)
    ensures BType(Opcode(w), Funct3(w), Rs1(w), Rs2(w), BranchOff12(w)) == w
  {}

  lemma UTypeRebuild(w: Word)
    ensures UType(Opcode(w), Rd(w), UpperImm20(w)) == w
  {}

  lemma JTypeRebuild(w: Word)
    ensures JType(Opcode(w), Rd(w), JumpOff20(w)) == w
  {}

  lemma EncodeDecodeSystem(w: Word)
    requires Opcode(w) == OPCODE_SYSTEM && !Decode(w).Illegal?
    ensures Encode(Decode(w)) == w
  {
    hide Opcode, Rd, Rs1, Rs2, Funct3, Funct7, Funct12, RType, IType, SType, BType, UType, JType,
         StoreImm12, BranchOff12, JumpOff20, UpperImm20;
    ITypeRebuild(w);
  }

  lemma EncodeDecodeOp(w: Word)
    requires Opcode(w) == OPCODE_OP && !Decode(w).Illegal? && !Reserved(w)
    ensures Encode(Decode(w)) == w
  {
    hide Opcode, Rd, Rs1, Rs2, Funct3, Funct7, Funct12, RType, IType, SType, BType, UType, JType,
         StoreImm12, BranchOff12, JumpOff20, UpperImm20;
    RTypeRebuild(w);
  }

  lemma EncodeDecodeOpImm(w: Word)
    requires Opcode(w) == OPCODE_OP_IMM && !Decode(w).Illegal?
    ensures Encode(Decode(w)) == w
  {
    hide Opcode, Rd, Rs1, Rs2, Funct3, Funct7, Funct12, RType, IType, SType, BType, UType, JType,
         StoreImm12, BranchOff12, JumpOff20, UpperImm20;
    RTypeRebuild(w);
    ITypeRebuild(w);
  }

  lemma EncodeDecodeMemory(w: Word)
    requires Opcode(w) == OPCODE_LOAD || Opcode(w) == OPCODE_STORE || Opcode(w) == OPCODE_BRANCH
    requires !Decode(w).Illegal?
    ensures Encode(Decode(w)) == w
  {
    hide Opcode, Rd, Rs1, Rs2, Funct3, Funct7, Funct12, RType, IType, SType, BType, UType, JType,
         StoreImm12, BranchOff12, JumpOff20, UpperImm20;
    ITypeRebuild(w);
    STypeRebuild(w);
    BTypeRebuild(w);
  }

  lemma EncodeDecodeRest(w: Word)
    requires !Decode(w).Illegal?
    requires Opcode(w) != OPCODE_SYSTEM && Opcode(w) != OPCODE_OP && Opcode(w) != OPCODE_OP_IMM
    requires Opcode(w) != OPCODE_LOAD && Opcode(w) != OPCODE_STORE && Opcode(w) != OPCODE_BRANCH
    ensures Encode(Decode(w)) == w
  {
    hide Opcode, Rd, Rs1, Rs2, Funct3, Funct7, Funct12, RType, IType, SType, BType, UType, JType,
         StoreImm12, BranchOff12, JumpOff20, UpperImm20;
    ITypeRebuild(w);
    UTypeRebuild(w);
    JTypeRebuild(w);
  }

  /** Encoding inverts decoding on every word the machine accepts, reserved ones aside. */
  lemma EncodeDecode(w: Word)
    requires !Decode(w).Illegal? && !Reserved(w)
    ensures Encode(Decode(w)) == w
  {
    hide *;
    if Opcode(w) == OPCODE_SYSTEM {
      EncodeDecodeSystem(w);
    } else if Opcode(w) == OPCODE_OP {
      EncodeDecodeOp(w);
    } else if Opcode(w) == OPCODE_OP_IMM {
      EncodeDecodeOpImm(w);
    } else if Opcode(w) == OPCODE_LOAD || Opcode(w) == OPCODE_STORE || Opcode(w) == OPCODE_BRANCH {
      EncodeDecodeMemory(w);
    } else {
      EncodeDecodeRest(w);
    }
  }

  // ---- the control signals of src/decoder.sv ---------------------------------------------------

  predicate Dest(ir: DecodedIr, rd: RegIndex) { ir.rd == rd && ir.rdToWrite == (rd != 0) }
  predicate Uses1(ir: DecodedIr, r: RegIndex) { ir.rs1Use && ir.rs1 == r && !ir.rs2Use }
  predicate Uses2(ir: DecodedIr, r1: RegIndex, r2: RegIndex) {
    ir.rs1Use && ir.rs1 == r1 && ir.rs2Use && ir.rs2 == r2
  }
  predicate UsesNone(ir: DecodedIr) { !ir.rs1Use && !ir.rs2Use }

  predicate IsJalrWord(ir: DecodedIr) { Opcode(ir.rawInst) == OPCODE_JALR }

  predicate AluSignals(ir: DecodedIr, op: AluOp, op1: Op1Sel, op2: Op2Sel) {
    ir.fu == FuInt && ir.sysKind == SysNot && !ir.illegal && ir.aluOp == op && ir.op1 == op1 && ir.op2 == op2
  }

  /** Loads and stores add the immediate to rs1. */
  predicate AddressSignals(ir: DecodedIr, fu: FuType, imm12: bv12, len: MemLen) {
    && ir.fu == fu && ir.sysKind == SysNot && !ir.illegal && ir.memLen == len
    && ir.aluOp == AluAdd && ir.op1 == Op1Rs1 && ir.op2 == Op2Imm && ir.imm == SignExtend12(imm12)
  }

  predicate JumpSignals(ir: DecodedIr, op: BranchOp, imm: Word, jalr: bool) {
    ir.fu == FuBranch && ir.sysKind == SysNot && ir.branchOp == op && ir.imm == imm && IsJalrWord(ir) == jalr
  }

  function AluOfImm(op: ImmOp): AluOp {
    match op case Addi => AluAdd case Slti => AluSlt case Sltiu => AluSltu
             case Xori => AluXor case Ori => AluOr case Andi => AluAnd
  }
  function AluOfShift(op: ShiftOp): AluOp { match op case Sll => AluSll case Srl => AluSrl case Sra => AluSra }
  function AluOfReg(op: RegOp): AluOp {
    match op
    case Add => AluAdd case Sub => AluSub case SllR => AluSll case Slt => AluSlt case Sltu => AluSltu
    case Xor => AluXor case SrlR => AluSrl case SraR => AluSra case Or => AluOr case And => AluAnd
  }
  function BranchOf(c: Cond): BranchOp {
    match c case Eq => BrEq case Ne => BrNe case Lt => BrLt case Ge => BrGe case Ltu => BrLtu case Geu => BrGeu
  }
  function LenOfLoad(k: LoadKind): MemLen {
    match k case Lb => Len1 case Lbu => Len1 case Lh => Len2 case Lhu => Len2 case Lw => Len4
  }
  function LenOfStore(k: StoreKind): MemLen { match k case Sb => Len1 case Sh => Len2 case Sw => Len4 }
  function SysOfCsr(op: CsrOp): SysKind { match op case Rw => SysCsrRw case Rs => SysCsrRs case Rc => SysCsrRc }

  /** The control signals say what instruction `i` is. */
  predicate Implements(ir: DecodedIr, i: Instr) {
    match i
    case Lui(rd, imm20) =>
      AluSignals(ir, AluAdd, Op1Zero, Op2Imm) && Dest(ir, rd) && UsesNone(ir) && ir.imm == UpperImmediate(imm20)
    case Auipc(rd, imm20) =>
      AluSignals(ir, AluAdd, Op1Pc, Op2Imm) && Dest(ir, rd) && UsesNone(ir) && ir.imm == UpperImmediate(imm20)
    case Jal(rd, off20) => JumpSignals(ir, BrJump, Offset20(off20), false) && Dest(ir, rd) && UsesNone(ir) && !ir.illegal
    case Jalr(rd, rs1, imm12) =>
      JumpSignals(ir, BrJump, SignExtend12(imm12), true) && Dest(ir, rd) && Uses1(ir, rs1) && !ir.illegal
    case Branch(cond, rs1, rs2, off12) =>
      JumpSignals(ir, BranchOf(cond), Offset12(off12), false) && !ir.rdToWrite && Uses2(ir, rs1, rs2) && !ir.illegal
    case Load(lk, rd, rs1, imm12) =>
      AddressSignals(ir, FuLoad, imm12, LenOfLoad(lk)) && Dest(ir, rd) && Uses1(ir, rs1) &&
      ir.loadSignext == (lk != Lbu && lk != Lhu)
    case Store(sk, rs1, rs2, imm12) =>
      AddressSignals(ir, FuStore, imm12, LenOfStore(sk)) && !ir.rdToWrite && Uses2(ir, rs1, rs2)
    case OpImm(iop, rd, rs1, imm12) =>
      AluSignals(ir, AluOfImm(iop), Op1Rs1, Op2Imm) && Dest(ir, rd) && Uses1(ir, rs1) && ir.imm == SignExtend12(imm12)
    case ShiftImm(sop, rd, rs1, shamt) =>
      AluSignals(ir, AluOfShift(sop), Op1Rs1, Op2Imm) && Dest(ir, rd) && Uses1(ir, rs1) && Shamt(ir.imm) == shamt
    case Op(rop, rd, rs1, rs2) => AluSignals(ir, AluOfReg(rop), Op1Rs1, Op2Rs2) && Dest(ir, rd) && Uses2(ir, rs1, rs2)
    case Fence(_, _, _) => ir.fu == FuInt && ir.sysKind == SysNot && !ir.illegal && !ir.rdToWrite && UsesNone(ir)
    case Ecall => ir.fu == FuSystem && ir.sysKind == SysEcall && !ir.illegal && !ir.rdToWrite && UsesNone(ir)
    case Ebreak => ir.fu == FuSystem && ir.sysKind == SysEbreak && !ir.illegal && !ir.rdToWrite && UsesNone(ir)
    case Mret => ir.fu == FuSystem && ir.sysKind == SysMret && !ir.illegal && !ir.rdToWrite && UsesNone(ir)
    case Wfi => ir.fu == FuSystem && ir.sysKind == SysWfi && !ir.illegal && !ir.rdToWrite && UsesNone(ir)
    case Csr(cop, rd, addr, src) =>
      && ir.fu == FuCsr && ir.sysKind == SysOfCsr(cop) && !ir.illegal && Dest(ir, rd) && ir.csrAddr == addr
      && ir.csrWrites == CsrWrites(cop, src)
      && (match src
          case FromReg(rs1) => Uses1(ir, rs1) && !ir.csrSourceIsImm
          case FromImm(uimm) => UsesNone(ir) && ir.csrSourceIsImm && ir.csrSourceImm == uimm as bv32)
    case Illegal(jump) =>
      && ir.illegal
      && (match jump
          case NoJump => ir.fu != FuBranch && ir.fu != FuCsr
          case Relative(off12) => JumpSignals(ir, BrJump, Offset12(off12), false)
          case Indirect(rs1, imm12) => JumpSignals(ir, BrJump, SignExtend12(imm12), true) && Uses1(ir, rs1))
  }

  lemma ImmediatesAgree(w: Word)
    ensures Rtl.StoreImm(w) == SignExtend12(StoreImm12(w))
    ensures Shamt(SignExtend12(Funct12(w))) == Rs2(w)
    ensures (Funct7(w) & 0x20 != 0 && (Funct7(w) == 0 || Funct7(w) == 0x20)) <==> Funct7(w) == 0x20
  {}

  lemma UpperImmediatesAgree(w: Word)
    ensures w & 0xffff_f000 == UpperImmediate(UpperImm20(w))
  {}

  lemma BranchOffsetSign(w: Word)
    ensures BranchOff12(w) >= 0x800 <==> w >= 0x8000_0000
  {}

  lemma BranchOffsetsAgree(w: Word)
    ensures Rtl.BranchImm(w) == Offset12(BranchOff12(w))
  {
    BranchOffsetSign(w);
  }

  /** The 19 low bits of a J immediate, in units of two bytes. */
  function JumpBody(w: Word): Word {
    (((w >> 12) & 0xff) << 11) | (((w >> 20) & 1) << 10) | ((w >> 21) & 0x3ff)
  }

  lemma JumpBodyShifts(w: Word)
    ensures JumpBody(w) << 1 == (((w >> 12) & 0xff) << 12) | (((w >> 20) & 1) << 11) | (((w >> 21) & 0x3ff) << 1)
  {}

  lemma JumpOffParts(w: Word)
    ensures JumpOff20(w) as bv32 == ((w >> 31) << 19) | JumpBody(w)
  {}

  lemma JumpOffSign(w: Word)
    ensures JumpOff20(w) >= 0x8_0000 <==> w >= 0x8000_0000
  {}

  lemma SignFill(w: Word, b: Word)
    ensures w >= 0x8000_0000 ==> ((((w >> 31) << 19) | b) | 0xfff0_0000) << 1 == 0xfff0_0000 | (b << 1)
    ensures w < 0x8000_0000 ==> (((w >> 31) << 19) | b) << 1 == b << 1
  {}

  lemma OrAssociates(a: Word, b: Word, c: Word, d: Word)
    ensures a | (b | c | d) == a | b | c | d
  {}

  lemma JumpOffsetsAgree(w: Word)
    ensures Rtl.JumpImm(w) == Offset20(JumpOff20(w))
  {
    hide JumpBody, JumpOff20;
    JumpOffParts(w);
    JumpOffSign(w);
    JumpBodyShifts(w);
    SignFill(w, JumpBody(w));
    OrAssociates(if w >= 0x8000_0000 then 0xfff0_0000 else 0,
                 ((w >> 12) & 0xff) << 12, ((w >> 20) & 1) << 11, ((w >> 21) & 0x3ff) << 1);
  }

  lemma AluOpsAgree(f3: bv3, alternate: bool)
    ensures AluOfReg(RegOpOf(f3, alternate)) == Rtl.AluOfFunct3(f3, alternate)
    ensures f3 != 1 && f3 != 5 ==> AluOfImm(ImmOpOf(f3)) == Rtl.AluOfFunct3(f3, false)
    ensures f3 == 1 ==> AluOfShift(ShiftOfFunct(f3, alternate)) == Rtl.AluOfFunct3(f3, false)
    ensures f3 == 5 ==> AluOfShift(ShiftOfFunct(f3, alternate)) == Rtl.AluOfFunct3(f3, alternate)
  {}

  lemma DecoderOp(pc: Word, w: Word, busError: bool)
    requires Opcode(w) == OPCODE_OP
    ensures Implements(Rtl.DecodeOp(Rtl.Base(pc, w, busError), w), DecodeOp(w))
  {
    ImmediatesAgree(w);
    AluOpsAgree(Funct3(w), Funct7(w) == 0x20);
    hide Opcode, Rd, Rs1, Rs2, Funct3, Funct7, AluOfReg, RegOpOf, Rtl.AluOfFunct3;
  }

  lemma DecoderOpImm(pc: Word, w: Word, busError: bool)
    requires Opcode(w) == OPCODE_OP_IMM
    ensures Implements(Rtl.DecodeOpImm(Rtl.Base(pc, w, busError), w), DecodeOpImm(w))
  {
    ImmediatesAgree(w);
    AluOpsAgree(Funct3(w), Funct7(w) == 0x20);
    hide Opcode, Rd, Rs1, Rs2, Funct3, Funct7, Funct12, AluOfImm, ImmOpOf, AluOfShift, ShiftOfFunct,
         Rtl.AluOfFunct3, SignExtend12, Shamt;
  }

  lemma DecoderLoad(pc: Word, w: Word, busError: bool)
    requires Opcode(w) == OPCODE_LOAD
    ensures Implements(Rtl.DecodeLoad(Rtl.Base(pc, w, busError), w), DecodeLoad(w))
  {
    hide Opcode, Rd, Rs1, Rs2, Funct3, Funct12, SignExtend12, LoadKindOf, LenOfLoad;
    if Funct3(w) != 3 && Funct3(w) < 6 {
      LoadKinds(Funct3(w));
    }
  }

  lemma LoadKinds(f3: bv3)
    requires f3 != 3 && f3 < 6
    ensures LenOfLoad(LoadKindOf(f3)) == if f3 == 0 || f3 == 4 then Len1 else if f3 == 1 || f3 == 5 then Len2 else Len4
    ensures (LoadKindOf(f3) != Lbu && LoadKindOf(f3) != Lhu) == (f3 == 0 || f3 == 1 || f3 == 2)
  {}

  lemma DecoderStore(pc: Word, w: Word, busError: bool)
    requires Opcode(w) == OPCODE_STORE
    ensures Implements(Rtl.DecodeStore(Rtl.Base(pc, w, busError), w), DecodeStore(w))
  {
    ImmediatesAgree(w);
    hide Opcode, Rd, Rs1, Rs2, Funct3, SignExtend12, StoreImm12, Rtl.StoreImm;
  }

  lemma DecoderBranch(pc: Word, w: Word, busError: bool)
    requires Opcode(w) == OPCODE_BRANCH
    ensures Implements(Rtl.DecodeBranch(Rtl.Base(pc, w, busError), w), DecodeBranch(w))
  {
    BranchOffsetsAgree(w);
    hide Opcode, Rd, Rs1, Rs2, Funct3, Offset12, BranchOff12, Rtl.BranchImm;
  }

  lemma DecoderJal(pc: Word, w: Word, busError: bool)
    requires Opcode(w) == OPCODE_JAL
    ensures Implements(Rtl.DecodeJal(Rtl.Base(pc, w, busError), w), Jal(Rd(w), JumpOff20(w)))
  {
    JumpOffsetsAgree(w);
    hide Opcode, Rd, Rs1, Rs2, Offset20, JumpOff20, Rtl.JumpImm;
  }

  lemma DecoderJalr(pc: Word, w: Word, busError: bool)
    requires Opcode(w) == OPCODE_JALR
    ensures Implements(Rtl.DecodeJalr(Rtl.Base(pc, w, busError), w),
                       if Funct3(w) == 0 then Jalr(Rd(w), Rs1(w), Funct12(w)) else Illegal(Indirect(Rs1(w), Funct12(w))))
  {
    hide Opcode, Rd, Rs1, Rs2, Funct3, Funct12, SignExtend12;
  }

  lemma DecoderPrivileged(pc: Word, w: Word, busError: bool)
    ensures Implements(Rtl.DecodePrivileged(Rtl.Base(pc, w, busError), w), DecodePrivileged(w))
  {
    hide Opcode, Rd, Rs1, Rs2, Funct3, Funct12;
  }

  lemma DecoderCsr(pc: Word, w: Word, busError: bool)
    requires Funct3(w) != 0 && Funct3(w) != 4
    ensures Implements(Rtl.DecodeCsr(Rtl.Base(pc, w, busError), w), DecodeSystem(w))
  {
    hide Opcode, Rd, Rs1, Rs2, Funct3, Funct12, DecodePrivileged;
  }

  lemma DecoderLui(pc: Word, w: Word, busError: bool)
    ensures Implements(Rtl.DecodeUpper(Rtl.Base(pc, w, busError), w, Op1Zero), Lui(Rd(w), UpperImm20(w)))
  {
    hide Opcode, Rd, Rs1, Rs2, UpperImm20, UpperImmediate;
    UpperImmediatesAgree(w);
  }

  lemma DecoderAuipc(pc: Word, w: Word, busError: bool)
    ensures Implements(Rtl.DecodeUpper(Rtl.Base(pc, w, busError), w, Op1Pc), Auipc(Rd(w), UpperImm20(w)))
  {
    hide Opcode, Rd, Rs1, Rs2, UpperImm20, UpperImmediate;
    UpperImmediatesAgree(w);
  }

  /** The decoder's control signals describe the decoded instruction, for every word. */
  lemma DecoderImplements(pc: Word, w: Word, busError: bool)
    ensures Implements(Rtl.Decode(pc, w, busError), Decode(w))
  {
    hide Opcode, Rd, Rs1, Rs2, Funct3, Funct12, Implements, DecodeOp, DecodeOpImm, DecodeLoad, DecodeStore,
         DecodeBranch, DecodePrivileged, Rtl.DecodeOp, Rtl.DecodeOpImm, Rtl.DecodeLoad, Rtl.DecodeStore,
         Rtl.DecodeBranch, Rtl.DecodeJal, Rtl.DecodeJalr, Rtl.DecodePrivileged, Rtl.DecodeCsr, Rtl.Base, Rtl.DecodeUpper,
         UpperImm20, JumpOff20;
    if Opcode(w) == OPCODE_OP {
      DecoderOp(pc, w, busError);
    } else if Opcode(w) == OPCODE_OP_IMM {
      DecoderOpImm(pc, w, busError);
    } else if Opcode(w) == OPCODE_LOAD {
      DecoderLoad(pc, w, busError);
    } else if Opcode(w) == OPCODE_STORE {
      DecoderStore(pc, w, busError);
    } else if Opcode(w) == OPCODE_BRANCH {
      DecoderBranch(pc, w, busError);
    } else if Opcode(w) == OPCODE_JAL {
      DecoderJal(pc, w, busError);
    } else if Opcode(w) == OPCODE_JALR {
      DecoderJalr(pc, w, busError);
    } else if Opcode(w) == OPCODE_LUI || Opcode(w) == OPCODE_AUIPC {
      DecoderLui(pc, w, busError);
      DecoderAuipc(pc, w, busError);
    } else {
      DecoderSystemAndRest(pc, w, busError);
    }
  }

  lemma DecoderSystemAndRest(pc: Word, w: Word, busError: bool)
    requires Opcode(w) !in {OPCODE_OP, OPCODE_OP_IMM, OPCODE_LOAD, OPCODE_STORE, OPCODE_BRANCH,
                            OPCODE_JAL, OPCODE_JALR, OPCODE_LUI, OPCODE_AUIPC}
    ensures Implements(Rtl.Decode(pc, w, busError), Decode(w))
  {
    if Funct3(w) == 0 {
      DecoderPrivileged(pc, w, busError);
    } else if Funct3(w) != 4 {
      DecoderCsr(pc, w, busError);
    }
    hide Opcode, Rd, Rs1, Rs2, Funct3, Funct12, DecodePrivileged, Rtl.DecodePrivileged, Rtl.DecodeCsr;
  }

  /** The decoder accepts a word exactly when it encodes a legal instruction or is reserved. */
  lemma DecoderAccepts(pc: Word, w: Word, busError: bool)
    ensures !Rtl.Decode(pc, w, busError).illegal <==> Reserved(w) || exists i: Instr :: !i.Illegal? && Encode(i) == w
  {
    DecoderImplements(pc, w, busError);
    assert !Rtl.Decode(pc, w, busError).illegal <==> !Decode(w).Illegal? by {
      hide Opcode, Rd, Rs1, Rs2, Funct3, Funct7, Funct12, Rtl.Decode, Decode;
    }
    hide *;
    if !Decode(w).Illegal? && !Reserved(w) {
      EncodeDecode(w);
    }
    forall i: Instr | !i.Illegal? && Encode(i) == w
      ensures !Decode(w).Illegal?
    {
      DecodeEncode(i);
    }
    ReservedIsAccepted(w);
  }

  lemma ReservedIsAccepted(w: Word)
    ensures Reserved(w) ==> !Decode(w).Illegal?
  {
    hide Opcode, Rd, Rs1, Rs2, Funct3, Funct7, Funct12;
  }

  lemma KnownComputations()
    ensures Decode(0x0031_00b3) == Op(Add, 1, 2, 3) && Decode(0x4031_00b3) == Op(Sub, 1, 2, 3)
    ensures Decode(0x0051_0093) == OpImm(Addi, 1, 2, 5) && Decode(0x4051_5093) == ShiftImm(Sra, 1, 2, 5)
    ensures Decode(0x1234_50b7) == Lui(1, 0x12345) && Decode(0x1234_5097) == Auipc(1, 0x12345)
  {}

  lemma KnownTransfers()
    ensures Decode(0x0041_2083) == Load(Lw, 1, 2, 4) && Decode(0x0031_2423) == Store(Sw, 2, 3, 8)
    ensures Decode(0x0020_8463) == Branch(Eq, 1, 2, 4)
    ensures Decode(0x0100_00ef) == Jal(1, 8) && Decode(0x0041_00e7) == Jalr(1, 2, 4)
  {}

  lemma KnownSystem()
    ensures Decode(0x0ff0_000f) == Fence(0, 0, 0xff) && Decode(0x3051_10f3) == Csr(Rw, 1, 0x305, FromReg(2))
    ensures Decode(0x0000_0073) == Ecall && Decode(0x0010_0073) == Ebreak
    ensures Decode(0x3020_0073) == Mret && Decode(0x1050_0073) == Wfi
  {}

  /** A word of each opcode, and each privileged instruction, as the instruction set lists them. */
  lemma KnownWords()
    ensures Decode(0x0031_00b3) == Op(Add, 1, 2, 3) && Decode(0x0051_0093) == OpImm(Addi, 1, 2, 5)
    ensures Decode(0x0041_2083) == Load(Lw, 1, 2, 4) && Decode(0x0031_2423) == Store(Sw, 2, 3, 8)
    ensures Decode(0x0020_8463) == Branch(Eq, 1, 2, 4) && Decode(0x0100_00ef) == Jal(1, 8) && Decode(0x0041_00e7) == Jalr(1, 2, 4)
    ensures Decode(0x1234_50b7) == Lui(1, 0x12345) && Decode(0x1234_5097) == Auipc(1, 0x12345)
    ensures Decode(0x0ff0_000f) == Fence(0, 0, 0xff) && Decode(0x3051_10f3) == Csr(Rw, 1, 0x305, FromReg(2))
    ensures Decode(0x0000_0073) == Ecall && Decode(0x0010_0073) == Ebreak
    ensures Decode(0x3020_0073) == Mret && Decode(0x1050_0073) == Wfi
  {
    hide Decode;
    KnownComputations();
    KnownTransfers();
    KnownSystem();
  }
}

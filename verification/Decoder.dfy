/** src/decoder.sv: the combinational RV32I + Zicsr decoder. */
module Decoder {
  import opened Words
  import opened Uarch

  /** The defaults every opcode starts from. */
  function Base(pc: Word, inst: Word, busError: bool): DecodedIr {
    DecodedIr(pc, inst, busError, FuInt, AluAdd, Op1Rs1, Op2Rs2, BrJump, SysNot, Len4, false,
              false, Rs1(inst), false, Rs2(inst), false, Rd(inst), 0, 0, 0, false, false, false)
  }

  function AluOfFunct3(f3: bv3, alternate: bool): AluOp {
    if f3 == 0 then (if alternate then AluSub else AluAdd)
    else if f3 == 1 then AluSll
    else if f3 == 2 then AluSlt
    else if f3 == 3 then AluSltu
    else if f3 == 4 then AluXor
    else if f3 == 5 then (if alternate then AluSra else AluSrl)
    else if f3 == 6 then AluOr
    else AluAnd
  }

  function DecodeOp(d: DecodedIr, inst: Word): DecodedIr {
    d.(rs1Use := true, rs2Use := true, rdToWrite := Rd(inst) != 0,
       aluOp := AluOfFunct3(Funct3(inst), Funct7(inst) & 0x20 != 0),
       illegal := Funct7(inst) != 0x00 && Funct7(inst) != 0x20)
  }

  function DecodeOpImm(d: DecodedIr, inst: Word): DecodedIr {
    var f3 := Funct3(inst);
    var f7 := Funct7(inst);
    d.(rs1Use := true, rdToWrite := Rd(inst) != 0, imm := SignExtend12(Funct12(inst)), op2 := Op2Imm,
       aluOp := AluOfFunct3(f3, f3 == 5 && f7 & 0x20 != 0),
       illegal := (f3 == 1 && f7 != 0x00) || (f3 == 5 && f7 != 0x00 && f7 != 0x20))
  }

  function DecodeLoad(d: DecodedIr, inst: Word): DecodedIr {
    var f3 := Funct3(inst);
    d.(fu := FuLoad, rs1Use := true, rdToWrite := Rd(inst) != 0,
       imm := SignExtend12(Funct12(inst)), op2 := Op2Imm,
       memLen := if f3 == 0 || f3 == 4 then Len1 else if f3 == 1 || f3 == 5 then Len2 else Len4,
       loadSignext := f3 == 0 || f3 == 1 || f3 == 2,
       illegal := f3 == 3 || f3 == 6 || f3 == 7)
  }

  function StoreImm(inst: Word): Word {
    (if inst >= 0x8000_0000 then 0xffff_f000 else 0) | ((inst >> 25) << 5) | ((inst >> 7) & 0x1f)
  }

  function DecodeStore(d: DecodedIr, inst: Word): DecodedIr {
    var f3 := Funct3(inst);
    d.(fu := FuStore, rs1Use := true, rs2Use := true, imm := StoreImm(inst), op2 := Op2Imm,
       memLen := if f3 == 0 then Len1 else if f3 == 1 then Len2 else Len4,
       illegal := f3 != 0 && f3 != 1 && f3 != 2)
  }

  function BranchImm(inst: Word): Word {
    (if inst >= 0x8000_0000 then 0xffff_f000 else 0) |
    (((inst >> 7) & 1) << 11) | (((inst >> 25) & 0x3f) << 5) | (((inst >> 8) & 0xf) << 1)
  }

  function DecodeBranch(d: DecodedIr, inst: Word): DecodedIr {
    var f3 := Funct3(inst);
    d.(fu := FuBranch, rs1Use := true, rs2Use := true, imm := BranchImm(inst),
       branchOp := if f3 == 0 then BrEq else if f3 == 1 then BrNe else if f3 == 4 then BrLt
                   else if f3 == 5 then BrGe else if f3 == 6 then BrLtu else if f3 == 7 then BrGeu
                   else BrJump,
       illegal := f3 == 2 || f3 == 3)
  }

  function JumpImm(inst: Word): Word {
    (if inst >= 0x8000_0000 then 0xfff0_0000 else 0) |
    (((inst >> 12) & 0xff) << 12) | (((inst >> 20) & 1) << 11) | (((inst >> 21) & 0x3ff) << 1)
  }

  function DecodeJal(d: DecodedIr, inst: Word): DecodedIr {
    d.(fu := FuBranch, imm := JumpImm(inst), branchOp := BrJump, rdToWrite := Rd(inst) != 0)
  }

  function DecodeJalr(d: DecodedIr, inst: Word): DecodedIr {
    d.(fu := FuBranch, rs1Use := true, imm := SignExtend12(Funct12(inst)), branchOp := BrJump,
       rdToWrite := Rd(inst) != 0, illegal := Funct3(inst) != 0)
  }

  function DecodeUpper(d: DecodedIr, inst: Word, op1: Op1Sel): DecodedIr {
    d.(imm := inst & 0xffff_f000, op1 := op1, op2 := Op2Imm, rdToWrite := Rd(inst) != 0)
  }

  function DecodePrivileged(d: DecodedIr, inst: Word): DecodedIr {
    var f12 := Funct12(inst);
    var known := f12 == FUNCT12_ECALL || f12 == FUNCT12_EBREAK || f12 == FUNCT12_MRET || f12 == FUNCT12_WFI;
    d.(fu := FuSystem,
       sysKind := if f12 == FUNCT12_ECALL then SysEcall else if f12 == FUNCT12_EBREAK then SysEbreak
                  else if f12 == FUNCT12_MRET then SysMret else if f12 == FUNCT12_WFI then SysWfi
                  else SysNot,
       illegal := Rs1(inst) != 0 || Rd(inst) != 0 || !known)
  }

  function DecodeCsr(d: DecodedIr, inst: Word): DecodedIr {
    var f3 := Funct3(inst);
    var byImm := f3 >= 5;
    d.(fu := FuCsr, csrAddr := Funct12(inst), rdToWrite := Rd(inst) != 0,
       rs1Use := !byImm, csrSourceIsImm := byImm,
       csrSourceImm := if byImm then Rs1(inst) as bv32 else 0,
       sysKind := if f3 == 1 || f3 == 5 then SysCsrRw else if f3 == 2 || f3 == 6 then SysCsrRs else SysCsrRc,
       csrWrites := f3 == 1 || f3 == 5 || Rs1(inst) != 0)
  }

  function DecodeSystem(d: DecodedIr, inst: Word): DecodedIr {
    if Funct3(inst) == 0 then DecodePrivileged(d, inst)
    else if Funct3(inst) == 4 then d.(fu := FuSystem, illegal := true)
    else DecodeCsr(d, inst)
  }

  function Decode(pc: Word, inst: Word, busError: bool): DecodedIr {
    var d := Base(pc, inst, busError);
    var opcode := Opcode(inst);
    if opcode == OPCODE_OP then DecodeOp(d, inst)
    else if opcode == OPCODE_OP_IMM then DecodeOpImm(d, inst)
    else if opcode == OPCODE_LOAD then DecodeLoad(d, inst)
    else if opcode == OPCODE_STORE then DecodeStore(d, inst)
    else if opcode == OPCODE_BRANCH then DecodeBranch(d, inst)
    else if opcode == OPCODE_JAL then DecodeJal(d, inst)
    else if opcode == OPCODE_JALR then DecodeJalr(d, inst)
    else if opcode == OPCODE_AUIPC then DecodeUpper(d, inst, Op1Pc)
    else if opcode == OPCODE_LUI then DecodeUpper(d, inst, Op1Zero)
    else if opcode == OPCODE_MISC_MEM then d.(illegal := Funct3(inst) != 0)
    else if opcode == OPCODE_SYSTEM then DecodeSystem(d, inst)
    else d.(illegal := true)
  }

  /** The facts about decoded instructions that the pipeline's control relies on. */
  ghost predicate WellFormed(ir: DecodedIr) {
    && (ir.sysKind == SysMret || ir.sysKind == SysEcall ==> ir.fu == FuSystem)
    && (ir.fu == FuSystem || ir.fu == FuStore ==> !ir.rdToWrite)
  }

  lemma DecodeWellFormed(pc: Word, inst: Word, busError: bool)
    ensures WellFormed(Decode(pc, inst, busError))
    ensures Decode(pc, inst, busError).pc == pc
  {}

  lemma DecodeKeeps(pc: Word, inst: Word, busError: bool)
    ensures Decode(pc, inst, busError).rawInst == inst
    ensures Decode(pc, inst, busError).ifBusError == busError
  {}
}

/** Machine words, the register file's abstract value, and the bit slices that the
    RV32I instruction formats share (section 2.2 of the Unprivileged ISA). */
module Words {
  type Word = bv32
  type RegIndex = bv5

  /** The 32 general registers; index 0 is never written, and reads as zero. */
  type Regs = s: seq<Word> | |s| == 32 witness seq(32, _ => 0)

  /** Every register zero, as after reset. */
  function ZeroRegs(): (r: Regs)
    ensures forall i: RegIndex :: ReadReg(r, i) == 0
  {
    seq(32, _ => 0)
  }

  function ReadReg(regs: Regs, r: RegIndex): Word {
    if r == 0 then 0 else regs[r as nat]
  }

  function WriteReg(regs: Regs, r: RegIndex, v: Word): Regs {
    if r == 0 then regs else regs[r as nat := v]
  }

  lemma ReadAfterWrite(regs: Regs, w: RegIndex, v: Word, r: RegIndex)
    ensures ReadReg(WriteReg(regs, w, v), r) == if r == w && w != 0 then v else ReadReg(regs, r)
  {
    if r != w {
      assert r as nat != w as nat;
    }
  }

  datatype Option<+T> = None | Some(value: T)

  // ---- 32-bit operations, by name ------------------------------------------

  function Plus(a: Word, b: Word): Word { a + b }
  function Minus(a: Word, b: Word): Word { a - b }
  function BitXor(a: Word, b: Word): Word { a ^ b }
  function BitOr(a: Word, b: Word): Word { a | b }
  function BitAnd(a: Word, b: Word): Word { a & b }
  function BitClear(a: Word, b: Word): Word { a & !b }
  function ShiftLeft(a: Word, s: bv5): Word { a << s }
  function ShiftRight(a: Word, s: bv5): Word { a >> s }
  predicate Less(a: Word, b: Word) { a < b }

  lemma PlusZero(b: Word)
    ensures Plus(0, b) == b
  {}

  // ---- signed view of a word ------------------------------------------------

  function Negative(a: Word): bool { a >= 0x8000_0000 }

  /** Two's complement order: flipping the sign bit turns it into the unsigned order. */
  function SignedLess(a: Word, b: Word): bool {
    (a ^ 0x8000_0000) < (b ^ 0x8000_0000)
  }

  lemma SignedLessMeaning(a: Word, b: Word)
    ensures SignedLess(a, b) <==> if Negative(a) == Negative(b) then a < b else Negative(a)
  {}

  /** Some bit of `mask` is set in `w`. */
  predicate Flag(w: Word, mask: Word) { w & mask != 0 }

  function Keep(w: Word, mask: Word): Word { w & mask }

  /** Instruction addresses are multiples of four. */
  function AlignDown(w: Word): Word { w & 0xffff_fffc }

  /** JALR clears the lowest bit of its target. */
  function ClearBit0(w: Word): Word { w & 0xffff_fffe }

  lemma FlagOfKeep(v: Word, mask: Word, bit: Word)
    requires BitAnd(mask, bit) == bit
    ensures Flag(Keep(v, mask), bit) == Flag(v, bit)
  {
    hide BitAnd, Flag, Keep;
    AndAssociates(v, mask, bit);
    KeepIsAnd(v, mask);
    FlagIsAnd(Keep(v, mask), bit);
    FlagIsAnd(v, bit);
  }

  lemma AndAssociates(a: Word, b: Word, c: Word)
    ensures BitAnd(BitAnd(a, b), c) == BitAnd(a, BitAnd(b, c))
  {}

  lemma KeepIsAnd(w: Word, mask: Word)
    ensures Keep(w, mask) == BitAnd(w, mask)
  {}

  lemma FlagIsAnd(w: Word, mask: Word)
    ensures Flag(w, mask) <==> BitAnd(w, mask) != 0
  {}

  lemma AlignDownTwice(v: Word)
    ensures AlignDown(AlignDown(v)) == AlignDown(v)
  {}

  function Shamt(b: Word): bv5 { (b & 0x1f) as bv5 }

  function ArithShiftRight(a: Word, s: bv5): Word {
    (a >> s) | (if Negative(a) then !(0xffff_ffff >> s) else 0)
  }

  // ---- instruction formats -----------------------------------------------------

  function Opcode(w: Word): bv7 { (w & 0x7f) as bv7 }
  function Rd(w: Word): RegIndex { ((w >> 7) & 0x1f) as bv5 }
  function Funct3(w: Word): bv3 { ((w >> 12) & 0x7) as bv3 }
  function Rs1(w: Word): RegIndex { ((w >> 15) & 0x1f) as bv5 }
  function Rs2(w: Word): RegIndex { ((w >> 20) & 0x1f) as bv5 }
  function Funct7(w: Word): bv7 { (w >> 25) as bv7 }
  function Funct12(w: Word): bv12 { (w >> 20) as bv12 }

  function SignExtend12(x: bv12): Word {
    if x >= 0x800 then (x as bv32) | 0xffff_f000 else x as bv32
  }

  const OPCODE_LOAD: bv7 := 0x03
  const OPCODE_MISC_MEM: bv7 := 0x0f
  const OPCODE_OP_IMM: bv7 := 0x13
  const OPCODE_AUIPC: bv7 := 0x17
  const OPCODE_STORE: bv7 := 0x23
  const OPCODE_OP: bv7 := 0x33
  const OPCODE_LUI: bv7 := 0x37
  const OPCODE_BRANCH: bv7 := 0x63
  const OPCODE_JALR: bv7 := 0x67
  const OPCODE_JAL: bv7 := 0x6f
  const OPCODE_SYSTEM: bv7 := 0x73

  const FUNCT12_ECALL: bv12 := 0x000
  const FUNCT12_EBREAK: bv12 := 0x001
  const FUNCT12_MRET: bv12 := 0x302
  const FUNCT12_WFI: bv12 := 0x105
}

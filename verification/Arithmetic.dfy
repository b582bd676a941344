/** What the core and the sequential machine compute on words, in numbers and bits: the arithmetic,
    comparisons and shifts of the ALU, branches and their targets, and exit codes. Both use the same
    operations of `Words`; these lemmas say what they are. */
module Arithmetic {
  import opened Words
  import opened Uarch
  import opened Datapath
  import opened Numbers

  /** Sums and differences are taken modulo 2^32, and comparisons are those of the numbers, in two's
      complement for the signed ones. Shifts go by the second operand modulo 32: they multiply modulo
      2^32, or divide by a power of two and round down, the arithmetic one in two's complement. */
  lemma AluNumbers(a: Word, b: Word)
    ensures Num(Alu(AluAdd, a, b)) == (Num(a) + Num(b)) % MODULUS
    ensures Num(Alu(AluSub, a, b)) == (Num(a) - Num(b)) % MODULUS
    ensures Alu(AluSlt, a, b) == if Signed(a) < Signed(b) then 1 else 0
    ensures Alu(AluSltu, a, b) == if Num(a) < Num(b) then 1 else 0
    ensures Num(Alu(AluSll, a, b)) == Num(a) * Pow2(Num(b) % 32) % MODULUS
    ensures Num(Alu(AluSrl, a, b)) == Num(a) / Pow2(Num(b) % 32)
    ensures Signed(Alu(AluSra, a, b)) == Signed(a) / Pow2(Num(b) % 32)
  {
    hide Num, Plus, Minus, Less, SignedLess, Signed, ShiftLeft, ShiftRight, ArithShiftRight, Shamt, Pow2;
    NumPlus(a, b);
    NumMinus(a, b);
    SignedOrder(a, b);
    NumLess(a, b);
    ShiftAmount(b);
    NumShiftLeft(a, Shamt(b));
    NumShiftRight(a, Shamt(b));
    SignedShift(a, Shamt(b));
  }

  /** The logical operations work bit by bit. */
  lemma AluBits(a: Word, b: Word, n: nat)
    ensures BitAt(Alu(AluXor, a, b), n) <==> BitAt(a, n) != BitAt(b, n)
    ensures BitAt(Alu(AluOr, a, b), n) <==> BitAt(a, n) || BitAt(b, n)
    ensures BitAt(Alu(AluAnd, a, b), n) <==> BitAt(a, n) && BitAt(b, n)
  {
    hide BitAt, BitXor, BitOr, BitAnd;
    BitsOfXor(a, b, n);
    BitsOfOr(a, b, n);
    BitsOfAnd(a, b, n);
  }

  function FiveBits(s: bv5): nat {
    (if s & 1 != 0 then 1 else 0) + (if s & 2 != 0 then 2 else 0) + (if s & 4 != 0 then 4 else 0) +
    (if s & 8 != 0 then 8 else 0) + (if s & 16 != 0 then 16 else 0)
  }

  lemma FiveBitNumber(s: bv5)
    ensures s as nat == FiveBits(s)
  {}

  function FiveDigits(w: Word): nat { Nibble(w) + 16 * Digit(Half(Half(Half(Half(w))))) }

  lemma ShiftDigits(b: Word)
    ensures FiveBits(Shamt(b)) == FiveDigits(b)
  {}

  lemma LastFive(b: Word)
    ensures Num(b) % 32 == FiveDigits(b)
  {
    hide Num, Digit, Half, Nibble;
    var h := Half(Half(Half(Half(b))));
    NumNibble(b);
    Unfold(h);
    OneDigit(h);
    Remainder(Num(b), FiveDigits(b), Num(Half(h)), 32);
  }

  lemma Remainder(x: nat, r: nat, q: nat, n: nat)
    requires r < n && x == r + n * q && (n == 4 || n == 32)
    ensures x % n == r
  {}

  lemma ShiftAmount(b: Word)
    ensures Shamt(b) as nat == Num(b) % 32
  {
    hide Num, FiveBits, FiveDigits, Shamt;
    FiveBitNumber(Shamt(b));
    ShiftDigits(b);
    LastFive(b);
  }

  /** Branches compare the numbers. */
  lemma BranchNumbers(op: BranchOp, a: Word, b: Word)
    ensures BranchTaken(op, a, b) <==>
            match op
            case BrJump => true
            case BrEq => Num(a) == Num(b)
            case BrNe => Num(a) != Num(b)
            case BrLt => Signed(a) < Signed(b)
            case BrGe => Signed(a) >= Signed(b)
            case BrLtu => Num(a) < Num(b)
            case BrGeu => Num(a) >= Num(b)
  {
    hide Num, Less, SignedLess, Signed;
    NumLess(a, b);
    SignedOrder(a, b);
  }

  // ---- addresses ------------------------------------------------------------------------------

  lemma ClearedBit(w: Word)
    ensures Half(ClearBit0(w)) == Half(w) && Digit(ClearBit0(w)) == 0
  {}

  lemma NumEven(w: Word)
    ensures Num(ClearBit0(w)) == Num(w) - Num(w) % 2
  {
    hide Num, ClearBit0, Half, Digit;
    ClearedBit(w);
    OneDigit(w);
    Unfold(w);
    Unfold(ClearBit0(w));
  }

  lemma TwoDigits(w: Word)
    ensures Num(w) == Digit(w) + 2 * Digit(Half(w)) + 4 * Num(Half(Half(w)))
  {
    hide Num, Half, Digit;
    Unfold(w);
    Unfold(Half(w));
  }

  lemma FirstDigitFlagged(w: Word)
    requires Digit(w) == 1
    ensures Flag(w, 3)
  {}

  lemma SecondDigitFlagged(w: Word)
    requires Digit(Half(w)) == 1
    ensures Flag(w, 3)
  {}

  lemma FlaggedDigit(w: Word)
    requires Flag(w, 3)
    ensures Digit(w) == 1 || Digit(Half(w)) == 1
  {}

  lemma LowDigits(w: Word)
    ensures Flag(w, 3) <==> Digit(w) + 2 * Digit(Half(w)) != 0
  {
    hide Digit, Half, Flag;
    OneDigit(w);
    OneDigit(Half(w));
    if Flag(w, 3) {
      FlaggedDigit(w);
    } else if Digit(w) == 1 {
      FirstDigitFlagged(w);
    } else if Digit(Half(w)) == 1 {
      SecondDigitFlagged(w);
    }
  }

  lemma AlignedDigits(w: Word)
    ensures Half(Half(AlignDown(w))) == Half(Half(w)) && Digit(AlignDown(w)) == 0 && Digit(Half(AlignDown(w))) == 0
  {}

  lemma LastTwo(w: Word)
    ensures Num(w) % 4 == Digit(w) + 2 * Digit(Half(w))
  {
    hide Num, Half, Digit;
    TwoDigits(w);
    OneDigit(w);
    OneDigit(Half(w));
    Remainder(Num(w), Digit(w) + 2 * Digit(Half(w)), Num(Half(Half(w))), 4);
  }

  /** A word's offset from a multiple of four. */
  lemma NumAligned(w: Word)
    ensures Flag(w, 3) <==> Num(w) % 4 != 0
    ensures Num(AlignDown(w)) == Num(w) - Num(w) % 4
  {
    hide Num, Half, Digit, Flag, AlignDown;
    LastTwo(w);
    TwoDigits(w);
    TwoDigits(AlignDown(w));
    AlignedDigits(w);
    LowDigits(w);
  }

  /** A JALR goes to the even address at or below the sum of its operands, other jumps and branches to the
      pc plus their offset. A live jump that is taken halts exactly if that is no multiple of four; MRET
      and traps go to multiples of four. */
  lemma TargetNumbers(t: Token, c: CsrRegs, mip: Word, trap: bool)
    ensures var target := ActualTarget(t);
      && (if IsJalr(t.ir) then var sum := (Num(t.rs1Val) + Num(t.ir.imm)) % MODULUS; Num(target) == sum - sum % 2
          else Num(target) == (Num(t.ir.pc) + Num(t.ir.imm)) % MODULUS)
      && (t.Alive() && Taken(t) && !t.halt ==> (ExeOut(t, c, mip, trap).halt <==> Num(target) % 4 != 0))
    ensures Num(MtvecBase(c)) == Num(c.mtvec) - Num(c.mtvec) % 4 && Num(MepcOut(c)) == Num(c.mepc) - Num(c.mepc) % 4
  {
    hide Num, ClearBit0, Plus, Flag, AlignDown, Taken, AluResult, ReadCsr, CsrIllegal;
    NumPlus(t.rs1Val, t.ir.imm);
    NumPlus(t.ir.pc, t.ir.imm);
    NumEven(Plus(t.rs1Val, t.ir.imm));
    NumAligned(ActualTarget(t));
    NumAligned(c.mtvec);
    NumAligned(c.mepc);
  }

  // ---- exit codes ---------------------------------------------------------------------------------

  function Nibble(w: Word): nat { Digit(w) + 2 * Digit(Half(w)) + 4 * Digit(Half(Half(w))) + 8 * Digit(Half(Half(Half(w)))) }

  function Quarter(w: Word): Word { Half(Half(w)) }

  lemma NumNibble(w: Word)
    ensures Num(w) == Nibble(w) + 16 * Num(Quarter(Quarter(w)))
    ensures Nibble(w) < 16
  {
    hide Num, Half, Digit;
    TwoDigits(w);
    TwoDigits(Half(Half(w)));
    OneDigit(w);
    OneDigit(Half(w));
    OneDigit(Half(Half(w)));
    OneDigit(Half(Half(Half(w))));
  }

  lemma LowNibble(w: Word)
    ensures Nibble(w & 0xff) == Nibble(w)
  {}

  lemma HighNibble(w: Word)
    ensures Nibble(Quarter(Quarter(w & 0xff))) == Nibble(Quarter(Quarter(w)))
  {}

  lemma NoMoreNibbles(w: Word)
    ensures Quarter(Quarter(Quarter(Quarter(w & 0xff)))) == 0
  {}

  lemma EightShifts(w: Word)
    ensures Quarter(Quarter(Quarter(Quarter(w)))) == w >> 8
  {}

  function LastByte(w: Word): Word { w & 0xff }

  function Upper(w: Word): Word { w >> 8 }

  /** The last byte of a word, and the rest. */
  lemma NumByte(w: Word)
    ensures Num(LastByte(w)) == Num(w) % 256
    ensures Num(Upper(w)) == Num(w) / 256
  {
    hide Num, Nibble, Quarter;
    NumNibble(w);
    NumNibble(Quarter(Quarter(w)));
    NumNibble(w & 0xff);
    NumNibble(Quarter(Quarter(w & 0xff)));
    LowNibble(w);
    HighNibble(w);
    NoMoreNibbles(w);
    EightShifts(w);
    PlusNothing(0);
  }

  /** A voluntary halt exits with a0 modulo 256, every other one with the code of its kind. */
  predicate ExitsWith(kind: HaltKind, a0: Word, code: bv8) {
    match kind
    case HaltVoluntary => Num(code as Word) == Num(a0) % 256
    case HaltIllegal => code == 130
    case HaltBusErrorIf => code == 131
    case HaltBusErrorLd => code == 132
    case HaltBusErrorSt => code == 133
    case HaltMisalignPc => code == 134
    case HaltMisalignLd => code == 134
    case HaltMisalignSt => code == 134
    case HaltDoubleTrap => code == 135
    case HaltNone => code == 1
  }

  lemma ExitCodes(kind: HaltKind, a0: Word)
    ensures ExitsWith(kind, a0, HaltExitCode(kind, a0))
  {
    hide Num;
    NumByte(a0);
    ByteWidened(a0);
  }

  lemma ByteWidened(a0: Word)
    ensures (HaltExitCode(HaltVoluntary, a0) as Word) == a0 & 0xff
  {}
}

/** What words denote, and what the operations on words that the core and the sequential machine share
    compute: in numbers modulo 2^32, and bit by bit. */
module Numbers {
  import opened Words

  const MODULUS: nat := 0x1_0000_0000

  /** The number that a word denotes, from its binary digits. */
  function Num(w: Word): nat
    decreases w
  {
    if w == 0 then 0
    else
      HalfLess(w);
      Digit(w) + 2 * Num(Half(w))
  }

  function Digit(w: Word): nat { if w & 1 == 1 then 1 else 0 }

  function Half(w: Word): Word { w >> 1 }

  lemma HalfLess(w: Word)
    requires w != 0
    ensures Half(w) < w
  {}

  lemma Unfold(w: Word)
    ensures Num(w) == Digit(w) + 2 * Num(Half(w))
  {}

  // ---- counting -------------------------------------------------------------------------------

  function Next(w: Word): Word { w + 1 }

  lemma NextDigit(w: Word)
    ensures Digit(Next(w)) == 1 - Digit(w)
  {}

  lemma NextEven(w: Word)
    requires Digit(w) == 0
    ensures Half(Next(w)) == Half(w)
  {}

  lemma NextOdd(w: Word)
    requires Digit(w) != 0 && w != 0xffff_ffff
    ensures Half(Next(w)) == Next(Half(w))
  {}

  lemma NotZero(w: Word)
    requires Digit(w) != 0
    ensures w != 0
  {}

  lemma HalfMax(w: Word)
    ensures Half(w) != 0xffff_ffff
  {}

  lemma {:induction false} NumNext(w: Word)
    requires w != 0xffff_ffff
    ensures Num(Next(w)) == Num(w) + 1
    decreases w
  {
    hide Half, Next, Num, Digit;
    NextDigit(w);
    Unfold(w);
    Unfold(Next(w));
    if Digit(w) == 0 {
      NextEven(w);
    } else {
      NotZero(w);
      HalfLess(w);
      HalfMax(w);
      NextOdd(w);
      NumNext(Half(w));
    }
  }

  function Odd(w: Word): Word { (w << 1) | 1 }

  lemma NumOdd(w: Word)
    requires w <= 0x7fff_ffff
    ensures Num(Odd(w)) == 2 * Num(w) + 1
  {
    hide Num;
    Unfold(Odd(w));
  }

  lemma FourOnes(w: Word)
    requires w <= 0xfff_ffff
    ensures Num(Odd(Odd(Odd(Odd(w))))) == 16 * Num(w) + 15
  {
    hide Num;
    NumOdd(w);
    NumOdd(Odd(w));
    NumOdd(Odd(Odd(w)));
    NumOdd(Odd(Odd(Odd(w))));
  }

  lemma Nibble(w: Word)
    ensures Odd(Odd(Odd(Odd(w)))) == (w << 4) | 15
  {}

  lemma Digits(w: Word, v: Word)
    requires w <= 0xfff_ffff && v == (w << 4) | 15
    ensures Num(v) == 16 * Num(w) + 15
  {
    hide Num, Odd;
    FourOnes(w);
    Nibble(w);
  }

  lemma AllOnes()
    ensures Num(0xffff_ffff) == MODULUS - 1
  {
    hide Num;
    Unfold(0);
    Digits(0, 0xf);
    Digits(0xf, 0xff);
    Digits(0xff, 0xfff);
    Digits(0xfff, 0xffff);
    Digits(0xffff, 0xf_ffff);
    Digits(0xf_ffff, 0xff_ffff);
    Digits(0xff_ffff, 0xfff_ffff);
    Digits(0xfff_ffff, 0xffff_ffff);
  }

  lemma {:induction false} NumBound(w: Word)
    ensures Num(w) < MODULUS
    decreases !w
  {
    hide Num, Next;
    if w == 0xffff_ffff {
      AllOnes();
    } else {
      CountsDown(w);
      NumBound(Next(w));
      NumNext(w);
    }
  }

  lemma CountsDown(w: Word)
    requires w != 0xffff_ffff
    ensures !Next(w) < !w
  {}

  function Before(w: Word): Word { w - 1 }

  lemma CountOn(a: Word, b: Word)
    ensures Plus(Next(a), Before(b)) == Plus(a, b)
  {
    assert Next(a) == a + 1;
    assert Before(b) == b - 1;
    assert Plus(a + 1, b - 1) == (a + 1) + (b - 1);
    assert (a + 1) + (b - 1) == a + b;
  }

  lemma OneBefore(b: Word)
    requires b != 0
    ensures Next(Before(b)) == b && Before(b) != 0xffff_ffff
  {}

  lemma {:induction false} NumPlus(a: Word, b: Word)
    ensures Num(Plus(a, b)) == (Num(a) + Num(b)) % MODULUS
    decreases Num(b)
  {
    hide Num, Next, Plus, Before;
    NumBound(a);
    NumPositive(b);
    if Num(b) == 0 {
      PlusNothing(a);
    } else {
      CountOn(a, b);
      OneBefore(b);
      NumNext(Before(b));
      NumPlus(Next(a), Before(b));
      NextWraps(a);
      CountedOn(Num(a), Num(b));
    }
  }

  lemma CountedOn(x: nat, y: nat)
    requires x < MODULUS && y > 0
    ensures ((x + 1) % MODULUS + (y - 1)) % MODULUS == (x + y) % MODULUS
  {
    if x + 1 == MODULUS {
      WrapsOnce(y - 1);
    }
  }

  lemma WrapsOnce(y: nat)
    ensures (MODULUS + y) % MODULUS == y % MODULUS
  {}

  lemma PlusNothing(a: Word)
    ensures Plus(a, 0) == a && Num(0) == 0
  {}

  lemma NextWraps(a: Word)
    ensures Num(Next(a)) == (Num(a) + 1) % MODULUS
  {
    hide Num;
    NumBound(a);
    if a == 0xffff_ffff {
      AllOnes();
      PlusNothing(0);
    } else {
      NumNext(a);
      NumBound(Next(a));
    }
  }
  lemma DifferenceAdds(a: Word, b: Word)
    ensures Plus(Minus(a, b), b) == a
  {
    assert Minus(a, b) == a - b;
    assert Plus(a - b, b) == (a - b) + b;
    assert (a - b) + b == a;
  }

  lemma NumMinus(a: Word, b: Word)
    ensures Num(Minus(a, b)) == (Num(a) - Num(b)) % MODULUS
  {
    hide Num, Plus, Minus;
    DifferenceAdds(a, b);
    NumPlus(Minus(a, b), b);
    NumBound(a);
    NumBound(b);
    NumBound(Minus(a, b));
  }

  // ---- order ----------------------------------------------------------------------------------

  lemma OneDigit(w: Word)
    ensures Digit(w) <= 1
  {}

  lemma Assembled(a: Word, b: Word)
    requires Digit(a) == Digit(b) && Half(a) == Half(b)
    ensures a == b
  {}

  lemma {:induction false} NumInjective(a: Word, b: Word)
    requires Num(a) == Num(b)
    ensures a == b
    decreases Num(a)
  {
    hide Num, Half, Digit;
    Unfold(a);
    Unfold(b);
    OneDigit(a);
    OneDigit(b);
    if Num(a) == 0 {
      NumPositive(a);
      NumPositive(b);
    } else {
      NumInjective(Half(a), Half(b));
      Assembled(a, b);
    }
  }

  lemma NumPositive(w: Word)
    ensures Num(w) == 0 <==> w == 0
    decreases w
  {
    hide Half, Digit;
    if w != 0 {
      HalfLess(w);
      Unfold(w);
      NumPositive(Half(w));
      if Digit(w) == 0 && Half(w) == 0 {
        NothingLeft(w);
      }
    }
  }

  lemma NothingLeft(w: Word)
    requires Digit(w) == 0 && Half(w) == 0
    ensures w == 0
  {}

  predicate AtMost(a: Word, b: Word) { a <= b }

  lemma HalvesInOrder(a: Word, b: Word)
    requires AtMost(a, b)
    ensures AtMost(Half(a), Half(b))
  {}

  lemma DigitsInOrder(a: Word, b: Word)
    requires AtMost(a, b) && Half(a) == Half(b)
    ensures Digit(a) <= Digit(b)
  {}

  lemma {:induction false} NumAtMost(a: Word, b: Word)
    requires AtMost(a, b)
    ensures Num(a) <= Num(b)
    decreases Num(a)
  {
    hide Num, Half, Digit, AtMost;
    Unfold(a);
    Unfold(b);
    OneDigit(a);
    if Num(a) > 0 {
      HalvesInOrder(a, b);
      NumAtMost(Half(a), Half(b));
      if Num(Half(a)) == Num(Half(b)) {
        NumInjective(Half(a), Half(b));
        DigitsInOrder(a, b);
      }
    }
  }

  lemma LessOrNot(a: Word, b: Word)
    ensures Less(a, b) <==> !AtMost(b, a)
  {}

  lemma LessIsAtMost(a: Word, b: Word)
    requires Less(a, b)
    ensures AtMost(a, b) && a != b
  {}

  lemma NumLess(a: Word, b: Word)
    ensures Less(a, b) <==> Num(a) < Num(b)
    ensures a == b <==> Num(a) == Num(b)
  {
    hide Num, Less, AtMost;
    LessOrNot(a, b);
    if Less(a, b) {
      LessIsAtMost(a, b);
      NumAtMost(a, b);
    } else {
      NumAtMost(b, a);
    }
    if Num(a) == Num(b) {
      NumInjective(a, b);
    }
  }

  // ---- two's complement -----------------------------------------------------------------------

  /** The number that a word denotes in two's complement. */
  function Signed(w: Word): int { if Num(w) >= MODULUS / 2 then Num(w) - MODULUS else Num(w) }

  lemma TopHalf()
    ensures Num(0x8000_0000) == MODULUS / 2
  {
    hide Num, Odd;
    AllOnes();
    assert Odd(0x7fff_ffff) == 0xffff_ffff by {
      TopOdd();
    }
    NumOdd(0x7fff_ffff);
    NumNext(0x7fff_ffff);
  }

  lemma TopOdd()
    ensures Odd(0x7fff_ffff) == 0xffff_ffff
  {}

  lemma SignBit(w: Word)
    ensures Negative(w) <==> Num(w) >= MODULUS / 2
  {
    hide Num, Less;
    TopHalf();
    NumLess(w, 0x8000_0000);
    NegativeIs(w);
  }

  lemma NegativeIs(w: Word)
    ensures Negative(w) <==> !Less(w, 0x8000_0000)
  {}

  lemma SignedOrder(a: Word, b: Word)
    ensures SignedLess(a, b) <==> Signed(a) < Signed(b)
  {
    hide Num, SignedLess, Negative;
    SignBit(a);
    SignBit(b);
    NumBound(a);
    NumBound(b);
    NumLess(a, b);
    SignedLessMeaning(a, b);
  }

  // ---- bit by bit -------------------------------------------------------------------------------

  /** The `n`-th binary digit, the last one being the 0-th. */
  predicate BitAt(w: Word, n: nat) {
    if n == 0 then Digit(w) == 1 else BitAt(Half(w), n - 1)
  }

  lemma HalfOfXor(a: Word, b: Word)
    ensures Half(BitXor(a, b)) == BitXor(Half(a), Half(b))
  {}

  lemma HalfOfOr(a: Word, b: Word)
    ensures Half(BitOr(a, b)) == BitOr(Half(a), Half(b))
  {}

  lemma HalfOfAnd(a: Word, b: Word)
    ensures Half(BitAnd(a, b)) == BitAnd(Half(a), Half(b))
  {}

  lemma DigitOfXor(a: Word, b: Word)
    ensures Digit(BitXor(a, b)) == 1 <==> Digit(a) != Digit(b)
  {}

  lemma DigitOfOr(a: Word, b: Word)
    ensures Digit(BitOr(a, b)) == 1 <==> Digit(a) == 1 || Digit(b) == 1
  {}

  lemma DigitOfAnd(a: Word, b: Word)
    ensures Digit(BitAnd(a, b)) == 1 <==> Digit(a) == 1 && Digit(b) == 1
  {}

  lemma {:induction false} BitsOfXor(a: Word, b: Word, n: nat)
    ensures BitAt(BitXor(a, b), n) <==> BitAt(a, n) != BitAt(b, n)
    decreases n
  {
    hide BitXor, Half, Digit;
    if n == 0 {
      DigitOfXor(a, b);
      OneDigit(a);
      OneDigit(b);
    } else {
      HalfOfXor(a, b);
      BitsOfXor(Half(a), Half(b), n - 1);
    }
  }

  lemma {:induction false} BitsOfOr(a: Word, b: Word, n: nat)
    ensures BitAt(BitOr(a, b), n) <==> BitAt(a, n) || BitAt(b, n)
    decreases n
  {
    hide BitOr, Half, Digit;
    if n == 0 {
      DigitOfOr(a, b);
    } else {
      HalfOfOr(a, b);
      BitsOfOr(Half(a), Half(b), n - 1);
    }
  }

  lemma {:induction false} BitsOfAnd(a: Word, b: Word, n: nat)
    ensures BitAt(BitAnd(a, b), n) <==> BitAt(a, n) && BitAt(b, n)
    decreases n
  {
    hide BitAnd, Half, Digit;
    if n == 0 {
      DigitOfAnd(a, b);
    } else {
      HalfOfAnd(a, b);
      BitsOfAnd(Half(a), Half(b), n - 1);
    }
  }

  // ---- shifts -------------------------------------------------------------------------------------

  function Pow2(n: nat): (p: nat)
    ensures p > 0
  {
    if n == 0 then 1 else 2 * Pow2(n - 1)
  }

  function Double(w: Word): Word { w << 1 }

  lemma NumHalf(w: Word)
    ensures Num(Half(w)) == Num(w) / 2
  {
    hide Num, Half, Digit;
    Unfold(w);
    OneDigit(w);
  }

  lemma DoubleIsSum(w: Word)
    ensures Double(w) == Plus(w, w)
  {}

  lemma NumDouble(w: Word)
    ensures Num(Double(w)) == 2 * Num(w) % MODULUS
  {
    hide Num, Plus, Double;
    DoubleIsSum(w);
    NumPlus(w, w);
  }

  lemma ShiftRightStep(a: Word, s: bv5)
    requires s != 0
    ensures ShiftRight(a, s) == Half(ShiftRight(a, s - 1))
  {}

  lemma ShiftLeftStep(a: Word, s: bv5)
    requires s != 0
    ensures ShiftLeft(a, s) == Double(ShiftLeft(a, s - 1))
  {}

  lemma NoShift(a: Word)
    ensures ShiftRight(a, 0) == a && ShiftLeft(a, 0) == a
  {}

  lemma LessShift(s: bv5)
    requires s != 0
    ensures (s - 1) as nat == s as nat - 1
  {}

  lemma {:induction false} NumShiftRight(a: Word, s: bv5)
    ensures Num(ShiftRight(a, s)) == Num(a) / Pow2(s as nat)
    decreases s as nat
  {
    hide Num, Half, ShiftRight;
    if s == 0 {
      NoShift(a);
    } else {
      LessShift(s);
      NumShiftRight(a, s - 1);
      ShiftRightStep(a, s);
      NumHalf(ShiftRight(a, s - 1));
      DivideAgain(Num(a), Pow2(s as nat - 1));
    }
  }

  lemma Multiples(y: nat, a: int, b: int)
    requires a <= b
    ensures y * a <= y * b
  {}

  lemma QuotientIs(x: int, y: nat, q: int, r: nat)
    requires r < y && x == y * q + r
    ensures x / y == q
  {
    var k := x / y;
    if k < q {
      Multiples(y, k + 1, q);
    }
    if k > q {
      Multiples(y, q + 1, k);
    }
  }

  lemma DivideAgain(x: nat, y: nat)
    requires y > 0
    ensures x / y / 2 == x / (2 * y)
  {
    var q, r := x / y, x % y;
    var h := q / 2;
    assert x == y * q + r;
    TwoFactors(y, h);
    if q == 2 * h {
      QuotientIs(x, 2 * y, h, r);
    } else {
      assert q == 2 * h + 1;
      assert y * q == y * (2 * h) + y;
      QuotientIs(x, 2 * y, h, y + r);
    }
  }

  lemma TwoFactors(y: nat, h: nat)
    ensures y * (2 * h) == (2 * y) * h == 2 * (y * h)
  {}

  function Times(x: nat, n: nat): nat { x * Pow2(n) }

  lemma TimesTwo(x: nat, n: nat)
    ensures Times(x, n) == if n == 0 then x else 2 * Times(x, n - 1)
  {
    if n > 0 {
      TwoFactors(x, Pow2(n - 1));
    }
  }

  lemma {:induction false} NumShiftLeft(a: Word, s: bv5)
    ensures Num(ShiftLeft(a, s)) == Times(Num(a), s as nat) % MODULUS
    decreases s as nat
  {
    hide Num, Double, ShiftLeft, Times;
    TimesTwo(Num(a), s as nat);
    if s == 0 {
      NoShift(a);
      NumBound(a);
    } else {
      LessShift(s);
      NumShiftLeft(a, s - 1);
      ShiftLeftStep(a, s);
      NumDouble(ShiftLeft(a, s - 1));
      DoubleMod(Times(Num(a), s as nat - 1));
    }
  }

  lemma DoubleMod(x: nat)
    ensures 2 * (x % MODULUS) % MODULUS == 2 * x % MODULUS
  {
    var q := x / MODULUS;
    assert 2 * x == 2 * (x % MODULUS) + MODULUS * (2 * q);
  }

  function Not(w: Word): Word { !w }

  lemma {:induction false} NumNot(w: Word)
    ensures Num(Not(w)) == MODULUS - 1 - Num(w)
  {
    hide Num;
    assert Plus(w, !w) == w + !w;
    assert w + !w == 0xffff_ffff;
    AllOnes();
    NumPlus(w, !w);
    NumBound(w);
    NumBound(!w);
  }

  lemma FillsUp(a: Word, s: bv5)
    requires Negative(a)
    ensures ArithShiftRight(a, s) == Not(ShiftRight(Not(a), s))
  {}

  lemma NothingFilled(a: Word, s: bv5)
    requires !Negative(a)
    ensures ArithShiftRight(a, s) == a >> s
  {
    hide Negative;
  }

  lemma FillsNothing(a: Word, s: bv5)
    requires !Negative(a)
    ensures ArithShiftRight(a, s) == ShiftRight(a, s)
  {
    hide ArithShiftRight, Negative;
    NothingFilled(a, s);
    assert ShiftRight(a, s) == a >> s;
  }

  /** Division rounds down, also of negative numbers. */
  lemma SignedShift(a: Word, s: bv5)
    ensures Signed(ArithShiftRight(a, s)) == Signed(a) / Pow2(s as nat)
  {
    hide Num, ShiftRight, ArithShiftRight, Not, Negative;
    var p := Pow2(s as nat);
    SignBit(a);
    NumBound(a);
    if Negative(a) {
      FillsUp(a, s);
      NumNot(a);
      NumShiftRight(Not(a), s);
      NumNot(ShiftRight(Not(a), s));
      Shrinks(Num(Not(a)), p);
      RoundsDown(Num(Not(a)), p);
    } else {
      FillsNothing(a, s);
      NumShiftRight(a, s);
      Shrinks(Num(a), p);
    }
  }

  lemma Shrinks(x: nat, p: nat)
    requires p > 0
    ensures 0 <= x / p <= x
  {
    Multiples(x / p, 1, p);
  }

  lemma RoundsDown(x: nat, p: nat)
    requires p > 0
    ensures (-1 - x) / p == -1 - x / p
  {
    var q, r := x / p, x % p;
    assert x == p * q + r;
    QuotientIs(-1 - x, p, -1 - q, p - 1 - r);
  }
}

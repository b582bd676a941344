/** The byte-lane path from the core to memory and back behaves as a plain array of bytes. */
module Lanes {
  import opened Words
  import opened Uarch
  import opened Datapath
  import opened Dram
  import opened Numbers
  import Arithmetic
  import ExecCorrect
  import Isa

  // ---- the plain array -------------------------------------------------------------------------

  /** Bytes `off` to `off + n` become the low bytes of `data`; the rest stays. */
  function PlainStore(mem: seq<Byte>, off: nat, n: nat, data: Word): (r: seq<Byte>)
    requires n <= 4
    ensures |r| == |mem|
    ensures forall k :: 0 <= k < |mem| ==> r[k] == if off <= k < off + n then ByteOf(data, k - off) else mem[k]
  {
    seq(|mem|, k requires 0 <= k < |mem| => if off <= k < off + n then ByteOf(data, k - off) else mem[k])
  }

  function PlainLoad(mem: seq<Byte>, off: nat, n: nat, signext: bool): Word
    requires n <= 4 && off + n <= |mem|
  {
    var v := Little(mem[off..off + n]);
    if signext && n == 1 then Isa.SignExtend(v, 0x80)
    else if signext && n == 2 then Isa.SignExtend(v, 0x8000)
    else v
  }

  // ---- one store -----------------------------------------------------------------------------------

  lemma LaneCases(a: Word)
    ensures Lane(a) == if a & 3 == 0 then 0 else if a & 3 == 1 then 1 else if a & 3 == 2 then 2 else 3
  {}

  lemma HalfLane(a: Word)
    requires a & 1 == 0
    ensures a & 3 == if a & 2 != 0 then 2 else 0
  {}

  lemma HalfAligned(a: Word)
    requires a & 1 == 0
    ensures Lane(a) == if a & 2 != 0 then 2 else 0
  {
    HalfLane(a);
    LaneCases(a);
  }

  lemma ShiftedByte(data: Word)
    ensures ByteOf(Replicate(data), 0) == ByteOf(data, 0)
    ensures ByteOf(ShiftRight(ShiftLeft(Replicate(data), 8), 8), 0) == ByteOf(data, 0)
    ensures ByteOf(ShiftRight(ShiftLeft(Replicate(data), 16), 16), 0) == ByteOf(data, 0)
    ensures ByteOf(ShiftRight(ShiftLeft(Replicate(data), 24), 24), 0) == ByteOf(data, 0)
  {}

  lemma ShiftedHalf(data: Word, i: nat)
    requires i < 2
    ensures ByteOf(data & 0xffff, i) == ByteOf(data, i)
    ensures ByteOf(ShiftRight(ShiftLeft(data & 0xffff, 16), 16), i) == ByteOf(data, i)
  {}

  lemma Strobes()
    ensures StrobeBit(1, 0)
    ensures StrobeBit(3, 0) && StrobeBit(3, 1)
    ensures StrobeBit(0xf, 0) && StrobeBit(0xf, 1) && StrobeBit(0xf, 2) && StrobeBit(0xf, 3)
  {}

  /** What reaches the device: as many bytes as the store has, with the store's value in them. */
  ghost predicate Carries(w: BusWrite, addr: Word, n: nat, data: Word) {
    && w.width == n && n > 0 && Number(addr) % n == 0
    && (n == 4 ==> w.strb == 0xf)
    && forall i :: 0 <= i < n ==> StrobeBit(w.strb, i) && ByteOf(w.value, i) == ByteOf(data, i)
  }

  /** The store's value at its lanes and brought back. */
  function ByteBack(addr: Word, data: Word): Word {
    if addr & 3 == 0 then Replicate(data)
    else if addr & 3 == 1 then ShiftRight(ShiftLeft(Replicate(data), 8), 8)
    else if addr & 3 == 2 then ShiftRight(ShiftLeft(Replicate(data), 16), 16)
    else ShiftRight(ShiftLeft(Replicate(data), 24), 24)
  }

  function HalfBack(addr: Word, data: Word): Word {
    if addr & 2 != 0 then ShiftRight(ShiftLeft(data & 0xffff, 16), 16) else data & 0xffff
  }

  lemma ByteBackAgrees(addr: Word, data: Word)
    ensures ByteOf(ByteBack(addr, data), 0) == ByteOf(data, 0)
  {
    hide ByteOf, Replicate, ShiftLeft, ShiftRight;
    ShiftedByte(data);
  }

  lemma HalfBackAgrees(addr: Word, data: Word, i: nat)
    requires i < 2
    ensures ByteOf(HalfBack(addr, data), i) == ByteOf(data, i)
  {
    hide ByteOf, ShiftLeft, ShiftRight;
    ShiftedHalf(data, i);
  }

  lemma ByteConverts(addr: Word, data: Word)
    ensures Convert(LsuBe(addr, Len1), LsuWdata(addr, data, Len1)) == BusWrite(1, ByteBack(addr, data), 1)
  {
    hide Replicate, ShiftLeft, ShiftRight;
  }

  lemma HalfConverts(addr: Word, data: Word)
    ensures Convert(LsuBe(addr, Len2), LsuWdata(addr, data, Len2)) == BusWrite(2, HalfBack(addr, data), 3)
  {
    hide ShiftLeft, ShiftRight;
  }

  lemma HalfNumber(addr: Word)
    requires addr & 1 == 0
    ensures Number(addr) % 2 == 0
  {
    hide WordIndex, Lane;
    HalfAligned(addr);
    EvenSum(WordIndex(addr), Lane(addr));
  }

  lemma EvenSum(w: nat, l: nat)
    requires l == 0 || l == 2
    ensures (4 * w + l) % 2 == 0
  {
    assert 4 * w + l == 2 * (2 * w + l / 2);
  }

  lemma WordNumber(addr: Word)
    requires addr & 3 == 0
    ensures Number(addr) % 4 == 0
  {
    hide WordIndex, Lane;
    LaneCases(addr);
    assert Number(addr) == 4 * WordIndex(addr);
  }

  lemma ConvertedByte(addr: Word, data: Word)
    ensures Carries(Convert(LsuBe(addr, Len1), LsuWdata(addr, data, Len1)), addr, 1, data)
  {
    hide ByteOf, StrobeBit, Number, Convert, LsuBe, LsuWdata, ByteBack;
    Strobes();
    ByteConverts(addr, data);
    ByteBackAgrees(addr, data);
  }

  lemma ConvertedHalf(addr: Word, data: Word)
    requires addr & 1 == 0
    ensures Carries(Convert(LsuBe(addr, Len2), LsuWdata(addr, data, Len2)), addr, 2, data)
  {
    hide ByteOf, StrobeBit, Number, Convert, LsuBe, LsuWdata, HalfBack;
    Strobes();
    HalfConverts(addr, data);
    HalfNumber(addr);
    HalfBackAgrees(addr, data, 0);
    HalfBackAgrees(addr, data, 1);
  }

  lemma ConvertedWord(addr: Word, data: Word)
    requires addr & 3 == 0
    ensures Carries(Convert(LsuBe(addr, Len4), LsuWdata(addr, data, Len4)), addr, 4, data)
  {
    hide ByteOf, StrobeBit, Number;
    Strobes();
    WordNumber(addr);
  }

  lemma ConvertedStore(addr: Word, len: MemLen, data: Word)
    requires !LsuMisaligned(addr, len)
    ensures Carries(Convert(LsuBe(addr, len), LsuWdata(addr, data, len)), addr, Bytes(len), data)
  {
    hide Carries, Convert, LsuBe, LsuWdata;
    match len
    case Len1 => ConvertedByte(addr, data);
    case Len2 => ConvertedHalf(addr, data);
    case Len4 => ConvertedWord(addr, data);
  }

  /** A store through the lanes is a store into the plain array, and is refused exactly when it is
      misaligned or out of range. */
  lemma StoreIsPlain(mem: seq<Byte>, start: nat, addr: Word, len: MemLen, data: Word)
    requires Number(addr) >= start && start % 4 == 0
    ensures var off := Number(addr) - start;
      StorePath(mem, start, addr, len, data) ==
        if LsuMisaligned(addr, len) || off + Bytes(len) > |mem| then None
        else Some(PlainStore(mem, off, Bytes(len), data))
  {
    hide ByteOf, StrobeBit, Number, LsuMisaligned, LsuBe, LsuWdata, Convert;
    if !LsuMisaligned(addr, len) {
      ConvertedStore(addr, len, data);
      var off := Number(addr) - start;
      Multiples(Number(addr), start, Bytes(len));
      var w := Convert(LsuBe(addr, len), LsuWdata(addr, data, len));
      if off + Bytes(len) <= |mem| {
        assert Written(mem, off, w.width, w.value, w.strb) == PlainStore(mem, off, Bytes(len), data);
      }
    }
  }

  lemma Multiples(a: nat, start: nat, n: nat)
    requires a >= start && start % 4 == 0 && (n == 1 || n == 2 || n == 4)
    ensures (a - start) % n == a % n
  {
    if n == 1 {
    } else if n == 2 {
      assert start % 2 == 0;
    }
  }

  // ---- one load ------------------------------------------------------------------------------------------

  lemma LittleAppend(bytes: seq<Byte>, x: Byte)
    requires |bytes| < 4
    ensures Little(bytes + [x]) == BitOr(Little(bytes), Place(x, |bytes|))
  {
    hide BitOr, Place;
    assert (bytes + [x])[..|bytes|] == bytes;
  }

  lemma LittleOne(b0: Byte)
    ensures Little([b0]) == Place(b0, 0)
  {
    hide Place, BitOr;
    LittleAppend([], b0);
    assert [] + [b0] == [b0];
    NoBits(Place(b0, 0));
  }

  lemma LittleTwo(b0: Byte, b1: Byte)
    ensures Little([b0, b1]) == BitOr(Place(b0, 0), Place(b1, 1))
  {
    hide Place, BitOr, Little;
    LittleOne(b0);
    LittleAppend([b0], b1);
    assert [b0] + [b1] == [b0, b1];
  }

  lemma LittleFour(b: seq<Byte>)
    requires |b| == 4
    ensures Little(b) == Quad(b[0], b[1], b[2], b[3])
  {
    hide Place, BitOr, Little;
    LittleTwo(b[0], b[1]);
    LittleAppend([b[0], b[1]], b[2]);
    LittleAppend([b[0], b[1], b[2]], b[3]);
    assert [b[0], b[1]] + [b[2]] == [b[0], b[1], b[2]];
    assert [b[0], b[1], b[2]] + [b[3]] == b;
  }

  function Quad(b0: Byte, b1: Byte, b2: Byte, b3: Byte): Word {
    BitOr(BitOr(BitOr(Place(b0, 0), Place(b1, 1)), Place(b2, 2)), Place(b3, 3))
  }

  lemma NoBits(w: Word)
    ensures BitOr(0, w) == w
  {}

  lemma QuadByte0(b0: Byte, b1: Byte, b2: Byte, b3: Byte)
    ensures Quad(b0, b1, b2, b3) & 0xff == Place(b0, 0)
  {}

  lemma QuadByte1(b0: Byte, b1: Byte, b2: Byte, b3: Byte)
    ensures (Quad(b0, b1, b2, b3) >> 8) & 0xff == Place(b1, 0)
  {}

  lemma QuadByte2(b0: Byte, b1: Byte, b2: Byte, b3: Byte)
    ensures (Quad(b0, b1, b2, b3) >> 16) & 0xff == Place(b2, 0)
  {}

  lemma QuadByte3(b0: Byte, b1: Byte, b2: Byte, b3: Byte)
    ensures Quad(b0, b1, b2, b3) >> 24 == Place(b3, 0)
  {}

  lemma ByteInWord(addr: Word, b0: Byte, b1: Byte, b2: Byte, b3: Byte)
    ensures LoadByte(addr, Quad(b0, b1, b2, b3)) ==
            Place(if addr & 3 == 0 then b0 else if addr & 3 == 1 then b1 else if addr & 3 == 2 then b2 else b3, 0)
  {
    hide Quad, Place;
    QuadByte0(b0, b1, b2, b3);
    QuadByte1(b0, b1, b2, b3);
    QuadByte2(b0, b1, b2, b3);
    QuadByte3(b0, b1, b2, b3);
  }

  lemma HighHalfOf(b0: Byte, b1: Byte, b2: Byte, b3: Byte)
    ensures Quad(b0, b1, b2, b3) >> 16 == BitOr(Place(b2, 0), Place(b3, 1))
  {}

  lemma LowHalfOf(b0: Byte, b1: Byte, b2: Byte, b3: Byte)
    ensures Quad(b0, b1, b2, b3) & 0xffff == BitOr(Place(b0, 0), Place(b1, 1))
  {}

  lemma HalfInWord(addr: Word, b0: Byte, b1: Byte, b2: Byte, b3: Byte)
    ensures LoadHalf(addr, Quad(b0, b1, b2, b3)) ==
            if addr & 2 != 0 then BitOr(Place(b2, 0), Place(b3, 1)) else BitOr(Place(b0, 0), Place(b1, 1))
  {
    hide Quad, Place, BitOr;
    HighHalfOf(b0, b1, b2, b3);
    LowHalfOf(b0, b1, b2, b3);
  }

  lemma AlignedNumber(addr: Word)
    ensures Number(AlignDown(addr)) == Number(addr) - Lane(addr)
  {
    AlignedIndex(addr);
    AlignedLane(addr);
  }

  lemma AlignedIndex(addr: Word)
    ensures WordIndex(AlignDown(addr)) == WordIndex(addr)
  {
    hide Num, AlignDown, Half;
    Arithmetic.AlignedDigits(addr);
  }

  lemma AlignedLane(addr: Word)
    ensures Lane(AlignDown(addr)) == 0
  {
    assert AlignDown(addr) & 3 == 0;
  }

  lemma LoadedByte(b: seq<Byte>, addr: Word, signext: bool)
    requires |b| == 4
    ensures Lane(addr) < 4
    ensures LoadValue(addr, Little(b), Len1, signext) == PlainLoad(b, Lane(addr), 1, signext)
  {
    hide LoadByte, Place, Lane, Little, Quad, Isa.SignExtend, SignFillByte;
    LaneCases(addr);
    LittleFour(b);
    ByteInWord(addr, b[0], b[1], b[2], b[3]);
    ExecCorrect.ExtractedBounds(addr, Little(b));
    ExecCorrect.SignFills(LoadByte(addr, Little(b)));
    var k := Lane(addr);
    assert b[k..k + 1] == [b[k]];
    LittleOne(b[k]);
  }

  lemma LoadedHalf(b: seq<Byte>, addr: Word, signext: bool)
    requires |b| == 4 && addr & 1 == 0
    ensures Lane(addr) <= 2
    ensures LoadValue(addr, Little(b), Len2, signext) == PlainLoad(b, Lane(addr), 2, signext)
  {
    hide LoadHalf, Place, Lane, Little, Quad, BitOr, Isa.SignExtend, SignFillHalf;
    HalfAligned(addr);
    LittleFour(b);
    HalfInWord(addr, b[0], b[1], b[2], b[3]);
    ExecCorrect.ExtractedBounds(addr, Little(b));
    ExecCorrect.SignFills(LoadHalf(addr, Little(b)));
    var k := Lane(addr);
    assert b[k..k + 2] == [b[k], b[k + 1]];
    LittleTwo(b[k], b[k + 1]);
  }

  lemma LoadedValue(b: seq<Byte>, addr: Word, len: MemLen, signext: bool)
    requires |b| == 4 && !LsuMisaligned(addr, len)
    ensures Lane(addr) + Bytes(len) <= 4
    ensures LoadValue(addr, Little(b), len, signext) == PlainLoad(b, Lane(addr), Bytes(len), signext)
  {
    hide LoadByte, LoadHalf, Lane, Little, Isa.SignExtend, SignFillByte, SignFillHalf;
    LaneCases(addr);
    match len
    case Len1 => LoadedByte(b, addr, signext);
    case Len2 => LoadedHalf(b, addr, signext);
    case Len4 => assert b[0..4] == b;
  }

  /** The bytes that lie in whole words. */
  function Whole(size: nat): nat { size - size % 4 }

  /** A load through the lanes is a load from the plain array, of which it reaches the whole words. So the
      two differ exactly on loads that the plain array would serve from an incomplete last word. */
  lemma LoadIsPlain(mem: seq<Byte>, start: nat, addr: Word, len: MemLen, signext: bool)
    requires Number(AlignDown(addr)) >= start && start % 4 == 0
    requires Number(addr) >= start
    ensures var end := Number(addr) - start + Bytes(len);
      LoadPath(mem, start, addr, len, signext) ==
        if LsuMisaligned(addr, len) || end > Whole(|mem|) then None
        else Some(PlainLoad(mem, Number(addr) - start, Bytes(len), signext))
    ensures var end := Number(addr) - start + Bytes(len);
      (LoadPath(mem, start, addr, len, signext) ==
        if LsuMisaligned(addr, len) || end > |mem| then None
        else Some(PlainLoad(mem, Number(addr) - start, Bytes(len), signext))) <==>
      LsuMisaligned(addr, len) || end > |mem| || end <= Whole(|mem|)
  {
    hide LoadValue, LsuMisaligned, Little, Lane, AlignDown, PlainLoad, Number;
    AlignedNumber(addr);
    AlignedOffset(addr, start);
    if !LsuMisaligned(addr, len) {
      var k := Lane(addr);
      var off := Number(addr) - start;
      LaneFits(addr, len);
      var lo := off - k;
      Fits(|mem|, lo, k, Bytes(len));
      if lo + 4 <= |mem| {
        LoadedValue(mem[lo..lo + 4], addr, len, signext);
        PlainSlice(mem, lo, k, Bytes(len), signext);
      }
    }
  }

  lemma AlignedOffset(addr: Word, start: nat)
    requires start % 4 == 0 && start <= Number(AlignDown(addr))
    ensures (Number(AlignDown(addr)) - start) % 4 == 0 && Lane(addr) < 4
  {
    hide WordIndex, AlignDown;
    AlignedLane(addr);
    LaneCases(addr);
    Multiples(Number(AlignDown(addr)), start, 4);
  }

  /** An access ends in the whole words exactly if its word is one of them. */
  lemma Fits(size: nat, lo: nat, k: nat, n: nat)
    requires lo % 4 == 0 && n > 0 && k + n <= 4
    ensures lo + k + n <= Whole(size) <==> lo + 4 <= size
  {}

  lemma PlainSlice(mem: seq<Byte>, lo: nat, k: nat, n: nat, signext: bool)
    requires k + n <= 4 && lo + 4 <= |mem|
    ensures PlainLoad(mem[lo..lo + 4], k, n, signext) == PlainLoad(mem, lo + k, n, signext)
  {
    hide Little, Isa.SignExtend;
    Slices(mem, lo, k, n);
  }

  lemma Slices(mem: seq<Byte>, lo: nat, k: nat, n: nat)
    requires k + n <= 4 && lo + 4 <= |mem|
    ensures mem[lo..lo + 4][k..k + n] == mem[lo + k..lo + k + n]
  {
    var xs, ys := mem[lo..lo + 4][k..k + n], mem[lo + k..lo + k + n];
    assert |xs| == |ys|;
    forall i | 0 <= i < n
      ensures xs[i] == ys[i]
    {
      assert xs[i] == mem[lo..lo + 4][k + i] == mem[lo + k + i];
    }
  }

  lemma LaneFits(addr: Word, len: MemLen)
    requires !LsuMisaligned(addr, len)
    ensures Lane(addr) + Bytes(len) <= 4
  {
    hide Lane;
    LaneCases(addr);
    match len
    case Len1 => assert Lane(addr) <= 3;
    case Len2 => HalfAligned(addr);
    case Len4 => assert Lane(addr) == 0;
  }

  // ---- sequences of accesses --------------------------------------------------------------------------------

  datatype Store = Store(addr: Word, len: MemLen, data: Word)

  predicate InRange(size: nat, start: nat, addr: Word, len: MemLen) {
    && start <= Number(addr) && Number(addr) - start + Bytes(len) <= size
    && !LsuMisaligned(addr, len)
  }

  /** The memory after the stores, by way of the lanes. */
  function StoresThrough(mem: seq<Byte>, start: nat, stores: seq<Store>): Option<seq<Byte>>
    decreases |stores|
  {
    if stores == [] then Some(mem)
    else
      var s := stores[|stores| - 1];
      match StoresThrough(mem, start, stores[..|stores| - 1])
      case None => None
      case Some(now) => if Number(s.addr) < start then None else StorePath(now, start, s.addr, s.len, s.data)
  }

  /** The memory after the stores, as a plain array. */
  function StoresPlain(mem: seq<Byte>, start: nat, stores: seq<Store>): (r: seq<Byte>)
    requires forall k :: 0 <= k < |stores| ==> InRange(|mem|, start, stores[k].addr, stores[k].len)
    ensures |r| == |mem|
    decreases |stores|
  {
    if stores == [] then mem
    else
      var s := stores[|stores| - 1];
      assert InRange(|mem|, start, s.addr, s.len);
      PlainStore(StoresPlain(mem, start, stores[..|stores| - 1]), Number(s.addr) - start, Bytes(s.len), s.data)
  }

  /** After any aligned stores in range, an aligned load in range returns what the plain array holds,
      exactly if it does not touch an incomplete last word. */
  lemma {:induction false} LoadAfterStores(mem: seq<Byte>, start: nat, stores: seq<Store>, addr: Word, len: MemLen, signext: bool)
    requires start % 4 == 0
    requires forall k :: 0 <= k < |stores| ==> InRange(|mem|, start, stores[k].addr, stores[k].len)
    requires InRange(|mem|, start, addr, len)
    ensures var after := StoresPlain(mem, start, stores);
      && StoresThrough(mem, start, stores) == Some(after)
      && Number(AlignDown(addr)) >= start
      && (LoadPath(after, start, addr, len, signext) == Some(PlainLoad(after, Number(addr) - start, Bytes(len), signext)) <==>
          Number(addr) - start + Bytes(len) <= Whole(|mem|))
    decreases |stores|
  {
    hide StorePath, LoadPath, PlainLoad, WordIndex, Lane, LsuMisaligned, AlignDown, PlainStore;
    if stores != [] {
      var s := stores[|stores| - 1];
      assert InRange(|mem|, start, s.addr, s.len);
      LoadAfterStores(mem, start, stores[..|stores| - 1], addr, len, signext);
      StoreIsPlain(StoresPlain(mem, start, stores[..|stores| - 1]), start, s.addr, s.len, s.data);
    }
    AlignedNumber(addr);
    LaneCases(addr);
    LoadIsPlain(StoresPlain(mem, start, stores), start, addr, len, signext);
  }

  // ---- numbers, bytes and words ------------------------------------------------------------------------------

  /** `Number` is the number that an address denotes. */
  lemma NumberMeans(a: Word)
    ensures Number(a) == Num(a)
  {
    hide Num, Digit, Half, Lane;
    Arithmetic.TwoDigits(a);
    LaneDigits(a);
  }

  lemma LaneDigits(a: Word)
    ensures Lane(a) == Digit(a) + 2 * Digit(Half(a))
  {}

  /** The `i`-th digit to the base 256, the last one being the 0-th. */
  function ByteDigit(x: nat, i: nat): nat { if i == 0 then x % 256 else ByteDigit(x / 256, i - 1) }

  lemma {:induction false} ByteMeans(v: Word, i: nat)
    requires i < 4
    ensures Num(ByteOf(v, i) as Word) == ByteDigit(Num(v), i)
    decreases i
  {
    hide Num, ByteOf, Arithmetic.LastByte, Arithmetic.Upper;
    Arithmetic.NumByte(v);
    if i == 0 {
      FirstByte(v);
    } else {
      NextByte(v, i);
      ByteMeans(Arithmetic.Upper(v), i - 1);
    }
  }

  lemma FirstByte(v: Word)
    ensures ByteOf(v, 0) as Word == Arithmetic.LastByte(v)
  {}

  lemma NextByte(v: Word, i: nat)
    requires 0 < i < 4
    ensures ByteOf(v, i) == ByteOf(Arithmetic.Upper(v), i - 1)
  {}

  lemma ByteOfPlace(b: Byte, i: nat, j: nat)
    requires i < 4 && j < 4
    ensures ByteOf(Place(b, i), j) == if i == j then b else 0
  {}

  function OrBytes(b: Byte, c: Byte): Byte { b | c }

  lemma ByteOfOr0(v: Word, w: Word)
    ensures ByteOf(BitOr(v, w), 0) == OrBytes(ByteOf(v, 0), ByteOf(w, 0))
  {
    assert BitOr(v, w) == v | w;
  }

  lemma ByteOfOr1(v: Word, w: Word)
    ensures ByteOf(BitOr(v, w), 1) == OrBytes(ByteOf(v, 1), ByteOf(w, 1))
  {
    assert BitOr(v, w) == v | w;
  }

  lemma ByteOfOr2(v: Word, w: Word)
    ensures ByteOf(BitOr(v, w), 2) == OrBytes(ByteOf(v, 2), ByteOf(w, 2))
  {
    assert BitOr(v, w) == v | w;
  }

  lemma ByteOfOr3(v: Word, w: Word)
    ensures ByteOf(BitOr(v, w), 3) == OrBytes(ByteOf(v, 3), ByteOf(w, 3))
  {
    assert BitOr(v, w) == v | w;
  }

  lemma ByteOfOr(v: Word, w: Word, i: nat)
    requires i < 4
    ensures ByteOf(BitOr(v, w), i) == OrBytes(ByteOf(v, i), ByteOf(w, i))
  {
    hide ByteOf, BitOr, OrBytes;
    if i == 0 {
      ByteOfOr0(v, w);
    } else if i == 1 {
      ByteOfOr1(v, w);
    } else if i == 2 {
      ByteOfOr2(v, w);
    } else {
      ByteOfOr3(v, w);
    }
  }

  lemma NoByte(i: nat)
    ensures ByteOf(0, i) == 0
  {}

  lemma OrNothing(b: Byte)
    ensures OrBytes(b, 0) == b && OrBytes(0, b) == b
  {}

  /** The value that the device reads has the bytes it was read from. */
  lemma {:induction false} LittleBytes(b: seq<Byte>, i: nat)
    requires |b| <= 4 && i < 4
    ensures ByteOf(Little(b), i) == if i < |b| then b[i] else 0
    decreases |b|
  {
    hide ByteOf, Place, BitOr, OrBytes;
    if b == [] {
      NoByte(i);
    } else {
      var n := |b| - 1;
      LittleBytes(b[..n], i);
      ByteOfOr(Little(b[..n]), Place(b[n], n), i);
      ByteOfPlace(b[n], n, i);
      OrNothing(b[n]);
      OrNothing(0);
      if i < n {
        OrNothing(b[i]);
      }
    }
  }

  lemma StrobeBit0(strb: bv8)
    ensures StrobeBit(strb, 0) <==> BitAt(strb as Word, 0)
  {}

  lemma StrobeBit1(strb: bv8)
    ensures StrobeBit(strb, 1) <==> BitAt(strb as Word, 1)
  {}

  lemma StrobeBit2(strb: bv8)
    ensures StrobeBit(strb, 2) <==> BitAt(strb as Word, 2)
  {
    assert BitAt(strb as Word, 2) == BitAt(Half(strb as Word), 1);
    assert BitAt(Half(strb as Word), 1) == BitAt(Half(Half(strb as Word)), 0);
  }

  lemma StrobeBit3(strb: bv8)
    ensures StrobeBit(strb, 3) <==> BitAt(strb as Word, 3)
  {
    assert BitAt(strb as Word, 3) == BitAt(Half(strb as Word), 2);
    assert BitAt(Half(strb as Word), 2) == BitAt(Half(Half(strb as Word)), 1);
    assert BitAt(Half(Half(strb as Word)), 1) == BitAt(Half(Half(Half(strb as Word))), 0);
  }

  /** A strobe selects byte `i` by its own `i`-th bit. */
  lemma StrobeMeans(strb: bv8, i: nat)
    requires i < 4
    ensures StrobeBit(strb, i) <==> BitAt(strb as Word, i)
  {
    hide StrobeBit, BitAt;
    if i == 0 {
      StrobeBit0(strb);
    } else if i == 1 {
      StrobeBit1(strb);
    } else if i == 2 {
      StrobeBit2(strb);
    } else {
      StrobeBit3(strb);
    }
  }

  lemma ReplicatedByte(data: Word, i: nat)
    requires i < 4
    ensures ByteOf(Replicate(data), i) == ByteOf(data, 0)
  {}

  lemma ShiftedUp8(v: Word, i: nat)
    requires i < 4
    ensures ByteOf(ShiftLeft(v, 8), i) == if i >= 1 then ByteOf(v, i - 1) else 0
  {}

  lemma ShiftedUp16(v: Word, i: nat)
    requires i < 4
    ensures ByteOf(ShiftLeft(v, 16), i) == if i >= 2 then ByteOf(v, i - 2) else 0
  {}

  lemma ShiftedUp24(v: Word, i: nat)
    requires i < 4
    ensures ByteOf(ShiftLeft(v, 24), i) == if i >= 3 then ByteOf(v, i - 3) else 0
  {}

  /** The data of an SB holds its byte in its own lane and in every lane above, and zeros below. */
  lemma ByteReplicated(addr: Word, data: Word, i: nat)
    requires i < 4
    ensures ByteOf(LsuWdata(addr, data, Len1), i) == if i >= Lane(addr) then ByteOf(data, 0) else 0
  {
    hide Replicate, ByteOf, ShiftLeft;
    ShiftedUp8(Replicate(data), i);
    ShiftedUp16(Replicate(data), i);
    ShiftedUp24(Replicate(data), i);
    ReplicatedByte(data, i);
    if i >= Lane(addr) {
      ReplicatedByte(data, i - Lane(addr));
    }
  }

  lemma LowHalfAlone(data: Word, i: nat)
    requires i < 4
    ensures ByteOf(data & 0xffff, i) == if i < 2 then ByteOf(data, i) else 0
  {}

  lemma HighHalfAlone(data: Word, i: nat)
    requires i < 4
    ensures ByteOf(ShiftLeft(data & 0xffff, 16), i) == if i >= 2 then ByteOf(data, i - 2) else 0
  {}

  /** The data of an SH holds its half-word in its own lanes, and zeros in the others. */
  lemma HalfAlone(addr: Word, data: Word, i: nat)
    requires i < 4 && !LsuMisaligned(addr, Len2)
    ensures ByteOf(LsuWdata(addr, data, Len2), i) ==
            if Lane(addr) <= i < Lane(addr) + 2 then ByteOf(data, i - Lane(addr)) else 0
  {
    hide ByteOf, ShiftLeft, Lane;
    HalfAligned(addr);
    LowHalfAlone(data, i);
    HighHalfAlone(data, i);
  }

  // ---- what was stored last ------------------------------------------------------------------------------------

  /** The low byte, half-word or word of `v`, extended. */
  function Extended(v: Word, len: MemLen, signext: bool): Word {
    match len
    case Len1 => if signext && v & 0x80 != 0 then v | 0xffff_ff00 else v & 0xff
    case Len2 => if signext && v & 0x8000 != 0 then v | 0xffff_0000 else v & 0xffff
    case Len4 => v
  }

  /** The stored value from its `k`-th byte on. */
  function From(v: Word, k: nat): Word {
    if k == 0 then v else if k == 1 then v >> 8 else if k == 2 then v >> 16 else v >> 24
  }

  lemma PlacedByte(v: Word, k: nat)
    requires k < 4
    ensures Place(ByteOf(v, k), 0) == From(v, k) & 0xff
  {}

  lemma PlacedHalf(v: Word)
    ensures BitOr(Place(ByteOf(v, 0), 0), Place(ByteOf(v, 1), 1)) == v & 0xffff
  {}

  lemma PlacedUpperHalf(v: Word)
    ensures BitOr(Place(ByteOf(v, 2), 0), Place(ByteOf(v, 3), 1)) == (v >> 16) & 0xffff
  {}

  lemma FilledByte(v: Word)
    ensures SignFillByte(v & 0xff) == if v & 0x80 != 0 then v | 0xffff_ff00 else v & 0xff
    ensures v & 0xff < 0x100
  {}

  lemma FilledHalf(v: Word)
    ensures SignFillHalf(v & 0xffff) == if v & 0x8000 != 0 then v | 0xffff_0000 else v & 0xffff
    ensures v & 0xffff < 0x1_0000
  {}

  lemma ExtendByte(x: Word, signext: bool)
    ensures (if signext then Isa.SignExtend(x & 0xff, 0x80) else x & 0xff) == Extended(x, Len1, signext)
  {
    hide Isa.SignExtend, SignFillByte, SignFillHalf;
    FilledByte(x);
    ExecCorrect.SignFills(x & 0xff);
  }

  lemma ExtendHalf(x: Word, signext: bool)
    ensures (if signext then Isa.SignExtend(x & 0xffff, 0x8000) else x & 0xffff) == Extended(x, Len2, signext)
  {
    hide Isa.SignExtend, SignFillByte, SignFillHalf;
    FilledHalf(x);
    ExecCorrect.SignFills(x & 0xffff);
  }

  lemma ReadBack1(v: Word, k: nat, signext: bool)
    requires k < 4
    ensures var b := Place(ByteOf(v, k), 0);
      (if signext then Isa.SignExtend(b, 0x80) else b) == Extended(From(v, k), Len1, signext)
  {
    hide Place, ByteOf, From, Isa.SignExtend, Extended;
    PlacedByte(v, k);
    ExtendByte(From(v, k), signext);
  }

  lemma ReadBack2(v: Word, k: nat, signext: bool)
    requires k == 0 || k == 2
    ensures var h := BitOr(Place(ByteOf(v, k), 0), Place(ByteOf(v, k + 1), 1));
      (if signext then Isa.SignExtend(h, 0x8000) else h) == Extended(From(v, k), Len2, signext)
  {
    hide Place, ByteOf, BitOr, Isa.SignExtend, Extended;
    if k == 0 {
      PlacedHalf(v);
      ExtendHalf(v, signext);
    } else {
      PlacedUpperHalf(v);
      ExtendHalf(v >> 16, signext);
    }
  }

  lemma ReadBack4(v: Word)
    ensures Quad(ByteOf(v, 0), ByteOf(v, 1), ByteOf(v, 2), ByteOf(v, 3)) == v
  {}

  lemma StoreAligned(addr: Word, len: MemLen)
    requires !LsuMisaligned(addr, len)
    ensures Number(addr) % Bytes(len) == 0
  {
    hide Number, LsuMisaligned, Convert, LsuBe, LsuWdata;
    ConvertedStore(addr, len, 0);
  }

  lemma Inside(a: nat, a': nat, n: nat, n': nat)
    requires (n == 1 || n == 2 || n == 4) && (n' == 1 || n' == 2 || n' == 4) && a % n == 0 && a' % n' == 0
    requires a <= a' && a' + n' <= a + n
    ensures a' - a < 4 && (n' == 2 ==> a' - a == 0 || a' - a == 2) && (n' == 4 ==> a' == a)
  {}

  lemma Offsets(addr: Word, addr': Word, len: MemLen, len': MemLen)
    requires !LsuMisaligned(addr, len) && !LsuMisaligned(addr', len')
    requires Number(addr) <= Number(addr') && Number(addr') + Bytes(len') <= Number(addr) + Bytes(len)
    ensures var k := Number(addr') - Number(addr);
      k < 4 && (len'.Len2? ==> k == 0 || k == 2) && (len'.Len4? ==> k == 0)
  {
    hide Number, LsuMisaligned;
    StoreAligned(addr, len);
    StoreAligned(addr', len');
    Inside(Number(addr), Number(addr'), Bytes(len), Bytes(len'));
  }

  /** A load from within the bytes of the last store returns the stored data from there on, extended as
      asked; exactly if it does not touch an incomplete last word. */
  lemma LoadOfStore(mem: seq<Byte>, start: nat, addr: Word, len: MemLen, data: Word, addr': Word, len': MemLen, signext: bool)
    requires start % 4 == 0 && InRange(|mem|, start, addr, len) && !LsuMisaligned(addr', len')
    requires Number(addr) <= Number(addr') && Number(addr') + Bytes(len') <= Number(addr) + Bytes(len)
    ensures StorePath(mem, start, addr, len, data).Some?
    ensures var after := StorePath(mem, start, addr, len, data).value;
      && Number(AlignDown(addr')) >= start
      && (LoadPath(after, start, addr', len', signext) ==
            if Number(addr') - start + Bytes(len') <= Whole(|mem|)
            then Some(Extended(From(data, Number(addr') - Number(addr)), len', signext)) else None)
  {
    hide StorePath, LoadPath, Number, LsuMisaligned, AlignDown, ByteOf, Extended, From, PlainLoad;
    StoreIsPlain(mem, start, addr, len, data);
    var off, k, n := Number(addr) - start, Number(addr') - Number(addr), Bytes(len');
    var after := PlainStore(mem, off, Bytes(len), data);
    AlignedStart(addr', start);
    LoadIsPlain(after, start, addr', len', signext);
    Offsets(addr, addr', len, len');
    var got := after[off + k..off + k + n];
    forall j | 0 <= j < n
      ensures got[j] == ByteOf(data, k + j)
    {
      assert got[j] == after[off + k + j];
    }
    LoadedBack(got, data, k, len', signext);
    SliceLoads(after, off + k, n, signext);
  }

  lemma SliceLoads(mem: seq<Byte>, off: nat, n: nat, signext: bool)
    requires n <= 4 && off + n <= |mem|
    ensures PlainLoad(mem[off..off + n], 0, n, signext) == PlainLoad(mem, off, n, signext)
  {
    hide Little, Isa.SignExtend;
    assert mem[off..off + n][0..n] == mem[off..off + n];
  }

  /** What the plain array reads from bytes of the stored value. */
  lemma LoadedBack(got: seq<Byte>, data: Word, k: nat, len: MemLen, signext: bool)
    requires |got| == Bytes(len) && k < 4 && (len.Len2? ==> k == 0 || k == 2) && (len.Len4? ==> k == 0)
    requires forall j :: 0 <= j < |got| ==> got[j] == ByteOf(data, k + j)
    ensures PlainLoad(got, 0, |got|, signext) == Extended(From(data, k), len, signext)
  {
    hide ByteOf, Extended, From, Place, BitOr, Quad, Isa.SignExtend, Little;
    assert got[0..|got|] == got;
    match len
    case Len1 =>
      assert got == [ByteOf(data, k)];
      LittleOne(ByteOf(data, k));
      ReadBack1(data, k, signext);
    case Len2 =>
      assert got == [ByteOf(data, k), ByteOf(data, k + 1)];
      LittleTwo(ByteOf(data, k), ByteOf(data, k + 1));
      ReadBack2(data, k, signext);
    case Len4 =>
      LittleFour(got);
      ReadBack4(data);
      FromStart(data);
  }

  lemma FromStart(data: Word)
    ensures forall signext :: Extended(From(data, 0), Len4, signext) == data
  {}

  lemma AlignedStart(addr: Word, start: nat)
    requires Number(addr) >= start && start % 4 == 0
    ensures Number(AlignDown(addr)) >= start
  {
    hide WordIndex, AlignDown;
    AlignedNumber(addr);
    LaneCases(addr);
  }
}

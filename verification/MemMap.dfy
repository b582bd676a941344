/** The address map of devices/common/src/mem_map.c. Addresses are 32-bit unsigned numbers, and sums
    of them wrap. */
module MemMap {
  import opened Words
  import opened Dram

  const ADDRESSES: nat := 0x1_0000_0000

  datatype Range = Range(start: nat, size: nat)
  {
    /** What a caller can register: a 32-bit base and a size of at most the whole address space. */
    predicate Known() { start < ADDRESSES && 0 < size <= ADDRESSES }

    /** It ends below the top of the address space. */
    predicate Fits() { 0 < size && start + size < ADDRESSES }
    predicate Covers(addr: nat, width: nat) { start <= addr && addr + width <= start + size }
  }

  /** The end of a range, in 32 bits. */
  function End(r: Range): nat { (r.start + r.size) % ADDRESSES }

  predicate RangesOverlap(a: Range, b: Range) { a.start < End(b) && b.start < End(a) }

  predicate Disjoint(a: Range, b: Range) { a.start + a.size <= b.start || b.start + b.size <= a.start }

  lemma OverlapBelowTop(a: Range, b: Range)
    requires a.Fits() && b.Fits()
    ensures RangesOverlap(a, b) <==> exists x :: a.Covers(x, 1) && b.Covers(x, 1)
    ensures RangesOverlap(a, b) <==> !Disjoint(a, b)
  {
    if RangesOverlap(a, b) {
      var x := if a.start < b.start then b.start else a.start;
      assert a.Covers(x, 1) && b.Covers(x, 1);
    }
  }

  /** When the comparison of ranges is exact. It is on ranges that end below the top of the address space,
      and a range conflicts with itself if and only if it does. Of two ranges of which one does not, it is
      exact if they are disjoint, or if the other starts below the wrapped end of that one. */
  lemma OverlapExactly(a: Range, b: Range)
    requires a.Known() && b.Known()
    ensures a.Fits() && b.Fits() ==> (RangesOverlap(a, b) <==> exists x :: a.Covers(x, 1) && b.Covers(x, 1))
    ensures RangesOverlap(a, a) <==> a.Fits()
    ensures (RangesOverlap(a, b) <==> !Disjoint(a, b)) <==>
            || (a.Fits() && b.Fits())
            || (a.Fits() && (Disjoint(a, b) || a.start + ADDRESSES < b.start + b.size))
            || (b.Fits() && (Disjoint(a, b) || b.start + ADDRESSES < a.start + a.size))
  {
    if a.Fits() && b.Fits() {
      OverlapBelowTop(a, b);
    }
  }

  // ---- the search -------------------------------------------------------------------------------

  predicate Matches(r: Range, addr: nat, width: nat) { addr >= r.start && (addr + width) % ADDRESSES <= End(r) }

  /** An access that ends below the top matches the ranges that hold it and end below the top too. */
  lemma MatchesExactly(r: Range, addr: nat, width: nat)
    requires r.Known() && width > 0 && addr + width < ADDRESSES
    ensures Matches(r, addr, width) <==> r.Fits() && r.Covers(addr, width)
  {}

  /** The first range that matches. */
  function Find(rs: seq<Range>, addr: nat, width: nat): (k: Option<nat>)
    ensures k.Some? ==> k.value < |rs| && Matches(rs[k.value], addr, width)
    ensures k.None? ==> forall i :: 0 <= i < |rs| ==> !Matches(rs[i], addr, width)
  {
    if rs == [] then None
    else if Matches(rs[0], addr, width) then Some(0)
    else
      match Find(rs[1..], addr, width)
      case None => None
      case Some(k) => Some(k + 1)
  }

  ghost predicate Separate(rs: seq<Range>) {
    && (forall i :: 0 <= i < |rs| ==> rs[i].Fits())
    && (forall i, j :: 0 <= i < j < |rs| ==> Disjoint(rs[i], rs[j]))
  }

  lemma FitsIn(rs: seq<Range>, i: nat)
    requires Separate(rs) && i < |rs|
    ensures rs[i].Fits()
  {}

  lemma SeparateWith(rs: seq<Range>, r: Range)
    requires Separate(rs) && r.Fits() && forall i :: 0 <= i < |rs| ==> Disjoint(r, rs[i])
    ensures Separate(rs + [r])
  {}

  /** On separate ranges the search finds the one range that holds the access, if there is one. */
  lemma FindHolder(rs: seq<Range>, addr: nat, width: nat, k: nat)
    requires Separate(rs) && width > 0 && addr + width < ADDRESSES && k < |rs|
    ensures Find(rs, addr, width) == Some(k) <==> rs[k].Covers(addr, width)
  {
    hide Find, Matches, Separate;
    var found := Find(rs, addr, width);
    FitsIn(rs, k);
    MatchesExactly(rs[k], addr, width);
    if found.Some? && found.value != k {
      var j := found.value;
      FitsIn(rs, j);
      MatchesExactly(rs[j], addr, width);
      Apart(rs, j, k);
    }
  }

  lemma Apart(rs: seq<Range>, j: nat, k: nat)
    requires Separate(rs) && j < |rs| && k < |rs| && j != k
    ensures Disjoint(rs[j], rs[k])
  {
    if j < k {
      assert Disjoint(rs[j], rs[k]);
    } else {
      assert Disjoint(rs[k], rs[j]);
    }
  }

  /** The access starts in or above the range and, counted on from address zero, ends in or below it. */
  predicate Wraps(r: Range, addr: nat, width: nat) {
    r.start <= addr && addr + width - ADDRESSES <= r.start + r.size
  }

  /** An access that reaches the top of the address space is held by no range, and goes to the first one
      that it wraps around. So on separate ranges the search is exact if and only if the access ends
      below the top or wraps around none. */
  lemma FindExactly(rs: seq<Range>, addr: nat, width: nat)
    requires Separate(rs) && addr < ADDRESSES && 0 < width <= ADDRESSES
    ensures addr + width >= ADDRESSES ==> forall k :: 0 <= k < |rs| ==>
      && !rs[k].Covers(addr, width)
      && (Find(rs, addr, width) == Some(k) <==>
            Wraps(rs[k], addr, width) && forall j :: 0 <= j < k ==> !Wraps(rs[j], addr, width))
    ensures (forall k :: 0 <= k < |rs| ==> (Find(rs, addr, width) == Some(k) <==> rs[k].Covers(addr, width))) <==>
            addr + width < ADDRESSES || forall k :: 0 <= k < |rs| ==> !Wraps(rs[k], addr, width)
  {
    hide Find, Disjoint;
    var found := Find(rs, addr, width);
    if addr + width < ADDRESSES {
      forall k | 0 <= k < |rs|
        ensures found == Some(k) <==> rs[k].Covers(addr, width)
      {
        FindHolder(rs, addr, width, k);
      }
    } else {
      assert forall k :: 0 <= k < |rs| ==> (Matches(rs[k], addr, width) <==> Wraps(rs[k], addr, width));
      forall k | 0 <= k < |rs| && Wraps(rs[k], addr, width) && forall j :: 0 <= j < k ==> !Wraps(rs[j], addr, width)
        ensures found == Some(k)
      {
        FindFirst(rs, addr, width, k);
      }
      if found.Some? {
        FindIsFirst(rs, addr, width);
      }
    }
  }

  lemma {:induction false} FindIsFirst(rs: seq<Range>, addr: nat, width: nat)
    ensures var k := Find(rs, addr, width);
      k.Some? ==> forall j :: 0 <= j < k.value ==> !Matches(rs[j], addr, width)
  {
    if rs != [] && !Matches(rs[0], addr, width) {
      FindIsFirst(rs[1..], addr, width);
    }
  }

  /** The order of registration does not matter. */
  lemma OrderIsIrrelevant(rs: seq<Range>, qs: seq<Range>, addr: nat, width: nat)
    requires Separate(rs) && Separate(qs) && width > 0 && addr + width < ADDRESSES
    requires forall r :: r in rs <==> r in qs
    ensures match Find(rs, addr, width)
      case None => Find(qs, addr, width) == None
      case Some(k) => Find(qs, addr, width).Some? && qs[Find(qs, addr, width).value] == rs[k]
  {
    hide Separate, Find, Matches;
    var f, g := Find(rs, addr, width), Find(qs, addr, width);
    if f.Some? {
      FindMember(qs, rs[f.value], addr, width);
      FindSame(rs, qs, f.value, addr, width);
    }
    if g.Some? {
      FindMember(rs, qs[g.value], addr, width);
    }
  }

  lemma FindMember(rs: seq<Range>, r: Range, addr: nat, width: nat)
    requires r in rs && Matches(r, addr, width)
    ensures Find(rs, addr, width).Some?
  {}

  lemma FindSame(rs: seq<Range>, qs: seq<Range>, k: nat, addr: nat, width: nat)
    requires Separate(rs) && Separate(qs) && width > 0 && addr + width < ADDRESSES
    requires k < |rs| && rs[k] in qs && Find(rs, addr, width) == Some(k)
    ensures Find(qs, addr, width).Some? && qs[Find(qs, addr, width).value] == rs[k]
  {
    hide Separate, Find;
    FindHolder(rs, addr, width, k);
    var j :| 0 <= j < |qs| && qs[j] == rs[k];
    FindHolder(qs, addr, width, j);
  }

  /** The five units of the SoC, in the order of registration: Boot ROM, CLINT, UART, interrupt
      aggregator, DRAM. */
  const SocRanges: seq<Range> :=
    [Range(0, 0x1000), Range(0x200_0000, 0x1_0000), Range(0x1000_1000, 0xc), Range(0x1000_4000, 0x1000),
     Range(0x8000_0000, 0x400_0000)]

  /** In the SoC an access over the top goes to the Boot ROM. */
  lemma SocIsSeparate(addr: nat, width: nat)
    requires addr < ADDRESSES && 0 < width <= 4
    ensures Separate(SocRanges)
    ensures addr + width >= ADDRESSES ==> Find(SocRanges, addr, width) == Some(0)
  {}

  // ---- the map ---------------------------------------------------------------------------------------

  /** A unit whose device is a memory. */
  datatype Unit = Unit(range: Range, device: Dram)

  function Ranges(units: seq<Unit>): (rs: seq<Range>)
    ensures |rs| == |units| && forall i :: 0 <= i < |units| ==> rs[i] == units[i].range
  {
    if units == [] then [] else [units[0].range] + Ranges(units[1..])
  }

  datatype AddResult = Added | Exists

  class MemoryMap {
    var units: seq<Unit>

    /** Separate units, each on a memory of its own of the right size. */
    ghost predicate Valid()
      reads this
    {
      && Separate(Ranges(units))
      && (forall i :: 0 <= i < |units| ==> units[i].device.backing.Length == units[i].range.size)
      && (forall i, j :: 0 <= i < j < |units| ==> units[i].device.backing != units[j].device.backing)
    }

    ghost function Backings(): set<object>
      reads this
    {
      set i | 0 <= i < |units| :: units[i].device.backing
    }

    /** The byte at an address, if a unit has it. */
    ghost function View(addr: nat): Option<Byte>
      requires Valid()
      reads this, Backings()
    {
      match Find(Ranges(units), addr, 1)
      case None => None
      case Some(k) =>
        var off := addr - units[k].range.start;
        if 0 <= off < units[k].range.size then Some(units[k].device.backing[off]) else None
    }

    constructor ()
      ensures Valid() && units == []
    {
      units := [];
    }

    /** A unit is added unless the comparison of ranges finds a conflict. For a range that ends below
        the top of the address space that is exact, and the map stays separate. */
    method AddDevice(unit: Unit) returns (result: AddResult)
      requires Valid() && 0 < unit.range.size == unit.device.backing.Length
      requires forall i :: 0 <= i < |units| ==> units[i].device.backing != unit.device.backing
      modifies this
      ensures result.Added? <==> forall i :: 0 <= i < |old(units)| ==> !RangesOverlap(unit.range, old(units)[i].range)
      ensures units == if result.Added? then old(units) + [unit] else old(units)
      ensures unit.range.Fits() ==>
        && Valid()
        && (result.Added? <==> forall i :: 0 <= i < |old(units)| ==> Disjoint(unit.range, old(units)[i].range))
    {
      hide Separate, Find;
      for i := 0 to |units|
        invariant units == old(units)
        invariant forall j :: 0 <= j < i ==> !RangesOverlap(unit.range, units[j].range)
        invariant unit.range.Fits() ==> forall j :: 0 <= j < i ==> Disjoint(unit.range, units[j].range)
      {
        if unit.range.Fits() {
          FitsIn(Ranges(units), i);
          OverlapBelowTop(unit.range, units[i].range);
        }
        if RangesOverlap(unit.range, units[i].range) {
          return Exists;
        }
      }
      ghost var before := Ranges(units);
      units := units + [unit];
      assert Ranges(units) == before + [unit.range];
      if unit.range.Fits() {
        SeparateWith(before, unit.range);
      }
      return Added;
    }

    /** `find_unit` */
    method FindUnit(addr: nat, width: nat) returns (k: Option<nat>)
      ensures k == Find(Ranges(units), addr, width)
    {
      for i := 0 to |units|
        invariant forall j :: 0 <= j < i ==> !Matches(units[j].range, addr, width)
      {
        if Matches(units[i].range, addr, width) {
          FindFirst(Ranges(units), addr, width, i);
          return Some(i);
        }
      }
      return None;
    }

    /** The unit that holds an access, and where in it. */
    ghost function UnitOf(addr: nat, width: nat): Option<nat>
      requires Valid()
      reads this
    {
      Find(Ranges(units), addr, width)
    }

    /** Some unit takes an access of this width here. */
    ghost predicate Writable(addr: nat, width: nat)
      requires Valid()
      reads this
    {
      var k := UnitOf(addr, width);
      k.Some? && Accepts(units[k.value].range.size, addr - units[k.value].range.start, width)
    }

    /** An access that reaches the top of the address space is taken by no unit. */
    lemma WritableFits(addr: nat, width: nat)
      requires Valid() && Writable(addr, width)
      ensures addr + width < ADDRESSES
    {
      hide Find;
    }

    /** An access is answered by the unit that holds it; one that runs over the top of the address
        space is refused, by a device or by the map. */
    method Write(addr: nat, width: nat, value: Word, strb: bv8) returns (resp: Resp)
      requires Valid() && addr < ADDRESSES
      modifies Backings()
      ensures Valid()
      ensures resp == Okay <==> Writable(addr, width) && (width == 4 ==> strb == 0xf)
      ensures resp == DecErr <==> UnitOf(addr, width) == None
      ensures forall a: nat ::
        View(a) == if resp == Okay && addr <= a < addr + width && StrobeBit(strb, a - addr)
                   then Some(ByteOf(value, a - addr)) else old(View(a))
    {
      hide ByteOf, StrobeBit, RangesOverlap, Disjoint, Find, Ranges;
      var k := FindUnit(addr, width);
      if k == None {
        return DecErr;
      }
      var u := units[k.value];
      resp := u.device.Write(addr - u.range.start, width, value, strb);
      forall a: nat
        ensures View(a) == if resp == Okay && addr <= a < addr + width && StrobeBit(strb, a - addr)
                           then Some(ByteOf(value, a - addr)) else old(View(a))
      {
        ViewUnit(a, k.value);
      }
    }

    /** The bytes of a unit are seen at its addresses and nowhere else. */
    lemma ViewUnit(a: nat, k: nat)
      requires Valid() && k < |units|
      ensures units[k].range.Covers(a, 1) ==> View(a) == Some(units[k].device.backing[a - units[k].range.start])
      ensures !units[k].range.Covers(a, 1) ==>
        var f := Find(Ranges(units), a, 1);
        View(a) == None || (f.Some? && f.value != k)
    {
      if a + 1 < ADDRESSES {
        FindHolder(Ranges(units), a, 1, k);
      }
    }
  }

  lemma {:induction false} FindFirst(rs: seq<Range>, addr: nat, width: nat, k: nat)
    requires k < |rs| && Matches(rs[k], addr, width)
    requires forall j :: 0 <= j < k ==> !Matches(rs[j], addr, width)
    ensures Find(rs, addr, width) == Some(k)
  {
    if k > 0 {
      FindFirst(rs[1..], addr, width, k - 1);
    }
  }
}

/** The segment copy of elf_loader/src/elf_loader.c, through the address map into memories. */
module Loader {
  import opened Words
  import opened Dram
  import opened MemMap

  // ---- which bytes arrive -----------------------------------------------------------------------

  /** The word at an address lies inside the copied range, and is written as a word. */
  predicate InWord(addr: nat, len: nat, a: nat) { addr <= a - a % 4 && a - a % 4 + 4 <= addr + len }

  /** The loader writes other bytes one by one, with the strobe of their lane; the device takes a
      one-byte access to use strobe bit 0, so of those only the bytes of lane 0 arrive. */
  predicate Arrives(addr: nat, len: nat, a: nat) { a % 4 == 0 || InWord(addr, len, a) }

  /** The width of the access that starts at an address, if one does. */
  function AccessWidth(addr: nat, len: nat, a: nat): nat {
    if !InWord(addr, len, a) then 1 else if a % 4 == 0 then 4 else 0
  }

  function LaneStrobe(lane: nat): bv8 { if lane == 0 then 1 else if lane == 1 then 2 else if lane == 2 then 4 else 8 }

  lemma LaneStrobes(lane: nat)
    requires lane < 4
    ensures StrobeBit(LaneStrobe(lane), 0) <==> lane == 0
  {}

  lemma WholeStrobe(i: nat)
    ensures StrobeBit(0xf, i)
  {}

  function WordOf(d0: Byte, d1: Byte, d2: Byte, d3: Byte): Word {
    (d0 as Word) | ((d1 as Word) << 8) | ((d2 as Word) << 16) | ((d3 as Word) << 24)
  }

  lemma WordBytes(d0: Byte, d1: Byte, d2: Byte, d3: Byte)
    ensures ByteOf(WordOf(d0, d1, d2, d3), 0) == d0
    ensures ByteOf(WordOf(d0, d1, d2, d3), 1) == d1
    ensures ByteOf(WordOf(d0, d1, d2, d3), 2) == d2
    ensures ByteOf(WordOf(d0, d1, d2, d3), 3) == d3
  {}

  lemma ByteAlone(d: Byte)
    ensures ByteOf(d as Word, 0) == d
  {}

  predicate OnWord(a: nat) { a % 4 == 0 }

  lemma NextWord(a: nat)
    requires OnWord(a)
    ensures OnWord(a + 4)
  {}

  /** An address, in 32 bits. */
  function Wrap(a: nat): (r: nat)
    ensures r < ADDRESSES && (a < ADDRESSES ==> r == a)
  {
    a % ADDRESSES
  }

  datatype Outcome = Done | Fault

  /** One byte of the leading or trailing phase. */
  method WriteByte(target: MemoryMap, addr: nat, data: seq<Byte>, i: nat) returns (ok: bool)
    requires target.Valid() && i < |data| && addr + i < ADDRESSES
    requires !InWord(addr, |data|, addr + i)
    modifies target.Backings()
    ensures target.Valid()
    ensures ok == target.Writable(addr + i, 1) && (ok ==> addr + i + 1 < ADDRESSES)
    ensures forall a: nat ::
      target.View(a) == if ok && a == addr + i && Arrives(addr, |data|, a) then Some(data[i]) else old(target.View(a))
  {
    hide ByteOf, StrobeBit, LaneStrobe, MemoryMap.View, MemoryMap.Writable, MemoryMap.Valid, InWord;
    LaneStrobes((addr + i) % 4);
    ByteAlone(data[i]);
    var resp := target.Write(Wrap(addr + i), 1, data[i] as Word, LaneStrobe((addr + i) % 4));
    ok := resp == Okay;
    if ok {
      target.WritableFits(addr + i, 1);
    }
  }

  /** One word of the middle phase. */
  method WriteWord(target: MemoryMap, addr: nat, data: seq<Byte>, i: nat) returns (ok: bool)
    requires target.Valid() && i + 4 <= |data| && addr + i < ADDRESSES && OnWord(addr + i)
    modifies target.Backings()
    ensures target.Valid()
    ensures ok == target.Writable(addr + i, 4) && (ok ==> addr + i + 4 < ADDRESSES)
    ensures forall a: nat ::
      target.View(a) == if ok && addr + i <= a < addr + i + 4 && Arrives(addr, |data|, a) then Some(data[a - addr])
                        else old(target.View(a))
  {
    hide ByteOf, StrobeBit, WordOf, Arrives, MemoryMap.View, MemoryMap.Writable, MemoryMap.Valid;
    WholeWord(addr, |data|, i);
    var v := WordOf(data[i], data[i + 1], data[i + 2], data[i + 3]);
    WordBytes(data[i], data[i + 1], data[i + 2], data[i + 3]);
    WholeStrobe(0);
    WholeStrobe(1);
    WholeStrobe(2);
    WholeStrobe(3);
    var resp := target.Write(Wrap(addr + i), 4, v, 0xf);
    ok := resp == Okay;
    if ok {
      target.WritableFits(addr + i, 4);
    }
    forall a: nat
      ensures target.View(a) == if ok && addr + i <= a < addr + i + 4 && Arrives(addr, |data|, a) then Some(data[a - addr])
                                else old(target.View(a))
    {
      if addr + i <= a < addr + i + 4 {
        var j := a - (addr + i);
        assert j == 0 || j == 1 || j == 2 || j == 3;
      }
    }
  }

  /** Every access that the copy makes at the first `n` addresses is one that some unit takes. */
  ghost predicate Reachable(target: MemoryMap, addr: nat, len: nat, n: nat)
    requires target.Valid()
    reads target
  {
    forall a :: addr <= a < addr + n && AccessWidth(addr, len, a) > 0 ==> target.Writable(a, AccessWidth(addr, len, a))
  }

  /** Bytes up to a word boundary. */
  method LeadingBytes(target: MemoryMap, addr: nat, data: seq<Byte>) returns (ok: bool, i: nat)
    requires target.Valid() && addr < ADDRESSES
    modifies target.Backings()
    ensures target.Valid() && i <= |data| && addr + i < ADDRESSES
    ensures Reachable(target, addr, |data|, i)
    ensures !ok ==> i < |data| && AccessWidth(addr, |data|, addr + i) == 1 && !target.Writable(addr + i, 1)
    ensures ok ==> i == |data| || OnWord(addr + i)
    ensures forall a: nat ::
      target.View(a) == if addr <= a < addr + i && Arrives(addr, |data|, a) then Some(data[a - addr]) else old(target.View(a))
  {
    hide OnWord, Leading, InWord, Arrives, AccessWidth, Reachable, MemoryMap.View, MemoryMap.Writable, MemoryMap.Valid;
    i := 0;
    NothingReached(target, addr, |data|);
    NoneLeading(addr);
    while i < |data| && !OnWord(addr + i)
      invariant i <= |data| && addr + i < ADDRESSES && target.Valid()
      invariant Leading(addr, i)
      invariant Reachable(target, addr, |data|, i)
      invariant forall a: nat ::
        target.View(a) == if addr <= a < addr + i && Arrives(addr, |data|, a) then Some(data[a - addr])
                          else old(target.View(a))
    {
      LeadingByte(addr, |data|, i);
      ReachesOn(target, addr, |data|, i, 1);
      ok := WriteByte(target, addr, data, i);
      if !ok {
        return;
      }
      i := i + 1;
    }
    ok := true;
  }

  /** Whole words, from a word boundary on. */
  method WholeWords(target: MemoryMap, addr: nat, data: seq<Byte>, start: nat) returns (ok: bool, i: nat)
    requires target.Valid() && addr + start < ADDRESSES
    requires start <= |data| && (start < |data| ==> OnWord(addr + start)) && Reachable(target, addr, |data|, start)
    modifies target.Backings()
    ensures target.Valid() && start <= i <= |data| && addr + i < ADDRESSES
    ensures Reachable(target, addr, |data|, i)
    ensures !ok ==> i < |data| && AccessWidth(addr, |data|, addr + i) == 4 && !target.Writable(addr + i, 4)
    ensures ok ==> |data| < i + 4 && (i < |data| ==> OnWord(addr + i))
    ensures forall a: nat ::
      target.View(a) == if addr + start <= a < addr + i && Arrives(addr, |data|, a) then Some(data[a - addr])
                        else old(target.View(a))
  {
    hide OnWord, InWord, Arrives, AccessWidth, Reachable, MemoryMap.View, MemoryMap.Writable, MemoryMap.Valid;
    i := start;
    while i + 4 <= |data|
      invariant start <= i <= |data| && addr + i < ADDRESSES && target.Valid()
      invariant i < |data| ==> OnWord(addr + i)
      invariant Reachable(target, addr, |data|, i)
      invariant forall a: nat ::
        target.View(a) == if addr + start <= a < addr + i && Arrives(addr, |data|, a) then Some(data[a - addr])
                          else old(target.View(a))
    {
      WholeWord(addr, |data|, i);
      ReachesOn(target, addr, |data|, i, 4);
      ok := WriteWord(target, addr, data, i);
      if !ok {
        return;
      }
      NextWord(addr + i);
      i := i + 4;
    }
    ok := true;
  }

  /** The bytes behind the last whole word. */
  method TrailingBytes(target: MemoryMap, addr: nat, data: seq<Byte>, start: nat) returns (ok: bool, i: nat)
    requires target.Valid() && addr + start < ADDRESSES
    requires start <= |data| < start + 4 && (start < |data| ==> (addr + start) % 4 == 0)
    requires Reachable(target, addr, |data|, start)
    modifies target.Backings()
    ensures target.Valid() && start <= i <= |data| && addr + i < ADDRESSES
    ensures Reachable(target, addr, |data|, i)
    ensures !ok ==> i < |data| && AccessWidth(addr, |data|, addr + i) == 1 && !target.Writable(addr + i, 1)
    ensures ok ==> i == |data|
    ensures forall a: nat ::
      target.View(a) == if addr + start <= a < addr + i && Arrives(addr, |data|, a) then Some(data[a - addr])
                        else old(target.View(a))
  {
    hide InWord, Arrives, AccessWidth, Reachable, MemoryMap.View, MemoryMap.Writable, MemoryMap.Valid;
    i := start;
    while i < |data|
      invariant start <= i <= |data| && addr + i < ADDRESSES && target.Valid()
      invariant Reachable(target, addr, |data|, i)
      invariant forall a: nat ::
        target.View(a) == if addr + start <= a < addr + i && Arrives(addr, |data|, a) then Some(data[a - addr])
                          else old(target.View(a))
    {
      TrailingByte(addr, |data|, start, i);
      ReachesOn(target, addr, |data|, i, 1);
      ok := WriteByte(target, addr, data, i);
      if !ok {
        return;
      }
      i := i + 1;
    }
    ok := true;
  }

  // ---- the phases, in arithmetic --------------------------------------------------------------

  /** The first `i` addresses reach up to a word boundary at most. */
  predicate Leading(addr: nat, i: nat) { addr % 4 + i <= 4 && (i > 0 ==> addr % 4 != 0) }

  lemma NoneLeading(addr: nat)
    ensures Leading(addr, 0)
  {}

  lemma LeadingByte(addr: nat, len: nat, i: nat)
    requires Leading(addr, i) && !OnWord(addr + i)
    ensures !InWord(addr, len, addr + i) && AccessWidth(addr, len, addr + i) == 1 && Leading(addr, i + 1)
  {}

  lemma WholeWord(addr: nat, len: nat, i: nat)
    requires OnWord(addr + i) && i + 4 <= len
    ensures forall a :: addr + i <= a < addr + i + 4 ==>
      Arrives(addr, len, a) && AccessWidth(addr, len, a) == if a == addr + i then 4 else 0
  {}

  lemma TrailingByte(addr: nat, len: nat, start: nat, i: nat)
    requires start <= i < len < start + 4 && (addr + start) % 4 == 0
    ensures !InWord(addr, len, addr + i) && AccessWidth(addr, len, addr + i) == 1
  {}

  lemma NothingReached(target: MemoryMap, addr: nat, len: nat)
    requires target.Valid()
    ensures Reachable(target, addr, len, 0)
  {}

  /** The access at byte `i` takes the copy on by its width. */
  lemma ReachesOn(target: MemoryMap, addr: nat, len: nat, i: nat, width: nat)
    requires target.Valid() && Reachable(target, addr, len, i) && width > 0
    requires forall a :: addr + i <= a < addr + i + width ==>
      AccessWidth(addr, len, a) == if a == addr + i then width else 0
    ensures target.Writable(addr + i, width) ==> Reachable(target, addr, len, i + width)
  {}

  /** `write_segment`: bytes up to a word boundary, then words, then the remaining bytes. It succeeds
      exactly when units take all its accesses; the bytes that arrive then hold the data, and all
      other addresses keep what they held. After a fault that is so for the first `n` bytes. */
  method WriteSegment(target: MemoryMap, addr: nat, data: seq<Byte>) returns (result: Outcome, n: nat)
    requires target.Valid() && addr < ADDRESSES
    modifies target.Backings()
    ensures target.Valid() && (result == Done ==> addr + |data| < ADDRESSES)
    ensures result == Done <==> Reachable(target, addr, |data|, |data|)
    ensures n <= |data| && (result == Done ==> n == |data|)
    ensures forall a: nat ::
      target.View(a) == if addr <= a < addr + n && Arrives(addr, |data|, a) then Some(data[a - addr]) else old(target.View(a))
  {
    hide InWord, Arrives, AccessWidth;
    var ok;
    ok, n := LeadingBytes(target, addr, data);
    if !ok {
      Unreached(target, addr, |data|, n, 1);
      return Fault, n;
    }
    ok, n := WholeWords(target, addr, data, n);
    if !ok {
      Unreached(target, addr, |data|, n, 4);
      return Fault, n;
    }
    ok, n := TrailingBytes(target, addr, data, n);
    if !ok {
      Unreached(target, addr, |data|, n, 1);
      return Fault, n;
    }
    return Done, n;
  }

  lemma Unreached(target: MemoryMap, addr: nat, len: nat, n: nat, width: nat)
    requires target.Valid() && n < len && width > 0
    requires AccessWidth(addr, len, addr + n) == width && !target.Writable(addr + n, width)
    ensures !Reachable(target, addr, len, len)
  {}

  // ---- the chunk loop of load_elf ------------------------------------------------------------------

  const CHUNK: nat := 0x1_0000

  /** Where the chunk of an address starts, and how long it is. */
  function ChunkStart(addr: nat, a: nat): nat
    requires addr <= a
  {
    a - (a - addr) % CHUNK
  }

  function ChunkLength(addr: nat, size: nat, a: nat): nat
    requires addr <= a < addr + size
  {
    var left := addr + size - ChunkStart(addr, a);
    if left > CHUNK then CHUNK else left
  }

  /** Each chunk is copied on its own. */
  predicate ArrivesInChunk(addr: nat, size: nat, a: nat)
    requires addr <= a < addr + size
  {
    Arrives(ChunkStart(addr, a), ChunkLength(addr, size, a), a)
  }

  /** The `k`-th chunk of a segment, from 0 on. */
  function ChunkSize(size: nat, k: nat): nat
    requires k * CHUNK < size
  {
    if size - k * CHUNK > CHUNK then CHUNK else size - k * CHUNK
  }

  /** Units take all accesses of the `k`-th chunk. */
  ghost predicate ChunkReachable(target: MemoryMap, start: nat, size: nat, k: nat)
    requires target.Valid() && k * CHUNK < size
    reads target
  {
    Reachable(target, start + k * CHUNK, ChunkSize(size, k), ChunkSize(size, k))
  }

  /** The file holds the `k`-th chunk. */
  predicate InFile(size: nat, file: seq<Byte>, k: nat) { k * CHUNK < size && k * CHUNK + ChunkSize(size, k) <= |file| }

  datatype LoadResult = Loaded | WriteFault | ShortFile

  /** Loads a segment of `size` bytes from what the file holds at its offset. That succeeds exactly if
      the file is long enough and units take all accesses; it ends with a short file exactly if the file
      is too short and units take all accesses of the chunks that it holds. */
  method LoadSegment(target: MemoryMap, start: nat, size: nat, file: seq<Byte>) returns (result: LoadResult, done: nat)
    requires target.Valid() && start < ADDRESSES
    modifies target.Backings()
    ensures target.Valid() && done <= size && done <= |file| && (result == Loaded ==> done == size)
    ensures result == Loaded <==> size <= |file| && forall k: nat :: k * CHUNK < size ==> ChunkReachable(target, start, size, k)
    ensures result == ShortFile ==> done == |file| - |file| % 0x1_0000
    ensures result == ShortFile <==>
      |file| < size && forall k: nat :: InFile(size, file, k) ==> ChunkReachable(target, start, size, k)
    ensures forall a: nat ::
      target.View(a) == if start <= a < start + done && ArrivesInChunk(start, size, a) then Some(file[a - start])
                        else old(target.View(a))
  {
    hide Arrives, MemoryMap.View, MemoryMap.Writable, MemoryMap.Valid, Reachable, ArrivesInChunk;
    var addr, remaining, offset := start, size, 0;
    ghost var k := 0;
    while remaining > 0
      invariant remaining == size - offset && 0 <= offset <= size && offset <= |file|
      invariant start + offset < ADDRESSES && addr == start + offset
      invariant if remaining > 0 then offset == k * CHUNK else k * CHUNK >= size
      invariant target.Valid()
      invariant forall j: nat :: j < k && j * CHUNK < size ==> ChunkReachable(target, start, size, j)
      invariant forall a: nat ::
        target.View(a) == if start <= a < addr && ArrivesInChunk(start, size, a) then Some(file[a - start])
                          else old(target.View(a))
    {
      var chunk := if remaining > CHUNK then CHUNK else remaining;
      if |file| - offset < chunk {
        return ShortFile, offset;
      }
      SameChunk(start, size, offset, chunk);
      var outcome, n := WriteSegment(target, addr, file[offset..offset + chunk]);
      if outcome == Fault {
        assert InFile(size, file, k) && !ChunkReachable(target, start, size, k);
        return WriteFault, offset + n;
      }
      addr := Wrap(addr + chunk);
      remaining := remaining - chunk;
      offset := offset + chunk;
      k := k + 1;
    }
    return Loaded, size;
  }

  lemma SameChunk(start: nat, size: nat, offset: nat, chunk: nat)
    requires offset % CHUNK == 0 && offset < size
    requires chunk == if size - offset > CHUNK then CHUNK else size - offset
    ensures forall a :: start + offset <= a < start + offset + chunk ==>
      (ArrivesInChunk(start, size, a) <==> Arrives(start + offset, chunk, a))
  {
    hide Arrives;
    forall a | start + offset <= a < start + offset + chunk
      ensures ArrivesInChunk(start, size, a) <==> Arrives(start + offset, chunk, a)
    {
      assert (a - start) % CHUNK == a - start - offset;
    }
  }

  /** Inside one unit on a word boundary every access of a copy is taken. */
  lemma InsideUnit(target: MemoryMap, k: nat, c: nat, n: nat)
    requires target.Valid() && k < |target.units|
    requires target.units[k].range.Covers(c, n) && target.units[k].range.start % 4 == 0
    ensures Reachable(target, c, n, n)
  {
    hide Find;
    var r := target.units[k].range;
    forall a | c <= a < c + n && AccessWidth(c, n, a) > 0
      ensures target.Writable(a, AccessWidth(c, n, a))
    {
      FindHolder(Ranges(target.units), a, AccessWidth(c, n, a), k);
    }
  }

  // ---- what the loader promises, and when it keeps it ------------------------------------------------

  /** A word-aligned segment loses only what lies in an incomplete last word; so it is copied whole
      exactly when it ends on a word or with a single byte behind one. */
  lemma AlignedSegments(start: nat, size: nat)
    requires start % 4 == 0
    ensures forall a :: start <= a < start + size ==>
      (ArrivesInChunk(start, size, a) <==> Arrives(start, size, a))
    ensures (forall a :: start <= a < start + size ==> ArrivesInChunk(start, size, a)) <==> size % 4 <= 1
  {
    hide ArrivesInChunk, Arrives;
    forall a | start <= a < start + size
      ensures ArrivesInChunk(start, size, a) <==> Arrives(start, size, a)
      ensures size % 4 <= 1 ==> Arrives(start, size, a)
    {
      AlignedByte(start, size, a);
      if size % 4 <= 1 {
        WholeOrSingle(start, size, a);
      }
    }
    if size % 4 > 1 {
      var a := start + size - 1;
      AlignedByte(start, size, a);
      LastByteLost(start, size);
    }
  }

  lemma WholeOrSingle(start: nat, size: nat, a: nat)
    requires start % 4 == 0 && size % 4 <= 1 && start <= a < start + size
    ensures Arrives(start, size, a)
  {
    var k := a - a % 4;
    assert k % 4 == 0 && k >= start;
  }

  lemma LastByteLost(start: nat, size: nat)
    requires start % 4 == 0 && size % 4 > 1
    ensures !Arrives(start, size, start + size - 1)
  {}

  lemma AlignedByte(start: nat, size: nat, a: nat)
    requires start % 4 == 0 && start <= a < start + size
    ensures ArrivesInChunk(start, size, a) <==> Arrives(start, size, a)
  {
    var c := ChunkStart(start, a);
    assert c % 4 == 0 && c <= a < c + CHUNK;
  }

  /** A segment that starts off a word boundary always loses its first byte. */
  lemma UnalignedStartIsLost(start: nat, size: nat)
    requires start % 4 != 0 && size > 0
    ensures !ArrivesInChunk(start, size, start)
  {}

  /** Loading a word-aligned segment whose size is a multiple of four is one plain copy. */
  method LoadWords(target: MemoryMap, start: nat, file: seq<Byte>) returns (result: LoadResult)
    requires target.Valid() && start < ADDRESSES
    requires start % 4 == 0 && |file| % 4 == 0
    modifies target.Backings()
    ensures target.Valid() && result != ShortFile
    ensures (exists k :: 0 <= k < |target.units| && target.units[k].range.start % 4 == 0 &&
                         target.units[k].range.Covers(start, |file|)) ==> result == Loaded
    ensures result == Loaded ==> forall a: nat ::
      target.View(a) == if start <= a < start + |file| then Some(file[a - start]) else old(target.View(a))
  {
    hide ArrivesInChunk, MemoryMap.View, MemoryMap.Valid, Reachable;
    AlignedSegments(start, |file|);
    var done;
    result, done := LoadSegment(target, start, |file|, file);
    forall i, k: nat | 0 <= i < |target.units| && target.units[i].range.start % 4 == 0 &&
                       target.units[i].range.Covers(start, |file|) && k * CHUNK < |file|
      ensures ChunkReachable(target, start, |file|, k)
    {
      InsideUnit(target, i, start + k * CHUNK, ChunkSize(|file|, k));
    }
  }
}

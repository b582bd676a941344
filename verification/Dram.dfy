/** The memory device of devices/dram/src/dram.c, and the way of a load or store to it: the byte
    lanes of src/lsu.sv, the width, shift and strobe conversion of tb/tb_top.sv, the device's
    little-endian access, and src/load_data_filter.sv on the way back. */
module Dram {
  import opened Words
  import opened Uarch
  import opened Datapath
  import opened Numbers

  type Byte = bv8
  datatype Resp = Okay | SlvErr | DecErr

  // ---- bytes of a word ---------------------------------------------------------------------

  function ByteOf(v: Word, i: nat): Byte {
    if i == 0 then (v & 0xff) as Byte
    else if i == 1 then ((v >> 8) & 0xff) as Byte
    else if i == 2 then ((v >> 16) & 0xff) as Byte
    else (v >> 24) as Byte
  }

  /** `byte` moved to position `i` of a word. */
  function Place(byte: Byte, i: nat): Word {
    if i == 0 then byte as Word else if i == 1 then (byte as Word) << 8
    else if i == 2 then (byte as Word) << 16 else (byte as Word) << 24
  }

  predicate StrobeBit(strb: bv8, i: nat) {
    if i == 0 then strb & 1 != 0 else if i == 1 then strb & 2 != 0
    else if i == 2 then strb & 4 != 0 else strb & 8 != 0
  }

  /** The little-endian value of up to four bytes. */
  function Little(bytes: seq<Byte>): Word
    requires |bytes| <= 4
  {
    if bytes == [] then 0
    else BitOr(Little(bytes[..|bytes| - 1]), Place(bytes[|bytes| - 1], |bytes| - 1))
  }

  // ---- the device ------------------------------------------------------------------------------

  predicate Accepts(size: nat, offset: nat, width: nat) {
    (width == 1 || width == 2 || width == 4) && offset % width == 0 && offset + width <= size
  }

  /** The bytes after a write: those the strobe selects are replaced. */
  function Written(mem: seq<Byte>, offset: nat, width: nat, value: Word, strb: bv8): (r: seq<Byte>)
    ensures |r| == |mem|
    ensures forall k :: 0 <= k < |mem| ==>
      r[k] == if offset <= k < offset + width && StrobeBit(strb, k - offset) then ByteOf(value, k - offset) else mem[k]
  {
    seq(|mem|, k requires 0 <= k < |mem| =>
      if offset <= k < offset + width && StrobeBit(strb, k - offset) then ByteOf(value, k - offset) else mem[k])
  }

  class Dram {
    const backing: array<Byte>

    constructor (size: nat)
      requires size > 0
      ensures backing.Length == size && fresh(backing) && forall k :: 0 <= k < size ==> backing[k] == 0
    {
      backing := new Byte[size](_ => 0);
    }

    method Read(offset: nat, width: nat) returns (resp: Resp, value: Word)
      ensures resp == if Accepts(backing.Length, offset, width) then Okay else SlvErr
      ensures value == if resp == Okay then Little(backing[offset..offset + width]) else 0
    {
      if width != 1 && width != 2 && width != 4 {
        return SlvErr, 0;
      }
      if offset % width != 0 {
        return SlvErr, 0;
      }
      if offset + width > backing.Length {
        return SlvErr, 0;
      }
      var v: Word := 0;
      for i := 0 to width
        invariant v == Little(backing[offset..offset + i])
      {
        assert backing[offset..offset + i + 1][..i] == backing[offset..offset + i];
        v := BitOr(v, Place(backing[offset + i], i));
      }
      return Okay, v;
    }

    method Write(offset: nat, width: nat, value: Word, strb: bv8) returns (resp: Resp)
      modifies backing
      ensures resp == if Accepts(backing.Length, offset, width) && (width == 4 ==> strb == 0xf) then Okay else SlvErr
      ensures backing[..] == if resp == Okay then Written(old(backing[..]), offset, width, value, strb) else old(backing[..])
    {
      if width != 1 && width != 2 && width != 4 {
        return SlvErr;
      }
      if width == 4 && strb != 0xf {
        return SlvErr;
      }
      if offset % width != 0 {
        return SlvErr;
      }
      if offset + width > backing.Length {
        return SlvErr;
      }
      for i := 0 to width
        invariant forall k :: 0 <= k < backing.Length ==>
          backing[k] == if offset <= k < offset + i && StrobeBit(strb, k - offset) then ByteOf(value, k - offset)
                        else old(backing[..])[k]
      {
        if StrobeBit(strb, i) {
          backing[offset + i] := ByteOf(value, i);
        }
      }
      return Okay;
    }
  }

  // ---- the way of a store ------------------------------------------------------------------------

  /** The number that a word denotes, by its word index and its lane. */
  function Lane(a: Word): nat { if a & 3 == 0 then 0 else if a & 3 == 1 then 1 else if a & 3 == 2 then 2 else 3 }
  function WordIndex(a: Word): nat { Num(Half(Half(a))) }
  function Number(a: Word): nat { 4 * WordIndex(a) + Lane(a) }

  datatype BusWrite = BusWrite(width: nat, value: Word, strb: bv8)

  /** The testbench turns byte enables into an access of one, two or four bytes. */
  function Convert(be: bv4, wdata: Word): BusWrite {
    match be
    case 1 => BusWrite(1, wdata, 1)
    case 2 => BusWrite(1, ShiftRight(wdata, 8), 1)
    case 4 => BusWrite(1, ShiftRight(wdata, 16), 1)
    case 8 => BusWrite(1, ShiftRight(wdata, 24), 1)
    case 3 => BusWrite(2, wdata, 3)
    case 0xc => BusWrite(2, ShiftRight(wdata, 16), 3)
    case _ => BusWrite(4, wdata, 0xf)
  }

  function Bytes(len: MemLen): nat { match len case Len1 => 1 case Len2 => 2 case Len4 => 4 }

  /** A store as the core and the testbench perform it on a memory that starts at address `start`. */
  function StorePath(mem: seq<Byte>, start: nat, addr: Word, len: MemLen, data: Word): Option<seq<Byte>>
    requires Number(addr) >= start
  {
    var w := Convert(LsuBe(addr, len), LsuWdata(addr, data, len));
    var offset := Number(addr) - start;
    if LsuMisaligned(addr, len) || !Accepts(|mem|, offset, w.width) then None
    else Some(Written(mem, offset, w.width, w.value, w.strb))
  }

  /** A load likewise: the whole word is read, and the core picks its bytes. */
  function LoadPath(mem: seq<Byte>, start: nat, addr: Word, len: MemLen, signext: bool): Option<Word>
    requires Number(AlignDown(addr)) >= start
  {
    var offset := Number(AlignDown(addr)) - start;
    if LsuMisaligned(addr, len) || !Accepts(|mem|, offset, 4) then None
    else Some(LoadValue(addr, Little(mem[offset..offset + 4]), len, signext))
  }
}

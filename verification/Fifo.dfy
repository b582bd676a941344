/** The circular buffer of src/fifo.sv, for any depth of at least one. */
module Fifo {
  /** What the buffer is to hold after a clock edge: a bounded sequence, popped at its head and
      pushed at its end, each only when there is something to pop or room to push. */
  function Next<T>(q: seq<T>, depth: nat, flush: bool, inValid: bool, inData: T, outReady: bool): seq<T> {
    if flush then []
    else
      (if q != [] && outReady then q[1..] else q) + (if inValid && |q| < depth then [inData] else [])
  }

  class Buffer<T> {
    const mem: array<T>
    var rdPtr: nat
    var wrPtr: nat
    var count: nat

    /** The write pointer is the read pointer and the count, around the buffer. */
    ghost predicate Valid()
      reads this
    {
      && 0 < mem.Length
      && rdPtr < mem.Length && wrPtr < mem.Length && count <= mem.Length
      && wrPtr == if rdPtr + count < mem.Length then rdPtr + count else rdPtr + count - mem.Length
    }

    /** The entries in order, across the wrap. */
    ghost function Contents(): (q: seq<T>)
      requires Valid()
      reads this, mem
      ensures |q| == count
    {
      if rdPtr + count <= mem.Length then mem[rdPtr..rdPtr + count]
      else mem[rdPtr..] + mem[..rdPtr + count - mem.Length]
    }

    constructor (depth: nat, blank: T)
      requires depth >= 1
      ensures Valid() && Contents() == [] && mem.Length == depth && fresh(mem)
    {
      mem := new T[depth](_ => blank);
      rdPtr, wrPtr, count := 0, 0, 0;
    }

    function InReady(): (r: bool)
      requires Valid()
      reads this, mem
      ensures r == (|Contents()| < mem.Length)
    {
      count != mem.Length
    }

    function OutValid(flush: bool): (r: bool)
      requires Valid()
      reads this, mem
      ensures r == (Contents() != [] && !flush)
    {
      count != 0 && !flush
    }

    function OutData(): (x: T)
      requires Valid() && Contents() != []
      reads this, mem
      ensures x == Contents()[0]
    {
      mem[rdPtr]
    }

    function PtrNext(p: nat): nat
      reads this
      requires p < mem.Length
    {
      if p == mem.Length - 1 then 0 else p + 1
    }

    method Push(x: T)
      requires Valid() && count < mem.Length
      modifies this`wrPtr, this`count, mem
      ensures Valid() && Contents() == old(Contents()) + [x]
    {
      mem[wrPtr] := x;
      wrPtr := PtrNext(wrPtr);
      count := count + 1;
    }

    method Pop()
      requires Valid() && count > 0
      modifies this`rdPtr, this`count
      ensures Valid() && Contents() == old(Contents())[1..]
    {
      rdPtr := PtrNext(rdPtr);
      count := count - 1;
    }

    /** One clock edge. Whether it pushes and whether it pops is decided before either. */
    method Clock(flush: bool, inValid: bool, inData: T, outReady: bool)
      requires Valid()
      modifies this, mem
      ensures Valid()
      ensures Contents() == Next(old(Contents()), mem.Length, flush, inValid, inData, outReady)
    {
      var push := inValid && InReady() && !flush;
      var pop := OutValid(flush) && outReady;
      if flush {
        rdPtr, wrPtr, count := 0, 0, 0;
      } else {
        if push {
          Push(inData);
        }
        if pop {
          Pop();
        }
      }
    }
  }

  // ---- runs of the buffer -----------------------------------------------------------------------

  /** The signals at one clock edge, without a flush. */
  datatype Signals<T> = Signals(inValid: bool, inData: T, outReady: bool)

  function Pushed<T>(q: seq<T>, depth: nat, s: Signals<T>): seq<T> {
    if s.inValid && |q| < depth then [s.inData] else []
  }

  function Popped<T>(q: seq<T>, s: Signals<T>): seq<T> {
    if q != [] && s.outReady then [q[0]] else []
  }

  /** The contents after a run, everything that went in, and everything that came out. */
  function After<T>(depth: nat, run: seq<Signals<T>>): (seq<T>, seq<T>, seq<T>)
    decreases |run|
  {
    if run == [] then ([], [], [])
    else
      var s := run[|run| - 1];
      var (q, ins, outs) := After(depth, run[..|run| - 1]);
      (Next(q, depth, false, s.inValid, s.inData, s.outReady), ins + Pushed(q, depth, s), outs + Popped(q, s))
  }

  /** First in, first out: what went in is what came out, followed by what is still inside; nothing
      is lost, repeated or reordered, and the depth is never exceeded. */
  lemma {:induction false} FirstInFirstOut<T>(depth: nat, run: seq<Signals<T>>)
    ensures var (q, ins, outs) := After(depth, run);
      ins == outs + q && |q| <= depth
    decreases |run|
  {
    if run != [] {
      FirstInFirstOut(depth, run[..|run| - 1]);
      var (q, ins, outs) := After(depth, run[..|run| - 1]);
      var s := run[|run| - 1];
      assert q != [] ==> q == [q[0]] + q[1..];
      assert outs + q + Pushed(q, depth, s) == (outs + Popped(q, s)) + Next(q, depth, false, s.inValid, s.inData, s.outReady);
    }
  }
}

/** The instruction stream in flight, oldest first, as a chain of links: within an epoch the
    program counter steps by four and the sequence identifier by one, and epochs never go back. */
module Chains {
  import opened Words

  datatype Link = Link(epoch: nat, seqId: nat, pc: Word)

  predicate Linked(a: Link, b: Link) {
    a.epoch < b.epoch || (a.epoch == b.epoch && a.seqId + 1 == b.seqId && Plus(a.pc, 4) == b.pc)
  }

  predicate Chain(xs: seq<Link>) {
    |xs| <= 1 || (Linked(xs[0], xs[1]) && Chain(xs[1..]))
  }

  /** The pc of the first link of the present epoch (of the last link, if there is none). */
  function HeadPc(xs: seq<Link>, now: nat): Word
    requires xs != []
  {
    if |xs| == 1 || xs[0].epoch == now then xs[0].pc else HeadPc(xs[1..], now)
  }

  lemma {:induction false} ChainJoin(a: seq<Link>, b: seq<Link>)
    requires Chain(a) && Chain(b)
    requires a != [] && b != [] ==> Linked(a[|a| - 1], b[0])
    ensures Chain(a + b)
  {
    if |a| <= 1 || b == [] {
      assert a == [] ==> a + b == b;
      assert b == [] ==> a + b == a;
      assert |a| == 1 ==> (a + b)[1..] == b;
    } else {
      ChainJoin(a[1..], b);
      assert (a + b)[1..] == a[1..] + b;
    }
  }

  lemma {:induction false} ChainSplit(a: seq<Link>, b: seq<Link>)
    requires Chain(a + b)
    ensures Chain(a) && Chain(b)
    ensures a != [] && b != [] ==> Linked(a[|a| - 1], b[0])
  {
    if a == [] {
      assert a + b == b;
    } else if b == [] {
      assert a + b == a;
    } else {
      assert (a + b)[1..] == a[1..] + b;
      ChainSplit(a[1..], b);
      assert (a + b)[0] == a[0];
      assert |a| > 1 ==> (a + b)[1] == a[1];
      assert |a| == 1 ==> (a + b)[1] == b[0];
    }
  }

  /** Epochs never decrease along a chain. */
  lemma {:induction false} ChainSorted(xs: seq<Link>, i: nat, j: nat)
    requires Chain(xs) && i <= j < |xs|
    ensures xs[i].epoch <= xs[j].epoch
  {
    if i < j {
      if i == 0 {
        if j > 1 {
          ChainSorted(xs[1..], 0, j - 1);
        }
      } else {
        ChainSorted(xs[1..], i - 1, j - 1);
      }
    }
  }

  lemma ChainSortedAll(xs: seq<Link>)
    requires Chain(xs)
    ensures forall i, j :: 0 <= i <= j < |xs| ==> xs[i].epoch <= xs[j].epoch
  {
    forall i, j | 0 <= i <= j < |xs|
      ensures xs[i].epoch <= xs[j].epoch
    {
      ChainSorted(xs, i, j);
    }
  }

  /** A link of a later epoch may follow any chain. */
  lemma ChainFresh(xs: seq<Link>, z: Link)
    requires Chain(xs) && (xs != [] ==> xs[|xs| - 1].epoch < z.epoch)
    ensures Chain(xs + [z])
  {
    ChainJoin(xs, [z]);
  }

  lemma {:induction false} HeadPcAppend(xs: seq<Link>, ys: seq<Link>, now: nat)
    requires xs != [] && xs[|xs| - 1].epoch == now
    ensures HeadPc(xs + ys, now) == HeadPc(xs, now)
  {
    if |xs| > 1 && xs[0].epoch != now {
      assert (xs + ys)[1..] == xs[1..] + ys;
      HeadPcAppend(xs[1..], ys, now);
    }
  }

  /** Links of earlier epochs do not matter. */
  lemma {:induction false} HeadPcStale(xs: seq<Link>, ys: seq<Link>, now: nat)
    requires ys != [] && forall i :: 0 <= i < |xs| ==> xs[i].epoch != now
    ensures HeadPc(xs + ys, now) == HeadPc(ys, now)
  {
    if xs == [] {
      assert xs + ys == ys;
    } else {
      assert (xs + ys)[1..] == xs[1..] + ys;
      HeadPcStale(xs[1..], ys, now);
    }
  }

  lemma {:induction false} HeadPcPrefix(xs: seq<Link>, ys: seq<Link>, zs: seq<Link>, now: nat)
    requires ys != [] && zs != [] && HeadPc(ys, now) == HeadPc(zs, now)
    ensures HeadPc(xs + ys, now) == HeadPc(xs + zs, now)
  {
    if xs == [] {
      assert xs + ys == ys && xs + zs == zs;
    } else {
      assert (xs + ys)[1..] == xs[1..] + ys;
      assert (xs + zs)[1..] == xs[1..] + zs;
      HeadPcPrefix(xs[1..], ys, zs, now);
    }
  }
}

/**
 The geometry of the free-list allocator of private/memory/free_list_allocator.cpp, on plain lists of address
 ranges: first fit with alignment padding, splitting, sorted insertion and merging of neighbours.
 */
module FreeBlocks {
  import opened Alignment

  /** The size of a free-block record and of an allocation header: two machine words each. */
  const RECORD: nat := 16

  datatype Block = Block(addr: nat, size: nat) {
    function End(): nat { addr + size }
  }

  // ---------------------------------------------------------------------------------------------------------
  // Shapes of a free list
  // ---------------------------------------------------------------------------------------------------------

  /** Sorted by address, no two blocks overlap, and each holds its own record. */
  ghost predicate Ordered(l: seq<Block>)
  {
    && (forall i :: 0 <= i < |l| ==> l[i].addr > 0 && l[i].size >= RECORD)
    && (forall i, j :: 0 <= i < j < |l| ==> Before(l, i, j))
  }

  ghost predicate Before(l: seq<Block>, i: nat, j: nat)
    requires i < |l| && j < |l|
  {
    l[i].End() <= l[j].addr
  }

  ghost predicate Gap(l: seq<Block>, i: nat, j: nat)
    requires i < |l| && j < |l|
  {
    l[i].End() < l[j].addr
  }

  /** No two blocks touch. */
  ghost predicate Separate(l: seq<Block>)
  {
    forall i, j :: 0 <= i < j < |l| ==> Gap(l, i, j)
  }

  ghost predicate Disjoint(a: Block, b: Block)
  {
    a.End() <= b.addr || b.End() <= a.addr
  }

  /** The range shares no byte with any block. */
  ghost predicate Clear(l: seq<Block>, b: Block)
  {
    forall i :: 0 <= i < |l| ==> Disjoint(l[i], b)
  }

  ghost predicate Within(l: seq<Block>, lo: nat, hi: nat)
  {
    forall i :: 0 <= i < |l| ==> lo <= l[i].addr && l[i].End() <= hi
  }

  function Sum(l: seq<Block>): (r: nat)
  {
    if l == [] then 0 else l[0].size + Sum(l[1..])
  }

  lemma {:induction false} SumAppend(a: seq<Block>, b: seq<Block>)
    ensures Sum(a + b) == Sum(a) + Sum(b)
  {
    if a == [] {
      assert a + b == b;
    } else {
      SumAppend(a[1..], b);
      assert (a + b)[1..] == a[1..] + b;
    }
  }

  lemma SumSplit(l: seq<Block>, i: nat)
    requires i < |l|
    ensures Sum(l) == Sum(l[..i]) + l[i].size + Sum(l[i + 1..])
  {
    SumAppend(l[..i], l[i..]);
    assert l == l[..i] + l[i..] && l[i..][1..] == l[i + 1..];
  }

  // ---------------------------------------------------------------------------------------------------------
  // Allocation
  // ---------------------------------------------------------------------------------------------------------

  function Padding(addr: nat, alignment: nat): (r: nat)
    requires alignment > 0
  {
    AlignUp(addr + RECORD, alignment) - (addr + RECORD)
  }

  /** The bytes that an allocation at the start of this block takes: header, padding and data. */
  function Need(b: Block, size: nat, alignment: nat): (r: nat)
    requires alignment > 0
  {
    RECORD + Padding(b.addr, alignment) + size
  }

  predicate Fits(b: Block, size: nat, alignment: nat)
    requires alignment > 0
  {
    b.size >= Need(b, size, alignment)
  }

  /** The first block that fits, or |l|. */
  function FirstFit(l: seq<Block>, size: nat, alignment: nat): (r: nat)
    requires alignment > 0
    ensures r <= |l|
    ensures r < |l| ==> Fits(l[r], size, alignment)
    ensures forall i :: 0 <= i < r ==> !Fits(l[i], size, alignment)
  {
    if l == [] then 0
    else
      var last := |l| - 1;
      var r := FirstFit(l[..last], size, alignment);
      if r < last || Fits(l[last], size, alignment) then r else |l|
  }

  /** The list after `need` bytes were taken from the front of block i: a rest that cannot hold more than its own
      record is given away with it. */
  function Carve(l: seq<Block>, i: nat, need: nat): (r: seq<Block>)
    requires i < |l| && need <= l[i].size
  {
    if l[i].size - need > RECORD then l[i := Block(l[i].addr + need, l[i].size - need)]
    else l[..i] + l[i + 1..]
  }

  /** The bytes of block i that nobody can use any more. */
  function Lost(b: Block, need: nat): (r: nat)
    requires need <= b.size
    ensures r <= RECORD
  {
    if b.size - need > RECORD then 0 else b.size - need
  }

  /** The list keeps its length, and the block its rest, exactly if the rest has more than 16 bytes. */
  lemma RestStaysExactly(l: seq<Block>, i: nat, need: nat)
    requires i < |l| && need <= l[i].size
    ensures var r := Carve(l, i, need);
            if l[i].size - need > 16
            then |r| == |l| && r[i].addr == l[i].addr + need && r[i].End() == l[i].End()
            else |r| == |l| - 1
  {
  }

  lemma CarveSum(l: seq<Block>, i: nat, need: nat)
    requires i < |l| && need <= l[i].size
    ensures Sum(Carve(l, i, need)) + need + Lost(l[i], need) == Sum(l)
  {
    SumSplit(l, i);
    if l[i].size - need > RECORD {
      var r := Carve(l, i, need);
      SumSplit(r, i);
      assert r[..i] == l[..i] && r[i + 1..] == l[i + 1..];
    } else {
      SumAppend(l[..i], l[i + 1..]);
    }
  }

  lemma CarveKeeps(l: seq<Block>, i: nat, need: nat, lo: nat, hi: nat)
    requires Ordered(l) && Separate(l) && Within(l, lo, hi) && i < |l| && 0 < need <= l[i].size
    ensures var r := Carve(l, i, need);
            Ordered(r) && Separate(r) && Within(r, lo, hi) && Clear(r, Block(l[i].addr, need))
  {
    var r := Carve(l, i, need);
    var split := l[i].size - need > RECORD;
    forall x, y | 0 <= x < y < |r| ensures Gap(r, x, y) && Before(r, x, y) {
      var u := if split || x < i then x else x + 1;
      var v := if split || y < i then y else y + 1;
      assert Gap(l, u, v);
    }
    forall x | 0 <= x < |r| ensures Disjoint(r[x], Block(l[i].addr, need)) {
      if x < i { assert Gap(l, x, i); }
      if split && x > i { assert Gap(l, i, x); }
      if !split && x >= i { assert Gap(l, i, x + 1); }
    }
  }

  lemma CarveClear(l: seq<Block>, i: nat, need: nat, b: Block)
    requires i < |l| && need <= l[i].size && Clear(l, b)
    ensures Clear(Carve(l, i, need), b)
  {
    assert Disjoint(l[i], b);
  }

  // ---------------------------------------------------------------------------------------------------------
  // Deallocation
  // ---------------------------------------------------------------------------------------------------------

  /** Where a block at this address goes: behind every block with a lower address. */
  function Place(l: seq<Block>, addr: nat): (r: nat)
    ensures r <= |l|
    ensures forall i :: 0 <= i < r ==> l[i].addr < addr
    ensures r < |l| ==> l[r].addr >= addr
  {
    if l == [] then 0
    else
      var last := |l| - 1;
      var r := Place(l[..last], addr);
      if r < last || l[last].addr >= addr then r else |l|
  }

  function Insert(l: seq<Block>, b: Block): (r: seq<Block>)
  {
    var p := Place(l, b.addr);
    l[..p] + [b] + l[p..]
  }

  lemma InsertSum(l: seq<Block>, b: Block)
    ensures Sum(Insert(l, b)) == Sum(l) + b.size
  {
    var p := Place(l, b.addr);
    SumAppend(l[..p], l[p..]);
    assert l == l[..p] + l[p..];
    SumAppend(l[..p] + [b], l[p..]);
    SumAppend(l[..p], [b]);
  }

  lemma InsertKeeps(l: seq<Block>, b: Block, lo: nat, hi: nat)
    requires Ordered(l) && Within(l, lo, hi) && Clear(l, b)
    requires b.addr > 0 && b.size >= RECORD && lo <= b.addr && b.End() <= hi
    ensures Ordered(Insert(l, b)) && Within(Insert(l, b), lo, hi)
  {
    var p := Place(l, b.addr);
    var r := Insert(l, b);
    forall x, y | 0 <= x < y < |r| ensures Before(r, x, y) {
      if x != p && y != p {
        assert Before(l, if x < p then x else x - 1, if y < p then y else y - 1);
      } else if y == p {
        assert Disjoint(l[x], b);
      } else {
        assert Disjoint(l[y - 1], b);
        if y - 1 > p { assert Before(l, p, y - 1); }
      }
    }
  }

  lemma InsertClear(l: seq<Block>, b: Block, c: Block)
    requires Clear(l, c) && Disjoint(b, c)
    ensures Clear(Insert(l, b), c)
  {
  }

  function Joined(a: Block, b: Block): (r: Block)
  {
    Block(a.addr, a.size + b.size)
  }

  /** One pass that joins neighbours. */
  function Coalesce(l: seq<Block>): (r: seq<Block>)
    decreases |l|
  {
    if |l| < 2 then l
    else if l[0].End() == l[1].addr then Coalesce([Joined(l[0], l[1])] + l[2..])
    else [l[0]] + Coalesce(l[1..])
  }

  lemma JoinOrdered(l: seq<Block>)
    requires Ordered(l) && |l| >= 2 && l[0].End() == l[1].addr
    ensures Ordered([Joined(l[0], l[1])] + l[2..]) && Sum([Joined(l[0], l[1])] + l[2..]) == Sum(l)
  {
    var j := [Joined(l[0], l[1])] + l[2..];
    assert j[1..] == l[2..] && l[1..][1..] == l[2..];
    forall x, y | 0 <= x < y < |j| ensures Before(j, x, y) { assert Before(l, x + 1, y + 1); }
  }

  lemma TailOrdered(l: seq<Block>)
    requires Ordered(l) && |l| > 0
    ensures Ordered(l[1..])
  {
    forall x, y | 0 <= x < y < |l| - 1 ensures Before(l[1..], x, y) { assert Before(l, x + 1, y + 1); }
  }

  /** The pass keeps order and total, starts where the list started and leaves no two blocks touching. */
  lemma {:induction false} CoalesceKeeps(l: seq<Block>)
    requires Ordered(l)
    ensures var r := Coalesce(l);
            && Ordered(r) && Separate(r) && Sum(r) == Sum(l)
            && (|l| > 0 ==> |r| > 0 && r[0].addr == l[0].addr)
    decreases |l|
  {
    if |l| >= 2 {
      if l[0].End() == l[1].addr {
        JoinOrdered(l);
        CoalesceKeeps([Joined(l[0], l[1])] + l[2..]);
      } else {
        var rest := Coalesce(l[1..]);
        TailOrdered(l);
        CoalesceKeeps(l[1..]);
        var r := [l[0]] + rest;
        assert r[1..] == rest;
        assert Before(l, 0, 1);
        forall x, y | 0 <= x < y < |r| ensures Gap(r, x, y) && Before(r, x, y) {
          if x > 0 { assert Gap(rest, x - 1, y - 1); } else if y > 1 { assert Gap(rest, 0, y - 1); }
        }
      }
    }
  }

  /** Joining neighbours covers no byte that was not covered before. */
  lemma {:induction false} CoalesceClear(l: seq<Block>, b: Block, lo: nat, hi: nat)
    requires Ordered(l) && Clear(l, b) && Within(l, lo, hi) && b.size > 0
    ensures Clear(Coalesce(l), b) && Within(Coalesce(l), lo, hi)
    decreases |l|
  {
    if |l| >= 2 {
      if l[0].End() == l[1].addr {
        var j := [Joined(l[0], l[1])] + l[2..];
        JoinOrdered(l);
        assert Disjoint(l[0], b) && Disjoint(l[1], b);
        forall i | 0 <= i < |j| ensures Disjoint(j[i], b) && lo <= j[i].addr && j[i].End() <= hi {
          if i > 0 { assert j[i] == l[i + 1]; }
        }
        CoalesceClear(j, b, lo, hi);
      } else {
        TailOrdered(l);
        assert Clear(l[1..], b) && Within(l[1..], lo, hi);
        CoalesceClear(l[1..], b, lo, hi);
      }
    }
  }

  // ---------------------------------------------------------------------------------------------------------
  // Freeing undoes allocating
  // ---------------------------------------------------------------------------------------------------------

  lemma {:induction false} CoalesceSeparate(l: seq<Block>)
    requires Separate(l)
    ensures Coalesce(l) == l
    decreases |l|
  {
    if |l| >= 2 {
      assert Gap(l, 0, 1);
      forall x, y | 0 <= x < y < |l| - 1 ensures Gap(l[1..], x, y) { assert Gap(l, x + 1, y + 1); }
      CoalesceSeparate(l[1..]);
    }
  }

  lemma {:induction false} CoalesceRejoins(l: seq<Block>, i: nat, b: Block, r: Block)
    requires Separate(l) && i < |l| && l[i] == Joined(b, r) && b.End() == r.addr
    ensures Coalesce(l[..i] + [b, r] + l[i + 1..]) == l
    decreases |l|
  {
    var w := l[..i] + [b, r] + l[i + 1..];
    if i == 0 {
      assert [Joined(w[0], w[1])] + w[2..] == l;
      CoalesceSeparate(l);
    } else {
      var tail := l[1..];
      forall x, y | 0 <= x < y < |tail| ensures Gap(tail, x, y) { assert Gap(l, x + 1, y + 1); }
      assert Gap(l, 0, 1);
      CoalesceRejoins(tail, i - 1, b, r);
      assert w[1..] == tail[..i - 1] + [b, r] + tail[i..];
      assert w[0].End() != w[1].addr;
    }
  }

  /** A block that was split for an allocation is whole again once the allocation is given back. */
  lemma FreeRestores(l: seq<Block>, i: nat, need: nat)
    requires Ordered(l) && Separate(l) && i < |l| && 0 < need && l[i].size - need > RECORD
    ensures Coalesce(Insert(Carve(l, i, need), Block(l[i].addr, need))) == l
  {
    CarvedPlace(l, i, need);
    CoalesceRejoins(l, i, Block(l[i].addr, need), Block(l[i].addr + need, l[i].size - need));
  }

  lemma CarvedPlace(l: seq<Block>, i: nat, need: nat)
    requires Ordered(l) && Separate(l) && i < |l| && 0 < need && l[i].size - need > RECORD
    ensures var b, r := Block(l[i].addr, need), Block(l[i].addr + need, l[i].size - need);
            Insert(Carve(l, i, need), b) == l[..i] + [b, r] + l[i + 1..]
  {
    var c, b := Carve(l, i, need), Block(l[i].addr, need);
    forall x | 0 <= x < i ensures c[x].addr < b.addr { assert Gap(l, x, i); }
    assert Place(c, b.addr) == i;
  }
}

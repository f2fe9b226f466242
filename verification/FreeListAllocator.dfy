/**
 CFreeListAllocator of private/memory/free_list_allocator.cpp. The buffer's bytes hold two kinds of records, the
 links of the free list and the headers in front of allocations; storing one destroys every record it overlaps.
 The methods walk and relink these records in place and are proved against the lists of FreeBlocks.
 */
module FreeListAllocator {
  import opened Words
  import opened Alignment
  import opened FreeBlocks
  import opened Requests

  /** Address 0 is the null pointer. */
  datatype Cell = FreeBlock(size: nat, next: nat) | Header(size: nat, padding: nat)

  type Memory = map<nat, Cell>

  predicate Overlap(x: nat, y: nat)
  {
    x < y + RECORD && y < x + RECORD
  }

  function Store(m: Memory, a: nat, c: Cell): (r: Memory)
    ensures a in r && r[a] == c
    ensures forall x :: x in m && !Overlap(x, a) ==> x in r && r[x] == m[x]
  {
    (map x | x in m && !Overlap(x, a) :: m[x])[a := c]
  }

  // ---------------------------------------------------------------------------------------------------------
  // What the memory stands for
  // ---------------------------------------------------------------------------------------------------------

  function AddrAt(l: seq<Block>, i: nat): (r: nat)
  {
    if i < |l| then l[i].addr else 0
  }

  ghost predicate Node(m: Memory, l: seq<Block>, i: nat)
    requires i < |l|
  {
    l[i].addr in m && m[l[i].addr] == FreeBlock(l[i].size, AddrAt(l, i + 1))
  }

  /** The records from `head` on spell out the list. */
  ghost predicate Chained(m: Memory, head: nat, l: seq<Block>)
  {
    head == AddrAt(l, 0) && forall i :: 0 <= i < |l| ==> Node(m, l, i)
  }

  /** `live` maps a returned pointer to the bytes its allocation owns, `slack` counts bytes lost for good, `count`
      the allocations made so far. */
  datatype Heap = Heap(free: seq<Block>, live: map<nat, Block>, slack: nat, count: nat)

  /** The header in front of p lies inside p's own bytes and describes them. */
  ghost predicate HeaderOk(m: Memory, p: nat, e: Block)
  {
    && e.addr + RECORD <= p < e.End()
    && p - RECORD in m
    && m[p - RECORD] == Header(e.End() - p, p - RECORD - e.addr)
  }

  ghost predicate HeadersOk(m: Memory, live: map<nat, Block>)
  {
    forall p :: p in live ==> HeaderOk(m, p, live[p])
  }

  ghost predicate LiveOk(m: Memory, h: Heap, p: nat, lo: nat, hi: nat)
    requires p in h.live
  {
    HeaderOk(m, p, h.live[p]) && lo <= h.live[p].addr && h.live[p].End() <= hi && Clear(h.free, h.live[p])
  }

  ghost function LiveSum(live: map<nat, Block>): (r: nat)
  {
    if live == map[] then 0
    else
      var p :| p in live;
      live[p].size + LiveSum(live - {p})
  }

  lemma {:induction false} LiveSumRemove(live: map<nat, Block>, p: nat)
    requires p in live
    ensures LiveSum(live) == live[p].size + LiveSum(live - {p})
    decreases |live|
  {
    var q :| q in live && LiveSum(live) == live[q].size + LiveSum(live - {q});
    if p != q {
      LiveSumRemove(live - {q}, p);
      LiveSumRemove(live - {p}, q);
      assert live - {q} - {p} == live - {p} - {q};
    }
  }

  /** The free list is sorted by address with no two blocks touching; live extents and free blocks are disjoint and
      inside the buffer; and every byte is free, live or lost, at most one record lost per allocation. */
  ghost predicate Sound(m: Memory, head: nat, h: Heap, lo: nat, hi: nat)
  {
    && lo <= hi
    && Chained(m, head, h.free) && Ordered(h.free) && Separate(h.free) && Within(h.free, lo, hi)
    && (forall p {:trigger LiveOk(m, h, p, lo, hi)} :: p in h.live ==> LiveOk(m, h, p, lo, hi))
    && (forall p, q {:trigger Disjoint(h.live[p], h.live[q])} ::
          p in h.live && q in h.live && p != q ==> Disjoint(h.live[p], h.live[q]))
    && Sum(h.free) + LiveSum(h.live) + h.slack == hi - lo
    && h.slack <= RECORD * h.count
  }

  /** Block i of the free list was used for an allocation that returned `ptr`. */
  function Allocated(h: Heap, i: nat, need: nat, ptr: nat): (r: Heap)
    requires i < |h.free| && need <= h.free[i].size
  {
    Heap(Carve(h.free, i, need), h.live[ptr := Block(h.free[i].addr, need)], h.slack + Lost(h.free[i], need), h.count + 1)
  }

  function Freed(h: Heap, ptr: nat): (r: Heap)
    requires ptr in h.live
  {
    h.(free := Coalesce(Insert(h.free, h.live[ptr])), live := h.live - {ptr})
  }

  lemma TakenIsFresh(m: Memory, head: nat, h: Heap, lo: nat, hi: nat, i: nat, need: nat, p: nat)
    requires Sound(m, head, h, lo, hi) && i < |h.free| && need <= h.free[i].size && p in h.live
    ensures Disjoint(Block(h.free[i].addr, need), h.live[p]) && h.live[p].addr + RECORD <= p < h.live[p].End()
    ensures Clear(Carve(h.free, i, need), h.live[p]) && lo <= h.live[p].addr && h.live[p].End() <= hi
  {
    assert LiveOk(m, h, p, lo, hi);
    assert Disjoint(h.free[i], h.live[p]);
    CarveClear(h.free, i, need, h.live[p]);
  }

  lemma AllocatedSums(h: Heap, i: nat, need: nat, ptr: nat)
    requires i < |h.free| && need <= h.free[i].size && ptr !in h.live
    ensures var h' := Allocated(h, i, need, ptr);
            Sum(h'.free) + LiveSum(h'.live) + h'.slack == Sum(h.free) + LiveSum(h.live) + h.slack
  {
    var h' := Allocated(h, i, need, ptr);
    CarveSum(h.free, i, need);
    LiveSumRemove(h'.live, ptr);
    assert h'.live - {ptr} == h.live;
  }

  /** The memory spells out the carved list and has the header of the bytes taken and of every live allocation. */
  ghost predicate Written(h: Heap, i: nat, need: nat, ptr: nat, m': Memory, head': nat)
    requires i < |h.free| && need <= h.free[i].size
  {
    && Chained(m', head', Carve(h.free, i, need))
    && HeaderOk(m', ptr, Block(h.free[i].addr, need))
    && HeadersOk(m', h.live)
  }

  lemma AllocatedSound(m: Memory, head: nat, h: Heap, lo: nat, hi: nat, i: nat, need: nat, ptr: nat, m': Memory, head': nat)
    requires Sound(m, head, h, lo, hi) && i < |h.free| && RECORD < need <= h.free[i].size
    requires Written(h, i, need, ptr, m', head')
    ensures ptr !in h.live && Sound(m', head', Allocated(h, i, need, ptr), lo, hi)
  {
    var h' := Allocated(h, i, need, ptr);
    CarveKeeps(h.free, i, need, lo, hi);
    forall p | p in h.live
      ensures Disjoint(Block(h.free[i].addr, need), h.live[p]) && p != ptr && LiveOk(m', h', p, lo, hi)
    {
      TakenIsFresh(m, head, h, lo, hi, i, need, p);
    }
    AllocatedSums(h, i, need, ptr);
  }

  lemma FreedSound(m: Memory, head: nat, h: Heap, lo: nat, hi: nat, ptr: nat, m': Memory, head': nat)
    requires Sound(m, head, h, lo, hi) && ptr in h.live && lo > 0
    requires Chained(m', head', Freed(h, ptr).free)
    requires forall p :: p in h.live && p != ptr ==> HeaderOk(m', p, h.live[p])
    ensures Sound(m', head', Freed(h, ptr), lo, hi)
  {
    var h', e := Freed(h, ptr), h.live[ptr];
    var l := Insert(h.free, e);
    assert LiveOk(m, h, ptr, lo, hi);
    InsertKeeps(h.free, e, lo, hi);
    InsertSum(h.free, e);
    CoalesceKeeps(l);
    CoalesceClear(l, Block(hi, 1), lo, hi);
    forall p | p in h'.live ensures LiveOk(m', h', p, lo, hi) {
      assert LiveOk(m, h, p, lo, hi);
      InsertClear(h.free, e, h.live[p]);
      CoalesceClear(l, h.live[p], lo, hi);
    }
    LiveSumRemove(h.live, ptr);
  }

  // ---------------------------------------------------------------------------------------------------------
  // Stores that leave the rest alone
  // ---------------------------------------------------------------------------------------------------------

  /** A record stored inside a range that belongs to nobody else destroys no live header. */
  lemma StoreKeepsHeader(m: Memory, a: nat, c: Cell, p: nat, e: Block, own: Block)
    requires HeaderOk(m, p, e) && Disjoint(own, e) && own.addr <= a && a + RECORD <= own.End()
    ensures HeaderOk(Store(m, a, c), p, e)
  {
  }

  /** Nodes whose record does not overlap the stored one stay. */
  lemma StoreKeepsNode(m: Memory, a: nat, c: Cell, l: seq<Block>, j: nat)
    requires j < |l| && Node(m, l, j) && !Overlap(l[j].addr, a)
    ensures Node(Store(m, a, c), l, j)
  {
  }

  lemma OrderedApart(l: seq<Block>, i: nat, j: nat)
    requires Ordered(l) && i < |l| && j < |l| && i != j
    ensures !Overlap(l[i].addr, l[j].addr) && l[i].addr != l[j].addr
  {
    if i < j { assert Before(l, i, j); } else { assert Before(l, j, i); }
  }

  /** A record stored outside every free block leaves the list alone. */
  lemma StoreKeepsChain(m: Memory, a: nat, c: Cell, head: nat, l: seq<Block>, own: Block)
    requires Chained(m, head, l) && Ordered(l) && Clear(l, own) && own.addr <= a && a + RECORD <= own.End()
    ensures Chained(Store(m, a, c), head, l)
  {
    forall j | 0 <= j < |l| ensures Node(Store(m, a, c), l, j) {
      assert Node(m, l, j) && Disjoint(l[j], own);
      StoreKeepsNode(m, a, c, l, j);
    }
  }

  /** Lets the record at `prev` point at `next`; a null `prev` stands for the list head, which is no record. */
  function Relink(m: Memory, prev: nat, next: nat): (r: Memory)
    requires prev != 0 ==> prev in m
  {
    if prev == 0 then m else Store(m, prev, FreeBlock(m[prev].size, next))
  }

  /** The address of the record in front of position i. */
  function PrevAt(l: seq<Block>, i: nat): (r: nat)
    requires i <= |l|
  {
    if i == 0 then 0 else l[i - 1].addr
  }

  /** Taking all of block i out of the list. */
  lemma UnlinkChain(m: Memory, head: nat, l: seq<Block>, i: nat)
    requires Chained(m, head, l) && Ordered(l) && i < |l|
    ensures PrevAt(l, i) != 0 ==> PrevAt(l, i) in m
    ensures var next := AddrAt(l, i + 1);
            Chained(Relink(m, PrevAt(l, i), next), if i == 0 then next else head, l[..i] + l[i + 1..])
  {
    var r := l[..i] + l[i + 1..];
    if i > 0 { assert Node(m, l, i - 1); }
    var m' := Relink(m, PrevAt(l, i), AddrAt(l, i + 1));
    forall j | 0 <= j < |r| ensures Node(m', r, j) {
      var k := if j < i then j else j + 1;
      assert Node(m, l, k) && r[j] == l[k];
      if i > 0 && k != i - 1 { OrderedApart(l, k, i - 1); }
    }
  }

  /** Putting a new record into block i's place: at `a`, inside that block. */
  lemma SplitChain(m: Memory, head: nat, l: seq<Block>, i: nat, b: Block)
    requires Chained(m, head, l) && Ordered(l) && i < |l|
    requires l[i].addr < b.addr && b.End() == l[i].End() && b.size >= RECORD
    ensures var m1 := Store(m, b.addr, FreeBlock(b.size, AddrAt(l, i + 1)));
            && (PrevAt(l, i) != 0 ==> PrevAt(l, i) in m1)
            && Chained(Relink(m1, PrevAt(l, i), b.addr), if i == 0 then b.addr else head, l[i := b])
  {
    var r := l[i := b];
    var m1 := Store(m, b.addr, FreeBlock(b.size, AddrAt(l, i + 1)));
    forall j: nat | j < |l| && j != i ensures Node(m1, l, j) && !Overlap(l[j].addr, b.addr) {
      assert Node(m, l, j);
      SplitElsewhere(l, i, b, j);
    }
    if i > 0 { assert Node(m1, l, i - 1); }
    forall j: nat | j < |r| ensures Node(Relink(m1, PrevAt(l, i), b.addr), r, j) {
      if j != i { assert Node(m1, l, j); }
      SplitNode(m1, l, i, b, j);
    }
  }

  lemma SplitElsewhere(l: seq<Block>, i: nat, b: Block, j: nat)
    requires Ordered(l) && i < |l| && j < |l| && i != j
    requires l[i].addr < b.addr && b.End() == l[i].End() && b.size >= RECORD
    ensures !Overlap(l[j].addr, b.addr)
  {
    if j < i { assert Before(l, j, i); } else { assert Before(l, i, j); }
  }

  lemma SplitNode(m: Memory, l: seq<Block>, i: nat, b: Block, j: nat)
    requires Ordered(l) && i < |l| && j < |l| && (i > 0 ==> l[i - 1].addr in m && m[l[i - 1].addr].size == l[i - 1].size)
    requires l[i].addr < b.addr && b.End() == l[i].End() && b.size >= RECORD
    requires b.addr in m && m[b.addr] == FreeBlock(b.size, AddrAt(l, i + 1)) && (j != i ==> Node(m, l, j))
    ensures Node(Relink(m, PrevAt(l, i), b.addr), l[i := b], j)
  {
    if i > 0 {
      SplitElsewhere(l, i, b, i - 1);
      if j != i && j != i - 1 { OrderedApart(l, j, i - 1); }
    }
  }

  // ---------------------------------------------------------------------------------------------------------
  // Taking a block
  // ---------------------------------------------------------------------------------------------------------

  /** The block at `current` has that many bytes, and the record in front of it, if there is one, lies below it. */
  predicate Detachable(m: Memory, prev: nat, current: nat, total: nat)
  {
    && current in m && m[current].FreeBlock? && total <= m[current].size
    && (prev != 0 ==> prev in m && prev + RECORD <= current)
  }

  /** What takes the block's place in the list: its rest, or the block behind it. */
  function Follower(m: Memory, current: nat, total: nat): (r: nat)
    requires current in m && m[current].FreeBlock? && total <= m[current].size
  {
    if m[current].size - total > RECORD then current + total else m[current].next
  }

  function Detached(m: Memory, prev: nat, current: nat, total: nat): (r: Memory)
    requires Detachable(m, prev, current, total)
  {
    var remaining := m[current].size - total;
    if remaining > RECORD then
      Relink(Store(m, current + total, FreeBlock(remaining, m[current].next)), prev, current + total)
    else Relink(m, prev, m[current].next)
  }

  /** A header ends where the data starts. */
  function HeaderAddr(ptr: U64): (r: U64)
  {
    Wrap64(ptr + (WORD - RECORD))
  }

  function Taken(m: Memory, prev: nat, current: nat, size: U64, alignment: U64): (r: Memory)
    requires Detachable(m, prev, current, WordNeed(current, size, alignment))
  {
    Store(Detached(m, prev, current, WordNeed(current, size, alignment)),
          HeaderAddr(WordAligned(current, alignment)), Header(size, WordPadding(current, alignment)))
  }

  /** Block i was used for a request, from its start to the end of the data. */
  ghost predicate Granted(h: Heap, i: nat, size: nat, alignment: nat, ptr: nat, h': Heap)
    requires alignment > 0
  {
    && i < |h.free| && Fits(h.free[i], size, alignment)
    && ptr == AlignUp(h.free[i].addr + RECORD, alignment) && ptr !in h.live
    && h' == Allocated(h, i, Need(h.free[i], size, alignment), ptr)
    && h'.live[ptr].addr + RECORD <= ptr && ptr + size == h'.live[ptr].End()
  }

  lemma FoundBlock(m: Memory, head: nat, h: Heap, lo: nat, hi: nat, i: nat)
    requires Sound(m, head, h, lo, hi) && i < |h.free|
    ensures forall total: nat :: total <= h.free[i].size ==> Detachable(m, PrevAt(h.free, i), h.free[i].addr, total)
  {
    RecordAt(m, head, h, lo, hi, i);
    if i > 0 {
      RecordAt(m, head, h, lo, hi, i - 1);
      assert Before(h.free, i - 1, i);
    }
  }

  lemma ListStep(m: Memory, head: nat, h: Heap, lo: nat, hi: nat, i: nat)
    requires Sound(m, head, h, lo, hi) && i <= |h.free|
    ensures AddrAt(h.free, i) == 0 <==> i == |h.free|
    ensures i < |h.free| ==>
              var a := h.free[i].addr; a in m && m[a] == FreeBlock(h.free[i].size, AddrAt(h.free, i + 1))
  {
    if i < |h.free| { RecordAt(m, head, h, lo, hi, i); }
  }

  /** For a regular request the code's test finds what fits. */
  lemma RegularRequest(m: Memory, head: nat, h: Heap, lo: nat, hi: nat, size: U64, alignment: U64)
    requires Sound(m, head, h, lo, hi) && hi <= WORD
    ensures Regular(size, alignment, hi) ==> WordFirstFit(h.free, size, alignment) == FirstFit(h.free, size, alignment)
  {
    if Regular(size, alignment, hi) { RegularFirstFit(h.free, size, alignment, hi); }
  }

  lemma DetachedSound(m: Memory, head: nat, h: Heap, lo: nat, hi: nat, i: nat, total: nat)
    requires Sound(m, head, h, lo, hi) && i < |h.free| && 0 < total <= h.free[i].size
    ensures Detachable(m, PrevAt(h.free, i), h.free[i].addr, total)
    ensures var prev, current := PrevAt(h.free, i), h.free[i].addr;
            var m' := Detached(m, prev, current, total);
            && Chained(m', if prev == 0 then Follower(m, current, total) else head, Carve(h.free, i, total))
            && HeadersOk(m', h.live)
  {
    FoundBlock(m, head, h, lo, hi, i);
    RecordAt(m, head, h, lo, hi, i);
    if h.free[i].size - total > RECORD {
      DetachSplit(m, head, h, lo, hi, i, total);
    } else {
      DetachWhole(m, head, h, lo, hi, i, total);
    }
  }

  /** Taking the first block that fits a regular request keeps the heap sound. */
  lemma TakenSound(m: Memory, head: nat, h: Heap, lo: nat, hi: nat, size: U64, alignment: U64, m': Memory, head': nat)
    requires Sound(m, head, h, lo, hi) && hi <= WORD && size > 0 && Regular(size, alignment, hi)
    requires FirstFit(h.free, size, alignment) < |h.free|
    requires var i := FirstFit(h.free, size, alignment);
             TakenFrom(m, head, h.free, i, size, alignment, m', head')
    ensures var i := FirstFit(h.free, size, alignment);
            var total, ptr := WordNeed(h.free[i].addr, size, alignment), WordAligned(h.free[i].addr, alignment);
            && total == Need(h.free[i], size, alignment) <= h.free[i].size && ptr > 0
            && Granted(h, i, size, alignment, ptr, Allocated(h, i, total, ptr))
            && (IsPower(alignment) ==> Aligned(ptr, alignment))
            && Sound(m', head', Allocated(h, i, total, ptr), lo, hi)
  {
    var i := FirstFit(h.free, size, alignment);
    RegularFit(h.free[i], size, alignment, hi);
    TakenWritten(m, head, h, lo, hi, i, size, alignment, m', head');
    var total, ptr := WordNeed(h.free[i].addr, size, alignment), WordAligned(h.free[i].addr, alignment);
    AllocatedSound(m, head, h, lo, hi, i, total, ptr, m', head');
  }

  /** A block taken with a total that wrapped to zero, as Requests.HugeRequestIsGranted has it, stays in the list with
      the header written over its record: the list then spells out no blocks at all. */
  lemma ZeroTotalBreaksList(m: Memory, a: nat, size: U64, alignment: U64)
    requires a > 0 && a in m && m[a].FreeBlock? && m[a].size > RECORD
    requires WordNeed(a, size, alignment) == 0 && WordAligned(a, alignment) == a + RECORD
    ensures Follower(m, a, 0) == a && Taken(m, 0, a, size, alignment)[a].Header?
    ensures forall l :: !Chained(Taken(m, 0, a, size, alignment), a, l)
  {
    var m' := Taken(m, 0, a, size, alignment);
    HeaderInFront(a);
    forall l: seq<Block> ensures !Chained(m', a, l) {
      assert l != [] && Node(m', l, 0) ==> m'[l[0].addr].FreeBlock?;
    }
  }

  lemma HeaderInFront(a: nat)
    requires a + RECORD < WORD
    ensures HeaderAddr(a + RECORD) == a
  {
    WrapBy(a + WORD);
  }

  lemma TakenWritten(
    m: Memory, head: nat, h: Heap, lo: nat, hi: nat, i: nat, size: U64, alignment: U64, m': Memory, head': nat)
    requires Sound(m, head, h, lo, hi) && hi <= WORD && size > 0 && i < |h.free|
    requires TakenFrom(m, head, h.free, i, size, alignment, m', head')
    requires var b := h.free[i];
             && WordNeed(b.addr, size, alignment) <= b.size
             && WordAligned(b.addr, alignment) + size == b.addr + WordNeed(b.addr, size, alignment)
             && b.addr + RECORD <= WordAligned(b.addr, alignment)
    ensures Written(h, i, WordNeed(h.free[i].addr, size, alignment), WordAligned(h.free[i].addr, alignment), m', head')
  {
    var current := h.free[i].addr;
    var total, ptr := WordNeed(current, size, alignment), WordAligned(current, alignment);
    HeaderFits(current, ptr, alignment);
    PlainWritten(m, head, h, lo, hi, i, size, WordPadding(current, alignment), total, ptr, HeaderAddr(ptr), m', head');
  }

  /** The memory and the list head after block i was taken for a request. */
  ghost predicate TakenFrom(
    m: Memory, head: nat, l: seq<Block>, i: nat, size: U64, alignment: U64, m': Memory, head': nat)
    requires i < |l|
  {
    var prev, current, total := PrevAt(l, i), l[i].addr, WordNeed(l[i].addr, size, alignment);
    && Detachable(m, prev, current, total)
    && m' == Taken(m, prev, current, size, alignment)
    && head' == if prev == 0 then Follower(m, current, total) else head
  }

  lemma PlainWritten(
    m: Memory, head: nat, h: Heap, lo: nat, hi: nat, i: nat, size: nat, padding: nat, total: nat, ptr: nat, a: nat,
    m': Memory, head': nat)
    requires Sound(m, head, h, lo, hi) && size > 0 && i < |h.free| && total == RECORD + padding + size <= h.free[i].size
    requires a == h.free[i].addr + padding && ptr == a + RECORD
    requires var prev, current := PrevAt(h.free, i), h.free[i].addr;
             && Detachable(m, prev, current, total)
             && m' == Store(Detached(m, prev, current, total), a, Header(size, padding))
             && head' == if prev == 0 then Follower(m, current, total) else head
    ensures Written(h, i, total, ptr, m', head')
  {
    var prev, current := PrevAt(h.free, i), h.free[i].addr;
    DetachedSound(m, head, h, lo, hi, i, total);
    HeaderWritten(m, head, h, lo, hi, Detached(m, prev, current, total), head', i, size, padding, total, ptr, a);
  }

  lemma HeaderFits(current: nat, ptr: U64, alignment: U64)
    requires current + RECORD <= ptr && ptr == WordAligned(current, alignment)
    ensures HeaderAddr(ptr) == ptr - RECORD && WordPadding(current, alignment) == ptr - (current + RECORD)
  {
    WrapBy(current + RECORD);
    WrapBy(ptr + (WORD - RECORD));
    WrapBy(ptr + (WORD - (current + RECORD)));
  }

  // ---------------------------------------------------------------------------------------------------------
  // The allocator
  // ---------------------------------------------------------------------------------------------------------

  class Allocator {
    const buffer: nat
    const capacity: nat
    var freeList: nat
    var memory: Memory
    ghost var heap: Heap

    ghost function Top(): (r: nat)
    {
      if buffer == 0 then 0 else buffer + capacity
    }

    ghost predicate Valid()
      reads this
    {
      Top() <= WORD && Sound(memory, freeList, heap, buffer, Top())
    }

    /** `start` is what malloc answered: 0 if it failed or nothing was asked for. */
    constructor (start: nat, bytes: nat)
      requires bytes == 0 ==> start == 0
      requires start != 0 ==> bytes >= RECORD && start + bytes <= WORD
      ensures Valid() && buffer == start && capacity == bytes
      ensures heap == Heap(if start == 0 then [] else [Block(start, bytes)], map[], 0, 0)
    {
      buffer, capacity, freeList := start, bytes, start;
      memory := if start == 0 then map[] else map[start := FreeBlock(bytes, 0)];
      heap := Heap(if start == 0 then [] else [Block(start, bytes)], map[], 0, 0);
      new;
      if start != 0 {
        assert Node(memory, heap.free, 0);
        assert Sum([Block(start, bytes)]) == bytes;
      }
    }

    /** Takes the front of the block that was found off the list: splits it, or unlinks it when the rest is small. */
    method Detach(prev: nat, current: nat, total: U64)
      requires Detachable(memory, prev, current, total)
      modifies `memory, `freeList
      ensures memory == Detached(old(memory), prev, current, total)
      ensures freeList == if prev == 0 then Follower(old(memory), current, total) else old(freeList)
    {
      var remaining := memory[current].size - total;
      var next := memory[current].next;
      if remaining > RECORD {
        memory := Store(memory, current + total, FreeBlock(remaining, next));
        SetLink(prev, current + total);
      } else {
        SetLink(prev, next);
      }
    }

    method SetLink(prev: nat, next: nat)
      requires prev != 0 ==> prev in memory
      modifies `memory, `freeList
      ensures memory == Relink(old(memory), prev, next) && freeList == if prev == 0 then next else old(freeList)
    {
      memory := Relink(memory, prev, next);
      if prev == 0 {
        freeList := next;
      }
    }

    /** First fit. A regular request gets the lowest block that can hold header, padding and data, and null means that
        none can. Whatever the request, null means that no block passed the code's own test, and then nothing changed. */
    method Allocate(size: U64, alignment: U64) returns (ptr: U64)
      requires Valid()
      modifies this
      ensures size == 0 || WordFirstFit(old(heap).free, size, alignment) == |old(heap).free| ==>
                ptr == 0 && Valid() && heap == old(heap) && memory == old(memory) && freeList == old(freeList)
      ensures var i := WordFirstFit(old(heap).free, size, alignment);
              size > 0 && i < |old(heap).free| ==> ptr == WordAligned(old(heap).free[i].addr, alignment)
      ensures Regular(size, alignment, Top()) ==>
                Valid() && (ptr != 0 <==> size > 0 && FirstFit(old(heap).free, size, alignment) < |old(heap).free|)
      ensures Regular(size, alignment, Top()) && ptr != 0 ==>
                var i := FirstFit(old(heap).free, size, alignment);
                && Granted(old(heap), i, size, alignment, ptr, heap)
                && (IsPower(alignment) ==> Aligned(ptr, alignment))
    {
      ptr := 0;
      ghost var i := WordFirstFit(heap.free, size, alignment);
      RegularRequest(memory, freeList, heap, buffer, Top(), size, alignment);
      if size > 0 && freeList != 0 {
        var prev, current := FindFit(size, alignment);
        if current != 0 {
          FoundBlock(memory, freeList, heap, buffer, Top(), i);
          ptr := WordAligned(current, alignment);
          Take(prev, current, size, alignment);
          if Regular(size, alignment, Top()) {
            TakenSound(old(memory), old(freeList), heap, buffer, Top(), size, alignment, memory, freeList);
            heap := Allocated(heap, i, WordNeed(current, size, alignment), ptr);
          }
        }
      } else {
        NoList(memory, freeList, heap, buffer, Top());
      }
    }

    /** Detaches the block and writes the header in front of the aligned address. */
    method Take(prev: nat, current: nat, size: U64, alignment: U64)
      requires Detachable(memory, prev, current, WordNeed(current, size, alignment))
      modifies `memory, `freeList
      ensures memory == Taken(old(memory), prev, current, size, alignment)
      ensures freeList ==
              if prev == 0 then Follower(old(memory), current, WordNeed(current, size, alignment)) else old(freeList)
    {
      var padding := WordPadding(current, alignment);
      Detach(prev, current, WordNeed(current, size, alignment));
      memory := Store(memory, HeaderAddr(WordAligned(current, alignment)), Header(size, padding));
    }

    /** The walk to the first block that is large enough by the code's test, with the one in front of it. */
    method FindFit(size: U64, alignment: U64) returns (prev: nat, current: nat)
      requires Valid()
      ensures var i := WordFirstFit(heap.free, size, alignment);
              current == AddrAt(heap.free, i) && prev == PrevAt(heap.free, i) && (current == 0 <==> i == |heap.free|)
    {
      prev, current := 0, freeList;
      ghost var l, i := heap.free, 0;
      while current != 0
        invariant i <= |l| && current == AddrAt(l, i) && prev == PrevAt(l, i)
        invariant forall x :: 0 <= x < i ==> !WordFits(l[x], size, alignment)
        decreases |l| - i
      {
        ListStep(memory, freeList, heap, buffer, Top(), i);
        if memory[current].size >= WordNeed(current, size, alignment) {
          return;
        }
        prev, current := current, memory[current].next;
        i := i + 1;
      }
    }

    /** A client writes any bytes of its own data, whatever they then look like. */
    method ClientWrites(ptr: nat, from: nat, to: nat, junk: Memory)
      requires Valid() && ptr in heap.live && ptr <= from <= to <= heap.live[ptr].End()
      modifies `memory
      ensures Valid() && memory == Overwritten(old(memory), from, to, junk)
    {
      OverwriteSound(memory, freeList, heap, buffer, Top(), ptr, from, to, junk);
      memory := Overwritten(memory, from, to, junk);
    }

    /** Links the free record stored at `blockAddr` into its place by address. */
    method InsertSorted(blockAddr: nat, ghost l: seq<Block>, ghost e: Block, ghost keep: map<nat, Block>)
      requires Chained(memory, freeList, l) && Ordered(l) && Ordered(Insert(l, e)) && blockAddr == e.addr
      requires e.addr in memory && memory[e.addr].size == e.size
      requires Kept(memory, l, keep) && forall p :: p in keep ==> Disjoint(e, keep[p])
      modifies `memory, `freeList
      ensures Chained(memory, freeList, Insert(l, e)) && Kept(memory, Insert(l, e), keep)
    {
      var prev, current := 0, freeList;
      ghost var i := 0;
      while current != 0 && current < blockAddr
        invariant i <= |l| && current == AddrAt(l, i) && prev == PrevAt(l, i)
        invariant forall x :: 0 <= x < i ==> l[x].addr < blockAddr
        invariant memory == old(memory) && freeList == old(freeList)
        decreases |l| - i
      {
        assert Node(memory, l, i);
        prev, current := current, memory[current].next;
        i := i + 1;
      }
      PlaceIs(l, blockAddr, i);
      InsertChain(memory, freeList, l, e, keep);
      memory := Relink(memory, prev, blockAddr);
      if prev == 0 {
        freeList := blockAddr;
      }
      memory := Store(memory, blockAddr, FreeBlock(memory[blockAddr].size, current));
    }

    method CoalesceFreeBlocks(ghost l: seq<Block>, ghost keep: map<nat, Block>)
      requires Chained(memory, freeList, l) && Ordered(l) && Kept(memory, l, keep)
      modifies `memory
      ensures Chained(memory, freeList, Coalesce(l))
      ensures HeadersOk(memory, keep)
    {
      var current: nat := freeList;
      ghost var done, rest: seq<Block> := [], l;
      PassBegins(memory, freeList, l, keep);
      while current != 0 && memory[current].next != 0
        invariant Pass(memory, freeList, l, keep, done, rest, current)
        decreases |rest|
      {
        var next := memory[current].next;
        if current + memory[current].size == next {
          PassJoins(memory, freeList, l, keep, done, rest, current);
          memory := Store(memory, current, FreeBlock(memory[current].size + memory[next].size, memory[next].next));
          rest := [Joined(rest[0], rest[1])] + rest[2..];
        } else {
          PassMovesOn(memory, freeList, l, keep, done, rest, current);
          done, rest := done + [rest[0]], rest[1..];
          current := next;
        }
      }
      PassEnds(memory, freeList, l, keep, done, rest, current);
    }

    /** Gives an allocation's bytes back, sorted into the list, and joins neighbours. A null pointer is ignored. */
    method Deallocate(ptr: nat)
      requires Valid() && (ptr != 0 ==> ptr in heap.live)
      modifies this
      ensures Valid() && heap == if ptr == 0 then old(heap) else Freed(old(heap), ptr)
    {
      assert ptr != 0 ==> LiveOk(memory, heap, ptr, buffer, Top());
      if ptr != 0 && buffer != 0 {
        ghost var e, keep := heap.live[ptr], heap.live - {ptr};
        var header := memory[ptr - RECORD];
        var total := RECORD + header.padding + header.size;
        var blockAddr := ptr - RECORD - header.padding;
        LiveKept(memory, freeList, heap, buffer, Top(), ptr, FreeBlock(total, 0));
        InsertKeeps(heap.free, e, buffer, Top());
        memory := Store(memory, blockAddr, FreeBlock(total, 0));
        InsertSorted(blockAddr, heap.free, e, keep);
        CoalesceFreeBlocks(Insert(heap.free, e), keep);
        forall p | p in heap.live && p != ptr ensures HeaderOk(memory, p, heap.live[p]) { assert p in keep; }
        FreedSound(old(memory), old(freeList), heap, buffer, Top(), ptr, memory, freeList);
        heap := Freed(heap, ptr);
      }
    }
  }

  // ---------------------------------------------------------------------------------------------------------
  // What clients do to the memory
  // ---------------------------------------------------------------------------------------------------------

  predicate Outside(x: nat, from: nat, to: nat)
  {
    x + RECORD <= from || to <= x
  }

  /** The memory after somebody wrote the bytes from `from` up to `to`: no record with a byte in there is what it was,
      and the new bytes may look like any records. */
  function Overwritten(m: Memory, from: nat, to: nat, junk: Memory): (r: Memory)
  {
    (map x | x in m && Outside(x, from, to) :: m[x]) + (map x | x in junk && !Outside(x, from, to) :: junk[x])
  }

  lemma OverwriteKeepsHeader(m: Memory, h: Heap, lo: nat, hi: nat, ptr: nat, from: nat, to: nat, junk: Memory, q: nat)
    requires ptr in h.live && ptr <= from <= to <= h.live[ptr].End() && q in h.live
    requires LiveOk(m, h, q, lo, hi) && LiveOk(m, h, ptr, lo, hi)
    requires q != ptr ==> Disjoint(h.live[q], h.live[ptr])
    ensures LiveOk(Overwritten(m, from, to, junk), h, q, lo, hi)
  {
    assert Outside(q - RECORD, from, to);
  }

  lemma OverwriteKeepsNode(m: Memory, l: seq<Block>, i: nat, e: Block, from: nat, to: nat, junk: Memory)
    requires Ordered(l) && Clear(l, e) && i < |l| && Node(m, l, i) && e.addr <= from <= to <= e.End()
    ensures Node(Overwritten(m, from, to, junk), l, i)
  {
    assert Outside(l[i].addr, from, to);
  }

  /** Whatever a client writes into the bytes it was given, the free list and every header survive. */
  lemma OverwriteSound(m: Memory, head: nat, h: Heap, lo: nat, hi: nat, ptr: nat, from: nat, to: nat, junk: Memory)
    requires Sound(m, head, h, lo, hi) && ptr in h.live && ptr <= from <= to <= h.live[ptr].End()
    ensures Sound(Overwritten(m, from, to, junk), head, h, lo, hi)
  {
    assert LiveOk(m, h, ptr, lo, hi);
    forall i | 0 <= i < |h.free| ensures Node(Overwritten(m, from, to, junk), h.free, i) {
      assert Node(m, h.free, i);
      OverwriteKeepsNode(m, h.free, i, h.live[ptr], from, to, junk);
    }
    forall q | q in h.live ensures LiveOk(Overwritten(m, from, to, junk), h, q, lo, hi) {
      assert LiveOk(m, h, q, lo, hi);
      if q != ptr { assert Disjoint(h.live[q], h.live[ptr]); }
      OverwriteKeepsHeader(m, h, lo, hi, ptr, from, to, junk, q);
    }
  }

  /** The walk stands at the first block of `rest`, whose record it can read. */
  ghost predicate Reached(m: Memory, current: nat, rest: seq<Block>)
  {
    if current == 0 then rest == []
    else rest != [] && current == rest[0].addr && current in m && m[current] == FreeBlock(rest[0].size, AddrAt(rest, 1))
         && (AddrAt(rest, 1) == 0 ==> |rest| == 1)
  }

  lemma Arrive(m: Memory, head: nat, done: seq<Block>, rest: seq<Block>)
    requires Chained(m, head, done + rest) && Ordered(done + rest)
    ensures Reached(m, AddrAt(rest, 0), rest)
  {
    var l, n := done + rest, |done|;
    if rest != [] {
      assert Node(m, l, n) && l[n] == rest[0];
      if |rest| > 1 { assert l[n + 1] == rest[1]; }
    }
  }

  /** The headers in `keep` are intact, and their extents share no byte with the list. */
  ghost predicate Kept(m: Memory, l: seq<Block>, keep: map<nat, Block>)
  {
    forall p :: p in keep ==> HeaderOk(m, p, keep[p]) && Clear(l, keep[p])
  }

  lemma PlaceIs(l: seq<Block>, addr: nat, i: nat)
    requires Ordered(l) && i <= |l| && (forall x :: 0 <= x < i ==> l[x].addr < addr) && (i < |l| ==> l[i].addr >= addr)
    ensures Place(l, addr) == i
  {
    var p := Place(l, addr);
  }

  /** Storing a free record over a live extent leaves the list and the other headers alone. */
  lemma LiveKept(m: Memory, head: nat, h: Heap, lo: nat, hi: nat, ptr: nat, c: Cell)
    requires Sound(m, head, h, lo, hi) && ptr in h.live
    ensures var m', keep := Store(m, h.live[ptr].addr, c), h.live - {ptr};
            Chained(m', head, h.free) && Kept(m', h.free, keep)
            && forall p :: p in keep ==> Disjoint(h.live[ptr], keep[p])
  {
    var e := h.live[ptr];
    assert LiveOk(m, h, ptr, lo, hi);
    StoreKeepsChain(m, e.addr, c, head, h.free, e);
    forall p | p in h.live && p != ptr ensures HeaderOk(Store(m, e.addr, c), p, h.live[p]) && Clear(h.free, h.live[p]) {
      assert LiveOk(m, h, p, lo, hi);
      StoreKeepsHeader(m, e.addr, c, p, h.live[p], e);
    }
  }

  lemma InsertedNode(m: Memory, head: nat, l: seq<Block>, e: Block, j: nat)
    requires Chained(m, head, l) && Ordered(l) && Ordered(Insert(l, e)) && j < |Insert(l, e)|
    requires PrevAt(l, Place(l, e.addr)) != 0 ==> PrevAt(l, Place(l, e.addr)) in m
    ensures var i := Place(l, e.addr);
            var m1 := Relink(m, PrevAt(l, i), e.addr);
            Node(Store(m1, e.addr, FreeBlock(e.size, AddrAt(l, i))), Insert(l, e), j)
  {
    var i, r := Place(l, e.addr), Insert(l, e);
    if j != i {
      var k := if j < i then j else j - 1;
      assert Node(m, l, k) && r[j] == l[k] && r[i] == e;
      OrderedApart(r, j, i);
      if i > 0 && k != i - 1 { OrderedApart(l, k, i - 1); }
      RecordStays(m, PrevAt(l, i), e.addr, FreeBlock(e.size, AddrAt(l, i)), l[k].addr);
    }
  }

  /** After a relink and a store the other records are as they were, but for the link of the one relinked. */
  lemma RecordStays(m: Memory, prev: nat, a: nat, c: Cell, x: nat)
    requires (prev != 0 ==> prev in m) && x in m && !Overlap(x, a) && (prev != 0 ==> x == prev || !Overlap(x, prev))
    ensures var m2 := Store(Relink(m, prev, a), a, c);
            x in m2 && m2[x] == if x == prev && prev != 0 then FreeBlock(m[x].size, a) else m[x]
  {
  }

  /** Linking a record that is already stored at e into its sorted place. */
  lemma InsertChain(m: Memory, head: nat, l: seq<Block>, e: Block, keep: map<nat, Block>)
    requires Chained(m, head, l) && Ordered(l) && Ordered(Insert(l, e)) && e.addr in m && m[e.addr].size == e.size
    requires Kept(m, l, keep) && forall p :: p in keep ==> Disjoint(e, keep[p])
    ensures var i := Place(l, e.addr);
            var prev, current := PrevAt(l, i), AddrAt(l, i);
            && (prev != 0 ==> prev in m) && (prev == 0 <==> i == 0)
            && var m1 := Relink(m, prev, e.addr);
            && e.addr in m1 && m1[e.addr].size == e.size
            && var m2 := Store(m1, e.addr, FreeBlock(e.size, current));
            && Chained(m2, if prev == 0 then e.addr else head, Insert(l, e))
            && Kept(m2, Insert(l, e), keep)
  {
    var i := Place(l, e.addr);
    var r := Insert(l, e);
    InsertRelinks(m, head, l, e);
    assert r[i] == e;
    var m2 := Store(Relink(m, PrevAt(l, i), e.addr), e.addr, FreeBlock(e.size, AddrAt(l, i)));
    forall j: nat | j < |r| ensures Node(m2, r, j) { InsertedNode(m, head, l, e, j); }
    forall p | p in keep ensures HeaderOk(m2, p, keep[p]) && Clear(r, keep[p]) {
      InsertKeepsHeader(m, l, e, p, keep[p]);
      InsertClear(l, e, keep[p]);
    }
  }

  /** Letting the record in front point at the new one leaves the new one alone. */
  lemma InsertRelinks(m: Memory, head: nat, l: seq<Block>, e: Block)
    requires Chained(m, head, l) && Ordered(l) && Ordered(Insert(l, e)) && e.addr in m && m[e.addr].size == e.size
    ensures var i := Place(l, e.addr);
            var prev := PrevAt(l, i);
            && (prev != 0 ==> prev in m) && (prev == 0 <==> i == 0)
            && e.addr in Relink(m, prev, e.addr) && Relink(m, prev, e.addr)[e.addr].size == e.size
            && AddrAt(Insert(l, e), 0) == if i == 0 then e.addr else head
  {
    var i, r := Place(l, e.addr), Insert(l, e);
    if i > 0 {
      assert Node(m, l, i - 1) && r[i - 1] == l[i - 1] && r[i] == e;
      OrderedApart(r, i - 1, i);
    }
  }

  lemma InsertKeepsHeader(m: Memory, l: seq<Block>, e: Block, p: nat, x: Block)
    requires Ordered(l) && e.size >= RECORD && HeaderOk(m, p, x) && Clear(l, x) && Disjoint(e, x)
    requires PrevAt(l, Place(l, e.addr)) != 0 ==> PrevAt(l, Place(l, e.addr)) in m
    ensures var i := Place(l, e.addr);
            HeaderOk(Store(Relink(m, PrevAt(l, i), e.addr), e.addr, FreeBlock(e.size, AddrAt(l, i))), p, x)
  {
    var i := Place(l, e.addr);
    var prev := PrevAt(l, i);
    if i > 0 { StoreKeepsHeader(m, prev, FreeBlock(m[prev].size, e.addr), p, x, l[i - 1]); }
    StoreKeepsHeader(Relink(m, prev, e.addr), e.addr, FreeBlock(e.size, AddrAt(l, i)), p, x, e);
  }

  lemma JoinOrderedIn(l: seq<Block>, n: nat)
    requires Ordered(l) && n + 1 < |l| && l[n].End() == l[n + 1].addr
    ensures Ordered(l[..n] + [Joined(l[n], l[n + 1])] + l[n + 2..])
  {
    var j := Joined(l[n], l[n + 1]);
    var l' := l[..n] + [j] + l[n + 2..];
    forall x | 0 <= x < |l'| ensures l'[x].addr > 0 && l'[x].size >= RECORD {
      assert l'[x] == if x < n then l[x] else if x == n then j else l[x + 1];
    }
    forall x, y | 0 <= x < y < |l'| ensures Before(l', x, y) {
      if x == n { assert Before(l, n + 1, y + 1); }
      else { assert Before(l, if x < n then x else x + 1, if y <= n then y else y + 1); }
    }
  }

  /** The coalescing pass: blocks of `done` are finished, `rest` is to come. */
  ghost predicate Scanning(m: Memory, head: nat, keep: map<nat, Block>, done: seq<Block>, rest: seq<Block>)
  {
    Chained(m, head, done + rest) && Ordered(done + rest) && Kept(m, done + rest, keep)
  }

  ghost predicate Pass(
    m: Memory, head: nat, l: seq<Block>, keep: map<nat, Block>, done: seq<Block>, rest: seq<Block>, current: nat)
  {
    && Scanning(m, head, keep, done, rest) && Reached(m, current, rest)
    && Coalesce(l) == done + Coalesce(rest)
  }

  lemma PassBegins(m: Memory, head: nat, l: seq<Block>, keep: map<nat, Block>)
    requires Chained(m, head, l) && Ordered(l) && Kept(m, l, keep)
    ensures Pass(m, head, l, keep, [], l, head)
  {
    assert [] + l == l;
    Arrive(m, head, [], l);
  }

  lemma PassEnds(m: Memory, head: nat, l: seq<Block>, keep: map<nat, Block>, done: seq<Block>, rest: seq<Block>, current: nat)
    requires Pass(m, head, l, keep, done, rest, current) && (current != 0 ==> m[current].FreeBlock? && m[current].next == 0)
    ensures Chained(m, head, Coalesce(l)) && HeadersOk(m, keep)
  {
  }

  /** Moving on behind a block that does not touch the next one. */
  lemma PassMovesOn(m: Memory, head: nat, l: seq<Block>, keep: map<nat, Block>, done: seq<Block>, rest: seq<Block>, current: nat)
    requires Pass(m, head, l, keep, done, rest, current) && |rest| >= 2 && rest[0].End() != rest[1].addr
    ensures Pass(m, head, l, keep, done + [rest[0]], rest[1..], rest[1].addr)
  {
    assert done + rest == (done + [rest[0]]) + rest[1..];
    Arrive(m, head, done + [rest[0]], rest[1..]);
  }

  lemma PassJoins(m: Memory, head: nat, l: seq<Block>, keep: map<nat, Block>, done: seq<Block>, rest: seq<Block>, current: nat)
    requires Pass(m, head, l, keep, done, rest, current) && |rest| >= 2 && rest[0].End() == rest[1].addr
    ensures rest[1].addr in m && m[rest[1].addr] == FreeBlock(rest[1].size, AddrAt(rest, 2))
    ensures var j := Joined(rest[0], rest[1]);
            Pass(Store(m, j.addr, FreeBlock(j.size, AddrAt(rest, 2))), head, l, keep, done, [j] + rest[2..], j.addr)
  {
    var j := Joined(rest[0], rest[1]);
    assert Node(m, done + rest, |done| + 1) && (done + rest)[|done| + 1] == rest[1];
    assert AddrAt(done + rest, |done| + 2) == AddrAt(rest, 2);
    JoinStep(m, head, keep, done, rest);
    Arrive(Store(m, j.addr, FreeBlock(j.size, AddrAt(rest, 2))), head, done, [j] + rest[2..]);
  }

  /** One join of the pass. */
  lemma JoinStep(m: Memory, head: nat, keep: map<nat, Block>, done: seq<Block>, rest: seq<Block>)
    requires Scanning(m, head, keep, done, rest)
    requires |rest| >= 2 && rest[0].End() == rest[1].addr
    ensures var j := Joined(rest[0], rest[1]);
            Scanning(Store(m, j.addr, FreeBlock(j.size, AddrAt(rest, 2))), head, keep, done, [j] + rest[2..])
  {
    var all, n := done + rest, |done|;
    var j := Joined(rest[0], rest[1]);
    var all' := done + ([j] + rest[2..]);
    var c := FreeBlock(j.size, AddrAt(rest, 2));
    assert all[n] == rest[0] && all[n + 1] == rest[1];
    forall x | 0 <= x < |all'| ensures all'[x] == if x < n then all[x] else if x == n then j else all[x + 1] {}
    JoinOrderedIn(all, n);
    assert all' == all[..n] + [j] + all[n + 2..];
    forall x: nat | x < |all'| ensures Node(Store(m, j.addr, c), all', x) { JoinedNode(m, head, all, n, all', x); }
    forall p | p in keep ensures HeaderOk(Store(m, j.addr, c), p, keep[p]) && Clear(all', keep[p]) {
      JoinClear(all, n, all', keep[p]);
      StoreKeepsHeader(m, j.addr, c, p, keep[p], rest[0]);
    }
  }

  lemma JoinedNode(m: Memory, head: nat, all: seq<Block>, n: nat, all': seq<Block>, x: nat)
    requires Chained(m, head, all) && Ordered(all) && n + 1 < |all| && x < |all'|
    requires all' == all[..n] + [Joined(all[n], all[n + 1])] + all[n + 2..]
    ensures Node(Store(m, all[n].addr, FreeBlock(all[n].size + all[n + 1].size, AddrAt(all, n + 2))), all', x)
  {
    var k := if x <= n then x else x + 1;
    assert Node(m, all, k);
    if k != n { OrderedApart(all, k, n); }
    assert AddrAt(all', x + 1) == if x + 1 <= n then AddrAt(all, x + 1) else AddrAt(all, x + 2);
  }

  lemma JoinClear(all: seq<Block>, n: nat, all': seq<Block>, x: Block)
    requires n + 1 < |all| && all[n].End() == all[n + 1].addr && Clear(all, x) && x.size > 0
    requires all' == all[..n] + [Joined(all[n], all[n + 1])] + all[n + 2..]
    ensures Clear(all', x) && Disjoint(all[n], x)
  {
    assert Disjoint(all[n], x) && Disjoint(all[n + 1], x);
    forall k | 0 <= k < |all'| ensures Disjoint(all'[k], x) {
      if k == n {
        assert all'[k] == Joined(all[n], all[n + 1]);
      } else {
        var i := if k < n then k else k + 1;
        assert all'[k] == all[i] && Disjoint(all[i], x);
      }
    }
  }

  /** A record stored inside free block i destroys no live header. */
  lemma KeepHeaders(m0: Memory, head: nat, h: Heap, lo: nat, hi: nat, m1: Memory, a: nat, c: Cell, i: nat)
    requires Sound(m0, head, h, lo, hi) && i < |h.free| && m1 == Store(m0, a, c)
    requires h.free[i].addr <= a && a + RECORD <= h.free[i].End()
    ensures HeadersOk(m1, h.live)
  {
    forall p | p in h.live ensures HeaderOk(m1, p, h.live[p]) {
      assert LiveOk(m0, h, p, lo, hi);
      StoreKeepsHeader(m0, a, c, p, h.live[p], h.free[i]);
    }
  }

  lemma DetachWhole(m: Memory, head: nat, h: Heap, lo: nat, hi: nat, i: nat, total: nat)
    requires Sound(m, head, h, lo, hi) && i < |h.free| && total <= h.free[i].size && h.free[i].size - total <= RECORD
    ensures var prev, next := PrevAt(h.free, i), AddrAt(h.free, i + 1);
            && (prev != 0 ==> prev in m) && (prev == 0 <==> i == 0)
            && Chained(Relink(m, prev, next), if prev == 0 then next else head, Carve(h.free, i, total))
            && HeadersOk(Relink(m, prev, next), h.live)
  {
    UnlinkChain(m, head, h.free, i);
    forall p | p in h.live ensures HeaderOk(m, p, h.live[p]) { assert LiveOk(m, h, p, lo, hi); }
    if i > 0 { RelinkKeepsHeaders(m, head, h, lo, hi, m, AddrAt(h.free, i + 1), i); }
  }

  lemma RecordAt(m: Memory, head: nat, h: Heap, lo: nat, hi: nat, i: nat)
    requires Sound(m, head, h, lo, hi) && i < |h.free|
    ensures var a := h.free[i].addr; a in m && m[a] == FreeBlock(h.free[i].size, AddrAt(h.free, i + 1))
  {
    assert Node(m, h.free, i);
  }

  lemma NoList(m: Memory, head: nat, h: Heap, lo: nat, hi: nat)
    requires Sound(m, head, h, lo, hi)
    ensures head == 0 ==> h.free == []
  {
  }

  lemma DetachSplit(m: Memory, head: nat, h: Heap, lo: nat, hi: nat, i: nat, total: nat)
    requires Sound(m, head, h, lo, hi) && i < |h.free| && 0 < total <= h.free[i].size && h.free[i].size - total > RECORD
    ensures var prev, a := PrevAt(h.free, i), h.free[i].addr + total;
            var m1 := Store(m, a, FreeBlock(h.free[i].size - total, AddrAt(h.free, i + 1)));
            && (prev != 0 ==> prev in m1) && (prev == 0 <==> i == 0)
            && Chained(Relink(m1, prev, a), if prev == 0 then a else head, Carve(h.free, i, total))
            && HeadersOk(Relink(m1, prev, a), h.live)
  {
    var a, c := h.free[i].addr + total, FreeBlock(h.free[i].size - total, AddrAt(h.free, i + 1));
    var m1 := Store(m, a, c);
    SplitChain(m, head, h.free, i, Block(a, h.free[i].size - total));
    KeepHeaders(m, head, h, lo, hi, m1, a, c, i);
    if i > 0 { RelinkKeepsHeaders(m, head, h, lo, hi, m1, a, i); }
  }

  /** The header of a new allocation disturbs neither the list nor another header. */
  lemma HeaderWritten(
    m0: Memory, head0: nat, h: Heap, lo: nat, hi: nat, m: Memory, head: nat, i: nat, size: nat, padding: nat, total: nat,
    ptr: nat, a: nat)
    requires Sound(m0, head0, h, lo, hi) && i < |h.free| && size > 0 && total == RECORD + padding + size <= h.free[i].size
    requires a == h.free[i].addr + padding && ptr == a + RECORD
    requires Chained(m, head, Carve(h.free, i, total)) && HeadersOk(m, h.live)
    ensures Written(h, i, total, ptr, Store(m, a, Header(size, padding)), head)
  {
    CarveKeeps(h.free, i, total, lo, hi);
    StoreKeepsChain(m, a, Header(size, padding), head, Carve(h.free, i, total), Block(h.free[i].addr, total));
    forall p | p in h.live ensures HeaderOk(Store(m, a, Header(size, padding)), p, h.live[p]) {
      assert LiveOk(m0, h, p, lo, hi);
      StoreKeepsHeader(m, a, Header(size, padding), p, h.live[p], h.free[i]);
    }
  }

  lemma RelinkKeepsHeaders(m0: Memory, head: nat, h: Heap, lo: nat, hi: nat, m1: Memory, next: nat, i: nat)
    requires Sound(m0, head, h, lo, hi) && 0 < i <= |h.free| && h.free[i - 1].addr in m1
    requires HeadersOk(m1, h.live)
    ensures HeadersOk(Relink(m1, h.free[i - 1].addr, next), h.live)
  {
    var a := h.free[i - 1].addr;
    forall p | p in h.live ensures HeaderOk(Relink(m1, a, next), p, h.live[p]) {
      assert LiveOk(m0, h, p, lo, hi);
      if a != 0 { StoreKeepsHeader(m1, a, FreeBlock(m1[a].size, next), p, h.live[p], h.free[i - 1]); }
    }
  }
}

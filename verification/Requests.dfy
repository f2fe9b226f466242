/**
 The size of a request as the allocator computes it, in 64-bit words that wrap, against the size it means; and exactly
 when the two agree.
 */
module Requests {
  import opened Words
  import opened Alignment
  import opened FreeBlocks

  const WORD: nat := 0x1_0000_0000_0000_0000

  /** The address behind a header at the start of a block. */
  function DataAddr(addr: nat): (r: U64)
  {
    Wrap64(addr + RECORD)
  }

  function WordAligned(addr: nat, alignment: U64): (r: U64)
  {
    ClearBits(Wrap64(DataAddr(addr) + alignment + (WORD - 1)), Wrap64(alignment + (WORD - 1)))
  }

  function WordPadding(addr: nat, alignment: U64): (r: U64)
  {
    Wrap64(WordAligned(addr, alignment) + (WORD - DataAddr(addr)))
  }

  function WordNeed(addr: nat, size: U64, alignment: U64): (r: U64)
  {
    Wrap64(RECORD + WordPadding(addr, alignment) + size)
  }

  predicate WordFits(b: Block, size: U64, alignment: U64)
  {
    b.size >= WordNeed(b.addr, size, alignment)
  }

  /** The first block that passes the code's test, or |l|. */
  function WordFirstFit(l: seq<Block>, size: U64, alignment: U64): (r: nat)
    ensures r <= |l|
    ensures r < |l| ==> WordFits(l[r], size, alignment)
    ensures forall i :: 0 <= i < r ==> !WordFits(l[i], size, alignment)
  {
    if l == [] then 0
    else
      var last := |l| - 1;
      var r := WordFirstFit(l[..last], size, alignment);
      if r < last || WordFits(l[last], size, alignment) then r else |l|
  }

  // ---------------------------------------------------------------------------------------------------------
  // The padding
  // ---------------------------------------------------------------------------------------------------------

  lemma WrapBy(x: nat)
    ensures x < WORD ==> Wrap64(x) == x
    ensures WORD <= x < 2 * WORD ==> Wrap64(x) == x - WORD
  {
  }

  /** A block that lies in the address space. */
  predicate InSpace(b: Block)
  {
    b.addr > 0 && b.size >= RECORD && b.End() <= WORD
  }

  lemma LowPadding(addr: nat, alignment: U64)
    requires alignment > 0 && addr + RECORD + alignment - 1 < WORD
    ensures WordAligned(addr, alignment) == AlignUp(addr + RECORD, alignment)
    ensures WordPadding(addr, alignment) == Padding(addr, alignment) < alignment
  {
    var data := addr + RECORD;
    WrapBy(data);
    WrapBy(data + alignment + (WORD - 1));
    WrapBy(alignment + (WORD - 1));
    WrapBy(AlignUp(data, alignment) + (WORD - data));
  }

  /** Where the sum wraps, a power of two rounds up to the very end of the address space. */
  lemma HighPadding(addr: nat, k: nat)
    requires Power(k) < WORD && addr + RECORD <= WORD <= addr + RECORD + Power(k) - 1
    ensures AlignUp(addr + RECORD, Power(k)) == WORD
    ensures WordPadding(addr, Power(k)) == Padding(addr, Power(k)) < Power(k)
  {
    RoundsUpToWord(addr + RECORD, k);
    if addr + RECORD == WORD { EndAligned(addr, k); } else { HighAligned(addr, k); }
    PaddingToEnd(addr, Power(k));
  }

  lemma EndAligned(addr: nat, k: nat)
    requires Power(k) < WORD && addr + RECORD == WORD
    ensures WordAligned(addr, Power(k)) == 0
  {
    WrapBy(WORD);
    WrapBy(Power(k) + (WORD - 1));
    BelowMask(Power(k) - 1, k);
  }

  lemma HighAligned(addr: nat, k: nat)
    requires Power(k) < WORD && addr + RECORD < WORD <= addr + RECORD + Power(k) - 1
    ensures WordAligned(addr, Power(k)) == 0
  {
    var a, data := Power(k), addr + RECORD;
    WrapBy(data);
    WrapBy(a + (WORD - 1));
    WrapTwice(data + a + (WORD - 1));
    BelowMask(data + a - 1 - WORD, k);
  }

  lemma PaddingToEnd(addr: nat, a: U64)
    requires addr + RECORD <= WORD <= addr + RECORD + a - 1
    requires WordAligned(addr, a) == 0 && AlignUp(addr + RECORD, a) == WORD
    ensures WordPadding(addr, a) == Padding(addr, a) < a
  {
    WrapBy(addr + RECORD);
    WrapBy(WORD - (addr + RECORD));
    WrapBy(WORD);
  }

  lemma WrapTwice(x: nat)
    requires 2 * WORD <= x < 3 * WORD
    ensures Wrap64(x) == x - 2 * WORD
  {
  }

  lemma RoundsUpToWord(data: nat, k: nat)
    requires Power(k) < WORD && data <= WORD <= data + Power(k) - 1
    ensures AlignUp(data, Power(k)) == WORD
  {
    var a := Power(k);
    var q := MaskRoundsDown(data + a - 1, k);
    var w := WordIsMultiple(k);
    if q < w { LessMultiple(q, w, a); } else if w < q { LessMultiple(w, q, a); }
  }

  lemma WordIsMultiple(k: nat) returns (w: nat)
    requires Power(k) < WORD
    ensures Multiple(w, Power(k)) == WORD
  {
    PowerOfWord();
    PowerBelow(k, 64);
    w := PowerMultiple(k, 64);
  }

  /** For a power of two the padding is always the exact one. */
  lemma PowerPadding(addr: nat, alignment: U64)
    requires IsPower(alignment) && addr + RECORD <= WORD
    ensures WordPadding(addr, alignment) == Padding(addr, alignment) < alignment
  {
    var k: nat :| Power(k) == alignment;
    if addr + RECORD + alignment - 1 < WORD {
      LowPadding(addr, alignment);
    } else {
      HighPadding(addr, k);
    }
  }

  // ---------------------------------------------------------------------------------------------------------
  // When the code's test is the exact one
  // ---------------------------------------------------------------------------------------------------------

  /** Header, the most padding there can be, and data fit into a word. A caller can check this. */
  predicate Modest(size: U64, alignment: U64)
  {
    alignment > 0 && RECORD + (alignment - 1) + size < WORD
  }

  /** What the allocator asks of a request: a power of two, or an alignment that no address plus it can wrap. */
  ghost predicate Regular(size: U64, alignment: U64, top: nat)
  {
    Modest(size, alignment) && (IsPower(alignment) || top + alignment <= WORD)
  }

  lemma RegularNeed(b: Block, size: U64, alignment: U64, top: nat)
    requires Regular(size, alignment, top) && InSpace(b) && b.End() <= top
    ensures WordNeed(b.addr, size, alignment) == Need(b, size, alignment)
    ensures size > 0 && Fits(b, size, alignment) ==> WordAligned(b.addr, alignment) == AlignUp(b.addr + RECORD, alignment)
  {
    if b.addr + RECORD + alignment - 1 < WORD {
      LowPadding(b.addr, alignment);
    } else {
      var k: nat :| Power(k) == alignment;
      HighPadding(b.addr, k);
    }
    WrapBy(RECORD + WordPadding(b.addr, alignment) + size);
  }

  lemma {:induction false} RegularFirstFit(l: seq<Block>, size: U64, alignment: U64, top: nat)
    requires Regular(size, alignment, top) && forall i :: 0 <= i < |l| ==> InSpace(l[i]) && l[i].End() <= top
    ensures WordFirstFit(l, size, alignment) == FirstFit(l, size, alignment)
  {
    if l != [] {
      var last := |l| - 1;
      RegularFirstFit(l[..last], size, alignment, top);
      RegularNeed(l[last], size, alignment, top);
    }
  }

  /** What a regular request takes of the first block that fits reaches from its start to the end of the data. */
  lemma RegularFit(b: Block, size: U64, alignment: U64, top: nat)
    requires Regular(size, alignment, top) && size > 0 && InSpace(b) && b.End() <= top && Fits(b, size, alignment)
    ensures var ptr := WordAligned(b.addr, alignment);
            && ptr == AlignUp(b.addr + RECORD, alignment) && b.addr + RECORD <= ptr
            && WordNeed(b.addr, size, alignment) == Need(b, size, alignment) == ptr + size - b.addr <= b.size
            && (IsPower(alignment) ==> Aligned(ptr, alignment))
  {
    RegularNeed(b, size, alignment, top);
    PowersAlign(b.addr + RECORD, alignment);
  }

  ghost predicate AgreesOn(b: Block, size: U64, alignment: U64)
    requires alignment > 0
  {
    WordFits(b, size, alignment) <==> Fits(b, size, alignment)
  }

  /** With a power of two the wrapped test is the exact one on every block there can be, if and only if the request is
      modest. */
  lemma AgreesExactlyIfModest(size: U64, alignment: U64)
    requires IsPower(alignment)
    ensures Modest(size, alignment) <==> forall b :: InSpace(b) ==> AgreesOn(b, size, alignment)
  {
    if Modest(size, alignment) {
      forall b | InSpace(b) ensures AgreesOn(b, size, alignment) { RegularNeed(b, size, alignment, WORD); }
    } else {
      var b := WrongFit(size, alignment);
    }
  }

  /** One behind a multiple the padding is as large as it gets. */
  lemma MostPadding(q: nat, k: nat)
    ensures AlignUp(Multiple(q, Power(k)) + 1, Power(k)) == Multiple(q + 1, Power(k))
  {
    var a := Power(k);
    AlignUpPower(Multiple(q, a) + 1, k);
    var j: nat :| Multiple(j, a) == AlignUp(Multiple(q, a) + 1, a);
    assert Multiple(q + 1, a) == Multiple(q, a) + a;
    if j < q { LessMultiple(j, q, a); } else if j > q + 1 { LessMultiple(q + 1, j, a); }
  }

  /** A request that is not modest wraps on some block, which the code then takes although it is too small. */
  lemma WrongFit(size: U64, alignment: U64) returns (b: Block)
    requires IsPower(alignment) && !Modest(size, alignment)
    ensures InSpace(b) && WordFits(b, size, alignment) && !Fits(b, size, alignment)
  {
    var k: nat :| Power(k) == alignment;
    var addr := WidePadding(k);
    PowerPadding(addr, alignment);
    var need := RECORD + (alignment - 1) + size;
    HalfWord(k);
    WrapBy(need);
    b := Block(addr, if need - WORD < RECORD then RECORD else need - WORD);
  }

  lemma HalfWord(k: nat)
    requires Power(k) < WORD
    ensures 2 * Power(k) <= WORD
  {
    PowerOfWord();
    PowerBelow(k, 64);
    PowerBelow(63, k);
    assert Power(64) == 2 * Power(63);
  }

  /** A low address at which the padding is one less than the alignment. */
  lemma WidePadding(k: nat) returns (addr: nat)
    requires Power(k) < WORD
    ensures addr > 0 && addr + RECORD <= WORD && Padding(addr, Power(k)) == Power(k) - 1
    ensures addr <= 16 * 8 || addr == Power(k) - 15
  {
    var a := Power(k);
    HalfWord(k);
    if a >= 16 {
      addr := a - 15;
      assert Multiple(1, a) == Multiple(0, a) + a && Multiple(2, a) == Multiple(1, a) + a;
      MostPadding(1, k);
    } else {
      addr := SixteenTimes(k);
    }
  }

  lemma SixteenTimes(k: nat) returns (addr: nat)
    requires Power(k) < 16
    ensures 0 < addr <= 16 * 8 && Padding(addr, Power(k)) == Power(k) - 1
  {
    var a := Power(k);
    PowerPlus4(0);
    PowerBelow(4, k);
    DoubleCount(1, a);
    DoubleCount(2, a);
    DoubleCount(4, a);
    DoubleCount(8, a);
    assert Multiple(1, a) == Multiple(0, a) + a && Multiple(17, a) == Multiple(16, a) + a;
    addr := 16 * a - 15;
    MostPadding(16, k);
    assert a <= 8 by {
      if k > 3 { PowerBelow(k, 4); } else { PowerBelow(3, k); assert Power(4) == 2 * Power(3); }
    }
  }

  /** Without alignment the total is off by a whole word as soon as header and size do not fit into one. */
  lemma UnalignedWraps(b: Block, size: U64)
    requires InSpace(b) && b.addr + RECORD < WORD && RECORD + size >= WORD
    ensures WordNeed(b.addr, size, 1) == RECORD + size - WORD && WordAligned(b.addr, 1) == b.addr + RECORD
    ensures !Fits(b, size, 1)
  {
    LowPadding(b.addr, 1);
    NoMask(b.addr + RECORD);
    WrapBy(RECORD + WordPadding(b.addr, 1) + size);
  }

  /** A block of 1024 bytes at 4096 cannot hold 2^64 - 16 bytes, and the code takes it: the total it computes is zero. */
  lemma HugeRequestIsGranted(l: seq<Block>, size: U64)
    requires l == [Block(4096, 1024)] && size == WORD - 16
    ensures FirstFit(l, size, 1) == |l| && WordFirstFit(l, size, 1) == 0
    ensures WordNeed(l[0].addr, size, 1) == 0 && WordAligned(l[0].addr, 1) == l[0].addr + RECORD
  {
    UnalignedWraps(l[0], size);
  }
}

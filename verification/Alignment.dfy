/**
 The bit mask by which the allocator aligns an address, and exactly when it does.
 */
module Alignment {

  // ---------------------------------------------------------------------------------------------------------
  // Multiples and powers of two
  // ---------------------------------------------------------------------------------------------------------

  /** The k-th multiple of n. */
  function Multiple(k: nat, n: nat): (r: nat)
  {
    if k == 0 then 0 else Multiple(k - 1, n) + n
  }

  ghost predicate Aligned(x: nat, alignment: nat)
  {
    exists k: nat :: Multiple(k, alignment) == x
  }

  function Power(k: nat): (r: nat)
    ensures r > 0
  {
    if k == 0 then 1 else 2 * Power(k - 1)
  }

  ghost predicate IsPower(n: nat)
  {
    exists k: nat :: Power(k) == n
  }

  lemma {:induction false} DoubleStep(k: nat, n: nat)
    ensures Multiple(k, 2 * n) == 2 * Multiple(k, n)
  {
    if k > 0 { DoubleStep(k - 1, n); }
  }

  lemma {:induction false} DoubleCount(k: nat, n: nat)
    ensures Multiple(2 * k, n) == 2 * Multiple(k, n)
  {
    if k > 0 {
      DoubleCount(k - 1, n);
      assert Multiple(2 * k - 1, n) == Multiple(2 * k - 2, n) + n;
    }
  }

  lemma {:induction false} LessMultiple(j: nat, k: nat, n: nat)
    requires j < k
    ensures Multiple(j, n) + n <= Multiple(k, n)
  {
    if j < k - 1 { LessMultiple(j, k - 1, n); }
  }

  /** Only powers of two divide a power of two. */
  lemma {:induction false} DividesPower(q: nat, n: nat, k: nat)
    requires Multiple(q, n) == Power(k)
    ensures IsPower(n)
    decreases k
  {
    if q == 1 {
      assert Multiple(1, n) == Multiple(0, n) + n;
    } else if q % 2 == 0 {
      DoubleCount(q / 2, n);
      DividesPower(q / 2, n, k - 1);
    } else {
      DoubleCount(q / 2, n);
      LessMultiple(1, q, n);
      assert Multiple(1, n) == Multiple(0, n) + n;
      DoubleStep(q, n / 2);
      DividesPower(q, n / 2, k - 1);
      var j: nat :| Power(j) == n / 2;
      assert Power(j + 1) == n;
    }
  }

  lemma {:induction false} PowerAbove(n: nat) returns (k: nat)
    ensures n < Power(k)
  {
    if n == 0 {
      k := 0;
    } else {
      var j := PowerAbove(n - 1);
      k := j + 1;
    }
  }

  lemma {:induction false} PowerMultiple(k: nat, n: nat) returns (q: nat)
    requires k <= n
    ensures Multiple(q, Power(k)) == Power(n)
  {
    if k == n {
      q := 1;
      assert Multiple(1, Power(k)) == Multiple(0, Power(k)) + Power(k);
    } else {
      var half := PowerMultiple(k, n - 1);
      q := 2 * half;
      DoubleCount(half, Power(k));
    }
  }

  lemma {:induction false} PowerBelow(k: nat, n: nat)
    ensures Power(k) < Power(n) <==> k < n
  {
    if k > 0 && n > 0 {
      PowerBelow(k - 1, n - 1);
    } else if n > 0 {
      assert Power(n) == 2 * Power(n - 1);
    }
  }

  lemma PowerPlus16(k: nat)
    ensures Power(k + 16) == 0x1_0000 * Power(k)
  {
    PowerPlus4(k);
    PowerPlus4(k + 4);
    PowerPlus4(k + 8);
    PowerPlus4(k + 12);
  }

  lemma PowerPlus4(k: nat)
    ensures Power(k + 4) == 16 * Power(k)
  {
    assert Power(k + 2) == 2 * Power(k + 1);
    assert Power(k + 4) == 2 * Power(k + 3);
  }

  lemma PowerOfWord()
    ensures Power(64) == 0x1_0000_0000_0000_0000
  {
    PowerPlus16(0);
    PowerPlus16(16);
    PowerPlus16(32);
    PowerPlus16(48);
  }

  // ---------------------------------------------------------------------------------------------------------
  // The mask
  // ---------------------------------------------------------------------------------------------------------

  /** The bits of x that are not in the mask. */
  function ClearBits(x: nat, mask: nat): (r: nat)
    ensures x - mask <= r <= x
  {
    if x == 0 then 0
    else 2 * ClearBits(x / 2, mask / 2) + if x % 2 == 1 && mask % 2 == 0 then 1 else 0
  }

  /** The masked address: never below x and less than one alignment above it. */
  function AlignUp(x: nat, alignment: nat): (r: nat)
    requires alignment > 0
    ensures r >= x && r - x < alignment
  {
    ClearBits(x + alignment - 1, alignment - 1)
  }

  lemma {:induction false} NoMask(x: nat)
    ensures ClearBits(x, 0) == x
  {
    if x > 0 { NoMask(x / 2); }
  }

  /** Clearing the lowest k bits rounds down to a multiple of the k-th power of two. */
  lemma {:induction false} MaskRoundsDown(x: nat, k: nat) returns (q: nat)
    ensures ClearBits(x, Power(k) - 1) == Multiple(q, Power(k)) && x - Multiple(q, Power(k)) < Power(k)
  {
    if x == 0 {
      q := 0;
    } else if k == 0 {
      q := x;
      NoMask(x);
      OnesAdd(x);
    } else {
      var half := Power(k - 1);
      q := MaskRoundsDown(x / 2, k - 1);
      DoubleStep(q, half);
    }
  }

  lemma {:induction false} OnesAdd(k: nat)
    ensures Multiple(k, 1) == k
  {
    if k > 0 { OnesAdd(k - 1); }
  }

  /** For a power of two the result is the least multiple that is not below x. */
  lemma AlignUpPower(x: nat, k: nat)
    ensures Aligned(AlignUp(x, Power(k)), Power(k))
    ensures forall j: nat :: Multiple(j, Power(k)) >= x ==> AlignUp(x, Power(k)) <= Multiple(j, Power(k))
  {
    var a := Power(k);
    var q := MaskRoundsDown(x + a - 1, k);
    forall j: nat | Multiple(j, a) >= x ensures Multiple(q, a) <= Multiple(j, a) {
      if j < q {
        LessMultiple(j, q, a);
      } else if q < j {
        LessMultiple(q, j, a);
      }
    }
  }

  lemma PowersAlign(x: nat, alignment: nat)
    requires alignment > 0
    ensures IsPower(alignment) ==> Aligned(AlignUp(x, alignment), alignment)
  {
    if IsPower(alignment) {
      var k: nat :| Power(k) == alignment;
      AlignUpPower(x, k);
    }
  }

  /** Bits below the mask are all cleared. */
  lemma {:induction false} BelowMask(x: nat, k: nat)
    requires x < Power(k)
    ensures ClearBits(x, Power(k) - 1) == 0
  {
    if k > 0 && x > 0 { BelowMask(x / 2, k - 1); }
  }

  /** A bit above the mask survives it. */
  lemma {:induction false} BitSurvives(k: nat, mask: nat)
    requires mask < Power(k)
    ensures ClearBits(Power(k), mask) == Power(k)
  {
    if k > 0 { BitSurvives(k - 1, mask / 2); }
  }

  /** The mask aligns every address exactly when the alignment is a power of two. */
  lemma AlignsExactlyPowers(alignment: nat)
    requires alignment > 0
    ensures IsPower(alignment) <==> forall x: nat :: Aligned(AlignUp(x, alignment), alignment)
  {
    if IsPower(alignment) {
      forall x: nat ensures Aligned(AlignUp(x, alignment), alignment) { PowersAlign(x, alignment); }
    } else {
      var k := PowerAbove(alignment - 1);
      BitSurvives(k, alignment - 1);
      var x := Power(k) - (alignment - 1);
      assert AlignUp(x, alignment) == Power(k);
      forall q: nat ensures Multiple(q, alignment) != Power(k) {
        if Multiple(q, alignment) == Power(k) { DividesPower(q, alignment, k); }
      }
    }
  }

  /** With alignment 3 a block whose data starts at 32 is used from there, which is no multiple of 3. */
  lemma ThreeDoesNotAlign()
    ensures AlignUp(32, 3) == 32 && !Aligned(32, 3)
  {
    NoMask(8);
    assert ClearBits(17, 1) == 2 * ClearBits(8, 0);
    assert ClearBits(34, 2) == 2 * ClearBits(17, 1);
    forall k: nat ensures Multiple(k, 3) != 32 { Threes(k); }
  }

  lemma {:induction false} Threes(k: nat)
    ensures Multiple(k, 3) == 3 * k
  {
    if k > 0 { Threes(k - 1); }
  }
}

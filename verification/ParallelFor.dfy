/**
 * ParallelFor: how a range of indices is cut into chunks, with the widths of
 * the source's integers written out, and what the chunks visit between them in
 * whatever order they run.
 */
module ParallelFor {
  import opened Words

  /** The indices from `lo` up to but not including `hi`. */
  datatype Range = Range(lo: U32, hi: U32)

  function Min(a: nat, b: nat): nat { if a < b then a else b }

  // --------------------------------------------------------------- the chunks

  /** The number of chunks; the sum that rounds the chunk limit up may wrap. */
  function ChunkCount(numItems: U32, grainSize: U32, numThreads: U64): (r: U32)
    ensures r <= numItems
  {
    if numThreads > 0 then
      var grain := if grainSize > 0 then grainSize else 1;
      var limit := Wrap32(numItems + grain - 1) / grain;
      LimitFits(numItems, grain);
      Min(Wrap32(numThreads), limit)
    else 0
  }

  /** Rounded up or wrapped, the limit never exceeds the number of items: no chunk is empty. */
  lemma LimitFits(numItems: U32, grain: U32)
    requires grain > 0
    ensures 0 <= Wrap32(numItems + grain - 1) / grain <= numItems
  {
    var sum := numItems + grain - 1;
    var w := Wrap32(sum);
    assert w <= sum;
    var q := w / grain;
    assert w == q * grain + w % grain;
    if q > numItems {
      Product(numItems + 1, q, grain);
      Product(1, grain, numItems);
      assert false;
    }
  }

  /** A limit that is rounded up without wrapping covers the items with no chunk to spare; one that wraps is zero. */
  lemma LimitMeaning(numItems: U32, grain: U32)
    requires grain > 0
    ensures var sum, limit := numItems + grain - 1, Wrap32(numItems + grain - 1) / grain;
            if sum < 0x1_0000_0000 then limit * grain >= numItems && limit * grain < numItems + grain
            else limit == 0
  {
    var sum := numItems + grain - 1;
    var w := Wrap32(sum);
    assert w == (w / grain) * grain + w % grain;
    if sum >= 0x1_0000_0000 {
      assert w == sum - 0x1_0000_0000 && w < grain;
      DivideUnique(w, grain, 0, w);
    }
  }

  /** Without workers there is no chunk, and never more than one per worker. When the limit does not wrap, the chunks are
      as many as the workers or enough for the items at a grain each, and one less would not be enough; when it wraps
      there is none. */
  lemma ChunkCountMeaning(numItems: U32, grainSize: U32, numThreads: U64)
    ensures var count := ChunkCount(numItems, grainSize, numThreads);
            var grain := if grainSize == 0 then 1 else grainSize;
            && (numThreads == 0 ==> count == 0) && count <= numThreads
            && (0 < numThreads < 0x1_0000_0000 && numItems + grain - 1 < 0x1_0000_0000 ==>
                  && (count == numThreads || count * grain >= numItems)
                  && (count > 0 ==> (count - 1) * grain < numItems))
            && (numItems + grain - 1 >= 0x1_0000_0000 ==> count == 0)
  {
    var count, grain := ChunkCount(numItems, grainSize, numThreads), if grainSize == 0 then 1 else grainSize;
    LimitMeaning(numItems, grain);
    if 0 < numThreads < 0x1_0000_0000 && numItems + grain - 1 < 0x1_0000_0000 {
      NotOneTooMany(numItems, grain, Wrap32(numItems + grain - 1) / grain, count);
    }
  }

  lemma NotOneTooMany(numItems: nat, grain: nat, limit: nat, count: nat)
    requires count <= limit && limit * grain < numItems + grain
    ensures count > 0 ==> (count - 1) * grain < numItems
  {
    if count > 0 {
      Product(count - 1, limit - 1, grain);
      OneLess(limit, grain);
    }
  }

  lemma OneLess(a: nat, b: nat)
    requires a > 0
    ensures (a - 1) * b == a * b - b
  {
  }

  lemma Product(a: nat, b: nat, c: nat)
    requires a <= b
    ensures a * c <= b * c
  {
    assert (b - a) * c >= 0;
  }

  lemma DivideUnique(a: nat, d: nat, q: nat, r: nat)
    requires d > 0 && a == q * d + r && r < d
    ensures a / d == q
  {
    var q', r' := a / d, a % d;
    assert a == q' * d + r' && 0 <= r' < d;
    if q' < q {
      Product(q' + 1, q, d);
    } else if q' > q {
      Product(q + 1, q', d);
    }
  }

  function Times(a: nat, b: nat): nat {
    if b == 0 then 0 else Times(a, b - 1) + a
  }

  function Quotient(a: nat, d: nat): nat
    requires d > 0
  {
    if a < d then 0 else 1 + Quotient(a - d, d)
  }

  lemma {:induction false} TimesIs(a: nat, b: nat)
    ensures Times(a, b) == a * b
  {
    if b > 0 {
      TimesIs(a, b - 1);
      assert a * b == a * (b - 1) + a;
    }
  }

  lemma {:induction false} QuotientIs(a: nat, d: nat)
    requires d > 0
    ensures Quotient(a, d) == a / d
  {
    if a < d {
      DivideUnique(a, d, 0, a);
    } else {
      QuotientIs(a - d, d);
      var q, r := (a - d) / d, (a - d) % d;
      assert a == (q + 1) * d + r;
      DivideUnique(a, d, q + 1, r);
    }
  }

  /** Where chunk `k` of `c` begins, counted from the start of `n` items: the product divided by `c`. */
  function Bound(n: nat, c: nat, k: nat): nat
    requires c > 0
  {
    Quotient(Times(n, k), c)
  }

  lemma {:induction false} QuotientOfSum(a: nat, b: nat, d: nat)
    requires d > 0
    ensures 0 <= Quotient(a + b, d) - Quotient(a, d) - Quotient(b, d) <= 1
    decreases a + b
  {
    if a >= d {
      QuotientOfSum(a - d, b, d);
    } else if b >= d {
      QuotientOfSum(a, b - d, d);
    }
  }

  /** One chunk has the quotient of items, or one more. */
  lemma BoundStep(n: nat, c: nat, k: nat)
    requires c > 0
    ensures 0 <= Bound(n, c, k + 1) - Bound(n, c, k) - Quotient(n, c) <= 1
  {
    QuotientOfSum(Times(n, k), n, c);
    assert Times(n, k + 1) == Times(n, k) + n;
  }

  lemma BoundEnds(n: nat, c: nat)
    requires c > 0
    ensures Bound(n, c, 0) == 0 && Bound(n, c, c) == n
  {
    TimesIs(n, c);
    QuotientIs(n * c, c);
    DivideUnique(n * c, c, n, 0);
  }

  lemma {:induction false} BoundMonotone(n: nat, c: nat, k: nat, l: nat)
    requires c > 0 && k <= l
    ensures Bound(n, c, k) <= Bound(n, c, l)
    decreases l - k
  {
    if k < l {
      BoundStep(n, c, k);
      BoundMonotone(n, c, k + 1, l);
    }
  }

  // ------------------------------------------------------- an exact partition

  /** The bound of chunk k is the product of items and k over the chunks, rounded down. */
  lemma BoundMeaning(n: nat, c: nat, k: nat)
    requires c > 0
    ensures Bound(n, c, k) * c <= n * k < Bound(n, c, k) * c + c
  {
    TimesIs(n, k);
    QuotientIs(n * k, c);
    var q, r := n * k / c, n * k % c;
    assert n * k == q * c + r && r < c;
  }

  /** The chunks follow one another from `lo` to `hi`. */
  predicate Tiles(chunks: seq<Range>, lo: int, hi: int) {
    if chunks == [] then lo == hi
    else
      var last := chunks[|chunks| - 1];
      last.hi == hi && last.lo <= hi && Tiles(chunks[..|chunks| - 1], lo, last.lo)
  }

  predicate Sized(chunks: seq<Range>, size: nat) {
    forall i :: 0 <= i < |chunks| ==> size <= chunks[i].hi - chunks[i].lo <= size + 1
  }

  /** No chunk is empty, and no two differ by more than one index. */
  predicate Even(chunks: seq<Range>) {
    && (forall i :: 0 <= i < |chunks| ==> chunks[i].lo < chunks[i].hi)
    && (forall i, j :: 0 <= i < |chunks| && 0 <= j < |chunks| ==>
          chunks[i].hi - chunks[i].lo <= chunks[j].hi - chunks[j].lo + 1)
  }

  /** A chunk's bound as the source computes it: neither the product nor the sum leaves its width. */
  method ChunkBound(begin: U32, numItems: U32, numChunks: U32, chunk: U32) returns (r: U32)
    requires 0 < numChunks && chunk <= numChunks && begin + numItems < 0x1_0000_0000
    ensures r == begin + Bound(numItems, numChunks, chunk) <= begin + numItems
  {
    BoundFits(numItems, numChunks, chunk);
    BoundComputed(numItems, numChunks, chunk);
    var quotient := Wrap64(numItems * chunk) / numChunks;
    r := WrappedSum(begin, quotient);
  }

  lemma BoundFits(n: nat, c: nat, k: nat)
    requires c > 0 && k <= c
    ensures Bound(n, c, k) <= n
  {
    BoundMonotone(n, c, k, c);
    BoundEnds(n, c);
  }

  /** A sum that fits does not wrap. */
  function WrappedSum(a: U32, b: nat): (r: U32)
    ensures a + b < 0x1_0000_0000 ==> r == a + b
  {
    Wrap32(a + Wrap32(b))
  }

  lemma BoundComputed(n: U32, c: U32, k: U32)
    requires c > 0
    ensures Wrap64(n * k) / c == Bound(n, c, k)
  {
    ProductFits(n, k);
    TimesIs(n, k);
    QuotientIs(n * k, c);
  }

  lemma ProductFits(n: U32, k: U32)
    ensures n * k < 0x1_0000_0000_0000_0000
  {
    Product(n, 0xFFFF_FFFF, k);
  }

  lemma {:induction false} QuotientPositive(n: nat, c: nat)
    requires 0 < c <= n
    ensures Quotient(n, c) >= 1
  {
  }

  /** The loop that submits the jobs of a range that is cut. */
  method SubmitChunks(begin: U32, numItems: U32, numChunks: U32) returns (chunks: seq<Range>)
    requires 0 < numChunks <= numItems && begin + numItems < 0x1_0000_0000
    ensures |chunks| == numChunks
    ensures Tiles(chunks, begin, begin + numItems)
    ensures Even(chunks)
  {
    chunks := [];
    BoundEnds(numItems, numChunks);
    ghost var size := Quotient(numItems, numChunks);
    for chunk := 0 to numChunks
      invariant |chunks| == chunk
      invariant Tiles(chunks, begin, begin + Bound(numItems, numChunks, chunk))
      invariant Sized(chunks, size)
    {
      BoundStep(numItems, numChunks, chunk);
      var chunkBegin := ChunkBound(begin, numItems, numChunks, chunk);
      var chunkEnd := ChunkBound(begin, numItems, numChunks, Wrap32(chunk + 1));
      assert (chunks + [Range(chunkBegin, chunkEnd)])[..chunk] == chunks;
      chunks := chunks + [Range(chunkBegin, chunkEnd)];
    }
    QuotientPositive(numItems, numChunks);
  }

  // ------------------------------------------------------- what gets visited

  function In(x: int, lo: int, hi: int): nat { if lo <= x < hi then 1 else 0 }

  /** How often jobs that run one after another in this order visit an index. */
  function Visits(jobs: seq<Range>, x: int): nat {
    if jobs == [] then 0
    else Visits(jobs[..|jobs| - 1], x) + In(x, jobs[|jobs| - 1].lo, jobs[|jobs| - 1].hi)
  }

  lemma {:induction false} TilesVisitOnce(chunks: seq<Range>, lo: int, hi: int, x: int)
    requires Tiles(chunks, lo, hi)
    ensures lo <= hi && Visits(chunks, x) == In(x, lo, hi)
  {
    if chunks != [] {
      TilesVisitOnce(chunks[..|chunks| - 1], lo, chunks[|chunks| - 1].lo, x);
    }
  }

  lemma {:induction false} VisitsJoin(a: seq<Range>, b: seq<Range>, x: int)
    ensures Visits(a + b, x) == Visits(a, x) + Visits(b, x)
  {
    if b == [] {
      assert a + b == a;
    } else {
      VisitsJoin(a, b[..|b| - 1], x);
      assert (a + b)[..|a + b| - 1] == a + b[..|b| - 1];
    }
  }

  lemma VisitsWithout(jobs: seq<Range>, k: nat, x: int)
    requires k < |jobs|
    ensures Visits(jobs, x) == Visits(jobs[..k] + jobs[k + 1..], x) + In(x, jobs[k].lo, jobs[k].hi)
  {
    var front, back := jobs[..k], jobs[k + 1..];
    assert jobs == jobs[..k + 1] + back && jobs[..k + 1][..k] == front;
    VisitsJoin(jobs[..k + 1], back, x);
    VisitsJoin(front, back, x);
  }

  lemma TakeOut(jobs: seq<Range>, k: nat)
    requires k < |jobs|
    ensures multiset(jobs[..k] + jobs[k + 1..]) == multiset(jobs) - multiset{jobs[k]}
  {
    assert jobs == jobs[..k] + [jobs[k]] + jobs[k + 1..];
  }

  /** The order in which jobs run does not matter. */
  lemma {:induction false} VisitsAnyOrder(a: seq<Range>, b: seq<Range>, x: int)
    requires multiset(a) == multiset(b)
    ensures Visits(a, x) == Visits(b, x)
    decreases |a|
  {
    if a == [] {
      assert |multiset(b)| == 0;
      assert b == [];
    } else {
      var n := |a| - 1;
      assert a[n] in multiset(b);
      var k: nat :| k < |b| && b[k] == a[n];
      VisitsWithout(b, k, x);
      TakeOut(a, n);
      TakeOut(b, k);
      assert a[..n] + a[n + 1..] == a[..n];
      VisitsAnyOrder(a[..n], b[..k] + b[k + 1..], x);
    }
  }

  /**
   * ParallelFor. It submits `jobs`, or visits the range itself; whatever order
   * the jobs then run in, and whichever of them a cancellation skips, each
   * index is visited once or is in one skipped job (see VisitedOrSkipped).
   */
  method ParallelFor(begin: U32, end: U32, grainSize: U32, numThreads: U64)
    returns (jobs: seq<Range>, visited: seq<int>)
    ensures forall x :: multiset(visited)[x] + Visits(jobs, x) == In(x, begin, end)
    ensures jobs != [] ==> visited == [] && begin < end && Tiles(jobs, begin, end) && Even(jobs)
    ensures var count := ChunkCount(if end > begin then end - begin else 0, grainSize, numThreads);
            |jobs| == if count > 1 then count else 0
  {
    jobs, visited := [], [];
    var numItems: U32 := if end > begin then end - begin else 0;
    var numChunks := ChunkCount(numItems, grainSize, numThreads);
    if numChunks > 1 {
      jobs := SubmitChunks(begin, numItems, numChunks);
      forall x ensures Visits(jobs, x) == In(x, begin, end) {
        TilesVisitOnce(jobs, begin, end, x);
      }
    } else {
      visited := VisitSerially(begin, end);
    }
  }

  method VisitSerially(begin: U32, end: U32) returns (visited: seq<int>)
    ensures forall x :: multiset(visited)[x] == In(x, begin, end)
  {
    visited := [];
    var index: U32 := begin;
    while index < end
      invariant index == begin || begin <= index <= end
      invariant forall x :: multiset(visited)[x] == In(x, begin, index)
    {
      visited := visited + [index];
      index := Wrap32(index + 1);
    }
  }

  /** Split the jobs into those that run, in any order, and those that are skipped: no index is lost or visited twice. */
  lemma VisitedOrSkipped(chunks: seq<Range>, run: seq<Range>, skipped: seq<Range>, lo: int, hi: int, x: int)
    requires Tiles(chunks, lo, hi) && multiset(chunks) == multiset(run) + multiset(skipped)
    ensures Visits(run, x) + Visits(skipped, x) == In(x, lo, hi)
  {
    TilesVisitOnce(chunks, lo, hi, x);
    VisitsAnyOrder(chunks, run + skipped, x);
    VisitsJoin(run, skipped, x);
  }
}

/**
 Index arithmetic shared by every circular queue (`ProcessingQueue`, `ReaderWriterQueue`).

 Entries carry an unbounded sequence number; the ring stores entry number `n` in slot
 `Slot(n, base, size)`, where `base` is a number whose slot is 0.  The code itself only ever
 sees slots.  The lemmas below say when the slot comparisons the code makes agree with
 comparisons of sequence numbers.
 */
module RingIndex {
  const INT_MAX: int := 0x7FFF_FFFF
  const UINT_MAX: int := 0xFFFF_FFFF
  const MAX_QUEUE_BYTES: int := 500 * 1024 * 1024

  function NextIndex(index: nat, size: nat): (next: nat)
    requires size > 0
    ensures next < size
  {
    (index + 1) % size
  }

  /** Readies an index for comparison, taking `readIndex` as the base of the ring. */
  function AdjustIndex(index: int, readIndex: int, size: int): (adjusted: int)
    ensures 0 <= index < size && 0 <= readIndex < size ==> readIndex <= adjusted < readIndex + size
  {
    if index < readIndex then index + size else index
  }

  function Slot(n: int, base: int, size: nat): (slot: nat)
    requires size > 0
    ensures slot < size
  {
    (n - base) % size
  }

  /** How many times the ring has been gone around when entry `n` is reached. */
  function Lap(n: int, base: int, size: nat): int
    requires size > 0
  {
    (n - base) / size
  }

  lemma MultipleAtLeast(a: int, b: int, m: nat)
    requires a > b
    ensures a * m >= b * m + m
  {
    var d := a - b - 1;
    assert d * m >= 0;
    assert (b + 1 + d) * m == b * m + m + d * m;
  }

  lemma DivModUnique(x: int, q: int, r: int, m: int)
    requires 0 <= r < m && x == q * m + r
    ensures x / m == q && x % m == r
  {
    var q', r' := x / m, x % m;
    assert x == q' * m + r';
    if q > q' {
      MultipleAtLeast(q, q', m);
    } else if q < q' {
      MultipleAtLeast(q', q, m);
    }
  }

  /** Walking `m - n` slots forward from the slot of `n` wraps at most once. */
  lemma SlotAhead(n: int, m: int, base: int, size: nat)
    requires n <= m < n + size
    ensures Slot(n, base, size) + (m - n) < size ==>
              Slot(m, base, size) == Slot(n, base, size) + (m - n) && Lap(m, base, size) == Lap(n, base, size)
    ensures Slot(n, base, size) + (m - n) >= size ==>
              && Slot(m, base, size) == Slot(n, base, size) + (m - n) - size
              && Lap(m, base, size) == Lap(n, base, size) + 1
  {
    var s, q := Slot(n, base, size), Lap(n, base, size);
    assert n - base == q * size + s;
    var d := s + (m - n);
    if d < size {
      DivModUnique(m - base, q, d, size);
    } else {
      assert (q + 1) * size == q * size + size;
      DivModUnique(m - base, q + 1, d - size, size);
    }
  }

  lemma SlotNext(n: int, base: int, size: nat)
    requires size >= 2
    ensures NextIndex(Slot(n, base, size), size) == Slot(n + 1, base, size)
  {
    SlotAhead(n, n + 1, base, size);
    var s := Slot(n, base, size);
    if s + 1 < size {
      DivModUnique(s + 1, 0, s + 1, size);
    } else {
      DivModUnique(s + 1, 1, 0, size);
    }
  }

  /** Relative to the slot of `n`, the adjusted slot of `m` is the distance walked. */
  lemma AdjustedSlot(n: int, m: int, base: int, size: nat)
    requires n <= m < n + size
    ensures AdjustIndex(Slot(m, base, size), Slot(n, base, size), size) == Slot(n, base, size) + (m - n)
  {
    SlotAhead(n, m, base, size);
  }

  lemma SlotInjective(n: int, m: int, base: int, size: nat)
    requires n < m < n + size
    ensures Slot(n, base, size) != Slot(m, base, size)
  {
    SlotAhead(n, m, base, size);
  }

  /** Numbers a whole ring apart share a slot. */
  lemma SlotPeriod(n: int, base: int, size: nat)
    requires size > 0
    ensures Slot(n + size, base, size) == Slot(n, base, size)
  {
    var s, q := Slot(n, base, size), Lap(n, base, size);
    assert (q + 1) * size == q * size + size;
    DivModUnique(n + size - base, q + 1, s, size);
  }

  // ----- The emptiness test of `SyncQueue` -----

  /** The test of `SyncQueue::isEmpty`, which reads `readIndex` once for each operand. */
  predicate EmptyTest(writeIndex: int, readForWrite: int, index: int, readForReader: int, size: int) {
    AdjustIndex(writeIndex, readForWrite, size) <= AdjustIndex(index, readForReader, size)
  }

  /** Against one snapshot of `readIndex`, the slot test is the comparison of sequence numbers. */
  lemma EmptyTestExact(w: int, p: int, r: int, base: int, size: nat)
    requires r <= w < r + size && r <= p < r + size
    ensures EmptyTest(Slot(w, base, size), Slot(r, base, size), Slot(p, base, size), Slot(r, base, size), size)
            <==> w <= p
  {
    AdjustedSlot(r, w, base, size);
    AdjustedSlot(r, p, base, size);
  }

  /** The adjusted slot of any number within one ring of `r`, on either side of it. */
  lemma AdjustedByLap(n: int, r: int, base: int, size: nat)
    requires r - size < n < r + size
    ensures AdjustIndex(Slot(n, base, size), Slot(r, base, size), size)
            == (if r <= n then n else n + size) - base - size * Lap(r, base, size)
  {
    assert r - base == size * Lap(r, base, size) + Slot(r, base, size);
    if r <= n {
      AdjustedSlot(r, n, base, size);
    } else {
      SlotPeriod(n, base, size);
      AdjustedSlot(r, n + size, base, size);
    }
  }

  /**
   The two reads are not one snapshot: `r1` is the number behind the `readIndex` used for the
   write index `w`, `r2` the one used for the reader's own number `p`.  Read in that order,
   other readers may have advanced `readIndex` in between (`r1 <= r2`), or past the `w` already read.
   The test then gives the right answer exactly when the entry really is published, or when
   `readIndex` neither passed `w` nor went around the end of the ring.
   */
  lemma TornEmptyTestWriteFirst(w: int, p: int, r1: int, r2: int, base: int, size: nat)
    requires r1 <= r2 <= p < w + size && p < r1 + size && w < r1 + size
    ensures (EmptyTest(Slot(w, base, size), Slot(r1, base, size), Slot(p, base, size), Slot(r2, base, size), size)
             <==> w <= p)
            <==>
            (p < w || (r1 <= w && Lap(r1, base, size) == Lap(r2, base, size)))
  {
    AdjustedByLap(w, r1, base, size);
    AdjustedByLap(p, r2, base, size);
    SlotAhead(r1, r2, base, size);
    if Lap(r1, base, size) != Lap(r2, base, size) {
      LapAfter(Lap(r1, base, size), size);
    }
  }

  /**
   The same with `readIndex` read first for the reader's operand, which C++ also allows, and the write index read
   before or after that: `readIndex` may have passed the `w` read at any of the two reads.
   */
  lemma TornEmptyTestReaderFirst(w: int, p: int, r1: int, r2: int, base: int, size: nat)
    requires r2 <= r1 <= p < w + size && p < r2 + size && w < r1 + size
    ensures (EmptyTest(Slot(w, base, size), Slot(r1, base, size), Slot(p, base, size), Slot(r2, base, size), size)
             <==> w <= p)
            <==>
            (if r1 <= w then w <= p || Lap(r1, base, size) == Lap(r2, base, size)
             else Lap(r1, base, size) != Lap(r2, base, size))
  {
    AdjustedByLap(w, r1, base, size);
    AdjustedByLap(p, r2, base, size);
    SlotAhead(r2, r1, base, size);
    if Lap(r1, base, size) != Lap(r2, base, size) {
      LapAfter(Lap(r2, base, size), size);
    }
  }

  lemma LapAfter(lap: int, size: nat)
    ensures size * (lap + 1) == size * lap + size
  {
  }

  /**
   A failing interleaving: in a ring of 3 a reader waits for entry 3 while nothing beyond
   entry 2 has been published.  `readIndex` moves from entry 2 to entry 3 between the two reads,
   and the test reports the unpublished slot 0 as populated.
   */
  lemma TornEmptyTestFails()
    ensures var w, p, r1, r2 := 3, 3, 2, 3;
            w <= p && !EmptyTest(Slot(w, 0, 3), Slot(r1, 0, 3), Slot(p, 0, 3), Slot(r2, 0, 3), 3)
  {
  }

  /** With the write index read first, the test never hides a published entry. */
  lemma WriteFirstNeverHides(w: int, p: int, r1: int, r2: int, base: int, size: nat)
    requires r1 <= r2 <= p < w < r1 + size
    ensures !EmptyTest(Slot(w, base, size), Slot(r1, base, size), Slot(p, base, size), Slot(r2, base, size), size)
  {
    TornEmptyTestWriteFirst(w, p, r1, r2, base, size);
  }

  /** In the other order it does, exactly when `readIndex` went around the end of the ring between the reads. */
  lemma ReaderFirstHidesExactly(w: int, p: int, r1: int, r2: int, base: int, size: nat)
    requires r2 <= r1 <= p < w < r2 + size
    ensures EmptyTest(Slot(w, base, size), Slot(r1, base, size), Slot(p, base, size), Slot(r2, base, size), size)
            <==> Lap(r1, base, size) != Lap(r2, base, size)
  {
    TornEmptyTestReaderFirst(w, p, r1, r2, base, size);
  }

  /**
   In a ring of 3 a reader waits for entry 4, which is the newest of five.  `readIndex` moves from entry 2 to
   entry 3 between the reads, and the published entry is reported missing.
   */
  lemma TornTestHidesEntry()
    ensures var w, p, r1, r2 := 5, 4, 3, 2;
            p < w && EmptyTest(Slot(w, 0, 3), Slot(r1, 0, 3), Slot(p, 0, 3), Slot(r2, 0, 3), 3)
  {
  }

  // ----- Growth of the ring -----

  function MaxQueueSize(entrySize: nat): (max: nat)
    requires entrySize > 0
    ensures max * entrySize <= MAX_QUEUE_BYTES < (max + 1) * entrySize
  {
    MAX_QUEUE_BYTES / entrySize
  }

  /** `ProcessingQueue::getNewQueueSize`, on an unsigned 32-bit size. */
  function GetNewQueueSize(size: nat, entrySize: nat): (newSize: nat)
    requires entrySize > 0 && size <= UINT_MAX
    ensures newSize <= MaxQueueSize(entrySize)
    ensures newSize == MaxQueueSize(entrySize) || newSize == 2 * size
  {
    var doubled := if size >= UINT_MAX / 2 then UINT_MAX else size * 2;
    if doubled > MaxQueueSize(entrySize) then MaxQueueSize(entrySize) else doubled
  }

  lemma MaxQueueSizeBound(entrySize: nat)
    requires entrySize > 0
    ensures MaxQueueSize(entrySize) <= MAX_QUEUE_BYTES
  {
    MultipleAtLeast(entrySize, 0, MaxQueueSize(entrySize));
  }

  /** The size after `resize(getNewQueueSize())`; `resize` ignores a size that is not larger. */
  function GrownSize(size: nat, entrySize: nat): (newSize: nat)
    requires entrySize > 0 && size <= UINT_MAX
    ensures size <= newSize <= UINT_MAX
  {
    MaxQueueSizeBound(entrySize);
    var newSize := GetNewQueueSize(size, entrySize);
    if size >= newSize then size else newSize
  }

  function SizeAfter(size: nat, resizes: nat, entrySize: nat): (newSize: nat)
    requires entrySize > 0 && size <= UINT_MAX
    ensures size <= newSize <= UINT_MAX
  {
    if resizes == 0 then size else GrownSize(SizeAfter(size, resizes - 1, entrySize), entrySize)
  }

  function Pow2(k: nat): (p: nat)
    ensures p >= 1
  {
    if k == 0 then 1 else 2 * Pow2(k - 1)
  }

  function Min(a: int, b: int): int {
    if a < b then a else b
  }

  /** From an initial size within the limit, `k` resizes double the ring `k` times, up to the limit. */
  lemma {:induction false} SizeAfterIsDoubling(size: nat, k: nat, entrySize: nat)
    requires entrySize > 0 && 1 <= size <= MaxQueueSize(entrySize) && size <= UINT_MAX
    ensures SizeAfter(size, k, entrySize) == Min(size * Pow2(k), MaxQueueSize(entrySize))
  {
    if k == 0 {
      assert size * Pow2(0) == size;
    } else {
      SizeAfterIsDoubling(size, k - 1, entrySize);
      GrownSizeIsDoubling(size * Pow2(k - 1), entrySize);
      DoublingStep(size, k);
    }
  }

  lemma DoublingStep(size: nat, k: nat)
    requires k > 0
    ensures size * Pow2(k) == 2 * (size * Pow2(k - 1))
  {
    var p := Pow2(k - 1);
    assert size * (2 * p) == 2 * (size * p);
  }

  lemma GrownSizeIsDoubling(size: nat, entrySize: nat)
    requires entrySize > 0 && Min(size, MaxQueueSize(entrySize)) <= UINT_MAX
    ensures GrownSize(Min(size, MaxQueueSize(entrySize)), entrySize) == Min(2 * size, MaxQueueSize(entrySize))
  {
    MaxQueueSizeBound(entrySize);
  }

  /** A ring created above the limit is never resized. */
  lemma {:induction false} OversizedRingNeverGrows(size: nat, k: nat, entrySize: nat)
    requires entrySize > 0 && MaxQueueSize(entrySize) <= size <= UINT_MAX
    ensures SizeAfter(size, k, entrySize) == size
  {
    if k > 0 {
      OversizedRingNeverGrows(size, k - 1, entrySize);
    }
  }

  lemma {:induction false} Pow2Monotone(j: nat, k: nat)
    requires j <= k
    ensures Pow2(j) <= Pow2(k)
  {
    if j < k {
      Pow2Monotone(j, k - 1);
    }
  }

  lemma Pow2Of29()
    ensures Pow2(29) > MAX_QUEUE_BYTES
  {
    assert Pow2(4) == 16;
    assert Pow2(8) == 256;
    assert Pow2(12) == 4096;
    assert Pow2(16) == 65536;
    assert Pow2(20) == 1048576;
    assert Pow2(24) == 16777216;
    assert Pow2(28) == 268435456;
  }

  /** Only the first 29 resizes of a run can change the size. */
  lemma EffectiveResizesBounded(size: nat, k: nat, entrySize: nat)
    requires entrySize > 0 && 1 <= size <= UINT_MAX
    requires SizeAfter(size, k, entrySize) < SizeAfter(size, k + 1, entrySize)
    ensures k < 29 && SizeAfter(size, k, entrySize) == size * Pow2(k)
  {
    MaxQueueSizeBound(entrySize);
    if size >= MaxQueueSize(entrySize) {
      OversizedRingNeverGrows(size, k, entrySize);
      OversizedRingNeverGrows(size, k + 1, entrySize);
      assert false;
    }
    SizeAfterIsDoubling(size, k, entrySize);
    SizeAfterIsDoubling(size, k + 1, entrySize);
    if k >= 29 {
      Pow2Monotone(29, k);
      Pow2Of29();
      MultipleAtLeast(size, 0, Pow2(k));
    }
  }

  /** After 29 resizes the size is final. */
  lemma {:induction false} SizeSettles(size: nat, k: nat, entrySize: nat)
    requires entrySize > 0 && 1 <= size <= UINT_MAX && k >= 29
    ensures SizeAfter(size, k, entrySize) == SizeAfter(size, 29, entrySize)
  {
    if k > 29 {
      SizeSettles(size, k - 1, entrySize);
      if SizeAfter(size, k - 1, entrySize) < SizeAfter(size, k, entrySize) {
        EffectiveResizesBounded(size, k - 1, entrySize);
      }
    }
  }

  /**
   Every sum the index code forms in a ring that started within the limit and was resized
   any number of times fits a signed 32-bit integer.
   */
  lemma IndexArithmeticFits(size: nat, k: nat, entrySize: nat, index: nat)
    requires entrySize > 0 && 1 <= size <= MaxQueueSize(entrySize) && size <= UINT_MAX
    requires index < SizeAfter(size, k, entrySize)
    ensures var now, later := SizeAfter(size, k, entrySize), SizeAfter(size, k + 1, entrySize);
            index + 1 <= INT_MAX && index + now <= INT_MAX && index + later <= INT_MAX
            && index + (later - now) <= INT_MAX
  {
    MaxQueueSizeBound(entrySize);
    SizeAfterIsDoubling(size, k, entrySize);
    SizeAfterIsDoubling(size, k + 1, entrySize);
  }
}

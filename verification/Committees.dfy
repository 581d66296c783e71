/** Splitting the shuffled validators of an epoch into committees. */
module Committees {
  import opened Words

  type ValidatorIndex = nat

  /** A cached epoch: its shuffled validators and the number of committees in the whole epoch. */
  datatype Epoch = Epoch(shuffled: seq<ValidatorIndex>, count: u64)

  datatype Lookup = Members(members: seq<ValidatorIndex>) | OutOfBounds

  /** The exact split point. */
  ghost function Split(n: nat, chunks: nat, i: nat): nat
    requires chunks > 0
  {
    n * i / chunks
  }

  function SplitOffset(n: u64, chunks: u64, i: u64): (r: nat)
    requires chunks > 0
  {
    MulWrap(n, i) / chunks
  }

  function PerSlot(e: Epoch, slotsPerEpoch: u64): nat
    requires slotsPerEpoch > 0
  {
    if e.count / slotsPerEpoch > 1 then e.count / slotsPerEpoch else 1
  }

  /** The committee of a slot and index, from the cached epoch. */
  function Committee(e: Epoch, slot: u64, slotsPerEpoch: u64, index: u64): Lookup
    requires slotsPerEpoch > 0 && |e.shuffled| < U64_LIMIT
  {
    var perSlot := PerSlot(e, slotsPerEpoch);
    if index >= perSlot then OutOfBounds
    else
      var offset := index + slot % slotsPerEpoch * perSlot;
      if offset >= e.count then OutOfBounds
      else
        var start, end := SplitOffset(|e.shuffled|, e.count, offset), SplitOffset(|e.shuffled|, e.count, offset + 1);
        if end > |e.shuffled| || end < start then OutOfBounds else Members(e.shuffled[start..end])
  }

  // --- split points ---

  lemma DivisionBounds(a: nat, c: nat)
    requires c > 0
    ensures a / c * c <= a < a / c * c + c
  {
  }

  lemma QuotientIs(a: nat, c: nat, q: nat)
    requires q * c <= a < q * c + c
    ensures a / c == q
  {
    DivisionBounds(a, c);
    var d := a / c;
    if d < q {
      assert (d + 1) * c <= q * c by { Scale(d + 1, q, c); }
    } else if d > q {
      assert (q + 1) * c <= d * c by { Scale(q + 1, d, c); }
    }
  }

  lemma Scale(a: nat, b: nat, c: nat)
    requires a <= b
    ensures a * c <= b * c
  {
  }

  /** Dividing a sum differs from the sum of the quotients by at most one. */
  lemma DivideSum(a: nat, b: nat, c: nat)
    requires c > 0
    ensures a / c + b / c <= (a + b) / c <= a / c + b / c + 1
  {
    DivisionBounds(a, c);
    DivisionBounds(b, c);
    SumOfQuotients(a, b, c, a / c, b / c);
  }

  lemma SumOfQuotients(a: nat, b: nat, c: nat, x: nat, y: nat)
    requires x * c <= a < x * c + c && y * c <= b < y * c + c
    ensures (a + b) / c == x + y || (a + b) / c == x + y + 1
  {
    assert (x + y) * c == x * c + y * c;
    assert (x + y + 1) * c == (x + y) * c + c;
    if a + b < (x + y) * c + c {
      QuotientIs(a + b, c, x + y);
    } else {
      QuotientIs(a + b, c, x + y + 1);
    }
  }

  /** The first split point is 0, the last is the whole length, and neighbours are a quotient or one more apart. */
  lemma SplitShape(n: nat, chunks: nat, i: nat)
    requires chunks > 0
    ensures Split(n, chunks, 0) == 0 && Split(n, chunks, chunks) == n
    ensures n / chunks <= Split(n, chunks, i + 1) - Split(n, chunks, i) <= n / chunks + 1
  {
    assert n * 0 == 0;
    QuotientIs(n * chunks, chunks, n);
    QuotientIs(0, chunks, 0);
    assert n * (i + 1) == n * i + n;
    DivideSum(n * i, n, chunks);
  }

  lemma {:induction false} SplitIsMonotone(n: nat, chunks: nat, i: nat, j: nat)
    requires chunks > 0 && i <= j
    ensures Split(n, chunks, i) <= Split(n, chunks, j)
    decreases j - i
  {
    hide Split;
    if i < j {
      SplitShape(n, chunks, i);
      SplitIsMonotone(n, chunks, i + 1, j);
    }
  }

  // --- wrap-around ---

  lemma MulWrapFits(a: u64, b: u64)
    requires a * b < U64_LIMIT
    ensures MulWrap(a, b) == a * b
  {
    var p: nat := a * b;
    FitsUnchanged(p);
  }

  lemma FitsUnchanged(p: nat)
    requires p < U64_LIMIT
    ensures p % U64_LIMIT == p
  {
  }

  /** A product that does not fit is too small by at least 2^64, so its quotient is too small. */
  lemma MulWrapFallsShort(a: u64, b: u64, c: u64)
    requires a * b >= U64_LIMIT && c > 0
    ensures MulWrap(a, b) / c < a * b / c
  {
    WrapGap(a * b);
    QuotientBelow(MulWrap(a, b), a * b, c);
  }

  lemma WrapGap(p: nat)
    requires p >= U64_LIMIT
    ensures p % U64_LIMIT + U64_LIMIT <= p
  {
  }

  lemma QuotientBelow(w: nat, p: nat, c: nat)
    requires c > 0 && w + c <= p
    ensures w / c < p / c
  {
    DivisionBounds(w, c);
    DivisionBounds(p, c);
    Apart(w, p, c, w / c, p / c);
  }

  lemma Apart(w: nat, p: nat, c: nat, x: nat, y: nat)
    requires w + c <= p && x * c <= w && p < y * c + c
    ensures x < y
  {
    if x >= y {
      Scale(y, x, c);
    }
  }

  /** The computed positions are the exact ones if and only if the larger product fits in 64 bits. */
  lemma PositionsExactIff(n: u64, chunks: u64, offset: u64)
    requires offset < chunks
    ensures SplitOffset(n, chunks, offset) == Split(n, chunks, offset)
         && SplitOffset(n, chunks, offset + 1) == Split(n, chunks, offset + 1)
         <==> n * (offset + 1) < U64_LIMIT
  {
    assert n * (offset + 1) == n * offset + n;
    if n * (offset + 1) < U64_LIMIT {
      MulWrapFits(n, offset);
      MulWrapFits(n, offset + 1);
    } else {
      MulWrapFallsShort(n, offset + 1, chunks);
    }
  }

  /** Committees per slot: an even share of the epoch's, and at least one. */
  ghost function Share(count: nat, slots: nat): nat
    requires slots > 0
  {
    if count < slots then 1 else count / slots
  }

  /**
   * The lookup in any epoch: refused for an index that is not below the slot's
   * share, and for an offset that is not below the epoch's count; otherwise,
   * while the product fits, exactly the validators between two neighbouring
   * split points.
   */
  lemma CommitteeExact(e: Epoch, slot: u64, slotsPerEpoch: u64, index: u64)
    requires slotsPerEpoch > 0 && |e.shuffled| < U64_LIMIT
    ensures var o := index + slot % slotsPerEpoch * Share(e.count, slotsPerEpoch);
      && (index >= Share(e.count, slotsPerEpoch) || o >= e.count ==> Committee(e, slot, slotsPerEpoch, index) == OutOfBounds)
      && (index < Share(e.count, slotsPerEpoch) && o < e.count && |e.shuffled| * (o + 1) < U64_LIMIT ==>
            && Split(|e.shuffled|, e.count, o) <= Split(|e.shuffled|, e.count, o + 1) <= |e.shuffled|
            && Committee(e, slot, slotsPerEpoch, index)
               == Members(e.shuffled[Split(|e.shuffled|, e.count, o)..Split(|e.shuffled|, e.count, o + 1)]))
  {
    hide *;
    ShareIsPerSlot(e, slotsPerEpoch);
    var o := index + slot % slotsPerEpoch * Share(e.count, slotsPerEpoch);
    LookupAt(e, slot, slotsPerEpoch, index, o);
    if o < e.count {
      FittingSlice(|e.shuffled|, e.count, o);
    }
  }

  lemma LookupAt(e: Epoch, slot: u64, slotsPerEpoch: u64, index: u64, o: nat)
    requires slotsPerEpoch > 0 && |e.shuffled| < U64_LIMIT && o == index + slot % slotsPerEpoch * PerSlot(e, slotsPerEpoch)
    ensures index >= PerSlot(e, slotsPerEpoch) || o >= e.count ==> Committee(e, slot, slotsPerEpoch, index) == OutOfBounds
    ensures index < PerSlot(e, slotsPerEpoch) && o < e.count ==>
      var start, end := SplitOffset(|e.shuffled|, e.count, o), SplitOffset(|e.shuffled|, e.count, o + 1);
      Committee(e, slot, slotsPerEpoch, index) == if end > |e.shuffled| || end < start then OutOfBounds else Members(e.shuffled[start..end])
  {
    hide SplitOffset, PerSlot;
  }

  lemma FittingSlice(n: u64, count: u64, o: nat)
    requires o < count
    ensures n * (o + 1) < U64_LIMIT ==>
      && SplitOffset(n, count, o) == Split(n, count, o) && SplitOffset(n, count, o + 1) == Split(n, count, o + 1)
      && Split(n, count, o) <= Split(n, count, o + 1) <= n
  {
    hide Split, SplitOffset;
    PositionsExactIff(n, count, o);
    SplitShape(n, count, o);
    SplitIsMonotone(n, count, o + 1, count);
  }

  lemma ShareIsPerSlot(e: Epoch, slotsPerEpoch: u64)
    requires slotsPerEpoch > 0
    ensures Share(e.count, slotsPerEpoch) == PerSlot(e, slotsPerEpoch)
  {
    DivisionBounds(e.count, slotsPerEpoch);
    var q := e.count / slotsPerEpoch;
    if q == 0 {
      assert e.count < slotsPerEpoch;
    } else if e.count < slotsPerEpoch {
      Scale(1, q, slotsPerEpoch);
    }
  }

  const CROWD := 0x2_0000_0000        // 2^33 validators
  const GROUPS := 0x1_0000_0000       // 2^32 committees, 2^27 in each of 32 slots

  lemma CrowdPositions()
    ensures SplitOffset(CROWD, GROUPS, 0) == 0 && SplitOffset(CROWD, GROUPS, 1) == 2
    ensures SplitOffset(CROWD, GROUPS, 0x8000_0000) == 0 && SplitOffset(CROWD, GROUPS, 0x8000_0001) == 2
    ensures Split(CROWD, GROUPS, 0x8000_0000) == 0x1_0000_0000
  {
  }

  /**
   * With a product that does not fit, the lookup can succeed and be wrong: the
   * first committee of slot 16 is then that of slot 0, although its members
   * start at position 2^32.
   */
  lemma OverflowMisplaces(e: Epoch)
    requires |e.shuffled| == CROWD && e.count == GROUPS
    ensures Committee(e, 16, 32, 0) == Committee(e, 0, 32, 0) == Members(e.shuffled[..2])
    ensures Split(CROWD, GROUPS, 16 * PerSlot(e, 32)) == 0x1_0000_0000
  {
    hide Split, SplitOffset;
    CrowdPositions();
  }

  // --- the partition ---

  /** The epoch has the same number of committees in every slot and its products fit in 64 bits. */
  ghost predicate Regular(e: Epoch, slotsPerEpoch: u64, perSlot: nat) {
    && slotsPerEpoch > 0 && perSlot > 0 && e.count == slotsPerEpoch * perSlot
    && |e.shuffled| < U64_LIMIT && |e.shuffled| * e.count < U64_LIMIT
  }

  ghost function Offset(slot: u64, slotsPerEpoch: u64, perSlot: nat, index: u64): nat
    requires slotsPerEpoch > 0
  {
    index + slot % slotsPerEpoch * perSlot
  }

  /** The committee at a slot and index is exactly the slice between two neighbouring split points. */
  lemma CommitteeIsSlice(e: Epoch, slot: u64, slotsPerEpoch: u64, perSlot: nat, index: u64)
    requires Regular(e, slotsPerEpoch, perSlot)
    ensures index >= perSlot ==> Committee(e, slot, slotsPerEpoch, index).OutOfBounds?
    ensures index < perSlot ==>
      var o := Offset(slot, slotsPerEpoch, perSlot, index);
      && o < e.count
      && Split(|e.shuffled|, e.count, o) <= Split(|e.shuffled|, e.count, o + 1) <= |e.shuffled|
      && Committee(e, slot, slotsPerEpoch, index)
         == Members(e.shuffled[Split(|e.shuffled|, e.count, o)..Split(|e.shuffled|, e.count, o + 1)])
  {
    PerSlotIs(e, slotsPerEpoch, perSlot);
    if index < perSlot {
      OffsetFits(slot % slotsPerEpoch, slotsPerEpoch, perSlot, index);
      var o := Offset(slot, slotsPerEpoch, perSlot, index);
      SliceAt(|e.shuffled|, e.count, o);
      hide Split, SplitOffset, PerSlot, Regular;
      assert o == index + slot % slotsPerEpoch * PerSlot(e, slotsPerEpoch);
    }
  }

  lemma PerSlotIs(e: Epoch, slotsPerEpoch: u64, perSlot: nat)
    requires Regular(e, slotsPerEpoch, perSlot)
    ensures PerSlot(e, slotsPerEpoch) == perSlot
  {
    assert slotsPerEpoch * perSlot == perSlot * slotsPerEpoch;
    QuotientIs(e.count, slotsPerEpoch, perSlot);
  }

  lemma SliceAt(n: u64, count: u64, o: nat)
    requires n * count < U64_LIMIT && o < count
    ensures SplitOffset(n, count, o) == Split(n, count, o)
    ensures SplitOffset(n, count, o + 1) == Split(n, count, o + 1)
    ensures Split(n, count, o) <= Split(n, count, o + 1) <= n
  {
    hide Split, SplitOffset;
    ExactWhenFitting(n, count, o);
    ExactWhenFitting(n, count, o + 1);
    SplitShape(n, count, o);
    SplitIsMonotone(n, count, o + 1, count);
  }

  lemma ExactWhenFitting(n: u64, count: u64, i: u64)
    requires n * count < U64_LIMIT && 0 < count && i <= count
    ensures SplitOffset(n, count, i) == Split(n, count, i)
  {
    ProductFits(n, i, count);
    MulWrapFits(n, i);
  }

  lemma OffsetFits(s: nat, slots: nat, perSlot: nat, index: nat)
    requires s < slots && index < perSlot
    ensures index + s * perSlot < slots * perSlot
  {
    Scale(s + 1, slots, perSlot);
    assert (s + 1) * perSlot == s * perSlot + perSlot;
  }

  lemma ProductFits(n: nat, a: nat, b: nat)
    requires a <= b && n * b < U64_LIMIT
    ensures n * a < U64_LIMIT
  {
    Scale(a, b, n);
  }

  /** Slots of the epoch and indices below the per-slot count name every offset exactly once. */
  lemma OffsetsAreBijective(slotsPerEpoch: u64, perSlot: nat, o: nat, slot: u64, index: u64)
    requires slotsPerEpoch > 0 && perSlot > 0 && o < slotsPerEpoch * perSlot <= U64_MAX
    requires slot < slotsPerEpoch && index < perSlot
    ensures o / perSlot < slotsPerEpoch && o % perSlot < perSlot
    ensures Offset(slot, slotsPerEpoch, perSlot, index) == o <==> slot == o / perSlot && index == o % perSlot
  {
    Decompose(o, perSlot);
    SmallRemainder(slot, slotsPerEpoch);
    if o / perSlot >= slotsPerEpoch {
      Scale(slotsPerEpoch, o / perSlot, perSlot);
    }
    if index + slot * perSlot == o {
      DecomposedOnce(perSlot, slot, index, o / perSlot, o % perSlot);
    }
  }

  lemma Decompose(a: nat, c: nat)
    requires c > 0
    ensures a == a / c * c + a % c && a % c < c
  {
  }

  lemma SmallRemainder(a: nat, c: nat)
    requires a < c
    ensures a % c == a
  {
  }

  lemma DecomposedOnce(c: nat, x: nat, a: nat, y: nat, b: nat)
    requires a < c && b < c && x * c + a == y * c + b
    ensures x == y && a == b
  {
    QuotientIs(x * c + a, c, x);
    QuotientIs(y * c + b, c, y);
  }

  /** The committee at an offset: the lookup of the one slot and index that have it. */
  ghost function CommitteeAt(e: Epoch, slotsPerEpoch: u64, perSlot: nat, o: nat): Lookup
    requires Regular(e, slotsPerEpoch, perSlot) && o < e.count
  {
    OffsetsAreBijective(slotsPerEpoch, perSlot, o, 0, 0);
    Committee(e, o / perSlot, slotsPerEpoch, o % perSlot)
  }

  lemma CommitteeAtIsSlice(e: Epoch, slotsPerEpoch: u64, perSlot: nat, o: nat)
    requires Regular(e, slotsPerEpoch, perSlot) && o < e.count
    ensures Split(|e.shuffled|, e.count, o) <= Split(|e.shuffled|, e.count, o + 1) <= |e.shuffled|
    ensures CommitteeAt(e, slotsPerEpoch, perSlot, o)
         == Members(e.shuffled[Split(|e.shuffled|, e.count, o)..Split(|e.shuffled|, e.count, o + 1)])
  {
    hide Split, Committee;
    OffsetsAreBijective(slotsPerEpoch, perSlot, o, 0, 0);
    var slot: u64, index: u64 := o / perSlot, o % perSlot;
    OffsetsAreBijective(slotsPerEpoch, perSlot, o, slot, index);
    CommitteeIsSlice(e, slot, slotsPerEpoch, perSlot, index);
  }

  /** The committees of the first `o` offsets, as looked up, one after the other. */
  ghost function Joined(e: Epoch, slotsPerEpoch: u64, perSlot: nat, o: nat): seq<ValidatorIndex>
    requires Regular(e, slotsPerEpoch, perSlot) && o <= e.count
  {
    if o == 0 then []
    else
      var c := CommitteeAt(e, slotsPerEpoch, perSlot, o - 1);
      Joined(e, slotsPerEpoch, perSlot, o - 1) + if c.Members? then c.members else []
  }

  lemma CountIsPositive(e: Epoch, slotsPerEpoch: u64, perSlot: nat)
    requires Regular(e, slotsPerEpoch, perSlot)
    ensures e.count > 0
  {
    Scale(1, slotsPerEpoch, perSlot);
  }

  lemma {:induction false} JoinedIsPrefix(e: Epoch, slotsPerEpoch: u64, perSlot: nat, o: nat)
    requires Regular(e, slotsPerEpoch, perSlot) && o <= e.count
    ensures Split(|e.shuffled|, e.count, o) <= |e.shuffled|
    ensures Joined(e, slotsPerEpoch, perSlot, o) == e.shuffled[..Split(|e.shuffled|, e.count, o)]
  {
    hide Split, CommitteeAt, Regular;
    CountIsPositive(e, slotsPerEpoch, perSlot);
    if o == 0 {
      SplitShape(|e.shuffled|, e.count, 0);
    } else {
      JoinedIsPrefix(e, slotsPerEpoch, perSlot, o - 1);
      CommitteeAtIsSlice(e, slotsPerEpoch, perSlot, o - 1);
    }
  }

  /** In offset order the committees of an epoch are the shuffled validators. */
  lemma CommitteesConcatenate(e: Epoch, slotsPerEpoch: u64, perSlot: nat)
    requires Regular(e, slotsPerEpoch, perSlot)
    ensures Joined(e, slotsPerEpoch, perSlot, e.count) == e.shuffled
  {
    JoinedIsPrefix(e, slotsPerEpoch, perSlot, e.count);
    SplitShape(|e.shuffled|, e.count, 0);
  }

  /** Any two committees of an epoch differ in size by at most one. */
  lemma SizesDifferByAtMostOne(e: Epoch, slotsPerEpoch: u64, perSlot: nat, s: u64, i: u64, t: u64, j: u64)
    requires Regular(e, slotsPerEpoch, perSlot) && i < perSlot && j < perSlot
    ensures var a, b := Committee(e, s, slotsPerEpoch, i), Committee(e, t, slotsPerEpoch, j);
      a.Members? && b.Members? && |a.members| - |b.members| <= 1
  {
    hide Split, Committee, Offset;
    CommitteeIsSlice(e, s, slotsPerEpoch, perSlot, i);
    CommitteeIsSlice(e, t, slotsPerEpoch, perSlot, j);
    SplitShape(|e.shuffled|, e.count, Offset(s, slotsPerEpoch, perSlot, i));
    SplitShape(|e.shuffled|, e.count, Offset(t, slotsPerEpoch, perSlot, j));
  }

  /** With distinct validators, committees of different slots or indices share no member. */
  lemma CommitteesAreDisjoint(e: Epoch, slotsPerEpoch: u64, perSlot: nat, s: u64, i: u64, t: u64, j: u64, v: ValidatorIndex)
    requires Regular(e, slotsPerEpoch, perSlot) && i < perSlot && j < perSlot
    requires forall k, l :: 0 <= k < l < |e.shuffled| ==> e.shuffled[k] != e.shuffled[l]
    requires s < slotsPerEpoch && t < slotsPerEpoch && (s, i) != (t, j)
    ensures var a, b := Committee(e, s, slotsPerEpoch, i), Committee(e, t, slotsPerEpoch, j);
      a.Members? && b.Members? && !(v in a.members && v in b.members)
  {
    hide Split, Committee;
    CommitteeIsSlice(e, s, slotsPerEpoch, perSlot, i);
    CommitteeIsSlice(e, t, slotsPerEpoch, perSlot, j);
    var a, b := Offset(s, slotsPerEpoch, perSlot, i), Offset(t, slotsPerEpoch, perSlot, j);
    OffsetsAreBijective(slotsPerEpoch, perSlot, a, s, i);
    OffsetsAreBijective(slotsPerEpoch, perSlot, a, t, j);
    hide Offset, Regular;
    if a < b {
      SplitIsMonotone(|e.shuffled|, e.count, a + 1, b);
    } else {
      SplitIsMonotone(|e.shuffled|, e.count, b + 1, a);
    }
  }
}

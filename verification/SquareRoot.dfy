/**
 * The process-wide square root cache: Newton's iteration started from whatever
 * root the previous call left behind.
 */
module SquareRoot {
  import opened Words

  // Squares and quotients are defined by recursion, and proved equal to `*` and
  // `/`, so that the search below is carried out with linear facts only.

  ghost function Square(x: nat): nat {
    if x == 0 then 0 else Square(x - 1) + 2 * x - 1
  }

  lemma {:induction false} SquareIsProduct(x: nat)
    ensures Square(x) == x * x
  {
    if x > 0 {
      SquareIsProduct(x - 1);
      assert x * x == (x - 1) * (x - 1) + 2 * x - 1;
    }
  }

  ghost function Quotient(n: nat, r: nat): nat
    requires 0 < r
  {
    if n < r then 0 else Quotient(n - r, r) + 1
  }

  lemma {:induction false} QuotientBounds(n: nat, r: nat)
    requires 0 < r
    ensures r * Quotient(n, r) <= n < r * (Quotient(n, r) + 1)
  {
    if n >= r {
      var q := Quotient(n - r, r);
      QuotientBounds(n - r, r);
      assert r * (q + 1) == r * q + r && r * (q + 2) == r * (q + 1) + r;
    }
  }

  lemma {:induction false} ProductIsMonotone(a: nat, b: int, c: int)
    requires b <= c
    ensures a * b <= a * c
  {
  }

  lemma {:induction false} QuotientFits(n: nat, r: nat)
    requires 0 < r
    ensures Quotient(n, r) <= n
  {
    if n >= r {
      QuotientFits(n - r, r);
    }
  }

  lemma {:induction false} BoundsFixQuotient(n: nat, r: nat, p: int, q: int)
    requires 0 < r && r * p <= n < r * (p + 1) && r * q <= n < r * (q + 1)
    ensures p == q
  {
    if p < q {
      ProductIsMonotone(r, p + 1, q);
    } else if q < p {
      ProductIsMonotone(r, q + 1, p);
    }
  }

  lemma {:induction false} QuotientIsDivision(n: nat, r: nat)
    requires 0 < r
    ensures Quotient(n, r) == n / r
  {
    QuotientBounds(n, r);
    assert n == r * (n / r) + n % r;
    assert r * (n / r + 1) == r * (n / r) + r;
    BoundsFixQuotient(n, r, Quotient(n, r), n / r);
  }

  /** `r` is the integer square root of `n`: the largest number whose square is at most `n`. */
  ghost predicate IsRoot(r: nat, n: nat) {
    Square(r) <= n < Square(r + 1)
  }

  lemma {:induction false} SquareIsMonotone(a: nat, b: nat)
    requires a <= b
    ensures Square(a) <= Square(b)
    decreases b
  {
    if a < b {
      SquareIsMonotone(a, b - 1);
    }
  }

  lemma {:induction false} RootIsUnique(r: nat, s: nat, n: nat)
    requires IsRoot(r, n) && IsRoot(s, n)
    ensures r == s
  {
    if r < s {
      SquareIsMonotone(r + 1, s);
    } else if s < r {
      SquareIsMonotone(s + 1, r);
    }
  }

  datatype Cache = Cache(squareRoot: u64, balance: u64)

  /** A call either returns a root or panics on an integer division by zero. */
  datatype Outcome = Root(value: u64) | DivideByZero

  const INITIAL_CACHE := Cache(126491106, 15999999897103236)

  ghost predicate Exact(c: Cache) {
    0 < c.squareRoot && IsRoot(c.squareRoot, c.balance)
  }

  lemma {:induction false} InitialCacheIsExact()
    ensures Exact(INITIAL_CACHE)
  {
    SquareIsProduct(126491106);
    SquareIsProduct(126491107);
  }

  /** What the cache can look like between calls: exact, or zeroed by an earlier panic. */
  ghost predicate Reachable(c: Cache) {
    Exact(c) || c.squareRoot == 0
  }

  /** The inputs on which `squareRoot + n / squareRoot` leaves 64 bits. */
  ghost predicate Overflows(c: Cache, n: u64) {
    c.squareRoot == 1 && n == U64_MAX
  }

  /** What one call does, with the root characterised and not computed. */
  ghost predicate Call(c: Cache, n: u64, out: Outcome, c': Cache) {
    if n == 0 then out == Root(0) && c' == c
    else if n == c.balance then out == Root(c.squareRoot) && c' == c
    else if c.squareRoot == 0 then out == DivideByZero && c' == c.(balance := n)
    else if Overflows(c, n) then out == DivideByZero && c' == Cache(0, n)
    else out.Root? && IsRoot(out.value, n) && c' == Cache(out.value, n)
  }

  lemma {:induction false} ProductBelowMean(a: int, b: int)
    ensures 4 * (a * b) <= (a + b) * (a + b)
  {
    assert (a + b) * (a + b) == a * a + 2 * (a * b) + b * b;
    assert (a - b) * (a - b) == a * a - 2 * (a * b) + b * b;
    assert (a - b) * (a - b) >= 0;
  }

  lemma {:induction false} DoubleSquare(x: nat)
    ensures Square(2 * x) == 4 * Square(x)
  {
    SquareIsProduct(2 * x);
    SquareIsProduct(x);
    assert (2 * x) * (2 * x) == 4 * (x * x);
  }

  /** One averaging step never falls below the root, from any positive start. */
  lemma {:induction false} AverageStaysAbove(r: nat, n: nat)
    requires 0 < r
    ensures n < Square((r + Quotient(n, r)) / 2 + 1)
  {
    var m := Quotient(n, r) + 1;
    var y := (r + Quotient(n, r)) / 2 + 1;
    QuotientBounds(n, r);
    ProductBelowMean(r, m);
    SquareIsProduct(r + m);
    SquareIsMonotone(r + m, 2 * y);
    DoubleSquare(y);
  }

  lemma {:induction false} QuotientBoundsSquare(r: nat, n: nat)
    requires 0 < r <= Quotient(n, r)
    ensures Square(r) <= n
  {
    QuotientBounds(n, r);
    SquareIsProduct(r);
    ProductIsMonotone(r, r, Quotient(n, r));
  }

  lemma {:induction false} RootFitsHalfWord(r: nat, n: u64)
    requires IsRoot(r, n)
    ensures r < 0x1_0000_0000
  {
    if r >= 0x1_0000_0000 {
      SquareIsMonotone(0x1_0000_0000, r);
      SquareIsProduct(0x1_0000_0000);
    }
  }

  lemma {:induction false} QuotientHalves(n: nat, r: nat)
    requires 2 <= r
    ensures 2 * Quotient(n, r) <= n
  {
    QuotientBounds(n, r);
    ProductIsMonotone(Quotient(n, r), 2, r);
  }

  lemma {:induction false} QuotientByOne(n: nat)
    ensures Quotient(n, 1) == n
  {
    QuotientBounds(n, 1);
  }

  /** The first sum leaves 64 bits exactly on the overflowing inputs. */
  lemma {:induction false} FirstSumFits(c: Cache, n: u64)
    requires Exact(c)
    ensures Overflows(c, n) <==> U64_LIMIT <= c.squareRoot + Quotient(n, c.squareRoot)
    ensures Overflows(c, n) ==> c.squareRoot + Quotient(n, c.squareRoot) == U64_LIMIT
  {
    RootFitsHalfWord(c.squareRoot, c.balance);
    if c.squareRoot > 1 {
      QuotientHalves(n, c.squareRoot);
    } else {
      QuotientByOne(n);
    }
  }

  class SquareRootCache {
    var squareRoot: u64
    var balance: u64

    ghost function Abs(): Cache
      reads this
    {
      Cache(squareRoot, balance)
    }

    constructor ()
      ensures Abs() == INITIAL_CACHE && Exact(Abs())
    {
      squareRoot, balance := 126491106, 15999999897103236;
      InitialCacheIsExact();
    }

    method CachedSquareRoot(n: u64) returns (out: Outcome)
      requires Reachable(Abs())
      modifies this
      ensures Call(old(Abs()), n, out, Abs())
      ensures Reachable(Abs())
    {
      if n == 0 {
        return Root(0);
      }
      if n == balance {
        return Root(squareRoot);
      }
      balance := n;
      if squareRoot == 0 {
        return DivideByZero;
      }
      var val := Divide(n, squareRoot);
      AverageStaysAbove(squareRoot, n);
      FirstSumFits(old(Abs()), n);
      squareRoot := AddWrap(squareRoot, val) / 2;
      if squareRoot == 0 {
        return DivideByZero;
      }
      Descend(n);
      return Root(squareRoot);
    }

    /** The iteration, entered at or above the root. */
    method Descend(n: u64)
      requires 0 < squareRoot < U64_LIMIT / 2 && n < Square(squareRoot + 1)
      requires 0 < n
      modifies this`squareRoot
      ensures 0 < squareRoot && IsRoot(squareRoot, n)
    {
      var val := Divide(n, squareRoot);
      while squareRoot > val
        invariant 0 < squareRoot < U64_LIMIT / 2
        invariant val == Quotient(n, squareRoot) && n < Square(squareRoot + 1)
        decreases squareRoot
      {
        AverageStaysAbove(squareRoot, n);
        squareRoot := AddWrap(squareRoot, val) / 2;
        val := Divide(n, squareRoot);
      }
      QuotientBoundsSquare(squareRoot, n);
    }
  }

  method Divide(n: u64, r: u64) returns (q: u64)
    requires 0 < r
    ensures q == Quotient(n, r)
  {
    QuotientIsDivision(n, r);
    QuotientFits(n, r);
    q := n / r;
  }

  /** A history: the cache before each call, and what each call returned. */
  ghost predicate History(calls: seq<u64>, outs: seq<Outcome>, caches: seq<Cache>) {
    && |outs| == |calls| && |caches| == |calls| + 1
    && caches[0] == INITIAL_CACHE
    && forall i :: 0 <= i < |calls| ==> Call(caches[i], calls[i], outs[i], caches[i + 1])
  }

  ghost predicate AllExact(calls: seq<u64>, outs: seq<Outcome>)
    requires |outs| == |calls|
  {
    forall i :: 0 <= i < |calls| ==> outs[i].Root? && IsRoot(outs[i].value, calls[i])
  }

  ghost predicate NeverOverflows(calls: seq<u64>, caches: seq<Cache>)
    requires |caches| == |calls| + 1
  {
    forall i :: 0 <= i < |calls| ==> !Overflows(caches[i], calls[i])
  }

  lemma {:induction false} CacheStaysExact(calls: seq<u64>, outs: seq<Outcome>, caches: seq<Cache>, i: nat)
    requires History(calls, outs, caches) && NeverOverflows(calls, caches) && i <= |calls|
    ensures Exact(caches[i])
    decreases i
  {
    if i == 0 {
      InitialCacheIsExact();
    } else {
      CacheStaysExact(calls, outs, caches, i - 1);
      assert Call(caches[i - 1], calls[i - 1], outs[i - 1], caches[i]);
    }
  }

  /**
   * Every call of a history returns the exact root if and only if no call asks
   * for the root of 2^64 - 1 while the cached root is 1.
   */
  lemma {:induction false} HistoryExactIffNoOverflow(calls: seq<u64>, outs: seq<Outcome>, caches: seq<Cache>)
    requires History(calls, outs, caches)
    ensures AllExact(calls, outs) <==> NeverOverflows(calls, caches)
  {
    if NeverOverflows(calls, caches) {
      forall i | 0 <= i < |calls|
        ensures outs[i].Root? && IsRoot(outs[i].value, calls[i])
      {
        CacheStaysExact(calls, outs, caches, i);
        assert Call(caches[i], calls[i], outs[i], caches[i + 1]);
      }
    } else {
      var i :| 0 <= i < |calls| && Overflows(caches[i], calls[i]);
      assert Call(caches[i], calls[i], outs[i], caches[i + 1]);
      assert outs[i] == DivideByZero || outs[i] == Root(1);
    }
  }

  /**
   * The failing family is inhabited: the root of 1, then of 2^64 - 1, panics;
   * and asking for 2^64 - 1 again then returns 0 from the zeroed cache.
   */
  lemma {:induction false} OverflowPoisonsCache()
    ensures exists calls, outs, caches ::
              && History(calls, outs, caches)
              && calls == [1, U64_MAX, U64_MAX]
              && outs == [Root(1), DivideByZero, Root(0)]
  {
    var calls: seq<u64> := [1, U64_MAX, U64_MAX];
    var outs := [Root(1), DivideByZero, Root(0)];
    var caches := [INITIAL_CACHE, Cache(1, 1), Cache(0, U64_MAX), Cache(0, U64_MAX)];
    assert IsRoot(1, 1);
    assert History(calls, outs, caches);
  }
}

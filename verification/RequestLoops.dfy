/** Request ranges of adaptive size, and the header loop that uses them. */
module RequestLoops {
  import opened Oracles
  import opened Words

  /** An inclusive range of execution block numbers. */
  datatype Range = Range(first: u64, last: u64)

  /** The ranges are contiguous, disjoint and cover `lo` to `hi` exactly. */
  ghost predicate Tiles(rs: seq<Range>, lo: int, hi: int) {
    if rs == [] then lo == hi + 1
    else rs[0].first == lo && rs[0].first <= rs[0].last && Tiles(rs[1..], rs[0].last + 1, hi)
  }

  ghost predicate Sized(rs: seq<Range>, limit: nat) {
    forall i :: 0 <= i < |rs| ==> 1 <= rs[i].last - rs[i].first + 1 <= limit
  }

  lemma {:induction false} TilesExtend(rs: seq<Range>, lo: int, hi: int, r: Range)
    requires Tiles(rs, lo, hi) && r.first == hi + 1 <= r.last
    ensures Tiles(rs + [r], lo, r.last)
  {
    if rs == [] {
      assert (rs + [r])[1..] == [];
    } else {
      assert (rs + [r])[1..] == rs[1..] + [r];
      TilesExtend(rs[1..], rs[0].last + 1, hi, r);
    }
  }

  /** What tiling means: every block of the interval lies in exactly one range, and no other block in any. */
  lemma {:induction false} TilesCoverOnce(rs: seq<Range>, lo: int, hi: int, n: int)
    requires Tiles(rs, lo, hi)
    ensures lo <= hi + 1
    ensures (exists i :: 0 <= i < |rs| && rs[i].first <= n <= rs[i].last) <==> lo <= n <= hi
    ensures forall i, j :: 0 <= i < j < |rs| ==> rs[i].last < rs[j].first
  {
    if rs != [] {
      var rest := rs[1..];
      TilesCoverOnce(rest, rs[0].last + 1, hi, n);
      assert forall i :: 0 <= i < |rest| ==> rest[i] == rs[i + 1];
      forall j | 0 < j < |rs|
        ensures rs[0].last < rs[j].first
      {
        TilesCoverOnce(rest, rs[0].last + 1, hi, rs[j].first);
        RangesAreNonempty(rest, rs[0].last + 1, hi, j - 1);
        assert rest[j - 1].first <= rs[j].first <= rest[j - 1].last;
      }
      if lo <= n <= hi {
        if n > rs[0].last {
          var i :| 0 <= i < |rest| && rest[i].first <= n <= rest[i].last;
          assert rs[i + 1].first <= n <= rs[i + 1].last;
        } else {
          assert rs[0].first <= n <= rs[0].last;
        }
      }
      if exists i :: 0 <= i < |rs| && rs[i].first <= n <= rs[i].last {
        var i :| 0 <= i < |rs| && rs[i].first <= n <= rs[i].last;
        assert i > 0 ==> rest[i - 1].first <= n <= rest[i - 1].last;
      }
    }
  }

  lemma {:induction false} RangesAreNonempty(rs: seq<Range>, lo: int, hi: int, i: nat)
    requires Tiles(rs, lo, hi) && i < |rs|
    ensures rs[i].first <= rs[i].last
  {
    if i > 0 { RangesAreNonempty(rs[1..], rs[0].last + 1, hi, i - 1); }
  }

  datatype Reply = Answered | TimedOut | Refused

  /** The first block that the successful requests do not cover. */
  function NextBlock(requests: seq<Range>, start: u64): nat {
    if requests == [] then start else requests[|requests| - 1].last + 1
  }

  /** The requests cover `start` up to `next`, each within the limit and none past `end`. */
  ghost predicate Covered(requests: seq<Range>, start: u64, end: u64, limit: nat, next: int) {
    && Tiles(requests, start, next - 1) && next == NextBlock(requests, start) && Sized(requests, limit)
    && forall i :: 0 <= i < |requests| ==> start <= requests[i].first <= requests[i].last <= end
  }

  lemma CoverNothing(start: u64, end: u64, limit: nat)
    ensures Covered([], start, end, limit, start)
  {
  }

  lemma {:induction false} CoverMore(requests: seq<Range>, start: u64, end: u64, limit: nat, r: Range)
    requires Covered(requests, start, end, limit, r.first) && start <= r.first <= r.last <= end && r.last - r.first < limit
    ensures Covered(requests + [r], start, end, limit, r.last + 1)
  {
    hide Tiles;
    TilesExtend(requests, start, r.first - 1, r);
  }

  lemma {:induction false} CoveredMeans(requests: seq<Range>, start: u64, end: u64, limit: nat, next: int)
    requires Covered(requests, start, end, limit, next)
    ensures Tiles(requests, start, next - 1) && next == NextBlock(requests, start) && Sized(requests, limit)
  {
  }

  /** A smaller request: half as many blocks, rounded down. */
  function Halve(batch: u64): (b: u64)
    requires batch > 1
    ensures 1 <= b < batch && 2 * b <= batch <= 2 * b + 1
  {
    Max(1, batch / 2)
  }

  /** The last block of a request of at most `batch` blocks from `first`. */
  function RequestEnd(first: u64, end: u64, batch: u64): (last: u64)
    requires first <= end && batch > 0
    ensures first <= last <= end && last - first < batch && (last < end ==> last == first + batch - 1)
  {
    first + Min(batch - 1, end - first)
  }

  /** The only replies that end the loop: an error, a timeout of one block, or any failure of a cancelled request. */
  predicate GivesUp(reply: Reply, r: Range, cancelled: bool) {
    reply == Refused || (reply == TimedOut && (cancelled || r.first == r.last))
  }

  /** The batch size after `j` requests that were too large. */
  function Halved(batch: u64, j: nat): (b: u64)
    requires batch > 0
    ensures 1 <= b <= batch
  {
    if j == 0 then batch
    else
      var b := Halved(batch, j - 1);
      if b > 1 then Halve(b) else b
  }

  lemma HalvedNever(batch: u64)
    requires batch > 0
    ensures Halved(batch, 0) == batch
  {
  }

  lemma HalvedOnce(batch: u64, j: nat)
    requires batch > 0 && Halved(batch, j) > 1
    ensures Halved(batch, j + 1) == Halve(Halved(batch, j))
  {
  }

  /** The range of the last of `calls` calls, all but one of which were answered or too large. */
  function LastRange(start: u64, end: u64, limit: u64, requests: seq<Range>, calls: nat): Range
    requires limit > 0 && |requests| < calls && NextBlock(requests, start) <= end
  {
    var next: u64 := NextBlock(requests, start);
    Range(next, RequestEnd(next, end, Halved(limit, calls - 1 - |requests|)))
  }

  lemma LastIs(start: u64, end: u64, limit: u64, requests: seq<Range>, calls: nat, next: u64, batch: u64)
    requires limit > 0 && |requests| < calls && next == NextBlock(requests, start) <= end
    requires batch == Halved(limit, calls - 1 - |requests|)
    ensures LastRange(start, end, limit, requests, calls) == Range(next, RequestEnd(next, end, batch))
  {
  }

  lemma OnlyGivingUpIsLeft(reply: Reply, r: Range, cancelled: bool, batch: u64, end: u64)
    requires r.first <= end && batch > 0 && r.last == RequestEnd(r.first, end, batch)
    requires reply != Answered && !(reply == TimedOut && !cancelled && batch > 1)
    ensures GivesUp(reply, r, cancelled)
  {
  }

  /**
   * The calls made so far, by number: those in `answered`, in increasing
   * order, delivered the headers of `requests`; every other one timed out and
   * was not cancelled.
   */
  ghost predicate CallLog(rpc: (nat, Range) -> Reply, cancelled: Oracle, asked: seq<Range>, answered: seq<nat>, requests: seq<Range>) {
    && |answered| == |requests|
    && (forall k :: 0 <= k < |answered| ==>
          answered[k] < |asked| && asked[answered[k]] == requests[k] && rpc(answered[k], requests[k]) == Answered)
    && (forall j, k :: 0 <= j < k < |answered| ==> answered[j] < answered[k])
    && (forall i :: 0 <= i < |asked| && i !in answered ==> rpc(i, asked[i]) == TimedOut && !cancelled(i))
  }

  lemma {:induction false} LogNothing(rpc: (nat, Range) -> Reply, cancelled: Oracle)
    ensures CallLog(rpc, cancelled, [], [], [])
  {
  }

  lemma {:induction false} LogAnswer(rpc: (nat, Range) -> Reply, cancelled: Oracle, asked: seq<Range>, answered: seq<nat>, requests: seq<Range>, r: Range)
    requires CallLog(rpc, cancelled, asked, answered, requests) && rpc(|asked|, r) == Answered
    ensures CallLog(rpc, cancelled, asked + [r], answered + [|asked|], requests + [r])
  {
    var more := answered + [|asked|];
    assert forall i :: i in answered ==> i in more;
    assert more[|answered|] == |asked|;
  }

  lemma {:induction false} LogTimeout(rpc: (nat, Range) -> Reply, cancelled: Oracle, asked: seq<Range>, answered: seq<nat>, requests: seq<Range>, r: Range)
    requires CallLog(rpc, cancelled, asked, answered, requests) && rpc(|asked|, r) == TimedOut && !cancelled(|asked|)
    ensures CallLog(rpc, cancelled, asked + [r], answered, requests)
  {
  }

  /**
   * Caching the headers from `start` to `end`. A timeout halves the request;
   * any other error, or a timeout of a one-block request, ends the loop. What
   * counts as covered is what was answered. If the loop ends with an error it
   * is one more call that gave up, for the first block not yet covered and as
   * many more as the earlier timeouts have left.
   */
  method CacheBlockHeaders(start: u64, end: u64, limit: u64, rpc: (nat, Range) -> Reply, cancelled: Oracle)
    returns (ok: bool, requests: seq<Range>, asked: seq<Range>, answered: seq<nat>)
    ensures Covered(requests, start, end, limit, NextBlock(requests, start))
    ensures ok && start <= end ==> NextBlock(requests, start) == end + 1 && Tiles(requests, start, end)
    ensures ok && start > end ==> requests == []
    ensures CallLog(rpc, cancelled, asked, answered, requests)
    ensures |requests| <= |asked| && (limit > 0 ==> |asked| < |requests| + limit)
    ensures !ok && limit > 0 ==>
              && NextBlock(requests, start) <= end
              && var r := LastRange(start, end, limit, requests, |asked| + 1); GivesUp(rpc(|asked|, r), r, cancelled(|asked|))
    ensures limit == 0 ==> !ok && asked == []
  {
    hide Tiles, Covered, Sized, Halve, Halved, RequestEnd, NextBlock, LastRange, GivesUp, CallLog;
    requests, asked, answered := [], [], [];
    CoverNothing(start, end, limit);
    LogNothing(rpc, cancelled);
    var batch: u64 := limit;
    var cursor: u64 := start;
    CoveredMeans(requests, start, end, limit, cursor);
    if batch == 0 {
      return false, [], [], [];
    }
    HalvedNever(limit);
    while cursor <= end
      invariant start <= cursor && 1 <= batch <= limit && Covered(requests, start, end, limit, cursor)
      invariant if start <= end then cursor <= end else requests == []
      invariant CallLog(rpc, cancelled, asked, answered, requests)
      invariant |requests| <= |asked| && |asked| + batch <= |requests| + limit && batch == Halved(limit, |asked| - |requests|)
      decreases end - cursor, batch
    {
      var r := Range(cursor, RequestEnd(cursor, end, batch));
      var reply := rpc(|asked|, r);
      if reply == TimedOut && !cancelled(|asked|) && batch > 1 {
        HalvedOnce(limit, |asked| - |requests|);
        LogTimeout(rpc, cancelled, asked, answered, requests, r);
        asked, batch := asked + [r], Halve(batch);
        continue;
      }
      if reply != Answered {
        CoveredMeans(requests, start, end, limit, cursor);
        LastIs(start, end, limit, requests, |asked| + 1, cursor, batch);
        OnlyGivingUpIsLeft(reply, r, cancelled(|asked|), batch, end);
        return false, requests, asked, answered;
      }
      CoverMore(requests, start, end, limit, r);
      LogAnswer(rpc, cancelled, asked, answered, requests, r);
      requests, answered, asked := requests + [r], answered + [|asked|], asked + [r];
      if r.last == end {
        CoveredMeans(requests, start, end, limit, end + 1);
        return true, requests, asked, answered;
      }
      cursor := r.last + 1;
    }
    CoveredMeans(requests, start, end, limit, cursor);
    return true, requests, asked, answered;
  }
}

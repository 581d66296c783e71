/** Finding the last execution block at or before a time. */
module TimestampSearch {
  import opened Oracles
  import opened Words

  datatype Search = Found(number: u64, time: u64) | NotFound | TooLate | Failed

  const SEARCH_THRESHOLD := 5
  const REPEATED_SEARCHES := 2 * SEARCH_THRESHOLD

  /** Block times strictly increase with height. */
  ghost predicate Increasing(times: seq<u64>) {
    forall i, j :: 0 <= i < j < |times| ==> times[i] < times[j]
  }

  /** The simple form: walk down from `n` to the first block at or before `t`. */
  function ScanDown(times: seq<u64>, n: u64, t: u64): (r: Search)
    requires n < |times|
    ensures r.Found? || r.NotFound?
  {
    if times[n] <= t then Found(n, times[n])
    else if n == 0 then NotFound
    else ScanDown(times, n - 1, t)
  }

  /** What the scan finds: the last block at or before `t` among the first `n + 1`, or nothing when there is none. */
  lemma {:induction false} ScanDownMeaning(times: seq<u64>, n: u64, t: u64)
    requires Increasing(times) && n < |times|
    ensures var r := ScanDown(times, n, t);
      && (r.NotFound? <==> t < times[0])
      && (r.Found? <==> times[0] <= t)
      && (r.Found? ==> r.number <= n && times[r.number] == r.time <= t)
      && (r.Found? ==> forall k :: r.number < k <= n ==> t < times[k])
  {
    if n > 0 && times[n] > t {
      ScanDownMeaning(times, n - 1, t);
    }
  }

  /** Blocks after `t` may be skipped from the top. */
  lemma {:induction false} ScanFromLower(times: seq<u64>, n: u64, m: u64, t: u64)
    requires Increasing(times) && m <= n < |times|
    requires m < n ==> t < times[m + 1]
    ensures ScanDown(times, n, t) == ScanDown(times, m, t)
  {
    if m < n {
      assert m + 1 < n ==> times[m + 1] < times[n];
      ScanFromLower(times, n - 1, m, t);
    }
  }

  lemma {:induction false} FoundAt(times: seq<u64>, n: u64, m: u64, t: u64)
    requires Increasing(times) && m <= n < |times| && times[m] <= t
    requires m < n ==> t < times[m + 1] || t == times[m]
    ensures ScanDown(times, n, t) == Found(m, times[m])
  {
    assert m < n ==> times[m] < times[m + 1];
    ScanFromLower(times, n, m, t);
  }

  lemma {:induction false} SkipLater(times: seq<u64>, n: u64, m: u64, t: u64)
    requires Increasing(times) && m <= n < |times| && times[m] >= t
    ensures ScanDown(times, n, t) == ScanDown(times, m, t)
  {
    assert m < n ==> times[m] < times[m + 1];
    ScanFromLower(times, n, m, t);
  }

  function BlocksIn(seconds: u64, secondsPerBlock: u64): (n: u64)
    requires secondsPerBlock > 0
    ensures n * secondsPerBlock <= seconds < (n + 1) * secondsPerBlock
  {
    seconds / secondsPerBlock
  }

  /** A reader of an unchanging chain whose head it has been told is block `latest`. */
  class BlockReader {
    const times: seq<u64>
    const latest: u64
    const secondsPerBlock: u64
    const faults: Oracle
    var clock: nat
    var headers: map<u64, u64>           // the header cache: height to time
    ghost var asked: set<u64>            // every height asked for

    ghost predicate Valid()
      reads this
    {
      && Increasing(times) && latest < |times| && secondsPerBlock > 0
      && (forall h :: h in headers ==> h < |times| && headers[h] == times[h])
    }

    constructor (times: seq<u64>, latest: u64, secondsPerBlock: u64, faults: Oracle)
      requires Increasing(times) && latest < |times| && secondsPerBlock > 0
      ensures Valid() && this.times == times && this.latest == latest && this.secondsPerBlock == secondsPerBlock
      ensures this.faults == faults && headers == map[] && asked == {}
    {
      this.times, this.latest, this.secondsPerBlock, this.faults := times, latest, secondsPerBlock, faults;
      clock, headers, asked := 0, map[], {};
    }

    method Cancelled() returns (b: bool)
      modifies this`clock
      ensures clock == old(clock) + 1 && b == faults(old(clock))
    {
      b := faults(clock);
      clock := clock + 1;
    }

    /** A header from the cache or the client; a fetched header is cached. */
    method RetrieveHeaderInfo(n: u64) returns (r: Search)
      requires Valid()
      modifies this
      ensures Valid() && clock == old(clock) + 1 && asked == old(asked) + {n}
      ensures n < |times| ==> r == if faults(old(clock)) then Failed else Found(n, times[n])
      ensures n >= |times| ==> r.Failed?
      ensures headers == if r.Found? then old(headers)[n := times[n]] else old(headers)
    {
      asked := asked + {n};
      var failed := Cancelled();
      if failed || n >= |times| {
        return Failed;
      }
      if n !in headers {
        headers := headers[n := times[n]];
      }
      return Found(n, headers[n]);
    }

    method FindMaxTargetExecutionBlock(upper: u64, t: u64) returns (r: Search)
      requires Valid() && upper <= latest
      modifies this
      ensures Valid() && clock >= old(clock)
      ensures r.Failed? <==> FaultIn(faults, old(clock), clock)
      ensures !r.Failed? ==> r == ScanDown(times, upper, t)
      ensures forall h :: h in asked ==> h in old(asked) || h <= upper
    {
      var bn: int := upper;
      while bn >= 0
        invariant Valid() && -1 <= bn <= upper && clock >= old(clock) && !FaultIn(faults, old(clock), clock)
        invariant bn >= 0 ==> ScanDown(times, bn, t) == ScanDown(times, upper, t)
        invariant bn < 0 ==> ScanDown(times, upper, t).NotFound?
        invariant forall h :: h in asked ==> h in old(asked) || h <= upper
      {
        var stop := Cancelled();
        if stop {
          return Failed;
        }
        r := RetrieveHeaderInfo(bn);
        if r.Failed? || r.time <= t {
          return;
        }
        bn := bn - 1;
      }
      return NotFound;
    }

    method FindMinTargetExecutionBlock(lower: u64, t: u64) returns (r: Search)
      requires Valid() && lower <= latest && times[lower] < t <= times[latest]
      modifies this
      ensures Valid() && clock >= old(clock)
      ensures r.Failed? <==> FaultIn(faults, old(clock), clock)
      ensures !r.Failed? ==> r == ScanDown(times, latest, t)
      ensures forall h :: h in asked ==> h in old(asked) || h <= latest
    {
      hide ScanDown, Increasing;
      var bn: int := lower;
      while true
        invariant Valid() && lower <= bn <= latest && clock >= old(clock) && !FaultIn(faults, old(clock), clock)
        invariant bn > lower ==> times[bn - 1] < t
        invariant forall h :: h in asked ==> h in old(asked) || h <= latest
        decreases latest - bn
      {
        var stop := Cancelled();
        if stop {
          return Failed;
        }
        r := RetrieveHeaderInfo(bn);
        if r.Failed? {
          return;
        }
        if r.time > t {
          FoundAt(times, latest, bn - 1, t);
          r := RetrieveHeaderInfo(r.number - 1);
          return;
        }
        if r.time == t {
          FoundAt(times, latest, bn, t);
          return;
        }
        bn := bn + 1;
      }
    }

    /** The estimate for the next probe, or nothing when the cursor is near enough or the estimate leaves the chain. */
    function Estimate(cursor: u64, cursorTime: u64, t: u64): (e: Search)
      requires secondsPerBlock > 0 && cursor <= latest
      ensures e.NotFound? || (e.Found? && e.number <= latest)
    {
      var buffer := MulWrap(SEARCH_THRESHOLD, secondsPerBlock);
      if t > AddWrap(cursorTime, buffer) then
        var blocks := BlocksIn(SubWrap(t, cursorTime), secondsPerBlock);
        var e := AddWrap(cursor, blocks);
        if e > latest then NotFound else Found(e, 0)
      else if AddWrap(t, buffer) < cursorTime then
        var blocks := BlocksIn(SubWrap(cursorTime, t), secondsPerBlock);
        if blocks >= cursor then NotFound else Found(cursor - blocks, 0)
      else NotFound
    }

    /** Whatever the estimates do, even when the buffer arithmetic wraps, this is the linear scan. */
    method BlockByTimestamp(t: u64) returns (r: Search)
      requires Valid()
      modifies this
      ensures Valid() && clock >= old(clock)
      ensures r.TooLate? <==> t > times[latest]
      ensures r.Failed? <==> FaultIn(faults, old(clock), clock)
      ensures !r.TooLate? && !r.Failed? ==> r == ScanDown(times, latest, t)
      ensures forall h :: h in asked ==> h in old(asked) || h <= latest
    {
      hide Increasing, ScanDown, FaultIn;
      if t > times[latest] {
        NoFaultYet(faults, clock);
        return TooLate;
      }
      var cursor;
      r, cursor := Approach(t);
      if r.Failed? {
        return;
      }
      ghost var near := clock;
      if times[cursor] >= t {
        SkipLater(times, latest, cursor, t);
      }
      if times[cursor] == t {
        r := RetrieveHeaderInfo(cursor);
        OneFault(faults, near);
        FoundAt(times, latest, cursor, t);
      } else if times[cursor] > t {
        r := FindMaxTargetExecutionBlock(cursor, t);
      } else {
        r := FindMinTargetExecutionBlock(cursor, t);
      }
      FaultsJoin(faults, old(clock), near, clock);
    }

    /** The estimating probes: they fail, or end at some block of the chain. */
    method Approach(t: u64) returns (r: Search, cursor: u64)
      requires Valid()
      modifies this
      ensures Valid() && clock >= old(clock) && cursor <= latest
      ensures r.Failed? <==> FaultIn(faults, old(clock), clock)
      ensures forall h :: h in asked ==> h in old(asked) || h <= latest
    {
      hide Increasing, Estimate;
      var cursorTime;
      r, cursor, cursorTime := Found(latest, times[latest]), latest, times[latest];
      for i := 0 to REPEATED_SEARCHES
        invariant Valid() && clock >= old(clock) && !FaultIn(faults, old(clock), clock) && !r.Failed?
        invariant cursor <= latest && cursorTime == times[cursor]
        invariant forall h :: h in asked ==> h in old(asked) || h <= latest
      {
        var stop := Cancelled();
        if stop {
          return Failed, cursor;
        }
        var e := Estimate(cursor, cursorTime, t);
        if e.NotFound? {
          break;
        }
        r := RetrieveHeaderInfo(e.number);
        if r.Failed? {
          return;
        }
        cursor, cursorTime := r.number, r.time;
      }
    }
  }
}

/** The generation-stamped attestation cache, as the operations its lock makes atomic. */
module AttestationData {
  import opened Options
  import opened Words

  type Slot = nat
  type Root = nat

  /** Responses are keyed by slot; of a response only the head root it was computed from matters here. */
  datatype Cache = Cache(entries: map<Slot, Root>, inProgress: map<Slot, u64>, generation: u64)

  datatype PutResult = Stored | Stale

  function NextGeneration(g: u64): u64 { AddWrap(g, 1) }

  predicate PutAccepted(c: Cache, k: Slot) {
    !(k in c.inProgress && c.inProgress[k] != c.generation)
  }

  /** A stored response never replaces one that is already there. */
  function Added(entries: map<Slot, Root>, k: Slot, res: Root): map<Slot, Root> {
    if k in entries then entries else entries[k := res]
  }

  datatype GetResult = InvalidRequest | Pending | Hit(res: Root) | Miss

  class AttestationCache {
    var entries: map<Slot, Root>
    var inProgress: map<Slot, u64>
    var generation: u64

    ghost function Abs(): Cache
      reads this
    {
      Cache(entries, inProgress, generation)
    }

    constructor ()
      ensures Abs() == Cache(map[], map[], 0)
    {
      entries, inProgress, generation := map[], map[], 0;
    }

    /** One round of Get: a request with a producer has to come back. */
    method Get(req: Option<Slot>) returns (g: GetResult)
      ensures g == InvalidRequest <==> req == None
      ensures g == Pending <==> req.Some? && req.value in inProgress
      ensures g.Hit? <==> req.Some? && req.value !in inProgress && req.value in entries
      ensures g.Hit? ==> g.res == entries[req.value]
    {
      if req == None {
        return InvalidRequest;
      }
      if req.value in inProgress {
        return Pending;
      }
      if req.value in entries {
        return Hit(entries[req.value]);
      }
      return Miss;
    }

    method MarkInProgress(k: Slot) returns (ok: bool)
      modifies this`inProgress
      ensures ok <==> k !in old(inProgress)
      ensures Abs() == if ok then old(Abs()).(inProgress := old(inProgress)[k := generation]) else old(Abs())
    {
      if k in inProgress {
        return false;
      }
      inProgress := inProgress[k := generation];
      return true;
    }

    method MarkNotInProgress(k: Slot)
      modifies this`inProgress
      ensures Abs() == old(Abs()).(inProgress := old(inProgress) - {k})
    {
      inProgress := inProgress - {k};
    }

    /** Storing a response; trimming to the size limit drops other slots at will. */
    method Put(k: Slot, res: Root, limit: nat) returns (r: PutResult)
      requires 0 < limit
      modifies this`entries
      ensures r == Stored <==> PutAccepted(old(Abs()), k)
      ensures r == Stale <==> k in inProgress && inProgress[k] != generation
      ensures r == Stale ==> Abs() == old(Abs())
      ensures forall j :: j in entries ==> j in Added(old(entries), k, res) && entries[j] == Added(old(entries), k, res)[j]
      ensures forall j :: j in entries && j != k ==> j in old(entries) && entries[j] == old(entries)[j]
      ensures r == Stored ==> k in entries && entries[k] == if k in old(entries) then old(entries)[k] else res
      ensures r == Stored ==> |entries| <= limit
      ensures r == Stored ==> entries == Added(old(entries), k, res) || |entries| == limit
    {
      if k in inProgress && inProgress[k] != generation {
        return Stale;
      }
      if k !in entries {
        entries := entries[k := res];
      }
      while |entries| > limit
        invariant k in entries
        invariant forall j :: j in entries ==> j in Added(old(entries), k, res) && entries[j] == Added(old(entries), k, res)[j]
        invariant entries == Added(old(entries), k, res) || |entries| >= limit
        decreases |entries|
      {
        assert entries.Keys != {k} by {
          assert |{k}| == 1 && |entries| == |entries.Keys|;
        }
        var j :| j in entries && j != k;
        ghost var before := entries.Keys;
        entries := entries - {j};
        assert entries.Keys == before - {j};
      }
      return Stored;
    }

    /** Evicting every response and moving to the next generation. */
    method Clear()
      modifies this`entries, this`generation
      ensures Abs() == old(Abs()).(entries := map[], generation := NextGeneration(old(generation)))
      ensures entries == map[] && generation == if old(generation) == U64_MAX then 0 else old(generation) + 1
    {
      generation := AddWrap(generation, 1);
      while entries != map[]
        invariant generation == NextGeneration(old(generation)) && inProgress == old(inProgress)
        decreases |entries|
      {
        var k :| k in entries;
        ghost var before := entries.Keys;
        entries := entries - {k};
        assert entries.Keys == before - {k};
      }
    }
  }
}

/**
 * Producers of attestation data against head changes. publishHead holds the
 * head lock while it clears the cache and swaps the head, but the cache's own
 * lock is free in between.
 */
module AttestationRuns {
  import opened Words
  import opened AttestationData

  type Pid = nat

  /** `stamp` counts the clears before the producer marked its slot. */
  datatype Producer =
    | Marked(slot: Slot, stamp: nat)
    | HasHead(slot: Slot, stamp: nat, head: Root)
    | Finished(slot: Slot, stamp: nat)

  datatype Publish = Quiet | Locked(root: Root) | Cleared(root: Root)

  datatype State = State(cache: Cache, head: Root, publish: Publish, producers: map<Pid, Producer>, clears: nat)

  datatype Event =
    | Mark(p: Pid, k: Slot)
    | ReadHead(p: Pid)
    | Put(p: Pid)
    | Unmark(p: Pid)
    | Trim(k: Slot)
    | LockHead(root: Root)
    | ClearCache
    | SwapHead

  ghost predicate Step(s: State, e: Event, s': State) {
    match e
    case Mark(p, k) =>
      && p !in s.producers && k !in s.cache.inProgress
      && s' == s.(cache := s.cache.(inProgress := s.cache.inProgress[k := s.cache.generation]),
                  producers := s.producers[p := Marked(k, s.clears)])
    case ReadHead(p) =>
      && p in s.producers && s.producers[p].Marked? && s.publish == Quiet
      && s' == s.(producers := s.producers[p := HasHead(s.producers[p].slot, s.producers[p].stamp, s.head)])
    case Put(p) =>
      && p in s.producers && s.producers[p].HasHead?
      && var q := s.producers[p];
         s' == s.(producers := s.producers[p := Finished(q.slot, q.stamp)],
                  cache := if PutAccepted(s.cache, q.slot) then s.cache.(entries := Added(s.cache.entries, q.slot, q.head)) else s.cache)
    case Unmark(p) =>
      && p in s.producers
      && s' == s.(producers := s.producers - {p}, cache := s.cache.(inProgress := s.cache.inProgress - {s.producers[p].slot}))
    case Trim(k) =>
      s' == s.(cache := s.cache.(entries := s.cache.entries - {k}))
    case LockHead(root) =>
      s.publish == Quiet && s' == s.(publish := Locked(root))
    case ClearCache =>
      && s.publish.Locked? && s.publish.root != s.head
      && s' == s.(publish := Cleared(s.publish.root), clears := s.clears + 1,
                  cache := s.cache.(entries := map[], generation := NextGeneration(s.cache.generation)))
    case SwapHead =>
      && (s.publish.Cleared? || (s.publish.Locked? && s.publish.root == s.head))
      && s' == s.(publish := Quiet, head := s.publish.root)
  }

  ghost predicate Init(s: State) {
    s.cache == Cache(map[], map[], 0) && s.publish == Quiet && s.producers == map[] && s.clears == 0
  }

  ghost predicate Run(states: seq<State>, events: seq<Event>) {
    && |states| == |events| + 1 && Init(states[0])
    && forall i :: 0 <= i < |events| ==> Step(states[i], events[i], states[i + 1])
  }

  /**
   * The one way to store an old response: a producer of an uncached slot that
   * has slept through a positive multiple of 2^64 head changes, so that the
   * generation is its own again, and whose head is no longer, or about to be
   * no longer, the published one.
   */
  ghost predicate Hazard(s: State, e: Event) {
    && e.Put? && e.p in s.producers && s.producers[e.p].HasHead?
    && var q := s.producers[e.p];
       && q.stamp < s.clears && q.stamp % U64_LIMIT == s.clears % U64_LIMIT
       && q.slot !in s.cache.entries && (q.head != s.head || s.publish.Cleared?)
  }

  /** Every cached response was computed from the head that is published, or being published. */
  ghost predicate Current(s: State) {
    forall k :: k in s.cache.entries ==> s.cache.entries[k] == s.head && (s.publish.Cleared? ==> s.cache.entries[k] == s.publish.root)
  }

  ghost predicate StampsSane(s: State) {
    && s.cache.generation == s.clears % U64_LIMIT
    && (forall p :: p in s.producers ==>
          && s.producers[p].stamp <= s.clears && s.producers[p].slot in s.cache.inProgress
          && s.cache.inProgress[s.producers[p].slot] == s.producers[p].stamp % U64_LIMIT)
    && (forall p, q :: p in s.producers && q in s.producers && s.producers[p].slot == s.producers[q].slot ==> p == q)
  }

  /** A head read since the last clear is the published head, and cannot exist between clear and swap. */
  ghost predicate HeadsSane(s: State) {
    && (forall p :: p in s.producers && s.producers[p].HasHead? && s.producers[p].stamp == s.clears ==>
          s.producers[p].head == s.head && !s.publish.Cleared?)
    && (s.publish.Cleared? ==> s.publish.root != s.head)
  }

  ghost predicate Inv(s: State) { StampsSane(s) && HeadsSane(s) && Current(s) }

  lemma {:induction false} SameResidue(a: nat, b: nat)
    requires a <= b && b - a < U64_LIMIT && a % U64_LIMIT == b % U64_LIMIT
    ensures a == b
  {
    assert b - a == U64_LIMIT * (b / U64_LIMIT - a / U64_LIMIT);
  }

  lemma {:induction false} GenerationWraps(n: nat)
    ensures NextGeneration(n % U64_LIMIT) == (n + 1) % U64_LIMIT
  {
  }

  lemma {:induction false} StampsKept(s: State, e: Event, s': State)
    requires StampsSane(s) && Step(s, e, s')
    ensures StampsSane(s')
  {
    GenerationWraps(s.clears);
  }

  lemma {:induction false} PutIsCurrent(s: State, e: Event)
    requires Inv(s) && e.Put? && e.p in s.producers && s.producers[e.p].HasHead? && !Hazard(s, e)
    requires PutAccepted(s.cache, s.producers[e.p].slot) && s.producers[e.p].slot !in s.cache.entries
    ensures s.producers[e.p].head == s.head && !s.publish.Cleared?
  {
  }

  lemma {:induction false} HeadsKept(s: State, e: Event, s': State)
    requires StampsSane(s) && HeadsSane(s) && Step(s, e, s')
    ensures HeadsSane(s')
  {
  }

  lemma {:induction false} CurrentKept(s: State, e: Event, s': State)
    requires Inv(s) && Step(s, e, s') && !Hazard(s, e)
    ensures Current(s')
  {
    if e.Put? && PutAccepted(s.cache, s.producers[e.p].slot) && s.producers[e.p].slot !in s.cache.entries {
      PutIsCurrent(s, e);
    }
  }

  lemma {:induction false} HazardIsWrong(s: State, e: Event, s': State)
    requires StampsSane(s) && HeadsSane(s) && Step(s, e, s') && Hazard(s, e)
    ensures !Current(s')
  {
    assert s.producers[e.p].slot in s'.cache.entries;
  }

  lemma {:induction false} RunKeepsStamps(states: seq<State>, events: seq<Event>, n: nat)
    requires Run(states, events) && n < |states|
    ensures StampsSane(states[n]) && HeadsSane(states[n])
    decreases n
  {
    hide Step;
    if n > 0 {
      RunKeepsStamps(states, events, n - 1);
      assert Step(states[n - 1], events[n - 1], states[n - 1 + 1]);
      StampsKept(states[n - 1], events[n - 1], states[n]);
      HeadsKept(states[n - 1], events[n - 1], states[n]);
    }
  }

  lemma {:induction false} RunKeeps(states: seq<State>, events: seq<Event>, n: nat)
    requires Run(states, events) && n < |states|
    requires forall i :: 0 <= i < n ==> !Hazard(states[i], events[i])
    ensures Inv(states[n])
    decreases n
  {
    hide Step, Hazard;
    RunKeepsStamps(states, events, n);
    if n > 0 {
      RunKeeps(states, events, n - 1);
      assert Step(states[n - 1], events[n - 1], states[n - 1 + 1]);
      CurrentKept(states[n - 1], events[n - 1], states[n]);
    } else {
      assert states[0].cache.entries == map[];
    }
  }

  /**
   * In every interleaving of producers and head changes, every cached response
   * was computed from the head published at that moment, if and only if the
   * run has no hazard.
   */
  lemma {:induction false} CurrentIffNoHazard(states: seq<State>, events: seq<Event>)
    requires Run(states, events)
    ensures (forall n :: 0 <= n < |states| ==> Current(states[n]))
            <==> (forall i :: 0 <= i < |events| ==> !Hazard(states[i], events[i]))
  {
    if forall i :: 0 <= i < |events| ==> !Hazard(states[i], events[i]) {
      forall n | 0 <= n < |states|
        ensures Current(states[n])
      {
        RunKeeps(states, events, n);
      }
    } else {
      var i :| 0 <= i < |events| && Hazard(states[i], events[i]);
      RunKeepsStamps(states, events, i);
      assert Step(states[i], events[i], states[i + 1]);
      HazardIsWrong(states[i], events[i], states[i + 1]);
    }
  }

  /**
   * With fewer than 2^64 head changes during any one production, a hit always
   * returns a response computed from the published head.
   */
  lemma {:induction false} CacheMatchesPublishedHead(states: seq<State>, events: seq<Event>, n: nat, k: Slot)
    requires Run(states, events) && n < |states| && k in states[n].cache.entries
    requires forall i, p :: 0 <= i < n && p in states[i].producers ==> states[i].clears - states[i].producers[p].stamp < U64_LIMIT
    ensures states[n].cache.entries[k] == states[n].head
  {
    forall i | 0 <= i < n
      ensures !Hazard(states[i], events[i])
    {
      if Hazard(states[i], events[i]) {
        SameResidue(states[i].producers[events[i].p].stamp, states[i].clears);
      }
    }
    RunKeeps(states, events, n);
  }

  // The hazard is real. The generation comes round again: a producer that sleeps
  // through 2^64 head changes has its response, computed from the first head,
  // accepted under the last.

  /** No publication of another head is under way, and the response is cached. */
  ghost predicate Lasting(s: State, k: Slot, head: Root, res: Root) {
    && k in s.cache.entries && s.cache.entries[k] == res && s.head == head
    && !s.publish.Cleared? && (s.publish.Locked? ==> s.publish.root == head)
  }

  lemma StepKeepsResponse(s: State, e: Event, s': State, k: Slot, head: Root, res: Root)
    requires Step(s, e, s') && Lasting(s, k, head, res) && e != Trim(k) && (e.LockHead? ==> e.root == head)
    ensures Lasting(s', k, head, res)
  {
  }

  /**
   * A cached response is served as long as the head stays the same: neither
   * publishing that head again nor any producer removes or replaces it.
   */
  lemma {:induction false} UnchangedHeadKeepsResponses(states: seq<State>, events: seq<Event>, n: nat, m: nat, k: Slot)
    requires Run(states, events) && n <= m < |states|
    requires k in states[n].cache.entries && states[n].publish == Quiet
    requires forall i :: n <= i < m ==> events[i] != Trim(k) && (events[i].LockHead? ==> events[i].root == states[n].head)
    ensures Lasting(states[m], k, states[n].head, states[n].cache.entries[k])
    decreases m
  {
    hide Step;
    if n < m {
      UnchangedHeadKeepsResponses(states, events, n, m - 1, k);
      assert Step(states[m - 1], events[m - 1], states[m - 1 + 1]);
      StepKeepsResponse(states[m - 1], events[m - 1], states[m], k, states[n].head, states[n].cache.entries[k]);
    }
  }

  lemma {:induction false} ExtendRun(states: seq<State>, events: seq<Event>, e: Event, s: State)
    requires Run(states, events) && Step(states[|states| - 1], e, s)
    ensures Run(states + [s], events + [e])
  {
  }

  ghost function Asleep(n: nat): State {
    State(Cache(map[], map[0 := 0], n % U64_LIMIT), n, Quiet, map[0 := HasHead(0, 0, 0)], n)
  }

  lemma {:induction false} SleepThroughOne(n: nat)
    ensures var s := Asleep(n);
            var cleared := Asleep(n + 1).(head := n, publish := Cleared(n + 1));
            && Step(s, LockHead(n + 1), s.(publish := Locked(n + 1)))
            && Step(s.(publish := Locked(n + 1)), ClearCache, cleared)
            && Step(cleared, SwapHead, Asleep(n + 1))
  {
    GenerationWraps(n);
  }

  lemma {:induction false} SleepThrough(n: nat) returns (states: seq<State>, events: seq<Event>)
    ensures Run(states, events) && states[|states| - 1] == Asleep(n)
  {
    if n == 0 {
      var s0 := State(Cache(map[], map[], 0), 0, Quiet, map[], 0);
      var s1 := s0.(cache := Cache(map[], map[0 := 0], 0), producers := map[0 := Marked(0, 0)]);
      assert Step(s0, Mark(0, 0), s1) && Step(s1, ReadHead(0), Asleep(0));
      states, events := [s0, s1, Asleep(0)], [Mark(0, 0), ReadHead(0)];
    } else {
      states, events := SleepThrough(n - 1);
      SleepThroughOne(n - 1);
      var s := Asleep(n - 1);
      var locked := s.(publish := Locked(n));
      var cleared := Asleep(n).(head := n - 1, publish := Cleared(n));
      hide Step;
      ExtendRun(states, events, LockHead(n), locked);
      states, events := states + [locked], events + [LockHead(n)];
      ExtendRun(states, events, ClearCache, cleared);
      states, events := states + [cleared], events + [ClearCache];
      ExtendRun(states, events, SwapHead, Asleep(n));
      states, events := states + [Asleep(n)], events + [SwapHead];
    }
  }

  lemma {:induction false} WrapAroundServesOldHead() returns (states: seq<State>, events: seq<Event>)
    ensures Run(states, events)
    ensures var s := states[|states| - 1]; 0 in s.cache.entries && s.cache.entries[0] != s.head
  {
    states, events := SleepThrough(U64_LIMIT);
    var s := Asleep(U64_LIMIT);
    var s' := s.(producers := map[0 := Finished(0, 0)], cache := s.cache.(entries := map[0 := 0]));
    assert U64_LIMIT % U64_LIMIT == 0;
    assert Step(s, Put(0), s');
    hide Step;
    ExtendRun(states, events, Put(0), s');
    states, events := states + [s'], events + [Put(0)];
  }
}

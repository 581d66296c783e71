/**
 * The key order used by multilocks, and the construction of a lock's key list.
 */
module LockKeys {
  import opened Options
  type Key = string

  /** Lexicographic order, as used by Go's string comparison. */
  predicate Less(a: Key, b: Key) {
    b != [] && (a == [] || a[0] < b[0] || (a[0] == b[0] && Less(a[1..], b[1..])))
  }

  lemma {:induction false} LessIsIrreflexive(a: Key)
    ensures !Less(a, a)
  {
    if a != [] { LessIsIrreflexive(a[1..]); }
  }

  lemma {:induction false} LessIsTransitive(a: Key, b: Key, c: Key)
    requires Less(a, b) && Less(b, c)
    ensures Less(a, c)
  {
    if a != [] && a[0] == b[0] && b[0] == c[0] {
      LessIsTransitive(a[1..], b[1..], c[1..]);
    }
  }

  lemma {:induction false} LessIsTotal(a: Key, b: Key)
    ensures Less(a, b) || a == b || Less(b, a)
  {
    if a != [] && b != [] && a[0] == b[0] {
      LessIsTotal(a[1..], b[1..]);
      assert a == [a[0]] + a[1..] && b == [b[0]] + b[1..];
    }
  }

  ghost predicate Sorted(keys: seq<Key>) {
    forall i, j :: 0 <= i < j < |keys| ==> Less(keys[i], keys[j])
  }

  ghost predicate Distinct(keys: seq<Key>) {
    forall i, j :: 0 <= i < j < |keys| ==> keys[i] != keys[j]
  }

  method Unique(arr: seq<Key>) returns (result: seq<Key>)
    ensures Distinct(result)
    ensures forall k :: k in result <==> k in arr
  {
    if |arr| <= 1 {
      return arr;
    }
    var found: set<Key> := {};
    result := [];
    for i := 0 to |arr|
      invariant forall k :: k in found <==> k in arr[..i]
      invariant forall k :: k in result <==> k in found
      invariant Distinct(result)
    {
      if arr[i] !in found {
        found := found + {arr[i]};
        result := result + [arr[i]];
      }
    }
    assert arr[..|arr|] == arr;
  }

  /** The standard library's sort, as an insertion into an already sorted list. */
  method Insert(keys: seq<Key>, k: Key) returns (result: seq<Key>)
    requires Sorted(keys) && k !in keys
    ensures Sorted(result)
    ensures forall x :: x in result <==> x in keys || x == k
  {
    var i := 0;
    while i < |keys| && Less(keys[i], k)
      invariant 0 <= i <= |keys|
      invariant forall j :: 0 <= j < i ==> Less(keys[j], k)
    {
      i := i + 1;
    }
    forall j | i <= j < |keys|
      ensures Less(k, keys[j])
    {
      LessIsTotal(keys[i], k);
      if i < j { LessIsTransitive(k, keys[i], keys[j]); }
    }
    result := keys[..i] + [k] + keys[i..];
    assert keys == keys[..i] + keys[i..];
    assert forall j :: 0 <= j < |result| ==> result[j] == if j < i then keys[j] else if j == i then k else keys[j - 1];
  }

  /** A multilock's keys: no lock for no names, otherwise the names sorted without repetition. */
  method NewMultilock(names: seq<Key>) returns (keys: Option<seq<Key>>)
    ensures keys.None? <==> names == []
    ensures keys.Some? ==> Sorted(keys.value) && forall k :: k in keys.value <==> k in names
  {
    if names == [] {
      return None;
    }
    var pending := Unique(names);
    var sorted: seq<Key> := [];
    for i := 0 to |pending|
      invariant Sorted(sorted)
      invariant forall k :: k in sorted <==> k in pending[..i]
    {
      sorted := Insert(sorted, pending[i]);
    }
    assert pending[..|pending|] == pending;
    return Some(sorted);
  }
}

/**
 * Multilocks over a global table of one-token channels, as a state machine.
 * `Clean` closes channels under goroutines that are blocked on them, and
 * `getChan` recreates them, so a key's channel changes over time.
 */
module Multilock {
  import opened Options
  import opened LockKeys

  type Chan = nat
  type Lid = nat

  /** Where the goroutine using a lock object is. */
  datatype Pc =
    | Idle
    | Locking                                             // top of Lock's loop
    | Waiting(ch: Chan)                                   // at the receive from `ch`
    | Held
    | Releasing(returned: nat)                            // in Unlock's loop
    | Cleanup                                             // before Clean takes the table lock
    | Sweeping(todo: set<Key>, doomed: set<Key>)          // in Clean's loop over the table
    | Closing(key: Key, todo: set<Key>, doomed: set<Key>) // took the token, has not closed yet

  datatype Lock = Lock(keys: seq<Key>, chans: seq<Chan>, pc: Pc)

  datatype State = State(
    table: map<Key, Chan>,
    open: set<Chan>,
    token: set<Chan>,
    next: Chan,
    tableLock: Option<Lid>,
    locks: map<Lid, Lock>)

  function Put(s: State, t: Lid, l: Lock): State { s.(locks := s.locks[t := l]) }

  // ----- the steps; each is one channel operation or one region under the table lock -----

  ghost predicate Begin(s: State, s': State, t: Lid)
    requires t in s.locks
  {
    && s.locks[t].pc == Idle
    && s' == Put(s, t, s.locks[t].(pc := Locking, chans := []))
  }

  ghost predicate GetChan(s: State, s': State, t: Lid)
    requires t in s.locks
  {
    var l := s.locks[t];
    && l.pc == Locking && |l.chans| < |l.keys| && s.tableLock == None
    && var k := l.keys[|l.chans|];
       if k in s.table then s' == Put(s, t, l.(pc := Waiting(s.table[k])))
       else s' == Put(s, t, l.(pc := Waiting(s.next))).(
                    table := s.table[k := s.next],
                    open := s.open + {s.next},
                    token := s.token + {s.next},
                    next := s.next + 1)
  }

  ghost predicate Receive(s: State, s': State, t: Lid)
    requires t in s.locks
  {
    var l := s.locks[t];
    && l.pc.Waiting? && l.pc.ch in s.token
    && s' == Put(s, t, l.(pc := Locking, chans := l.chans + [l.pc.ch])).(token := s.token - {l.pc.ch})
  }

  /** A receive from a closed, drained channel: the loop asks for the key's channel again. */
  ghost predicate Retry(s: State, s': State, t: Lid)
    requires t in s.locks
  {
    var l := s.locks[t];
    && l.pc.Waiting? && l.pc.ch !in s.token && l.pc.ch !in s.open
    && s' == Put(s, t, l.(pc := Locking))
  }

  ghost predicate Acquired(s: State, s': State, t: Lid)
    requires t in s.locks
  {
    var l := s.locks[t];
    && l.pc == Locking && |l.chans| == |l.keys|
    && s' == Put(s, t, l.(pc := Held))
  }

  ghost predicate Unlock(s: State, s': State, t: Lid)
    requires t in s.locks
  {
    s.locks[t].pc == Held && s' == Put(s, t, s.locks[t].(pc := Releasing(0)))
  }

  /** Sending a token back: enabled only on an open channel with room. */
  ghost predicate Return(s: State, s': State, t: Lid)
    requires t in s.locks
  {
    var l := s.locks[t];
    && l.pc.Releasing? && l.pc.returned < |l.chans|
    && var ch := l.chans[l.pc.returned];
       && ch in s.open && ch !in s.token
       && s' == Put(s, t, l.(pc := Releasing(l.pc.returned + 1))).(token := s.token + {ch})
  }

  ghost predicate Returned(s: State, s': State, t: Lid)
    requires t in s.locks
  {
    var l := s.locks[t];
    && l.pc.Releasing? && l.pc.returned >= |l.chans|
    && s' == Put(s, t, l.(pc := Cleanup, chans := []))
  }

  ghost predicate StartClean(s: State, s': State, t: Lid)
    requires t in s.locks
  {
    && s.locks[t].pc == Cleanup && s.tableLock == None
    && s' == Put(s, t, s.locks[t].(pc := Sweeping(s.table.Keys, {}))).(tableLock := Some(t))
  }

  ghost predicate Visit(s: State, s': State, t: Lid)
    requires t in s.locks
  {
    var l := s.locks[t];
    && l.pc.Sweeping?
    && exists k :: && k in l.pc.todo && k in s.table
                   && (if s.table[k] in s.token
                       then s' == Put(s, t, l.(pc := Closing(k, l.pc.todo - {k}, l.pc.doomed))).(token := s.token - {s.table[k]})
                       else s' == Put(s, t, l.(pc := Sweeping(l.pc.todo - {k}, l.pc.doomed))))
  }

  ghost predicate Close(s: State, s': State, t: Lid)
    requires t in s.locks
  {
    var l := s.locks[t];
    && l.pc.Closing? && l.pc.key in s.table
    && s' == Put(s, t, l.(pc := Sweeping(l.pc.todo, l.pc.doomed + {l.pc.key}))).(open := s.open - {s.table[l.pc.key]})
  }

  ghost predicate FinishClean(s: State, s': State, t: Lid)
    requires t in s.locks
  {
    var l := s.locks[t];
    && l.pc.Sweeping? && l.pc.todo == {}
    && s' == Put(s, t, l.(pc := Idle)).(table := s.table - l.pc.doomed, tableLock := None)
  }

  /** Steps the runtime takes on its own, as opposed to a client's call of Lock or Unlock. */
  ghost predicate InternalStep(s: State, s': State, t: Lid) {
    && t in s.locks
    && (|| GetChan(s, s', t) || Receive(s, s', t) || Retry(s, s', t) || Acquired(s, s', t)
        || Return(s, s', t) || Returned(s, s', t)
        || StartClean(s, s', t) || Visit(s, s', t) || Close(s, s', t) || FinishClean(s, s', t))
  }

  ghost predicate Step(s: State, s': State) {
    exists t :: t in s.locks && (Begin(s, s', t) || Unlock(s, s', t) || InternalStep(s, s', t))
  }

  ghost predicate Init(s: State) {
    && s.table == map[] && s.open == {} && s.token == {} && s.tableLock == None
    && forall t :: t in s.locks ==> s.locks[t].pc == Idle && s.locks[t].chans == [] && Sorted(s.locks[t].keys)
  }

  ghost predicate Run(r: seq<State>) {
    && r != [] && Init(r[0])
    && forall i :: 0 <= i < |r| - 1 ==> Step(r[i], r[i + 1])
  }

  // ----- the invariant -----

  function FirstHeld(l: Lock): nat { if l.pc.Releasing? then l.pc.returned else 0 }

  /** `l` has the token of its `i`-th key. */
  ghost predicate HoldsAt(l: Lock, i: int) {
    FirstHeld(l) <= i < |l.chans| && i < |l.keys|
  }

  ghost predicate Holds(s: State, t: Lid, k: Key) {
    t in s.locks && exists i :: HoldsAt(s.locks[t], i) && s.locks[t].keys[i] == k
  }

  ghost predicate Shape(l: Lock) {
    && Sorted(l.keys) && Distinct(l.keys)
    && |l.chans| <= |l.keys|
    && (l.pc.Waiting? ==> |l.chans| < |l.keys|)
    && (l.pc.Held? ==> |l.chans| == |l.keys|)
    && (l.pc.Releasing? ==> l.pc.returned <= |l.chans|)
    && (l.pc.Idle? || l.pc.Cleanup? || l.pc.Sweeping? || l.pc.Closing? ==> l.chans == [])
  }

  /** A held channel is the open one in the table, and its token is out. */
  ghost predicate HeldChansLive(s: State) {
    forall t, i :: t in s.locks && HoldsAt(s.locks[t], i) ==>
      var l := s.locks[t];
      && l.keys[i] in s.table && s.table[l.keys[i]] == l.chans[i]
      && l.chans[i] in s.open && l.chans[i] !in s.token
  }

  ghost predicate Exclusive(s: State) {
    forall t, u, k :: Holds(s, t, k) && Holds(s, u, k) ==> t == u
  }

  ghost predicate ChannelsSane(s: State) {
    && (forall k :: k in s.table ==> s.table[k] < s.next)
    && (forall j, k :: j in s.table && k in s.table && s.table[j] == s.table[k] ==> j == k)
    && (forall c :: c in s.open ==> c < s.next)
    && s.token <= s.open
  }

  ghost predicate WaitersSane(s: State) {
    forall t :: t in s.locks && s.locks[t].pc.Waiting? && |s.locks[t].chans| < |s.locks[t].keys| ==>
      var l := s.locks[t];
      && l.pc.ch < s.next
      && (l.pc.ch in s.open ==> l.keys[|l.chans|] in s.table && s.table[l.keys[|l.chans|]] == l.pc.ch)
  }

  predicate InClean(pc: Pc) { pc.Sweeping? || pc.Closing? }

  function Doomed(s: State): set<Key> {
    if s.tableLock.Some? && s.tableLock.value in s.locks && InClean(s.locks[s.tableLock.value].pc)
    then s.locks[s.tableLock.value].pc.doomed else {}
  }

  ghost predicate IsClosing(s: State, k: Key) {
    && s.tableLock.Some? && s.tableLock.value in s.locks
    && s.locks[s.tableLock.value].pc.Closing? && s.locks[s.tableLock.value].pc.key == k
  }

  ghost predicate CleanerSane(s: State) {
    && (forall t :: t in s.locks ==> (InClean(s.locks[t].pc) <==> s.tableLock == Some(t)))
    && (s.tableLock.Some? ==> s.tableLock.value in s.locks)
    && (forall t :: t in s.locks && InClean(s.locks[t].pc) ==>
          && s.locks[t].pc.todo <= s.table.Keys && s.locks[t].pc.doomed <= s.table.Keys
          && s.locks[t].pc.todo !! s.locks[t].pc.doomed)
    && (forall t :: t in s.locks && s.locks[t].pc.Closing? ==>
          var pc := s.locks[t].pc;
          pc.key in s.table && pc.key !in pc.todo && pc.key !in pc.doomed && s.table[pc.key] !in s.token)
  }

  /** Channels in the table are open, except those a running Clean has already closed. */
  ghost predicate TableOpen(s: State) {
    && (forall k :: k in s.table && k !in Doomed(s) ==> s.table[k] in s.open)
    && (forall k :: k in s.table && k in Doomed(s) ==> s.table[k] !in s.open)
  }

  /** Token conservation: a missing token is with exactly one holder or with the cleaner. */
  ghost predicate Conserved(s: State) {
    && (forall k :: k in s.table && s.table[k] in s.open && s.table[k] !in s.token && !IsClosing(s, k) ==>
          exists t :: Holds(s, t, k))
    && (forall t, k :: Holds(s, t, k) ==> !IsClosing(s, k))
  }

  /** `t` will still run Clean over `k`, or already has `k` on its removal list. */
  ghost predicate Responsible(s: State, t: Lid, k: Key) {
    t in s.locks &&
    match s.locks[t].pc
    case Idle => false
    case Sweeping(todo, doomed) => k in todo || k in doomed
    case Closing(key, todo, doomed) => k == key || k in todo || k in doomed
    case _ => true
  }

  ghost predicate Attended(s: State) {
    forall k :: k in s.table ==> exists t :: Responsible(s, t, k)
  }

  ghost predicate Shapes(s: State) {
    forall t :: t in s.locks ==> Shape(s.locks[t])
  }

  ghost predicate HoldingsSane(s: State) { HeldChansLive(s) && Exclusive(s) }

  ghost predicate TableSane(s: State) {
    ChannelsSane(s) && WaitersSane(s) && CleanerSane(s) && TableOpen(s)
  }

  ghost predicate Inv(s: State) {
    Shapes(s) && HoldingsSane(s) && TableSane(s) && Conserved(s) && Attended(s)
  }

  // ----- every step keeps it -----

  /** A step that moves one lock only affects what that lock holds. */
  ghost predicate OnlyMoves(s: State, s': State, t: Lid) {
    && t in s.locks && t in s'.locks && s'.locks.Keys == s.locks.Keys
    && forall u :: u in s.locks && u != t ==> s'.locks[u] == s.locks[u]
  }

  /** A step after which `t` holds nothing new changes what is held only at `t`. */
  lemma HoldsFrame(s: State, s': State, t: Lid)
    requires OnlyMoves(s, s', t) && s'.locks[t].keys == s.locks[t].keys
    requires forall i :: HoldsAt(s'.locks[t], i) ==> HoldsAt(s.locks[t], i)
    ensures forall u, k :: Holds(s', u, k) ==> Holds(s, u, k)
    ensures forall u, k :: u != t && Holds(s, u, k) ==> Holds(s', u, k)
  {
    forall u, k | Holds(s', u, k)
      ensures Holds(s, u, k)
    {
      var i :| HoldsAt(s'.locks[u], i) && s'.locks[u].keys[i] == k;
      assert HoldsAt(s.locks[u], i);
    }
    forall u, k | u != t && Holds(s, u, k)
      ensures Holds(s', u, k)
    {
      var i :| HoldsAt(s.locks[u], i) && s.locks[u].keys[i] == k;
      assert HoldsAt(s'.locks[u], i);
    }
  }

  lemma HoldsSame(s: State, s': State, t: Lid)
    requires OnlyMoves(s, s', t) && s'.locks[t].keys == s.locks[t].keys
    requires forall i :: HoldsAt(s'.locks[t], i) <==> HoldsAt(s.locks[t], i)
    ensures forall u, k :: Holds(s', u, k) <==> Holds(s, u, k)
  {
    HoldsFrame(s, s', t);
    HoldsFrame(s', s, t);
  }

  /** A step after which `t` holds its `n`-th key too. */
  lemma HoldsMore(s: State, s': State, t: Lid, n: nat)
    requires OnlyMoves(s, s', t) && s'.locks[t].keys == s.locks[t].keys && n < |s.locks[t].keys|
    requires forall i :: HoldsAt(s'.locks[t], i) <==> HoldsAt(s.locks[t], i) || i == n
    ensures forall u, k :: Holds(s', u, k) <==> Holds(s, u, k) || (u == t && k == s.locks[t].keys[n])
  {
    HoldsFrame(s', s, t);
    forall u, k | Holds(s', u, k)
      ensures Holds(s, u, k) || (u == t && k == s.locks[t].keys[n])
    {
      var i :| HoldsAt(s'.locks[u], i) && s'.locks[u].keys[i] == k;
      assert (u == t && i == n) || HoldsAt(s.locks[u], i);
    }
    assert HoldsAt(s'.locks[t], n);
  }

  lemma HoldsIntro(s: State)
    ensures forall t, i :: t in s.locks && HoldsAt(s.locks[t], i) ==> Holds(s, t, s.locks[t].keys[i])
  {
  }

  /** A responsible lock other than the one that moves stays responsible. */
  lemma AttendedFrame(s: State, s': State, t: Lid)
    requires Attended(s) && OnlyMoves(s, s', t)
    requires forall k :: k in s'.table && k in s.table && Responsible(s, t, k) ==> Responsible(s', t, k)
    requires forall k :: k in s'.table && k !in s.table ==> Responsible(s', t, k)
    ensures Attended(s')
  {
    forall k | k in s'.table
      ensures exists u :: Responsible(s', u, k)
    {
      if k in s.table {
        var u :| Responsible(s, u, k);
        assert Responsible(s', u, k);
      }
    }
  }

  /** Moving a lock outside Clean, with the same holdings, disturbs nothing. */
  lemma QuietStep(s: State, s': State, t: Lid, l': Lock)
    requires Inv(s) && t in s.locks && s' == Put(s, t, l')
    requires Shape(l') && l'.keys == s.locks[t].keys
    requires !InClean(s.locks[t].pc) && !InClean(l'.pc) && l'.pc != Idle
    requires forall i :: HoldsAt(l', i) <==> HoldsAt(s.locks[t], i)
    requires forall i :: HoldsAt(l', i) ==> l'.chans[i] == s.locks[t].chans[i]
    requires l'.pc.Waiting? ==> l'.keys[|l'.chans|] in s.table && l'.pc.ch == s.table[l'.keys[|l'.chans|]]
    ensures Inv(s')
  {
    hide TableSane, Conserved, HoldingsSane, Attended;
    HoldsSame(s, s', t);
    QuietKeepsTable(s, s', t, l');
    QuietConserves(s, s', t, l');
    QuietKeepsHoldings(s, s', t, l');
    AttendedFrame(s, s', t);
  }

  lemma QuietKeepsHoldings(s: State, s': State, t: Lid, l': Lock)
    requires HoldingsSane(s) && t in s.locks && s' == Put(s, t, l') && l'.keys == s.locks[t].keys
    requires Shapes(s) && Shape(l')
    requires forall i :: HoldsAt(l', i) <==> HoldsAt(s.locks[t], i)
    requires forall i :: HoldsAt(l', i) ==> l'.chans[i] == s.locks[t].chans[i]
    requires forall u, k :: Holds(s', u, k) <==> Holds(s, u, k)
    ensures HoldingsSane(s')
  {
  }

  lemma QuietConserves(s: State, s': State, t: Lid, l': Lock)
    requires Conserved(s) && t in s.locks && s' == Put(s, t, l')
    requires !InClean(s.locks[t].pc) && !InClean(l'.pc)
    requires forall u, k :: Holds(s', u, k) <==> Holds(s, u, k)
    ensures Conserved(s')
  {
    assert forall k :: IsClosing(s', k) <==> IsClosing(s, k);
  }

  lemma QuietKeepsTable(s: State, s': State, t: Lid, l': Lock)
    requires Shapes(s) && TableSane(s) && t in s.locks && s' == Put(s, t, l')
    requires !InClean(s.locks[t].pc) && !InClean(l'.pc)
    requires l'.pc.Waiting? && |l'.chans| < |l'.keys| ==>
               l'.keys[|l'.chans|] in s.table && l'.pc.ch == s.table[l'.keys[|l'.chans|]]
    ensures TableSane(s')
  {
    assert Doomed(s') == Doomed(s);
  }

  // Each remaining step is split along the invariant's four parts.

  lemma FreshChanKeepsTable(s: State, s': State, t: Lid)
    requires Shapes(s) && TableSane(s) && t in s.locks && GetChan(s, s', t)
    requires s.locks[t].keys[|s.locks[t].chans|] !in s.table
    ensures TableSane(s')
  {
  }

  lemma FreshChanKeepsHoldings(s: State, s': State, t: Lid)
    requires Shapes(s) && HoldingsSane(s) && ChannelsSane(s) && t in s.locks && GetChan(s, s', t)
    requires s.locks[t].keys[|s.locks[t].chans|] !in s.table
    ensures HoldingsSane(s')
  {
    HoldsSame(s, s', t);
  }

  lemma FreshChanConserves(s: State, s': State, t: Lid)
    requires Conserved(s) && ChannelsSane(s) && t in s.locks && GetChan(s, s', t)
    requires s.locks[t].keys[|s.locks[t].chans|] !in s.table
    ensures Conserved(s')
  {
    HoldsSame(s, s', t);
    assert forall k :: !IsClosing(s', k);
  }

  lemma GetChanKeeps(s: State, s': State, t: Lid)
    requires Inv(s) && t in s.locks && GetChan(s, s', t)
    ensures Inv(s')
  {
    if s.locks[t].keys[|s.locks[t].chans|] in s.table {
      KnownChanKeeps(s, s', t);
    } else {
      FreshChanKeeps(s, s', t);
    }
  }

  lemma KnownChanKeeps(s: State, s': State, t: Lid)
    requires Inv(s) && t in s.locks && GetChan(s, s', t)
    requires s.locks[t].keys[|s.locks[t].chans|] in s.table
    ensures Inv(s')
  {
    hide Conserved, TableSane, HoldingsSane, Attended;
    QuietStep(s, s', t, s'.locks[t]);
  }

  lemma FreshChanKeeps(s: State, s': State, t: Lid)
    requires Inv(s) && t in s.locks && GetChan(s, s', t)
    requires s.locks[t].keys[|s.locks[t].chans|] !in s.table
    ensures Inv(s')
  {
    hide Conserved;
    FreshChanKeepsTable(s, s', t);
    FreshChanKeepsHoldings(s, s', t);
    FreshChanConserves(s, s', t);
    AttendedFrame(s, s', t);
  }

  lemma ReceiveMoves(s: State, s': State, t: Lid)
    requires Shapes(s) && t in s.locks && Receive(s, s', t)
    ensures var l := s.locks[t];
            forall u, k :: Holds(s', u, k) <==> Holds(s, u, k) || (u == t && k == l.keys[|l.chans|])
  {
    var n := |s.locks[t].chans|;
    assert forall i :: HoldsAt(s'.locks[t], i) <==> HoldsAt(s.locks[t], i) || i == n;
    HoldsMore(s, s', t, n);
  }

  lemma ReceiveKeepsTable(s: State, s': State, t: Lid)
    requires Shapes(s) && TableSane(s) && t in s.locks && Receive(s, s', t)
    ensures TableSane(s')
  {
    assert Doomed(s') == Doomed(s);
  }

  lemma ReceiveKeepsHoldings(s: State, s': State, t: Lid)
    requires Shapes(s) && HoldingsSane(s) && ChannelsSane(s) && WaitersSane(s)
    requires t in s.locks && Receive(s, s', t)
    ensures HoldingsSane(s')
  {
    ReceiveMoves(s, s', t);
    HoldsIntro(s);
  }

  lemma ReceiveConserves(s: State, s': State, t: Lid)
    requires Shapes(s) && TableSane(s) && Conserved(s) && t in s.locks && Receive(s, s', t)
    ensures Conserved(s')
  {
    ReceiveMoves(s, s', t);
    assert forall k :: IsClosing(s', k) <==> IsClosing(s, k);
    var l := s.locks[t];
    assert s.table[l.keys[|l.chans|]] == l.pc.ch;
    assert Holds(s', t, l.keys[|l.chans|]);
  }

  lemma ReceiveKeeps(s: State, s': State, t: Lid)
    requires Inv(s) && t in s.locks && Receive(s, s', t)
    ensures Inv(s')
  {
    hide Conserved;
    ReceiveKeepsTable(s, s', t);
    ReceiveKeepsHoldings(s, s', t);
    ReceiveConserves(s, s', t);
    AttendedFrame(s, s', t);
  }

  /** The channel a Releasing lock sends to next is open and has room, so the send neither blocks nor panics. */
  lemma ReturnIsEnabled(s: State, t: Lid)
    requires Inv(s) && t in s.locks && s.locks[t].pc.Releasing? && s.locks[t].pc.returned < |s.locks[t].chans|
    ensures var ch := s.locks[t].chans[s.locks[t].pc.returned]; ch in s.open && ch !in s.token
  {
    assert HoldsAt(s.locks[t], s.locks[t].pc.returned);
  }

  lemma ReturnKeepsTable(s: State, s': State, t: Lid)
    requires Shapes(s) && TableSane(s) && t in s.locks && Return(s, s', t)
    requires HoldingsSane(s) && Conserved(s)
    ensures TableSane(s')
  {
    assert Doomed(s') == Doomed(s);
    assert HoldsAt(s.locks[t], s.locks[t].pc.returned);
    HoldsIntro(s);
  }

  lemma ReturnKeepsHoldings(s: State, s': State, t: Lid)
    requires Shapes(s) && HoldingsSane(s) && ChannelsSane(s) && t in s.locks && Return(s, s', t)
    ensures HoldingsSane(s')
  {
    HoldsFrame(s, s', t);
    HoldsIntro(s);
    assert HoldsAt(s.locks[t], s.locks[t].pc.returned);
  }

  lemma ReturnConserves(s: State, s': State, t: Lid)
    requires Shapes(s) && HoldingsSane(s) && Conserved(s) && t in s.locks && Return(s, s', t)
    requires forall k :: IsClosing(s', k) <==> IsClosing(s, k)
    ensures Conserved(s')
  {
    HoldsFrame(s, s', t);
    var n := s.locks[t].pc.returned;
    assert HoldsAt(s.locks[t], n);
    forall k | k in s'.table && s'.table[k] in s'.open && s'.table[k] !in s'.token && !IsClosing(s', k)
      ensures exists u :: Holds(s', u, k)
    {
      var u :| Holds(s, u, k);
      var i :| HoldsAt(s.locks[u], i) && s.locks[u].keys[i] == k;
      assert HoldsAt(s'.locks[u], i);
      assert Holds(s', u, k);
    }
  }

  lemma ReturnKeeps(s: State, s': State, t: Lid)
    requires Inv(s) && t in s.locks && Return(s, s', t)
    ensures Inv(s')
  {
    hide Conserved;
    ReturnKeepsTable(s, s', t);
    ReturnKeepsHoldings(s, s', t);
    ReturnConserves(s, s', t);
    AttendedFrame(s, s', t);
  }

  lemma StartCleanKeeps(s: State, s': State, t: Lid)
    requires Inv(s) && t in s.locks && StartClean(s, s', t)
    ensures Inv(s')
  {
    HoldsSame(s, s', t);
    StartCleanKeepsTable(s, s', t);
    AttendedFrame(s, s', t);
  }

  lemma StartCleanKeepsTable(s: State, s': State, t: Lid)
    requires Shapes(s) && TableSane(s) && t in s.locks && StartClean(s, s', t)
    ensures TableSane(s')
  {
    assert Doomed(s') == Doomed(s) == {};
  }

  lemma VisitKeepsTable(s: State, s': State, t: Lid)
    requires Shapes(s) && TableSane(s) && t in s.locks && Visit(s, s', t)
    ensures TableSane(s')
  {
    assert Doomed(s') == Doomed(s);
  }

  lemma VisitKeepsHoldings(s: State, s': State, t: Lid)
    requires Shapes(s) && HoldingsSane(s) && t in s.locks && Visit(s, s', t)
    ensures HoldingsSane(s')
  {
    HoldsSame(s, s', t);
  }

  lemma VisitConserves(s: State, s': State, t: Lid)
    requires Shapes(s) && HoldingsSane(s) && TableSane(s) && Conserved(s) && t in s.locks && Visit(s, s', t)
    ensures Conserved(s')
  {
    HoldsSame(s, s', t);
    HoldsIntro(s);
    assert forall k :: !IsClosing(s, k);
  }

  /** A key Clean passes over has its token out, so its holder will run a later Clean. */
  lemma VisitAttends(s: State, s': State, t: Lid)
    requires Inv(s) && t in s.locks && Visit(s, s', t)
    ensures Attended(s')
  {
    forall k | k in s'.table
      ensures exists u :: Responsible(s', u, k)
    {
      var u :| Responsible(s, u, k);
      if u != t || Responsible(s', t, k) {
        assert Responsible(s', u, k);
      } else {
        assert s.table[k] in s.open && s.table[k] !in s.token && !IsClosing(s, k);
        var v :| Holds(s, v, k);
        assert Responsible(s', v, k);
      }
    }
  }

  lemma VisitKeeps(s: State, s': State, t: Lid)
    requires Inv(s) && t in s.locks && Visit(s, s', t)
    ensures Inv(s')
  {
    hide TableSane, Conserved, HoldingsSane;
    VisitKeepsHoldings(s, s', t);
    VisitKeepsTable(s, s', t);
    VisitConserves(s, s', t);
    VisitAttends(s, s', t);
  }

  lemma CloseKeepsTable(s: State, s': State, t: Lid)
    requires Shapes(s) && TableSane(s) && t in s.locks && Close(s, s', t)
    ensures TableSane(s')
  {
    assert Doomed(s') == Doomed(s) + {s.locks[t].pc.key};
  }

  lemma CloseKeepsHoldings(s: State, s': State, t: Lid)
    requires Shapes(s) && HoldingsSane(s) && TableSane(s) && Conserved(s) && t in s.locks && Close(s, s', t)
    ensures HoldingsSane(s')
  {
    HoldsSame(s, s', t);
    HoldsIntro(s);
    assert IsClosing(s, s.locks[t].pc.key);
  }

  lemma CloseConserves(s: State, s': State, t: Lid)
    requires Shapes(s) && TableSane(s) && Conserved(s) && t in s.locks && Close(s, s', t)
    ensures Conserved(s')
  {
    HoldsSame(s, s', t);
  }

  lemma CloseKeeps(s: State, s': State, t: Lid)
    requires Inv(s) && t in s.locks && Close(s, s', t)
    ensures Inv(s')
  {
    hide TableSane, Conserved, HoldingsSane;
    CloseKeepsTable(s, s', t);
    CloseKeepsHoldings(s, s', t);
    CloseConserves(s, s', t);
    AttendedFrame(s, s', t);
  }

  lemma FinishCleanKeepsTable(s: State, s': State, t: Lid)
    requires Shapes(s) && TableSane(s) && t in s.locks && FinishClean(s, s', t)
    ensures TableSane(s')
  {
    assert Doomed(s') == {};
  }

  lemma FinishCleanKeepsHoldings(s: State, s': State, t: Lid)
    requires Shapes(s) && HoldingsSane(s) && TableSane(s) && t in s.locks && FinishClean(s, s', t)
    ensures HoldingsSane(s')
  {
    HoldsSame(s, s', t);
  }

  lemma FinishCleanConserves(s: State, s': State, t: Lid)
    requires Shapes(s) && TableSane(s) && Conserved(s) && t in s.locks && FinishClean(s, s', t)
    ensures Conserved(s')
  {
    HoldsSame(s, s', t);
  }

  lemma FinishCleanKeeps(s: State, s': State, t: Lid)
    requires Inv(s) && t in s.locks && FinishClean(s, s', t)
    ensures Inv(s')
  {
    hide TableSane, Conserved, HoldingsSane;
    FinishCleanKeepsTable(s, s', t);
    FinishCleanKeepsHoldings(s, s', t);
    FinishCleanConserves(s, s', t);
    AttendedFrame(s, s', t);
  }

  lemma PlainStepKeeps(s: State, s': State, t: Lid)
    requires Inv(s) && t in s.locks
    requires Begin(s, s', t) || Unlock(s, s', t) || Retry(s, s', t) || Acquired(s, s', t) || Returned(s, s', t)
    ensures Inv(s')
  {
    hide HoldingsSane, TableSane, Conserved, Attended;
    QuietStep(s, s', t, s'.locks[t]);
  }

  lemma StepKeeps(s: State, s': State)
    requires Inv(s) && Step(s, s')
    ensures Inv(s')
  {
    hide Shapes, HoldingsSane, TableSane, Conserved, Attended;
    var t :| t in s.locks && (Begin(s, s', t) || Unlock(s, s', t) || InternalStep(s, s', t));
    if GetChan(s, s', t) { GetChanKeeps(s, s', t); }
    else if Receive(s, s', t) { ReceiveKeeps(s, s', t); }
    else if Return(s, s', t) { ReturnKeeps(s, s', t); }
    else if StartClean(s, s', t) { StartCleanKeeps(s, s', t); }
    else if Visit(s, s', t) { VisitKeeps(s, s', t); }
    else if Close(s, s', t) { CloseKeeps(s, s', t); }
    else if FinishClean(s, s', t) { FinishCleanKeeps(s, s', t); }
    else { PlainStepKeeps(s, s', t); }
  }

  lemma SortedIsDistinct(keys: seq<Key>)
    requires Sorted(keys)
    ensures Distinct(keys)
  {
    forall i, j | 0 <= i < j < |keys|
      ensures keys[i] != keys[j]
    {
      LessIsIrreflexive(keys[i]);
    }
  }

  lemma InitEstablishes(s: State)
    requires Init(s)
    ensures Inv(s)
  {
    forall t | t in s.locks
      ensures Distinct(s.locks[t].keys)
    {
      SortedIsDistinct(s.locks[t].keys);
    }
  }

  lemma {:induction false} RunKeeps(r: seq<State>, n: nat)
    requires Run(r) && n < |r|
    ensures Inv(r[n])
    decreases n
  {
    if n == 0 {
      InitEstablishes(r[0]);
    } else {
      RunKeeps(r, n - 1);
      assert Step(r[n - 1], r[n - 1 + 1]);
      StepKeeps(r[n - 1], r[n]);
    }
  }

  // ----- what follows for every run -----

  /**
   * Mutual exclusion: once Lock has returned, the lock holds every one of its
   * keys, and no two locks hold the same key in the same state.
   */
  lemma {:induction false} MutualExclusion(r: seq<State>, n: nat)
    requires Run(r) && n < |r|
    ensures forall t, k :: t in r[n].locks && r[n].locks[t].pc == Held && k in r[n].locks[t].keys ==> Holds(r[n], t, k)
    ensures forall t, u, k :: Holds(r[n], t, k) && Holds(r[n], u, k) ==> t == u
  {
    RunKeeps(r, n);
    forall t, k | t in r[n].locks && r[n].locks[t].pc == Held && k in r[n].locks[t].keys
      ensures Holds(r[n], t, k)
    {
      var i :| 0 <= i < |r[n].locks[t].keys| && r[n].locks[t].keys[i] == k;
      assert HoldsAt(r[n].locks[t], i);
    }
  }

  /**
   * A lock's held channels are the open ones in the table with their token
   * out, so no send of Unlock blocks or reaches a closed channel.
   */
  lemma {:induction false} UnlockNeverBlocks(r: seq<State>, n: nat)
    requires Run(r) && n < |r|
    ensures forall t, i :: t in r[n].locks && HoldsAt(r[n].locks[t], i) ==>
              var l := r[n].locks[t];
              && l.keys[i] in r[n].table && r[n].table[l.keys[i]] == l.chans[i]
              && l.chans[i] in r[n].open && l.chans[i] !in r[n].token
    ensures forall t :: t in r[n].locks && r[n].locks[t].pc.Releasing? ==> exists s' :: InternalStep(r[n], s', t)
  {
    RunKeeps(r, n);
    forall t | t in r[n].locks && r[n].locks[t].pc.Releasing?
      ensures exists s' :: InternalStep(r[n], s', t)
    {
      ReleasingCanStep(r[n], t);
    }
  }

  lemma ReleasingCanStep(s: State, t: Lid)
    requires Inv(s) && t in s.locks && s.locks[t].pc.Releasing?
    ensures exists s' :: InternalStep(s, s', t)
  {
    hide Inv, GetChan, Receive, Retry, Acquired, StartClean, Visit, Close, FinishClean;
    var l := s.locks[t];
    if l.pc.returned < |l.chans| {
      ReturnIsEnabled(s, t);
      var ch := l.chans[l.pc.returned];
      assert InternalStep(s, Put(s, t, l.(pc := Releasing(l.pc.returned + 1))).(token := s.token + {ch}), t);
    } else {
      assert InternalStep(s, Put(s, t, l.(pc := Cleanup, chans := [])), t);
    }
  }

  /** When every goroutine is done, Clean has emptied the table. */
  lemma {:induction false} QuiescentTableIsEmpty(r: seq<State>, n: nat)
    requires Run(r) && n < |r|
    requires forall t :: t in r[n].locks ==> r[n].locks[t].pc == Idle
    ensures r[n].table == map[]
  {
    RunKeeps(r, n);
    assert forall t, k :: !Responsible(r[n], t, k);
    assert forall k :: k !in r[n].table;
  }

  // ----- absence of wait cycles -----

  ghost predicate Blocked(s: State, t: Lid) {
    && t in s.locks && s.locks[t].pc.Waiting? && |s.locks[t].chans| < |s.locks[t].keys|
    && s.locks[t].pc.ch in s.open && s.locks[t].pc.ch !in s.token
  }

  ghost function WantedKey(s: State, t: Lid): Key
    requires Blocked(s, t)
  {
    s.locks[t].keys[|s.locks[t].chans|]
  }

  /** `t` is blocked on a key whose token `u` has. */
  ghost predicate WaitsFor(s: State, t: Lid, u: Lid) {
    Blocked(s, t) && Holds(s, u, WantedKey(s, t))
  }

  lemma WantedKeysIncrease(s: State, t: Lid, u: Lid)
    requires Inv(s) && WaitsFor(s, t, u) && Blocked(s, u)
    ensures Less(WantedKey(s, t), WantedKey(s, u))
  {
    var l := s.locks[u];
    var i :| HoldsAt(l, i) && l.keys[i] == WantedKey(s, t);
    assert i < |l.chans| < |l.keys|;
  }

  lemma {:induction false} WantedKeysIncreaseAlong(s: State, path: seq<Lid>)
    requires Inv(s) && |path| >= 2
    requires forall i :: 0 <= i < |path| - 1 ==> WaitsFor(s, path[i], path[i + 1])
    requires Blocked(s, path[|path| - 1])
    ensures Blocked(s, path[0]) && Less(WantedKey(s, path[0]), WantedKey(s, path[|path| - 1]))
  {
    var n := |path|;
    assert WaitsFor(s, path[0], path[0 + 1]);
    assert WaitsFor(s, path[n - 2], path[n - 2 + 1]);
    WantedKeysIncrease(s, path[n - 2], path[n - 1]);
    if n > 2 {
      var init := path[..n - 1];
      assert forall i :: 0 <= i < |init| - 1 ==> WaitsFor(s, init[i], init[i + 1]) by {
        forall i | 0 <= i < |init| - 1
          ensures WaitsFor(s, init[i], init[i + 1])
        {
          assert WaitsFor(s, path[i], path[i + 1]);
        }
      }
      WantedKeysIncreaseAlong(s, init);
      LessIsTransitive(WantedKey(s, path[0]), WantedKey(s, path[n - 2]), WantedKey(s, path[n - 1]));
    }
  }

  /** No chain of locks, each waiting for the next, ever comes back to its start. */
  lemma {:induction false} NoWaitCycle(r: seq<State>, n: nat, path: seq<Lid>)
    requires Run(r) && n < |r| && |path| >= 2
    requires forall i :: 0 <= i < |path| - 1 ==> WaitsFor(r[n], path[i], path[i + 1])
    ensures path[0] != path[|path| - 1]
  {
    RunKeeps(r, n);
    if path[0] == path[|path| - 1] {
      assert WaitsFor(r[n], path[0], path[0 + 1]);
      WantedKeysIncreaseAlong(r[n], path);
      LessIsIrreflexive(WantedKey(r[n], path[0]));
    }
  }

  // ----- absence of deadlock -----

  ghost predicate CanMove(s: State) { exists t, s' :: InternalStep(s, s', t) }

  ghost predicate SomeoneHolds(s: State) { exists t :: t in s.locks && s.locks[t].pc == Held }

  lemma CleanerCanStep(s: State)
    requires Inv(s) && s.tableLock.Some?
    ensures CanMove(s)
  {
    var t := s.tableLock.value;
    var l := s.locks[t];
    if l.pc.Closing? {
      assert InternalStep(s, Put(s, t, l.(pc := Sweeping(l.pc.todo, l.pc.doomed + {l.pc.key}))).(open := s.open - {s.table[l.pc.key]}), t);
    } else if l.pc.todo == {} {
      assert InternalStep(s, Put(s, t, l.(pc := Idle)).(table := s.table - l.pc.doomed, tableLock := None), t);
    } else {
      var k :| k in l.pc.todo;
      if s.table[k] in s.token {
        assert InternalStep(s, Put(s, t, l.(pc := Closing(k, l.pc.todo - {k}, l.pc.doomed))).(token := s.token - {s.table[k]}), t);
      } else {
        assert InternalStep(s, Put(s, t, l.(pc := Sweeping(l.pc.todo - {k}, l.pc.doomed))), t);
      }
    }
  }

  /** A lock that is neither idle, held nor blocked can take its next step. */
  lemma UnblockedCanStep(s: State, t: Lid)
    requires Inv(s) && s.tableLock == None && t in s.locks
    requires s.locks[t].pc != Idle && s.locks[t].pc != Held && !Blocked(s, t)
    ensures CanMove(s)
  {
    var l := s.locks[t];
    match l.pc
    case Locking =>
      if |l.chans| == |l.keys| {
        assert InternalStep(s, Put(s, t, l.(pc := Held)), t);
      } else {
        var k := l.keys[|l.chans|];
        if k in s.table {
          assert InternalStep(s, Put(s, t, l.(pc := Waiting(s.table[k]))), t);
        } else {
          assert InternalStep(s, Put(s, t, l.(pc := Waiting(s.next))).(
            table := s.table[k := s.next], open := s.open + {s.next}, token := s.token + {s.next}, next := s.next + 1), t);
        }
      }
    case Waiting(ch) =>
      if ch in s.token {
        assert InternalStep(s, Put(s, t, l.(pc := Locking, chans := l.chans + [ch])).(token := s.token - {ch}), t);
      } else {
        assert InternalStep(s, Put(s, t, l.(pc := Locking)), t);
      }
    case Releasing(_) =>
      ReleasingCanStep(s, t);
    case Cleanup =>
      assert InternalStep(s, Put(s, t, l.(pc := Sweeping(s.table.Keys, {}))).(tableLock := Some(t)), t);
  }

  ghost function KeysAbove(s: State, k: Key): set<Key> {
    set j | j in s.table && Less(k, j)
  }

  lemma FewerKeysAbove(s: State, j: Key, k: Key)
    requires Less(j, k) && k in s.table
    ensures KeysAbove(s, k) < KeysAbove(s, j)
  {
    LessIsIrreflexive(k);
    forall x | x in KeysAbove(s, k)
      ensures x in KeysAbove(s, j)
    {
      LessIsTransitive(j, k, x);
    }
    assert k in KeysAbove(s, j) && k !in KeysAbove(s, k);
  }

  /** Following a blocked lock to the holder of its key ends at one that can run. */
  lemma {:induction false} BlockedEndsSomewhere(s: State, t: Lid)
    requires Inv(s) && s.tableLock == None && Blocked(s, t)
    ensures CanMove(s) || SomeoneHolds(s)
    decreases KeysAbove(s, WantedKey(s, t))
  {
    var k := WantedKey(s, t);
    assert !IsClosing(s, k);
    var u :| Holds(s, u, k);
    if s.locks[u].pc != Held {
      if Blocked(s, u) {
        WantedKeysIncrease(s, t, u);
        FewerKeysAbove(s, k, WantedKey(s, u));
        BlockedEndsSomewhere(s, u);
      } else {
        UnblockedCanStep(s, u);
      }
    }
  }

  /**
   * In every reachable state with a goroutine inside Lock or Unlock, some
   * goroutine can take a step, or a client holds a lock it has yet to release.
   */
  lemma {:induction false} NoDeadlock(r: seq<State>, n: nat, t: Lid)
    requires Run(r) && n < |r| && t in r[n].locks
    requires r[n].locks[t].pc != Idle && r[n].locks[t].pc != Held
    ensures CanMove(r[n]) || SomeoneHolds(r[n])
  {
    RunKeeps(r, n);
    if r[n].tableLock.Some? {
      CleanerCanStep(r[n]);
    } else if Blocked(r[n], t) {
      BlockedEndsSomewhere(r[n], t);
    } else {
      UnblockedCanStep(r[n], t);
    }
  }
}

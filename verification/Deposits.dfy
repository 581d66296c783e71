/** The deposit contract's history, the logs an execution client returns for it, and one follower state. */
module DepositLogs {
  import opened Words

  type Data = nat

  datatype Deposit = Deposit(block: nat, data: Data)

  /** A contract history: deposits in block order, none in block 0. */
  ghost predicate History(ds: seq<Deposit>) {
    && (forall k :: 0 <= k < |ds| ==> 1 <= ds[k].block)
    && (forall j, k :: 0 <= j <= k < |ds| ==> ds[j].block <= ds[k].block)
  }

  datatype Log =
    | Unrelated(block: nat)                                // no topics, or another event
    | Garbled(block: nat, readable: bool, index: nat)      // a deposit event with a malformed amount, or worse
    | Event(block: nat, index: nat, data: Data)

  /** The log is not a made-up deposit. */
  ghost predicate Honest(ds: seq<Deposit>, l: Log) {
    l.Event? ==> l.index < |ds| && ds[l.index] == Deposit(l.block, l.data)
  }

  /** Deposit `k` is among the logs. */
  ghost predicate Reported(ds: seq<Deposit>, k: nat, logs: seq<Log>)
    requires k < |ds|
  {
    Event(ds[k].block, k, ds[k].data) in logs
  }

  /**
   * A truthful answer for blocks `first` to `last`: in block order, every
   * deposit of the range at least once, and possibly repeated, unrelated or
   * garbled logs.
   */
  ghost predicate Truthful(ds: seq<Deposit>, first: nat, last: nat, logs: seq<Log>) {
    && (forall i :: 0 <= i < |logs| ==> Honest(ds, logs[i]) && first <= logs[i].block <= last)
    && (forall i, j :: 0 <= i <= j < |logs| ==> logs[i].block <= logs[j].block)
    && (forall k :: 0 <= k < |ds| && first <= ds[k].block <= last ==> Reported(ds, k, logs))
  }

  /** Deposits of blocks up to `b` are all among the first `n`. */
  ghost predicate CompleteTo(ds: seq<Deposit>, n: nat, b: int) {
    forall k :: 0 <= k < |ds| && ds[k].block <= b ==> k < n
  }

  ghost predicate Leaves(ds: seq<Deposit>, trie: seq<Data>) {
    |trie| <= |ds| && forall k :: 0 <= k < |trie| ==> trie[k] == ds[k].data
  }

  /** The record written to disk. */
  datatype Record = Record(trie: seq<Data>, cache: seq<Deposit>, lastRequested: u64)

  datatype State = State(lastReceived: int, trie: seq<Data>, cache: seq<Deposit>, lastRequested: u64, saved: Record)

  /**
   * The cache is exactly a prefix of the contract's deposits; the trie has the
   * same leaves, or one more that is the next deposit; no deposit at or below
   * the last requested block is missing.
   */
  ghost predicate Consistent(ds: seq<Deposit>, trie: seq<Data>, cache: seq<Deposit>, lastRequested: int) {
    && cache <= ds
    && Leaves(ds, trie) && |cache| <= |trie| <= |cache| + 1
    && CompleteTo(ds, |cache|, lastRequested)
  }

  /** The same of the running state and of the record. */
  ghost predicate Sound(ds: seq<Deposit>, s: State) {
    && s.lastReceived == |s.cache| - 1
    && Consistent(ds, s.trie, s.cache, s.lastRequested)
    && Consistent(ds, s.saved.trie, s.saved.cache, s.saved.lastRequested)
  }

  const INITIAL := State(-1, [], [], 0, Record([], [], 0))

  lemma InitialIsSound(ds: seq<Deposit>)
    requires History(ds)
    ensures Sound(ds, INITIAL) && SavedLately(INITIAL)
  {
  }

  /** Where the next fallible action fails, if it does. */
  datatype Fault = NoFault | BeforeLeaf | AfterLeaf | OnSave

  datatype Outcome = Outcome(state: State, ok: bool)

  const MAX_INDEX := 0x7FFF_FFFF_FFFF_FFFF
  const SAVING_INTERVAL := 1000

  /** One deposit event. */
  function TakeDeposit(s: State, l: Log, f: Fault): Outcome
    requires !l.Unrelated?
  {
    if (l.Garbled? && !l.readable) || l.index > MAX_INDEX then Outcome(s, false)
    else if l.index <= s.lastReceived then Outcome(s, true)
    else if l.index != s.lastReceived + 1 || l.Garbled? || f == BeforeLeaf then Outcome(s, false)
    else TakeNext(s, l, f)
  }

  /** The next expected deposit: a leaf, unless an earlier attempt already left it, then the cache entry. */
  function TakeNext(s: State, l: Log, f: Fault): Outcome
    requires l.Event?
  {
    if |s.trie| != l.index && (|s.trie| != l.index + 1 || s.trie[l.index] != l.data) then Outcome(s, false)
    else
      var inserted := if |s.trie| == l.index then s.(trie := s.trie + [l.data]) else s;
      if f == AfterLeaf || l.index != |s.cache| then Outcome(inserted, false)
      else Outcome(inserted.(cache := s.cache + [Deposit(l.block, l.data)], lastReceived := l.index), true)
  }

  function Saved(s: State): State {
    s.(saved := Record(s.trie, s.cache, s.lastRequested))
  }

  /** One log of any kind; whenever the last index is a multiple of the interval the state is saved. */
  function TakeLog(s: State, l: Log, f: Fault): Outcome {
    if l.Unrelated? then Outcome(s, true)
    else
      var o := TakeDeposit(s, l, f);
      if !o.ok || o.state.lastReceived < 0 || o.state.lastReceived % SAVING_INTERVAL != 0 then o
      else if f == OnSave then Outcome(o.state, false)
      else Outcome(Saved(o.state), true)
  }

  /** Every log keeps the state sound, whatever fails; an accepted deposit is in the cache. */
  lemma TakeLogKeeps(ds: seq<Deposit>, s: State, l: Log, f: Fault)
    requires Sound(ds, s) && Honest(ds, l)
    ensures var o := TakeLog(s, l, f);
      Sound(ds, o.state) && s.cache <= o.state.cache && o.state.lastRequested == s.lastRequested
      && (o.ok && l.Event? ==> l.index < |o.state.cache|)
  {
    if !l.Unrelated? {
      TakeDepositKeeps(ds, s, l, f);
    }
  }

  lemma TakeDepositKeeps(ds: seq<Deposit>, s: State, l: Log, f: Fault)
    requires Sound(ds, s) && Honest(ds, l) && !l.Unrelated?
    ensures var o := TakeDeposit(s, l, f);
      Sound(ds, o.state) && s.cache <= o.state.cache && o.state.lastRequested == s.lastRequested
      && o.state.saved == s.saved && (o.ok && l.Event? ==> l.index < |o.state.cache|)
  {
  }

  /** With no fault, a deposit is refused only if one before it is missing; a leaf left over from a failure is reused. */
  lemma TakeLogAccepts(ds: seq<Deposit>, s: State, l: Log)
    requires Sound(ds, s) && Honest(ds, l) && l.Event? && |ds| <= MAX_INDEX
    ensures var o := TakeLog(s, l, NoFault);
      && (o.ok <==> l.index <= |s.cache|)
      && o.state.cache == (if l.index == |s.cache| then ds[..|s.cache| + 1] else s.cache)
  {
    if l.index == |s.cache| {
      assert ds[..|s.cache| + 1] == s.cache + [ds[|s.cache|]];
    }
  }

  /**
   * Exactly which deposit events are accepted, by any follower and of any
   * client, and what is then recorded: an index already seen changes nothing;
   * the next one needs a readable amount, no failure, and the trie without the
   * leaf or with this very leaf. Anything else is refused and nothing cached.
   */
  lemma TakeDepositIff(s: State, l: Log, f: Fault)
    requires !l.Unrelated? && s.lastReceived == |s.cache| - 1
    ensures var o := TakeDeposit(s, l, f);
      && (l.Garbled? && (!l.readable || l.index >= |s.cache|) ==> !o.ok)
      && (l.index > MAX_INDEX ==> !o.ok)
      && (l.index < |s.cache| && l.index <= MAX_INDEX && (l.Garbled? ==> l.readable) ==> o == Outcome(s, true))
      && (l.Event? && l.index >= |s.cache| && l.index <= MAX_INDEX ==>
            (o.ok <==> l.index == |s.cache| && f != BeforeLeaf && f != AfterLeaf && LeafFits(s.trie, l.index, l.data)))
      && (o.ok && l.index >= |s.cache| ==>
            l.Event? && o.state.lastReceived == l.index && |o.state.trie| == l.index + 1 && o.state.trie[l.index] == l.data
            && o.state.cache == s.cache + [Deposit(l.block, l.data)] && s.trie <= o.state.trie)
      && (!o.ok ==> o.state.cache == s.cache && o.state.lastReceived == s.lastReceived && s.trie <= o.state.trie)
      && o.state.lastRequested == s.lastRequested && o.state.saved == s.saved
  {
  }

  /** The leaf is still to come, or is there and the last one. */
  ghost predicate LeafFits(trie: seq<Data>, index: nat, data: Data) {
    |trie| == index || (|trie| == index + 1 && trie[index] == data)
  }

  /** An accepted deposit event saves the state whenever the last index is a multiple of 1000; nothing else saves. */
  lemma SavesAtMultiples(s: State, l: Log, f: Fault)
    ensures var o := TakeLog(s, l, f);
      o.state.saved == if o.ok && !l.Unrelated? && o.state.lastReceived >= 0 && o.state.lastReceived % 1000 == 0
                       then Record(o.state.trie, o.state.cache, o.state.lastRequested) else s.saved
  {
    if !l.Unrelated? {
      UnsavedByDeposit(s, l, f);
    }
  }

  lemma UnsavedByDeposit(s: State, l: Log, f: Fault)
    requires !l.Unrelated?
    ensures TakeDeposit(s, l, f).state.saved == s.saved
  {
  }

  /** Every log is accepted. */
  ghost predicate AllAccepted(s: State, logs: seq<Log>, faults: seq<Fault>)
    requires |logs| == |faults|
    decreases |logs|
  {
    logs != [] ==>
      var o := TakeLog(s, logs[0], faults[0]); o.ok && AllAccepted(o.state, logs[1..], faults[1..])
  }

  /** The record lacks exactly the deposits since the last multiple of 1000. */
  ghost predicate SavedLately(s: State) {
    && s.lastReceived == |s.cache| - 1 && s.saved.cache <= s.cache
    && |s.cache| - |s.saved.cache| == if s.lastReceived < 0 then 0 else s.lastReceived % 1000
  }

  lemma SavedLatelyKept(s: State, l: Log, f: Fault)
    requires SavedLately(s) && TakeLog(s, l, f).ok
    ensures SavedLately(TakeLog(s, l, f).state)
  {
    if !l.Unrelated? {
      TakeDepositIff(s, l, f);
      SavesAtMultiples(s, l, f);
      hide TakeDeposit;
    }
  }

  /** Over any sequence of accepted logs the record is never a thousand deposits behind. */
  lemma {:induction false} NeverFarBehind(s: State, logs: seq<Log>, faults: seq<Fault>)
    requires SavedLately(s) && |logs| == |faults| && AllAccepted(s, logs, faults)
    ensures var t := TakeAll(s, logs, faults); SavedLately(t) && |t.cache| - |t.saved.cache| < 1000
    decreases |logs|
  {
    hide TakeLog;
    if logs != [] {
      SavedLatelyKept(s, logs[0], faults[0]);
      NeverFarBehind(TakeLog(s, logs[0], faults[0]).state, logs[1..], faults[1..]);
    }
  }

  /** Why a log may be refused by a follower that has `cached` deposits. */
  ghost predicate Refusable(l: Log, f: Fault, cached: nat) {
    !l.Unrelated? && (l.Garbled? || f != NoFault || l.index > cached || l.index > MAX_INDEX)
  }

  lemma RefusedIsRefusable(ds: seq<Deposit>, s: State, l: Log, f: Fault)
    requires Sound(ds, s) && Honest(ds, l) && !TakeLog(s, l, f).ok
    ensures Refusable(l, f, |TakeLog(s, l, f).state.cache|)
  {
  }

  /** Once the logs up to block `b` have been taken in, so have the deposits up to it. */
  lemma ReadUpTo(ds: seq<Deposit>, n: nat, start: nat, last: nat, logs: seq<Log>, i: nat, b: nat)
    requires Truthful(ds, start, last, logs) && CompleteTo(ds, n, start - 1) && i <= |logs| && b <= last
    requires forall j :: 0 <= j < i && logs[j].Event? ==> logs[j].index < n
    requires forall j :: i <= j < |logs| ==> b < logs[j].block
    ensures CompleteTo(ds, n, b)
  {
    forall k | 0 <= k < |ds| && ds[k].block <= b
      ensures k < n
    {
      if start <= ds[k].block {
        assert Reported(ds, k, logs);
      }
    }
  }

  /** The logs of one block. */
  ghost function OfBlock(logs: seq<Log>, block: nat): seq<Log> {
    if logs == [] then []
    else
      var n := |logs| - 1;
      OfBlock(logs[..n], block) + if logs[n].block == block then [logs[n]] else []
  }

  lemma {:induction false} OfNoBlock(logs: seq<Log>, block: nat)
    ensures OfBlock(logs[..0], block) == []
  {
  }

  lemma {:induction false} OfBlockGrows(logs: seq<Log>, block: nat, i: nat)
    requires i <= |logs|
    ensures OfBlock(logs[..i], block) <= OfBlock(logs, block)
    decreases |logs|
  {
    var n := |logs| - 1;
    if i == |logs| {
      assert logs[..i] == logs;
    } else {
      assert logs[..n][..i] == logs[..i];
      OfBlockGrows(logs[..n], block, i);
    }
  }

  /** The next log, if it is of the block, is the next of the block's. */
  lemma {:induction false} OfBlockNext(logs: seq<Log>, block: nat, i: nat)
    requires i < |logs|
    ensures var own, n := OfBlock(logs, block), |OfBlock(logs[..i], block)|;
      if logs[i].block == block then n < |own| && own[n] == logs[i] && |OfBlock(logs[..i + 1], block)| == n + 1
      else |OfBlock(logs[..i + 1], block)| == n <= |own|
  {
    assert logs[..i + 1][..i] == logs[..i];
    OfBlockGrows(logs, block, i);
    OfBlockGrows(logs, block, i + 1);
  }

  /** A truthful answer for one block has no others. */
  lemma {:induction false} AllOfBlock(ds: seq<Deposit>, block: nat, logs: seq<Log>)
    requires Truthful(ds, block, block, logs)
    ensures OfBlock(logs, block) == logs
  {
    OwnLogsStay(logs, block);
  }

  lemma {:induction false} OwnLogsStay(logs: seq<Log>, block: nat)
    requires forall i :: 0 <= i < |logs| ==> logs[i].block == block
    ensures OfBlock(logs, block) == logs
    decreases |logs|
  {
    if logs != [] {
      var n := |logs| - 1;
      OwnLogsStay(logs[..n], block);
      assert logs == logs[..n] + [logs[n]];
    }
  }

  lemma HonestLog(ds: seq<Deposit>, first: nat, last: nat, logs: seq<Log>, i: nat)
    requires Truthful(ds, first, last, logs) && i < |logs|
    ensures Honest(ds, logs[i]) && first <= logs[i].block <= last
    ensures forall j :: i <= j < |logs| ==> logs[i].block <= logs[j].block
  {
  }

  lemma CompleteGrows(ds: seq<Deposit>, n: nat, m: nat, b: int)
    requires CompleteTo(ds, n, b) && n <= m
    ensures CompleteTo(ds, m, b)
  {
  }

  lemma CompleteBelow(ds: seq<Deposit>, n: nat, b: int, c: int)
    requires CompleteTo(ds, n, b) && c <= b
    ensures CompleteTo(ds, n, c)
  {
  }

  lemma NothingBelow(ds: seq<Deposit>, n: nat)
    requires History(ds)
    ensures CompleteTo(ds, n, -1)
  {
  }

  lemma SoundIsComplete(ds: seq<Deposit>, s: State)
    requires Sound(ds, s)
    ensures CompleteTo(ds, |s.cache|, s.lastRequested)
  {
  }

  lemma Requested(ds: seq<Deposit>, s: State, b: u64)
    requires Sound(ds, s) && CompleteTo(ds, |s.cache|, b)
    ensures Sound(ds, s.(lastRequested := b))
  {
  }

  /** Fewer requested blocks promise less. */
  lemma RequestedBack(ds: seq<Deposit>, s: State, t: State)
    requires Sound(ds, s) && Sound(ds, t) && s.cache <= t.cache
    ensures Sound(ds, t.(lastRequested := s.lastRequested))
  {
  }

  /** Starting again from the record: the last index is taken from the trie, not from the cache. */
  function Restarted(s: State): State {
    State(|s.saved.trie| - 1, s.saved.trie, s.saved.cache, s.saved.lastRequested, s.saved)
  }

  /** A restart keeps the state sound exactly when the saved trie is not one leaf ahead of the saved cache. */
  lemma RestartSoundIff(ds: seq<Deposit>, s: State)
    requires Sound(ds, s)
    ensures Sound(ds, Restarted(s)) <==> |s.saved.trie| == |s.saved.cache|
  {
  }

  function TakeAll(s: State, logs: seq<Log>, faults: seq<Fault>): State
    requires |logs| == |faults|
    decreases |logs|
  {
    if logs == [] then s else TakeAll(TakeLog(s, logs[0], faults[0]).state, logs[1..], faults[1..])
  }

  /** So does any sequence of logs, with any faults, and no cached deposit is ever dropped. */
  lemma {:induction false} TakeAllKeeps(ds: seq<Deposit>, s: State, logs: seq<Log>, faults: seq<Fault>)
    requires Sound(ds, s) && |logs| == |faults| && forall i :: 0 <= i < |logs| ==> Honest(ds, logs[i])
    ensures Sound(ds, TakeAll(s, logs, faults)) && s.cache <= TakeAll(s, logs, faults).cache
    decreases |logs|
  {
    hide Sound, TakeLog, Honest;
    if logs != [] {
      TakeLogKeeps(ds, s, logs[0], faults[0]);
      TakeAllKeeps(ds, TakeLog(s, logs[0], faults[0]).state, logs[1..], faults[1..]);
    }
  }

  /** After a restart one leaf ahead. */
  predicate Ahead(s: State) {
    s.lastReceived == |s.cache| && |s.cache| + 1 <= |s.trie| <= |s.cache| + 2
  }

  /** From then on no log is ever cached, and every later deposit is refused. */
  lemma {:induction false} AheadIsStuck(s: State, logs: seq<Log>, faults: seq<Fault>, l: Log, f: Fault)
    requires Ahead(s) && |logs| == |faults|
    ensures var t := TakeAll(s, logs, faults);
      Ahead(t) && t.cache == s.cache && (l.Event? && l.index > |s.cache| ==> !TakeLog(t, l, f).ok)
    decreases |logs|
  {
    if logs != [] {
      AheadIsStuck(TakeLog(s, logs[0], faults[0]).state, logs[1..], faults[1..], l, f);
    }
  }

  const WITNESS_DEPOSITS := [Deposit(1, 7), Deposit(1, 8)]
  const WITNESS_LOGS := [Event(1, 0, 7), Event(1, 1, 8)]
  const WITNESS_RECORD := Record([7, 8], [Deposit(1, 7)], 0)

  /**
   * Such a record does get written: the second deposit of a block leaves its
   * leaf and then fails, the retry sees the first deposit again and saves.
   * After a restart both logs are accepted and the second deposit is lost.
   */
  lemma LeafAheadIsSaved()
    ensures var s := TakeAll(INITIAL, [WITNESS_LOGS[0], WITNESS_LOGS[1], WITNESS_LOGS[0]], [NoFault, AfterLeaf, NoFault]);
      var t := Restarted(s);
      && History(WITNESS_DEPOSITS) && Truthful(WITNESS_DEPOSITS, 1, 1, WITNESS_LOGS) && Sound(WITNESS_DEPOSITS, s) && Ahead(t)
      && TakeLog(t, WITNESS_LOGS[0], NoFault) == TakeLog(t, WITNESS_LOGS[1], NoFault) == Outcome(t, true)
      && !CompleteTo(WITNESS_DEPOSITS, |t.cache|, 1)
  {
    WitnessState();
    WitnessAnswer();
    InitialIsSound(WITNESS_DEPOSITS);
    TakeAllKeeps(WITNESS_DEPOSITS, INITIAL, [WITNESS_LOGS[0], WITNESS_LOGS[1], WITNESS_LOGS[0]], [NoFault, AfterLeaf, NoFault]);
    hide Sound, Truthful, TakeAll;
    assert Restarted(State(0, [7, 8], [Deposit(1, 7)], 0, WITNESS_RECORD)) == State(1, [7, 8], [Deposit(1, 7)], 0, WITNESS_RECORD);
    assert WITNESS_DEPOSITS[1].block == 1;
  }

  lemma WitnessAnswer()
    ensures History(WITNESS_DEPOSITS) && Truthful(WITNESS_DEPOSITS, 1, 1, WITNESS_LOGS)
  {
    assert WITNESS_LOGS[0] in WITNESS_LOGS && WITNESS_LOGS[1] in WITNESS_LOGS;
  }

  lemma WitnessState()
    ensures TakeAll(INITIAL, [WITNESS_LOGS[0], WITNESS_LOGS[1], WITNESS_LOGS[0]], [NoFault, AfterLeaf, NoFault])
         == State(0, [7, 8], [Deposit(1, 7)], 0, WITNESS_RECORD)
  {
    var a := TakeLog(INITIAL, WITNESS_LOGS[0], NoFault).state;
    assert a == State(0, [7], [Deposit(1, 7)], 0, Record([7], [Deposit(1, 7)], 0));
    var b := TakeLog(a, WITNESS_LOGS[1], AfterLeaf).state;
    assert b == State(0, [7, 8], [Deposit(1, 7)], 0, a.saved);
    ThreeLogs(INITIAL, WITNESS_LOGS[0], WITNESS_LOGS[1], WITNESS_LOGS[0], NoFault, AfterLeaf, NoFault);
  }

  lemma ThreeLogs(s: State, l0: Log, l1: Log, l2: Log, f0: Fault, f1: Fault, f2: Fault)
    ensures TakeAll(s, [l0, l1, l2], [f0, f1, f2])
         == TakeLog(TakeLog(TakeLog(s, l0, f0).state, l1, f1).state, l2, f2).state
  {
    hide TakeLog;
    assert [l0, l1, l2][1..] == [l1, l2] && [f0, f1, f2][1..] == [f1, f2];
    assert [l1, l2][1..] == [l2] && [f1, f2][1..] == [f2];
    assert [l2][1..] == [] && [f2][1..] == [];
    var a := TakeLog(s, l0, f0).state;
    assert TakeAll(a, [l1, l2], [f1, f2]) == TakeAll(TakeLog(a, l1, f1).state, [l2], [f2]);
  }
}

/** The follower: single logs, batches of logs, past logs and the polling loop, over any faults. */
module DepositFollower {
  import opened Words
  import opened RequestLoops
  import opened DepositLogs

  datatype Answer = Logs(logs: seq<Log>) | TooMuchData | Failed

  datatype Batch = Done(last: u64, batch: u64) | BatchFailed

  datatype PollResult = Polled | PollFailed | Wraps

  datatype Attempt = PastLogs(height: u64) | Poll(height: u64) | Save

  const MAX_TOLERABLE_DIFFERENCE := 50

  ghost predicate Faithful(ds: seq<Deposit>, client: (nat, Range) -> Answer) {
    forall n, r :: client(n, r).Logs? ==> Truthful(ds, r.first, r.last, client(n, r).logs)
  }

  /** The range asked for after `j` refusals for size. */
  function Asked(start: u64, height: u64, batch: u64, j: nat): Range
    requires start <= height && batch > 0
  {
    Range(start, RequestEnd(start, height, Halved(batch, j)))
  }

  lemma AskedEnds(start: u64, height: u64, batch: u64, j: nat)
    requires start <= height && batch > 0
    ensures Asked(start, height, batch, j) == Range(start, RequestEnd(start, height, Halved(batch, j)))
  {
  }

  /** The gap is too large to read block by block. */
  predicate Behind(lastRequested: u64, height: u64) {
    height > lastRequested && height - lastRequested > MAX_TOLERABLE_DIFFERENCE
  }

  class Follower {
    ghost const ds: seq<Deposit>
    const limit: u64
    const client: (nat, Range) -> Answer
    const faults: nat -> Fault
    var clock: nat                       // numbers the fallible actions
    var lastReceived: int
    var trie: seq<Data>
    var cache: seq<Deposit>
    var lastRequested: u64
    var saved: Record

    function Now(): State
      reads this
    {
      State(lastReceived, trie, cache, lastRequested, saved)
    }

    ghost predicate Valid()
      reads this
    {
      History(ds) && Faithful(ds, client) && Sound(ds, Now())
    }

    /** The answer to the batch's request number `j`, the first of which was call number `from`. */
    function AnswerAt(from: nat, start: u64, height: u64, batch: u64, j: nat): Answer
      requires start <= height && batch > 0
    {
      client(from + j, Asked(start, height, batch, j))
    }

    ghost predicate Shrunk(from: nat, start: u64, height: u64, batch: u64, j: nat)
      requires start <= height && batch > 0
    {
      forall i :: 0 <= i < j ==> AnswerAt(from, start, height, batch, i).TooMuchData? && Halved(batch, i) > 1
    }

    /** The last log processed, the first having been action number `from`, is one that may be refused; those before it are in. */
    ghost predicate LogRefused(logs: seq<Log>, from: nat)
      reads this
    {
      && from < clock <= from + |logs|
      && Refusable(logs[clock - from - 1], faults(clock - 1), |cache|)
      && forall i :: 0 <= i < clock - from - 1 && logs[i].Event? ==> logs[i].index < |cache|
    }

    /** Request number `j` of the batch ended it: an error, too much data for one block, or logs of which one was refused. */
    ghost predicate FailedAt(from: nat, start: u64, height: u64, batch: u64, j: nat)
      requires start <= height && batch > 0
      reads this
    {
      && Shrunk(from, start, height, batch, j)
      && match AnswerAt(from, start, height, batch, j)
         case Failed => clock == from + j + 1
         case TooMuchData => clock == from + j + 1 && Halved(batch, j) == 1
         case Logs(logs) => LogRefused(logs, from + j + 1)
    }

    ghost predicate BatchExcused(from: nat, start: u64, height: u64, batch: u64)
      requires start <= height && batch > 0
      reads this
    {
      exists j :: FailedAt(from, start, height, batch, j)
    }

    /** A size below the limit grows by the factor, up to the limit; the sum wraps. */
    function Grown(size: u64, factor: u64): (grown: u64)
      ensures size <= limit ==> grown <= limit
      ensures size < limit && size + factor <= U64_MAX ==> grown == if size + factor > limit then limit else size + factor
      ensures size >= limit ==> grown == size
    {
      if size < limit then Min(AddWrap(size, factor), limit) else size
    }

    /** Request number `j` of the batch gave its logs, and action number `to` comes after them. */
    ghost predicate DoneAt(from: nat, start: u64, height: u64, batch: u64, factor: u64, r: Batch, to: nat, j: nat)
      requires start <= height && batch > 0
    {
      && Shrunk(from, start, height, batch, j) && AnswerAt(from, start, height, batch, j).Logs?
      && r == Done(Asked(start, height, batch, j).last, Grown(Halved(batch, j), factor))
      && to == from + j + 1 + |AnswerAt(from, start, height, batch, j).logs|
    }

    ghost predicate BatchDone(from: nat, start: u64, height: u64, batch: u64, factor: u64, r: Batch, to: nat) {
      start <= height && batch > 0 && exists j :: DoneAt(from, start, height, batch, factor, r, to, j)
    }

    /** A scan that made these requests has come to action number `to` and to batches of `size` blocks. */
    ghost predicate Explains(from: nat, height: u64, factor: u64, requests: seq<Range>, to: nat, size: u64)
    {
      if requests == [] then to == from && size == limit
      else
        var n := |requests| - 1;
        exists middle, batch: u64 ::
          && Explains(from, height, factor, requests[..n], middle, batch)
          && BatchDone(middle, requests[n].first, height, batch, factor, Done(requests[n].last, size), to)
    }

    lemma ExplainsNothing(from: nat, height: u64, factor: u64)
      ensures Explains(from, height, factor, [], from, limit)
    {
    }

    lemma ScanEnds(since: nat, first: u64, height: u64, factor: u64, requests: seq<Range>, from: nat, batch: u64)
      requires NextBlock(requests, first) <= height && batch > 0
      requires Explains(since, height, factor, requests, from, batch) && BatchExcused(from, NextBlock(requests, first), height, batch)
      ensures ScanExcused(since, first, height, factor, requests)
    {
      hide Explains, BatchExcused, NextBlock;
    }

    lemma ExplainsMore(from: nat, height: u64, factor: u64, requests: seq<Range>, middle: nat, batch: u64, r: Range, to: nat, size: u64)
      requires Explains(from, height, factor, requests, middle, batch)
      requires BatchDone(middle, r.first, height, batch, factor, Done(r.last, size), to)
      ensures Explains(from, height, factor, requests + [r], to, size)
    {
      hide BatchDone;
      assert (requests + [r])[..|requests|] == requests;
    }

    /** After these requests, the batch from the next block on ended the scan. */
    ghost predicate ScanExcused(since: nat, first: u64, height: u64, factor: u64, requests: seq<Range>)
      reads this
    {
      && NextBlock(requests, first) <= height
      && exists from, batch: u64 ::
           Explains(since, height, factor, requests, from, batch) && batch > 0 && BatchExcused(from, NextBlock(requests, first), height, batch)
    }

    /** Reading `n` blocks from `first` on took the actions from number `from` up to number `to`: every header and every answer came. */
    ghost predicate ReadAll(from: nat, first: u64, n: nat, to: nat)
      decreases n
    {
      if n == 0 then to == from
      else
        var m := n - 1;
        var block := first + m;
        block < U64_LIMIT && exists middle :: ReadAll(from, first, m, middle) && ReadOne(middle, block, to)
    }

    ghost predicate ReadOne(from: nat, block: u64, to: nat) {
      var answer := client(from + 1, Range(block, block));
      faults(from) != BeforeLeaf && answer.Logs? && to == from + 2 + |answer.logs|
    }

    lemma ReadNone(from: nat, first: u64)
      ensures ReadAll(from, first, 0, from)
    {
    }

    lemma ReadMore(from: nat, first: u64, n: nat, middle: nat, block: u64, to: nat)
      requires ReadAll(from, first, n, middle) && block == first + n && ReadOne(middle, block, to)
      ensures ReadAll(from, first, n + 1, to)
    {
      hide ReadOne;
    }

    /** Polling from `first` on, with `next` the block to read: all before it was read, and reading it failed. */
    ghost predicate PollExcused(since: nat, first: u64, next: u64)
      reads this
    {
      first <= next && exists from :: ReadAll(since, first, next - first, from) && BlockExcused(from, next)
    }

    lemma PollEnds(since: nat, first: u64, next: u64, from: nat)
      requires first <= next && ReadAll(since, first, next - first, from) && BlockExcused(from, next)
      ensures PollExcused(since, first, next)
    {
      hide ReadAll, BlockExcused;
    }

    /** Reading one block, from action number `from` on, failed: its header, its logs, or one of them. */
    ghost predicate BlockExcused(from: nat, block: u64)
      reads this
    {
      if faults(from) == BeforeLeaf then clock == from + 1
      else LogsExcused(from + 1, block)
    }

    ghost predicate LogsExcused(from: nat, block: u64)
      reads this
    {
      match client(from, Range(block, block))
      case Logs(logs) => LogRefused(logs, from + 1)
      case _ => clock == from + 1
    }

    constructor (ghost ds: seq<Deposit>, limit: u64, client: (nat, Range) -> Answer, faults: nat -> Fault)
      requires History(ds) && Faithful(ds, client)
      ensures Valid() && Now() == INITIAL && this.ds == ds && this.limit == limit
    {
      this.ds, this.limit, this.client, this.faults, clock := ds, limit, client, faults, 0;
      lastReceived, trie, cache, lastRequested, saved := -1, [], [], 0, Record([], [], 0);
    }

    method ProcessDepositLog(l: Log, f: Fault) returns (ok: bool)
      requires !l.Unrelated?
      modifies this`lastReceived, this`trie, this`cache
      ensures Outcome(Now(), ok) == TakeDeposit(old(Now()), l, f)
    {
      if (l.Garbled? && !l.readable) || l.index > MAX_INDEX {
        return false;
      }
      var index := l.index;
      if index <= lastReceived {
        return true;
      }
      if index != lastReceived + 1 {
        return false;
      }
      if l.Garbled? || f == BeforeLeaf {
        return false;
      }
      if |trie| == index {
        trie := trie + [l.data];
      } else if |trie| == index + 1 {
        if trie[index] != l.data {
          return false;
        }
      } else {
        return false;
      }
      if f == AfterLeaf || index != |cache| {
        return false;
      }
      cache := cache + [Deposit(l.block, l.data)];
      lastReceived := index;
      return true;
    }

    method ProcessLog(l: Log) returns (ok: bool)
      modifies this`clock, this`lastReceived, this`trie, this`cache, this`saved
      ensures Outcome(Now(), ok) == TakeLog(old(Now()), l, faults(old(clock)))
      ensures clock == old(clock) + 1
    {
      var f := faults(clock);
      clock := clock + 1;
      if l.Unrelated? {
        return true;
      }
      ok := ProcessDepositLog(l, f);
      if ok && lastReceived >= 0 && lastReceived % SAVING_INTERVAL == 0 {
        ok := f != OnSave;
        if ok {
          saved := Record(trie, cache, lastRequested);
        }
      }
    }

    /** A log that the follower's client returned. */
    method TakeHonest(l: Log) returns (ok: bool)
      requires Valid() && Honest(ds, l)
      modifies this`clock, this`lastReceived, this`trie, this`cache, this`saved
      ensures Valid() && old(cache) <= cache
      ensures ok && l.Event? ==> l.index < |cache|
      ensures clock == old(clock) + 1 && (!ok ==> Refusable(l, faults(clock - 1), |cache|))
    {
      TakeLogKeeps(ds, Now(), l, faults(clock));
      if !TakeLog(Now(), l, faults(clock)).ok {
        RefusedIsRefusable(ds, Now(), l, faults(clock));
      }
      ok := ProcessLog(l);
    }

    /**
     * The logs of one batch, moving the last requested block behind the block
     * being read, and back to where it was if a log is rejected.
     */
    method ProcessLogs(start: u64, last: u64, logs: seq<Log>) returns (ok: bool)
      requires Valid() && start <= last && Truthful(ds, start, last, logs) && CompleteTo(ds, |cache|, start - 1)
      modifies this
      ensures Valid() && old(cache) <= cache && clock >= old(clock)
      ensures ok ==> CompleteTo(ds, |cache|, last)
      ensures !ok ==> lastRequested == old(lastRequested)
      ensures if ok then clock == old(clock) + |logs| else LogRefused(logs, old(clock))
      ensures ok ==> lastRequested == old(lastRequested) || start <= lastRequested < last
    {
      hide Sound, Truthful, History, Faithful, CompleteTo, Honest, Refusable;
      var lastReqBlock: u64, current: u64 := lastRequested, start;
      for i := 0 to |logs|
        invariant Valid() && old(cache) <= cache && start <= current <= last
        invariant forall j :: 0 <= j < i ==> logs[j].block <= current
        invariant forall j :: 0 <= j < i && logs[j].Event? ==> logs[j].index < |cache|
        invariant lastRequested == lastReqBlock || start <= lastRequested < current
        invariant clock == old(clock) + i
      {
        HonestLog(ds, start, last, logs, i);
        if logs[i].block > current {
          CompleteGrows(ds, |old(cache)|, |cache|, start - 1);
          ReadUpTo(ds, |cache|, start, last, logs, i, current);
          Requested(ds, Now(), current);
          lastRequested := current;
          current := logs[i].block;
        }
        ok := TakeHonest(logs[i]);
        if !ok {
          RequestedBack(ds, old(Now()), Now());
          lastRequested := lastReqBlock;
          return;
        }
      }
      CompleteGrows(ds, |old(cache)|, |cache|, start - 1);
      ReadUpTo(ds, |cache|, start, last, logs, |logs|, last);
      return true;
    }

    /** One batch from `start`: a refusal for size halves it, success lets the next one grow. */
    method ProcessBlockInBatch(start: u64, height: u64, batch: u64, factor: u64) returns (r: Batch)
      requires Valid() && CompleteTo(ds, |cache|, start - 1) && batch <= limit
      modifies this
      ensures Valid() && old(cache) <= cache && clock >= old(clock)
      ensures batch == 0 || start > height ==> r.BatchFailed?
      ensures r.Done? ==> start <= r.last <= height && r.last - start < batch && r.batch <= limit
      ensures r.Done? ==> BatchDone(old(clock), start, height, batch, factor, r, clock)
      ensures r.Done? && limit + factor <= U64_MAX ==> r.batch > 0
      ensures r.Done? ==> CompleteTo(ds, |cache|, r.last) && lastRequested <= Max(old(lastRequested), r.last)
      ensures r.BatchFailed? ==> lastRequested == old(lastRequested)
      ensures r.BatchFailed? && batch > 0 && start <= height ==> BatchExcused(old(clock), start, height, batch)
    {
      hide Halved, Asked, Shrunk, AnswerAt, Sound, Faithful, History, CompleteTo, Grown, RequestEnd, FailedAt, DoneAt, LogRefused, Truthful;
      if batch == 0 || start > height {
        return BatchFailed;
      }
      ghost var from := clock;
      var answer, size, j := RequestShrinking(start, height, batch);
      if !answer.Logs? {
        Unanswered(from, start, height, batch, j);
        return BatchFailed;
      }
      var last := RequestEnd(start, height, size);
      AskedEnds(start, height, batch, j);
      var ok := ProcessLogs(start, last, answer.logs);
      if !ok {
        Refused(from, start, height, batch, j);
        return BatchFailed;
      }
      r := Done(last, Grown(size, factor));
      Finished(from, start, height, batch, factor, r, j);
    }

    lemma Unanswered(from: nat, start: u64, height: u64, batch: u64, j: nat)
      requires start <= height && batch > 0 && clock == from + j + 1 && Shrunk(from, start, height, batch, j)
      requires !AnswerAt(from, start, height, batch, j).Logs?
      requires AnswerAt(from, start, height, batch, j).TooMuchData? ==> Halved(batch, j) == 1
      ensures BatchExcused(from, start, height, batch)
    {
      hide Shrunk, AnswerAt, Halved;
      assert FailedAt(from, start, height, batch, j);
    }

    lemma Refused(from: nat, start: u64, height: u64, batch: u64, j: nat)
      requires start <= height && batch > 0 && Shrunk(from, start, height, batch, j)
      requires AnswerAt(from, start, height, batch, j).Logs?
      requires LogRefused(AnswerAt(from, start, height, batch, j).logs, from + j + 1)
      ensures BatchExcused(from, start, height, batch)
    {
      hide Shrunk, AnswerAt, Halved, LogRefused;
      assert FailedAt(from, start, height, batch, j);
    }

    lemma Finished(from: nat, start: u64, height: u64, batch: u64, factor: u64, r: Batch, j: nat)
      requires start <= height && batch > 0 && Shrunk(from, start, height, batch, j)
      requires AnswerAt(from, start, height, batch, j).Logs?
      requires r == Done(Asked(start, height, batch, j).last, Grown(Halved(batch, j), factor))
      requires clock == from + j + 1 + |AnswerAt(from, start, height, batch, j).logs|
      ensures BatchDone(from, start, height, batch, factor, r, clock)
    {
      hide Shrunk, AnswerAt, Halved, Asked, Grown;
      assert DoneAt(from, start, height, batch, factor, r, clock, j);
    }

    /** Asking for fewer blocks each time there is too much data, down to one. */
    method RequestShrinking(start: u64, height: u64, batch: u64) returns (answer: Answer, size: u64, j: nat)
      requires start <= height && batch > 0 && Faithful(ds, client)
      modifies this`clock
      ensures clock == old(clock) + j + 1 && size == Halved(batch, j) && Shrunk(old(clock), start, height, batch, j)
      ensures answer == AnswerAt(old(clock), start, height, batch, j) && (answer.TooMuchData? ==> size == 1)
      ensures answer.Logs? ==> Truthful(ds, start, Asked(start, height, batch, j).last, answer.logs)
    {
      hide Halved, Asked, Truthful;
      j, size := 0, batch;
      HalvedNever(batch);
      answer := RequestLogs(start, height, batch, 0);
      while answer.TooMuchData? && size > 1
        invariant clock == old(clock) + j + 1 && size == Halved(batch, j) && Shrunk(old(clock), start, height, batch, j)
        invariant answer == AnswerAt(old(clock), start, height, batch, j)
        invariant answer.Logs? ==> Truthful(ds, start, Asked(start, height, batch, j).last, answer.logs)
        decreases size
      {
        HalvedOnce(batch, j);
        j, size := j + 1, Halve(size);
        answer := RequestLogs(start, height, batch, j);
      }
    }

    method RequestLogs(start: u64, height: u64, batch: u64, j: nat) returns (a: Answer)
      requires start <= height && batch > 0 && clock >= j && Faithful(ds, client)
      modifies this`clock
      ensures clock == old(clock) + 1 && a == AnswerAt(old(clock) - j, start, height, batch, j)
      ensures a.Logs? ==> Truthful(ds, start, Asked(start, height, batch, j).last, a.logs)
    {
      a := client(clock, Asked(start, height, batch, j));
      clock := clock + 1;
    }

    /** Batches from the last requested block to the followed height; the whole interval is tiled. */
    method ProcessPastLogs(height: u64, factor: u64) returns (ok: bool, requests: seq<Range>)
      requires Valid()
      modifies this
      ensures Valid() && old(cache) <= cache && clock >= old(clock)
      ensures ok ==> lastRequested == Max(old(lastRequested), height) && CompleteTo(ds, |cache|, height)
      ensures lastRequested <= Max(old(lastRequested), height)
      ensures ok && old(lastRequested) <= height ==> Tiles(requests, old(lastRequested), height)
      ensures ok && old(lastRequested) > height ==> requests == []
      ensures Covered(requests, old(lastRequested), height, limit, NextBlock(requests, old(lastRequested)))
      ensures ok ==> exists size: u64 :: Explains(old(clock), height, factor, requests, clock, size)
      ensures !ok && limit > 0 && limit + factor <= U64_MAX ==>
                ScanExcused(old(clock), old(lastRequested), height, factor, requests)
    {
      hide Tiles, Covered, BatchExcused, BatchDone, Explains, ScanExcused, Sized, Sound, History, Faithful, CompleteTo, NextBlock;
      var first := lastRequested;
      requests := [];
      CoverNothing(first, height, limit);
      ExplainsNothing(clock, height, factor);
      var current: u64, batch: u64 := first, limit;
      SoundIsComplete(ds, Now());
      CompleteBelow(ds, |cache|, lastRequested, current - 1);
      CoveredMeans(requests, first, height, limit, current);
      while current <= height
        invariant Valid() && old(cache) <= cache && first <= current && batch <= limit && clock >= old(clock)
        invariant CompleteTo(ds, |cache|, current - 1) && Covered(requests, first, height, limit, current)
        invariant first > height ==> current == first && requests == [] && lastRequested == first
        invariant first <= height ==> current <= height
        invariant lastRequested <= Max(first, height)
        invariant limit > 0 && limit + factor <= U64_MAX ==> batch > 0
        invariant Explains(old(clock), height, factor, requests, clock, batch)
        decreases height - current
      {
        ghost var from := clock;
        var r := ProcessBlockInBatch(current, height, batch, factor);
        if r.BatchFailed? {
          CoveredMeans(requests, first, height, limit, current);
          if batch > 0 {
            ScanEnds(old(clock), first, height, factor, requests, from, batch);
          }
          return false, requests;
        }
        ExplainsMore(old(clock), height, factor, requests, from, batch, Range(current, r.last), clock, r.batch);
        CoverMore(requests, first, height, limit, Range(current, r.last));
        requests := requests + [Range(current, r.last)];
        current, batch := r.last, r.batch;
        if current == height {
          break;
        }
        current := current + 1;
      }
      CoveredMeans(requests, first, height, limit, if first > height then first else height + 1);
      if first > height {
        SoundIsComplete(ds, Now());
        CompleteBelow(ds, |cache|, lastRequested, height);
      } else {
        Requested(ds, Now(), current);
      }
      lastRequested := current;
      ok := true;
    }

    /** The logs of one block; logs of other blocks are ignored. */
    method ProcessExecutionBlock(block: u64) returns (ok: bool)
      requires Valid() && CompleteTo(ds, |cache|, block - 1)
      modifies this`clock, this`lastReceived, this`trie, this`cache, this`saved
      ensures Valid() && old(cache) <= cache && clock >= old(clock)
      ensures if ok then CompleteTo(ds, |cache|, block) else LogsExcused(old(clock), block)
      ensures ok ==> client(old(clock), Range(block, block)).Logs?
      ensures ok ==> clock == old(clock) + 1 + |client(old(clock), Range(block, block)).logs|
    {
      var answer := client(clock, Range(block, block));
      clock := clock + 1;
      if !answer.Logs? {
        return false;
      }
      assert Truthful(ds, block, block, client(clock - 1, Range(block, block)).logs);
      AllOfBlock(ds, block, answer.logs);
      hide Sound, Truthful, History, Faithful, CompleteTo, Refusable, LogRefused, OfBlock;
      ok := TakeBlockLogs(block, answer.logs);
    }

    /** The logs of the block, with any logs of other blocks in between, honest or not, ignored. */
    method TakeBlockLogs(block: u64, logs: seq<Log>) returns (ok: bool)
      requires Valid() && CompleteTo(ds, |cache|, block - 1) && Truthful(ds, block, block, OfBlock(logs, block))
      modifies this`clock, this`lastReceived, this`trie, this`cache, this`saved
      ensures Valid() && old(cache) <= cache && clock >= old(clock)
      ensures if ok then CompleteTo(ds, |cache|, block) else LogRefused(OfBlock(logs, block), old(clock))
      ensures ok ==> clock == old(clock) + |OfBlock(logs, block)|
    {
      hide Sound, Truthful, History, Faithful, CompleteTo, Honest, Refusable, OfBlock;
      ghost var own, n := OfBlock(logs, block), 0;
      OfNoBlock(logs, block);
      for i := 0 to |logs|
        invariant Valid() && old(cache) <= cache && clock == old(clock) + n && n == |OfBlock(logs[..i], block)| <= |own|
        invariant forall j :: 0 <= j < n && own[j].Event? ==> own[j].index < |cache|
      {
        OfBlockNext(logs, block, i);
        if logs[i].block == block {
          HonestLog(ds, block, block, own, n);
          n := n + 1;
          ok := TakeHonest(logs[i]);
          if !ok {
            return;
          }
        }
      }
      assert logs[..|logs|] == logs;
      CompleteGrows(ds, |old(cache)|, |cache|, block - 1);
      ReadUpTo(ds, |cache|, block, block, own, |own|, block);
      return true;
    }

    /**
     * Polling: a large gap is left to the past-log scan, a small one is read
     * block by block. At the last 64-bit height the block counter wraps, so the
     * loop starts over from block 0 and never returns.
     */
    method RequestBatchedHeadersAndLogs(height: u64, factor: u64) returns (r: PollResult)
      requires Valid()
      modifies this
      ensures Valid() && old(cache) <= cache && clock >= old(clock)
      ensures r.Polled? ==> CompleteTo(ds, |cache|, height)
      ensures r.Polled? ==> lastRequested == if old(lastRequested) == U64_MAX then height else Max(old(lastRequested), height)
      ensures r.Wraps? ==> height == U64_MAX == lastRequested && height <= old(lastRequested) + 50
      ensures height == U64_MAX && height <= old(lastRequested) + 50 ==> !r.Polled?
      ensures r.Polled? && height <= old(lastRequested) + 50 ==> exists n :: ReadAll(old(clock), AddWrap(old(lastRequested), 1), n, clock)
      ensures r.PollFailed? && height <= old(lastRequested) + 50 ==>
                && PollExcused(old(clock), AddWrap(old(lastRequested), 1), AddWrap(lastRequested, 1))
                && (old(lastRequested) < U64_MAX ==> old(lastRequested) <= lastRequested < height)
      ensures r.PollFailed? && height > old(lastRequested) + 50 && limit > 0 && limit + factor <= U64_MAX ==>
                exists requests :: ScanExcused(old(clock), old(lastRequested), height, factor, requests)
    {
      hide Sound, History, Faithful, CompleteTo, ReadAll, PollExcused, ScanExcused;
      if Behind(lastRequested, height) {
        var ok, requests := ProcessPastLogs(height, factor);
        return if ok then Polled else PollFailed;
      }
      r := PollBlocks(height);
      if r.Polled? {
        SoundIsComplete(ds, Now());
        CompleteBelow(ds, |cache|, lastRequested, height);
      }
    }

    method PollBlocks(height: u64) returns (r: PollResult)
      requires Valid()
      modifies this
      ensures Valid() && old(cache) <= cache && clock >= old(clock)
      ensures r.Polled? ==> lastRequested == if old(lastRequested) == U64_MAX then height else Max(old(lastRequested), height)
      ensures r.Wraps? ==> height == U64_MAX == lastRequested
      ensures height == U64_MAX && height <= old(lastRequested) + 50 ==> !r.Polled?
      ensures r.Polled? ==> exists n :: ReadAll(old(clock), AddWrap(old(lastRequested), 1), n, clock)
      ensures r.PollFailed? ==>
                && PollExcused(old(clock), AddWrap(old(lastRequested), 1), AddWrap(lastRequested, 1))
                && (old(lastRequested) < U64_MAX ==> old(lastRequested) <= lastRequested < height)
    {
      hide Sound, History, Faithful, CompleteTo, LogsExcused, LogRefused, ReadAll, PollExcused;
      var block := AddWrap(lastRequested, 1);
      ghost var first, n := block, 0;
      ReadNone(clock, first);
      while block <= height
        invariant Valid() && old(cache) <= cache && clock >= old(clock)
        invariant block == AddWrap(lastRequested, 1) == first + n && ReadAll(old(clock), first, n, clock)
        invariant old(lastRequested) < U64_MAX ==> old(lastRequested) <= lastRequested <= Max(old(lastRequested), height)
        invariant old(lastRequested) == U64_MAX ==> (lastRequested == U64_MAX && block == 0) || lastRequested <= height
        decreases height - block
      {
        ghost var from := clock;
        var ok := PollBlock(block);
        if !ok {
          PollEnds(old(clock), first, block, from);
          return PollFailed;
        }
        ReadMore(old(clock), first, n, from, block, clock);
        n := n + 1;
        if block == U64_MAX {
          return Wraps;
        }
        block := block + 1;
      }
      return Polled;
    }

    /** The header and the logs of the block after the last requested one. */
    method PollBlock(block: u64) returns (ok: bool)
      requires Valid() && block == AddWrap(lastRequested, 1)
      modifies this
      ensures Valid() && old(cache) <= cache && clock >= old(clock)
      ensures lastRequested == if ok then block else old(lastRequested)
      ensures if ok then ReadOne(old(clock), block, clock) else BlockExcused(old(clock), block)
    {
      hide Sound, History, Faithful, CompleteTo, LogsExcused;
      BeforeNext();
      clock := clock + 1;
      if faults(clock - 1) == BeforeLeaf {       // the header request fails
        return false;
      }
      ok := ProcessExecutionBlock(block);
      if ok {
        Requested(ds, Now(), block);
        lastRequested := block;
      }
    }

    /** Nothing is missing before the block that comes next, also when that is block 0 again. */
    lemma BeforeNext()
      requires Valid()
      ensures CompleteTo(ds, |cache|, AddWrap(lastRequested, 1) - 1)
    {
      if lastRequested == U64_MAX {
        NothingBelow(ds, |cache|);
      } else {
        SoundIsComplete(ds, Now());
      }
    }

    method SaveExecutionChainData() returns (ok: bool)
      modifies this`clock, this`saved
      ensures saved == if ok then Record(trie, cache, lastRequested) else old(saved)
    {
      ok := faults(clock) != OnSave;
      clock := clock + 1;
      if ok {
        saved := Record(trie, cache, lastRequested);
      }
    }

    /**
     * Any sequence of attempts, each of which may fail anywhere: every height
     * once reached stays complete. Only an attempt that never returns stops it.
     */
    method Follow(attempts: seq<Attempt>, factor: u64) returns (oks: seq<bool>)
      requires Valid()
      modifies this
      ensures Valid() && old(cache) <= cache && |oks| <= |attempts|
      ensures |oks| < |attempts| ==> attempts[|oks|] == Poll(U64_MAX)
      ensures forall i :: 0 <= i < |oks| && oks[i] && !attempts[i].Save? ==> CompleteTo(ds, |cache|, attempts[i].height)
    {
      oks := [];
      for i := 0 to |attempts|
        invariant Valid() && old(cache) <= cache && |oks| == i
        invariant forall j :: 0 <= j < i && oks[j] && !attempts[j].Save? ==> CompleteTo(ds, |cache|, attempts[j].height)
      {
        var ok := true;
        match attempts[i] {
          case PastLogs(height) =>
            var requests;
            ok, requests := ProcessPastLogs(height, factor);
          case Poll(height) =>
            var r := RequestBatchedHeadersAndLogs(height, factor);
            if r.Wraps? {
              return;
            }
            ok := r.Polled?;
          case Save =>
            ok := SaveExecutionChainData();
        }
        oks := oks + [ok];
      }
    }

    /** A new process starting from the record. */
    method InitializeExecutionData()
      requires Valid()
      modifies this
      ensures saved == old(saved) && trie == saved.trie && cache == saved.cache && lastRequested == saved.lastRequested
      ensures lastReceived == |saved.trie| - 1
      ensures Now() == Restarted(old(Now()))
      ensures Valid() <==> |saved.trie| == |saved.cache|
    {
      RestartSoundIff(ds, Now());
      trie, lastRequested := saved.trie, saved.lastRequested;
      lastReceived := |trie| - 1;
      cache := saved.cache;
    }
  }
}

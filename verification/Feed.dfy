/** Select-case lists: the sequence-level account of the feed's in-place slice operations. */
module CaseLists {
  import opened Options
  type Chan = nat

  datatype Case<V> = Case(ch: Chan, send: Option<V>)

  /** The feed's own removal channel, always case 0. */
  const REMOVE_SUB: Chan := 0

  /** How often each channel occurs in a case list. */
  ghost function Tally<V>(cs: seq<Case<V>>): multiset<Chan> {
    if cs == [] then multiset{} else Tally(cs[..|cs| - 1]) + multiset{cs[|cs| - 1].ch}
  }

  lemma {:induction false} TallyConcat<V>(a: seq<Case<V>>, b: seq<Case<V>>)
    ensures Tally(a + b) == Tally(a) + Tally(b)
    decreases |b|
  {
    if b == [] {
      assert a + b == a;
    } else {
      var c := a + b;
      assert c[..|c| - 1] == a + b[..|b| - 1];
      TallyConcat(a, b[..|b| - 1]);
    }
  }

  lemma {:induction false} TallySplit<V>(cs: seq<Case<V>>, i: nat)
    requires i <= |cs|
    ensures Tally(cs) == Tally(cs[..i]) + Tally(cs[i..])
  {
    assert cs == cs[..i] + cs[i..];
    TallyConcat(cs[..i], cs[i..]);
  }

  lemma {:induction false} TallyOne<V>(c: Case<V>)
    ensures Tally([c]) == multiset{c.ch}
  {
    assert [c][..0] == [];
  }

  lemma {:induction false} TallyAt<V>(cs: seq<Case<V>>, i: nat)
    requires i < |cs|
    ensures Tally(cs) == Tally(cs[..i]) + multiset{cs[i].ch} + Tally(cs[i + 1..])
  {
    TallySplit(cs, i);
    TallySplit(cs[i..], 1);
    assert cs[i..][..1] == [cs[i]] && cs[i..][1..] == cs[i + 1..];
    TallyOne(cs[i]);
  }

  lemma {:induction false} TallyMember<V>(cs: seq<Case<V>>, ch: Chan)
    ensures ch in Tally(cs) <==> exists i :: 0 <= i < |cs| && cs[i].ch == ch
  {
    if cs != [] {
      TallyMember(cs[..|cs| - 1], ch);
      if exists i :: 0 <= i < |cs| && cs[i].ch == ch {
        var i :| 0 <= i < |cs| && cs[i].ch == ch;
        assert i < |cs| - 1 ==> cs[..|cs| - 1][i].ch == ch;
      }
      if ch in Tally(cs[..|cs| - 1]) {
        var i :| 0 <= i < |cs| - 1 && cs[..|cs| - 1][i].ch == ch;
        assert cs[i].ch == ch;
      }
      assert cs[|cs| - 1].ch == ch ==> exists i :: 0 <= i < |cs| && cs[i].ch == ch;
    }
  }

  lemma {:induction false} TallySize<V>(cs: seq<Case<V>>)
    ensures |Tally(cs)| == |cs|
  {
    if cs != [] { TallySize(cs[..|cs| - 1]); }
  }

  lemma {:induction false} TallySameChannels<V>(a: seq<Case<V>>, b: seq<Case<V>>)
    requires |a| == |b| && forall i :: 0 <= i < |a| ==> a[i].ch == b[i].ch
    ensures Tally(a) == Tally(b)
  {
    if a != [] { TallySameChannels(a[..|a| - 1], b[..|b| - 1]); }
  }

  lemma {:induction false} TallyOfInbox<V>(cs: seq<Case<V>>, inbox: seq<Chan>)
    requires |cs| == |inbox| && forall i :: 0 <= i < |cs| ==> cs[i].ch == inbox[i]
    ensures Tally(cs) == multiset(inbox)
  {
    if cs != [] {
      var n := |cs| - 1;
      TallyOfInbox(cs[..n], inbox[..n]);
      assert inbox == inbox[..n] + [inbox[n]];
    }
  }

  /** Case `i` is the first with the channel. */
  ghost predicate FirstWith<V>(cs: seq<Case<V>>, ch: Chan, i: nat)
    requires i < |cs|
  {
    cs[i].ch == ch && forall j :: 0 <= j < i ==> cs[j].ch != ch
  }

  function DeleteAt<V>(cs: seq<Case<V>>, i: nat): seq<Case<V>>
    requires i < |cs|
  {
    cs[..i] + cs[i + 1..]
  }

  lemma {:induction false} ShiftedIsDeleted<V>(before: seq<Case<V>>, after: seq<Case<V>>, i: nat)
    requires i < |before| && |after| == |before| - 1
    requires forall j :: 0 <= j < |after| ==> after[j] == before[if j < i then j else j + 1]
    ensures after == DeleteAt(before, i)
  {
  }

  function Swap<V>(cs: seq<Case<V>>, i: nat, j: nat): seq<Case<V>>
    requires i < |cs| && j < |cs|
  {
    cs[i := cs[j]][j := cs[i]]
  }

  lemma {:induction false} TallyDelete<V>(cs: seq<Case<V>>, i: nat)
    requires i < |cs|
    ensures Tally(cs) == Tally(DeleteAt(cs, i)) + multiset{cs[i].ch}
  {
    TallyAt(cs, i);
    TallyConcat(cs[..i], cs[i + 1..]);
  }

  lemma {:induction false} TallyReplace<V>(cs: seq<Case<V>>, i: nat, c: Case<V>)
    requires i < |cs|
    ensures Tally(cs[i := c]) + multiset{cs[i].ch} == Tally(cs) + multiset{c.ch}
  {
    TallyAt(cs, i);
    TallyAt(cs[i := c], i);
    assert cs[i := c][..i] == cs[..i] && cs[i := c][i + 1..] == cs[i + 1..];
  }

  /** The list with case `i` taken out and the last case put in its place. */
  function SwapOut<V>(cs: seq<Case<V>>, i: nat): seq<Case<V>>
    requires i < |cs|
  {
    var last := |cs| - 1;
    if i == last then cs[..last] else cs[..last][i := cs[last]]
  }

  lemma {:induction false} TallySwapOut<V>(cs: seq<Case<V>>, i: nat)
    requires i < |cs|
    ensures Tally(cs) == Tally(SwapOut(cs, i)) + multiset{cs[i].ch}
  {
    var last := |cs| - 1;
    if i < last {
      TallyReplace(cs[..last], i, cs[last]);
    }
  }

  // What the in-place operations do to the two segments `cs[1..m]` and `cs[m..]`.

  lemma {:induction false} SwapSegments<V>(cs: seq<Case<V>>, m: nat, i: nat)
    requires 1 <= i < m <= |cs|
    ensures Swap(cs, i, m - 1)[1..m - 1] == SwapOut(cs[1..m], i - 1)
    ensures Swap(cs, i, m - 1)[m - 1..] == [cs[i]] + cs[m..]
  {
  }

  lemma {:induction false} DeleteBelow<V>(cs: seq<Case<V>>, m: nat, i: nat)
    requires 1 <= i < m <= |cs|
    ensures DeleteAt(cs, i)[1..m - 1] == DeleteAt(cs[1..m], i - 1)
    ensures DeleteAt(cs, i)[m - 1..] == cs[m..]
  {
    var ds := DeleteAt(cs, i);
    assert forall j :: 0 <= j < |ds| ==> ds[j] == cs[if j < i then j else j + 1];
  }

  lemma {:induction false} DeleteAbove<V>(cs: seq<Case<V>>, m: nat, i: nat)
    requires 1 <= m <= i < |cs|
    ensures DeleteAt(cs, i)[1..m] == cs[1..m]
    ensures DeleteAt(cs, i)[m..] == DeleteAt(cs[m..], i - m)
  {
    var ds := DeleteAt(cs, i);
    assert forall j :: 0 <= j < |ds| ==> ds[j] == cs[if j < i then j else j + 1];
  }
}

/** The event feed: one-to-many delivery over an array that is swapped, shifted and cut in place. */
module EventFeed {
  import opened Options
  import opened Oracles
  import opened CaseLists

  /**
   * The account of a running Send: the subscriptions it started with, what it
   * has delivered, and the channels unsubscribed before and after receiving.
   */
  datatype Ledger<V> = Ledger(value: V, merged: multiset<Chan>, log: seq<Case<V>>, early: multiset<Chan>, late: multiset<Chan>)

  /**
   * `todo` are the subscriptions still to be served and `done` those served
   * and still subscribed. Every merged subscription is to do, delivered or
   * removed early; every delivered one is done or removed late; and no case
   * holds anything but the value being sent.
   */
  ghost predicate Balanced<V>(todo: seq<Case<V>>, done: seq<Case<V>>, l: Ledger<V>) {
    && Loaded(todo, l.value) && Loaded(done, l.value) && Loaded(l.log, l.value)
    && l.merged == Tally(todo) + Tally(l.log) + l.early
    && Tally(l.log) == Tally(done) + l.late
  }

  ghost predicate Loaded<V>(cs: seq<Case<V>>, v: V) {
    forall i :: 0 <= i < |cs| ==> cs[i].send == Some(v)
  }

  lemma {:induction false} DeliverTallies<V>(todo: seq<Case<V>>, done: seq<Case<V>>, i: nat, log: seq<Case<V>>)
    requires i < |todo|
    ensures Tally(todo) == Tally(SwapOut(todo, i)) + multiset{todo[i].ch}
    ensures Tally(log + [todo[i]]) == Tally(log) + multiset{todo[i].ch}
    ensures Tally([todo[i]] + done) == multiset{todo[i].ch} + Tally(done)
  {
    TallySwapOut(todo, i);
    TallyOne(todo[i]);
    TallyConcat(log, [todo[i]]);
    TallyConcat([todo[i]], done);
  }

  lemma {:induction false} DeliverLoaded<V>(todo: seq<Case<V>>, done: seq<Case<V>>, i: nat, log: seq<Case<V>>, v: V)
    requires i < |todo| && Loaded(todo, v) && Loaded(done, v) && Loaded(log, v)
    ensures Loaded(SwapOut(todo, i), v) && Loaded([todo[i]] + done, v) && Loaded(log + [todo[i]], v)
  {
  }

  /** Moving `one` from `todo` to `log` and to `done` keeps both equations. */
  lemma {:induction false} MoveAcross(todo: multiset<Chan>, todo': multiset<Chan>, done: multiset<Chan>, done': multiset<Chan>,
                                      log: multiset<Chan>, log': multiset<Chan>, one: multiset<Chan>,
                                      merged: multiset<Chan>, early: multiset<Chan>, late: multiset<Chan>)
    requires merged == todo + log + early && log == done + late
    requires todo == todo' + one && log' == log + one && done' == one + done
    ensures merged == todo' + log' + early && log' == done' + late
  {
  }

  lemma {:induction false} DeliverBalances<V>(todo: seq<Case<V>>, done: seq<Case<V>>, i: nat, l: Ledger<V>)
    requires Balanced(todo, done, l) && i < |todo|
    ensures Balanced(SwapOut(todo, i), [todo[i]] + done, l.(log := l.log + [todo[i]]))
  {
    DeliverLoaded(todo, done, i, l.log, l.value);
    DeliverTallies(todo, done, i, l.log);
    hide SwapOut, Loaded;
    MoveAcross(Tally(todo), Tally(SwapOut(todo, i)), Tally(done), Tally([todo[i]] + done),
               Tally(l.log), Tally(l.log + [todo[i]]), multiset{todo[i].ch}, l.merged, l.early, l.late);
  }

  lemma {:induction false} ServedBalances<V>(cs: seq<Case<V>>, m: nat, i: nat, l: Ledger<V>)
    requires 1 <= i < m <= |cs| && Balanced(cs[1..m], cs[m..], l)
    ensures var ds := Swap(cs, i, m - 1);
            Balanced(ds[1..m - 1], ds[m - 1..], l.(log := l.log + [cs[i]]))
  {
    hide Balanced, Swap, SwapOut;
    DeliverBalances(cs[1..m], cs[m..], i - 1, l);
    SwapSegments(cs, m, i);
  }

  /** Taking `one` out of `todo`, or out of `done`, and writing it down as removed keeps both equations. */
  lemma {:induction false} TakeOut(todo: multiset<Chan>, todo': multiset<Chan>, done: multiset<Chan>, done': multiset<Chan>,
                                   log: multiset<Chan>, one: multiset<Chan>,
                                   merged: multiset<Chan>, early: multiset<Chan>, late: multiset<Chan>)
    requires merged == todo + log + early && log == done + late
    ensures todo == todo' + one ==> merged == todo' + log + (early + one)
    ensures done == done' + one ==> log == done' + (late + one)
  {
  }

  lemma {:induction false} DeletedLoaded<V>(cs: seq<Case<V>>, i: nat, v: V)
    requires i < |cs| && Loaded(cs, v)
    ensures Loaded(DeleteAt(cs, i), v)
  {
  }

  lemma {:induction false} DropEarlyBalances<V>(todo: seq<Case<V>>, done: seq<Case<V>>, i: nat, l: Ledger<V>)
    requires Balanced(todo, done, l) && i < |todo|
    ensures Balanced(DeleteAt(todo, i), done, l.(early := l.early + multiset{todo[i].ch}))
  {
    hide DeleteAt, Loaded;
    DeletedLoaded(todo, i, l.value);
    TallyDelete(todo, i);
    TakeOut(Tally(todo), Tally(DeleteAt(todo, i)), Tally(done), Tally(done), Tally(l.log), multiset{todo[i].ch},
            l.merged, l.early, l.late);
  }

  lemma {:induction false} DropLateBalances<V>(todo: seq<Case<V>>, done: seq<Case<V>>, i: nat, l: Ledger<V>)
    requires Balanced(todo, done, l) && i < |done|
    ensures Balanced(todo, DeleteAt(done, i), l.(late := l.late + multiset{done[i].ch}))
  {
    hide DeleteAt, Loaded;
    DeletedLoaded(done, i, l.value);
    TallyDelete(done, i);
    TakeOut(Tally(todo), Tally(todo), Tally(done), Tally(DeleteAt(done, i)), Tally(l.log), multiset{done[i].ch},
            l.merged, l.early, l.late);
  }

  ghost function Dropped<V>(l: Ledger<V>, ch: Chan, beforeReceipt: bool): Ledger<V> {
    if beforeReceipt then l.(early := l.early + multiset{ch}) else l.(late := l.late + multiset{ch})
  }

  lemma {:induction false} DropBalances<V>(cs: seq<Case<V>>, m: nat, i: nat, l: Ledger<V>)
    requires 1 <= m <= |cs| && 1 <= i < |cs| && Balanced(cs[1..m], cs[m..], l)
    ensures var m' := if i < m then m - 1 else m;
            var ds := DeleteAt(cs, i);
            Balanced(ds[1..m'], ds[m'..], Dropped(l, cs[i].ch, i < m))
  {
    hide Balanced;
    if i < m {
      DropEarlyBalances(cs[1..m], cs[m..], i - 1, l);
      DeleteBelow(cs, m, i);
    } else {
      DropLateBalances(cs[1..m], cs[m..], i - m, l);
      DeleteAbove(cs, m, i);
    }
  }

  /** The merged list, loaded with the value, opens a balanced account. */
  lemma {:induction false} OpenBalances<V>(before: seq<Case<V>>, box: seq<Chan>, loaded: seq<Case<V>>, v: V)
    requires |before| >= 1 && |loaded| == |before| + |box|
    requires forall i :: 1 <= i < |before| ==> loaded[i].ch == before[i].ch
    requires forall i :: 0 <= i < |box| ==> loaded[|before| + i].ch == box[i]
    requires Loaded(loaded[1..], v)
    ensures Balanced(loaded[1..], [], Ledger(v, Tally(before[1..]) + multiset(box), [], multiset{}, multiset{}))
  {
    TallyOfMerge(before, box, loaded);
  }

  lemma {:induction false} TallyOfMerge<V>(before: seq<Case<V>>, box: seq<Chan>, loaded: seq<Case<V>>)
    requires |before| >= 1 && |loaded| == |before| + |box|
    requires forall i :: 1 <= i < |before| ==> loaded[i].ch == before[i].ch
    requires forall i :: 0 <= i < |box| ==> loaded[|before| + i].ch == box[i]
    ensures Tally(loaded[1..]) == Tally(before[1..]) + multiset(box)
  {
    var n := |before|;
    assert loaded[1..] == loaded[1..n] + loaded[n..];
    TallyConcat(loaded[1..n], loaded[n..]);
    TallySameChannels(loaded[1..n], before[1..]);
    TallyOfInbox(loaded[n..], box);
  }

  /** The unsubscriptions taken so far are the first `k` requests. */
  ghost predicate Honoured(merged: multiset<Chan>, early: multiset<Chan>, late: multiset<Chan>, requests: seq<Chan>, k: nat) {
    k <= |requests| && multiset(requests) <= merged && early + late == multiset(requests[..k])
  }

  lemma {:induction false} HonourNone(merged: multiset<Chan>, requests: seq<Chan>)
    requires multiset(requests) <= merged
    ensures Honoured(merged, multiset{}, multiset{}, requests, 0)
  {
    assert requests[..0] == [];
  }

  lemma {:induction false} HonouredMeans(merged: multiset<Chan>, early: multiset<Chan>, late: multiset<Chan>, requests: seq<Chan>, k: nat)
    requires Honoured(merged, early, late, requests, k)
    ensures k <= |requests| && early + late == multiset(requests[..k])
  {
  }

  /** The next request's channel still has a case. */
  lemma {:induction false} RequestHasCase<V>(cs: seq<Case<V>>, m: nat, l: Ledger<V>, requests: seq<Chan>, k: nat)
    requires 1 <= m <= |cs| && Balanced(cs[1..m], cs[m..], l) && k < |requests|
    requires Honoured(l.merged, l.early, l.late, requests, k)
    ensures exists j :: 1 <= j < |cs| && cs[j].ch == requests[k]
  {
    hide *;
    RequestIsOpen(cs[1..m], cs[m..], l, requests, k);
    assert cs[1..] == cs[1..m] + cs[m..];
    TallyConcat(cs[1..m], cs[m..]);
    CaseOf(cs, requests[k]);
  }

  lemma {:induction false} RequestIsOpen<V>(todo: seq<Case<V>>, done: seq<Case<V>>, l: Ledger<V>, requests: seq<Chan>, k: nat)
    requires Balanced(todo, done, l) && k < |requests| && Honoured(l.merged, l.early, l.late, requests, k)
    ensures requests[k] in Tally(todo) + Tally(done)
  {
    hide Tally, Loaded;
    RequestRemains(requests, k, l.merged, l.early, l.late, Tally(todo), Tally(done), Tally(l.log));
  }

  lemma {:induction false} CaseOf<V>(cs: seq<Case<V>>, ch: Chan)
    requires |cs| >= 1 && ch in Tally(cs[1..])
    ensures exists j :: 1 <= j < |cs| && cs[j].ch == ch
  {
    TallyMember(cs[1..], ch);
    var i :| 0 <= i < |cs[1..]| && cs[1..][i].ch == ch;
    assert cs[i + 1].ch == ch;
  }

  lemma {:induction false} RequestRemains(requests: seq<Chan>, k: nat, merged: multiset<Chan>, early: multiset<Chan>,
                                          late: multiset<Chan>, todo: multiset<Chan>, done: multiset<Chan>, log: multiset<Chan>)
    requires k < |requests| && multiset(requests) <= merged && early + late == multiset(requests[..k])
    requires merged == todo + log + early && log == done + late
    ensures requests[k] in todo + done
  {
    var ch := requests[k];
    assert requests == requests[..k] + [ch] + requests[k + 1..];
    assert merged[ch] == todo[ch] + done[ch] + early[ch] + late[ch];
    assert (early + late)[ch] == multiset(requests[..k])[ch];
  }

  lemma {:induction false} HonourNext<V>(l: Ledger<V>, requests: seq<Chan>, k: nat, beforeReceipt: bool)
    requires Honoured(l.merged, l.early, l.late, requests, k) && k < |requests|
    ensures var d := Dropped(l, requests[k], beforeReceipt);
            Honoured(d.merged, d.early, d.late, requests, k + 1)
  {
    assert requests[..k + 1] == requests[..k] + [requests[k]];
  }

  /** A closed account: nothing is left to serve. */
  lemma {:induction false} ClosedAccount<V>(done: seq<Case<V>>, cleared: seq<Case<V>>, l: Ledger<V>)
    requires Balanced([], done, l)
    requires |cleared| == |done| && forall i :: 0 <= i < |done| ==> cleared[i].ch == done[i].ch
    ensures Delivered(cleared, l)
  {
    TallySameChannels(cleared, done);
  }

  /**
   * The account of a finished Send, `left` being the case list after it. Each
   * merged subscription received the value exactly once unless removed before
   * that, and what is left is every merged subscription that was not removed.
   */
  ghost predicate Delivered<V>(left: seq<Case<V>>, l: Ledger<V>) {
    && Loaded(l.log, l.value)
    && l.merged == Tally(l.log) + l.early
    && l.merged == Tally(left) + l.early + l.late
  }

  /** How many of the actions from number `from` up to number `end` succeed. */
  ghost function Successes(ready: Oracle, from: nat, end: nat): nat
    requires from <= end
    decreases end
  {
    if from == end then 0 else Successes(ready, from, end - 1) + if ready(end - 1) then 1 else 0
  }

  class Feed<V(0)> {
    var cases: array<Case<V>>  // backing array of f.sendCases
    var len: nat               // len(f.sendCases)
    var inbox: seq<Chan>
    var sent: seq<Case<V>>     // every value put on a subscriber's channel, in order
    const ready: Oracle        // which of the non-blocking sends find room
    var tries: nat             // how many there have been

    /** f.sendCases as a list. */
    ghost function List(): seq<Case<V>>
      reads this, cases
      requires len <= cases.Length
    {
      cases[..len]
    }

    ghost predicate Valid()
      reads this, cases
    {
      && 1 <= len <= cases.Length && cases[0].ch == REMOVE_SUB
      && (forall i :: 1 <= i < len ==> cases[i].ch != REMOVE_SUB)
      && REMOVE_SUB !in inbox
    }

    constructor (ready: Oracle)
      ensures this.ready == ready && tries == 0
      ensures Valid() && fresh(cases) && List() == [Case(REMOVE_SUB, None)] && inbox == [] && sent == []
    {
      cases := new Case<V>[1](_ => Case(REMOVE_SUB, None));
      len, inbox, sent, tries := 1, [], [], 0;
      this.ready := ready;
    }

    method Subscribe(ch: Chan)
      requires Valid() && ch != REMOVE_SUB
      modifies this`inbox
      ensures Valid() && inbox == old(inbox) + [ch]
    {
      inbox := inbox + [ch];
    }

    /** The index of the first case with the channel, or -1. */
    method Find(ch: Chan) returns (index: int)
      requires Valid()
      ensures -1 <= index < len
      ensures index == -1 ==> forall i :: 0 <= i < len ==> cases[i].ch != ch
      ensures index >= 0 ==> cases[index].ch == ch && forall i :: 0 <= i < index ==> cases[i].ch != ch
    {
      for i := 0 to len
        invariant forall j :: 0 <= j < i ==> cases[j].ch != ch
      {
        if cases[i].ch == ch {
          return i;
        }
      }
      return -1;
    }

    /** append(cs[:index], cs[index+1:]...): shifts the tail down within the array. */
    method Delete(index: nat)
      requires index < len <= cases.Length
      modifies this`len, cases
      ensures cases == old(cases) && len == old(len) - 1
      ensures List() == DeleteAt(old(List()), index)
      ensures old(Valid()) && index > 0 ==> Valid()
    {
      hide DeleteAt;
      ghost var before := List();
      for k := index to len - 1
        invariant cases == old(cases) && len == old(len)
        invariant forall j :: 0 <= j < k ==> cases[j] == before[if j < index then j else j + 1]
        invariant forall j :: k <= j < len ==> cases[j] == before[j]
      {
        cases[k] := cases[k + 1];
      }
      len := len - 1;
      ShiftedIsDeleted(before, List(), index);
    }

    /** Swaps a case with the last of the first `m`. */
    method Deactivate(m: nat, index: nat)
      requires index < m <= len <= cases.Length
      modifies cases
      ensures List() == Swap(old(List()), index, m - 1)
      ensures old(Valid()) && index > 0 ==> Valid()
    {
      cases[index], cases[m - 1] := cases[m - 1], cases[index];
    }

    /**
     * The merge that opens Send: the inbox is appended, into a larger array
     * when the old one has no room, and then forgotten.
     */
    method MergeInbox()
      requires Valid()
      modifies this`cases, this`len, this`inbox, cases
      ensures Valid() && inbox == []
      ensures cases == old(cases) || fresh(cases)
      ensures len == old(len) + |old(inbox)|
      ensures forall i :: 0 <= i < old(len) ==> cases[i] == old(cases[i])
      ensures forall i :: old(len) <= i < len ==> cases[i] == Case(old(inbox)[i - old(len)], None)
    {
      var n, box := len, inbox;
      var target := cases;
      if n + |box| > cases.Length {
        target := CopyOut(2 * (n + |box|));
      }
      for i := 0 to |box|
        invariant n + |box| <= target.Length && (target == old(cases) || fresh(target))
        invariant forall j :: 0 <= j < n ==> target[j] == old(cases[j])
        invariant forall j :: 0 <= j < i ==> target[n + j] == Case(box[j], None)
      {
        target[n + i] := Case(box[i], None);
      }
      assert forall j :: 0 <= j < |box| ==> box[j] != REMOVE_SUB by {
        assert forall j :: 0 <= j < |box| ==> box[j] in box;
      }
      cases, len, inbox := target, n + |box|, [];
      assert forall j :: n <= j < len ==> cases[j].ch == box[j - n];
    }

    /** A larger array with the same cases. */
    method CopyOut(size: nat) returns (target: array<Case<V>>)
      requires Valid() && len <= size
      ensures fresh(target) && target.Length == size
      ensures forall j :: 0 <= j < len ==> target[j] == cases[j]
    {
      target := new Case<V>[size](_ => Case(REMOVE_SUB, None));
      for i := 0 to len
        invariant forall j :: 0 <= j < i ==> target[j] == cases[j]
      {
        target[i] := cases[i];
      }
    }

    /** Writes the value to send, or its absence, into every subscription case. */
    method SetSend(value: Option<V>)
      requires Valid()
      modifies cases
      ensures Valid()
      ensures cases[0] == old(cases[0])
      ensures forall i :: 1 <= i < len ==> cases[i] == Case(old(cases[i]).ch, value)
    {
      for i := 1 to len
        invariant cases[0] == old(cases[0])
        invariant forall j :: 1 <= j < i ==> cases[j] == Case(old(cases[j]).ch, value)
        invariant forall j :: i <= j < len ==> cases[j] == old(cases[j])
      {
        cases[i] := cases[i].(send := value);
      }
    }

    ghost predicate Running(m: nat, l: Ledger<V>)
      reads this, cases
    {
      Valid() && 1 <= m <= len && Balanced(List()[1..m], List()[m..], l)
    }

    /** A send on case `i` succeeded. */
    method Deliver(m: nat, i: nat, ghost l: Ledger<V>) returns (ghost l': Ledger<V>)
      requires Running(m, l) && 1 <= i < m
      modifies this`sent, cases
      ensures Running(m - 1, l') && l' == l.(log := l.log + [old(cases[i])]) && sent == old(sent) + [old(cases[i])]
    {
      hide Balanced;
      ServedBalances(List(), m, i, l);
      l' := l.(log := l.log + [cases[i]]);
      sent := sent + [cases[i]];
      Deactivate(m, i);
    }

    /** Send received the channel of case `index` from the removal channel. */
    method DropAt(m: nat, index: nat, ghost l: Ledger<V>) returns (m': nat, ghost l': Ledger<V>)
      requires Running(m, l) && 1 <= index < len
      modifies this`len, cases
      ensures Running(m', l') && len == old(len) - 1
      ensures m' == if index < m then m - 1 else m
      ensures l' == Dropped(l, old(cases[index].ch), index < m)
    {
      DropBalances(List(), m, index, l);
      m' := if index < m then m - 1 else m;
      l' := Dropped(l, cases[index].ch, index < m);
      Delete(index);
    }

    /** Trying every unserved case exactly once without blocking; those that find room are delivered. */
    method FastPath(m: nat, ghost l: Ledger<V>) returns (m': nat, nsent: nat, ghost l': Ledger<V>)
      requires Running(m, l)
      modifies this`sent, this`tries, cases
      ensures Running(m', l') && m' <= m
      ensures tries == old(tries) + m - 1 && nsent == Successes(ready, old(tries), tries)
      ensures l' == l.(log := l'.log) && l.log <= l'.log && |l'.log| == |l.log| + nsent
      ensures sent == old(sent) + l'.log[|l.log|..]
    {
      hide Balanced;
      m', nsent, l' := m, 0, l;
      var i := 1;
      while i < m'
        invariant Running(m', l') && 1 <= i <= m' <= m
        invariant tries - old(tries) == i - 1 + m - m' && nsent == Successes(ready, old(tries), tries)
        invariant l' == l.(log := l'.log) && l.log <= l'.log && |l'.log| == |l.log| + nsent
        invariant sent == old(sent) + l'.log[|l.log|..]
        decreases m' - i
      {
        tries := tries + 1;
        if ready(tries - 1) {
          l' := Deliver(m', i, l');
          nsent, m' := nsent + 1, m' - 1;
        } else {
          i := i + 1;
        }
      }
    }

    /** Loads every merged subscription with the value and opens the account. */
    method Open(v: V) returns (ghost l: Ledger<V>)
      requires Valid()
      modifies this, cases
      ensures cases == old(cases) || fresh(cases)
      ensures Running(len, l) && inbox == [] && sent == old(sent)
      ensures l == Ledger(v, Tally(old(List())[1..]) + multiset(old(inbox)), [], multiset{}, multiset{})
    {
      ghost var before, box := List(), inbox;
      MergeInbox();
      SetSend(Some(v));
      OpenBalances(before, box, List(), v);
      assert List()[1..len] == List()[1..] && List()[len..] == [];
      l := Ledger(v, Tally(before[1..]) + multiset(box), [], multiset{}, multiset{});
    }

    /** Send receives the next request: its channel has a case, and the first one goes. */
    method TakeRequest(m: nat, requests: seq<Chan>, k: nat, ghost l: Ledger<V>) returns (m': nat, ghost l': Ledger<V>)
      requires Running(m, l) && k < |requests| && Honoured(l.merged, l.early, l.late, requests, k)
      modifies this`len, cases
      ensures Running(m', l') && len == old(len) - 1 && m' <= m
      ensures l' == l.(early := l'.early, late := l'.late) && Honoured(l'.merged, l'.early, l'.late, requests, k + 1)
    {
      hide Balanced, Honoured;
      RequestHasCase(List(), m, l, requests, k);
      var index := Find(requests[k]);
      HonourNext(l, requests, k, index < m);
      m', l' := DropAt(m, index, l);
    }

    /** The loop of Send: it ends when every unserved case has been chosen or removed on request. */
    method Serve(requests: seq<Chan>, ghost l: Ledger<V>) returns (nsent: nat, taken: nat, ghost l': Ledger<V>)
      requires Running(len, l) && l.log == [] && Honoured(l.merged, l.early, l.late, requests, 0)
      modifies this`len, this`sent, this`tries, cases
      ensures Running(1, l') && nsent == |l'.log| && sent == old(sent) + l'.log
      ensures l'.value == l.value && l'.merged == l.merged && Honoured(l'.merged, l'.early, l'.late, requests, taken)
    {
      hide Balanced, Honoured;
      var m := len;
      nsent, taken, l' := 0, 0, l;
      while true
        invariant Running(m, l') && nsent == |l'.log| && sent == old(sent) + l'.log
        invariant l'.value == l.value && l'.merged == l.merged && taken <= |requests| && Honoured(l'.merged, l'.early, l'.late, requests, taken)
        decreases len + m
      {
        var served: nat;
        m, served, l' := FastPath(m, l');
        nsent := nsent + served;
        if m == 1 {
          break;
        }
        var handedOver: bool := *;
        if handedOver && taken < |requests| {
          // chosen == 0: the next unsubscribing goroutine hands over its channel
          m, l' := TakeRequest(m, requests, taken, l');
          taken := taken + 1;
        } else {
          var chosen: nat :| 1 <= chosen < m;
          l' := Deliver(m, chosen, l');
          m, nsent := m - 1, nsent + 1;
        }
      }
    }

    /**
     * One Send, for any outcome of every non-blocking send, any choice of the
     * blocking select, and any unsubscriptions handed over in between: those
     * of the first `taken` requests, and no others.
     */
    method Send(v: V, requests: seq<Chan>) returns (nsent: nat, taken: nat, ghost l: Ledger<V>)
      requires Valid() && multiset(requests) <= Tally(List()[1..]) + multiset(inbox)
      modifies this, cases
      ensures Valid() && inbox == []
      ensures l.value == v && l.merged == Tally(old(List())[1..]) + multiset(old(inbox))
      ensures nsent == |l.log| && sent == old(sent) + l.log && Delivered(List()[1..], l)
      ensures taken <= |requests| && l.early + l.late == multiset(requests[..taken])
      ensures forall i :: 1 <= i < len ==> cases[i].send == None
    {
      hide Balanced, Delivered, Honoured;
      l := Open(v);
      HonourNone(l.merged, requests);
      nsent, taken, l := Serve(requests, l);
      HonouredMeans(l.merged, l.early, l.late, requests, taken);
      assert List()[1..1] == [];
      ghost var done := List()[1..];
      SetSend(None);
      ClosedAccount(done, List()[1..], l);
    }

    method RemoveFromInbox(ch: Chan)
      requires Valid() && ch in inbox
      modifies this`inbox
      ensures Valid() && multiset(inbox) + multiset{ch} == multiset(old(inbox))
      ensures exists i :: 0 <= i < |old(inbox)| && old(inbox)[i] == ch && ch !in old(inbox)[..i] && inbox == old(inbox)[..i] + old(inbox)[i + 1..]
    {
      var i := 0;
      while inbox[i] != ch
        invariant 0 <= i < |inbox| && ch !in inbox[..i]
        decreases |inbox| - i
      {
        i := i + 1;
      }
      assert inbox == inbox[..i] + [ch] + inbox[i + 1..];
      assert old(inbox)[i] == ch && ch !in old(inbox)[..i];
      inbox := inbox[..i] + inbox[i + 1..];
    }

    method RemoveFromCases(ch: Chan)
      requires Valid() && exists j :: 1 <= j < len && cases[j].ch == ch
      modifies this`len, cases
      ensures Valid() && Tally(List()[1..]) + multiset{ch} == Tally(old(List())[1..])
      ensures exists i :: 1 <= i < |old(List())| && FirstWith(old(List()), ch, i) && List() == DeleteAt(old(List()), i)
    {
      var index := Find(ch);
      ghost var cs := List();
      TallyDelete(cs[1..], index - 1);
      assert DeleteAt(cs, index)[1..] == DeleteAt(cs[1..], index - 1);
      assert FirstWith(cs, ch, index);
      Delete(index);
    }

    /**
     * Unsubscribing while no Send is in progress, from the inbox if the channel
     * is there and from the case list otherwise.
     */
    method Remove(ch: Chan)
      requires Valid() && (ch in inbox || exists j :: 1 <= j < len && cases[j].ch == ch)
      modifies this`inbox, this`len, cases
      ensures Valid()
      ensures multiset(inbox) + Tally(List()[1..]) + multiset{ch} == multiset(old(inbox)) + Tally(old(List())[1..])
      ensures ch in old(inbox) ==> List() == old(List())
      ensures ch !in old(inbox) ==> inbox == old(inbox)
    {
      hide Tally, DeleteAt, FirstWith;
      if ch in inbox {
        RemoveFromInbox(ch);
      } else {
        RemoveFromCases(ch);
      }
    }
  }
}

/**
 * Subscribing and unsubscribing from many goroutines around Send, as counts per
 * channel: a removal first looks in the inbox, and only hands the channel to
 * Send, or to the case list under the send lock, when it is not there.
 */
module FeedRemovals {
  import opened CaseLists
  import opened EventFeed

  /** `live` subscriptions, `removing` ones past the inbox check, and where their cases are. */
  datatype State = State(live: multiset<Chan>, removing: multiset<Chan>, inbox: multiset<Chan>, cases: multiset<Chan>)

  datatype Event =
    | Subscribe(ch: Chan)
    | RemoveFromInbox(ch: Chan)
    | LookPastInbox(ch: Chan)
    | MergeInbox
    | RemoveFromCases(ch: Chan)

  ghost predicate Step(s: State, e: Event, s': State) {
    match e
    case Subscribe(ch) =>
      s' == s.(live := s.live + multiset{ch}, inbox := s.inbox + multiset{ch})
    case RemoveFromInbox(ch) =>
      ch in s.live && ch in s.inbox && s' == s.(live := s.live - multiset{ch}, inbox := s.inbox - multiset{ch})
    case LookPastInbox(ch) =>
      ch in s.live && ch !in s.inbox && s' == s.(live := s.live - multiset{ch}, removing := s.removing + multiset{ch})
    case MergeInbox =>
      s' == s.(cases := s.cases + s.inbox, inbox := multiset{})
    case RemoveFromCases(ch) =>
      ch in s.removing && s' == s.(removing := s.removing - multiset{ch}, cases := s.cases - multiset{ch})
  }

  ghost predicate Run(states: seq<State>, events: seq<Event>) {
    && |states| == |events| + 1
    && states[0] == State(multiset{}, multiset{}, multiset{}, multiset{})
    && forall i :: 0 <= i < |events| ==> Step(states[i], events[i], states[i + 1])
  }

  ghost predicate Inv(s: State) {
    forall ch {:trigger s.cases[ch]} :: s.live[ch] + s.removing[ch] == s.inbox[ch] + s.cases[ch] && s.removing[ch] <= s.cases[ch]
  }

  lemma StepKeeps(s: State, e: Event, s': State)
    requires Inv(s) && Step(s, e, s')
    ensures Inv(s')
  {
    forall ch {:trigger s'.cases[ch]}
      ensures s'.live[ch] + s'.removing[ch] == s'.inbox[ch] + s'.cases[ch] && s'.removing[ch] <= s'.cases[ch]
    {
      assert s.cases[ch] >= 0;
    }
  }

  lemma {:induction false} RunKeeps(states: seq<State>, events: seq<Event>, n: nat)
    requires Run(states, events) && n < |states|
    ensures Inv(states[n])
    decreases n
  {
    hide Step;
    if n > 0 {
      RunKeeps(states, events, n - 1);
      assert Step(states[n - 1], events[n - 1], states[n - 1 + 1]);
      StepKeeps(states[n - 1], events[n - 1], states[n]);
    }
  }

  /** The feed's array and inbox are those of the state. */
  ghost predicate Represents<V(0)>(f: Feed<V>, s: State)
    reads f, f.cases
  {
    f.Valid() && s.cases == Tally(f.List()[1..]) && s.inbox == multiset(f.inbox)
  }

  /**
   * Whenever a removal reaches the case list its channel has a case in the
   * array, so the search never yields -1; and every subscription that is live,
   * or still being removed, keeps a case of its own.
   */
  lemma {:induction false} RemovalFindsItsCase<V(0)>(f: Feed<V>, states: seq<State>, events: seq<Event>, n: nat, ch: Chan)
    requires Run(states, events) && n < |events| && events[n] == RemoveFromCases(ch) && Represents(f, states[n])
    ensures exists j :: 1 <= j < f.len && f.cases[j].ch == ch
    ensures Inv(states[n + 1])
  {
    RunKeeps(states, events, n);
    RunKeeps(states, events, n + 1);
    assert Step(states[n], events[n], states[n + 1]);
    assert states[n].removing[ch] <= states[n].cases[ch];
    CaseOf(f.List(), ch);
    var j :| 1 <= j < |f.List()| && f.List()[j].ch == ch;
    assert f.cases[j].ch == ch;
  }

  function Removal(e: Event): seq<Chan> { if e.RemoveFromCases? then [e.ch] else [] }

  /** The channels taken out of the case list, in order. */
  function Removals(events: seq<Event>): seq<Chan> {
    if events == [] then [] else Removals(events[..|events| - 1]) + Removal(events[|events| - 1])
  }

  lemma StepTakes(s: State, e: Event, s': State)
    requires Inv(s) && Step(s, e, s') && e != MergeInbox
    ensures s.cases == s'.cases + multiset(Removal(e))
  {
    if e.RemoveFromCases? {
      assert s.removing[e.ch] <= s.cases[e.ch];
    }
  }

  /** Between two merges, the channels taken out were all in the case list, and nothing else left it. */
  lemma {:induction false} RemovalsWereThere(states: seq<State>, events: seq<Event>, a: nat, b: nat)
    requires Run(states, events) && a <= b < |states| && forall i :: a <= i < b ==> events[i] != MergeInbox
    ensures states[a].cases == states[b].cases + multiset(Removals(events[a..b]))
    decreases b
  {
    assert |states| == |events| + 1;
    hide Step, Inv, Removal, Removals, Run;
    if a == b {
      NoRemovals(events, a);
    } else {
      RemovalsWereThere(states, events, a, b - 1);
      RunKeeps(states, events, b - 1);
      StepAt(states, events, b - 1);
      StepTakes(states[b - 1], events[b - 1], states[b]);
      RemovalsExtend(events, a, b);
      TakenInTurn(states[a].cases, states[b - 1].cases, states[b].cases, Removals(events[a..b - 1]), Removal(events[b - 1]));
    }
  }

  lemma {:induction false} StepAt(states: seq<State>, events: seq<Event>, i: nat)
    requires Run(states, events) && i < |events|
    ensures |states| == |events| + 1 && Step(states[i], events[i], states[i + 1])
  {
    hide Step;
  }

  lemma {:induction false} NoRemovals(events: seq<Event>, a: nat)
    requires a <= |events|
    ensures Removals(events[a..a]) == []
  {
  }

  lemma {:induction false} RemovalsExtend(events: seq<Event>, a: nat, b: nat)
    requires a < b <= |events|
    ensures Removals(events[a..b]) == Removals(events[a..b - 1]) + Removal(events[b - 1])
  {
    hide Removal;
    assert events[a..b][..b - a - 1] == events[a..b - 1];
  }

  lemma {:induction false} TakenInTurn(x: multiset<Chan>, y: multiset<Chan>, z: multiset<Chan>, first: seq<Chan>, second: seq<Chan>)
    requires x == y + multiset(first) && y == z + multiset(second)
    ensures x == z + multiset(first + second)
  {
  }

  /**
   * A Send in any run: what unsubscribing goroutines hand over from its merge
   * on is exactly what its contract expects, and when it has taken all of it
   * the array holds the cases of the run's state.
   */
  method SendInRun<V(0)>(f: Feed<V>, v: V, ghost states: seq<State>, events: seq<Event>, a: nat, b: nat)
    returns (nsent: nat, taken: nat, ghost l: Ledger<V>)
    requires Run(states, events) && a < b < |states| && events[a] == MergeInbox
    requires forall i :: a < i < b ==> events[i] != MergeInbox
    requires Represents(f, states[a])
    modifies f, f.cases
    ensures f.Valid() && l.value == v && l.merged == states[a + 1].cases
    ensures nsent == |l.log| && f.sent == old(f.sent) + l.log && Delivered(f.List()[1..], l)
    ensures taken <= |Removals(events[a + 1..b])| && l.early + l.late == multiset(Removals(events[a + 1..b])[..taken])
    ensures taken == |Removals(events[a + 1..b])| ==> Tally(f.List()[1..]) == states[b].cases
  {
    hide Inv;
    var requests := Removals(events[a + 1..b]);
    assert Step(states[a], events[a], states[a + 1]);
    RemovalsWereThere(states, events, a + 1, b);
    nsent, taken, l := f.Send(v, requests);
    assert taken == |requests| ==> requests[..taken] == requests;
    AllTaken(l.merged, Tally(f.List()[1..]), l.early, l.late, states[b].cases, multiset(requests));
  }

  lemma {:induction false} AllTaken(merged: multiset<Chan>, left: multiset<Chan>, early: multiset<Chan>, late: multiset<Chan>,
                                    cases: multiset<Chan>, requests: multiset<Chan>)
    requires merged == cases + requests
    ensures merged == left + early + late && early + late == requests ==> left == cases
  {
    if merged == left + early + late && early + late == requests {
      assert merged == left + requests;
      forall ch
        ensures left[ch] == cases[ch]
      {
        assert merged[ch] == left[ch] + requests[ch] && merged[ch] == cases[ch] + requests[ch];
      }
    }
  }
}

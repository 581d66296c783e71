/** The tree of beacon blocks, ancestry in it, and lowest common ancestors. */
module BlockTree {
  type Root = nat

  datatype Block = Block(slot: nat, parent: Root)

  type Tree = map<Root, Block>

  /** A block's parent, where known, has a smaller slot. */
  ghost predicate WellFormed(t: Tree) {
    forall r :: r in t && t[r].parent in t ==> t[t[r].parent].slot < t[r].slot
  }

  ghost function Rank(t: Tree, r: Root): nat { if r in t then t[r].slot + 1 else 0 }

  /** `a` is `r` or one of its ancestors. */
  ghost predicate Anc(t: Tree, r: Root, a: Root)
    requires WellFormed(t)
    decreases Rank(t, r)
  {
    r in t && (r == a || Anc(t, t[r].parent, a))
  }

  lemma {:induction false} AncSlots(t: Tree, r: Root, a: Root)
    requires WellFormed(t) && Anc(t, r, a)
    ensures a in t && t[a].slot <= t[r].slot
    ensures t[a].slot == t[r].slot ==> a == r
    decreases Rank(t, r)
  {
    if r != a { AncSlots(t, t[r].parent, a); }
  }

  lemma {:induction false} AncTransitive(t: Tree, r: Root, a: Root, b: Root)
    requires WellFormed(t) && Anc(t, r, a) && Anc(t, a, b)
    ensures Anc(t, r, b)
    decreases Rank(t, r)
  {
    if r != a { AncTransitive(t, t[r].parent, a, b); }
  }

  /** Two ancestors of one block are in line. */
  lemma {:induction false} AncLinear(t: Tree, r: Root, a: Root, b: Root)
    requires WellFormed(t) && Anc(t, r, a) && Anc(t, r, b)
    ensures Anc(t, a, b) || Anc(t, b, a)
    decreases Rank(t, r)
  {
    if r != a && r != b { AncLinear(t, t[r].parent, a, b); }
  }

  ghost predicate Common(t: Tree, x: Root, y: Root, c: Root)
    requires WellFormed(t)
  {
    Anc(t, x, c) && Anc(t, y, c)
  }

  /** `c` is the lowest common ancestor: common, and below every other common ancestor. */
  ghost predicate IsLca(t: Tree, x: Root, y: Root, c: Root)
    requires WellFormed(t)
  {
    Common(t, x, y, c) && forall a :: Common(t, x, y, a) ==> Anc(t, c, a)
  }

  lemma {:induction false} LcaIsUnique(t: Tree, x: Root, y: Root, c: Root, d: Root)
    requires WellFormed(t) && IsLca(t, x, y, c) && IsLca(t, x, y, d)
    ensures c == d
  {
    AncSlots(t, c, d);
    AncSlots(t, d, c);
  }

  /** Replacing the no-lower of two different blocks by its parent keeps every common ancestor. */
  lemma {:induction false} StepKeepsCommon(t: Tree, x: Root, y: Root)
    requires WellFormed(t) && x in t && y in t && x != y && t[x].slot >= t[y].slot
    ensures SameCommon(t, x, y, t[x].parent, y) && SameCommon(t, y, x, y, t[x].parent)
  {
    forall a | Anc(t, x, a) && Anc(t, y, a)
      ensures Anc(t, t[x].parent, a)
    {
      AncSlots(t, y, a);
    }
  }

  ghost predicate SameCommon(t: Tree, x: Root, y: Root, x': Root, y': Root)
    requires WellFormed(t)
  {
    forall a :: Common(t, x, y, a) <==> Common(t, x', y', a)
  }

  lemma {:induction false} MeetingPointIsLca(t: Tree, x: Root, y: Root, c: Root)
    requires WellFormed(t) && c in t && SameCommon(t, x, y, c, c)
    ensures IsLca(t, x, y, c)
  {
    assert Common(t, c, c, c);
  }

  lemma {:induction false} MissingHasNoCommon(t: Tree, x: Root, y: Root, x': Root, y': Root)
    requires WellFormed(t) && SameCommon(t, x, y, x', y') && (x' !in t || y' !in t)
    ensures forall a :: !Common(t, x, y, a)
  {
  }

  /** Two different slot-0 blocks have no common ancestor. */
  lemma {:induction false} GenesisHasNoCommon(t: Tree, x: Root, y: Root, x': Root, y': Root)
    requires WellFormed(t) && SameCommon(t, x, y, x', y')
    requires x' in t && y' in t && x' != y' && t[x'].slot == 0 && t[y'].slot == 0
    ensures forall a :: !Common(t, x, y, a)
  {
    forall a
      ensures !Common(t, x, y, a)
    {
      if Common(t, x', y', a) {
        AncSlots(t, x', a);
        AncSlots(t, y', a);
      }
    }
  }

  /** The blocks strictly above `c` on the way down from `r`, in that order. */
  ghost function PathAbove(t: Tree, r: Root, c: Root): seq<Root>
    requires WellFormed(t) && Anc(t, r, c)
    decreases Rank(t, r)
  {
    if r == c then [] else [r] + PathAbove(t, t[r].parent, c)
  }

  /** What that list is: the ancestors of `r` that `c` is a proper ancestor of, each listed. */
  lemma {:induction false} PathAboveMeaning(t: Tree, r: Root, c: Root, a: Root)
    requires WellFormed(t) && Anc(t, r, c)
    ensures a in PathAbove(t, r, c) <==> Anc(t, r, a) && a != c && Anc(t, a, c)
    decreases Rank(t, r)
  {
    if r == c {
      if Anc(t, r, a) && Anc(t, a, c) {
        AncSlots(t, r, a);
        AncSlots(t, a, c);
      }
    } else {
      PathAboveMeaning(t, t[r].parent, c, a);
      if a == r {
      } else if Anc(t, t[r].parent, a) {
        AncSlots(t, t[r].parent, a);
      }
    }
  }
}

/** Finding the fork point of two branches from stored blocks, from forkchoice, and across a removed head. */
module ForkPoints {
  import opened Oracles
  import opened BlockTree

  datatype Outcome = ForkPoint(root: Root, slot: nat) | Unknown | Failed

  /** `s` holds some of the blocks of `t`. */
  ghost predicate Within(s: Tree, t: Tree) {
    forall r :: r in s ==> r in t && s[r] == t[r]
  }

  lemma {:induction false} AncWithin(s: Tree, t: Tree, r: Root, a: Root)
    requires WellFormed(t) && WellFormed(s) && Within(s, t) && Anc(s, r, a)
    ensures Anc(t, r, a)
    decreases Rank(s, r)
  {
    if r != a { AncWithin(s, t, s[r].parent, a); }
  }

  /** On a stored path, whatever lies between its ends is stored. */
  lemma {:induction false} BetweenIsStored(s: Tree, t: Tree, r: Root, a: Root, c: Root)
    requires WellFormed(t) && WellFormed(s) && Within(s, t)
    requires Anc(s, r, c) && Anc(t, r, a) && Anc(t, a, c)
    ensures Anc(s, r, a)
    decreases Rank(s, r)
  {
    if r != a {
      if r == c {
        AncSlots(t, r, a);
        AncSlots(t, a, c);
      } else {
        BetweenIsStored(s, t, s[r].parent, a, c);
      }
    }
  }

  /** A fork point found among some of the blocks is the fork point among all of them. */
  lemma {:induction false} LcaOfSomeIsLcaOfAll(s: Tree, t: Tree, x: Root, y: Root, c: Root)
    requires WellFormed(t) && WellFormed(s) && Within(s, t) && IsLca(s, x, y, c)
    ensures IsLca(t, x, y, c)
  {
    AncWithin(s, t, x, c);
    AncWithin(s, t, y, c);
    forall a | Common(t, x, y, a)
      ensures Anc(t, c, a)
    {
      AncLinear(t, x, c, a);
      if Anc(t, a, c) {
        BetweenIsStored(s, t, x, a, c);
        BetweenIsStored(s, t, y, a, c);
        assert Common(s, x, y, a);
        AncWithin(s, t, c, a);
      }
    }
  }

  /** A quarantined block on one of the branches, no further down than any stored common ancestor: reading it is refused. */
  ghost predicate Blocking(t: Tree, store: Tree, pending: set<Root>, x: Root, y: Root, r: Root)
    requires WellFormed(t) && WellFormed(store)
  {
    && r in pending && (Anc(t, x, r) || Anc(t, y, r))
    && forall c :: Common(store, x, y, c) ==> Anc(t, r, c)
  }

  lemma {:induction false} ReachedIsBlocking(t: Tree, store: Tree, pending: set<Root>, x: Root, y: Root, a: Root, b: Root, r: Root)
    requires WellFormed(t) && WellFormed(store) && Within(store, t) && SameCommon(store, x, y, a, b)
    requires r in pending && ((r == a && Anc(t, x, r)) || (r == b && Anc(t, y, r)))
    ensures Blocking(t, store, pending, x, y, r)
  {
    forall c | Common(store, x, y, c)
      ensures Anc(t, r, c)
    {
      AncWithin(store, t, a, c);
      AncWithin(store, t, b, c);
    }
  }

  /** Nothing on the way from `x` down to `c` is quarantined. */
  ghost predicate ClearTo(t: Tree, pending: set<Root>, x: Root, c: Root)
    requires WellFormed(t)
  {
    forall r :: Anc(t, x, r) && Anc(t, r, c) ==> r !in pending
  }

  lemma {:induction false} ClearAtStart(t: Tree, pending: set<Root>, x: Root)
    requires WellFormed(t) && x !in pending
    ensures ClearTo(t, pending, x, x)
  {
    forall r | Anc(t, x, r) && Anc(t, r, x)
      ensures r == x
    {
      AncSlots(t, x, r);
      AncSlots(t, r, x);
    }
  }

  lemma {:induction false} ClearOneMore(t: Tree, pending: set<Root>, x: Root, a: Root)
    requires WellFormed(t) && a in t && Anc(t, x, a) && ClearTo(t, pending, x, a) && t[a].parent !in pending
    ensures ClearTo(t, pending, x, t[a].parent)
  {
    var p := t[a].parent;
    forall r | Anc(t, x, r) && Anc(t, r, p)
      ensures r !in pending
    {
      AncLinear(t, x, a, r);
      if Anc(t, a, r) && r != a {
        AncSlots(t, p, r);
        AncSlots(t, r, p);
      }
    }
  }

  lemma {:induction false} ParentIsOnBranch(t: Tree, store: Tree, x: Root, a: Root)
    requires WellFormed(t) && WellFormed(store) && Within(store, t) && Anc(t, x, a) && a in store && store[a].parent in t
    ensures Anc(t, x, store[a].parent)
  {
    AncTransitive(t, x, a, store[a].parent);
  }

  /**
   * Walking the stored blocks of both branches towards genesis. Reads fail and
   * the context is cancelled as the oracle says, and quarantined blocks are
   * refused. Without any of that the fork point is found if and only if the
   * stored branches meet, after at most the two slots' sum of steps.
   */
  method CommonAncestorFromBlocks(store: Tree, pending: set<Root>, ghost t: Tree, x: Root, y: Root, faults: Oracle, clock: nat)
    returns (o: Outcome, steps: nat, now: nat)
    requires WellFormed(t) && WellFormed(store) && Within(store, t) && pending <= t.Keys
    ensures o.ForkPoint? ==> IsLca(store, x, y, o.root) && o.slot == store[o.root].slot
    ensures o.ForkPoint? ==> ClearTo(t, pending, x, o.root) && ClearTo(t, pending, y, o.root)
    ensures o.Unknown? ==> forall a :: !Common(store, x, y, a)
    ensures x in pending || (x in store && y in pending) ==> o.Failed?
    ensures o.Failed? ==> FaultIn(faults, clock, now) || exists r :: Blocking(t, store, pending, x, y, r)
    ensures !o.Failed? ==> !FaultIn(faults, clock, now)
    ensures x in store && y in store ==> steps <= store[x].slot + store[y].slot
    ensures clock <= now <= clock + 2 * steps + 4
  {
    steps, now := 0, clock + 1;
    if x in pending {
      ReachedIsBlocking(t, store, pending, x, y, x, y, x);
    }
    if faults(clock) || x in pending {
      return Failed, 0, now;
    }
    if x !in store {
      return Unknown, 0, now;
    }
    now := clock + 2;
    if y in pending {
      ReachedIsBlocking(t, store, pending, x, y, x, y, y);
    }
    if faults(clock + 1) || y in pending {
      return Failed, 0, now;
    }
    if y !in store {
      return Unknown, 0, now;
    }
    hide ClearTo;
    ClearAtStart(t, pending, x);
    ClearAtStart(t, pending, y);
    var a, b := x, y;
    while a != b
      invariant a in store && b in store && SameCommon(store, x, y, a, b) && Anc(t, x, a) && Anc(t, y, b)
      invariant ClearTo(t, pending, x, a) && ClearTo(t, pending, y, b)
      invariant steps + store[a].slot + store[b].slot <= store[x].slot + store[y].slot
      invariant !FaultIn(faults, clock, now) && clock <= now <= clock + 2 * steps + 2
      decreases store[a].slot + store[b].slot
    {
      now := now + 1;
      if faults(now - 1) {
        return Failed, steps, now;
      }
      if store[a].slot == 0 && store[b].slot == 0 {
        GenesisHasNoCommon(store, x, y, a, b);
        return Unknown, steps, now;
      }
      var moved: Root;
      if store[a].slot >= store[b].slot {
        StepKeepsCommon(store, a, b);
        moved := store[a].parent;
        if moved in t {
          ParentIsOnBranch(t, store, x, a);
        }
        if moved !in pending {
          ClearOneMore(t, pending, x, a);
        }
        a := moved;
      } else {
        StepKeepsCommon(store, b, a);
        moved := store[b].parent;
        if moved in t {
          ParentIsOnBranch(t, store, y, b);
        }
        if moved !in pending {
          ClearOneMore(t, pending, y, b);
        }
        b := moved;
      }
      now := now + 1;
      if moved in pending {
        ReachedIsBlocking(t, store, pending, x, y, a, b, moved);
      }
      if faults(now - 1) || moved in pending {
        return Failed, steps, now;
      }
      steps := steps + 1;
      if moved !in store {
        MissingHasNoCommon(store, x, y, a, b);
        return Unknown, steps, now;
      }
    }
    MeetingPointIsLca(store, x, y, a);
    return ForkPoint(a, store[a].slot), steps, now;
  }

  /** The same search over forkchoice nodes, which moves the second branch on equal slots. */
  method ForkchoiceCommonAncestor(nodes: Tree, x: Root, y: Root, faults: Oracle, clock: nat) returns (o: Outcome, now: nat)
    requires WellFormed(nodes)
    ensures o.ForkPoint? ==> IsLca(nodes, x, y, o.root) && o.slot == nodes[o.root].slot
    ensures o.Unknown? ==> forall a :: !Common(nodes, x, y, a)
    ensures o.Failed? <==> FaultIn(faults, clock, now)
    ensures x in nodes && y in nodes ==> clock <= now <= clock + nodes[x].slot + nodes[y].slot + 1
    ensures x !in nodes || y !in nodes ==> now == clock
  {
    now := clock;
    if x !in nodes {
      return Unknown, now;
    }
    if x == y {
      MeetingPointIsLca(nodes, x, y, x);
      return ForkPoint(x, nodes[x].slot), now;
    }
    if y !in nodes {
      return Unknown, now;
    }
    var a, b := x, y;
    while true
      invariant a in nodes && b in nodes && a != b && SameCommon(nodes, x, y, a, b)
      invariant !FaultIn(faults, clock, now)
      invariant clock <= now && now + nodes[a].slot + nodes[b].slot <= clock + nodes[x].slot + nodes[y].slot
      decreases nodes[a].slot + nodes[b].slot
    {
      now := now + 1;
      if faults(now - 1) {
        return Failed, now;
      }
      if nodes[a].slot > nodes[b].slot {
        StepKeepsCommon(nodes, a, b);
        a := nodes[a].parent;
      } else {
        StepKeepsCommon(nodes, b, a);
        b := nodes[b].parent;
      }
      if a !in nodes || b !in nodes {
        MissingHasNoCommon(nodes, x, y, a, b);
        return Unknown, now;
      }
      if a == b {
        MeetingPointIsLca(nodes, x, y, a);
        return ForkPoint(a, nodes[a].slot), now;
      }
    }
  }

  /** The parts of the chain service a head switch reads, as views of one tree of blocks. */
  datatype Views = Views(retained: Tree, nodes: Tree, store: Tree, pending: set<Root>)

  ghost predicate ViewsOf(v: Views, t: Tree) {
    && WellFormed(t) && Within(v.retained, t) && Within(v.nodes, t) && Within(v.store, t)
    && WellFormed(v.nodes) && WellFormed(v.store) && WellFormed(v.retained) && v.pending <= t.Keys
  }

  /** Walking down from `r` to `a` stays within `roots`. */
  ghost predicate RunsThrough(t: Tree, roots: set<Root>, r: Root, a: Root)
    requires WellFormed(t)
    decreases Rank(t, r)
  {
    r in t && r in roots && (r == a || RunsThrough(t, roots, t[r].parent, a))
  }

  lemma {:induction false} RunsThroughMeans(t: Tree, roots: set<Root>, r: Root, a: Root)
    requires WellFormed(t)
    ensures RunsThrough(t, roots, r, a) <==> Anc(t, r, a) && forall x :: Anc(t, r, x) && Anc(t, x, a) ==> x in roots
    decreases Rank(t, r)
  {
    if r in t {
      var p := t[r].parent;
      RunsThroughMeans(t, roots, p, a);
      if RunsThrough(t, roots, r, a) {
        forall x | Anc(t, r, x) && Anc(t, x, a)
          ensures x in roots
        {
          if x != r && r == a {
            AncSlots(t, r, x);
            AncSlots(t, x, a);
          }
        }
      } else if Anc(t, r, a) && r in roots && r != a {
        var x :| Anc(t, p, x) && Anc(t, x, a) && x !in roots;
        assert Anc(t, r, x);
      } else if Anc(t, r, a) {
        assert Anc(t, r, r);
      }
    }
  }

  /** With a block, `kept` contains everything between it and the head. */
  ghost predicate PrefixClosed(t: Tree, head: Root, kept: set<Root>)
    requires WellFormed(t)
  {
    forall r :: r in kept ==> RunsThrough(t, kept, head, r)
  }

  /** No block of the bridged part of `x`'s branch is an ancestor of `y`. */
  ghost predicate Survives(v: Views, t: Tree, x: Root, y: Root)
    requires WellFormed(t)
  {
    forall r :: RunsThrough(t, v.retained.Keys, x, r) ==> !Anc(t, y, r)
  }

  /** Neither the forkchoice nodes nor the stored blocks lead from `x` and `y` to a shared block. */
  ghost predicate Unconnected(v: Views, x: Root, y: Root)
    requires WellFormed(v.nodes) && WellFormed(v.store)
  {
    (forall a :: !Common(v.nodes, x, y, a)) && (forall a :: !Common(v.store, x, y, a))
  }

  lemma {:induction false} SkippingKeepsCommon(t: Tree, x: Root, y: Root)
    requires WellFormed(t) && x in t && !Anc(t, y, x)
    ensures SameCommon(t, x, y, t[x].parent, y)
  {
  }

  lemma {:induction false} LcaAcross(t: Tree, x: Root, y: Root, x': Root, c: Root)
    requires WellFormed(t) && SameCommon(t, x, y, x', y) && IsLca(t, x', y, c)
    ensures IsLca(t, x, y, c)
  {
  }

  lemma {:induction false} Descend(t: Tree, roots: set<Root>, r: Root, x: Root)
    requires WellFormed(t) && RunsThrough(t, roots, r, x)
    ensures x in t && Anc(t, r, x)
    ensures t[x].parent in t ==> Anc(t, r, t[x].parent)
    ensures t[x].parent in t && t[x].parent in roots ==> RunsThrough(t, roots, r, t[x].parent)
    ensures forall a :: RunsThrough(t, roots, x, a) ==> a == x || RunsThrough(t, roots, t[x].parent, a)
    decreases Rank(t, r)
  {
    if r != x { Descend(t, roots, t[r].parent, x); }
  }

  /** A common ancestor properly above another is not the lowest. */
  lemma {:induction false} TooHigh(t: Tree, x: Root, y: Root, r: Root, c: Root)
    requires WellFormed(t) && r in t && Common(t, x, y, r) && Anc(t, t[r].parent, c)
    ensures !IsLca(t, x, y, c)
  {
    AncSlots(t, t[r].parent, c);
    if Anc(t, c, r) { AncSlots(t, c, r); }
  }

  /** Where the walk from `x` through retained blocks ends. */
  ghost function BridgeEnd(t: Tree, bridged: set<Root>, x: Root): Root
    requires WellFormed(t)
    decreases Rank(t, x)
  {
    if x in t && x in bridged then BridgeEnd(t, bridged, t[x].parent) else x
  }

  lemma {:induction false} BridgeDescends(t: Tree, bridged: set<Root>, x: Root)
    requires WellFormed(t) && bridged <= t.Keys
    ensures var e := BridgeEnd(t, bridged, x); e !in bridged && (e in t ==> Anc(t, x, e))
    decreases Rank(t, x)
  {
    if x in bridged { BridgeDescends(t, bridged, t[x].parent); }
  }

  /** Bridging no ancestor of `y` keeps the common ancestors. */
  lemma {:induction false} BridgeKeepsCommon(t: Tree, bridged: set<Root>, x: Root, y: Root)
    requires WellFormed(t) && forall r :: RunsThrough(t, bridged, x, r) ==> !Anc(t, y, r)
    ensures SameCommon(t, x, y, BridgeEnd(t, bridged, x), y)
    decreases Rank(t, x)
  {
    if x in t && x in bridged {
      assert RunsThrough(t, bridged, x, x);
      SkippingKeepsCommon(t, x, y);
      BridgeKeepsCommon(t, bridged, t[x].parent, y);
    }
  }

  /** The bridge ends properly below every block it crosses. */
  lemma {:induction false} BridgePasses(t: Tree, bridged: set<Root>, x: Root, r: Root, c: Root)
    requires WellFormed(t) && RunsThrough(t, bridged, x, r) && Anc(t, BridgeEnd(t, bridged, x), c)
    ensures r in t && Anc(t, x, r) && Anc(t, t[r].parent, c)
    decreases Rank(t, x)
  {
    var p := t[x].parent;
    if x != r {
      BridgePasses(t, bridged, p, r, c);
    } else if BridgeEnd(t, bridged, p) != p {
      BridgePasses(t, bridged, p, p, c);
    }
  }

  /** A common ancestor found from the bridge's end is the lowest exactly if the bridge crossed no ancestor of `y`. */
  lemma {:induction false} LcaBeyondBridge(t: Tree, v: Views, x: Root, y: Root, c: Root)
    requires WellFormed(t) && Within(v.retained, t) && IsLca(t, BridgeEnd(t, v.retained.Keys, x), y, c)
    ensures Common(t, x, y, c)
    ensures IsLca(t, x, y, c) <==> Survives(v, t, x, y)
  {
    var e := BridgeEnd(t, v.retained.Keys, x);
    BridgeDescends(t, v.retained.Keys, x);
    AncTransitive(t, x, e, c);
    if Survives(v, t, x, y) {
      BridgeKeepsCommon(t, v.retained.Keys, x, y);
      LcaAcross(t, x, y, e, c);
    } else {
      var r :| RunsThrough(t, v.retained.Keys, x, r) && Anc(t, y, r);
      BridgePasses(t, v.retained.Keys, x, r, c);
      TooHigh(t, x, y, r, c);
    }
  }

  /**
   * Bridging the removed part of the old head's branch first. What is found is
   * a common ancestor; it is the fork point, the lowest one, if and only if
   * the new head does not descend from a bridged block. The search comes up
   * empty if and only if it does not fail and neither the forkchoice nodes nor
   * the stored blocks connect the new head to the block the bridge ends at.
   */
  method CommonAncestorForReorg(v: Views, ghost t: Tree, x: Root, y: Root, faults: Oracle, clock: nat) returns (o: Outcome, now: nat)
    requires ViewsOf(v, t)
    ensures o.ForkPoint? ==> o.root in t && Common(t, x, y, o.root) && o.slot == t[o.root].slot
    ensures o.ForkPoint? ==> (IsLca(t, x, y, o.root) <==> Survives(v, t, x, y))
    ensures o.ForkPoint? ==> !Unconnected(v, BridgeEnd(t, v.retained.Keys, x), y)
    ensures o.Unknown? ==> Unconnected(v, BridgeEnd(t, v.retained.Keys, x), y)
    ensures o.Failed? ==> FaultIn(faults, clock, now) || SearchBlocked(v, t, x, y)
    ensures clock <= now && (!o.Failed? ==> !FaultIn(faults, clock, now))
  {
    var a := x;
    now := clock;
    while true
      invariant BridgeEnd(t, v.retained.Keys, x) == BridgeEnd(t, v.retained.Keys, a)
      invariant clock <= now && !FaultIn(faults, clock, now)
      decreases Rank(t, a)
    {
      now := now + 1;
      if faults(now - 1) {
        return Failed, now;
      }
      if a !in v.retained {
        break;
      }
      a := v.retained[a].parent;
    }
    o, now := SearchFrom(v, t, a, y, faults, clock, now);
    if o.ForkPoint? {
      AncSlots(t, y, o.root);
      LcaBeyondBridge(t, v, x, y, o.root);
    }
  }

  /** Forkchoice first; its ignorance, and only that, sends the search to the stored blocks. */
  method SearchFrom(v: Views, ghost t: Tree, a: Root, y: Root, faults: Oracle, ghost clock: nat, start: nat) returns (o: Outcome, now: nat)
    requires ViewsOf(v, t) && clock <= start && !FaultIn(faults, clock, start)
    ensures o.ForkPoint? ==> IsLca(t, a, y, o.root) && o.slot == t[o.root].slot
    ensures o.ForkPoint? ==> !Unconnected(v, a, y)
    ensures o.Unknown? ==> Unconnected(v, a, y)
    ensures o.Failed? ==> FaultIn(faults, clock, now) || exists r :: Blocking(t, v.store, v.pending, a, y, r)
    ensures start <= now && (!o.Failed? ==> !FaultIn(faults, clock, now))
  {
    hide Blocking;
    o, now := ForkchoiceCommonAncestor(v.nodes, a, y, faults, start);
    if o.ForkPoint? {
      assert Common(v.nodes, a, y, o.root);
      LcaOfSomeIsLcaOfAll(v.nodes, t, a, y, o.root);
      FaultsJoin(faults, clock, start, now);
    } else if o.Unknown? {
      ghost var middle := now;
      FaultsJoin(faults, clock, start, now);
      var steps: nat;
      o, steps, now := CommonAncestorFromBlocks(v.store, v.pending, t, a, y, faults, now);
      if o.ForkPoint? {
        assert Common(v.store, a, y, o.root);
        LcaOfSomeIsLcaOfAll(v.store, t, a, y, o.root);
      }
      FaultsJoin(faults, clock, middle, now);
    } else {
      FaultsJoin(faults, clock, start, now);
    }
  }

  /** A quarantined block that is not retained stands in the way of the search. */
  ghost predicate SearchBlocked(v: Views, t: Tree, x: Root, y: Root)
    requires ViewsOf(v, t)
  {
    exists r :: Blocking(t, v.store, v.pending, BridgeEnd(t, v.retained.Keys, x), y, r)
  }

  ghost predicate Readable(v: Views, r: Root) {
    r in v.retained || (r in v.store && r !in v.pending)
  }

  /** The walk from `x` to a common ancestor of `x` and `y` has come to a block that cannot be read. */
  ghost predicate Stuck(v: Views, t: Tree, x: Root, y: Root, walked: seq<Root>)
    requires WellFormed(t)
  {
    exists c :: Common(t, x, y, c) && walked < PathAbove(t, x, c) && !Readable(v, PathAbove(t, x, c)[|walked|])
  }

  datatype Recovery =
    | Recovered(fork: Root)   // the whole orphaned branch above the fork point was walked
    | NothingToDo             // the fork point is not known
    | RecoveryFailed

  /**
   * Walking the orphaned branch, from the old head down to the fork point, and
   * handing each block's operations back to the pools.
   */
  method SaveOrphanedOperations(v: Views, ghost t: Tree, x: Root, y: Root, faults: Oracle, clock: nat)
    returns (res: Recovery, walked: seq<Root>, now: nat)
    requires ViewsOf(v, t)
    ensures res.Recovered? ==> Common(t, x, y, res.fork) && walked == PathAbove(t, x, res.fork)
    ensures forall a :: a in walked ==> a in v.retained || (a in v.store && a !in v.pending)
    ensures res.Recovered? ==> (IsLca(t, x, y, res.fork) <==> Survives(v, t, x, y))
    ensures res.Recovered? ==> !Unconnected(v, BridgeEnd(t, v.retained.Keys, x), y)
    ensures res.NothingToDo? ==> walked == [] && Unconnected(v, BridgeEnd(t, v.retained.Keys, x), y)
    ensures res.RecoveryFailed? ==> FaultIn(faults, clock, now) || SearchBlocked(v, t, x, y) || Stuck(v, t, x, y, walked)
    ensures clock <= now && (!res.RecoveryFailed? ==> !FaultIn(faults, clock, now))
  {
    walked := [];
    var o: Outcome;
    o, now := CommonAncestorForReorg(v, t, x, y, faults, clock);
    if o.Unknown? {
      return NothingToDo, [], now;
    }
    if o.Failed? {
      return RecoveryFailed, [], now;
    }
    hide Unconnected, Survives, SearchBlocked, IsLca;
    var a, c := x, o.root;
    while a != c
      invariant Anc(t, x, a) && Anc(t, a, c) && PathAbove(t, x, c) == walked + PathAbove(t, a, c)
      invariant forall q :: q in walked ==> q in v.retained || (q in v.store && q !in v.pending)
      invariant clock <= now && !FaultIn(faults, clock, now)
      decreases Rank(t, a)
    {
      now := now + 1;
      if faults(now - 1) {
        return RecoveryFailed, walked, now;
      }
      if a !in v.retained && (a in v.pending || a !in v.store) {
        assert PathAbove(t, x, c)[|walked|] == a;
        return RecoveryFailed, walked, now;
      }
      var block := if a in v.retained then v.retained[a] else v.store[a];
      AncTransitive(t, x, a, block.parent);
      walked := walked + [a];
      a := block.parent;
    }
    return Recovered(c), walked, now;
  }
}

/** Preserving an invalidated head, and switching the head: persist, then publish, then forget. */
module HeadSwitch {
  import opened Options
  import opened Oracles
  import opened BlockTree
  import opened ForkPoints

  datatype Switch = Unchanged | Switched(fork: Option<Root>) | SwitchFailed

  /** Everything strictly between the head and `root` is in `kept`. */
  ghost predicate Above(t: Tree, head: Root, root: Root, kept: set<Root>)
    requires WellFormed(t)
  {
    forall x :: Anc(t, head, x) && Anc(t, x, root) && x != root ==> x in kept
  }

  lemma {:induction false} NotWithin(t: Tree, roots: set<Root>, r: Root)
    requires WellFormed(t) && r !in roots
    ensures forall a :: !RunsThrough(t, roots, r, a)
  {
  }

  lemma {:induction false} StartsAtHead(t: Tree, roots: set<Root>, head: Root, kept: set<Root>)
    requires WellFormed(t) && head in t
    ensures Anc(t, head, head) && (head in roots ==> RunsThrough(t, roots, head, head))
    ensures Above(t, head, head, kept)
  {
    forall x | Anc(t, head, x) && Anc(t, x, head)
      ensures x == head
    {
      AncSlots(t, head, x);
      AncSlots(t, x, head);
    }
  }

  lemma {:induction false} AboveParent(t: Tree, head: Root, root: Root, kept: set<Root>)
    requires WellFormed(t) && root in t && Anc(t, head, root) && Above(t, head, root, kept)
    ensures Above(t, head, t[root].parent, kept + {root})
  {
    var p := t[root].parent;
    forall x | Anc(t, head, x) && Anc(t, x, p) && x != p
      ensures x in kept + {root}
    {
      AncLinear(t, head, x, root);
      if Anc(t, root, x) && x != root {
        AncSlots(t, p, x);
        AncSlots(t, x, p);
      }
    }
  }

  lemma {:induction false} GrowsPrefix(t: Tree, head: Root, root: Root, kept: set<Root>)
    requires WellFormed(t) && Anc(t, head, root) && Above(t, head, root, kept)
    ensures PrefixClosed(t, head, kept) ==> PrefixClosed(t, head, kept + {root})
  {
    if PrefixClosed(t, head, kept) {
      forall r | r in kept + {root}
        ensures RunsThrough(t, kept + {root}, head, r)
      {
        RunsThroughMeans(t, kept, head, r);
        RunsThroughMeans(t, kept + {root}, head, r);
      }
    }
  }

  /** The walk from the head has come to `root` and retained everything above it. */
  ghost predicate Reached(t: Tree, head: Root, removed: set<Root>, root: Root, kept: set<Root>)
    requires WellFormed(t)
  {
    && (root in t ==> Anc(t, head, root))
    && (root in t && root in removed ==> RunsThrough(t, removed, head, root))
    && (forall a :: RunsThrough(t, removed, head, a) ==> a in kept || RunsThrough(t, removed, root, a))
    && Above(t, head, root, kept)
  }

  lemma {:induction false} ReachesParent(t: Tree, head: Root, removed: set<Root>, root: Root, kept: set<Root>)
    requires WellFormed(t) && root in t && root in removed && Reached(t, head, removed, root, kept)
    ensures Anc(t, head, root) && RunsThrough(t, removed, head, root)
    ensures Reached(t, head, removed, t[root].parent, kept + {root})
    ensures PrefixClosed(t, head, kept) ==> PrefixClosed(t, head, kept + {root})
  {
    hide Above, RunsThrough, Anc, PrefixClosed;
    GrowsPrefix(t, head, root, kept);
    AboveParent(t, head, root, kept);
    Descend(t, removed, head, root);
  }

  lemma {:induction false} ReachedAll(t: Tree, head: Root, removed: set<Root>, root: Root, kept: set<Root>)
    requires WellFormed(t) && root !in removed && Reached(t, head, removed, root, kept)
    ensures forall a :: RunsThrough(t, removed, head, a) ==> a in kept
  {
    NotWithin(t, removed, root);
  }

  lemma {:induction false} ReachedFirst(t: Tree, head: Root, removed: set<Root>, kept: set<Root>)
    requires WellFormed(t) && head in t
    ensures Reached(t, head, removed, head, kept)
  {
    StartsAtHead(t, removed, head, kept);
  }

  class ChainService {
    const tree: Tree        // every block there is, by root
    const faults: Oracle
    var clock: nat
    var head: Root          // the published head's root
    var durableHead: Root   // the head root in the database
    var retained: Tree      // invalidatedHeadBlocks

    ghost predicate Valid()
      reads this
    {
      WellFormed(tree) && head in tree && Within(retained, tree)
    }

    constructor (tree: Tree, head: Root, faults: Oracle)
      requires WellFormed(tree) && head in tree
      ensures Valid() && this.tree == tree && this.head == head == durableHead && retained == map[]
      ensures this.faults == faults && clock == 0
    {
      this.tree, this.head, durableHead, retained := tree, head, head, map[];
      this.faults, clock := faults, 0;
    }

    /**
     * Retaining the removed part of the head's branch before anything of it is
     * deleted. On success every ancestor of the head that is reached from it
     * through removed blocks only is retained; a failed read or a cancelled
     * context keeps what was retained so far.
     */
    method PreserveInvalidatedHead(invalid: set<Root>, headBlock: Block, recoverable: Tree) returns (ok: bool)
      requires Valid() && headBlock == tree[head] && Within(recoverable, tree) && invalid <= tree.Keys
      modifies this`retained, this`clock
      ensures Valid() && Within(old(retained), retained)
      ensures ok ==> forall a :: RunsThrough(tree, invalid + old(retained).Keys, head, a) ==> a in retained
      ensures !ok ==> FaultIn(faults, old(clock), clock) || exists r :: Anc(tree, head, r) && r in invalid && r !in recoverable && r !in retained
      ensures ok ==> !FaultIn(faults, old(clock), clock)
      ensures forall r :: r in retained && r !in old(retained) ==> r in invalid && RunsThrough(tree, invalid + old(retained).Keys, head, r)
      ensures PrefixClosed(tree, head, old(retained).Keys) ==> PrefixClosed(tree, head, retained.Keys)
    {
      hide Reached, PrefixClosed, RunsThrough, Anc;
      var root := head;
      ghost var removed := invalid + retained.Keys;
      ReachedFirst(tree, head, removed, retained.Keys);
      while true
        invariant Valid() && Within(old(retained), retained)
        invariant Reached(tree, head, removed, root, retained.Keys)
        invariant forall r :: r in retained && r !in old(retained) ==> r in invalid && RunsThrough(tree, removed, head, r)
        invariant PrefixClosed(tree, head, old(retained).Keys) ==> PrefixClosed(tree, head, retained.Keys)
        invariant clock >= old(clock) && !FaultIn(faults, old(clock), clock)
        decreases Rank(tree, root)
      {
        clock := clock + 1;
        if faults(clock - 1) {
          return false;
        }
        ghost var kept := retained.Keys;
        if root !in retained {
          if root !in invalid {
            ReachedAll(tree, head, removed, root, kept);
            return true;
          }
          ReachesParent(tree, head, removed, root, kept);
          var b: Block;
          if root == head {
            b := headBlock;
          } else if root !in recoverable {
            return false;
          } else {
            b := recoverable[root];
          }
          retained := retained[root := b];
        }
        assert retained.Keys == kept + {root};
        ReachesParent(tree, head, removed, root, kept);
        root := retained[root].parent;
      }
    }

    /**
     * Switching the head to `newRoot`, with storage failing or the context
     * cancelled at any step. A failure leaves the published head, the durable
     * head and the retained blocks as they were, so that a later update can
     * retry; a switch makes both heads the new one and forgets the retained
     * blocks. Whenever a fork point is known the operations of exactly the
     * blocks strictly above it on the old branch have been recovered, and it is
     * the lowest common ancestor unless the new head descends from a block
     * that was removed and retained.
     */
    method SaveHead(newRoot: Root, nodes: Tree, store: Tree, pending: set<Root>, hasSummary: bool)
      returns (res: Switch, walked: seq<Root>)
      requires Valid() && newRoot in tree
      requires ViewsOf(Views(retained, nodes, store, pending), tree)
      modifies this`head, this`durableHead, this`retained, this`clock
      ensures Valid() && clock >= old(clock)
      ensures !res.Switched? ==> head == old(head) && durableHead == old(durableHead) && retained == old(retained)
      ensures res.Switched? ==> head == newRoot == durableHead && retained == map[]
      ensures res.Switched? && res.fork.Some? ==>
                Common(tree, old(head), newRoot, res.fork.value) && walked == PathAbove(tree, old(head), res.fork.value)
      ensures res.Switched? && res.fork.None? ==> walked == []
      ensures forall a :: a in walked ==> a in old(retained) || (a in store && a !in pending)
      ensures res.Switched? && tree[newRoot].parent == old(head) ==> res.fork == Some(old(head)) && IsLca(tree, old(head), newRoot, old(head))
      ensures res.Switched? && tree[newRoot].parent != old(head) ==>
                SwitchedReorg(Views(old(retained), nodes, store, pending), tree, old(head), newRoot, res.fork)
      ensures res.Unchanged? <==> newRoot == old(head) || !hasSummary
      ensures res.SwitchFailed? ==>
                || FaultIn(faults, old(clock), clock)
                || SearchBlocked(Views(old(retained), nodes, store, pending), tree, old(head), newRoot)
                || Stuck(Views(old(retained), nodes, store, pending), tree, old(head), newRoot, walked)
      ensures res.Switched? ==> !FaultIn(faults, old(clock), clock)
    {
      walked := [];
      if newRoot == head {
        return Unchanged, [];
      }
      if !hasSummary {
        return Unchanged, [];
      }
      clock := clock + 1;                        // reading the old head
      if faults(clock - 1) {
        return SwitchFailed, [];
      }
      var fork: Option<Root> := Some(head);
      if tree[newRoot].parent != head {
        var failed: bool;
        failed, fork, walked := Recover(newRoot, nodes, store, pending);
        if failed {
          return SwitchFailed, walked;
        }
      } else {
        ParentIsLca(tree, newRoot);
      }
      clock := clock + 1;
      if faults(clock - 1) {
        return SwitchFailed, walked;
      }
      durableHead := newRoot;
      head := newRoot;
      retained := map[];
      return Switched(fork), walked;
    }

    /** The part of a switch to a block that is not a child of the head. */
    method Recover(newRoot: Root, nodes: Tree, store: Tree, pending: set<Root>)
      returns (failed: bool, fork: Option<Root>, walked: seq<Root>)
      requires Valid() && ViewsOf(Views(retained, nodes, store, pending), tree)
      modifies this`clock
      ensures clock >= old(clock)
      ensures !failed ==> SwitchedReorg(Views(retained, nodes, store, pending), tree, head, newRoot, fork)
      ensures !failed && fork.Some? ==> Common(tree, head, newRoot, fork.value) && walked == PathAbove(tree, head, fork.value)
      ensures !failed && fork.None? ==> walked == []
      ensures forall a :: a in walked ==> a in retained || (a in store && a !in pending)
      ensures !failed ==> !FaultIn(faults, old(clock), clock)
      ensures failed ==>
                || FaultIn(faults, old(clock), clock)
                || SearchBlocked(Views(retained, nodes, store, pending), tree, head, newRoot)
                || Stuck(Views(retained, nodes, store, pending), tree, head, newRoot, walked)
    {
      hide ViewsOf, Survives, Unconnected, IsLca, SearchBlocked, Stuck, BridgeEnd;
      var v := Views(retained, nodes, store, pending);
      var o: Outcome;
      o, clock := CommonAncestorForReorg(v, tree, head, newRoot, faults, clock);
      if o.Failed? {
        return true, None, [];
      }
      if o.ForkPoint? && o.root == head {
        return false, Some(head), [];            // a descendant of the head: nothing is orphaned
      }
      ghost var middle := clock;
      var r: Recovery;
      r, walked, clock := SaveOrphanedOperations(v, tree, head, newRoot, faults, clock);
      FaultsJoin(faults, old(clock), middle, clock);
      if r.RecoveryFailed? {
        return true, None, walked;
      }
      return false, if r.Recovered? then Some(r.fork) else None, walked;
    }
  }

  /**
   * A switch to a block that is not a child of the old head `x`: the fork point
   * is unknown exactly when nothing connects the branches, and what is taken
   * for it is the lowest common ancestor exactly when no bridged block is an
   * ancestor of the new head.
   */
  ghost predicate SwitchedReorg(v: Views, t: Tree, x: Root, y: Root, fork: Option<Root>)
    requires ViewsOf(v, t)
  {
    && (fork.None? <==> Unconnected(v, BridgeEnd(t, v.retained.Keys, x), y))
    && (fork.Some? ==> (IsLca(t, x, y, fork.value) <==> Survives(v, t, x, y)))
  }

  lemma {:induction false} ParentIsLca(t: Tree, y: Root)
    requires WellFormed(t) && y in t && t[y].parent in t
    ensures IsLca(t, t[y].parent, y, t[y].parent)
  {
    assert Anc(t, t[y].parent, t[y].parent) && Anc(t, y, t[y].parent);
  }
}

/**
 * Invalidation, cleanup, import and head switches over time. The forkchoice
 * lock makes each step below exclusive, and a cleanup deletes only after it has
 * preserved the head.
 */
module Recoverability {
  import opened BlockTree
  import opened ForkPoints
  import HeadSwitch

  datatype State = State(
    head: Root,
    imported: set<Root>,  // every block ever accepted into forkchoice
    removed: set<Root>,   // removed from forkchoice as invalid
    pending: set<Root>,   // pendingInvalidBlocks
    retained: set<Root>,  // invalidatedHeadBlocks
    deleted: set<Root>,   // no longer stored
    cleaning: bool)

  datatype Event =
    | Invalidate(roots: set<Root>)
    | PreserveFails(kept: set<Root>)
    | StartCleanup(kept: set<Root>)
    | Delete(r: Root)
    | Release(r: Root)
    | EndCleanup
    | Import(r: Root)
    | SwitchHead(r: Root)

  /** Forkchoice removes whole subtrees: no surviving import descends from a removed block. */
  ghost predicate DescendantClosed(t: Tree, imported: set<Root>, removed: set<Root>)
    requires WellFormed(t)
  {
    forall x, r :: x in imported && r in removed && Anc(t, x, r) ==> x in removed
  }

  /** What PreserveInvalidatedHead promises about the blocks it adds. */
  ghost predicate Preserves(t: Tree, s: State, kept: set<Root>)
    requires WellFormed(t)
  {
    && s.retained <= kept
    && forall r :: r in kept && r !in s.retained ==> r in s.pending && RunsThrough(t, s.pending + s.retained, s.head, r)
  }

  ghost predicate Step(t: Tree, s: State, e: Event, s': State)
    requires WellFormed(t)
  {
    match e
    case Invalidate(roots) =>
      && !s.cleaning && roots <= t.Keys && DescendantClosed(t, s.imported, s.removed + roots)
      && s' == s.(removed := s.removed + roots, pending := s.pending + roots)
    case PreserveFails(kept) =>
      !s.cleaning && Preserves(t, s, kept) && PrefixClosed(t, s.head, kept) && s' == s.(retained := kept)
    case StartCleanup(kept) =>
      && !s.cleaning && Preserves(t, s, kept)
      && (forall a :: RunsThrough(t, s.pending + s.retained, s.head, a) ==> a in kept)
      && s' == s.(retained := kept, cleaning := true)
    case Delete(r) =>
      s.cleaning && r in s.pending && s' == s.(deleted := s.deleted + {r})
    case Release(r) =>
      s.cleaning && r in s.pending && r in s.deleted && s' == s.(pending := s.pending - {r})
    case EndCleanup =>
      s.cleaning && s' == s.(cleaning := false)
    case Import(r) =>
      // the locked recheck refuses quarantined blocks and parents
      && !s.cleaning && r in t && t[r].parent in s.imported && t[r].parent !in s.removed && r !in s.pending
      && s' == s.(imported := s.imported + {r}, removed := s.removed - {r}, deleted := s.deleted - {r})
    case SwitchHead(r) =>
      !s.cleaning && r in s.imported && r !in s.removed && s' == s.(head := r, retained := {})
  }

  ghost predicate Init(t: Tree, s: State) {
    && s.head in s.imported && s.imported <= t.Keys
    && (forall r :: r in s.imported && t[r].parent in t ==> t[r].parent in s.imported)
    && s.removed == {} && s.pending == {} && s.retained == {} && s.deleted == {} && !s.cleaning
  }

  ghost predicate Run(t: Tree, states: seq<State>, events: seq<Event>)
    requires WellFormed(t)
  {
    && |states| == |events| + 1 && Init(t, states[0])
    && forall i :: 0 <= i < |events| ==> Step(t, states[i], events[i], states[i + 1])
  }

  ghost predicate Inv(t: Tree, s: State)
    requires WellFormed(t)
  {
    && s.head in s.imported && s.imported <= t.Keys
    && (forall r :: r in s.imported && t[r].parent in t ==> t[r].parent in s.imported)
    && DescendantClosed(t, s.imported, s.removed)
    && s.pending <= s.removed && s.deleted <= s.removed
    && PrefixClosed(t, s.head, s.retained)
    && (forall x :: Anc(t, s.head, x) && x in s.removed ==> x in s.pending || x in s.retained)
    && (forall x :: Anc(t, s.head, x) && x in s.deleted ==> x in s.retained)
    && (s.cleaning ==> forall x :: Anc(t, s.head, x) && x in s.pending ==> x in s.retained)
  }

  lemma {:induction false} ImportedAncestors(t: Tree, s: State, x: Root, a: Root)
    requires WellFormed(t) && s.imported <= t.Keys && x in s.imported && Anc(t, x, a)
    requires forall r :: r in s.imported && t[r].parent in t ==> t[r].parent in s.imported
    ensures a in s.imported
    decreases Rank(t, x)
  {
    if x != a { ImportedAncestors(t, s, t[x].parent, a); }
  }

  /** A removed ancestor of the head is reached from it through removed blocks only. */
  lemma {:induction false} RemovedIsReached(t: Tree, s: State, a: Root)
    requires WellFormed(t) && Inv(t, s) && Anc(t, s.head, a) && a in s.removed
    ensures RunsThrough(t, s.pending + s.retained, s.head, a)
  {
    forall x | Anc(t, s.head, x) && Anc(t, x, a)
      ensures x in s.pending + s.retained
    {
      ImportedAncestors(t, s, s.head, x);
    }
    RunsThroughMeans(t, s.pending + s.retained, s.head, a);
  }

  lemma {:induction false} CompletePreserveIsPrefix(t: Tree, s: State, kept: set<Root>)
    requires WellFormed(t) && PrefixClosed(t, s.head, s.retained) && Preserves(t, s, kept)
    requires forall a :: RunsThrough(t, s.pending + s.retained, s.head, a) ==> a in kept
    ensures PrefixClosed(t, s.head, kept)
  {
    var all := s.pending + s.retained;
    forall r | r in kept
      ensures RunsThrough(t, kept, s.head, r)
    {
      RunsThroughMeans(t, s.retained, s.head, r);
      RunsThroughMeans(t, all, s.head, r);
      forall x | Anc(t, s.head, x) && Anc(t, x, r)
        ensures x in kept
      {
        forall y | Anc(t, s.head, y) && Anc(t, y, x)
          ensures y in all
        {
          AncTransitive(t, y, x, r);
        }
        RunsThroughMeans(t, all, s.head, x);
      }
      RunsThroughMeans(t, kept, s.head, r);
    }
  }

  lemma {:induction false} CleanupStartKeeps(t: Tree, s: State, e: Event, s': State)
    requires WellFormed(t) && Inv(t, s) && Step(t, s, e, s') && (e.StartCleanup? || e.PreserveFails?)
    ensures Inv(t, s')
  {
    if e.StartCleanup? {
      CompletePreserveIsPrefix(t, s, e.kept);
      forall x | Anc(t, s.head, x) && x in s.pending
        ensures x in e.kept
      {
        RemovedIsReached(t, s, x);
      }
    }
  }

  lemma {:induction false} ImportKeeps(t: Tree, s: State, e: Event, s': State)
    requires WellFormed(t) && Inv(t, s) && Step(t, s, e, s') && e.Import?
    ensures Inv(t, s')
  {
    var p := t[e.r].parent;
    assert forall q :: q in s.removed ==> !Anc(t, p, q);
    assert forall q :: Anc(t, e.r, q) ==> q == e.r || Anc(t, p, q);
    assert DescendantClosed(t, s'.imported, s'.removed);
  }

  lemma {:induction false} SwitchKeeps(t: Tree, s: State, e: Event, s': State)
    requires WellFormed(t) && Inv(t, s) && Step(t, s, e, s') && e.SwitchHead?
    ensures Inv(t, s')
  {
  }

  lemma {:induction false} StepKeeps(t: Tree, s: State, e: Event, s': State)
    requires WellFormed(t) && Inv(t, s) && Step(t, s, e, s')
    ensures Inv(t, s')
  {
    if e.StartCleanup? || e.PreserveFails? {
      CleanupStartKeeps(t, s, e, s');
    } else if e.Import? {
      ImportKeeps(t, s, e, s');
    } else if e.SwitchHead? {
      SwitchKeeps(t, s, e, s');
    }
  }

  lemma {:induction false} StepAt(t: Tree, states: seq<State>, events: seq<Event>, i: nat)
    requires WellFormed(t) && Run(t, states, events) && i < |events|
    ensures |states| == |events| + 1 && Step(t, states[i], events[i], states[i + 1])
  {
    hide Step;
  }

  lemma {:induction false} RunKeeps(t: Tree, states: seq<State>, events: seq<Event>, n: nat)
    requires WellFormed(t) && Run(t, states, events) && n < |states|
    ensures Inv(t, states[n])
    decreases n
  {
    hide Step;
    if n > 0 {
      StepAt(t, states, events, n - 1);
      hide Inv, Run;
      RunKeeps(t, states, events, n - 1);
      StepKeeps(t, states[n - 1], events[n - 1], states[n]);
    }
  }

  /**
   * In every run, whenever an ancestor of the published head has been deleted,
   * it and every block between it and the head are retained.
   */
  lemma {:induction false} DeletedAncestryIsRetained(t: Tree, states: seq<State>, events: seq<Event>, n: nat, a: Root, x: Root)
    requires WellFormed(t) && Run(t, states, events) && n < |states|
    requires Anc(t, states[n].head, a) && a in states[n].deleted
    requires Anc(t, states[n].head, x) && Anc(t, x, a)
    ensures x in states[n].retained
  {
    RunKeeps(t, states, events, n);
    RunsThroughMeans(t, states[n].retained, states[n].head, a);
  }

  /** Recovery can read the block: it is retained, or stored and not quarantined. */
  ghost predicate StillReadable(s: State, a: Root) {
    a in s.retained || (a !in s.deleted && a !in s.pending)
  }

  ghost predicate PendingRetained(t: Tree, s: State)
    requires WellFormed(t)
  {
    forall a :: Anc(t, s.head, a) && a in s.pending ==> a in s.retained
  }

  /** The published head's branch can be read back exactly when each of its quarantined blocks is retained. */
  lemma {:induction false} OrphanedBranchReadableIff(t: Tree, states: seq<State>, events: seq<Event>, n: nat)
    requires WellFormed(t) && Run(t, states, events) && n < |states|
    ensures (forall a :: Anc(t, states[n].head, a) ==> StillReadable(states[n], a)) <==> PendingRetained(t, states[n])
  {
    hide Step;
    RunKeeps(t, states, events, n);
    var s := states[n];
    if PendingRetained(t, s) {
      assert forall a :: Anc(t, s.head, a) ==> StillReadable(s, a);
    } else {
      var a :| Anc(t, s.head, a) && a in s.pending && a !in s.retained;
      assert !StillReadable(s, a);
    }
  }

  lemma {:induction false} StepKeepsReadable(t: Tree, s: State, e: Event, s': State)
    requires WellFormed(t) && Inv(t, s) && Inv(t, s') && Step(t, s, e, s')
    requires e.StartCleanup? || e.SwitchHead? || (PendingRetained(t, s) && !e.Invalidate?)
    ensures PendingRetained(t, s')
  {
  }

  /** That holds from a cleanup's preservation, or a head switch, until the next invalidation. */
  lemma {:induction false} ReadableUntilInvalidated(t: Tree, states: seq<State>, events: seq<Event>, k: nat, n: nat)
    requires WellFormed(t) && Run(t, states, events) && k < n < |states|
    requires events[k].StartCleanup? || events[k].SwitchHead?
    requires forall i :: k < i < n ==> !events[i].Invalidate?
    ensures PendingRetained(t, states[n])
    decreases n
  {
    StepAt(t, states, events, n - 1);
    hide Inv, PendingRetained, Step, Run;
    if k < n - 1 {
      ReadableUntilInvalidated(t, states, events, k, n - 1);
    }
    RunKeeps(t, states, events, n - 1);
    RunKeeps(t, states, events, n);
    StepKeepsReadable(t, states[n - 1], events[n - 1], states[n]);
  }

  /** What the service reads is what the state has: retained and quarantined blocks, and everything imported and not deleted. */
  ghost predicate Represents(t: Tree, s: State, v: Views) {
    && ViewsOf(v, t) && v.retained.Keys == s.retained && v.pending == s.pending
    && s.imported - s.deleted <= v.store.Keys
  }

  /** From a readable branch to a head forkchoice can select, nothing stops the search or the walk. */
  lemma {:induction false} NothingInTheWay(t: Tree, s: State, v: Views, y: Root)
    requires Represents(t, s, v) && Inv(t, s) && PendingRetained(t, s) && y in s.imported && y !in s.removed
    ensures !SearchBlocked(v, t, s.head, y)
    ensures forall walked :: !Stuck(v, t, s.head, y, walked)
  {
    var e := BridgeEnd(t, v.retained.Keys, s.head);
    forall q
      ensures !Blocking(t, v.store, v.pending, e, y, q)
    {
      if q in v.pending && Anc(t, e, q) {
        BridgeEndIsClear(t, s, v, q);
      }
    }
    forall c, a | Common(t, s.head, y, c) && a in PathAbove(t, s.head, c)
      ensures Readable(v, a)
    {
      PathAboveMeaning(t, s.head, c, a);
      ImportedAncestors(t, s, s.head, a);
    }
  }

  lemma {:induction false} BridgeEndIsClear(t: Tree, s: State, v: Views, q: Root)
    requires Represents(t, s, v) && Inv(t, s) && PendingRetained(t, s)
    requires Anc(t, BridgeEnd(t, v.retained.Keys, s.head), q)
    ensures q !in s.pending
  {
    var e := BridgeEnd(t, v.retained.Keys, s.head);
    BridgeDescends(t, v.retained.Keys, s.head);
    AncTransitive(t, s.head, e, q);
    if q in s.retained {
      RunsThroughMeans(t, s.retained, s.head, q);
    }
  }

  lemma {:induction false} WhollyStored(t: Tree, store: Tree, x: Root, c: Root)
    requires WellFormed(t) && WellFormed(store) && Within(store, t) && Anc(t, x, c)
    requires forall a :: Anc(t, x, a) ==> a in store
    ensures Anc(store, x, c)
    decreases Rank(t, x)
  {
    assert Anc(t, x, x);
    if x != c {
      assert forall a :: Anc(t, t[x].parent, a) ==> Anc(t, x, a);
      WhollyStored(t, store, t[x].parent, c);
    }
  }

  /** Branches that share a block are connected by the stored blocks, as long as no retained block was imported again. */
  lemma {:induction false} BranchesConnect(t: Tree, s: State, v: Views, y: Root, c: Root)
    requires Represents(t, s, v) && Inv(t, s) && y in s.imported && y !in s.removed
    requires Survives(v, t, s.head, y) && Common(t, s.head, y, c)
    ensures !Unconnected(v, BridgeEnd(t, v.retained.Keys, s.head), y)
  {
    var e := BridgeEnd(t, v.retained.Keys, s.head);
    BridgeKeepsCommon(t, v.retained.Keys, s.head, y);
    assert Common(t, e, y, c);
    BridgeDescends(t, v.retained.Keys, s.head);
    forall a | Anc(t, e, a)
      ensures a in v.store
    {
      AncTransitive(t, s.head, e, a);
      ImportedAncestors(t, s, s.head, a);
      if a in s.deleted {
        RunsThroughMeans(t, s.retained, s.head, a);
      }
    }
    forall a | Anc(t, y, a)
      ensures a in v.store
    {
      ImportedAncestors(t, s, y, a);
    }
    WhollyStored(t, v.store, e, c);
    WhollyStored(t, v.store, y, c);
    assert Common(v.store, e, y, c);
  }

  /**
   * In every run, whenever the head's branch is readable, a switch to a head
   * forkchoice can select goes through unless something fails: the blocks
   * strictly above the fork point are recovered. If no retained block has been
   * imported again, the fork point is known exactly when the branches share a
   * block, and it is their lowest common ancestor.
   */
  method SwitchInRun(service: HeadSwitch.ChainService, ghost states: seq<State>, ghost events: seq<Event>, ghost n: nat,
                     newRoot: Root, nodes: Tree, store: Tree, pending: set<Root>)
    returns (res: HeadSwitch.Switch, walked: seq<Root>)
    requires service.Valid() && Run(service.tree, states, events) && n < |states|
    requires service.head == states[n].head != newRoot
    requires Represents(service.tree, states[n], Views(service.retained, nodes, store, pending))
    requires PendingRetained(service.tree, states[n])
    requires newRoot in states[n].imported && newRoot !in states[n].removed
    requires forall i :: !service.faults(i)
    modifies service
    ensures res.Switched? && service.head == newRoot == service.durableHead
    ensures res.fork.Some? ==> Common(service.tree, states[n].head, newRoot, res.fork.value)
    ensures res.fork.Some? ==> walked == PathAbove(service.tree, states[n].head, res.fork.value)
    ensures states[n].retained <= states[n].removed ==>
              && (res.fork.Some? <==> exists c :: Common(service.tree, states[n].head, newRoot, c))
              && (res.fork.Some? ==> IsLca(service.tree, states[n].head, newRoot, res.fork.value))
  {
    hide Inv, Step, SearchBlocked, Stuck, Unconnected, PendingRetained, Survives, IsLca;
    RunKeeps(service.tree, states, events, n);
    ghost var v := Views(service.retained, nodes, store, pending);
    SelectableIsKnown(service.tree, states[n], newRoot);
    NothingInTheWay(service.tree, states[n], v, newRoot);
    if states[n].retained <= states[n].removed {
      SelectableHeadSurvives(service.tree, states, events, n, v, newRoot);
      if c :| Common(service.tree, states[n].head, newRoot, c) {
        BranchesConnect(service.tree, states[n], v, newRoot, c);
      }
    }
    res, walked := service.SaveHead(newRoot, nodes, store, pending, true);
  }

  lemma {:induction false} SelectableIsKnown(t: Tree, s: State, y: Root)
    requires WellFormed(t) && Inv(t, s) && y in s.imported
    ensures y in t
  {
  }

  /**
   * A head forkchoice can select never descends from a retained block, as long
   * as no retained block has been imported again: then the fork point found
   * for it is the lowest common ancestor.
   */
  lemma {:induction false} SelectableHeadSurvives(t: Tree, states: seq<State>, events: seq<Event>, n: nat, v: Views, y: Root)
    requires WellFormed(t) && Run(t, states, events) && n < |states|
    requires v.retained.Keys == states[n].retained <= states[n].removed
    requires y in states[n].imported && y !in states[n].removed
    ensures Survives(v, t, states[n].head, y)
  {
    RunKeeps(t, states, events, n);
    forall r | RunsThrough(t, v.retained.Keys, states[n].head, r)
      ensures !Anc(t, y, r)
    {
      RunsThroughMeans(t, v.retained.Keys, states[n].head, r);
      assert Anc(t, r, r) by { AncSlots(t, states[n].head, r); }
    }
  }

  // Blocks 1 <- 2 <- 3 and 2 <- 4. Head 3 and its parent 2 are rejected and
  // cleaned up; 2 is imported again, with its child 4, while 3 is still the
  // published head and both are retained.

  const FORK: Tree := map[1 := Block(0, 0), 2 := Block(1, 1), 3 := Block(2, 2), 4 := Block(3, 2)]
  const S0 := State(3, {1, 2, 3}, {}, {}, {}, {}, false)
  const S1 := S0.(removed := {2, 3}, pending := {2, 3})
  const S2 := S1.(retained := {2, 3}, cleaning := true)
  const S3 := S2.(deleted := {2})
  const S4 := S3.(pending := {3})
  const S5 := S4.(cleaning := false)
  const S6 := S5.(removed := {3}, deleted := {})
  const S7 := S6.(imported := {1, 2, 3, 4})

  lemma {:induction false} ForkAncestry()
    ensures WellFormed(FORK)
    ensures Anc(FORK, 3, 2) && Anc(FORK, 4, 2) && !Anc(FORK, 1, 2) && !Anc(FORK, 1, 3)
    ensures RunsThrough(FORK, {2, 3}, 3, 2) && RunsThrough(FORK, {2, 3}, 3, 3)
    ensures forall a :: RunsThrough(FORK, {2, 3}, 3, a) ==> a == 2 || a == 3
  {
    assert !Anc(FORK, 0, 2) && !Anc(FORK, 0, 3);
    assert forall a :: !RunsThrough(FORK, {2, 3}, 1, a);
    assert forall a :: RunsThrough(FORK, {2, 3}, 2, a) ==> a == 2;
  }

  lemma {:induction false} ForkSteps()
    ensures WellFormed(FORK)
    ensures Step(FORK, S0, Invalidate({2, 3}), S1) && Step(FORK, S1, StartCleanup({2, 3}), S2)
    ensures Step(FORK, S2, Delete(2), S3) && Step(FORK, S3, Release(2), S4) && Step(FORK, S4, EndCleanup, S5)
    ensures Step(FORK, S5, Import(2), S6) && Step(FORK, S6, Import(4), S7)
  {
    ForkAncestry();
    assert S1.pending + S1.retained == {2, 3};
  }

  /** The condition of SelectableHeadSurvives is needed: this run leaves a selectable head that descends from a retained block. */
  lemma {:induction false} ReimportedAncestorMisleads()
    ensures WellFormed(FORK)
    ensures Run(FORK, [S0, S1, S2, S3, S4, S5, S6, S7],
                [Invalidate({2, 3}), StartCleanup({2, 3}), Delete(2), Release(2), EndCleanup, Import(2), Import(4)])
    ensures 4 in S7.imported && 4 !in S7.removed
    ensures !Survives(Views(map[2 := FORK[2], 3 := FORK[3]], map[], map[], {}), FORK, S7.head, 4)
  {
    hide Step;
    ForkAncestry();
    ForkSteps();
    var v := Views(map[2 := FORK[2], 3 := FORK[3]], map[], map[], {});
    assert v.retained.Keys == {2, 3};
  }

  /** The condition of OrphanedBranchReadableIff is needed too: right after this invalidation the head's parent cannot be read. */
  lemma {:induction false} FreshInvalidationIsUnreadable()
    ensures WellFormed(FORK) && Run(FORK, [S0, S1], [Invalidate({2, 3})])
    ensures Anc(FORK, S1.head, 2) && !StillReadable(S1, 2) && !PendingRetained(FORK, S1)
  {
    hide Step;
    ForkAncestry();
    ForkSteps();
  }
}

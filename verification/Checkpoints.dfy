/** Persisting justified, finalized and execution-validated checkpoints. */
module Checkpoints {
  import opened Oracles
  import opened BlockTree

  datatype Checkpoint = Checkpoint(epoch: nat, root: Root)

  /** What forkchoice says of a root: no such node, a lookup error, optimistic, or validated. */
  datatype Status = NoNode | LookupError | Optimistic | Validated

  /** Forkchoice as one call sees it. */
  datatype View = View(justified: Checkpoint, finalized: Checkpoint, status: Root -> Status)

  datatype Event = Update(view: View) | ValidVerdict(status: Root -> Status)

  class Database {
    const faults: Oracle
    var clock: nat
    var justified: Checkpoint
    var finalized: Checkpoint
    var validated: Checkpoint
    ghost var history: set<Checkpoint>       // every finalized checkpoint ever persisted

    /** The marker is a finalized checkpoint that was persisted, and not ahead of the current one. */
    ghost predicate Valid()
      reads this
    {
      && finalized in history && validated in history
      && (forall c :: c in history ==> c.epoch <= finalized.epoch)
    }

    ghost predicate Ordered()
      reads this
    {
      finalized.epoch <= justified.epoch
    }

    constructor (genesis: Checkpoint, faults: Oracle)
      ensures Valid() && Ordered() && justified == finalized == validated == genesis && history == {genesis}
      ensures this.faults == faults && clock == 0
    {
      this.faults, clock := faults, 0;
      justified, finalized, validated, history := genesis, genesis, genesis, {genesis};
    }

    method Fails() returns (b: bool)
      modifies this`clock
      ensures clock == old(clock) + 1 && b == faults(old(clock))
    {
      b := faults(clock);
      clock := clock + 1;
    }

    method UpdateLastValidatedCheckpoint(cp: Checkpoint, status: Root -> Status) returns (ok: bool)
      requires Valid() && cp == finalized
      modifies this`clock, this`validated
      ensures Valid() && clock >= old(clock)
      ensures validated != old(validated) ==>
                ok && status(cp.root) == Validated && cp.epoch > old(validated).epoch && validated == cp
      ensures ok && status(cp.root) == Validated && cp.epoch > old(validated).epoch ==> validated == cp
      ensures ok <==> !FaultIn(faults, old(clock), clock) && (cp.epoch == 0 || status(cp.root) != LookupError)
    {
      if cp.epoch == 0 {
        return true;
      }
      match status(cp.root)
      case NoNode => return true;
      case LookupError => return false;
      case Optimistic => return true;
      case Validated =>
        var unreadable := Fails();
        if unreadable {
          return false;
        }
        if cp.epoch <= validated.epoch {
          return true;
        }
        var unwritten := Fails();
        if unwritten {
          return false;
        }
        validated := cp;
        return true;
    }

    method UpdateFinalized(cp: Checkpoint, status: Root -> Status) returns (advanced: bool, ok: bool)
      requires Valid()
      modifies this`clock, this`finalized, this`validated, this`history
      ensures Valid() && clock >= old(clock)
      ensures advanced <==> finalized.epoch > old(finalized).epoch
      ensures finalized == if advanced then cp else old(finalized)
      ensures history == old(history) + {finalized}
      ensures ok ==> (advanced <==> cp.epoch > old(finalized).epoch)
      ensures validated != old(validated) ==>
                ok && status(finalized.root) == Validated && finalized.epoch > old(validated).epoch && validated == finalized
      ensures ok && status(finalized.root) == Validated && finalized.epoch > old(validated).epoch ==> validated == finalized
      ensures ok ==> finalized.epoch == 0 || status(finalized.root) != LookupError
      ensures ok ==> !FaultIn(faults, old(clock), clock)
      ensures !ok ==> FaultIn(faults, old(clock), clock) || (finalized.epoch > 0 && status(finalized.root) == LookupError)
    {
      var unreadable := Fails();
      if unreadable {
        return false, false;
      }
      if cp.epoch <= finalized.epoch {
        var violated := Fails();                 // the weak subjectivity check
        if violated {
          return false, false;
        }
        ok := UpdateLastValidatedCheckpoint(finalized, status);
        return false, ok;
      }
      var unflushed := Fails();                  // saving the initial-sync blocks
      if unflushed {
        return false, false;
      }
      var unwritten := Fails();
      if unwritten {
        return false, false;
      }
      finalized := cp;
      history := history + {cp};
      var violated := Fails();
      if violated {
        return true, false;
      }
      ok := UpdateLastValidatedCheckpoint(cp, status);
      return true, ok;
    }

    method UpdateCheckpoints(view: View) returns (advanced: bool, ok: bool)
      requires Valid()
      modifies this
      ensures Valid() && clock >= old(clock)
      ensures advanced <==> finalized.epoch > old(finalized).epoch
      ensures justified != old(justified) ==> justified == view.justified && view.justified.epoch > old(justified).epoch
      ensures (ok || advanced) && view.justified.epoch > old(justified).epoch ==> justified == view.justified
      ensures finalized == if advanced then view.finalized else old(finalized)
      ensures ok ==> (advanced <==> view.finalized.epoch > old(finalized).epoch)
      ensures validated != old(validated) ==>
                ok && view.status(finalized.root) == Validated && finalized.epoch > old(validated).epoch && validated == finalized
      ensures ok && view.status(finalized.root) == Validated && finalized.epoch > old(validated).epoch ==> validated == finalized
      ensures history == old(history) + {finalized}
      ensures ok ==> finalized.epoch == 0 || view.status(finalized.root) != LookupError
      ensures ok ==> !FaultIn(faults, old(clock), clock)
      ensures !ok ==> FaultIn(faults, old(clock), clock) || (finalized.epoch > 0 && view.status(finalized.root) == LookupError)
      ensures old(Ordered()) && view.finalized.epoch <= view.justified.epoch ==> Ordered()
    {
      var unreadable := Fails();
      if unreadable {
        return false, false;
      }
      if view.justified.epoch > justified.epoch {
        var unwritten := Fails();
        if unwritten {
          return false, false;
        }
        justified := view.justified;
      }
      advanced, ok := UpdateFinalized(view.finalized, view.status);
    }

    /** The update after a VALID verdict of the execution client. */
    method AfterValidVerdict(status: Root -> Status) returns (ok: bool)
      requires Valid()
      modifies this`clock, this`validated
      ensures Valid() && clock >= old(clock)
      ensures validated != old(validated) ==>
                ok && status(finalized.root) == Validated && finalized.epoch > old(validated).epoch && validated == finalized
      ensures ok && status(finalized.root) == Validated && finalized.epoch > old(validated).epoch ==> validated == finalized
      ensures ok ==> finalized.epoch == 0 || status(finalized.root) != LookupError
      ensures ok ==> !FaultIn(faults, old(clock), clock)
      ensures !ok ==> FaultIn(faults, old(clock), clock) || (finalized.epoch > 0 && status(finalized.root) == LookupError)
    {
      var unreadable := Fails();
      if unreadable {
        return false;
      }
      ok := UpdateLastValidatedCheckpoint(finalized, status);
    }

    /**
     * Any run, with any writes failing: no persisted epoch decreases, the
     * marker never passes finality, finality never passes justification if
     * forkchoice keeps that order, finality advanced as often as reported, and
     * the marker is the starting one or a root reported as validated.
     */
    method Run(events: seq<Event>) returns (epochs: seq<nat>, flags: seq<bool>)
      requires Valid()
      modifies this
      ensures Valid() && old(history) <= history
      ensures old(justified).epoch <= justified.epoch && old(finalized).epoch <= finalized.epoch
      ensures old(validated).epoch <= validated.epoch <= finalized.epoch
      ensures old(Ordered()) && Respectful(events) ==> Ordered()
      ensures |epochs| == |events| + 1 && |flags| == |events|
      ensures validated == old(validated) || exists i :: 0 <= i < |events| && Reports(events[i], validated.root)
      ensures epochs[0] == old(finalized).epoch && epochs[|events|] == finalized.epoch
      ensures forall i :: 0 <= i < |events| ==> epochs[i] <= epochs[i + 1] && (flags[i] <==> epochs[i] < epochs[i + 1])
    {
      epochs, flags := [finalized.epoch], [];
      for i := 0 to |events|
        invariant Valid() && old(history) <= history
        invariant old(justified).epoch <= justified.epoch && old(finalized).epoch <= finalized.epoch
        invariant old(validated).epoch <= validated.epoch
        invariant validated == old(validated) || exists j :: 0 <= j < i && Reports(events[j], validated.root)
        invariant old(Ordered()) && Respectful(events) ==> Ordered()
        invariant |epochs| == i + 1 && |flags| == i
        invariant epochs[0] == old(finalized).epoch && epochs[i] == finalized.epoch
        invariant forall j :: 0 <= j < i ==> epochs[j] <= epochs[j + 1] && (flags[j] <==> epochs[j] < epochs[j + 1])
      {
        var advanced, ok := false, true;
        ghost var marker := validated;
        match events[i] {
          case Update(view) => advanced, ok := UpdateCheckpoints(view);
          case ValidVerdict(status) => ok := AfterValidVerdict(status);
        }
        assert validated != marker ==> Reports(events[i], validated.root);
        epochs, flags := epochs + [finalized.epoch], flags + [advanced];
      }
    }
  }

  /** Forkchoice, as the event sees it, has validated the root. */
  ghost predicate Reports(e: Event, root: Root) {
    match e
    case Update(view) => view.status(root) == Validated
    case ValidVerdict(status) => status(root) == Validated
  }

  /** Forkchoice never reports finality ahead of justification. */
  ghost predicate Respectful(events: seq<Event>) {
    forall i :: 0 <= i < |events| && events[i].Update? ==>
      events[i].view.finalized.epoch <= events[i].view.justified.epoch
  }
}

/** Recognizing blocks that were imported, including those pruned by finalization. */
module FinalizedAncestry {
  import opened Oracles
  import opened BlockTree

  datatype Ancestor = At(root: Root) | Unreadable

  datatype Answer = Imported | NotImported | Unknown

  /** Walking up from `r` until a block at or below the slot; each read may fail or be cancelled. */
  function AncestorByDB(t: Tree, r: Root, slot: nat, faults: Oracle, depth: nat): Ancestor
    requires WellFormed(t)
    decreases Rank(t, r)
  {
    if faults(depth) || r !in t then Unreadable
    else if t[r].slot <= slot then At(r)
    else AncestorByDB(t, t[r].parent, slot, faults, depth + 1)
  }

  /** It finds the highest ancestor at or below the slot, and fails only on a missing or unreadable block. */
  lemma {:induction false} AncestorByDBMeaning(t: Tree, r: Root, slot: nat, faults: Oracle, depth: nat, b: Root)
    requires WellFormed(t)
    ensures var a := AncestorByDB(t, r, slot, faults, depth);
      && (a.At? ==> Anc(t, r, a.root) && a.root in t && t[a.root].slot <= slot)
      && (a.At? && Anc(t, r, b) && b in t && t[b].slot <= slot ==> Anc(t, a.root, b))
      && (a.Unreadable? && (forall i :: !faults(i)) && Anc(t, r, b) ==> b in t && t[b].slot > slot)
    decreases Rank(t, r)
  {
    if Anc(t, r, b) {
      AncSlots(t, r, b);
    }
    if r in t && t[r].slot > slot {
      AncestorByDBMeaning(t, t[r].parent, slot, faults, depth + 1, b);
    }
  }

  /** The `i`-th step up from `r` is the first that fails: the read does, or there is no block. */
  ghost predicate StopsAt(t: Tree, r: Root, slot: nat, faults: Oracle, depth: nat, i: nat)
    requires WellFormed(t)
    decreases i
  {
    if i == 0 then faults(depth) || r !in t
    else !faults(depth) && r in t && t[r].slot > slot && StopsAt(t, t[r].parent, slot, faults, depth + 1, i - 1)
  }

  lemma {:induction false} FirstStop(t: Tree, r: Root, slot: nat, faults: Oracle, depth: nat) returns (i: nat)
    requires WellFormed(t) && AncestorByDB(t, r, slot, faults, depth).Unreadable?
    ensures StopsAt(t, r, slot, faults, depth, i)
    decreases Rank(t, r)
  {
    if faults(depth) || r !in t {
      i := 0;
    } else {
      i := FirstStop(t, t[r].parent, slot, faults, depth + 1);
      i := i + 1;
    }
  }

  lemma {:induction false} StopIsUnreadable(t: Tree, r: Root, slot: nat, faults: Oracle, depth: nat, i: nat)
    requires WellFormed(t) && StopsAt(t, r, slot, faults, depth, i)
    ensures AncestorByDB(t, r, slot, faults, depth).Unreadable?
    decreases i
  {
    if i > 0 { StopIsUnreadable(t, t[r].parent, slot, faults, depth + 1, i - 1); }
  }

  /** A read that the walk makes fails, or a block that it needs is missing. */
  ghost predicate Stops(t: Tree, r: Root, slot: nat, faults: Oracle, depth: nat)
    requires WellFormed(t)
  {
    exists i :: 0 <= i && StopsAt(t, r, slot, faults, depth, i)
  }

  /** The walk fails exactly then. */
  lemma {:induction false} UnreadableIff(t: Tree, r: Root, slot: nat, faults: Oracle, depth: nat)
    requires WellFormed(t)
    ensures AncestorByDB(t, r, slot, faults, depth).Unreadable? <==> Stops(t, r, slot, faults, depth)
  {
    if AncestorByDB(t, r, slot, faults, depth).Unreadable? {
      var i := FirstStop(t, r, slot, faults, depth);
      assert StopsAt(t, r, slot, faults, depth, i);
    } else if Stops(t, r, slot, faults, depth) {
      var i :| 0 <= i && StopsAt(t, r, slot, faults, depth, i);
      StopIsUnreadable(t, r, slot, faults, depth, i);
    }
  }

  function IsImportedBlock(nodes: set<Root>, t: Tree, finalizedRoot: Root, finalizedSlot: nat,
                           root: Root, slot: nat, faults: Oracle): Answer
    requires WellFormed(t)
  {
    if root in nodes then Imported
    else if slot > finalizedSlot then NotImported
    else
      var a := AncestorByDB(t, finalizedRoot, slot, faults, 0);
      if a.Unreadable? then Unknown else if a.root == root then Imported else NotImported
  }

  /** A block is recognized exactly when forkchoice has it or the finalized block descends from it. */
  lemma ImportedIff(nodes: set<Root>, t: Tree, finalizedRoot: Root, finalizedSlot: nat,
                    root: Root, slot: nat, faults: Oracle)
    requires WellFormed(t)
    requires finalizedRoot in t ==> t[finalizedRoot].slot <= finalizedSlot
    requires root in t ==> t[root].slot == slot
    ensures var a := IsImportedBlock(nodes, t, finalizedRoot, finalizedSlot, root, slot, faults);
      && (!a.Unknown? ==> (a.Imported? <==> root in nodes || Anc(t, finalizedRoot, root)))
      && (a.Unknown? <==> root !in nodes && slot <= finalizedSlot && Stops(t, finalizedRoot, slot, faults, 0))
  {
    UnreadableIff(t, finalizedRoot, slot, faults, 0);
    AncestorByDBMeaning(t, finalizedRoot, slot, faults, 0, root);
    if Anc(t, finalizedRoot, root) {
      AncSlots(t, finalizedRoot, root);
      var a := AncestorByDB(t, finalizedRoot, slot, faults, 0);
      if a.At? {
        AncSlots(t, a.root, root);
      }
    }
  }
}

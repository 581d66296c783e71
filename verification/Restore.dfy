/** What a crash can leave of the directory entry and of the two files a restore touches. */
module CrashModel {
  datatype Content = Blank | Placeholder | Old | Partial | Snapshot | Cleared

  /** What the database path names: nothing, the file that was there (or was created for the lock), or the new file. */
  datatype Entry = Nothing | Base | Temp

  /** A file's content now, and every content a crash may leave: those since its last sync. */
  datatype File = File(now: Content, possible: set<Content>)

  /** The same for the directory entry. */
  datatype Disk = Disk(path: Entry, paths: set<Entry>, base: File, temp: File)

  function Written(f: File, c: Content): File { File(c, f.possible + {c}) }

  function Synced(f: File): File { File(f.now, {f.now}) }

  function Linked(d: Disk, e: Entry): Disk { d.(path := e, paths := d.paths + {e}) }

  function DirectorySynced(d: Disk): Disk { d.(paths := {d.path}) }

  function Initial(existed: bool): Disk {
    var untouched := File(if existed then Old else Blank, {if existed then Old else Blank});
    var path := if existed then Base else Nothing;
    Disk(path, {path}, untouched, File(Blank, {Blank}))
  }

  /**
   * Whatever a crash leaves, the path names what was there before (the old
   * file; or nothing, or an empty placeholder) or the complete snapshot.
   */
  ghost predicate CrashSafe(existed: bool, d: Disk) {
    forall e :: e in d.paths ==>
      match e
      case Nothing => !existed
      case Base => d.base.possible <= (if existed then {Old} else {Blank, Placeholder})
      case Temp => d.temp.possible == {Snapshot}
  }

  /** What a crash reveals: an entry and, behind it, a content. */
  datatype Revealed = NoFile | Holds(content: Content)

  ghost predicate Reveals(d: Disk, r: Revealed) {
    || (Nothing in d.paths && r.NoFile?)
    || (Base in d.paths && r.Holds? && r.content in d.base.possible)
    || (Temp in d.paths && r.Holds? && r.content in d.temp.possible)
  }

  /** Spelled out: a crash reveals the previous content or the snapshot, never a partial or cleared file. */
  lemma CrashSafeMeaning(existed: bool, d: Disk, r: Revealed)
    requires CrashSafe(existed, d) && Reveals(d, r)
    ensures r == Holds(Snapshot) || (existed && r == Holds(Old)) || (!existed && r in {NoFile, Holds(Blank), Holds(Placeholder)})
  {
  }

  /** Until the directory, or the file, is synced, whatever a crash could reveal before a change it can reveal after it. */
  lemma UnsyncedChangesHideNothing(d: Disk, e: Entry, c: Content, r: Revealed)
    requires Reveals(d, r)
    ensures Reveals(Linked(d, e), r)
    ensures Reveals(d.(base := Written(d.base, c)), r) && Reveals(d.(temp := Written(d.temp, c)), r)
  {
  }

  /** The order matters: clearing the replaced file before its unlinking is durable is not crash safe. */
  lemma ClearingTooEarlyIsUnsafe(existed: bool, d: Disk)
    requires Base in d.paths
    ensures !CrashSafe(existed, d.(base := Written(d.base, Cleared)))
    ensures Reveals(d.(base := Written(d.base, Cleared)), Holds(Cleared))
  {
    assert Cleared in Written(d.base, Cleared).possible;
  }

  /** So is renaming a file that is not synced. */
  lemma RenamingTooEarlyIsUnsafe(existed: bool, d: Disk)
    ensures CrashSafe(existed, Linked(d, Temp)) ==> d.temp.possible == {Snapshot}
  {
    assert Temp in Linked(d, Temp).paths;
  }
}

/** Replacing a database by a snapshot of a backup. */
module Restore {
  import opened CrashModel
  import opened Oracles

  datatype Lock = Taken | Busy | Unopenable

  datatype Outcome = Restored | Aborted | Error

  class Target {
    const existed: bool
    const faults: Oracle
    const otherLinks: nat -> nat          // hard links of the base file from elsewhere, as time passes
    const linksKnown: bool
    var clock: nat
    var disk: Disk
    var lockHeld: bool
    var waitedOut: bool
    ghost var trace: seq<Disk>            // every state the disk has been in
    ghost var handedStale: bool            // a waiting node could have been handed a stale database

    /** Every state so far was crash safe. */
    ghost predicate Valid()
      reads this
    {
      && trace != [] && trace[|trace| - 1] == disk && disk.path in disk.paths
      && (forall i :: 0 <= i < |trace| ==> CrashSafe(existed, trace[i]))
    }

    constructor (existed: bool, faults: Oracle, otherLinks: nat -> nat, linksKnown: bool)
      ensures Valid() && disk == Initial(existed) && trace == [disk] && !lockHeld && !waitedOut && !handedStale && clock == 0
      ensures this.existed == existed && this.faults == faults
      ensures this.otherLinks == otherLinks && this.linksKnown == linksKnown
    {
      this.existed, this.faults, this.otherLinks, this.linksKnown := existed, faults, otherLinks, linksKnown;
      clock, disk, lockHeld, waitedOut, handedStale, trace := 0, Initial(existed), false, false, false, [Initial(existed)];
    }

    /** A reason for an error among the actions from number `from` up to number `to`. */
    ghost predicate TroubleIn(from: nat, to: nat) {
      exists i :: from <= i < to && (faults(i) || otherLinks(i) > 0)
    }

    lemma TroubleGrows(from: nat, start: nat, end: nat, to: nat)
      requires from <= start && end <= to
      ensures TroubleIn(start, end) || FaultIn(faults, start, end) ==> TroubleIn(from, to)
    {
    }

    /** The backup, copied from action number `c` on, becomes complete and synced. */
    ghost predicate Copies(c: nat) {
      !faults(c) && !faults(c + 1) && !faults(c + 2)
    }

    /** Creating, copying and renaming, from action number `c` on, succeeds at the first or the second rename. */
    ghost predicate Renames(c: nat) {
      !faults(c) && Copies(c + 1) && (!faults(c + 4) || !faults(c + 5))
    }

    /** The renamed file becomes durable, too. */
    ghost predicate Places(c: nat) {
      Renames(c) && !faults(if faults(c + 4) then c + 6 else c + 5)
    }

    /** The second descriptor is opened and, of an existing file, no other hard link is known. */
    ghost predicate Opens(c: nat) {
      !faults(c) && (existed ==> !faults(c + 1) && !(linksKnown && otherLinks(c + 1) > 0))
    }

    /** The number of actions that opening takes. */
    ghost function Opening(): nat { if existed then 2 else 1 }

    /** The replacement, begun at action number `c` with or without the lock, ends with everything durable. */
    ghost predicate Completes(locked: bool, c: nat) {
      if locked then Opens(c) && Places(c + Opening()) else Places(c)
    }

    method Fails() returns (b: bool)
      modifies this`clock
      ensures clock == old(clock) + 1 && b == faults(old(clock))
    {
      b := faults(clock);
      clock := clock + 1;
    }

    method Put(d: Disk)
      requires Valid() && CrashSafe(existed, d) && d.path in d.paths
      modifies this`disk, this`trace
      ensures Valid() && disk == d && trace == old(trace) + [d]
    {
      disk := d;
      trace := trace + [d];
    }

    /** Not named by the path any more, but a valid database that a node waiting for its lock would open. */
    ghost predicate Stale()
      reads this
    {
      disk.path != Base && disk.base.now != Cleared && !waitedOut
    }

    /** A node waiting for the lock gets it now. */
    method Unlock()
      modifies this`lockHeld, this`handedStale
      ensures !lockHeld && (handedStale <==> old(handedStale) || old(lockHeld && Stale()))
    {
      handedStale := handedStale || (lockHeld && Stale());
      lockHeld := false;
    }

    /** Taking the lock creates the file when there is none. */
    method LockTargetDatabase(lock: Lock)
      requires Valid() && disk == Initial(existed) && !lock.Busy? && !lockHeld
      modifies this
      ensures Valid() && waitedOut == old(waitedOut) && handedStale == old(handedStale)
      ensures clock == (if existed then old(clock) else old(clock) + 1) && old(trace) <= trace
      ensures lockHeld <==> lock.Taken?
      ensures existed ==> disk == Initial(existed)
      ensures disk.temp == File(Blank, {Blank})
      ensures !existed && lock.Taken? ==> disk.path == Base && disk.base == File(Placeholder, {Placeholder})
      ensures disk.path != Temp && disk.paths <= {Nothing, Base}
    {
      if !existed {
        var created := Fails();
        if lock.Taken? || created {
          Put(Linked(disk, Base));
        }
        if lock.Taken? {
          Put(disk.(base := Written(disk.base, Placeholder)));
          Put(disk.(base := Synced(disk.base)));
        }
      }
      lockHeld := lock.Taken?;
    }

    /** A snapshot of the source in a fresh file, synced. */
    method SnapshotDatabase() returns (ok: bool)
      requires Valid() && Temp !in disk.paths
      modifies this`clock, this`disk, this`trace
      ensures Valid() && clock >= old(clock) && old(trace) <= trace
      ensures disk == old(disk).(temp := disk.temp)
      ensures ok ==> disk.temp == File(Snapshot, {Snapshot})
      ensures ok <==> Copies(old(clock))
      ensures if ok then clock == old(clock) + 3 else FaultIn(faults, old(clock), clock)
    {
      var unopened := Fails();
      if unopened {
        return false;
      }
      Put(disk.(temp := Written(disk.temp, Partial)));
      var unwritten := Fails();
      if unwritten {
        return false;
      }
      Put(disk.(temp := Written(disk.temp, Snapshot)));
      var unsynced := Fails();
      if unsynced {
        return false;
      }
      Put(disk.(temp := Synced(disk.temp)));
      return true;
    }

    /** Clearing both meta pages of a file that nothing names any more, not even after a crash. */
    method InvalidateReplacedDatabase() returns (ok: bool)
      requires Valid() && Base !in disk.paths
      modifies this`clock, this`disk, this`trace
      ensures Valid() && clock >= old(clock) && old(trace) <= trace
      ensures disk == old(disk).(base := disk.base)
      ensures ok ==> disk.base == File(Cleared, {Cleared})
      ensures ok <==> linksKnown && otherLinks(old(clock)) == 0 && !faults(old(clock)) && !faults(old(clock) + 1)
      ensures !ok && linksKnown ==> TroubleIn(old(clock), clock)
      ensures otherLinks(old(clock)) > 0 || !linksKnown ==> disk == old(disk)
    {
      var links := otherLinks(clock);
      var unreadable := Fails();
      if unreadable || !linksKnown || links != 0 {
        return false;
      }
      Put(disk.(base := Written(disk.base, Cleared)));
      var unsynced := Fails();
      if unsynced {
        return false;
      }
      Put(disk.(base := Synced(disk.base)));
      return true;
    }

    /** Making the directory durable, then invalidating the unlinked file; without both, waiting. */
    method SyncAndInvalidate() returns (synced: bool)
      requires Valid() && disk.path != Base && lockHeld
      modifies this`clock, this`disk, this`trace, this`waitedOut
      ensures Valid() && clock >= old(clock) && old(trace) <= trace
      ensures disk.path == old(disk).path && disk.temp == old(disk).temp
      ensures disk.base.now == Cleared || waitedOut
      ensures synced <==> !faults(old(clock))
      ensures if synced then disk.paths == {disk.path} else disk == old(disk) && TroubleIn(old(clock), clock)
      ensures linksKnown && !TroubleIn(old(clock), clock) ==>
                disk.base == File(Cleared, {Cleared}) && waitedOut == old(waitedOut)
    {
      var unsynced := Fails();
      if unsynced {
        waitedOut := true;
        return false;
      }
      Put(DirectorySynced(disk));
      var invalidated := InvalidateReplacedDatabase();
      if !invalidated {
        waitedOut := true;
      }
      return true;
    }

    /** After the rename: durable, and the replaced file out of every node's reach if the lock was never given up. */
    method Settle() returns (synced: bool)
      requires Valid() && disk.path == Temp
      modifies this`clock, this`disk, this`trace, this`waitedOut
      ensures Valid() && clock >= old(clock) && old(trace) <= trace
      ensures disk.path == Temp && disk.temp == old(disk).temp
      ensures lockHeld ==> !Stale()
      ensures synced <==> !faults(old(clock))
      ensures if synced then disk.paths == {Temp} else TroubleIn(old(clock), clock)
      ensures lockHeld && linksKnown && !TroubleIn(old(clock), clock) ==>
                disk.base == File(Cleared, {Cleared}) && waitedOut == old(waitedOut)
    {
      if lockHeld {
        synced := SyncAndInvalidate();
        return;
      }
      var unsynced := Fails();
      if unsynced {
        return false;
      }
      Put(DirectorySynced(disk));
      return true;
    }

    /** Removing a placeholder after a failure, with the lock still held. */
    method RemovePlaceholder()
      requires Valid() && !existed && disk.path != Temp && disk.paths <= {Nothing, Base}
      modifies this`clock, this`disk, this`trace, this`waitedOut
      ensures Valid() && clock >= old(clock) && old(trace) <= trace && disk.path != Temp
      ensures lockHeld ==> !Stale()
      ensures disk.path == Base ==> faults(old(clock)) && clock == old(clock) + 1
    {
      var unremoved := Fails();
      if unremoved && disk.path == Base {
        return;
      }
      if disk.path == Base {
        Put(Linked(disk, Nothing));
      }
      if lockHeld {
        var synced := SyncAndInvalidate();
      }
    }

    /** The whole replacement. */
    method Replace(same: bool, consent: bool, lock: Lock) returns (r: Outcome)
      requires Valid() && disk == Initial(existed) && !lockHeld && !waitedOut
      modifies this
      ensures Valid() && !lockHeld && old(trace) <= trace && handedStale == old(handedStale)
      ensures r.Aborted? <==> existed && !same && !faults(old(clock)) && !consent
      ensures (existed && (same || !consent)) || lock.Busy? ==> !r.Restored? && disk == old(disk) && trace == old(trace)
      ensures r.Restored? ==> disk.path == Temp && disk.paths == {Temp} && disk.temp == File(Snapshot, {Snapshot})
      ensures disk.path != Temp && existed ==> disk.path == Base && disk.base == File(Old, {Old})
      ensures r.Restored? <==>
                && (existed ==> !same && consent && !faults(old(clock)) && !faults(old(clock) + 1))
                && (!existed ==> !faults(old(clock)))
                && !lock.Busy? && Completes(lock.Taken?, old(clock) + 2)
      ensures r.Error? ==> (existed && same) || lock.Busy? || TroubleIn(old(clock), clock)
      ensures r.Restored? && lock.Taken? && linksKnown && !TroubleIn(old(clock), clock) ==> disk.base == File(Cleared, {Cleared}) && !waitedOut
    {
      hide CrashSafe;
      if existed {
        if same {
          return Error;
        }
        var unasked := Fails();
        if unasked {
          return Error;
        }
        if !consent {
          return Aborted;
        }
      }
      var unready := Fails();                    // an unreadable source, or no target directory
      if unready || lock.Busy? {
        return Error;
      }
      LockTargetDatabase(lock);
      r := ReplaceUnderLock();
    }

    /** The replacement once the lock was taken, or found impossible to take. */
    method ReplaceUnderLock() returns (r: Outcome)
      requires Valid() && disk.path != Temp && disk.paths <= {Nothing, Base} && disk.temp.possible <= {Blank}
      requires existed ==> disk == Initial(existed)
      requires lockHeld ==> disk.path == Base
      modifies this
      ensures Valid() && !lockHeld && clock >= old(clock) && old(trace) <= trace && !r.Aborted?
      ensures handedStale == old(handedStale)
      ensures r.Restored? ==> disk.path == Temp && disk.paths == {Temp} && disk.temp == File(Snapshot, {Snapshot})
      ensures disk.path != Temp && existed ==> disk.path == Base && disk.base == File(Old, {Old})
      ensures r.Error? ==> TroubleIn(old(clock), clock)
      ensures r.Restored? <==> Completes(old(lockHeld), old(clock))
      ensures r.Restored? && old(lockHeld) && linksKnown && !TroubleIn(old(clock), clock) ==>
                disk.base == File(Cleared, {Cleared}) && waitedOut == old(waitedOut)
      ensures old(lockHeld) && !Opens(old(clock)) ==> disk == old(disk) && trace == old(trace)
      ensures !existed && disk.path == Base ==> (old(lockHeld) && faults(old(clock))) || TwoFaultsIn(faults, old(clock), clock)
    {
      hide CrashSafe, Opens, Places, TwoFaultsIn, FaultIn, TroubleIn;
      if lockHeld {
        var reached := OpenForInvalidation();
        if !reached {
          Unlock();
          return Error;
        }
      }
      ghost var start := clock;
      r := Place();
      TroubleGrows(old(clock), start, clock, clock);
      FaultAfterFault(faults, old(clock), start, clock, clock);
    }

    /** From the copy to the durable rename, or the removal of a placeholder. */
    method Place() returns (r: Outcome)
      requires Valid() && disk.path != Temp && disk.paths <= {Nothing, Base} && disk.temp.possible <= {Blank}
      requires existed ==> disk == Initial(existed)
      requires lockHeld ==> disk.path == Base
      modifies this
      ensures Valid() && !lockHeld && clock >= old(clock) && old(trace) <= trace && !r.Aborted?
      ensures handedStale == old(handedStale)
      ensures r.Restored? ==> disk.path == Temp && disk.paths == {Temp} && disk.temp == File(Snapshot, {Snapshot})
      ensures disk.path != Temp && existed ==> disk.path == Base && disk.base == File(Old, {Old})
      ensures r.Error? ==> TroubleIn(old(clock), clock)
      ensures r.Restored? <==> Places(old(clock))
      ensures r.Restored? && old(lockHeld) && linksKnown && !TroubleIn(old(clock), clock) ==>
                disk.base == File(Cleared, {Cleared}) && waitedOut == old(waitedOut)
      ensures !existed && disk.path == Base ==> TwoFaultsIn(faults, old(clock), clock)
    {
      hide CrashSafe, Renames, TwoFaultsIn, FaultIn, TroubleIn;
      var renamed, released := CopyAndRename();
      ghost var middle := clock;
      if !renamed {
        if !existed && !released {
          RemovePlaceholder();
        }
        FaultAfterFault(faults, old(clock), old(clock), middle, clock);
        TroubleGrows(old(clock), old(clock), middle, clock);
        Unlock();
        return Error;
      }
      var synced := Settle();
      TroubleGrows(old(clock), old(clock), middle, clock);
      TroubleGrows(old(clock), middle, clock, clock);
      Unlock();
      return if synced then Restored else Error;
    }

    /** The second descriptor, and the refusal of a file that is reachable through another hard link. */
    method OpenForInvalidation() returns (ok: bool)
      modifies this`clock
      ensures ok <==> Opens(old(clock))
      ensures if ok then clock == old(clock) + Opening() else TroubleIn(old(clock), clock)
      ensures clock > old(clock) && (!ok && !existed ==> faults(old(clock)))
    {
      var unopened := Fails();
      if unopened {
        return false;
      }
      if existed {
        var links := otherLinks(clock);
        var unknown := Fails();
        if unknown || (linksKnown && links > 0) {
          return false;
        }
      }
      return true;
    }

    /** The copy and the rename, once more after releasing the lock if the first rename is refused. */
    method CopyAndRename() returns (renamed: bool, released: bool)
      requires Valid() && disk.paths <= {Nothing, Base} && disk.path != Temp && disk.temp.possible <= {Blank}
      requires lockHeld ==> disk.path == Base
      modifies this`clock, this`disk, this`trace, this`lockHeld, this`handedStale
      ensures Valid() && clock >= old(clock) && old(trace) <= trace && disk.base == old(disk).base
      ensures handedStale == old(handedStale)
      ensures renamed ==> disk.path == Temp && disk.temp == File(Snapshot, {Snapshot})
      ensures renamed <==> Renames(old(clock))
      ensures !renamed ==> disk.path == old(disk).path && disk.paths == old(disk).paths && FaultIn(faults, old(clock), clock)
      ensures released ==> FaultIn(faults, old(clock), clock)
      ensures !renamed && released ==> TwoFaultsIn(faults, old(clock), clock)
      ensures renamed ==> clock == old(clock) + (if released then 6 else 5) && (released <==> faults(old(clock) + 4))
      ensures lockHeld == (old(lockHeld) && !released)
    {
      var uncreated := Fails();
      if uncreated {
        return false, false;
      }
      var copied := SnapshotDatabase();
      if !copied {
        return false, false;
      }
      released := Fails();
      if released {
        Unlock();
        var refused := Fails();
        if refused {
          return false, true;
        }
      }
      Put(Linked(disk, Temp));
      return true, released;
    }
  }
}

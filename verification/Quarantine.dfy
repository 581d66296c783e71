/** What the locked regions around the initial-sync cache do to its maps. */
module InitSyncMaps {
  import opened Options
  type Root = nat

  /** A block is named by its root; its other contents follow from the root. */
  datatype Block = Block(root: Root)

  type Blocks = map<Root, Block>
  type Pending = map<Root, Option<Block>>

  function Lookup(blocks: Blocks, r: Root): Option<Block> {
    if r in blocks then Some(blocks[r]) else None
  }

  lemma LookupAfterCaching(db: Blocks, cache: Blocks, r: Root)
    ensures Lookup(db + cache[r := Block(r)], r) == Some(Block(r))
    ensures forall k :: k != r ==> Lookup(db + cache[r := Block(r)], k) == Lookup(db + cache, k)
  {
  }

  function Elements(roots: seq<Root>): set<Root> { set r | r in roots }

  lemma ElementsExtend(roots: seq<Root>, i: nat)
    requires i < |roots|
    ensures Elements(roots[..i + 1]) == Elements(roots[..i]) + {roots[i]}
  {
    assert roots[..i + 1] == roots[..i] + [roots[i]];
  }

  /**
   * The quarantine after `roots` are invalidated: old entries stay as they
   * are, new ones keep the copy the cache had, if any.
   */
  function Quarantined(pending: Pending, cache: Blocks, roots: set<Root>): Pending {
    map r | r in pending.Keys + roots :: if r in pending then pending[r] else Lookup(cache, r)
  }
}

/**
 * The quarantine, the initial-sync cache, the database and the imports, with
 * every locked region as one step. `initSyncBlocksSaveLock` is held by a flush
 * from its snapshot to its eviction and by a cleanup from `Cleaning` on; the
 * forkchoice lock is held by one importer or by one other goroutine.
 */
module Quarantine {
  import opened Options
  import opened InitSyncMaps

  type Pid = nat

  datatype Flush =
    | NoFlush
    | Snapshotted(snapshot: Blocks, clear: bool)
    | Written(roots: set<Root>)

  datatype Cleanup =
    | NoCleanup
    | WaitingForSave(todo: set<Root>)
    | Cleaning(todo: set<Root>)
    | Deleted(root: Root, todo: set<Root>)
    | Releasing(root: Root, todo: set<Root>)

  /** The stages of ReceiveBlock; it holds the forkchoice lock from Locked until it is Leaving, and is then still registered. */
  datatype Import =
    | Checked(root: Root, parent: Root)
    | Registered(root: Root, parent: Root)
    | Locked(root: Root, parent: Root)
    | Rechecked(root: Root, parent: Root)
    | Saved(root: Root, parent: Root)
    | Inserted(root: Root, parent: Root)
    | Leaving(root: Root, parent: Root)

  datatype Holder = Importer(p: Pid) | Other

  datatype State = State(
    cache: Blocks,
    pending: Pending,
    db: Blocks,
    syncing: set<Root>,
    flush: Flush,
    cleanup: Cleanup,
    fc: Option<Holder>,
    imports: map<Pid, Import>,
    accepted: set<Root>,  // roots accepted by saveInitSyncBlock, not since quarantined or rolled back
    caught: set<Pid>)     // imports whose root was quarantined between registration and recheck

  datatype Event =
    | SaveInitSyncBlock(r: Root)
    | FlushSnapshot(clear: bool)
    | FlushWrite(ok: bool, written: set<Root>)
    | FlushEvict
    | FcAcquire
    | FcRelease
    | QuarantineRoots(roots: set<Root>)
    | CleanupStart
    | CleanupLock
    | CleanupStop
    | DeleteFail(r: Root, gone: bool)
    | DeleteOk(r: Root)
    | CheckSyncing
    | Release
    | Check(p: Pid, r: Root, parent: Root)
    | Register(p: Pid)
    | Abandon(p: Pid)
    | LockForkchoice(p: Pid)
    | RecheckOk(p: Pid)
    | SaveBlock(p: Pid)
    | Rollback(p: Pid, gone: bool)
    | Insert(p: Pid)
    | Finish(p: Pid)
    | Unset(p: Pid)

  predicate CleanerHasSaveLock(s: State) { s.cleanup.Cleaning? || s.cleanup.Deleted? || s.cleanup.Releasing? }

  predicate SaveLockFree(s: State) { s.flush == NoFlush && !CleanerHasSaveLock(s) }

  predicate HoldsForkchoice(i: Import) { i.Locked? || i.Rechecked? || i.Saved? || i.Inserted? }

  /** The import of `r` by `p` is past its registration and before its locked recheck. */
  predicate InFlight(s: State, p: Pid, r: Root) {
    p in s.imports && (s.imports[p].Registered? || s.imports[p].Locked?) && s.imports[p].root == r
  }

  /** The deferred calls of ReceiveBlock run in two steps: unlocking forkchoice, then unregistering the root. */
  function Unlocked(s: State, p: Pid): State
    requires p in s.imports
  {
    At(s, p, Leaving(s.imports[p].root, s.imports[p].parent)).(caught := s.caught - {p}, fc := None)
  }

  function Without(s: State, p: Pid): State
    requires p in s.imports
  {
    s.(imports := s.imports - {p}, caught := s.caught - {p}, syncing := s.syncing - {s.imports[p].root})
  }

  function At(s: State, p: Pid, i: Import): State { s.(imports := s.imports[p := i]) }

  /** The cache and its flushes; these need neither the forkchoice lock nor a registration. */
  ghost predicate CacheStep(s: State, e: Event, s': State) {
    match e
    case SaveInitSyncBlock(r) =>
      s' == if r in s.pending then s else s.(cache := s.cache[r := Block(r)], accepted := s.accepted + {r})
    case FlushSnapshot(clear) =>
      SaveLockFree(s) && s' == s.(flush := Snapshotted(s.cache, clear))
    case FlushWrite(ok, written) =>
      // a failed write leaves the whole snapshot cached, whatever reached the database
      && s.flush.Snapshotted? && written <= s.flush.snapshot.Keys && (ok ==> written == s.flush.snapshot.Keys)
      && s' == s.(db := s.db + (map r | r in written :: s.flush.snapshot[r]),
                  flush := if ok && s.flush.clear then Written(written) else NoFlush)
    case FlushEvict =>
      s.flush.Written? && s' == s.(cache := s.cache - s.flush.roots, flush := NoFlush)
    case _ => false
  }

  /** Quarantine and cleanup, under the forkchoice lock. */
  ghost predicate CleanupStep(s: State, e: Event, s': State) {
    match e
    case FcAcquire =>
      s.fc == None && s' == s.(fc := Some(Other))
    case FcRelease =>
      s.fc == Some(Other) && s.cleanup == NoCleanup && s' == s.(fc := None)
    case QuarantineRoots(roots) =>
      && s.fc != None && s.cleanup == NoCleanup
      && s' == s.(pending := Quarantined(s.pending, s.cache, roots), cache := s.cache - roots,
                  accepted := s.accepted - roots,
                  caught := s.caught + set p | p in s.imports && s.imports[p].root in roots && InFlight(s, p, s.imports[p].root))
    case CleanupStart =>
      s.fc != None && s.cleanup == NoCleanup && s.pending.Keys != {} && s' == s.(cleanup := WaitingForSave(s.pending.Keys))
    case CleanupLock =>
      s.cleanup.WaitingForSave? && SaveLockFree(s) && s' == s.(cleanup := Cleaning(s.cleanup.todo))
    case CleanupStop =>
      // all roots done, a cancelled context, or head ancestry that could not be preserved
      s.cleanup.Cleaning? && s' == s.(cleanup := NoCleanup)
    case DeleteFail(r, gone) =>
      && s.cleanup.Cleaning? && r in s.cleanup.todo
      && s' == s.(cleanup := Cleaning(s.cleanup.todo - {r}), db := if gone then s.db - {r} else s.db)
    case DeleteOk(r) =>
      && s.cleanup.Cleaning? && r in s.cleanup.todo
      && s' == s.(cleanup := Deleted(r, s.cleanup.todo - {r}), db := s.db - {r})
    case CheckSyncing =>
      && s.cleanup.Deleted?
      && s' == s.(cleanup := if s.cleanup.root in s.syncing then Cleaning(s.cleanup.todo)
                             else Releasing(s.cleanup.root, s.cleanup.todo))
    case Release =>
      s.cleanup.Releasing? && s' == s.(cleanup := Cleaning(s.cleanup.todo), pending := s.pending - {s.cleanup.root})
    case _ => false
  }

  /** ReceiveBlock. */
  ghost predicate ImportStep(s: State, e: Event, s': State) {
    match e
    case Check(p, r, parent) =>
      p !in s.imports && r !in s.pending && s' == At(s, p, Checked(r, parent))
    case Register(p) =>
      && p in s.imports && s.imports[p].Checked?
      && var i := s.imports[p];
         s' == if i.root in s.syncing then s.(imports := s.imports - {p})
               else At(s, p, Registered(i.root, i.parent)).(syncing := s.syncing + {i.root})
    case Abandon(p) =>
      // an error before the lock, or the locked recheck finding the block or its parent quarantined
      && p in s.imports
      && (|| (s.imports[p].Registered? && s' == Without(s, p))
          || (s.imports[p].Locked? && s.cleanup == NoCleanup && (s.imports[p].root in s.pending || s.imports[p].parent in s.pending)
              && s' == Unlocked(s, p)))
    case LockForkchoice(p) =>
      && p in s.imports && s.imports[p].Registered? && s.fc == None
      && s' == At(s, p, Locked(s.imports[p].root, s.imports[p].parent)).(fc := Some(Importer(p)))
    case RecheckOk(p) =>
      && p in s.imports && s.imports[p].Locked? && s.cleanup == NoCleanup
      && s.imports[p].root !in s.pending && s.imports[p].parent !in s.pending
      && s' == At(s, p, Rechecked(s.imports[p].root, s.imports[p].parent))
    case SaveBlock(p) =>
      && p in s.imports && s.imports[p].Rechecked? && s.cleanup == NoCleanup
      && var r := s.imports[p].root;
         s' == At(s, p, Saved(r, s.imports[p].parent)).(db := s.db[r := Block(r)])
    case Rollback(p, gone) =>
      // the state could not be saved or the node not inserted; the deletion itself may fail
      && p in s.imports && s.imports[p].Saved? && s.cleanup == NoCleanup
      && var r := s.imports[p].root;
         s' == Unlocked(s, p).(db := if gone then s.db - {r} else s.db, accepted := s.accepted - {r})
    case Insert(p) =>
      && p in s.imports && s.imports[p].Saved? && s.cleanup == NoCleanup
      && s' == At(s, p, Inserted(s.imports[p].root, s.imports[p].parent))
    case Finish(p) =>
      && p in s.imports && (s.imports[p].Rechecked? || s.imports[p].Inserted?) && s.cleanup == NoCleanup
      && s' == Unlocked(s, p)
    case Unset(p) =>
      p in s.imports && s.imports[p].Leaving? && s' == Without(s, p)
    case _ => false
  }

  ghost predicate Step(s: State, e: Event, s': State) {
    CacheStep(s, e, s') || CleanupStep(s, e, s') || ImportStep(s, e, s')
  }

  ghost predicate Init(s: State) {
    && s.cache == map[] && s.pending == map[] && s.syncing == {} && s.flush == NoFlush && s.cleanup == NoCleanup
    && s.fc == None && s.imports == map[] && s.accepted == {} && s.caught == {}
    && forall r :: r in s.db ==> s.db[r] == Block(r)
  }

  ghost predicate Run(states: seq<State>, events: seq<Event>) {
    && |states| == |events| + 1 && Init(states[0])
    && forall i :: 0 <= i < |events| ==> Step(states[i], events[i], states[i + 1])
  }

  // ----- the invariant -----

  ghost predicate Faithful(blocks: Blocks) {
    forall r :: r in blocks ==> blocks[r] == Block(r)
  }

  ghost predicate MapsSane(s: State) {
    && s.pending.Keys !! s.cache.Keys
    && Faithful(s.cache) && Faithful(s.db)
    && (s.flush.Snapshotted? ==> Faithful(s.flush.snapshot))
  }

  ghost predicate LocksSane(s: State) {
    && (CleanerHasSaveLock(s) ==> s.flush == NoFlush)
    && (s.cleanup != NoCleanup ==> s.fc != None)
    && (forall p :: p in s.imports ==> (HoldsForkchoice(s.imports[p]) <==> s.fc == Some(Importer(p))))
    && (s.fc.Some? && s.fc.value.Importer? ==> s.fc.value.p in s.imports)
  }

  ghost predicate CleanupSane(s: State) {
    && (s.cleanup != NoCleanup ==> s.cleanup.todo <= s.pending.Keys)
    && (s.cleanup.Deleted? || s.cleanup.Releasing? ==>
          s.cleanup.root in s.pending && s.cleanup.root !in s.db && s.cleanup.root !in s.cleanup.todo)
  }

  /** `p` is importing `r`: registered and not gone. */
  predicate Importing(s: State, p: Pid, r: Root) {
    p in s.imports && !s.imports[p].Checked? && s.imports[p].root == r
  }

  ghost predicate RegistrationsSane(s: State) {
    && (forall p :: p in s.imports && !s.imports[p].Checked? ==> s.imports[p].root in s.syncing)
    && (forall p, q :: p in s.imports && q in s.imports && !s.imports[p].Checked? && !s.imports[q].Checked? ==>
          s.imports[p].root == s.imports[q].root ==> p == q)
  }

  ghost predicate SyncingBacked(s: State) {
    forall r :: r in s.syncing ==> exists p :: Importing(s, p, r)
  }

  ghost predicate CaughtSane(s: State) {
    && (forall p :: p in s.caught ==> p in s.imports && InFlight(s, p, s.imports[p].root) && s.imports[p].root in s.pending)
    && (s.cleanup.Releasing? ==> forall p :: p in s.caught ==> p in s.imports && s.imports[p].root != s.cleanup.root)
  }

  ghost predicate Inv(s: State) {
    MapsSane(s) && LocksSane(s) && CleanupSane(s) && RegistrationsSane(s) && SyncingBacked(s) && CaughtSane(s)
  }

  lemma MapsKeptByCache(s: State, e: Event, s': State)
    requires Inv(s) && CacheStep(s, e, s')
    ensures MapsSane(s')
  {
  }

  lemma MapsKeptByCleanup(s: State, e: Event, s': State)
    requires Inv(s) && CleanupStep(s, e, s')
    ensures MapsSane(s')
  {
  }

  lemma MapsKeptByImport(s: State, e: Event, s': State)
    requires Inv(s) && ImportStep(s, e, s')
    ensures MapsSane(s')
  {
  }

  lemma LocksKeptByCache(s: State, e: Event, s': State)
    requires LocksSane(s) && CacheStep(s, e, s')
    ensures LocksSane(s')
  {
  }

  lemma LocksKeptByCleanup(s: State, e: Event, s': State)
    requires LocksSane(s) && CleanupStep(s, e, s')
    ensures LocksSane(s')
  {
  }

  lemma LocksKeptByImport(s: State, e: Event, s': State)
    requires LocksSane(s) && ImportStep(s, e, s')
    ensures LocksSane(s')
  {
  }

  lemma CleanupKeptByCache(s: State, e: Event, s': State)
    requires Inv(s) && CacheStep(s, e, s')
    ensures CleanupSane(s')
  {
  }

  lemma CleanupKeptByCleanup(s: State, e: Event, s': State)
    requires Inv(s) && CleanupStep(s, e, s')
    ensures CleanupSane(s')
  {
  }

  lemma CleanupKeptByImport(s: State, e: Event, s': State)
    requires Inv(s) && ImportStep(s, e, s')
    ensures CleanupSane(s')
  {
  }

  lemma RegistrationsKeptByCache(s: State, e: Event, s': State)
    requires RegistrationsSane(s) && CacheStep(s, e, s')
    ensures RegistrationsSane(s')
  {
  }

  lemma RegistrationsKeptByCleanup(s: State, e: Event, s': State)
    requires RegistrationsSane(s) && CleanupStep(s, e, s')
    ensures RegistrationsSane(s')
  {
  }

  lemma RegistrationsKeptByImport(s: State, e: Event, s': State)
    requires RegistrationsSane(s) && ImportStep(s, e, s')
    ensures RegistrationsSane(s')
  {
    ImportHasActor(s, e, s');
  }

  predicate HasActor(e: Event) {
    e.Check? || e.Register? || e.Abandon? || e.LockForkchoice? || e.RecheckOk? || e.SaveBlock? || e.Rollback? || e.Insert? || e.Finish? || e.Unset?
  }

  lemma ImportHasActor(s: State, e: Event, s': State)
    requires ImportStep(s, e, s')
    ensures HasActor(e)
  {
  }

  /** An import step touches no other import. */
  lemma ImportFrame(s: State, e: Event, s': State, q: Pid)
    requires ImportStep(s, e, s') && HasActor(e) && q != e.p
    ensures q in s'.imports <==> q in s.imports
    ensures q in s.imports ==> s'.imports[q] == s.imports[q]
    ensures q in s'.caught <==> q in s.caught
  {
  }

  lemma OthersFrame(s: State, e: Event, s': State)
    requires CacheStep(s, e, s') || CleanupStep(s, e, s')
    ensures s'.imports == s.imports && s'.syncing == s.syncing && s.caught <= s'.caught
  {
  }

  /** What an import step does to the registrations. */
  lemma ActorRegisters(s: State, e: Event, s': State, r: Root)
    requires ImportStep(s, e, s') && HasActor(e)
    ensures r in s'.syncing && r !in s.syncing ==> Importing(s', e.p, r)
    ensures r in s'.syncing && Importing(s, e.p, r) ==> Importing(s', e.p, r)
  {
  }

  lemma SyncingBackedByStep(s: State, e: Event, s': State)
    requires SyncingBacked(s) && Step(s, e, s')
    ensures SyncingBacked(s')
  {
    hide CacheStep, CleanupStep, ImportStep;
    if CacheStep(s, e, s') || CleanupStep(s, e, s') {
      OthersFrame(s, e, s');
      assert forall p, r :: Importing(s, p, r) ==> Importing(s', p, r);
    } else {
      ImportHasActor(s, e, s');
      forall r | r in s'.syncing
        ensures exists p :: Importing(s', p, r)
      {
        ActorRegisters(s, e, s', r);
        if r in s.syncing {
          var q :| Importing(s, q, r);
          if q != e.p {
            ImportFrame(s, e, s', q);
          }
          assert Importing(s', q, r);
        }
      }
    }
  }

  lemma CaughtKeptByCache(s: State, e: Event, s': State)
    requires RegistrationsSane(s) && CaughtSane(s) && CacheStep(s, e, s')
    ensures CaughtSane(s')
  {
  }

  lemma CaughtKeptByCleanup(s: State, e: Event, s': State)
    requires RegistrationsSane(s) && CaughtSane(s) && CleanupStep(s, e, s')
    ensures CaughtSane(s')
  {
  }

  lemma CaughtKeptByImport(s: State, e: Event, s': State)
    requires RegistrationsSane(s) && CaughtSane(s) && ImportStep(s, e, s')
    ensures CaughtSane(s')
  {
  }

  lemma StepKeeps(s: State, e: Event, s': State)
    requires Inv(s) && Step(s, e, s')
    ensures Inv(s')
  {
    hide CacheStep, CleanupStep, ImportStep, MapsSane, LocksSane, CleanupSane, RegistrationsSane, SyncingBacked, CaughtSane;
    SyncingBackedByStep(s, e, s');
    if CacheStep(s, e, s') {
      MapsKeptByCache(s, e, s'); LocksKeptByCache(s, e, s'); CleanupKeptByCache(s, e, s');
      RegistrationsKeptByCache(s, e, s'); CaughtKeptByCache(s, e, s');
    } else if CleanupStep(s, e, s') {
      MapsKeptByCleanup(s, e, s'); LocksKeptByCleanup(s, e, s'); CleanupKeptByCleanup(s, e, s');
      RegistrationsKeptByCleanup(s, e, s'); CaughtKeptByCleanup(s, e, s');
    } else {
      MapsKeptByImport(s, e, s'); LocksKeptByImport(s, e, s'); CleanupKeptByImport(s, e, s');
      RegistrationsKeptByImport(s, e, s'); CaughtKeptByImport(s, e, s');
    }
  }

  lemma {:induction false} RunKeeps(states: seq<State>, events: seq<Event>, n: nat)
    requires Run(states, events) && n < |states|
    ensures Inv(states[n])
    decreases n
  {
    hide Step;
    if n > 0 {
      RunKeeps(states, events, n - 1);
      var s, e, s' := states[n - 1], events[n - 1], states[n];
      assert Step(s, e, states[n - 1 + 1]);
      StepKeeps(s, e, s');
    }
  }

  // ----- what follows for every run -----

  /** `r` is nowhere a lookup or a later write could take it from. */
  ghost predicate Absent(s: State, r: Root) {
    r !in s.db && r !in s.cache && (s.flush.Snapshotted? ==> r !in s.flush.snapshot)
  }

  /** Quarantined roots are never in the cache, so no lookup serves them and no later snapshot contains them. */
  lemma {:induction false} QuarantineAndCacheDisjoint(states: seq<State>, events: seq<Event>, n: nat)
    requires Run(states, events) && n < |states|
    ensures states[n].pending.Keys !! states[n].cache.Keys
  {
    RunKeeps(states, events, n);
  }

  /** The root a Release lets go is at that moment in no store and no snapshot. */
  lemma {:induction false} ReleasedRootIsAbsent(states: seq<State>, events: seq<Event>, n: nat)
    requires Run(states, events) && n < |events| && events[n] == Release
    ensures states[n].cleanup.Releasing?
    ensures states[n].cleanup.root in states[n].pending && states[n].cleanup.root !in states[n + 1].pending
    ensures Absent(states[n + 1], states[n].cleanup.root)
  {
    RunKeeps(states, events, n);
    assert Step(states[n], events[n], states[n + 1]);
  }

  ghost predicate Brings(s: State, e: Event, r: Root) {
    e == SaveInitSyncBlock(r) || (e.SaveBlock? && e.p in s.imports && s.imports[e.p].root == r)
  }

  lemma AbsentAfterCache(s: State, e: Event, s': State, r: Root)
    requires CacheStep(s, e, s') && Absent(s, r) && !Brings(s, e, r)
    ensures Absent(s', r)
  {
  }

  lemma AbsentAfterCleanup(s: State, e: Event, s': State, r: Root)
    requires CleanupStep(s, e, s') && Absent(s, r)
    ensures Absent(s', r)
  {
  }

  lemma AbsentAfterImport(s: State, e: Event, s': State, r: Root)
    requires ImportStep(s, e, s') && Absent(s, r) && !Brings(s, e, r)
    ensures Absent(s', r)
  {
  }

  lemma AbsentUnlessBrought(s: State, e: Event, s': State, r: Root)
    requires Step(s, e, s') && Absent(s, r) && !Brings(s, e, r)
    ensures Absent(s', r)
  {
    hide CacheStep, CleanupStep, ImportStep, Absent, Brings;
    if CacheStep(s, e, s') { AbsentAfterCache(s, e, s', r); }
    else if CleanupStep(s, e, s') { AbsentAfterCleanup(s, e, s', r); }
    else { AbsentAfterImport(s, e, s', r); }
  }

  /**
   * No older flush resurrects a released root: if it is stored again at a later
   * state, a new import saved it after the release.
   */
  lemma {:induction false} NoResurrection(states: seq<State>, events: seq<Event>, n: nat, m: nat)
    requires Run(states, events) && n < m < |states| && events[n] == Release
    requires states[n].cleanup.Releasing?
    requires forall k :: n < k < m ==> !Brings(states[k], events[k], states[n].cleanup.root)
    ensures Absent(states[m], states[n].cleanup.root)
    decreases m
  {
    hide Step, Absent, Brings;
    if m == n + 1 {
      ReleasedRootIsAbsent(states, events, n);
    } else {
      NoResurrection(states, events, n, m - 1);
      assert Step(states[m - 1], events[m - 1], states[m - 1 + 1]);
      AbsentUnlessBrought(states[m - 1], events[m - 1], states[m], states[n].cleanup.root);
    }
  }

  /** While an import stays between registration and recheck it stays caught. */
  lemma {:induction false} StaysCaught(states: seq<State>, events: seq<Event>, k: nat, m: nat, p: Pid, r: Root)
    requires Run(states, events) && k < m < |states|
    requires events[k].QuarantineRoots? && r in events[k].roots
    requires forall j :: k <= j <= m ==> InFlight(states[j], p, r)
    requires forall j :: k <= j < m ==> events[j] != Abandon(p)
    ensures p in states[m].caught
    decreases m
  {
    assert Step(states[m - 1], events[m - 1], states[m - 1 + 1]);
    assert InFlight(states[m - 1], p, r) && InFlight(states[m], p, r);
    if m > k + 1 {
      StaysCaught(states, events, k, m - 1, p, r);
    }
  }

  /**
   * A root quarantined after an import of it has registered, and before that
   * import's locked recheck, is still quarantined at the recheck: the recheck
   * does not pass, so the block is neither saved nor inserted.
   */
  lemma {:induction false} QuarantineStopsInFlightImport(states: seq<State>, events: seq<Event>, k: nat, m: nat, p: Pid, r: Root)
    requires Run(states, events) && k < m < |events|
    requires events[k].QuarantineRoots? && r in events[k].roots
    requires forall j :: k <= j <= m ==> InFlight(states[j], p, r)
    requires forall j :: k <= j < m ==> events[j] != Abandon(p)
    ensures r in states[m].pending
    ensures events[m] != RecheckOk(p)
  {
    StaysCaught(states, events, k, m, p, r);
    RunKeeps(states, events, m);
    assert Step(states[m], events[m], states[m + 1]);
  }

  ghost predicate PastRecheck(s: State, p: Pid) {
    p in s.imports && (s.imports[p].Rechecked? || s.imports[p].Saved? || s.imports[p].Inserted?)
  }

  lemma OnlyRecheckPasses(s: State, e: Event, s': State, p: Pid)
    requires Step(s, e, s') && PastRecheck(s', p) && e != RecheckOk(p)
    ensures PastRecheck(s, p)
  {
    hide CacheStep, CleanupStep, ImportStep;
    if CacheStep(s, e, s') || CleanupStep(s, e, s') {
      OthersFrame(s, e, s');
    } else {
      ImportHasActor(s, e, s');
      if e.p != p {
        ImportFrame(s, e, s', p);
      } else {
        ActorPasses(s, e, s');
      }
    }
  }

  lemma ActorPasses(s: State, e: Event, s': State)
    requires ImportStep(s, e, s') && HasActor(e) && PastRecheck(s', e.p) && !e.RecheckOk?
    ensures PastRecheck(s, e.p)
  {
  }

  /** At event `k` the import's recheck found neither its root nor its parent quarantined. */
  ghost predicate PassedAt(states: seq<State>, events: seq<Event>, p: Pid, k: nat)
    requires k < |events| && k < |states|
  {
    && events[k] == RecheckOk(p) && p in states[k].imports
    && states[k].imports[p].root !in states[k].pending && states[k].imports[p].parent !in states[k].pending
  }

  lemma {:induction false} RecheckFindsNone(states: seq<State>, events: seq<Event>, p: Pid, k: nat)
    requires Run(states, events) && k < |events| && events[k] == RecheckOk(p)
    ensures PassedAt(states, events, p, k)
  {
    assert Step(states[k], events[k], states[k + 1]);
  }

  /** An import saves or inserts only after its own locked recheck, past which it has been ever since. */
  lemma {:induction false} SavingNeedsRecheck(states: seq<State>, events: seq<Event>, n: nat, p: Pid)
    requires Run(states, events) && n < |states| && PastRecheck(states[n], p)
    ensures exists k :: 0 <= k < n && PassedAt(states, events, p, k) && forall j :: k < j <= n ==> PastRecheck(states[j], p)
    decreases n
  {
    hide Step, PastRecheck, PassedAt;
    if n == 0 {
      NothingImporting(states, events, p);
    } else {
      assert Step(states[n - 1], events[n - 1], states[n - 1 + 1]);
      if events[n - 1] == RecheckOk(p) {
        RecheckFindsNone(states, events, p, n - 1);
        assert forall j :: n - 1 < j <= n ==> PastRecheck(states[j], p);
      } else {
        OnlyRecheckPasses(states[n - 1], events[n - 1], states[n], p);
        SavingNeedsRecheck(states, events, n - 1, p);
        var k :| 0 <= k < n - 1 && PassedAt(states, events, p, k) && forall j :: k < j <= n - 1 ==> PastRecheck(states[j], p);
        assert forall j :: k < j <= n ==> PastRecheck(states[j], p);
      }
    }
  }

  lemma {:induction false} NothingImporting(states: seq<State>, events: seq<Event>, p: Pid)
    requires Run(states, events)
    ensures !PastRecheck(states[0], p)
  {
  }

  ghost predicate CaughtOrLeaving(s: State, p: Pid) {
    p in s.imports && (p in s.caught || s.imports[p].Leaving?)
  }

  lemma CaughtStaysOut(s: State, e: Event, s': State, p: Pid)
    requires Inv(s) && Step(s, e, s') && CaughtOrLeaving(s, p) && p in s'.imports
    ensures CaughtOrLeaving(s', p)
  {
    hide CacheStep, CleanupStep, ImportStep, MapsSane, LocksSane, CleanupSane, RegistrationsSane, SyncingBacked;
    if CacheStep(s, e, s') || CleanupStep(s, e, s') {
      OthersFrame(s, e, s');
    } else {
      ImportHasActor(s, e, s');
      if e.p != p {
        ImportFrame(s, e, s', p);
      } else {
        CaughtActor(s, e, s');
      }
    }
  }

  lemma CaughtActor(s: State, e: Event, s': State)
    requires CaughtSane(s) && ImportStep(s, e, s') && HasActor(e) && CaughtOrLeaving(s, e.p) && e.p in s'.imports
    ensures CaughtOrLeaving(s', e.p)
  {
  }

  /**
   * An import whose root is quarantined between its registration and its locked
   * recheck is never past the recheck at any later state it is still there: it
   * saves and inserts nothing, and all it can still do is leave.
   */
  lemma {:induction false} CaughtImportNeverSaves(states: seq<State>, events: seq<Event>, k: nat, m: nat, p: Pid, r: Root)
    requires Run(states, events) && k < m < |states|
    requires events[k].QuarantineRoots? && r in events[k].roots && InFlight(states[k], p, r)
    requires forall j :: k <= j <= m ==> p in states[j].imports
    ensures CaughtOrLeaving(states[m], p) && !PastRecheck(states[m], p)
    decreases m
  {
    hide Inv;
    assert Step(states[m - 1], events[m - 1], states[m - 1 + 1]);
    hide ImportStep, CacheStep;
    if m > k + 1 {
      CaughtImportNeverSaves(states, events, k, m - 1, p, r);
      RunKeeps(states, events, m - 1);
      CaughtStaysOut(states[m - 1], events[m - 1], states[m], p);
    }
    RunKeeps(states, events, m);
    CaughtIsEarly(states[m], p);
  }

  lemma CaughtIsEarly(s: State, p: Pid)
    requires Inv(s) && CaughtOrLeaving(s, p)
    ensures !PastRecheck(s, p)
  {
  }

  /** A root is registered exactly while one import of it is under way, from its registration until it has left. */
  lemma {:induction false} RegisteredIffImporting(states: seq<State>, events: seq<Event>, n: nat, r: Root)
    requires Run(states, events) && n < |states|
    ensures r in states[n].syncing <==> exists p :: Importing(states[n], p, r)
    ensures forall p, q :: Importing(states[n], p, r) && Importing(states[n], q, r) ==> p == q
  {
    RunKeeps(states, events, n);
  }

  /** While a root is quarantined no import of it begins: whoever imports it now was doing so all along. */
  lemma {:induction false} QuarantineAdmitsNoImport(states: seq<State>, events: seq<Event>, k: nat, m: nat, p: Pid, r: Root)
    requires Run(states, events) && k <= m < |states|
    requires forall j :: k <= j <= m ==> r in states[j].pending
    requires p in states[m].imports && states[m].imports[p].root == r
    ensures forall j :: k <= j <= m ==> p in states[j].imports && states[j].imports[p].root == r
    decreases m
  {
    hide Step;
    if k < m {
      assert Step(states[m - 1], events[m - 1], states[m - 1 + 1]);
      assert r in states[m - 1].pending;
      ImporterWasThere(states[m - 1], events[m - 1], states[m], p);
      QuarantineAdmitsNoImport(states, events, k, m - 1, p, r);
    }
  }

  lemma ImporterWasThere(s: State, e: Event, s': State, p: Pid)
    requires Step(s, e, s') && p in s'.imports && s'.imports[p].root in s.pending
    ensures p in s.imports && s.imports[p].root == s'.imports[p].root
  {
    hide CacheStep, CleanupStep, ImportStep;
    if CacheStep(s, e, s') || CleanupStep(s, e, s') {
      OthersFrame(s, e, s');
    } else {
      ImportHasActor(s, e, s');
      if e.p != p {
        ImportFrame(s, e, s', p);
      } else {
        ActorWasThere(s, e, s');
      }
    }
  }

  lemma ActorWasThere(s: State, e: Event, s': State)
    requires ImportStep(s, e, s') && HasActor(e) && e.p in s'.imports && s'.imports[e.p].root in s.pending
    ensures e.p in s.imports && s.imports[e.p].root == s'.imports[e.p].root
  {
  }

  // ----- recovering quarantined blocks -----

  /** What a recovery reads: the private copy, else the database. */
  function Recovered(s: State, r: Root): Option<Block> {
    if r in s.pending && s.pending[r].Some? then s.pending[r] else Lookup(s.db, r)
  }

  /** The step deletes the stored block, or may have. */
  predicate Deletes(s: State, e: Event, r: Root) {
    e == DeleteOk(r) || e == DeleteFail(r, true) || (e.Rollback? && e.gone && e.p in s.imports && s.imports[e.p].root == r)
  }

  /** Quarantined, not about to be released, and recoverable. */
  ghost predicate InSafekeeping(s: State, r: Root) {
    && r in s.pending && Recovered(s, r) == Some(Block(r))
    && !(s.cleanup.Deleted? && s.cleanup.root == r) && !(s.cleanup.Releasing? && s.cleanup.root == r)
  }

  lemma QuarantineTakesIn(s: State, roots: set<Root>, s': State, r: Root)
    requires Inv(s) && CleanupStep(s, QuarantineRoots(roots), s') && r in roots && Found(s, r)
    ensures InSafekeeping(s', r)
  {
  }

  lemma SafeByCache(s: State, e: Event, s': State, r: Root)
    requires Inv(s) && CacheStep(s, e, s') && InSafekeeping(s, r)
    ensures InSafekeeping(s', r)
  {
  }

  lemma SafeByCleanup(s: State, e: Event, s': State, r: Root)
    requires Inv(s) && CleanupStep(s, e, s') && InSafekeeping(s, r) && !Deletes(s, e, r)
    ensures InSafekeeping(s', r)
  {
  }

  lemma SafeByImport(s: State, e: Event, s': State, r: Root)
    requires Inv(s) && ImportStep(s, e, s') && InSafekeeping(s, r) && !Deletes(s, e, r)
    ensures InSafekeeping(s', r)
  {
  }

  lemma SafeByStep(s: State, e: Event, s': State, r: Root)
    requires Inv(s) && Step(s, e, s') && InSafekeeping(s, r) && !Deletes(s, e, r)
    ensures InSafekeeping(s', r)
  {
    hide CacheStep, CleanupStep, ImportStep, Inv, InSafekeeping, Deletes;
    if CacheStep(s, e, s') { SafeByCache(s, e, s', r); }
    else if CleanupStep(s, e, s') { SafeByCleanup(s, e, s', r); }
    else { SafeByImport(s, e, s', r); }
  }

  /**
   * A block that lookups found just before its quarantine can be recovered, and
   * is the same block, at every later state until its deletion: whether it was
   * cached, stored or both, and whatever flushes and imports do meanwhile.
   */
  lemma {:induction false} RecoverableUntilDeleted(states: seq<State>, events: seq<Event>, k: nat, n: nat, r: Root)
    requires Run(states, events) && k < n < |states|
    requires events[k].QuarantineRoots? && r in events[k].roots && Found(states[k], r)
    requires forall j :: k < j < n ==> !Deletes(states[j], events[j], r)
    ensures r in states[n].pending && Recovered(states[n], r) == Some(Block(r))
    decreases n
  {
    StaysInSafekeeping(states, events, k, n, r);
  }

  lemma {:induction false} StaysInSafekeeping(states: seq<State>, events: seq<Event>, k: nat, n: nat, r: Root)
    requires Run(states, events) && k < n < |states|
    requires events[k].QuarantineRoots? && r in events[k].roots && Found(states[k], r)
    requires forall j :: k < j < n ==> !Deletes(states[j], events[j], r)
    ensures InSafekeeping(states[n], r)
    decreases n
  {
    hide CacheStep, CleanupStep, ImportStep, Inv, InSafekeeping, Deletes, Found;
    RunKeeps(states, events, n - 1);
    assert Step(states[n - 1], events[n - 1], states[n - 1 + 1]);
    if n == k + 1 {
      OnlyCleanupQuarantines(states[k], events[k], states[n]);
      QuarantineTakesIn(states[k], events[k].roots, states[n], r);
    } else {
      StaysInSafekeeping(states, events, k, n - 1, r);
      SafeByStep(states[n - 1], events[n - 1], states[n], r);
    }
  }

  lemma OnlyCleanupQuarantines(s: State, e: Event, s': State)
    requires Step(s, e, s') && e.QuarantineRoots?
    ensures CleanupStep(s, e, s')
  {
  }

  // ----- conservation in the cache -----

  ghost predicate Found(s: State, r: Root) {
    r !in s.pending && (r in s.cache || r in s.db)
  }

  ghost predicate AllFound(s: State) {
    forall r :: r in s.accepted ==> Found(s, r)
  }

  /**
   * The one hazard: accepting a block again while a flush that already wrote
   * it, and whose copy has since been rolled back, has yet to evict it.
   */
  ghost predicate Hazard(s: State, e: Event) {
    e.SaveInitSyncBlock? && s.flush.Written? && e.r in s.flush.roots && e.r !in s.db && e.r !in s.pending
  }

  ghost predicate Kept(s: State) {
    && AllFound(s)
    && (s.flush.Written? ==> forall r :: r in s.accepted && r in s.flush.roots ==> r in s.db)
  }

  lemma KeptByCache(s: State, e: Event, s': State)
    requires Inv(s) && Kept(s) && CacheStep(s, e, s') && !Hazard(s, e)
    ensures Kept(s')
  {
  }

  lemma KeptByCleanup(s: State, e: Event, s': State)
    requires Inv(s) && Kept(s) && CleanupStep(s, e, s') && !Hazard(s, e)
    ensures Kept(s')
  {
  }

  lemma KeptByImport(s: State, e: Event, s': State)
    requires Inv(s) && Kept(s) && ImportStep(s, e, s') && !Hazard(s, e)
    ensures Kept(s')
  {
  }

  lemma KeptByStep(s: State, e: Event, s': State)
    requires Inv(s) && Kept(s) && Step(s, e, s') && !Hazard(s, e)
    ensures Kept(s')
  {
    hide CacheStep, CleanupStep, ImportStep, Inv, Kept, Hazard;
    if CacheStep(s, e, s') { KeptByCache(s, e, s'); }
    else if CleanupStep(s, e, s') { KeptByCleanup(s, e, s'); }
    else { KeptByImport(s, e, s'); }
  }

  /**
   * Across failed writes, insertions during a flush and partial evictions,
   * every accepted block not since quarantined or rolled back is found, in
   * every run without the hazard.
   */
  lemma {:induction false} AcceptedBlocksAreFound(states: seq<State>, events: seq<Event>, n: nat)
    requires Run(states, events) && n < |states|
    requires forall k :: 0 <= k < n ==> !Hazard(states[k], events[k])
    ensures Kept(states[n])
    decreases n
  {
    if n > 0 {
      AcceptedBlocksAreFound(states, events, n - 1);
      RunKeeps(states, events, n - 1);
      assert Step(states[n - 1], events[n - 1], states[n - 1 + 1]);
      KeptByStep(states[n - 1], events[n - 1], states[n]);
    }
  }

  /** Every accepted block is found, now and once a flush under way has evicted what it saved. */
  ghost predicate Conserved(s: State) {
    AllFound(s) && forall s' :: Step(s, FlushEvict, s') ==> AllFound(s')
  }

  lemma HazardLosesBlock(s: State, e: Event, s': State)
    requires Step(s, e, s') && Hazard(s, e)
    ensures !Conserved(s')
  {
    var lost := s'.(cache := s'.cache - s'.flush.roots, flush := NoFlush);
    assert Step(s', FlushEvict, lost);
    assert e.r in lost.accepted && !Found(lost, e.r);
  }

  /** Conservation holds throughout a run if and only if the run has no hazard. */
  lemma {:induction false} ConservedIffNoHazard(states: seq<State>, events: seq<Event>)
    requires Run(states, events)
    ensures (forall n :: 0 <= n < |states| ==> Conserved(states[n]))
            <==> (forall k :: 0 <= k < |events| ==> !Hazard(states[k], events[k]))
  {
    if forall k :: 0 <= k < |events| ==> !Hazard(states[k], events[k]) {
      forall n | 0 <= n < |states|
        ensures Conserved(states[n])
      {
        AcceptedBlocksAreFound(states, events, n);
        RunKeeps(states, events, n);
        EvictionFinds(states[n]);
      }
    } else {
      var k :| 0 <= k < |events| && Hazard(states[k], events[k]);
      assert Step(states[k], events[k], states[k + 1]);
      HazardLosesBlock(states[k], events[k], states[k + 1]);
    }
  }

  lemma EvictionFinds(s: State)
    requires Inv(s) && Kept(s)
    ensures Conserved(s)
  {
    forall s' | Step(s, FlushEvict, s')
      ensures AllFound(s')
    {
      KeptByStep(s, FlushEvict, s');
    }
  }

  // A batch caches block 7; a flush writes it; a gossip import of 7 saves it
  // again, fails to save the state and deletes it; a batch caches it once more;
  // and the flush then evicts the new copy.

  const SEVEN: Blocks := map[7 := Block(7)]
  const START := State(map[], map[], map[], {}, NoFlush, NoCleanup, None, map[], {}, {})
  const CACHED := START.(cache := SEVEN, accepted := {7})
  const WRITTEN := CACHED.(db := SEVEN, flush := Written({7}))
  const IMPORTING := WRITTEN.(imports := map[1 := Locked(7, 6)], syncing := {7}, fc := Some(Importer(1)))
  const ROLLED_BACK := WRITTEN.(db := map[], accepted := {})
  const LOST := START.(fc := Some(Other), accepted := {7})

  const WITNESS: seq<State> := [
    START, START.(fc := Some(Other)), CACHED.(fc := Some(Other)), CACHED,
    CACHED.(flush := Snapshotted(SEVEN, true)), WRITTEN,
    WRITTEN.(imports := map[1 := Checked(7, 6)]), WRITTEN.(imports := map[1 := Registered(7, 6)], syncing := {7}),
    IMPORTING, IMPORTING.(imports := map[1 := Rechecked(7, 6)]), IMPORTING.(imports := map[1 := Saved(7, 6)]),
    ROLLED_BACK.(imports := map[1 := Leaving(7, 6)], syncing := {7}), ROLLED_BACK, ROLLED_BACK.(fc := Some(Other)), ROLLED_BACK.(fc := Some(Other), accepted := {7}), LOST]

  const WITNESS_EVENTS: seq<Event> := [
    FcAcquire, SaveInitSyncBlock(7), FcRelease, FlushSnapshot(true), FlushWrite(true, {7}), Check(1, 7, 6), Register(1),
    LockForkchoice(1), RecheckOk(1), SaveBlock(1), Rollback(1, true), Unset(1), FcAcquire, SaveInitSyncBlock(7), FlushEvict]

  lemma {:induction false} WitnessCache()
    ensures CacheStep(WITNESS[1], SaveInitSyncBlock(7), WITNESS[2])
    ensures CacheStep(WITNESS[3], FlushSnapshot(true), WITNESS[4])
  {
  }

  lemma {:induction false} WitnessFlush()
    ensures CacheStep(WITNESS[4], FlushWrite(true, {7}), WITNESS[5])
  {
    assert (map r | r in {7} :: SEVEN[r]) == SEVEN;
  }

  lemma {:induction false} WitnessEviction()
    ensures CacheStep(WITNESS[13], SaveInitSyncBlock(7), WITNESS[14])
    ensures CacheStep(WITNESS[14], FlushEvict, WITNESS[15])
  {
  }

  lemma {:induction false} WitnessLocks()
    ensures CleanupStep(WITNESS[0], FcAcquire, WITNESS[1])
    ensures CleanupStep(WITNESS[2], FcRelease, WITNESS[3])
    ensures CleanupStep(WITNESS[12], FcAcquire, WITNESS[13])
  {
  }

  lemma {:induction false} WitnessImport()
    ensures ImportStep(WITNESS[5], Check(1, 7, 6), WITNESS[6])
    ensures ImportStep(WITNESS[6], Register(1), WITNESS[7])
  {
  }

  lemma {:induction false} WitnessLock()
    ensures ImportStep(WITNESS[7], LockForkchoice(1), WITNESS[8])
  {
  }

  lemma {:induction false} WitnessSave()
    ensures ImportStep(WITNESS[8], RecheckOk(1), WITNESS[9])
    ensures ImportStep(WITNESS[9], SaveBlock(1), WITNESS[10])
  {
  }

  lemma {:induction false} WitnessRollback()
    ensures ImportStep(WITNESS[10], Rollback(1, true), WITNESS[11])
    ensures ImportStep(WITNESS[11], Unset(1), WITNESS[12])
  {
  }

  /** The hazard is real: this run ends with an accepted block that no lookup finds. */
  lemma {:induction false} HazardHappens()
    ensures Run(WITNESS, WITNESS_EVENTS) && 7 in WITNESS[15].accepted && !Found(WITNESS[15], 7)
  {
    hide CacheStep, CleanupStep, ImportStep;
    WitnessCache();
    WitnessFlush();
    WitnessEviction();
    WitnessLocks();
    WitnessImport();
    WitnessLock();
    WitnessSave();
    WitnessRollback();
  }
}

/** The same regions as the service runs them: loops over maps, with storage failing at any point. */
module InitSyncService {
  import opened Oracles
  import opened Options
  import opened InitSyncMaps

  datatype Found = Quarantined | NotFound | ReadFailed | Found(block: Block)

  class Service {
    const faults: Oracle
    var clock: nat
    var initSyncBlocks: Blocks
    var pendingInvalidBlocks: Pending
    var db: Blocks
    var syncing: set<Root>

    /** What lookups can find under a root, quarantine aside. */
    function Stored(r: Root): Option<Block>
      reads this
    {
      Lookup(db + initSyncBlocks, r)
    }

    constructor (db: Blocks, faults: Oracle)
      ensures initSyncBlocks == map[] && pendingInvalidBlocks == map[] && syncing == {} && this.db == db
      ensures this.faults == faults && clock == 0
    {
      initSyncBlocks, pendingInvalidBlocks, syncing, this.db := map[], map[], {}, db;
      this.faults, clock := faults, 0;
    }

    method Fails() returns (b: bool)
      modifies this`clock
      ensures clock == old(clock) + 1 && b == faults(old(clock))
    {
      b := faults(clock);
      clock := clock + 1;
    }

    /** blockBeingSynced.set: refuses a root that is already registered. */
    method Set(r: Root) returns (ok: bool)
      modifies this`syncing
      ensures ok <==> r !in old(syncing)
      ensures syncing == old(syncing) + {r}
    {
      ok := r !in syncing;
      if ok {
        syncing := syncing + {r};
      }
    }

    method Unset(r: Root)
      modifies this`syncing
      ensures syncing == old(syncing) - {r}
    {
      syncing := syncing - {r};
    }

    /** The first of the roots that is quarantined, if any. */
    method CheckInvalidBlock(roots: seq<Root>) returns (bad: Option<Root>)
      ensures bad == None <==> forall r :: r in roots ==> r !in pendingInvalidBlocks
      ensures bad.Some? ==> bad.value in pendingInvalidBlocks
      ensures bad.Some? ==> exists i :: 0 <= i < |roots| && roots[i] == bad.value && forall j :: 0 <= j < i ==> roots[j] !in pendingInvalidBlocks
    {
      for i := 0 to |roots|
        invariant forall j :: 0 <= j < i ==> roots[j] !in pendingInvalidBlocks
      {
        if roots[i] in pendingInvalidBlocks {
          return Some(roots[i]);
        }
      }
      return None;
    }

    /** Cache before database, and nothing that is quarantined; only a database read can fail. */
    method GetBlock(r: Root) returns (f: Found)
      modifies this`clock
      ensures f == Quarantined <==> r in pendingInvalidBlocks
      ensures f == ReadFailed <==> r !in pendingInvalidBlocks && r !in initSyncBlocks && faults(old(clock))
      ensures f == NotFound <==> r !in pendingInvalidBlocks && r !in initSyncBlocks && r !in db && !faults(old(clock))
      ensures f.Found? ==> f.block == if r in initSyncBlocks then initSyncBlocks[r] else db[r]
      ensures f.Found? ==> Some(f.block) == Stored(r)
    {
      if r in pendingInvalidBlocks {
        return Quarantined;
      }
      if r in initSyncBlocks {
        return Found(initSyncBlocks[r]);
      }
      var unreadable := Fails();
      if unreadable {
        return ReadFailed;
      }
      return if r in db then Found(db[r]) else NotFound;
    }

    /** Evicting a saved snapshot, root by root. */
    method Evict(roots: set<Root>)
      modifies this`initSyncBlocks
      ensures initSyncBlocks == old(initSyncBlocks) - roots
    {
      var todo := roots;
      while todo != {}
        invariant todo <= roots
        invariant initSyncBlocks == old(initSyncBlocks) - (roots - todo)
        decreases todo
      {
        var r :| r in todo;
        initSyncBlocks := initSyncBlocks - {r};
        todo := todo - {r};
      }
      assert roots - todo == roots;
    }

    /**
     * Flushing the cache. Whatever the outcome no block is lost: what lookups
     * could find before, in the cache or in the database, they still find.
     */
    method SaveInitSyncBlocks(clear: bool, writeFails: bool) returns (ok: bool)
      modifies this`initSyncBlocks, this`db
      ensures ok <==> !writeFails || old(initSyncBlocks) == map[]
      ensures ok ==> db == old(db + initSyncBlocks)
      ensures !ok ==> db == old(db)
      ensures initSyncBlocks == if ok && clear then map[] else old(initSyncBlocks)
      ensures forall r :: Stored(r) == old(Stored(r))
    {
      var blks: Blocks := map[];
      var todo := initSyncBlocks.Keys;
      while todo != {}
        invariant todo <= initSyncBlocks.Keys && blks.Keys == initSyncBlocks.Keys - todo
        invariant forall r :: r in blks ==> blks[r] == initSyncBlocks[r]
        decreases todo
      {
        var r :| r in todo;
        blks := blks[r := initSyncBlocks[r]];
        todo := todo - {r};
      }
      assert blks == initSyncBlocks;
      if blks == map[] {
        return true;
      }
      if writeFails {
        return false;
      }
      db := db + blks;
      if clear {
        Evict(blks.Keys);
        assert initSyncBlocks == map[];
      }
      return true;
    }

    /** Caching a block, and flushing the cache once it holds more than `limit` blocks. */
    method SaveInitSyncBlock(r: Root, limit: nat, writeFails: bool) returns (ok: bool)
      modifies this`initSyncBlocks, this`db
      ensures r in pendingInvalidBlocks ==> !ok && initSyncBlocks == old(initSyncBlocks) && db == old(db)
      ensures r !in pendingInvalidBlocks ==> Stored(r) == Some(Block(r))
      ensures forall k :: k != r ==> Stored(k) == old(Stored(k))
      ensures ok <==> r !in pendingInvalidBlocks && (|old(initSyncBlocks)[r := Block(r)]| <= limit || !writeFails)
      ensures r !in pendingInvalidBlocks && (|old(initSyncBlocks)[r := Block(r)]| <= limit || writeFails) ==>
                initSyncBlocks == old(initSyncBlocks)[r := Block(r)] && db == old(db)
      ensures ok && |old(initSyncBlocks)[r := Block(r)]| > limit ==>
                initSyncBlocks == map[] && db == old(db) + old(initSyncBlocks)[r := Block(r)]
    {
      if r in pendingInvalidBlocks {
        return false;
      }
      hide Lookup;
      LookupAfterCaching(db, initSyncBlocks, r);
      initSyncBlocks := initSyncBlocks[r := Block(r)];
      ok := true;
      if |initSyncBlocks| > limit {
        ok := SaveInitSyncBlocks(true, writeFails);
      }
    }

    /**
     * The quarantining loop. A repeated or already quarantined root keeps its
     * first private copy, although the cache no longer has it.
     */
    method QuarantineRoots(roots: seq<Root>)
      modifies this`initSyncBlocks, this`pendingInvalidBlocks
      ensures pendingInvalidBlocks == InitSyncMaps.Quarantined(old(pendingInvalidBlocks), old(initSyncBlocks), Elements(roots))
      ensures forall r :: r in pendingInvalidBlocks <==> r in old(pendingInvalidBlocks) || r in roots
      ensures forall r :: r in old(pendingInvalidBlocks) ==> pendingInvalidBlocks[r] == old(pendingInvalidBlocks)[r]
      ensures forall r :: r in roots && r !in old(pendingInvalidBlocks) ==>
                pendingInvalidBlocks[r] == if r in old(initSyncBlocks) then Some(old(initSyncBlocks)[r]) else None
      ensures initSyncBlocks == old(initSyncBlocks) - Elements(roots)
    {
      for i := 0 to |roots|
        invariant pendingInvalidBlocks == InitSyncMaps.Quarantined(old(pendingInvalidBlocks), old(initSyncBlocks), Elements(roots[..i]))
        invariant initSyncBlocks == old(initSyncBlocks) - Elements(roots[..i])
      {
        if roots[i] !in pendingInvalidBlocks {
          pendingInvalidBlocks := pendingInvalidBlocks[roots[i] := Lookup(initSyncBlocks, roots[i])];
        }
        initSyncBlocks := initSyncBlocks - {roots[i]};
        ElementsExtend(roots, i);
      }
      assert roots[..|roots|] == roots;
    }

    /** The only lookup of quarantined blocks: the private copy, else the database. */
    method InvalidBlockForRecovery(r: Root) returns (f: Found)
      modifies this`clock
      ensures r in pendingInvalidBlocks && pendingInvalidBlocks[r].Some? ==> f == Found(pendingInvalidBlocks[r].value)
      ensures !(r in pendingInvalidBlocks && pendingInvalidBlocks[r].Some?) ==>
                f == if faults(old(clock)) then ReadFailed else if r in db then Found(db[r]) else NotFound
    {
      if r in pendingInvalidBlocks && pendingInvalidBlocks[r].Some? {
        return Found(pendingInvalidBlocks[r].value);
      }
      var unreadable := Fails();
      if unreadable {
        return ReadFailed;
      }
      return if r in db then Found(db[r]) else NotFound;
    }

    /** Deleting one quarantined root and, unless it is being imported, releasing it. */
    method CleanRoot(r: Root) returns (ok: bool)
      modifies this`pendingInvalidBlocks, this`db, this`clock
      ensures clock == old(clock) + 1 && ok == !faults(old(clock))
      ensures db == old(db) - {r} || (!ok && db == old(db))
      ensures pendingInvalidBlocks == if ok && r !in syncing then old(pendingInvalidBlocks) - {r} else old(pendingInvalidBlocks)
    {
      var undeleted := Fails();
      if undeleted {
        if * {
          db := db - {r};
        }
        return false;
      }
      db := db - {r};
      if r !in syncing {
        pendingInvalidBlocks := pendingInvalidBlocks - {r};
      }
      return true;
    }

    /**
     * Cleanup, with a failure to preserve the head's ancestry, any deletion
     * failing and the context cancelled at any root. The roots are handled in
     * some order until the context is cancelled: each is deleted and, unless it
     * is being imported, released, except where its own deletion failed. The
     * pass fails exactly when something in it failed, and nothing outside the
     * quarantine is deleted.
     */
    method RetryInvalidBlockCleanup() returns (ok: bool, order: seq<Root>)
      modifies this`pendingInvalidBlocks, this`db, this`clock
      ensures clock >= old(clock) && (ok <==> !FaultIn(faults, old(clock), clock))
      ensures old(pendingInvalidBlocks) != map[] && faults(old(clock)) ==>
                order == [] && !ok && pendingInvalidBlocks == old(pendingInvalidBlocks) && db == old(db)
      ensures Handled(faults, old(clock) + 1, order, old(pendingInvalidBlocks), pendingInvalidBlocks, old(db), db, syncing)
      ensures !faults(old(clock)) ==>
                (forall r :: r in old(pendingInvalidBlocks) ==> r in order) || faults(old(clock) + 1 + 2 * |order|)
      ensures ok ==> forall r :: r in old(pendingInvalidBlocks) ==> r !in db && (r in pendingInvalidBlocks <==> r in syncing)
    {
      hide Handled;
      order := [];
      HandledNone(faults, clock + 1, pendingInvalidBlocks, db, syncing);
      if pendingInvalidBlocks == map[] {
        return true, [];
      }
      var unpreserved := Fails();
      if unpreserved {
        return false, [];
      }
      ok := true;
      ghost var before := pendingInvalidBlocks;
      var todo := pendingInvalidBlocks.Keys;
      while todo != {}
        invariant forall r :: r in todo <==> r in before && r !in order
        invariant clock == old(clock) + 1 + 2 * |order| && (ok <==> !FaultIn(faults, old(clock), clock))
        invariant Handled(faults, old(clock) + 1, order, before, pendingInvalidBlocks, old(db), db, syncing)
        decreases todo
      {
        var cancelled := Fails();
        if cancelled {
          return false, order;
        }
        var r :| r in todo;
        todo := todo - {r};
        ghost var pending, stored := pendingInvalidBlocks, db;
        var deleted := CleanRoot(r);
        HandledMore(faults, old(clock) + 1, order, before, pending, pendingInvalidBlocks, old(db), stored, db, syncing, r);
        order := order + [r];
        ok := ok && deleted;
      }
      if ok {
        AllHandled(faults, old(clock) + 1, order, before, pendingInvalidBlocks, old(db), db, syncing);
      }
    }
  }

  /**
   * What a pass has done to the quarantine and the database: the `i`-th root in
   * `order` took the actions `from + 2 * i` and `from + 2 * i + 1`. Where the
   * second succeeded the root is gone from the database and released unless it
   * is being imported; where it failed the root stays quarantined. All other
   * roots are as they were.
   */
  ghost predicate Handled(faults: Oracle, from: nat, order: seq<Root>, before: Pending, pending: Pending, stored: Blocks, db: Blocks, syncing: set<Root>)
  {
    && (forall i, j :: 0 <= i < j < |order| ==> order[i] != order[j])
    && (forall i :: 0 <= i < |order| ==> order[i] in before && HandledRoot(faults, from, i, order[i], pending, db, syncing))
    && (forall r :: r in pending ==> r in before && pending[r] == before[r])
    && (forall r :: r in before && r !in order ==> r in pending)
    && (forall r :: r !in order ==> Lookup(db, r) == Lookup(stored, r))
    && db.Keys <= stored.Keys
  }

  ghost predicate HandledRoot(faults: Oracle, from: nat, i: nat, r: Root, pending: Pending, db: Blocks, syncing: set<Root>) {
    && !faults(from + 2 * i)
    && if faults(from + 2 * i + 1) then r in pending else r !in db && (r in pending <==> r in syncing)
  }

  lemma HandledNone(faults: Oracle, from: nat, pending: Pending, db: Blocks, syncing: set<Root>)
    ensures Handled(faults, from, [], pending, pending, db, db, syncing)
  {
  }

  lemma {:induction false} HandledMore(faults: Oracle, from: nat, order: seq<Root>, before: Pending, pending: Pending, pending': Pending,
                                       stored: Blocks, db: Blocks, db': Blocks, syncing: set<Root>, r: Root)
    requires Handled(faults, from, order, before, pending, stored, db, syncing) && r in before && r !in order
    requires !faults(from + 2 * |order|)
    requires db' == db - {r} || (faults(from + 2 * |order| + 1) && db' == db)
    requires pending' == if !faults(from + 2 * |order| + 1) && r !in syncing then pending - {r} else pending
    ensures Handled(faults, from, order + [r], before, pending', stored, db', syncing)
  {
    var more := order + [r];
    forall i | 0 <= i < |more|
      ensures more[i] in before && HandledRoot(faults, from, i, more[i], pending', db', syncing)
    {
      if i < |order| {
        assert more[i] == order[i] && order[i] != r;
        assert HandledRoot(faults, from, i, order[i], pending, db, syncing);
      }
    }
    assert forall k :: k !in more ==> k !in order && k != r by {
      assert more[|order|] == r;
      assert forall k :: k in order ==> k in more;
    }
  }

  /** In particular: a released root is gone and not being imported, and nothing outside the quarantine is touched. */
  lemma {:induction false} HandledMeans(faults: Oracle, from: nat, order: seq<Root>, before: Pending, pending: Pending, stored: Blocks, db: Blocks, syncing: set<Root>)
    requires Handled(faults, from, order, before, pending, stored, db, syncing)
    ensures forall r :: r in pending ==> r in before && pending[r] == before[r]
    ensures forall r :: r in before && r !in pending ==> r !in db && r !in syncing
    ensures forall r :: r !in before ==> Lookup(db, r) == Lookup(stored, r)
    ensures db.Keys <= stored.Keys
  {
    forall r | r in before && r !in pending
      ensures r !in db && r !in syncing
    {
      var i :| 0 <= i < |order| && order[i] == r;
      assert HandledRoot(faults, from, i, r, pending, db, syncing);
    }
  }

  lemma {:induction false} AllHandled(faults: Oracle, from: nat, order: seq<Root>, before: Pending, pending: Pending, stored: Blocks, db: Blocks, syncing: set<Root>)
    requires Handled(faults, from, order, before, pending, stored, db, syncing)
    requires forall r :: r in before ==> r in order
    requires !FaultIn(faults, from, from + 2 * |order|)
    ensures forall r :: r in before ==> r !in db && (r in pending <==> r in syncing)
  {
    forall r | r in before
      ensures r !in db && (r in pending <==> r in syncing)
    {
      var i :| 0 <= i < |order| && order[i] == r;
      assert HandledRoot(faults, from, i, r, pending, db, syncing);
      assert !faults(from + 2 * i + 1);
    }
  }
}

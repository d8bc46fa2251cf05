/**
  The regions of the allocator machine seen from the locks: what each lock guards, and that a region is
  one access to this by a thread that holds its locks.
 */
module ShmRegions {
  import Shm = ShmModel
  import L = ShmLocks
  import R = ShmReduction

  /** The locks of the region that a step stands for. */
  function LocksOf(s: Shm.State, step: Shm.Step): set<L.Lock>
    requires Shm.Enabled(s, step)
  {
    match step
    case ReuseStep(p, _, m, _) => {L.CreatedCache(p), L.BlockMutex(s.mappings[m].handle)}
    case DropStep(q) =>
      var ptr := s.ptrs[q];
      {L.BlockMutex(ptr.id.handle), if ptr.kind.Allocated? then L.CreatedCache(ptr.proc) else L.LoadedCache(ptr.proc)}
    case LoadPopStep(_, p, _) => {L.LoadedCache(p)}
    case LoadAttachStep(op, _) => {L.RawMutex(s.loads[op].id.handle)}
    case LoadAttachErrorStep(op) => {L.RawMutex(s.loads[op].id.handle)}
    case LoadCheckStep(op, _) => {L.BlockMutex(s.loads[op].id.handle)}
    case LoadCheckErrorStep(op) => {L.BlockMutex(s.loads[op].id.handle)}
    case ClearCreatedStep(p) => {L.CreatedCache(p)}
    case ClearLoadedStep(p) => {L.LoadedCache(p)}
    case UnmapStep(m) => {L.RawMutex(s.mappings[m].handle)}
    case _ => {}
  }

  /** The raw blocks in the created cache of a process, with the size they are under. */
  function CreatedBy(ms: map<Shm.MapId, Shm.Mapping>, p: Shm.Proc): map<nat, nat> {
    map m | m in ms && ms[m].proc == p && ms[m].owner.InCreated? :: ms[m].owner.size
  }

  function LoadedBy(loaded: map<(Shm.Proc, Shm.Handle), Shm.MapId>, p: Shm.Proc): map<nat, nat> {
    map k | k in loaded && k.0 == p :: k.1 := loaded[k]
  }

  /** What a lock guards in a state of the allocator. */
  function Guarded(s: Shm.State, l: L.Lock): L.Datum {
    match l
    case BlockMutex(h) => if h in s.blocks then L.Counts(s.blocks[h].refcount, s.blocks[h].reuse) else L.Nothing
    case RawMutex(h) => if h in s.blocks then L.RawCount(s.blocks[h].rawRefs) else L.Nothing
    case CreatedCache(p) => var c := CreatedBy(s.mappings, p); if c == map[] then L.Nothing else L.Created(c)
    case LoadedCache(p) => var c := LoadedBy(s.loaded, p); if c == map[] then L.Nothing else L.Loaded(c)
    case InTransit(_) => L.Nothing
  }

  /** Creating an object and removing its name are not regions: nobody else can be using it. */
  predicate IsRegion(step: Shm.Step) {
    !step.CreateStep? && !step.RemoveObjectStep?
  }

  /** A region changes nothing that other locks guard. */
  lemma RegionTouches(s: Shm.State, step: Shm.Step, l: L.Lock)
    requires Shm.Inv(s) && Shm.Enabled(s, step) && IsRegion(step) && l !in LocksOf(s, step)
    ensures Guarded(Shm.Apply(s, step), l) == Guarded(s, l)
  {
    match l
    case BlockMutex(h) => CountsUntouched(s, step, h);
    case RawMutex(h) => RawCountUntouched(s, step, h);
    case CreatedCache(p) => CreatedUntouched(s, step, p);
    case LoadedCache(p) => LoadedUntouched(s, step, p);
    case InTransit(_) =>
  }

  lemma CountsUntouched(s: Shm.State, step: Shm.Step, h: Shm.Handle)
    requires Shm.Enabled(s, step) && IsRegion(step) && L.BlockMutex(h) !in LocksOf(s, step)
    ensures Guarded(Shm.Apply(s, step), L.BlockMutex(h)) == Guarded(s, L.BlockMutex(h))
  {
  }

  lemma RawCountUntouched(s: Shm.State, step: Shm.Step, h: Shm.Handle)
    requires Shm.Enabled(s, step) && IsRegion(step) && L.RawMutex(h) !in LocksOf(s, step)
    ensures Guarded(Shm.Apply(s, step), L.RawMutex(h)) == Guarded(s, L.RawMutex(h))
  {
  }

  lemma OwnerChange(ms: map<Shm.MapId, Shm.Mapping>, m: Shm.MapId, owner: Shm.Owner, p: Shm.Proc)
    requires m in ms && (ms[m].proc != p || (!ms[m].owner.InCreated? && !owner.InCreated?))
    ensures CreatedBy(Shm.SetOwner(ms, m, owner), p) == CreatedBy(ms, p)
  {
  }

  lemma CreatedUntouched(s: Shm.State, step: Shm.Step, p: Shm.Proc)
    requires Shm.MappingsOk(s) && Shm.PtrsOk(s) && Shm.LoadsOk(s) && Shm.Enabled(s, step) && IsRegion(step)
    requires L.CreatedCache(p) !in LocksOf(s, step)
    ensures CreatedBy(Shm.Apply(s, step).mappings, p) == CreatedBy(s.mappings, p)
  {
    match step
    case ReuseStep(_, _, m, q) => OwnerChange(s.mappings, m, Shm.ByPtr(q), p);
    case DropStep(q) => DropUntouched(s, q, p);
    case LoadPopStep(op, o, id) => OwnerChange(s.mappings, s.loaded[(o, id.handle)], Shm.ByLoad(op), p);
    case LoadCheckStep(op, q) => OwnerChange(s.mappings, s.loads[op].mapping, Shm.ByPtr(q), p);
    case LoadCheckErrorStep(op) => OwnerChange(s.mappings, s.loads[op].mapping, Shm.Orphan, p);
    case ClearCreatedStep(o) => ClearChange(s.mappings, o, p);
    case ClearLoadedStep(o) => ClearChange(s.mappings, o, p);
    case LoadAttachStep(op, m) => AttachChange(s.mappings, m, Shm.Apply(s, step).mappings[m], p);
    case UnmapStep(m) => UnmapChange(s.mappings, m, p);
    case _ =>
  }

  lemma ClearChange(ms: map<Shm.MapId, Shm.Mapping>, o: Shm.Proc, p: Shm.Proc)
    ensures o != p ==> CreatedBy(Shm.OrphanCreated(ms, o), p) == CreatedBy(ms, p)
    ensures CreatedBy(Shm.OrphanLoaded(ms, o), p) == CreatedBy(ms, p)
  {
  }

  lemma AttachChange(ms: map<Shm.MapId, Shm.Mapping>, m: Shm.MapId, x: Shm.Mapping, p: Shm.Proc)
    requires m !in ms && !x.owner.InCreated?
    ensures CreatedBy(ms[m := x], p) == CreatedBy(ms, p)
  {
  }

  lemma UnmapChange(ms: map<Shm.MapId, Shm.Mapping>, m: Shm.MapId, p: Shm.Proc)
    requires m in ms && !ms[m].owner.InCreated?
    ensures CreatedBy(ms - {m}, p) == CreatedBy(ms, p)
  {
  }

  lemma DropUntouched(s: Shm.State, q: Shm.PtrId, p: Shm.Proc)
    requires Shm.MappingsOk(s) && Shm.PtrsOk(s) && Shm.CanDrop(s, q)
    requires L.CreatedCache(p) !in LocksOf(s, Shm.DropStep(q))
    ensures CreatedBy(Shm.Apply(s, Shm.DropStep(q)).mappings, p) == CreatedBy(s.mappings, p)
  {
    var ptr := s.ptrs[q];
    assert Shm.PtrOk(s, q);
    if ptr.kind.Allocated? {
      OwnerChange(s.mappings, ptr.mapping, Shm.InCreated(ptr.kind.size), p);
    } else {
      var evicted := Shm.EvictLoaded(s, ptr.proc, ptr.id.handle);
      if (ptr.proc, ptr.id.handle) in s.loaded {
        OwnerChange(s.mappings, s.loaded[(ptr.proc, ptr.id.handle)], Shm.Orphan, p);
      }
      OwnerChange(evicted, ptr.mapping, Shm.InLoaded, p);
    }
  }

  lemma LoadedUntouched(s: Shm.State, step: Shm.Step, p: Shm.Proc)
    requires Shm.Enabled(s, step) && IsRegion(step) && L.LoadedCache(p) !in LocksOf(s, step)
    ensures LoadedBy(Shm.Apply(s, step).loaded, p) == LoadedBy(s.loaded, p)
  {
    forall h
      ensures (p, h) in s.loaded <==> (p, h) in Shm.Apply(s, step).loaded
      ensures (p, h) in s.loaded ==> Shm.Apply(s, step).loaded[(p, h)] == s.loaded[(p, h)]
    {
    }
    SameLoaded(s.loaded, Shm.Apply(s, step).loaded, p);
  }

  lemma SameLoaded(a: map<(Shm.Proc, Shm.Handle), Shm.MapId>, b: map<(Shm.Proc, Shm.Handle), Shm.MapId>, p: Shm.Proc)
    requires forall h :: (p, h) in a <==> (p, h) in b
    requires forall h :: (p, h) in a ==> a[(p, h)] == b[(p, h)]
    ensures LoadedBy(a, p) == LoadedBy(b, p)
  {
  }

  // ------------------------------------------------------------- A region is an access

  /** The lock machine has the data of the allocator. */
  ghost predicate Reflects(r: L.State, s: Shm.State) {
    forall l: L.Lock :: L.DataAt(r, l) == Guarded(s, l)
  }

  function Slice(s: Shm.State, ls: set<L.Lock>): map<L.Lock, L.Datum> {
    map l | l in ls :: Guarded(s, l)
  }

  /** What the region finds in what its locks guard, and what it leaves there. */
  function RegionAccess(s: Shm.State, step: Shm.Step): L.Step
    requires Shm.Enabled(s, step)
  {
    L.Access(Slice(s, LocksOf(s, step)), Slice(Shm.Apply(s, step), LocksOf(s, step)))
  }

  /** The thread's own part of a region is the same in both states: its pointer, its call, the raw block it works on. */
  predicate SameOwn(s: Shm.State, t: Shm.State, step: Shm.Step)
    requires Shm.Enabled(s, step) && Shm.Enabled(t, step)
  {
    match step
    case ReuseStep(_, _, m, _) => s.mappings[m] == t.mappings[m]
    case DropStep(q) => s.ptrs[q] == t.ptrs[q]
    case LoadAttachStep(op, _) => s.loads[op] == t.loads[op]
    case LoadAttachErrorStep(op) => s.loads[op] == t.loads[op]
    case LoadCheckStep(op, _) => s.loads[op] == t.loads[op]
    case LoadCheckErrorStep(op) => s.loads[op] == t.loads[op]
    case UnmapStep(m) => s.mappings[m] == t.mappings[m]
    case _ => true
  }

  lemma OwnerEffect(ms: map<Shm.MapId, Shm.Mapping>, m: Shm.MapId, owner: Shm.Owner, p: Shm.Proc)
    requires m in ms && ms[m].proc == p
    ensures CreatedBy(Shm.SetOwner(ms, m, owner), p)
            == if owner.InCreated? then CreatedBy(ms, p)[m := owner.size] else CreatedBy(ms, p) - {m}
  {
  }

  /** The created cache after a region that takes its mutex. */
  lemma CreatedAfter(s: Shm.State, step: Shm.Step, p: Shm.Proc)
    requires Shm.PtrsOk(s) && Shm.Enabled(s, step) && L.CreatedCache(p) in LocksOf(s, step)
    ensures CreatedBy(Shm.Apply(s, step).mappings, p)
            == match step
               case ReuseStep(_, _, m, _) => CreatedBy(s.mappings, p) - {m}
               case DropStep(q) => CreatedBy(s.mappings, p)[s.ptrs[q].mapping := s.ptrs[q].kind.size]
               case _ => map[]
  {
    match step
    case ReuseStep(_, _, m, q) => OwnerEffect(s.mappings, m, Shm.ByPtr(q), p);
    case DropStep(q) =>
      assert Shm.PtrOk(s, q);
      OwnerEffect(s.mappings, s.ptrs[q].mapping, Shm.InCreated(s.ptrs[q].kind.size), p);
    case ClearCreatedStep(o) => assert Shm.Apply(s, step).mappings == Shm.OrphanCreated(s.mappings, o);
  }

  /** The loaded cache after a region that takes its mutex. */
  lemma LoadedAfter(s: Shm.State, step: Shm.Step, p: Shm.Proc)
    requires Shm.Enabled(s, step) && L.LoadedCache(p) in LocksOf(s, step)
    ensures LoadedBy(Shm.Apply(s, step).loaded, p)
            == match step
               case DropStep(q) => LoadedBy(s.loaded, p)[s.ptrs[q].id.handle := s.ptrs[q].mapping]
               case LoadPopStep(_, _, id) => LoadedBy(s.loaded, p) - {id.handle}
               case _ => map[]
  {
    match step
    case DropStep(q) => LoadedEffect(s.loaded, p, s.ptrs[q].id.handle, s.ptrs[q].mapping);
    case LoadPopStep(_, o, id) => LoadedEffect(s.loaded, p, id.handle, 0);
    case ClearLoadedStep(o) => assert LoadedBy(Shm.Apply(s, step).loaded, p) == map[];
  }

  lemma LoadedEffect(loaded: map<(Shm.Proc, Shm.Handle), Shm.MapId>, p: Shm.Proc, h: Shm.Handle, m: Shm.MapId)
    ensures LoadedBy(loaded[(p, h) := m], p) == LoadedBy(loaded, p)[h := m]
    ensures LoadedBy(loaded - {(p, h)}, p) == LoadedBy(loaded, p) - {h}
  {
  }

  /** What a region leaves behind its locks depends on what it finds there and on the thread's own part alone. */
  lemma RegionDetermined(s: Shm.State, t: Shm.State, step: Shm.Step, l: L.Lock)
    requires Shm.PtrsOk(s) && Shm.PtrsOk(t) && Shm.Enabled(s, step) && Shm.Enabled(t, step) && IsRegion(step)
    requires SameOwn(s, t, step) && l in LocksOf(s, step) && Guarded(s, l) == Guarded(t, l)
    ensures LocksOf(t, step) == LocksOf(s, step)
    ensures Guarded(Shm.Apply(s, step), l) == Guarded(Shm.Apply(t, step), l)
  {
    SameLocks(s, t, step);
    match l
    case CreatedCache(p) =>
      CreatedAfter(s, step, p);
      CreatedAfter(t, step, p);
    case LoadedCache(p) =>
      LoadedAfter(s, step, p);
      LoadedAfter(t, step, p);
    case BlockMutex(h) => CountsDetermined(s, t, step, h);
    case RawMutex(h) => RawCountDetermined(s, t, step, h);
  }

  lemma SameLocks(s: Shm.State, t: Shm.State, step: Shm.Step)
    requires Shm.Enabled(s, step) && Shm.Enabled(t, step) && SameOwn(s, t, step)
    ensures LocksOf(t, step) == LocksOf(s, step)
  {
  }

  lemma CountsDetermined(s: Shm.State, t: Shm.State, step: Shm.Step, h: Shm.Handle)
    requires Shm.Enabled(s, step) && Shm.Enabled(t, step) && IsRegion(step) && SameOwn(s, t, step)
    requires L.BlockMutex(h) in LocksOf(s, step) && Guarded(s, L.BlockMutex(h)) == Guarded(t, L.BlockMutex(h))
    ensures Guarded(Shm.Apply(s, step), L.BlockMutex(h)) == Guarded(Shm.Apply(t, step), L.BlockMutex(h))
  {
    CountsAfter(s, step, h);
    CountsAfter(t, step, h);
    SameLocks(s, t, step);
  }

  /** The counts of a block after a region that takes its mutex. */
  lemma CountsAfter(s: Shm.State, step: Shm.Step, h: Shm.Handle)
    requires Shm.Enabled(s, step) && L.BlockMutex(h) in LocksOf(s, step)
    ensures Guarded(Shm.Apply(s, step), L.BlockMutex(h))
            == match (Guarded(s, L.BlockMutex(h)), step)
               case (Counts(refs, reuse), ReuseStep(_, _, _, _)) => L.Counts(refs + 1, reuse + 1)
               case (Counts(refs, reuse), DropStep(_)) => L.Counts(refs - 1, reuse)
               case (Counts(refs, reuse), LoadCheckStep(_, _)) => L.Counts(refs + 1, reuse)
               case (counts, _) => counts
  {
  }

  lemma RawCountDetermined(s: Shm.State, t: Shm.State, step: Shm.Step, h: Shm.Handle)
    requires Shm.Enabled(s, step) && Shm.Enabled(t, step) && IsRegion(step) && SameOwn(s, t, step)
    requires L.RawMutex(h) in LocksOf(s, step) && Guarded(s, L.RawMutex(h)) == Guarded(t, L.RawMutex(h))
    ensures Guarded(Shm.Apply(s, step), L.RawMutex(h)) == Guarded(Shm.Apply(t, step), L.RawMutex(h))
  {
  }

  /**
    A region of the allocator machine is one access by a thread that holds its locks; the two machines
    agree on all guarded data afterwards, and the access moves either way past steps of other threads.
   */
  lemma RegionIsAccess(r: L.State, t: L.Tid, s: Shm.State, step: Shm.Step)
    requires Shm.Inv(s) && Shm.Enabled(s, step) && IsRegion(step) && Reflects(r, s)
    requires t in r.threads && LocksOf(s, step) <= L.Holds(r.threads[t])
    ensures L.Enabled(r, t, RegionAccess(s, step))
    ensures Reflects(L.Apply(r, t, RegionAccess(s, step)), Shm.Apply(s, step))
    ensures R.MovesRight(r.threads[t], RegionAccess(s, step)) && R.MovesLeft(RegionAccess(s, step))
  {
    forall l: L.Lock
      ensures L.DataAt(L.Apply(r, t, RegionAccess(s, step)), l) == Guarded(Shm.Apply(s, step), l)
    {
      assert L.DataAt(r, l) == Guarded(s, l);
      if l !in LocksOf(s, step) {
        RegionTouches(s, step, l);
      }
    }
  }
}

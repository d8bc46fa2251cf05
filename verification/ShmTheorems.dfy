/** What the allocator promises over whole runs, and the cacheless allocator it refines. */
module ShmTheorems {
  import opened ShmModel

  ghost predicate ValidRun(s: State, steps: seq<Step>)
    decreases |steps|
  {
    |steps| == 0 || (Enabled(s, steps[0]) && ValidRun(Apply(s, steps[0]), steps[1..]))
  }

  ghost function RunFrom(s: State, steps: seq<Step>): State
    requires ValidRun(s, steps)
    decreases |steps|
  {
    if |steps| == 0 then s else RunFrom(Apply(s, steps[0]), steps[1..])
  }

  lemma {:induction false} RunInv(s: State, steps: seq<Step>)
    requires Inv(s) && ValidRun(s, steps)
    ensures Inv(RunFrom(s, steps))
    decreases |steps|
  {
    if |steps| > 0 {
      StepInv(s, steps[0]);
      RunInv(Apply(s, steps[0]), steps[1..]);
    }
  }

  lemma ReachableInv(steps: seq<Step>)
    requires ValidRun(INIT, steps)
    ensures Inv(RunFrom(INIT, steps))
  {
    InitInv();
    RunInv(INIT, steps);
  }

  // -------------------------------------------------- load_shm succeeds exactly on live ids

  /** Some pointer obtained under this id is still alive somewhere. */
  ghost predicate IdLive(s: State, id: BlockId) {
    exists q :: q in s.ptrs && s.ptrs[q].id == id
  }

  /** The checks of load_shm pass if and only if a pointer obtained under the id is alive. */
  lemma LoadChecksIffLive(s: State, id: BlockId)
    requires Inv(s)
    ensures CheckPasses(s, id) <==> IdLive(s, id)
  {
    if CheckPasses(s, id) {
      CheckedIdIssued(s, id);
    }
    if q :| q in s.ptrs && s.ptrs[q].id == id {
      assert PtrOk(s, q);
      LivePtrCounted(s, q);
    }
  }

  /** While an id is live none of the three regions of load_shm can take its error branch. */
  lemma LiveIdLoads(s: State, id: BlockId, op: OpId)
    requires Inv(s) && IdLive(s, id)
    ensures !CanLoadOpenError(s, op, id) && (op !in s.loads ==> CanLoadOpen(s, op, id))
    ensures AttachPasses(s, id.handle) && CheckPasses(s, id)
    ensures op in s.loads && s.loads[op].id == id ==> !CanLoadAttachError(s, op) && !CanLoadCheckError(s, op)
  {
    LoadChecksIffLive(s, id);
    var q :| q in s.ptrs && s.ptrs[q].id == id;
    assert PtrOk(s, q);
    LiveMappingCounted(s, s.ptrs[q].mapping);
  }

  // ------------------------------------------------------------- Recycling never aliases

  /** A recycled block has the requested size and no holder; afterwards the caller is its only one. */
  lemma RecycledBlockUnshared(s: State, p: Proc, size: nat, m: MapId, q: PtrId)
    requires Inv(s) && CanReuse(s, p, size, m, q)
    ensures var t := Reuse(s, p, size, m, q);
            var h := s.mappings[m].handle;
            && s.blocks[h].size == size
            && PtrsOf(s.ptrs, h) == {}
            && PtrsOf(t.ptrs, h) == {q}
            && t.ptrs[q].id !in s.issued
            && forall stale :: stale in s.issued && stale.handle == h ==> !CheckPasses(t, stale)
  {
    var t := Reuse(s, p, size, m, q);
    assert MappingOk(s, m);
    forall r | r in t.ptrs && r != q
      ensures t.ptrs[r].id.handle != s.mappings[m].handle
    {
      LivePtrCounted(s, r);
    }
  }

  /** The blocks a step changes: nobody's size, and only an unused block's reuse count. */
  lemma BlocksAfter(s: State, step: Step, h: Handle)
    requires Enabled(s, step) && h in s.uuids && h in s.blocks
    requires s.blocks[h].refcount > 0 && s.blocks[h].rawRefs > 0
    ensures var t := Apply(s, step);
            h in t.blocks && t.blocks[h].size == s.blocks[h].size && t.blocks[h].reuse == s.blocks[h].reuse
  {
  }

  lemma PtrsAfter(s: State, step: Step)
    requires Enabled(s, step)
    ensures forall q <- s.ptrs :: step != DropStep(q) ==>
              q in Apply(s, step).ptrs && Apply(s, step).ptrs[q] == s.ptrs[q]
    ensures EventOf(s, step) == Internal ==> Apply(s, step).ptrs == s.ptrs && Apply(s, step).issued == s.issued
  {
  }

  /** The object of a live pointer stays, with its size; its reuse count is not advanced. */
  lemma BlockKept(s: State, step: Step, q: PtrId)
    requires Inv(s) && Enabled(s, step) && q in s.ptrs
    ensures var h := s.ptrs[q].id.handle;
            && h in s.blocks && h in Apply(s, step).blocks
            && Apply(s, step).blocks[h].size == s.blocks[h].size
            && Apply(s, step).blocks[h].reuse == s.blocks[h].reuse
  {
    assert PtrOk(s, q);
    LivePtrCounted(s, q);
    LiveMappingCounted(s, s.ptrs[q].mapping);
    BlocksAfter(s, step, s.ptrs[q].id.handle);
  }

  /** No step but its own deleter takes a live pointer or its mapping away; clearing caches does not. */
  lemma LivePtrKept(s: State, step: Step, q: PtrId)
    requires Inv(s) && Enabled(s, step) && q in s.ptrs && step != DropStep(q)
    ensures var t := Apply(s, step);
            && q in t.ptrs && t.ptrs[q] == s.ptrs[q]
            && t.ptrs[q].mapping in t.mappings && t.mappings[t.ptrs[q].mapping] == s.mappings[s.ptrs[q].mapping]
  {
    PtrsAfter(s, step);
    StepInv(s, step);
    assert PtrOk(s, q) && PtrOk(Apply(s, step), q);
  }

  // --------------------------------------------------------------------- Ids never repeat

  function IdsOfStep(s: State, step: Step): seq<BlockId>
    requires Enabled(s, step)
  {
    match step
    case ReuseStep(_, _, _, q) => [Apply(s, step).ptrs[q].id]
    case CreateStep(_, _, _, _, q) => [Apply(s, step).ptrs[q].id]
    case _ => []
  }

  /** The ids that the allocate_shm calls of a run return, in order. */
  ghost function IdsReturned(s: State, steps: seq<Step>): seq<BlockId>
    requires ValidRun(s, steps)
    decreases |steps|
  {
    if |steps| == 0 then [] else IdsOfStep(s, steps[0]) + IdsReturned(Apply(s, steps[0]), steps[1..])
  }

  lemma AllocIdFresh(s: State, step: Step)
    requires Inv(s) && Enabled(s, step)
    ensures Apply(s, step).issued == s.issued + (set id | id in IdsOfStep(s, step))
    ensures forall id <- IdsOfStep(s, step) :: id !in s.issued
  {
  }

  ghost predicate FreshAndDistinct(ids: seq<BlockId>, issued: set<BlockId>) {
    && (forall i | 0 <= i < |ids| :: ids[i] !in issued)
    && (forall i, j | 0 <= i < j < |ids| :: ids[i] != ids[j])
  }

  /** No id is ever returned twice, by any process, however often its block is recycled. */
  lemma {:induction false} IdsNeverRepeat(s: State, steps: seq<Step>)
    requires Inv(s) && ValidRun(s, steps)
    ensures FreshAndDistinct(IdsReturned(s, steps), s.issued)
    decreases |steps|
  {
    if |steps| > 0 {
      AllocIdFresh(s, steps[0]);
      StepInv(s, steps[0]);
      IdsNeverRepeat(Apply(s, steps[0]), steps[1..]);
    }
  }

  /** A step gives no life to an id that was issued before and is dead. */
  lemma DeadIdStep(s: State, step: Step, id: BlockId)
    requires Inv(s) && Enabled(s, step) && id in s.issued && !IdLive(s, id)
    ensures id in Apply(s, step).issued && !IdLive(Apply(s, step), id)
  {
    AllocIdFresh(s, step);
    NewPtrs(s, step);
    if step.LoadCheckStep? {
      LoadChecksIffLive(s, s.loads[step.op].id);
    }
  }

  /** The pointers after a step: those before it, and one that an allocation or a load hands out. */
  lemma NewPtrs(s: State, step: Step)
    requires Enabled(s, step)
    ensures forall q <- Apply(s, step).ptrs ::
              || (q in s.ptrs && Apply(s, step).ptrs[q] == s.ptrs[q])
              || Apply(s, step).ptrs[q].id in IdsOfStep(s, step)
              || (step.LoadCheckStep? && Apply(s, step).ptrs[q].id == s.loads[step.op].id)
  {
  }

  /**
    An id that is dead once is refused for ever: neither the holders of other ids of its block nor
    recycling make it pass the checks of load_shm again.
   */
  lemma {:induction false} DeadIdRefused(s: State, steps: seq<Step>, id: BlockId)
    requires Inv(s) && ValidRun(s, steps) && id in s.issued && !IdLive(s, id)
    ensures !CheckPasses(RunFrom(s, steps), id)
    decreases |steps|
  {
    if |steps| == 0 {
      LoadChecksIffLive(s, id);
    } else {
      DeadIdStep(s, steps[0], id);
      StepInv(s, steps[0]);
      DeadIdRefused(Apply(s, steps[0]), steps[1..], id);
    }
  }

  // ---------------------------------------------------------- Mappings and removed objects

  /** A raw reference count that has reached zero, or whose object is gone, never rises again. */
  lemma DeadStaysDeadStep(s: State, step: Step, h: Handle)
    requires Inv(s) && Enabled(s, step) && h in s.uuids && !AttachPasses(s, h)
    ensures h in Apply(s, step).uuids && !AttachPasses(Apply(s, step), h)
  {
    if step.UnmapStep? {
      LiveMappingCounted(s, step.mapping);
    } else {
      OnlyUnmapLowers(s, step, h);
    }
  }

  lemma OnlyUnmapLowers(s: State, step: Step, h: Handle)
    requires Enabled(s, step) && !step.UnmapStep? && h in s.uuids && !AttachPasses(s, h)
    ensures h in Apply(s, step).uuids && !AttachPasses(Apply(s, step), h)
  {
  }

  lemma {:induction false} DeadStaysDead(s: State, steps: seq<Step>, h: Handle)
    requires Inv(s) && ValidRun(s, steps) && h in s.uuids && !AttachPasses(s, h)
    ensures !AttachPasses(RunFrom(s, steps), h)
    decreases |steps|
  {
    if |steps| > 0 {
      DeadStaysDeadStep(s, steps[0], h);
      StepInv(s, steps[0]);
      DeadStaysDead(Apply(s, steps[0]), steps[1..], h);
    }
  }

  /** All user pointers are dropped and no call is running. */
  predicate Idle(s: State) {
    s.ptrs == map[] && s.loads == map[] && s.closing == map[]
  }

  /** What is left to run then: free_unused_shm_blocks and destructors. */
  predicate IsFree(step: Step) {
    step.ClearCreatedStep? || step.ClearLoadedStep? || step.UnmapStep? || step.RemoveObjectStep?
  }

  ghost predicate AllOrphans(s: State) {
    forall m <- s.mappings :: s.mappings[m].owner.Orphan?
  }

  /** The mapping lost its owner, or the cache that owns it was not cleared. */
  predicate FreedBy(x: Mapping, steps: seq<Step>) {
    match x.owner
    case InCreated(_) => ClearCreatedStep(x.proc) !in steps
    case InLoaded => ClearLoadedStep(x.proc) !in steps
    case owner => owner == Orphan
  }

  lemma IdleOwners(s: State)
    requires Inv(s) && Idle(s)
    ensures forall m <- s.mappings :: FreedBy(s.mappings[m], [])
  {
    forall m | m in s.mappings
      ensures FreedBy(s.mappings[m], [])
    {
      assert MappingOk(s, m);
    }
  }

  /** What one step of them leaves of the mappings ms. */
  ghost predicate FreedOnce(ms: map<MapId, Mapping>, ns: map<MapId, Mapping>, step: Step) {
    forall m <- ns :: m in ms && FreedBy(ns[m], [step]) && (ns[m] == ms[m] || ns[m].owner.Orphan?)
  }

  lemma FreeStepOwners(s: State, step: Step)
    requires Idle(s) && Enabled(s, step) && IsFree(step) && forall m <- s.mappings :: FreedBy(s.mappings[m], [])
    ensures Idle(Apply(s, step)) && FreedOnce(s.mappings, Apply(s, step).mappings, step)
  {
    match step
    case ClearCreatedStep(p) => assert Apply(s, step).mappings == OrphanCreated(s.mappings, p);
    case ClearLoadedStep(p) => assert Apply(s, step).mappings == OrphanLoaded(s.mappings, p);
    case UnmapStep(m) => assert Apply(s, step).mappings == s.mappings - {m};
    case RemoveObjectStep(_) =>
  }

  lemma FreedByMore(x: Mapping, former: Mapping, first: Step, rest: seq<Step>)
    requires FreedBy(x, rest) && FreedBy(former, [first]) && (x == former || x.owner.Orphan?)
    ensures FreedBy(x, [first] + rest)
  {
  }

  /**
    free_unused_shm_blocks in any processes, in any order and interleaved with any destructors: no
    pointers appear, and a mapping still has an owner only in a cache that was not cleared.
   */
  lemma {:induction false} FreedInAnyOrder(s: State, steps: seq<Step>)
    requires Inv(s) && Idle(s) && ValidRun(s, steps) && forall step <- steps :: IsFree(step)
    ensures var t := RunFrom(s, steps);
            && Inv(t) && Idle(t)
            && (forall m <- t.mappings :: FreedBy(t.mappings[m], steps))
            && (forall m <- t.mappings ::
                  m in s.mappings && (t.mappings[m] == s.mappings[m] || t.mappings[m].owner.Orphan?))
    decreases |steps|
  {
    if |steps| == 0 {
      IdleOwners(s);
    } else {
      var s1 := Apply(s, steps[0]);
      StepInv(s, steps[0]);
      IdleOwners(s);
      FreeStepOwners(s, steps[0]);
      FreedInAnyOrder(s1, steps[1..]);
      assert steps == [steps[0]] + steps[1..];
      var t := RunFrom(s, steps);
      forall m | m in t.mappings
        ensures FreedBy(t.mappings[m], steps)
      {
        FreedByMore(t.mappings[m], s1.mappings[m], steps[0], steps[1..]);
      }
    }
  }

  /** Once every process that has mappings has freed, none of them has an owner. */
  lemma AllFreed(s: State, steps: seq<Step>)
    requires Inv(s) && Idle(s) && ValidRun(s, steps) && forall step <- steps :: IsFree(step)
    requires forall m <- s.mappings ::
               ClearCreatedStep(s.mappings[m].proc) in steps && ClearLoadedStep(s.mappings[m].proc) in steps
    ensures AllOrphans(RunFrom(s, steps))
  {
    FreedInAnyOrder(s, steps);
    var t := RunFrom(s, steps);
    forall m | m in t.mappings
      ensures t.mappings[m].owner.Orphan?
    {
      assert FreedBy(t.mappings[m], steps);
    }
  }

  /**
    Once every pointer is dropped and the caches are cleared, destructors are the only thing
    left to run; each of them makes progress, and when none is left no shared object remains.
   */
  lemma NothingLeaks(s: State)
    requires Inv(s) && Idle(s) && AllOrphans(s)
    ensures forall m <- s.mappings :: Enabled(s, UnmapStep(m))
    ensures (forall m :: !Enabled(s, UnmapStep(m))) && (forall h :: !Enabled(s, RemoveObjectStep(h)))
            <==> s.blocks == map[] && s.mappings == map[]
  {
    forall m | m in s.mappings
      ensures Enabled(s, UnmapStep(m))
    {
      LiveMappingCounted(s, m);
    }
    if (forall m :: !Enabled(s, UnmapStep(m))) && (forall h :: !Enabled(s, RemoveObjectStep(h))) {
      forall m
        ensures m !in s.mappings
      {
        assert !Enabled(s, UnmapStep(m));
      }
      forall h
        ensures h !in s.blocks
      {
        assert !Enabled(s, RemoveObjectStep(h));
        assert MappingsOf(s.mappings, h) == {};
      }
    }
  }

  lemma DestructorSmaller(s: State, step: Step)
    requires Enabled(s, step) && (step.UnmapStep? || step.RemoveObjectStep?)
    ensures |Apply(s, step).mappings| + |Apply(s, step).blocks| < |s.mappings| + |s.blocks|
  {
    var t := Apply(s, step);
    if step.UnmapStep? {
      assert t.mappings.Keys == s.mappings.Keys - {step.mapping};
      assert t.blocks.Keys == s.blocks.Keys;
    } else {
      assert t.blocks.Keys == s.blocks.Keys - {step.handle};
    }
  }

  lemma DestructorProgress(s: State, step: Step)
    requires Inv(s) && Idle(s) && AllOrphans(s) && Enabled(s, step)
    requires step.UnmapStep? || step.RemoveObjectStep?
    ensures var t := Apply(s, step);
            && Inv(t) && Idle(t) && AllOrphans(t)
            && |t.mappings| + |t.blocks| < |s.mappings| + |s.blocks|
  {
    StepInv(s, step);
    DestructorSmaller(s, step);
  }

  /** The run of destructors that NothingLeaks speaks about exists and ends with nothing. */
  lemma {:induction false} DestructorsRun(s: State) returns (steps: seq<Step>)
    requires Inv(s) && Idle(s) && AllOrphans(s)
    ensures ValidRun(s, steps) && RunFrom(s, steps).blocks == map[]
    ensures forall step <- steps :: step.UnmapStep? || step.RemoveObjectStep?
    decreases |s.mappings| + |s.blocks|
  {
    NothingLeaks(s);
    var step: Step;
    if m :| Enabled(s, UnmapStep(m)) {
      step := UnmapStep(m);
    } else if h :| Enabled(s, RemoveObjectStep(h)) {
      step := RemoveObjectStep(h);
    } else {
      return [];
    }
    DestructorProgress(s, step);
    var rest := DestructorsRun(Apply(s, step));
    steps := [step] + rest;
    assert steps[1..] == rest;
  }

  // --------------------------------------------------------- Refinement of a cacheless allocator

  /** An allocator without caches: live pointers with the id and size they were obtained with. */
  datatype Plain = Plain(live: map<PtrId, (BlockId, nat)>, issued: set<BlockId>)

  datatype Event =
    | Allocate(ptr: PtrId, id: BlockId, size: nat)
    | LoadOk(ptr: PtrId, id: BlockId)
    | LoadFail(id: BlockId)
    | Release(ptr: PtrId)
    | Internal

  ghost predicate PlainNext(a: Plain, e: Event, b: Plain) {
    match e
    case Allocate(q, id, size) =>
      q !in a.live && id !in a.issued && b == Plain(a.live[q := (id, size)], a.issued + {id})
    case LoadOk(q, id) =>
      q !in a.live && exists r :: r in a.live && a.live[r].0 == id && b == a.(live := a.live[q := a.live[r]])
    case LoadFail(id) =>
      (forall r <- a.live :: a.live[r].0 != id) && b == a
    case Release(q) => q in a.live && b == a.(live := a.live - {q})
    case Internal => b == a
  }

  function SizeOf(blocks: map<Handle, Block>, h: Handle): nat {
    if h in blocks then blocks[h].size else 0
  }

  function Abs(s: State): Plain {
    Plain(map q | q in s.ptrs :: (s.ptrs[q].id, SizeOf(s.blocks, s.ptrs[q].id.handle)), s.issued)
  }

  function EventOf(s: State, step: Step): Event
    requires Enabled(s, step)
  {
    match step
    case ReuseStep(p, size, m, q) =>
      Allocate(q, BlockId(s.mappings[m].handle, s.blocks[s.mappings[m].handle].reuse + 1), size)
    case CreateStep(p, size, h, m, q) => Allocate(q, BlockId(h, 0), size)
    case DropStep(q) => Release(q)
    case LoadOpenErrorStep(_, _, id) => LoadFail(id)
    case LoadAttachErrorStep(op) => LoadFail(s.loads[op].id)
    case LoadCheckStep(op, q) => LoadOk(q, s.loads[op].id)
    case LoadCheckErrorStep(op) => LoadFail(s.loads[op].id)
    case _ => Internal
  }

  ghost predicate SizesKept(s: State, t: State) {
    forall q <- s.ptrs :: SizeOf(t.blocks, s.ptrs[q].id.handle) == SizeOf(s.blocks, s.ptrs[q].id.handle)
  }

  lemma StepKeepsSizes(s: State, step: Step)
    requires Inv(s) && Enabled(s, step)
    ensures SizesKept(s, Apply(s, step))
  {
    var t := Apply(s, step);
    forall q | q in s.ptrs
      ensures SizeOf(t.blocks, s.ptrs[q].id.handle) == SizeOf(s.blocks, s.ptrs[q].id.handle)
    {
      BlockKept(s, step, q);
    }
  }

  lemma AbsAdd(s: State, t: State, q: PtrId, x: Ptr)
    requires SizesKept(s, t) && q !in s.ptrs && t.ptrs == s.ptrs[q := x]
    ensures Abs(t).live == Abs(s).live[q := (x.id, SizeOf(t.blocks, x.id.handle))]
  {
  }

  lemma AbsKeep(s: State, t: State, gone: set<PtrId>)
    requires SizesKept(s, t) && t.ptrs == s.ptrs - gone
    ensures Abs(t).live == Abs(s).live - gone
  {
  }

  lemma AllocRefines(s: State, step: Step)
    requires Inv(s) && Enabled(s, step) && (step.ReuseStep? || step.CreateStep?)
    ensures PlainNext(Abs(s), EventOf(s, step), Abs(Apply(s, step)))
  {
    var t := Apply(s, step);
    StepKeepsSizes(s, step);
    AllocIdFresh(s, step);
    if step.ReuseStep? {
      assert MappingOk(s, step.mapping);
    }
    AbsAdd(s, t, step.ptr, t.ptrs[step.ptr]);
  }

  lemma LoadCheckRefines(s: State, op: OpId, q: PtrId)
    requires Inv(s) && CanLoadCheck(s, op, q)
    ensures PlainNext(Abs(s), LoadOk(q, s.loads[op].id), Abs(LoadCheck(s, op, q)))
  {
    var id := s.loads[op].id;
    var t := LoadCheck(s, op, q);
    LoadChecksIffLive(s, id);
    StepKeepsSizes(s, LoadCheckStep(op, q));
    var r :| r in s.ptrs && s.ptrs[r].id == id;
    AbsAdd(s, t, q, t.ptrs[q]);
    assert Abs(t).live == Abs(s).live[q := Abs(s).live[r]];
  }

  lemma LoadFailRefines(s: State, step: Step)
    requires Inv(s) && Enabled(s, step)
    requires step.LoadOpenErrorStep? || step.LoadCheckErrorStep? || step.LoadAttachErrorStep?
    ensures PlainNext(Abs(s), EventOf(s, step), Abs(Apply(s, step)))
  {
    var id := if step.LoadOpenErrorStep? then step.id else s.loads[step.op].id;
    if IdLive(s, id) {
      LiveIdLoads(s, id, step.op);
    }
    forall r | r in s.ptrs
      ensures s.ptrs[r].id != id
    {
    }
  }

  lemma DropEffect(s: State, q: PtrId)
    requires CanDrop(s, q)
    ensures Apply(s, DropStep(q)).ptrs == s.ptrs - {q} && Apply(s, DropStep(q)).issued == s.issued
  {
  }

  lemma AbsRelease(s: State, t: State, q: PtrId)
    requires SizesKept(s, t) && q in s.ptrs && t.ptrs == s.ptrs - {q} && t.issued == s.issued
    ensures PlainNext(Abs(s), Release(q), Abs(t))
  {
    AbsKeep(s, t, {q});
  }

  lemma AbsSame(s: State, t: State)
    requires SizesKept(s, t) && t.ptrs == s.ptrs && t.issued == s.issued
    ensures Abs(t) == Abs(s)
  {
    AbsKeep(s, t, {});
  }

  lemma ReleaseRefines(s: State, q: PtrId)
    requires Inv(s) && CanDrop(s, q)
    ensures PlainNext(Abs(s), Release(q), Abs(Apply(s, DropStep(q))))
  {
    StepKeepsSizes(s, DropStep(q));
    DropEffect(s, q);
    AbsRelease(s, Apply(s, DropStep(q)), q);
  }

  lemma InternalRefines(s: State, step: Step)
    requires Inv(s) && Enabled(s, step) && EventOf(s, step) == Internal
    ensures Abs(Apply(s, step)) == Abs(s)
  {
    StepKeepsSizes(s, step);
    PtrsAfter(s, step);
    AbsSame(s, Apply(s, step));
  }

  /** Every step of the caching allocator is a step of the cacheless one, or invisible to it. */
  lemma StepRefines(s: State, step: Step)
    requires Inv(s) && Enabled(s, step)
    ensures PlainNext(Abs(s), EventOf(s, step), Abs(Apply(s, step)))
  {
    match step
    case ReuseStep(_, _, _, _) => AllocRefines(s, step);
    case CreateStep(_, _, _, _, _) => AllocRefines(s, step);
    case DropStep(q) => ReleaseRefines(s, q);
    case LoadCheckStep(op, q) => LoadCheckRefines(s, op, q);
    case LoadCheckErrorStep(_) => LoadFailRefines(s, step);
    case LoadAttachErrorStep(_) => LoadFailRefines(s, step);
    case LoadOpenErrorStep(_, _, _) => LoadFailRefines(s, step);
    case _ => InternalRefines(s, step);
  }

  /** A run of the cacheless allocator with these events. */
  ghost predicate PlainRun(a: Plain, events: seq<Event>, b: Plain)
    decreases |events|
  {
    if events == [] then a == b else exists next :: PlainNext(a, events[0], next) && PlainRun(next, events[1..], b)
  }

  ghost function EventsOf(s: State, steps: seq<Step>): seq<Event>
    requires ValidRun(s, steps)
    decreases |steps|
  {
    if |steps| == 0 then [] else [EventOf(s, steps[0])] + EventsOf(Apply(s, steps[0]), steps[1..])
  }

  /** Every run of the caching allocator is one of the cacheless allocator with the same events. */
  lemma {:induction false} RunRefines(s: State, steps: seq<Step>)
    requires Inv(s) && ValidRun(s, steps)
    ensures PlainRun(Abs(s), EventsOf(s, steps), Abs(RunFrom(s, steps)))
    decreases |steps|
  {
    if |steps| > 0 {
      var next := Apply(s, steps[0]);
      StepInv(s, steps[0]);
      StepRefines(s, steps[0]);
      RunRefines(next, steps[1..]);
      assert EventsOf(s, steps)[1..] == EventsOf(next, steps[1..]);
      assert PlainNext(Abs(s), EventsOf(s, steps)[0], Abs(next));
    }
  }
}

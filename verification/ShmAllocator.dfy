/**
  The allocator classes of one process, working on blocks in shared memory. Between calls the
  caches are exactly what the step machine says they are, and each call is a run of its steps.
 */
module ShmAllocator {
  import opened ShmModel
  import opened ShmTheorems
  import opened Wrappers

  /** sizeof(SHMBlockInternal) where interprocess_mutex takes 40 bytes; only its being constant matters. */
  const BLOCK_INTERNAL_BYTES: nat := 56

  ghost predicate Reachable(s: State) {
    exists steps :: ValidRun(INIT, steps) && RunFrom(INIT, steps) == s
  }

  lemma {:induction false} RunAppend(s: State, steps: seq<Step>, step: Step)
    requires ValidRun(s, steps) && Enabled(RunFrom(s, steps), step)
    ensures ValidRun(s, steps + [step]) && RunFrom(s, steps + [step]) == Apply(RunFrom(s, steps), step)
    decreases |steps|
  {
    if steps == [] {
      assert [step][1..] == [] && [] + [step] == [step];
      assert ValidRun(Apply(s, step), []);
    } else {
      RunAppend(Apply(s, steps[0]), steps[1..], step);
      assert (steps + [step])[1..] == steps[1..] + [step];
    }
  }

  lemma ReachableStep(s: State, step: Step)
    requires Reachable(s) && Enabled(s, step)
    ensures Reachable(Apply(s, step))
  {
    var steps :| ValidRun(INIT, steps) && RunFrom(INIT, steps) == s;
    RunAppend(INIT, steps, step);
  }

  lemma ReachableIsInv(s: State)
    requires Reachable(s)
    ensures Inv(s)
  {
    var steps :| ValidRun(INIT, steps) && RunFrom(INIT, steps) == s;
    ReachableInv(steps);
  }

  lemma AttachedInBlocks(s: State, op: OpId)
    requires Reachable(s) && op in s.loads && s.loads[op].Attached?
    ensures s.loads[op].mapping in s.mappings && s.loads[op].id.handle in s.blocks
    ensures s.mappings[s.loads[op].mapping] == Mapping(s.loads[op].proc, s.loads[op].id.handle, ByLoad(op))
    ensures s.blocks[s.loads[op].id.handle].rawRefs > 0
  {
    ReachableIsInv(s);
    assert MappingOk(s, s.loads[op].mapping);
    LiveMappingCounted(s, s.loads[op].mapping);
  }

  /** The named objects, and the state of the step machine they belong to. */
  class SharedMemory {
    var blocks: map<Handle, Block>
    ghost var s: State

    ghost predicate Valid()
      reads this
    {
      Reachable(s) && blocks == s.blocks
    }

    constructor ()
      ensures Valid() && s == INIT
    {
      blocks := map[];
      s := INIT;
      new;
      assert ValidRun(INIT, []) && RunFrom(INIT, []) == INIT;
    }

    ghost method Take(step: Step)
      requires Reachable(s) && Enabled(s, step)
      modifies `s
      ensures Reachable(s) && s == Apply(old(s), step)
    {
      ReachableStep(s, step);
      s := Apply(s, step);
    }

    /** A new object with both headers initialized and both counts at one. */
    method CreateRaw(proc: Proc, size: nat, uuid: Handle, m: MapId, q: PtrId)
      requires Valid() && CanCreate(s, uuid, m, q)
      modifies this
      ensures Valid() && s == Create(old(s), proc, size, uuid, m, q)
    {
      Take(CreateStep(proc, size, uuid, m, q));
      blocks := blocks[uuid := Block(size, 1, 0, 1)];
    }

    /** The RawSHMBlock constructor that loads; `ok` is false where it throws. */
    method LoadRaw(proc: Proc, id: BlockId, op: OpId, m: MapId) returns (ok: bool)
      requires Valid() && op !in s.loads && m !in s.mappings
      modifies this
      ensures Valid() && (ok <==> AttachPasses(old(s), id.handle))
      ensures s == if ok then LoadAttach(LoadOpen(old(s), op, proc, id), op, m) else old(s)
    {
      var h := id.handle;
      if h !in blocks {
        Take(LoadOpenErrorStep(op, proc, id));
        return false;
      }
      Take(LoadOpenStep(op, proc, id));
      if blocks[h].rawRefs == 0 {
        Take(LoadAttachErrorStep(op));
        assert s.loads == old(s.loads);
        return false;
      }
      AttachRaw(op, m, h);
      return true;
    }

    method AttachRaw(op: OpId, m: MapId, h: Handle)
      requires Valid() && CanLoadAttach(s, op, m) && s.loads[op].id.handle == h
      modifies this
      ensures Valid() && s == LoadAttach(old(s), op, m)
    {
      Take(LoadAttachStep(op, m));
      blocks := blocks[h := blocks[h].(rawRefs := blocks[h].rawRefs + 1)];
    }

    /** The sanity checks of load_shm under the block mutex; `ok` is false where they throw. */
    method CheckLoad(op: OpId, id: BlockId, q: PtrId) returns (ok: bool)
      requires Valid() && op in s.loads && s.loads[op].Attached? && s.loads[op].id == id && FreshPtr(s, q)
      modifies this
      ensures Valid() && old(s).loads[op].mapping in old(s).mappings
      ensures ok <==> CheckPasses(old(s), id)
      ensures s == if ok then LoadCheck(old(s), op, q) else LoadCheckError(old(s), op)
    {
      var h := id.handle;
      AttachedInBlocks(s, op);
      if blocks[h].refcount == 0 || id.reuse != blocks[h].reuse {
        Take(LoadCheckErrorStep(op));
        return false;
      }
      Take(LoadCheckStep(op, q));
      blocks := blocks[h := blocks[h].(refcount := blocks[h].refcount + 1)];
      return true;
    }

    /** ~RawSHMBlock: the last owner also removes the object. */
    method DestroyRaw(m: MapId, h: Handle)
      requires Valid() && CanUnmap(s, m) && s.mappings[m].handle == h
      modifies this
      ensures Valid() && s == Destroyed(old(s), m)
      ensures h in blocks <==> old(blocks)[h].rawRefs > 1
      ensures h in blocks ==> blocks[h] == old(blocks)[h].(rawRefs := old(blocks)[h].rawRefs - 1)
      ensures blocks - {h} == old(blocks) - {h} && s.mappings == old(s).mappings - {m}
      ensures OnlyDestroyed(old(s), s)
    {
      DestroyedFollows(s, m);
      Take(UnmapStep(m));
      blocks := blocks[h := blocks[h].(rawRefs := blocks[h].rawRefs - 1)];
      if blocks[h].rawRefs == 0 {
        Take(RemoveObjectStep(h));
        blocks := blocks - {h};
      }
    }
  }

  /** A raw block is unmapped, and its object removed when that was the last mapping. */
  function Destroyed(s: State, m: MapId): State
    requires CanUnmap(s, m)
  {
    var h := s.mappings[m].handle;
    var t := Unmap(s, m);
    if t.blocks[h].rawRefs == 0 then RemoveObject(t, h) else t
  }

  ghost predicate Mapped(ms: map<MapId, Mapping>, h: Handle) {
    exists m :: m in ms && ms[m].handle == h
  }

  /** An object that was mapped is still there exactly if it still is: nothing leaks and nothing goes too early. */
  ghost predicate ObjectsFollow(s: State, t: State) {
    forall m <- s.mappings :: s.mappings[m].handle in t.blocks <==> Mapped(t.mappings, s.mappings[m].handle)
  }

  /** Destructors of raw blocks, and nothing else, may have run in between. */
  ghost predicate OnlyDestroyed(s: State, t: State) {
    && ObjectsFollow(s, t) && t.blocks.Keys <= s.blocks.Keys
    && forall m <- t.mappings :: m in s.mappings && t.mappings[m].handle == s.mappings[m].handle
  }

  lemma DestroyedFollows(s: State, m: MapId)
    requires Reachable(s) && CanUnmap(s, m)
    ensures OnlyDestroyed(s, Destroyed(s, m))
  {
    ReachableIsInv(s);
    var t := Destroyed(s, m);
    var h := s.mappings[m].handle;
    forall n | n in s.mappings
      ensures s.mappings[n].handle in t.blocks <==> Mapped(t.mappings, s.mappings[n].handle)
    {
      if s.mappings[n].handle == h {
        LastOne(s, m);
      } else {
        assert MappingOk(s, n) && t.mappings[n] == s.mappings[n];
      }
    }
  }

  lemma LastOne(s: State, m: MapId)
    requires CountsExact(s) && CanUnmap(s, m)
    ensures s.mappings[m].handle in Destroyed(s, m).blocks <==> Mapped(Destroyed(s, m).mappings, s.mappings[m].handle)
  {
    RemoveMapping(s.mappings, m);
    MappedIsCounted(s.mappings - {m}, s.mappings[m].handle);
  }

  lemma MappedIsCounted(ms: map<MapId, Mapping>, h: Handle)
    ensures Mapped(ms, h) <==> |MappingsOf(ms, h)| > 0
  {
    if |MappingsOf(ms, h)| > 0 {
      var m :| m in MappingsOf(ms, h);
    }
    if m :| m in ms && ms[m].handle == h {
      assert m in MappingsOf(ms, h);
    }
  }

  lemma DestroyedTwice(s: State, t: State, u: State)
    requires OnlyDestroyed(s, t) && OnlyDestroyed(t, u)
    ensures OnlyDestroyed(s, u)
  {
  }

  /** Everything that was mapped in s still is in t, so what holds from t on holds from s on. */
  lemma FollowsFrom(s: State, t: State, u: State)
    requires ObjectsFollow(t, u)
    requires forall m <- s.mappings :: m in t.mappings && t.mappings[m].handle == s.mappings[m].handle
    ensures ObjectsFollow(s, u)
  {
  }

  lemma CheckedFollows(s: State, op: OpId, q: PtrId)
    requires Reachable(s) && CanLoadCheck(s, op, q)
    ensures ObjectsFollow(s, LoadCheck(s, op, q))
  {
    ReachableStep(s, LoadCheckStep(op, q));
    ReachableIsInv(LoadCheck(s, op, q));
    NothingDestroyed(s, LoadCheck(s, op, q));
  }

  lemma RefusedFollows(s: State, op: OpId, t: State)
    requires CanLoadCheckError(s, op) && ObjectsFollow(LoadCheckError(s, op), t)
    ensures ObjectsFollow(s, t)
  {
    FollowsFrom(s, LoadCheckError(s, op), t);
  }

  lemma ReleasedFollows(s: State, q: PtrId, t: State, u: State)
    requires CanDrop(s, q) && s.ptrs[q].kind.Loaded? && PtrOk(s, q) && ObjectsFollow(DropLoaded(s, q), t)
    requires u.blocks == t.blocks && u.mappings == t.mappings
    ensures ObjectsFollow(s, u)
  {
    FollowsFrom(s, DropLoaded(s, q), u);
  }

  lemma SelfFollows(s: State)
    requires Reachable(s)
    ensures ObjectsFollow(s, s) && OnlyDestroyed(s, s)
  {
    ReachableIsInv(s);
    NothingDestroyed(s, s);
  }

  lemma NothingDestroyed(s: State, t: State)
    requires Inv(t) && forall m <- s.mappings :: m in t.mappings && t.mappings[m].handle == s.mappings[m].handle
    ensures ObjectsFollow(s, t)
  {
    forall m | m in s.mappings
      ensures s.mappings[m].handle in t.blocks && Mapped(t.mappings, s.mappings[m].handle)
    {
      assert MappingOk(t, m);
    }
  }

  // ------------------------------------------------------------------------ AllocationCache

  datatype RawBlockWrapper = RawBlockWrapper(mapping: MapId, handle: Handle)

  type CreatedMap = map<nat, seq<RawBlockWrapper>>

  function Range(cache: CreatedMap, size: nat): seq<RawBlockWrapper> {
    if size in cache then cache[size] else []
  }

  predicate InBlocks(range: seq<RawBlockWrapper>, blocks: map<Handle, Block>) {
    forall w <- range :: w.handle in blocks
  }

  /** The position of the first block, from `start` on, that nobody uses. */
  function FirstUnused(range: seq<RawBlockWrapper>, blocks: map<Handle, Block>, start: nat): (r: Option<nat>)
    requires InBlocks(range, blocks) && start <= |range|
    ensures r.Some? ==> start <= r.value < |range| && blocks[range[r.value].handle].refcount == 0
    ensures r.Some? ==> forall i | start <= i < r.value :: blocks[range[i].handle].refcount != 0
    ensures r.None? ==> forall i | start <= i < |range| :: blocks[range[i].handle].refcount != 0
    decreases |range| - start
  {
    if start == |range| then None
    else if blocks[range[start].handle].refcount == 0 then Some(start)
    else FirstUnused(range, blocks, start + 1)
  }

  function Recycled(b: Block): Block {
    b.(refcount := b.refcount + 1, reuse := b.reuse + 1)
  }

  class AllocationCache {
    var createdCache: CreatedMap

    constructor ()
      ensures createdCache == map[]
    {
      createdCache := map[];
    }

    /** Takes the first unused block of the size, if any, for a new user under a new reuse count. */
    method MaybeGetAndPop(requestedSize: nat, shm: SharedMemory) returns (r: Option<(MapId, BlockId)>)
      requires InBlocks(Range(createdCache, requestedSize), shm.blocks)
      modifies `createdCache, shm`blocks
      ensures var range := Range(old(createdCache), requestedSize);
              match FirstUnused(range, old(shm.blocks), 0)
              case None =>
                r == None && createdCache == old(createdCache)[requestedSize := range] && shm.blocks == old(shm.blocks)
              case Some(i) =>
                var h := range[i].handle;
                && r == Some((range[i].mapping, BlockId(h, old(shm.blocks)[h].reuse + 1)))
                && createdCache == old(createdCache)[requestedSize := Remove(range, i)]
                && shm.blocks == old(shm.blocks)[h := Recycled(old(shm.blocks)[h])]
    {
      var range := Range(createdCache, requestedSize);
      createdCache := createdCache[requestedSize := range];
      var i := 0;
      while i < |range|
        invariant 0 <= i <= |range|
        invariant FirstUnused(range, shm.blocks, i) == FirstUnused(range, shm.blocks, 0)
        invariant shm.blocks == old(shm.blocks) && createdCache == old(createdCache)[requestedSize := range]
      {
        var h := range[i].handle;
        var block := shm.blocks[h];
        if block.refcount == 0 {
          shm.blocks := shm.blocks[h := Recycled(block)];
          createdCache := createdCache[requestedSize := Remove(range, i)];
          return Some((range[i].mapping, BlockId(h, block.reuse + 1)));
        }
        i := i + 1;
      }
      return None;
    }

    method Insert(sizeBytes: nat, handle: Handle, item: MapId)
      modifies this
      ensures createdCache
              == old(createdCache)[sizeBytes := Range(old(createdCache), sizeBytes) + [RawBlockWrapper(item, handle)]]
    {
      createdCache := createdCache[sizeBytes := Range(createdCache, sizeBytes) + [RawBlockWrapper(item, handle)]];
    }

    /** Empties the cache; `freed` are the raw blocks that lose their owner. */
    method Clear() returns (freed: set<RawBlockWrapper>)
      modifies this
      ensures createdCache == map[]
      ensures forall w :: w in freed <==> exists size :: size in old(createdCache) && w in old(createdCache)[size]
    {
      freed := {};
      var sizes := createdCache.Keys;
      while sizes != {}
        invariant sizes <= createdCache.Keys && createdCache == old(createdCache)
        invariant forall w :: w in freed <==>
                    exists size :: size in createdCache.Keys - sizes && w in createdCache[size]
        decreases |sizes|
      {
        var size :| size in sizes;
        freed := freed + set w | w in createdCache[size];
        sizes := sizes - {size};
      }
      createdCache := map[];
    }
  }

  // ------------------------------------------------------------------------------ LoadCache

  class LoadCache {
    var loadedCache: map<Handle, MapId>

    constructor ()
      ensures loadedCache == map[]
    {
      loadedCache := map[];
    }

    method MaybeGetAndPop(handle: Handle) returns (r: Option<MapId>)
      modifies this
      ensures r == if handle in old(loadedCache) then Some(old(loadedCache)[handle]) else None
      ensures loadedCache == old(loadedCache) - {handle}
    {
      if handle in loadedCache {
        r := Some(loadedCache[handle]);
        loadedCache := loadedCache - {handle};
      } else {
        r := None;
      }
    }

    /** `evicted` is the raw block the assignment replaces. */
    method Insert(handle: Handle, item: MapId) returns (evicted: Option<MapId>)
      modifies this
      ensures evicted == if handle in old(loadedCache) then Some(old(loadedCache)[handle]) else None
      ensures loadedCache == old(loadedCache)[handle := item]
    {
      evicted := if handle in loadedCache then Some(loadedCache[handle]) else None;
      loadedCache := loadedCache[handle := item];
    }

    method Clear() returns (freed: set<RawBlockWrapper>)
      modifies this
      ensures loadedCache == map[]
      ensures forall w :: w in freed <==> w.handle in old(loadedCache) && old(loadedCache)[w.handle] == w.mapping
    {
      freed := set h | h in loadedCache :: RawBlockWrapper(loadedCache[h], h);
      loadedCache := map[];
    }
  }

  // ------------------------------------------------- The caches and the step machine agree

  type Mappings = map<MapId, Mapping>

  predicate Wrapped(ms: Mappings, p: Proc, size: nat, w: RawBlockWrapper) {
    w.mapping in ms && ms[w.mapping] == Mapping(p, w.handle, InCreated(size))
  }

  predicate InRange(range: seq<RawBlockWrapper>, m: MapId) {
    exists i :: 0 <= i < |range| && range[i].mapping == m
  }

  /** The created cache of process p holds each of its cached mappings, once. */
  ghost predicate CreatedMatches(cache: CreatedMap, ms: Mappings, p: Proc) {
    && (forall size <- cache, i | 0 <= i < |cache[size]| :: Wrapped(ms, p, size, cache[size][i]))
    && (forall size <- cache, i, j | 0 <= i < j < |cache[size]| :: cache[size][i].mapping != cache[size][j].mapping)
    && (forall m <- ms :: ms[m].proc == p && ms[m].owner.InCreated? ==> InRange(Range(cache, ms[m].owner.size), m))
  }

  ghost predicate LoadedMatches(cache: map<Handle, MapId>, loaded: map<(Proc, Handle), MapId>, p: Proc) {
    && (forall h :: h in cache <==> (p, h) in loaded)
    && (forall h <- cache :: cache[h] == loaded[(p, h)])
  }

  lemma InRangeRemove(range: seq<RawBlockWrapper>, i: nat, m: MapId)
    requires i < |range| && InRange(range, m) && range[i].mapping != m
    ensures InRange(Remove(range, i), m)
  {
    var j :| 0 <= j < |range| && range[j].mapping == m;
    if j < i {
      assert Remove(range, i)[j] == range[j];
    } else {
      assert Remove(range, i)[j - 1] == range[j];
    }
  }

  lemma PopMatches(cache: CreatedMap, ms: Mappings, p: Proc, size: nat, i: nat, owner: Owner)
    requires CreatedMatches(cache, ms, p) && i < |Range(cache, size)| && !owner.InCreated?
    requires Range(cache, size)[i].mapping in ms
    ensures var m := Range(cache, size)[i].mapping;
            CreatedMatches(cache[size := Remove(Range(cache, size), i)], SetOwner(ms, m, owner), p)
  {
    var m := Range(cache, size)[i].mapping;
    var range := cache[size];
    var cache' := cache[size := Remove(range, i)];
    var ms' := SetOwner(ms, m, owner);
    assert Wrapped(ms, p, size, range[i]);
    forall z <- cache', j | 0 <= j < |cache'[z]|
      ensures Wrapped(ms', p, z, cache'[z][j])
    {
      var k := if z == size && j >= i then j + 1 else j;
      assert cache'[z][j] == cache[z][k] && Wrapped(ms, p, z, cache[z][k]);
    }
    forall n <- ms' | ms'[n].proc == p && ms'[n].owner.InCreated?
      ensures InRange(Range(cache', ms'[n].owner.size), n)
    {
      assert InRange(Range(cache, ms[n].owner.size), n);
      if ms[n].owner.size == size {
        InRangeRemove(range, i, n);
      }
    }
  }

  lemma PushMatches(cache: CreatedMap, ms: Mappings, p: Proc, size: nat, w: RawBlockWrapper)
    requires CreatedMatches(cache, ms, p) && w.mapping in ms
    requires ms[w.mapping].proc == p && ms[w.mapping].handle == w.handle && !ms[w.mapping].owner.InCreated?
    ensures CreatedMatches(cache[size := Range(cache, size) + [w]], SetOwner(ms, w.mapping, InCreated(size)), p)
  {
    var range := Range(cache, size);
    var cache' := cache[size := range + [w]];
    var ms' := SetOwner(ms, w.mapping, InCreated(size));
    forall z <- cache', j | 0 <= j < |cache'[z]|
      ensures Wrapped(ms', p, z, cache'[z][j])
    {
      if z != size || j < |range| {
        assert Wrapped(ms, p, z, Range(cache, z)[j]);
      }
    }
    forall n <- ms' | ms'[n].proc == p && ms'[n].owner.InCreated?
      ensures InRange(Range(cache', ms'[n].owner.size), n)
    {
      if n == w.mapping {
        assert (range + [w])[|range|] == w;
      } else {
        var z := ms[n].owner.size;
        var j :| 0 <= j < |Range(cache, z)| && Range(cache, z)[j].mapping == n;
        assert Range(cache', z)[j].mapping == n;
      }
    }
    forall z <- cache', i, j | 0 <= i < j < |cache'[z]|
      ensures cache'[z][i].mapping != cache'[z][j].mapping
    {
      if z == size && j == |range| {
        assert Wrapped(ms, p, z, cache[z][i]);
      }
    }
  }

  /** The same mappings are in the created cache of process p. */
  ghost predicate SameCreated(ms: Mappings, ns: Mappings, p: Proc) {
    && (forall m <- ms :: ms[m].proc == p && ms[m].owner.InCreated? ==> m in ns && ns[m] == ms[m])
    && (forall m <- ns :: ns[m].proc == p && ns[m].owner.InCreated? ==> m in ms && ns[m] == ms[m])
  }

  /** Mappings that are in no created cache come and go without touching this one. */
  lemma CreatedFrame(cache: CreatedMap, ms: Mappings, ns: Mappings, p: Proc)
    requires CreatedMatches(cache, ms, p)
    requires SameCreated(ms, ns, p)
    ensures CreatedMatches(cache, ns, p)
  {
    forall size <- cache, i | 0 <= i < |cache[size]|
      ensures Wrapped(ns, p, size, cache[size][i])
    {
      assert Wrapped(ms, p, size, cache[size][i]);
    }
  }

  /** operator[] of the cache leaves an empty list behind. */
  lemma EmptyListMatches(cache: CreatedMap, ms: Mappings, p: Proc, size: nat)
    requires CreatedMatches(cache, ms, p)
    ensures CreatedMatches(cache[size := Range(cache, size)], ms, p)
  {
    var cache' := cache[size := Range(cache, size)];
    assert forall z :: Range(cache', z) == Range(cache, z);
    forall z <- cache', i | 0 <= i < |cache'[z]|
      ensures Wrapped(ms, p, z, cache'[z][i])
    {
      assert Wrapped(ms, p, z, cache[z][i]);
    }
  }

  /** No deleter of process p is between its unlock and its return. */
  ghost predicate Settled(s: State, p: Proc) {
    forall q <- s.closing :: s.closing[q] in s.mappings && s.mappings[s.closing[q]].proc != p
  }

  lemma CachedInBlocks(cache: CreatedMap, s: State, p: Proc, size: nat)
    requires Reachable(s) && CreatedMatches(cache, s.mappings, p)
    ensures InBlocks(Range(cache, size), s.blocks)
  {
    ReachableIsInv(s);
    forall w <- Range(cache, size)
      ensures w.handle in s.blocks
    {
      var i :| 0 <= i < |cache[size]| && cache[size][i] == w;
      assert Wrapped(s.mappings, p, size, cache[size][i]) && MappingOk(s, w.mapping);
    }
  }

  lemma NoneUnused(cache: CreatedMap, s: State, p: Proc, size: nat, q: PtrId)
    requires CreatedMatches(cache, s.mappings, p) && InBlocks(Range(cache, size), s.blocks)
    requires FirstUnused(Range(cache, size), s.blocks, 0).None?
    ensures forall n :: !CanReuse(s, p, size, n, q)
  {
  }

  lemma HeldCanDrop(s: State, q: PtrId)
    requires Reachable(s) && q in s.ptrs
    ensures CanDrop(s, q) && PtrOk(s, q)
  {
    ReachableIsInv(s);
    assert PtrOk(s, q);
    LivePtrCounted(s, q);
  }

  /** The caches of process p are what the step machine says. */
  ghost predicate Agrees(created: CreatedMap, loaded: map<Handle, MapId>, s: State, p: Proc) {
    CreatedMatches(created, s.mappings, p) && LoadedMatches(loaded, s.loaded, p) && Settled(s, p)
  }

  lemma ReuseAgrees(created: CreatedMap, loaded: map<Handle, MapId>, s: State, p: Proc, size: nat, i: nat, q: PtrId)
    requires Agrees(created, loaded, s, p) && i < |Range(created, size)|
    requires CanReuse(s, p, size, created[size][i].mapping, q)
    ensures Agrees(created[size := Remove(created[size], i)], loaded, Reuse(s, p, size, created[size][i].mapping, q), p)
  {
    PopMatches(created, s.mappings, p, size, i, ByPtr(q));
  }

  /** Handing out the first unused block of the size is a step of the machine. */
  lemma FirstUnusedAgrees(created: CreatedMap, loaded: map<Handle, MapId>, s: State, p: Proc, size: nat, q: PtrId)
    requires Agrees(created, loaded, s, p) && InBlocks(Range(created, size), s.blocks) && FreshPtr(s, q)
    requires FirstUnused(Range(created, size), s.blocks, 0).Some?
    ensures var i := FirstUnused(Range(created, size), s.blocks, 0).value;
            var w := created[size][i];
            && CanReuse(s, p, size, w.mapping, q) && s.mappings[w.mapping].handle == w.handle
            && Agrees(created[size := Remove(created[size], i)], loaded, Reuse(s, p, size, w.mapping, q), p)
  {
    var i := FirstUnused(Range(created, size), s.blocks, 0).value;
    assert Wrapped(s.mappings, p, size, created[size][i]);
    ReuseAgrees(created, loaded, s, p, size, i, q);
  }

  lemma CreateAgrees(created: CreatedMap, loaded: map<Handle, MapId>, s: State, p: Proc, size: nat, h: Handle,
                     m: MapId, q: PtrId)
    requires Agrees(created, loaded, s, p) && CanCreate(s, h, m, q)
    ensures Agrees(created, loaded, Create(s, p, size, h, m, q), p)
  {
    CreatedFrame(created, s.mappings, Create(s, p, size, h, m, q).mappings, p);
  }

  lemma DropAllocatedAgrees(created: CreatedMap, loaded: map<Handle, MapId>, s: State, p: Proc, q: PtrId)
    requires Agrees(created, loaded, s, p) && CanDrop(s, q) && PtrOk(s, q) && s.ptrs[q].proc == p
    requires s.ptrs[q].kind.Allocated?
    ensures var ptr := s.ptrs[q];
            var w := RawBlockWrapper(ptr.mapping, ptr.id.handle);
            var created' := created[ptr.kind.size := Range(created, ptr.kind.size) + [w]];
            Agrees(created', loaded, EndDeleter(DropAllocated(s, q), q), p)
  {
    var ptr := s.ptrs[q];
    PushMatches(created, s.mappings, p, ptr.kind.size, RawBlockWrapper(ptr.mapping, ptr.id.handle));
  }

  // ---- loading

  lemma LoadedInMappings(s: State, p: Proc, h: Handle)
    requires Reachable(s) && (p, h) in s.loaded
    ensures s.loaded[(p, h)] in s.mappings && s.mappings[s.loaded[(p, h)]] == Mapping(p, h, InLoaded)
  {
    ReachableIsInv(s);
  }

  lemma LoadPopAgrees(created: CreatedMap, loaded: map<Handle, MapId>, s: State, op: OpId, p: Proc, id: BlockId)
    requires Agrees(created, loaded, s, p) && Reachable(s) && op !in s.loads && (p, id.handle) in s.loaded
    ensures CanLoadPop(s, op, p, id)
    ensures Agrees(created, loaded - {id.handle}, LoadPop(s, op, p, id), p)
  {
    LoadedInMappings(s, p, id.handle);
    CreatedFrame(created, s.mappings, LoadPop(s, op, p, id).mappings, p);
  }

  lemma LoadAttachAgrees(created: CreatedMap, loaded: map<Handle, MapId>, s: State, op: OpId, p: Proc,
                         id: BlockId, m: MapId)
    requires Agrees(created, loaded, s, p) && op !in s.loads && m !in s.mappings
    requires AttachPasses(s, id.handle)
    ensures Agrees(created, loaded, LoadAttach(LoadOpen(s, op, p, id), op, m), p)
  {
    CreatedFrame(created, s.mappings, LoadAttach(LoadOpen(s, op, p, id), op, m).mappings, p);
  }

  lemma CheckAgrees(created: CreatedMap, loaded: map<Handle, MapId>, s: State, op: OpId, p: Proc, q: PtrId)
    requires Agrees(created, loaded, s, p) && CanLoadCheck(s, op, q)
    requires s.mappings[s.loads[op].mapping].owner.ByLoad?
    ensures Agrees(created, loaded, LoadCheck(s, op, q), p)
  {
    CreatedFrame(created, s.mappings, LoadCheck(s, op, q).mappings, p);
  }

  /** A failed check leaves a raw block that nothing else owns. */
  lemma CheckErrorAgrees(created: CreatedMap, loaded: map<Handle, MapId>, s: State, op: OpId, p: Proc)
    requires Agrees(created, loaded, s, p) && CanLoadCheckError(s, op) && Reachable(s) && s.loads[op].proc == p
    ensures var t := LoadCheckError(s, op);
            && CanUnmap(t, s.loads[op].mapping) && Agrees(created, loaded, Destroyed(t, s.loads[op].mapping), p)
            && t.mappings[s.loads[op].mapping].handle == s.loads[op].id.handle
  {
    AttachedInBlocks(s, op);
    var t := LoadCheckError(s, op);
    CreatedFrame(created, s.mappings, t.mappings, p);
    DestroyedAgrees(created, loaded, t, s.loads[op].mapping, p);
  }

  lemma DestroyedAgrees(created: CreatedMap, loaded: map<Handle, MapId>, s: State, m: MapId, p: Proc)
    requires Agrees(created, loaded, s, p) && CanUnmap(s, m)
    ensures Agrees(created, loaded, Destroyed(s, m), p)
  {
    CreatedFrame(created, s.mappings, Destroyed(s, m).mappings, p);
  }

  /** load_shm can only fail to map the object if its checks would fail too. */
  lemma CheckNeedsAttach(s: State, id: BlockId)
    requires Reachable(s) && CheckPasses(s, id)
    ensures AttachPasses(s, id.handle)
  {
    ReachableIsInv(s);
    LoadChecksIffLive(s, id);
    LiveIdLoads(s, id, 0);
  }

  /** The effect of load_shm's deleter up to its return, with the raw block it may evict. */
  lemma DropLoadedAgrees(created: CreatedMap, loaded: map<Handle, MapId>, s: State, p: Proc, q: PtrId)
    requires Agrees(created, loaded, s, p) && CanDrop(s, q) && PtrOk(s, q) && s.ptrs[q].proc == p
    requires s.ptrs[q].kind.Loaded?
    requires Reachable(s)
    ensures var h := s.ptrs[q].id.handle;
            var t := DropLoaded(s, q);
            && CreatedMatches(created, t.mappings, p) && LoadedMatches(loaded[h := s.ptrs[q].mapping], t.loaded, p)
            && ((p, h) in s.loaded ==>
                  s.loaded[(p, h)] in t.mappings && t.mappings[s.loaded[(p, h)]] == Mapping(p, h, Orphan))
            && (forall r <- t.closing :: r != q ==> t.closing[r] in t.mappings && t.mappings[t.closing[r]].proc != p)
  {
    if (p, s.ptrs[q].id.handle) in s.loaded {
      LoadedInMappings(s, p, s.ptrs[q].id.handle);
    }
    DropLoadedCreated(created, s, p, q);
  }

  lemma DropLoadedCreated(created: CreatedMap, s: State, p: Proc, q: PtrId)
    requires CreatedMatches(created, s.mappings, p) && CanDrop(s, q) && PtrOk(s, q) && s.ptrs[q].kind.Loaded?
    requires var k := (s.ptrs[q].proc, s.ptrs[q].id.handle);
             k in s.loaded ==> s.loaded[k] in s.mappings && s.mappings[s.loaded[k]].owner.InLoaded?
    requires s.ptrs[q].proc == p
    ensures CreatedMatches(created, DropLoaded(s, q).mappings, p)
  {
    CreatedFrame(created, s.mappings, DropLoaded(s, q).mappings, p);
  }

  /** The mappings after load_shm's deleter and the destruction of what it evicts. */
  lemma DropLoadedMappingsAre(s: State, p: Proc, q: PtrId, gone: set<MapId>)
    requires Reachable(s) && CanDrop(s, q) && PtrOk(s, q) && s.ptrs[q].proc == p && s.ptrs[q].kind.Loaded?
    requires gone == if (p, s.ptrs[q].id.handle) in s.loaded then {s.loaded[(p, s.ptrs[q].id.handle)]} else {}
    ensures DropLoaded(s, q).mappings - gone
            == (s.mappings - gone)[s.ptrs[q].mapping := Mapping(p, s.ptrs[q].id.handle, InLoaded)]
  {
    if (p, s.ptrs[q].id.handle) in s.loaded {
      LoadedInMappings(s, p, s.ptrs[q].id.handle);
    }
  }

  lemma EvictedCanUnmap(s: State, m: MapId, q: PtrId)
    requires Reachable(s) && m in s.mappings && s.mappings[m].owner.Orphan?
    requires q in s.closing && s.closing[q] != m
    requires forall r <- s.closing :: r != q ==>
               s.closing[r] in s.mappings && s.mappings[s.closing[r]].proc != s.mappings[m].proc
    ensures CanUnmap(s, m)
  {
    ReachableIsInv(s);
    assert MappingOk(s, m);
    LiveMappingCounted(s, m);
  }

  lemma OrphanCanUnmap(s: State, m: MapId, p: Proc)
    requires Reachable(s) && Settled(s, p) && m in s.mappings && s.mappings[m].proc == p && s.mappings[m].owner.Orphan?
    ensures CanUnmap(s, m)
  {
    ReachableIsInv(s);
    assert MappingOk(s, m);
    LiveMappingCounted(s, m);
  }

  /** All of `freed` are raw blocks of process p that nothing owns any more. */
  ghost predicate Ownerless(freed: set<RawBlockWrapper>, ms: Mappings, p: Proc) {
    forall w <- freed :: w.mapping in ms && ms[w.mapping] == Mapping(p, w.handle, Orphan)
  }

  /** ns is ms without the freed raw blocks. */
  ghost predicate Without(freed: set<RawBlockWrapper>, ms: Mappings, ns: Mappings) {
    && (forall m :: m in ns <==> m in ms && RawBlockWrapper(m, ms[m].handle) !in freed)
    && (forall m <- ns :: ns[m] == ms[m])
  }

  function WithoutCreated(ms: Mappings, p: Proc): Mappings {
    map m | m in ms && !(ms[m].proc == p && ms[m].owner.InCreated?) :: ms[m]
  }

  function WithoutLoaded(ms: Mappings, p: Proc): Mappings {
    map m | m in ms && !(ms[m].proc == p && ms[m].owner.InLoaded?) :: ms[m]
  }

  lemma CreatedGone(freed: set<RawBlockWrapper>, ms: Mappings, ns: Mappings, p: Proc)
    requires forall m <- ms :: RawBlockWrapper(m, ms[m].handle) in freed <==> ms[m].proc == p && ms[m].owner.InCreated?
    requires Without(freed, OrphanCreated(ms, p), ns)
    ensures ns == WithoutCreated(ms, p)
  {
  }

  lemma LoadedGone(freed: set<RawBlockWrapper>, ms: Mappings, ns: Mappings, p: Proc)
    requires forall m <- ms :: RawBlockWrapper(m, ms[m].handle) in freed <==> ms[m].proc == p && ms[m].owner.InLoaded?
    requires Without(freed, OrphanLoaded(ms, p), ns)
    ensures ns == WithoutLoaded(ms, p)
  {
  }

  lemma WithoutOne(gone: set<RawBlockWrapper>, rest: set<RawBlockWrapper>, w: RawBlockWrapper, ms: Mappings,
                   ns: Mappings, p: Proc)
    requires Without(gone, ms, ns) && w in rest && Ownerless(rest, ns, p)
    ensures Without(gone + {w}, ms, ns - {w.mapping}) && Ownerless(rest - {w}, ns - {w.mapping}, p)
  {
  }

  lemma WithoutAgrees(freed: set<RawBlockWrapper>, ms: Mappings, ns: Mappings, p: Proc)
    requires CreatedMatches(map[], ms, p) && Without(freed, ms, ns)
    ensures CreatedMatches(map[], ns, p)
  {
  }

  /** Clearing the created cache gives up exactly the mappings it was the owner of. */
  lemma ClearedCreated(created: CreatedMap, freed: set<RawBlockWrapper>, ms: Mappings, p: Proc)
    requires CreatedMatches(created, ms, p)
    requires forall w :: w in freed <==> exists size :: size in created && w in created[size]
    ensures Ownerless(freed, OrphanCreated(ms, p), p)
    ensures forall m <- ms :: RawBlockWrapper(m, ms[m].handle) in freed <==> ms[m].proc == p && ms[m].owner.InCreated?
    ensures CreatedMatches(map[], OrphanCreated(ms, p), p)
  {
    forall w <- freed
      ensures exists size :: Wrapped(ms, p, size, w)
    {
      var size :| size in created && w in created[size];
      var i :| 0 <= i < |created[size]| && created[size][i] == w;
      assert Wrapped(ms, p, size, created[size][i]);
    }
    forall m <- ms | ms[m].proc == p && ms[m].owner.InCreated?
      ensures RawBlockWrapper(m, ms[m].handle) in freed
    {
      var z := ms[m].owner.size;
      assert InRange(Range(created, z), m);
      var i :| 0 <= i < |created[z]| && created[z][i].mapping == m;
      assert Wrapped(ms, p, z, created[z][i]);
      assert created[z][i] in created[z];
    }
  }

  lemma ClearedLoaded(loaded: map<Handle, MapId>, freed: set<RawBlockWrapper>, s: State, p: Proc)
    requires LoadedMatches(loaded, s.loaded, p) && Reachable(s)
    requires forall w :: w in freed <==> w.handle in loaded && loaded[w.handle] == w.mapping
    ensures Ownerless(freed, OrphanLoaded(s.mappings, p), p)
    ensures forall m <- s.mappings ::
              RawBlockWrapper(m, s.mappings[m].handle) in freed <==>
                s.mappings[m].proc == p && s.mappings[m].owner.InLoaded?
    ensures LoadedMatches(map[], ClearLoaded(s, p).loaded, p)
  {
    ReachableIsInv(s);
    forall m <- s.mappings | s.mappings[m].proc == p && s.mappings[m].owner.InLoaded?
      ensures RawBlockWrapper(m, s.mappings[m].handle) in freed
    {
      assert MappingOk(s, m);
    }
  }

  // ------------------------------------------------------------- Steps of everybody else

  /** The steps that change what the caches of process p should hold. */
  predicate UsesCaches(s: State, step: Step, p: Proc)
    requires Enabled(s, step)
  {
    match step
    case ReuseStep(r, _, _, _) => r == p
    case DropStep(q) => s.ptrs[q].proc == p
    case LoadPopStep(_, r, _) => r == p
    case ClearCreatedStep(r) => r == p
    case ClearLoadedStep(r) => r == p
    case _ => false
  }

  lemma OthersAllocate(s: State, step: Step, p: Proc)
    requires Reachable(s) && Enabled(s, step) && !UsesCaches(s, step, p)
    requires step.ReuseStep? || step.CreateStep?
    ensures SameCreated(s.mappings, Apply(s, step).mappings, p)
  {
  }

  lemma OthersDrop(s: State, step: Step, p: Proc)
    requires Reachable(s) && Enabled(s, step) && !UsesCaches(s, step, p)
    requires step.DropStep?
    ensures SameCreated(s.mappings, Apply(s, step).mappings, p)
  {
    HeldCanDrop(s, step.ptr);
    var k := (s.ptrs[step.ptr].proc, s.ptrs[step.ptr].id.handle);
    if k in s.loaded {
      LoadedInMappings(s, k.0, k.1);
    }
  }

  lemma OthersLoad(s: State, step: Step, p: Proc)
    requires Reachable(s) && Enabled(s, step) && !UsesCaches(s, step, p)
    requires step.LoadPopStep? || step.LoadAttachStep? || step.LoadCheckStep? || step.LoadCheckErrorStep?
    ensures SameCreated(s.mappings, Apply(s, step).mappings, p)
  {
    match step
    case LoadPopStep(_, r, id) => LoadedInMappings(s, r, id.handle);
    case LoadCheckStep(op, _) => AttachedInBlocks(s, op);
    case LoadCheckErrorStep(op) => AttachedInBlocks(s, op);
    case _ =>
  }

  lemma OthersFree(s: State, step: Step, p: Proc)
    requires Reachable(s) && Enabled(s, step) && !UsesCaches(s, step, p)
    requires step.ClearCreatedStep? || step.ClearLoadedStep? || step.UnmapStep?
    ensures SameCreated(s.mappings, Apply(s, step).mappings, p)
  {
  }

  lemma OthersKeepCreated(created: CreatedMap, s: State, step: Step, p: Proc)
    requires Reachable(s) && Enabled(s, step) && !UsesCaches(s, step, p) && CreatedMatches(created, s.mappings, p)
    ensures CreatedMatches(created, Apply(s, step).mappings, p)
  {
    if step.ReuseStep? || step.CreateStep? {
      OthersAllocate(s, step, p);
    } else if step.DropStep? {
      OthersDrop(s, step, p);
    } else if step.LoadPopStep? || step.LoadAttachStep? || step.LoadCheckStep? || step.LoadCheckErrorStep? {
      OthersLoad(s, step, p);
    } else if step.ClearCreatedStep? || step.ClearLoadedStep? || step.UnmapStep? {
      OthersFree(s, step, p);
    } else {
      assert Apply(s, step).mappings == s.mappings;
    }
    CreatedFrame(created, s.mappings, Apply(s, step).mappings, p);
  }

  lemma OthersKeepLoaded(loaded: map<Handle, MapId>, s: State, step: Step, p: Proc)
    requires Enabled(s, step) && !UsesCaches(s, step, p) && LoadedMatches(loaded, s.loaded, p)
    ensures LoadedMatches(loaded, Apply(s, step).loaded, p)
  {
  }

  /** No thread of another process, and no other step of this one, disturbs the caches of process p. */
  lemma OthersKeepAgrees(created: CreatedMap, loaded: map<Handle, MapId>, s: State, step: Step, p: Proc)
    requires Reachable(s) && Enabled(s, step) && !UsesCaches(s, step, p)
    requires CreatedMatches(created, s.mappings, p) && LoadedMatches(loaded, s.loaded, p)
    ensures CreatedMatches(created, Apply(s, step).mappings, p) && LoadedMatches(loaded, Apply(s, step).loaded, p)
  {
    OthersKeepCreated(created, s, step, p);
    OthersKeepLoaded(loaded, s, step, p);
  }

  // --------------------------------------------------------------------------- SHMAllocator

  lemma Overwritten<K, V>(m: map<K, V>, k: K, v: V, w: V)
    ensures m[k := v][k := w] == m[k := w] && m[k := v] - {k} == m - {k}
    ensures k !in m ==> m - {k} == m
  {
  }

  /** The raw block that an insertion under this handle destroys. */
  function Replaced(cache: map<Handle, MapId>, h: Handle): set<MapId> {
    if h in cache then {cache[h]} else {}
  }

  /** The raw block that load_shm uses: the cached one, or a new one. */
  function RawFor(cache: map<Handle, MapId>, h: Handle, m: MapId): MapId {
    if h in cache then cache[h] else m
  }

  /** A shared pointer that allocate_shm or load_shm has returned, with what its deleter captured. */
  datatype ShmPtr = ShmPtr(ptr: PtrId, mapping: MapId, id: BlockId, kind: Kind)

  class SHMAllocator {
    const proc: Proc
    const shm: SharedMemory
    const allocationCache: AllocationCache
    const loadCache: LoadCache

    ghost predicate Valid()
      reads this, shm, allocationCache, loadCache
    {
      && shm.Valid()
      && Agrees(allocationCache.createdCache, loadCache.loadedCache, shm.s, proc)
    }

    ghost predicate Holds(ptr: ShmPtr)
      reads this, shm
    {
      ptr.ptr in shm.s.ptrs && shm.s.ptrs[ptr.ptr] == Ptr(proc, ptr.id, ptr.mapping, ptr.kind)
    }

    /** The allocator of a process that has no shared memory yet. */
    constructor (proc: Proc, shm: SharedMemory)
      requires shm.Valid() && Settled(shm.s, proc)
      requires (forall m <- shm.s.mappings :: shm.s.mappings[m].proc != proc)
              && (forall k <- shm.s.loaded :: k.0 != proc)
      ensures Valid() && this.proc == proc && this.shm == shm
      ensures fresh(allocationCache) && fresh(loadCache)
    {
      this.proc := proc;
      this.shm := shm;
      allocationCache := new AllocationCache();
      loadCache := new LoadCache();
    }

    /** The part of allocate_shm that asks the cache. */
    method TryReuse(requestedSize: nat, q: PtrId) returns (r: Option<ShmPtr>)
      requires Valid() && FreshPtr(shm.s, q)
      modifies shm, allocationCache
      ensures Valid()
      ensures r.None? ==> shm.s == old(shm.s) && forall n :: !CanReuse(shm.s, proc, requestedSize, n, q)
      ensures r.Some? ==>
                && r.value == ShmPtr(q, r.value.mapping, r.value.id, Allocated(requestedSize)) && Holds(r.value)
                && CanReuse(old(shm.s), proc, requestedSize, r.value.mapping, q)
                && shm.s == Reuse(old(shm.s), proc, requestedSize, r.value.mapping, q)
    {
      ghost var created, loaded := allocationCache.createdCache, loadCache.loadedCache;
      CachedInBlocks(created, shm.s, proc, requestedSize);
      var found := allocationCache.MaybeGetAndPop(requestedSize, shm);
      match found {
        case Some((raw, id)) =>
          FirstUnusedAgrees(created, loaded, shm.s, proc, requestedSize, q);
          shm.Take(ReuseStep(proc, requestedSize, raw, q));
          r := Some(ShmPtr(q, raw, id, Allocated(requestedSize)));
        case None =>
          NoneUnused(created, shm.s, proc, requestedSize, q);
          EmptyListMatches(created, shm.s.mappings, proc, requestedSize);
          r := None;
      }
    }

    /**
      `uuid`, `m` and `q` name the object and the local objects a new block would get. A block is
      created only when the cache has no unused one of the size.
     */
    method AllocateShm(sizeBytes: nat, uuid: Handle, m: MapId, q: PtrId) returns (ptr: ShmPtr)
      requires Valid() && CanCreate(shm.s, uuid, m, q)
      modifies shm, allocationCache
      ensures Valid() && Holds(ptr) && ptr.ptr == q
      ensures var size := sizeBytes + BLOCK_INTERNAL_BYTES;
              && ptr.kind == Allocated(size)
              && ((exists n :: CanReuse(old(shm.s), proc, size, n, q))
                  <==> CanReuse(old(shm.s), proc, size, ptr.mapping, q))
              && shm.s == if CanReuse(old(shm.s), proc, size, ptr.mapping, q)
                          then Reuse(old(shm.s), proc, size, ptr.mapping, q)
                          else Create(old(shm.s), proc, size, uuid, m, q)
    {
      var requestedSize := sizeBytes + BLOCK_INTERNAL_BYTES;
      var reused := TryReuse(requestedSize, q);
      if reused.Some? {
        return reused.value;
      }
      CreateAgrees(allocationCache.createdCache, loadCache.loadedCache, shm.s, proc, requestedSize, uuid, m, q);
      shm.CreateRaw(proc, requestedSize, uuid, m, q);
      ptr := ShmPtr(q, m, BlockId(uuid, 0), Allocated(requestedSize));
    }

    /** The deleter of a pointer from AllocateShm. */
    method DeleteAllocated(ptr: ShmPtr)
      requires Valid() && Holds(ptr) && ptr.kind.Allocated?
      modifies shm, allocationCache
      ensures Valid()
      ensures CanDrop(old(shm.s), ptr.ptr)
      ensures shm.s == EndDeleter(DropAllocated(old(shm.s), ptr.ptr), ptr.ptr)
    {
      HeldCanDrop(shm.s, ptr.ptr);
      DropAllocatedAgrees(allocationCache.createdCache, loadCache.loadedCache, shm.s, proc, ptr.ptr);
      var h := ptr.id.handle;
      shm.blocks := shm.blocks[h := shm.blocks[h].(refcount := shm.blocks[h].refcount - 1)];
      allocationCache.Insert(ptr.kind.size, h, ptr.mapping);
      shm.Take(DropStep(ptr.ptr));
      shm.Take(EndDeleterStep(ptr.ptr));
    }

    /**
      load_shm; None where it throws. It succeeds if and only if the block is in use under this
      reuse count, whether or not the raw block is cached, and a failure leaves all pointers alone.
     */
    method LoadShm(id: BlockId, op: OpId, m: MapId, q: PtrId) returns (r: Option<ShmPtr>)
      requires Valid() && op !in shm.s.loads && m !in shm.s.mappings && FreshPtr(shm.s, q)
      modifies shm, loadCache
      ensures Valid()
      ensures r.Some? <==> CheckPasses(old(shm.s), id)
      ensures r.Some? ==> Holds(r.value) && r.value == ShmPtr(q, r.value.mapping, id, Loaded)
      ensures shm.s.ptrs
              == if r.Some? then old(shm.s).ptrs[q := Ptr(proc, id, r.value.mapping, Loaded)] else old(shm.s).ptrs
      ensures loadCache.loadedCache == old(loadCache.loadedCache) - {id.handle}
      ensures shm.s.loads == old(shm.s).loads
      ensures var raw := RawFor(old(loadCache.loadedCache), id.handle, m);
              shm.s.mappings == if r.Some? then old(shm.s).mappings[raw := Mapping(proc, id.handle, ByPtr(q))]
                                else old(shm.s).mappings - {raw}
      ensures ObjectsFollow(old(shm.s), shm.s)
    {
      if CheckPasses(shm.s, id) {
        CheckNeedsAttach(shm.s, id);
      }
      var raw := GetRaw(id, op, m);
      if raw.None? {
        SelfFollows(shm.s);
        return None;
      }
      ghost var attached := shm.s;
      Overwritten(old(shm.s).loads, op, Attached(proc, id, raw.value), Attached(proc, id, raw.value));
      Overwritten(old(shm.s).mappings, raw.value, Mapping(proc, id.handle, ByLoad(op)),
                  Mapping(proc, id.handle, ByPtr(q)));
      r := FinishLoad(id, op, raw.value, q);
      LoadingFollows(old(shm.s), attached, op, id, raw.value, shm.s);
    }

    lemma LoadingFollows(s: State, t: State, op: OpId, id: BlockId, raw: MapId, u: State)
      requires Loading(s, t, op, id, raw) && ObjectsFollow(t, u)
      ensures ObjectsFollow(s, u)
    {
      FollowsFrom(s, t, u);
    }

    /** The raw block comes from the cache or is mapped again. */
    method GetRaw(id: BlockId, op: OpId, m: MapId) returns (r: Option<MapId>)
      requires Valid() && op !in shm.s.loads && m !in shm.s.mappings
      modifies shm, loadCache
      ensures Valid()
      ensures r.None? ==> !AttachPasses(old(shm.s), id.handle)
      ensures r.Some? ==> op in shm.s.loads && shm.s.loads[op] == Attached(proc, id, r.value)
      ensures CheckPasses(shm.s, id) == CheckPasses(old(shm.s), id)
      ensures shm.s.ptrs == old(shm.s).ptrs && shm.s.closing == old(shm.s).closing
      ensures loadCache.loadedCache == old(loadCache.loadedCache) - {id.handle}
      ensures var raw := RawFor(old(loadCache.loadedCache), id.handle, m);
              if r.Some? then Loading(old(shm.s), shm.s, op, id, raw) && r.value == raw
              else shm.s == old(shm.s) && raw == m
    {
      ghost var created, loaded := allocationCache.createdCache, loadCache.loadedCache;
      var cached := loadCache.MaybeGetAndPop(id.handle);
      if cached.Some? {
        LoadedInMappings(shm.s, proc, id.handle);
        LoadPopAgrees(created, loaded, shm.s, op, proc, id);
        shm.Take(LoadPopStep(op, proc, id));
        return cached;
      }
      r := MapRaw(id, op, m);
    }

    method MapRaw(id: BlockId, op: OpId, m: MapId) returns (r: Option<MapId>)
      requires Valid() && op !in shm.s.loads && m !in shm.s.mappings
      modifies shm
      ensures Valid()
      ensures r.None? ==> !AttachPasses(old(shm.s), id.handle)
      ensures r.Some? ==> op in shm.s.loads && shm.s.loads[op] == Attached(proc, id, r.value)
      ensures CheckPasses(shm.s, id) == CheckPasses(old(shm.s), id)
      ensures shm.s.ptrs == old(shm.s).ptrs && shm.s.closing == old(shm.s).closing
      ensures if r.Some? then Loading(old(shm.s), shm.s, op, id, m) && r.value == m else shm.s == old(shm.s)
    {
      ghost var s0 := shm.s;
      var ok := shm.LoadRaw(proc, id, op, m);
      if !ok {
        return None;
      }
      LoadAttachAgrees(allocationCache.createdCache, loadCache.loadedCache, s0, op, proc, id, m);
      return Some(m);
    }

    /** The load has the raw block and nothing else has changed hands. */
    ghost predicate Loading(s: State, t: State, op: OpId, id: BlockId, raw: MapId) {
      && t.mappings == s.mappings[raw := Mapping(proc, id.handle, ByLoad(op))]
      && (raw in s.mappings ==> s.mappings[raw].handle == id.handle)
      && t.loads == s.loads[op := Attached(proc, id, raw)]
    }

    method FinishLoad(id: BlockId, op: OpId, raw: MapId, q: PtrId) returns (r: Option<ShmPtr>)
      requires Valid() && FreshPtr(shm.s, q) && op in shm.s.loads && shm.s.loads[op] == Attached(proc, id, raw)
      modifies shm
      ensures Valid()
      ensures r == if CheckPasses(old(shm.s), id) then Some(ShmPtr(q, raw, id, Loaded)) else None
      ensures shm.s.ptrs == if r.Some? then old(shm.s).ptrs[q := Ptr(proc, id, raw, Loaded)] else old(shm.s).ptrs
      ensures shm.s.loads == old(shm.s).loads - {op}
      ensures shm.s.mappings == if r.Some? then old(shm.s).mappings[raw := Mapping(proc, id.handle, ByPtr(q))]
                                else old(shm.s).mappings - {raw}
      ensures ObjectsFollow(old(shm.s), shm.s)
    {
      ghost var created, loaded, s0 := allocationCache.createdCache, loadCache.loadedCache, shm.s;
      AttachedInBlocks(shm.s, op);
      var ok := shm.CheckLoad(op, id, q);
      if ok {
        CheckAgrees(created, loaded, s0, op, proc, q);
        CheckedFollows(s0, op, q);
        return Some(ShmPtr(q, raw, id, Loaded));
      }
      RefuseLoad(raw, id.handle, s0, op);
      return None;
    }

    /** The exception leaves load_shm: its raw block goes away. */
    method RefuseLoad(raw: MapId, h: Handle, ghost s: State, ghost op: OpId)
      requires Reachable(s) && Agrees(allocationCache.createdCache, loadCache.loadedCache, s, proc)
      requires op in s.loads && s.loads[op] == Attached(proc, s.loads[op].id, raw) && s.loads[op].id.handle == h
      requires CanLoadCheckError(s, op) && shm.Valid() && shm.s == LoadCheckError(s, op)
      modifies shm
      ensures Valid() && shm.s.mappings == s.mappings - {raw}
      ensures shm.s.ptrs == s.ptrs && shm.s.loads == s.loads - {op}
      ensures ObjectsFollow(s, shm.s)
    {
      CheckErrorAgrees(allocationCache.createdCache, loadCache.loadedCache, s, op, proc);
      shm.DestroyRaw(raw, h);
      RefusedFollows(s, op, shm.s);
    }

    /** The deleter of a pointer from LoadShm. */
    method DeleteLoaded(ptr: ShmPtr)
      requires Valid() && Holds(ptr) && ptr.kind.Loaded?
      modifies shm, loadCache
      ensures Valid()
      ensures shm.s.ptrs == old(shm.s).ptrs - {ptr.ptr} && shm.s.issued == old(shm.s).issued
      ensures loadCache.loadedCache == old(loadCache.loadedCache)[ptr.id.handle := ptr.mapping]
      ensures shm.s.mappings
              == (old(shm.s).mappings - Replaced(old(loadCache.loadedCache), ptr.id.handle))
                 [ptr.mapping := Mapping(proc, ptr.id.handle, InLoaded)]
      ensures ObjectsFollow(old(shm.s), shm.s)
    {
      ghost var s0, q := shm.s, ptr.ptr;
      var h := ptr.id.handle;
      HeldCanDrop(s0, q);
      DropLoadedAgrees(allocationCache.createdCache, loadCache.loadedCache, s0, proc, q);
      var evicted := ReleaseLoaded(ptr);
      ghost var released := shm.s;
      if evicted.Some? {
        Evict(evicted.value, h, q);
      } else {
        SelfFollows(released);
      }
      ghost var evictedState := shm.s;
      shm.Take(EndDeleterStep(q));
      ReleasedFollows(s0, q, evictedState, shm.s);
      DropLoadedMappingsAre(s0, proc, q, Replaced(old(loadCache.loadedCache), h));
    }

    /** The region of the deleter under the block mutex, but for the raw block it may destroy. */
    method ReleaseLoaded(ptr: ShmPtr) returns (evicted: Option<MapId>)
      requires shm.Valid() && Holds(ptr) && ptr.kind.Loaded?
      modifies shm, loadCache
      ensures shm.Valid() && CanDrop(old(shm.s), ptr.ptr) && shm.s == DropLoaded(old(shm.s), ptr.ptr)
      ensures loadCache.loadedCache == old(loadCache.loadedCache)[ptr.id.handle := ptr.mapping]
      ensures evicted
              == if ptr.id.handle in old(loadCache.loadedCache) then Some(old(loadCache.loadedCache)[ptr.id.handle])
                 else None
    {
      var h := ptr.id.handle;
      HeldCanDrop(shm.s, ptr.ptr);
      shm.blocks := shm.blocks[h := shm.blocks[h].(refcount := shm.blocks[h].refcount - 1)];
      evicted := loadCache.Insert(h, ptr.mapping);
      shm.Take(DropStep(ptr.ptr));
    }

    method Evict(raw: MapId, h: Handle, ghost q: PtrId)
      requires shm.Valid() && raw in shm.s.mappings && shm.s.mappings[raw] == Mapping(proc, h, Orphan)
      requires q in shm.s.closing && shm.s.closing[q] != raw
      requires forall r <- shm.s.closing :: r != q ==>
                 shm.s.closing[r] in shm.s.mappings && shm.s.mappings[shm.s.closing[r]].proc != proc
      requires CreatedMatches(allocationCache.createdCache, shm.s.mappings, proc)
      modifies shm
      ensures shm.Valid() && CreatedMatches(allocationCache.createdCache, shm.s.mappings, proc)
      ensures shm.s == old(shm.s).(blocks := shm.s.blocks, mappings := old(shm.s).mappings - {raw})
      ensures ObjectsFollow(old(shm.s), shm.s)
    {
      EvictedCanUnmap(shm.s, raw, q);
      ghost var before := shm.s.mappings;
      shm.DestroyRaw(raw, h);
      CreatedFrame(allocationCache.createdCache, before, shm.s.mappings, proc);
    }

    method DestroyOrphan(w: RawBlockWrapper)
      requires shm.Valid() && Settled(shm.s, proc)
      requires w.mapping in shm.s.mappings && shm.s.mappings[w.mapping] == Mapping(proc, w.handle, Orphan)
      modifies shm
      ensures shm.Valid() && Settled(shm.s, proc)
      ensures shm.s == old(shm.s).(blocks := shm.s.blocks, mappings := old(shm.s).mappings - {w.mapping})
      ensures OnlyDestroyed(old(shm.s), shm.s)
    {
      OrphanCanUnmap(shm.s, w.mapping, proc);
      shm.DestroyRaw(w.mapping, w.handle);
    }

    /** Of the raw blocks that have lost their last owner, those in `rest` are still to be destroyed. */
    ghost predicate Destroying(s: State, gone: set<RawBlockWrapper>, rest: set<RawBlockWrapper>)
      reads this, shm
    {
      && shm.Valid() && Settled(shm.s, proc) && Ownerless(rest, shm.s.mappings, proc)
      && shm.s == s.(blocks := shm.s.blocks, mappings := shm.s.mappings)
      && Without(gone, s.mappings, shm.s.mappings) && OnlyDestroyed(s, shm.s)
    }

    method DestroyNext(w: RawBlockWrapper, ghost s: State, ghost gone: set<RawBlockWrapper>,
                       ghost rest: set<RawBlockWrapper>)
      requires Destroying(s, gone, rest) && w in rest
      modifies shm
      ensures Destroying(s, gone + {w}, rest - {w})
    {
      ghost var before := shm.s;
      WithoutOne(gone, rest, w, s.mappings, shm.s.mappings, proc);
      DestroyOrphan(w);
      DestroyedTwice(s, before, shm.s);
    }

    /** The destructors of raw blocks that have lost their last owner. */
    method DestroyAll(freed: set<RawBlockWrapper>)
      requires shm.Valid() && Settled(shm.s, proc) && Ownerless(freed, shm.s.mappings, proc)
      modifies shm
      ensures shm.Valid() && Settled(shm.s, proc)
      ensures shm.s == old(shm.s).(blocks := shm.s.blocks, mappings := shm.s.mappings)
      ensures Without(freed, old(shm.s).mappings, shm.s.mappings)
      ensures OnlyDestroyed(old(shm.s), shm.s)
    {
      var rest := freed;
      SelfFollows(shm.s);
      while rest != {}
        invariant rest <= freed && Destroying(old(shm.s), freed - rest, rest)
        decreases |rest|
      {
        var w :| w in rest;
        assert freed - rest + {w} == freed - (rest - {w});
        DestroyNext(w, old(shm.s), freed - rest, rest);
        rest := rest - {w};
      }
      assert freed - rest == freed;
    }

    /** Exactly the mappings that the two caches of this process own go away. */
    method FreeUnusedShmBlocks()
      requires Valid()
      modifies shm, allocationCache, loadCache
      ensures Valid() && allocationCache.createdCache == map[] && loadCache.loadedCache == map[]
      ensures shm.s.ptrs == old(shm.s).ptrs && shm.s.issued == old(shm.s).issued && shm.s.loads == old(shm.s).loads
      ensures shm.s.mappings == WithoutLoaded(WithoutCreated(old(shm.s).mappings, proc), proc)
      ensures OnlyDestroyed(old(shm.s), shm.s)
      ensures forall m <- old(shm.s).mappings ::
                var x := old(shm.s).mappings[m];
                if x.proc == proc && (x.owner.InCreated? || x.owner.InLoaded?) then m !in shm.s.mappings
                else m in shm.s.mappings && shm.s.mappings[m] == x
    {
      ClearCreatedCache();
      ghost var cleared := shm.s;
      ClearLoadedCache();
      DestroyedTwice(old(shm.s), cleared, shm.s);
    }

    method ClearCreatedCache()
      requires Valid()
      modifies shm, allocationCache
      ensures Valid() && allocationCache.createdCache == map[]
      ensures shm.s == old(shm.s).(blocks := shm.s.blocks, mappings := shm.s.mappings)
      ensures shm.s.mappings == WithoutCreated(old(shm.s).mappings, proc)
      ensures OnlyDestroyed(old(shm.s), shm.s)
    {
      ghost var created, ms := allocationCache.createdCache, shm.s.mappings;
      var freed := allocationCache.Clear();
      ClearedCreated(created, freed, ms, proc);
      shm.Take(ClearCreatedStep(proc));
      ghost var ns, cleared := shm.s.mappings, shm.s;
      DestroyAll(freed);
      FollowsFrom(old(shm.s), cleared, shm.s);
      WithoutAgrees(freed, ns, shm.s.mappings, proc);
      CreatedGone(freed, ms, shm.s.mappings, proc);
    }

    method ClearLoadedCache()
      requires Valid() && allocationCache.createdCache == map[]
      modifies shm, loadCache
      ensures Valid() && loadCache.loadedCache == map[]
      ensures shm.s == old(shm.s).(blocks := shm.s.blocks, mappings := shm.s.mappings, loaded := shm.s.loaded)
      ensures shm.s.mappings == WithoutLoaded(old(shm.s).mappings, proc)
      ensures OnlyDestroyed(old(shm.s), shm.s)
    {
      ghost var loaded, s0 := loadCache.loadedCache, shm.s;
      var freed := loadCache.Clear();
      ClearedLoaded(loaded, freed, s0, proc);
      shm.Take(ClearLoadedStep(proc));
      CreatedFrame(map[], s0.mappings, shm.s.mappings, proc);
      ghost var ns, cleared := shm.s.mappings, shm.s;
      DestroyAll(freed);
      FollowsFrom(s0, cleared, shm.s);
      WithoutAgrees(freed, ns, shm.s.mappings, proc);
      LoadedGone(freed, s0.mappings, shm.s.mappings, proc);
    }
  }
}

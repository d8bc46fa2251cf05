/**
  The recycling shared memory allocator as a step machine over any number of
  processes and threads. One step is one mutex region of the source; the steps of
  different threads interleave freely.

  A mapping is one `RawSHMBlock` object. Its `owner` says which shared pointer
  chain keeps it alive: a user pointer, one of the two caches of its process, or a
  `load_shm` call that is still running. The created caches are read off the owners,
  see `CreatedCache`.
 */
module ShmModel {

  type Proc = nat
  type Handle = nat
  type MapId = nat
  type PtrId = nat
  type OpId = nat

  /** `SHMBlockIDInternal`: the UUID of the raw block and the reuse count it was handed out under. */
  datatype BlockId = BlockId(handle: Handle, reuse: nat)

  /** One named shared memory object: `RawSHMBlockInternal` (rawRefs) around `SHMBlockInternal` (refcount, reuse). */
  datatype Block = Block(size: nat, refcount: nat, reuse: nat, rawRefs: nat)

  datatype Owner = ByPtr(ptr: PtrId) | InCreated(size: nat) | InLoaded | ByLoad(op: OpId) | Orphan

  datatype Mapping = Mapping(proc: Proc, handle: Handle, owner: Owner)

  datatype Kind = Allocated(size: nat) | Loaded

  /** A live `shared_ptr<void>` returned by `allocate_shm` or `load_shm`, with all its copies. */
  datatype Ptr = Ptr(proc: Proc, id: BlockId, mapping: MapId, kind: Kind)

  /** A `load_shm` call between two of its regions. */
  datatype Load = Opened(proc: Proc, id: BlockId) | Attached(proc: Proc, id: BlockId, mapping: MapId)

  datatype State = State(
    blocks: map<Handle, Block>,
    uuids: set<Handle>,
    mappings: map<MapId, Mapping>,
    ptrs: map<PtrId, Ptr>,
    // loaded_cache_ of every process
    loaded: map<(Proc, Handle), MapId>,
    loads: map<OpId, Load>,
    // Deleters that have released their locks but still own their copy of the raw block
    closing: map<PtrId, MapId>,
    // Every id that allocate_shm has returned so far
    issued: set<BlockId>)

  const INIT := State(map[], {}, map[], map[], map[], map[], map[], {})

  /** The raw blocks of one size in the created cache of a process. */
  function CreatedCache(s: State, proc: Proc, size: nat): set<MapId> {
    set m | m in s.mappings && s.mappings[m].proc == proc && s.mappings[m].owner == InCreated(size)
  }

  /** The live mappings of one block, over all processes. */
  function MappingsOf(ms: map<MapId, Mapping>, h: Handle): set<MapId> {
    set m | m in ms && ms[m].handle == h
  }

  /** The live pointers into one block, over all processes. */
  function PtrsOf(ps: map<PtrId, Ptr>, h: Handle): set<PtrId> {
    set q | q in ps && ps[q].id.handle == h
  }

  /** The outcome of the two sanity checks of load_shm under the block mutex. */
  predicate CheckPasses(s: State, id: BlockId) {
    id.handle in s.blocks && s.blocks[id.handle].refcount != 0 && s.blocks[id.handle].reuse == id.reuse
  }

  /** The outcome of the sanity check of the RawSHMBlock load constructor under the raw mutex. */
  predicate AttachPasses(s: State, h: Handle) {
    h in s.blocks && s.blocks[h].rawRefs != 0
  }

  predicate FreshPtr(s: State, q: PtrId) {
    q !in s.ptrs && q !in s.closing
  }

  function SetOwner(ms: map<MapId, Mapping>, m: MapId, owner: Owner): map<MapId, Mapping>
    requires m in ms
  {
    ms[m := ms[m].(owner := owner)]
  }

  // ------------------------------------------------- allocate_shm and its deleter

  /** maybe_get_and_pop found a block of the requested size that nobody uses. */
  predicate CanReuse(s: State, p: Proc, size: nat, m: MapId, q: PtrId) {
    && m in CreatedCache(s, p, size)
    && s.mappings[m].handle in s.blocks
    && s.blocks[s.mappings[m].handle].refcount == 0
    && FreshPtr(s, q)
  }

  function Reuse(s: State, p: Proc, size: nat, m: MapId, q: PtrId): State
    requires CanReuse(s, p, size, m, q)
  {
    var h := s.mappings[m].handle;
    var b := s.blocks[h];
    var id := BlockId(h, b.reuse + 1);
    s.(blocks := s.blocks[h := b.(refcount := b.refcount + 1, reuse := b.reuse + 1)],
       mappings := SetOwner(s.mappings, m, ByPtr(q)),
       ptrs := s.ptrs[q := Ptr(p, id, m, Allocated(size))],
       issued := s.issued + {id})
  }

  /** The cache had nothing, so a new object with a new UUID is created. */
  predicate CanCreate(s: State, h: Handle, m: MapId, q: PtrId) {
    h !in s.uuids && m !in s.mappings && FreshPtr(s, q)
  }

  function Create(s: State, p: Proc, size: nat, h: Handle, m: MapId, q: PtrId): State
    requires CanCreate(s, h, m, q)
  {
    var id := BlockId(h, 0);
    s.(blocks := s.blocks[h := Block(size, 1, 0, 1)],
       uuids := s.uuids + {h},
       mappings := s.mappings[m := Mapping(p, h, ByPtr(q))],
       ptrs := s.ptrs[q := Ptr(p, id, m, Allocated(size))],
       issued := s.issued + {id})
  }

  predicate CanDrop(s: State, q: PtrId) {
    && q in s.ptrs
    && s.ptrs[q].mapping in s.mappings
    && s.ptrs[q].id.handle in s.blocks
    && s.blocks[s.ptrs[q].id.handle].refcount > 0
  }

  function Decrement(s: State, h: Handle): map<Handle, Block>
    requires h in s.blocks && s.blocks[h].refcount > 0
  {
    s.blocks[h := s.blocks[h].(refcount := s.blocks[h].refcount - 1)]
  }

  /** The deleter of allocate_shm: one region under the block mutex. */
  function DropAllocated(s: State, q: PtrId): State
    requires CanDrop(s, q) && s.ptrs[q].kind.Allocated?
  {
    var ptr := s.ptrs[q];
    s.(blocks := Decrement(s, ptr.id.handle),
       mappings := SetOwner(s.mappings, ptr.mapping, InCreated(ptr.kind.size)),
       ptrs := s.ptrs - {q},
       closing := s.closing[q := ptr.mapping])
  }

  // ----------------------------------------------------- load_shm and its deleter

  /** What the assignment `loaded_cache_[handle] = item` evicts. */
  function EvictLoaded(s: State, p: Proc, h: Handle): map<MapId, Mapping> {
    if (p, h) in s.loaded && s.loaded[(p, h)] in s.mappings
    then SetOwner(s.mappings, s.loaded[(p, h)], Orphan)
    else s.mappings
  }

  /** The deleter of load_shm: one region under the block mutex. */
  function DropLoaded(s: State, q: PtrId): State
    requires CanDrop(s, q) && s.ptrs[q].kind.Loaded?
  {
    var ptr := s.ptrs[q];
    var h := ptr.id.handle;
    s.(blocks := Decrement(s, h),
       mappings := SetOwner(EvictLoaded(s, ptr.proc, h), ptr.mapping, InLoaded),
       loaded := s.loaded[(ptr.proc, h) := ptr.mapping],
       ptrs := s.ptrs - {q},
       closing := s.closing[q := ptr.mapping])
  }

  /** Either deleter returns: its captured copy of the raw block goes away. */
  function EndDeleter(s: State, q: PtrId): State {
    s.(closing := s.closing - {q})
  }

  predicate CanLoadPop(s: State, op: OpId, p: Proc, id: BlockId) {
    op !in s.loads && (p, id.handle) in s.loaded && s.loaded[(p, id.handle)] in s.mappings
  }

  function LoadPop(s: State, op: OpId, p: Proc, id: BlockId): State
    requires CanLoadPop(s, op, p, id)
  {
    var m := s.loaded[(p, id.handle)];
    s.(mappings := SetOwner(s.mappings, m, ByLoad(op)),
       loaded := s.loaded - {(p, id.handle)},
       loads := s.loads[op := Attached(p, id, m)])
  }

  predicate CanLoadOpen(s: State, op: OpId, id: BlockId) {
    op !in s.loads && id.handle in s.blocks
  }

  /** Opening the object by name; the mapping it yields is not counted yet. */
  function LoadOpen(s: State, op: OpId, p: Proc, id: BlockId): State
    requires CanLoadOpen(s, op, id)
  {
    s.(loads := s.loads[op := Opened(p, id)])
  }

  /** Opening throws when no object has the name; nothing has changed by then. */
  predicate CanLoadOpenError(s: State, op: OpId, id: BlockId) {
    op !in s.loads && id.handle !in s.blocks
  }

  predicate CanLoadAttach(s: State, op: OpId, m: MapId) {
    op in s.loads && s.loads[op].Opened? && AttachPasses(s, s.loads[op].id.handle) && m !in s.mappings
  }

  function LoadAttach(s: State, op: OpId, m: MapId): State
    requires CanLoadAttach(s, op, m)
  {
    var l := s.loads[op];
    var h := l.id.handle;
    s.(blocks := s.blocks[h := s.blocks[h].(rawRefs := s.blocks[h].rawRefs + 1)],
       mappings := s.mappings[m := Mapping(l.proc, h, ByLoad(op))],
       loads := s.loads[op := Attached(l.proc, l.id, m)])
  }

  predicate CanLoadAttachError(s: State, op: OpId) {
    op in s.loads && s.loads[op].Opened? && !AttachPasses(s, s.loads[op].id.handle)
  }

  function LoadAttachError(s: State, op: OpId): State {
    s.(loads := s.loads - {op})
  }

  predicate CanLoadCheck(s: State, op: OpId, q: PtrId) {
    && op in s.loads && s.loads[op].Attached? && s.loads[op].mapping in s.mappings
    && CheckPasses(s, s.loads[op].id) && FreshPtr(s, q)
  }

  function LoadCheck(s: State, op: OpId, q: PtrId): State
    requires CanLoadCheck(s, op, q)
  {
    var l := s.loads[op];
    var h := l.id.handle;
    s.(blocks := s.blocks[h := s.blocks[h].(refcount := s.blocks[h].refcount + 1)],
       mappings := SetOwner(s.mappings, l.mapping, ByPtr(q)),
       ptrs := s.ptrs[q := Ptr(l.proc, l.id, l.mapping, Loaded)],
       loads := s.loads - {op})
  }

  predicate CanLoadCheckError(s: State, op: OpId) {
    && op in s.loads && s.loads[op].Attached? && s.loads[op].mapping in s.mappings
    && !CheckPasses(s, s.loads[op].id)
  }

  /** A failed check throws: the local raw block is destroyed, not cached. */
  function LoadCheckError(s: State, op: OpId): State
    requires CanLoadCheckError(s, op)
  {
    s.(mappings := SetOwner(s.mappings, s.loads[op].mapping, Orphan), loads := s.loads - {op})
  }

  // ------------------------------------- free_unused_shm_blocks and ~RawSHMBlock

  function OrphanCreated(ms: map<MapId, Mapping>, p: Proc): map<MapId, Mapping> {
    map m | m in ms :: if ms[m].proc == p && ms[m].owner.InCreated? then ms[m].(owner := Orphan) else ms[m]
  }

  function OrphanLoaded(ms: map<MapId, Mapping>, p: Proc): map<MapId, Mapping> {
    map m | m in ms :: if ms[m].proc == p && ms[m].owner.InLoaded? then ms[m].(owner := Orphan) else ms[m]
  }

  function ClearCreated(s: State, p: Proc): State {
    s.(mappings := OrphanCreated(s.mappings, p))
  }

  function ClearLoaded(s: State, p: Proc): State {
    s.(mappings := OrphanLoaded(s.mappings, p), loaded := map k | k in s.loaded && k.0 != p :: s.loaded[k])
  }

  predicate CanUnmap(s: State, m: MapId) {
    && m in s.mappings && s.mappings[m].owner.Orphan? && m !in s.closing.Values
    && s.mappings[m].handle in s.blocks && s.blocks[s.mappings[m].handle].rawRefs > 0
  }

  /** The locked part of ~RawSHMBlock. */
  function Unmap(s: State, m: MapId): State
    requires CanUnmap(s, m)
  {
    var h := s.mappings[m].handle;
    s.(blocks := s.blocks[h := s.blocks[h].(rawRefs := s.blocks[h].rawRefs - 1)],
       mappings := s.mappings - {m})
  }

  predicate CanRemoveObject(s: State, h: Handle) {
    h in s.blocks && s.blocks[h].rawRefs == 0
  }

  /** The last owner removes the name after it has released the raw mutex. */
  function RemoveObject(s: State, h: Handle): State {
    s.(blocks := s.blocks - {h})
  }

  // ------------------------------------------------------------------ The machine

  datatype Step =
    | ReuseStep(proc: Proc, size: nat, mapping: MapId, ptr: PtrId)
    | CreateStep(proc: Proc, size: nat, handle: Handle, mapping: MapId, ptr: PtrId)
    | DropStep(ptr: PtrId)
    | EndDeleterStep(ptr: PtrId)
    | LoadPopStep(op: OpId, proc: Proc, id: BlockId)
    | LoadOpenStep(op: OpId, proc: Proc, id: BlockId)
    | LoadOpenErrorStep(op: OpId, proc: Proc, id: BlockId)
    | LoadAttachStep(op: OpId, mapping: MapId)
    | LoadAttachErrorStep(op: OpId)
    | LoadCheckStep(op: OpId, ptr: PtrId)
    | LoadCheckErrorStep(op: OpId)
    | ClearCreatedStep(proc: Proc)
    | ClearLoadedStep(proc: Proc)
    | UnmapStep(mapping: MapId)
    | RemoveObjectStep(handle: Handle)

  predicate Enabled(s: State, step: Step) {
    match step
    case ReuseStep(p, size, m, q) => CanReuse(s, p, size, m, q)
    case CreateStep(p, size, h, m, q) => CanCreate(s, h, m, q)
    case DropStep(q) => CanDrop(s, q)
    case EndDeleterStep(q) => q in s.closing
    case LoadPopStep(op, p, id) => CanLoadPop(s, op, p, id)
    case LoadOpenStep(op, p, id) => CanLoadOpen(s, op, id)
    case LoadOpenErrorStep(op, p, id) => CanLoadOpenError(s, op, id)
    case LoadAttachStep(op, m) => CanLoadAttach(s, op, m)
    case LoadAttachErrorStep(op) => CanLoadAttachError(s, op)
    case LoadCheckStep(op, q) => CanLoadCheck(s, op, q)
    case LoadCheckErrorStep(op) => CanLoadCheckError(s, op)
    case ClearCreatedStep(_) => true
    case ClearLoadedStep(_) => true
    case UnmapStep(m) => CanUnmap(s, m)
    case RemoveObjectStep(h) => CanRemoveObject(s, h)
  }

  function Apply(s: State, step: Step): State
    requires Enabled(s, step)
  {
    match step
    case ReuseStep(p, size, m, q) => Reuse(s, p, size, m, q)
    case CreateStep(p, size, h, m, q) => Create(s, p, size, h, m, q)
    case DropStep(q) => if s.ptrs[q].kind.Allocated? then DropAllocated(s, q) else DropLoaded(s, q)
    case EndDeleterStep(q) => EndDeleter(s, q)
    case LoadPopStep(op, p, id) => LoadPop(s, op, p, id)
    case LoadOpenStep(op, p, id) => LoadOpen(s, op, p, id)
    case LoadOpenErrorStep(_, _, _) => s
    case LoadAttachStep(op, m) => LoadAttach(s, op, m)
    case LoadAttachErrorStep(op) => LoadAttachError(s, op)
    case LoadCheckStep(op, q) => LoadCheck(s, op, q)
    case LoadCheckErrorStep(op) => LoadCheckError(s, op)
    case ClearCreatedStep(p) => ClearCreated(s, p)
    case ClearLoadedStep(p) => ClearLoaded(s, p)
    case UnmapStep(m) => Unmap(s, m)
    case RemoveObjectStep(h) => RemoveObject(s, h)
  }

  // -------------------------------------------------------------------- Invariant

  /** Both reference counts are the number of owners they stand for. */
  ghost predicate CountsExact(s: State) {
    && (forall h <- s.blocks :: s.blocks[h].refcount == |PtrsOf(s.ptrs, h)|)
    && (forall h <- s.blocks :: s.blocks[h].rawRefs == |MappingsOf(s.mappings, h)|)
  }

  /** A mapping keeps its object alive, and its owner knows it. */
  ghost predicate MappingOk(s: State, m: MapId)
    requires m in s.mappings
  {
    var x := s.mappings[m];
    && x.handle in s.blocks
    && match x.owner
       case ByPtr(q) => q in s.ptrs && s.ptrs[q].mapping == m
       case ByLoad(op) => op in s.loads && s.loads[op].Attached? && s.loads[op].mapping == m
       case InCreated(size) => s.blocks[x.handle].size == size
       case InLoaded => (x.proc, x.handle) in s.loaded && s.loaded[(x.proc, x.handle)] == m
       case Orphan => true
  }

  ghost predicate MappingsOk(s: State) {
    && (forall m <- s.mappings :: MappingOk(s, m))
    && (forall k <- s.loaded :: s.loaded[k] in s.mappings && s.mappings[s.loaded[k]] == Mapping(k.0, k.1, InLoaded))
    && (forall q <- s.closing :: s.closing[q] in s.mappings)
  }

  /** A live pointer has a mapping of its own and carries the current reuse count of its block. */
  ghost predicate PtrOk(s: State, q: PtrId)
    requires q in s.ptrs
  {
    var ptr := s.ptrs[q];
    && ptr.mapping in s.mappings
    && s.mappings[ptr.mapping] == Mapping(ptr.proc, ptr.id.handle, ByPtr(q))
    && ptr.id.handle in s.blocks
    && ptr.id.reuse == s.blocks[ptr.id.handle].reuse
    && ptr.id in s.issued
    && (ptr.kind.Allocated? ==> ptr.kind.size == s.blocks[ptr.id.handle].size)
  }

  ghost predicate PtrsOk(s: State) {
    forall q <- s.ptrs :: PtrOk(s, q)
  }

  ghost predicate LoadsOk(s: State) {
    forall op <- s.loads ::
      && s.loads[op].id.handle in s.uuids
      && (s.loads[op].Attached? ==>
            && s.loads[op].mapping in s.mappings
            && s.mappings[s.loads[op].mapping] == Mapping(s.loads[op].proc, s.loads[op].id.handle, ByLoad(op)))
  }

  ghost predicate IdsOk(s: State) {
    && s.blocks.Keys <= s.uuids
    && (forall id <- s.issued :: id.handle in s.uuids)
    && (forall id <- s.issued :: id.handle in s.blocks ==> id.reuse <= s.blocks[id.handle].reuse)
  }

  ghost predicate Shape(s: State) {
    MappingsOk(s) && PtrsOk(s) && LoadsOk(s) && IdsOk(s)
  }

  ghost predicate Inv(s: State) {
    CountsExact(s) && Shape(s)
  }

  lemma InitInv()
    ensures Inv(INIT)
  {
  }

  // ------------------------------------------------------------ Counting the owners

  lemma SameMappings(ms: map<MapId, Mapping>, ns: map<MapId, Mapping>)
    requires ms.Keys == ns.Keys && forall m <- ms :: ms[m].handle == ns[m].handle
    ensures forall h :: MappingsOf(ns, h) == MappingsOf(ms, h)
  {
  }

  lemma AddMapping(ms: map<MapId, Mapping>, m: MapId, x: Mapping)
    requires m !in ms
    ensures forall h :: |MappingsOf(ms[m := x], h)| == |MappingsOf(ms, h)| + if x.handle == h then 1 else 0
  {
    forall h
      ensures |MappingsOf(ms[m := x], h)| == |MappingsOf(ms, h)| + if x.handle == h then 1 else 0
    {
      assert MappingsOf(ms[m := x], h) == MappingsOf(ms, h) + if x.handle == h then {m} else {};
    }
  }

  lemma RemoveMapping(ms: map<MapId, Mapping>, m: MapId)
    requires m in ms
    ensures forall h :: |MappingsOf(ms - {m}, h)| == |MappingsOf(ms, h)| - if ms[m].handle == h then 1 else 0
  {
    forall h
      ensures |MappingsOf(ms - {m}, h)| == |MappingsOf(ms, h)| - if ms[m].handle == h then 1 else 0
    {
      assert MappingsOf(ms - {m}, h) == MappingsOf(ms, h) - {m};
    }
  }

  lemma AddPtr(ps: map<PtrId, Ptr>, q: PtrId, x: Ptr)
    requires q !in ps
    ensures forall h :: |PtrsOf(ps[q := x], h)| == |PtrsOf(ps, h)| + if x.id.handle == h then 1 else 0
  {
    forall h
      ensures |PtrsOf(ps[q := x], h)| == |PtrsOf(ps, h)| + if x.id.handle == h then 1 else 0
    {
      assert PtrsOf(ps[q := x], h) == PtrsOf(ps, h) + if x.id.handle == h then {q} else {};
    }
  }

  lemma RemovePtr(ps: map<PtrId, Ptr>, q: PtrId)
    requires q in ps
    ensures forall h :: |PtrsOf(ps - {q}, h)| == |PtrsOf(ps, h)| - if ps[q].id.handle == h then 1 else 0
  {
    forall h
      ensures |PtrsOf(ps - {q}, h)| == |PtrsOf(ps, h)| - if ps[q].id.handle == h then 1 else 0
    {
      assert PtrsOf(ps - {q}, h) == PtrsOf(ps, h) - {q};
    }
  }

  /** Somebody is counted if and only if there is somebody. */
  lemma LivePtrCounted(s: State, q: PtrId)
    requires Inv(s) && q in s.ptrs
    ensures s.blocks[s.ptrs[q].id.handle].refcount > 0
  {
    assert q in PtrsOf(s.ptrs, s.ptrs[q].id.handle);
  }

  lemma LiveMappingCounted(s: State, m: MapId)
    requires Inv(s) && m in s.mappings
    ensures s.blocks[s.mappings[m].handle].rawRefs > 0
  {
    assert m in MappingsOf(s.mappings, s.mappings[m].handle);
  }

  // --------------------------------------------------- Every step keeps the invariant

  lemma ReuseCounts(s: State, p: Proc, size: nat, m: MapId, q: PtrId)
    requires CountsExact(s) && CanReuse(s, p, size, m, q)
    ensures CountsExact(Reuse(s, p, size, m, q))
  {
    var t := Reuse(s, p, size, m, q);
    SameMappings(s.mappings, t.mappings);
    AddPtr(s.ptrs, q, t.ptrs[q]);
  }

  lemma ReuseShape(s: State, p: Proc, size: nat, m: MapId, q: PtrId)
    requires Shape(s) && CanReuse(s, p, size, m, q)
    requires forall r <- s.ptrs :: s.ptrs[r].id.handle != s.mappings[m].handle
    ensures Shape(Reuse(s, p, size, m, q))
  {
  }

  lemma CreateCounts(s: State, p: Proc, size: nat, h: Handle, m: MapId, q: PtrId)
    requires Inv(s) && CanCreate(s, h, m, q)
    ensures CountsExact(Create(s, p, size, h, m, q))
  {
    var t := Create(s, p, size, h, m, q);
    AddMapping(s.mappings, m, t.mappings[m]);
    AddPtr(s.ptrs, q, t.ptrs[q]);
    assert MappingsOf(s.mappings, h) == {};
    assert PtrsOf(s.ptrs, h) == {};
  }

  lemma CreateShape(s: State, p: Proc, size: nat, h: Handle, m: MapId, q: PtrId)
    requires Shape(s) && CanCreate(s, h, m, q)
    ensures Shape(Create(s, p, size, h, m, q))
  {
  }

  lemma DropCounts(s: State, q: PtrId)
    requires CountsExact(s) && CanDrop(s, q)
    ensures s.ptrs[q].kind.Allocated? ==> CountsExact(DropAllocated(s, q))
    ensures s.ptrs[q].kind.Loaded? ==> CountsExact(DropLoaded(s, q))
  {
    var t := if s.ptrs[q].kind.Allocated? then DropAllocated(s, q) else DropLoaded(s, q);
    SameMappings(s.mappings, t.mappings);
    RemovePtr(s.ptrs, q);
  }

  lemma DropAllocatedShape(s: State, q: PtrId)
    requires Shape(s) && CanDrop(s, q) && s.ptrs[q].kind.Allocated?
    ensures Shape(DropAllocated(s, q))
  {
  }

  lemma DropLoadedMappings(s: State, q: PtrId)
    requires Shape(s) && CanDrop(s, q) && s.ptrs[q].kind.Loaded?
    ensures MappingsOk(DropLoaded(s, q))
  {
    var t := DropLoaded(s, q);
    assert PtrOk(s, q);
    forall m | m in t.mappings
      ensures MappingOk(t, m)
    {
      assert MappingOk(s, m);
    }
  }

  lemma DropLoadedShape(s: State, q: PtrId)
    requires Shape(s) && CanDrop(s, q) && s.ptrs[q].kind.Loaded?
    ensures PtrsOk(DropLoaded(s, q)) && LoadsOk(DropLoaded(s, q)) && IdsOk(DropLoaded(s, q))
  {
    var t := DropLoaded(s, q);
    forall r | r in t.ptrs
      ensures PtrOk(t, r)
    {
      assert PtrOk(s, r);
    }
  }

  lemma LoadPopCounts(s: State, op: OpId, p: Proc, id: BlockId)
    requires CountsExact(s) && CanLoadPop(s, op, p, id)
    ensures CountsExact(LoadPop(s, op, p, id))
  {
    SameMappings(s.mappings, LoadPop(s, op, p, id).mappings);
  }

  lemma LoadPopShape(s: State, op: OpId, p: Proc, id: BlockId)
    requires Shape(s) && CanLoadPop(s, op, p, id)
    ensures Shape(LoadPop(s, op, p, id))
  {
    assert MappingOk(s, s.loaded[(p, id.handle)]);
  }

  lemma EndDeleterInv(s: State, q: PtrId)
    requires Inv(s)
    ensures Inv(EndDeleter(s, q))
  {
  }

  lemma LoadOpenInv(s: State, op: OpId, p: Proc, id: BlockId)
    requires Inv(s) && CanLoadOpen(s, op, id)
    ensures Inv(LoadOpen(s, op, p, id))
  {
  }

  lemma LoadAttachErrorInv(s: State, op: OpId)
    requires Inv(s) && CanLoadAttachError(s, op)
    ensures Inv(LoadAttachError(s, op))
  {
  }

  lemma LoadAttachCounts(s: State, op: OpId, m: MapId)
    requires CountsExact(s) && CanLoadAttach(s, op, m)
    ensures CountsExact(LoadAttach(s, op, m))
  {
    AddMapping(s.mappings, m, LoadAttach(s, op, m).mappings[m]);
  }

  lemma LoadAttachShape(s: State, op: OpId, m: MapId)
    requires Shape(s) && CanLoadAttach(s, op, m)
    ensures Shape(LoadAttach(s, op, m))
  {
  }

  lemma LoadCheckCounts(s: State, op: OpId, q: PtrId)
    requires CountsExact(s) && CanLoadCheck(s, op, q)
    ensures CountsExact(LoadCheck(s, op, q))
  {
    var t := LoadCheck(s, op, q);
    SameMappings(s.mappings, t.mappings);
    AddPtr(s.ptrs, q, t.ptrs[q]);
  }

  lemma LoadCheckShape(s: State, op: OpId, q: PtrId)
    requires Shape(s) && CanLoadCheck(s, op, q) && s.loads[op].id in s.issued
    ensures Shape(LoadCheck(s, op, q))
  {
  }

  lemma LoadCheckErrorCounts(s: State, op: OpId)
    requires CountsExact(s) && CanLoadCheckError(s, op)
    ensures CountsExact(LoadCheckError(s, op))
  {
    SameMappings(s.mappings, LoadCheckError(s, op).mappings);
  }

  lemma LoadCheckErrorShape(s: State, op: OpId)
    requires Shape(s) && CanLoadCheckError(s, op)
    ensures Shape(LoadCheckError(s, op))
  {
  }

  lemma ClearCounts(s: State, p: Proc)
    requires CountsExact(s)
    ensures CountsExact(ClearCreated(s, p)) && CountsExact(ClearLoaded(s, p))
  {
    SameMappings(s.mappings, ClearCreated(s, p).mappings);
    SameMappings(s.mappings, ClearLoaded(s, p).mappings);
  }

  lemma ClearCreatedShape(s: State, p: Proc)
    requires Shape(s)
    ensures Shape(ClearCreated(s, p))
  {
  }

  lemma ClearLoadedShape(s: State, p: Proc)
    requires Shape(s)
    ensures Shape(ClearLoaded(s, p))
  {
  }

  lemma UnmapCounts(s: State, m: MapId)
    requires CountsExact(s) && CanUnmap(s, m)
    ensures CountsExact(Unmap(s, m))
  {
    RemoveMapping(s.mappings, m);
  }

  lemma UnmapShape(s: State, m: MapId)
    requires Shape(s) && CanUnmap(s, m)
    ensures Shape(Unmap(s, m))
  {
    assert forall q <- s.closing :: s.closing[q] in s.closing.Values;
  }

  lemma RemoveObjectShape(s: State, h: Handle)
    requires Shape(s) && CanRemoveObject(s, h)
    requires forall m <- s.mappings :: s.mappings[m].handle != h
    ensures Shape(RemoveObject(s, h))
  {
  }

  /** A live pointer's id passes the checks, so the checks pass for ids that were issued. */
  lemma CheckedIdIssued(s: State, id: BlockId)
    requires Inv(s) && CheckPasses(s, id)
    ensures exists q :: q in s.ptrs && s.ptrs[q].id == id
    ensures id in s.issued
  {
    var q :| q in PtrsOf(s.ptrs, id.handle);
    assert PtrOk(s, q);
  }

  lemma StepCounts(s: State, step: Step)
    requires Inv(s) && Enabled(s, step)
    ensures CountsExact(Apply(s, step))
  {
    match step
    case ReuseStep(p, size, m, q) => ReuseCounts(s, p, size, m, q);
    case CreateStep(p, size, h, m, q) => CreateCounts(s, p, size, h, m, q);
    case DropStep(q) => DropCounts(s, q);
    case LoadPopStep(op, p, id) => LoadPopCounts(s, op, p, id);
    case LoadAttachStep(op, m) => LoadAttachCounts(s, op, m);
    case LoadCheckStep(op, q) => LoadCheckCounts(s, op, q);
    case LoadCheckErrorStep(op) => LoadCheckErrorCounts(s, op);
    case ClearCreatedStep(p) => ClearCounts(s, p);
    case ClearLoadedStep(p) => ClearCounts(s, p);
    case UnmapStep(m) => UnmapCounts(s, m);
    case _ =>
  }

  lemma AllocStepShape(s: State, step: Step)
    requires Inv(s) && Enabled(s, step)
    requires step.ReuseStep? || step.CreateStep? || step.DropStep?
    ensures Shape(Apply(s, step))
  {
    match step
    case ReuseStep(p, size, m, q) =>
      forall r | r in s.ptrs
        ensures s.ptrs[r].id.handle != s.mappings[m].handle
      {
        LivePtrCounted(s, r);
      }
      ReuseShape(s, p, size, m, q);
    case CreateStep(p, size, h, m, q) => CreateShape(s, p, size, h, m, q);
    case DropStep(q) =>
      if s.ptrs[q].kind.Allocated? {
        DropAllocatedShape(s, q);
      } else {
        DropLoadedMappings(s, q);
        DropLoadedShape(s, q);
      }
  }

  lemma LoadStepShape(s: State, step: Step)
    requires Inv(s) && Enabled(s, step)
    requires step.LoadPopStep? || step.LoadAttachStep? || step.LoadCheckStep? || step.LoadCheckErrorStep?
    ensures Shape(Apply(s, step))
  {
    match step
    case LoadPopStep(op, p, id) => LoadPopShape(s, op, p, id);
    case LoadAttachStep(op, m) => LoadAttachShape(s, op, m);
    case LoadCheckStep(op, q) =>
      CheckedIdIssued(s, s.loads[op].id);
      LoadCheckShape(s, op, q);
    case LoadCheckErrorStep(op) => LoadCheckErrorShape(s, op);
  }

  lemma FreeStepShape(s: State, step: Step)
    requires Inv(s) && Enabled(s, step)
    requires step.ClearCreatedStep? || step.ClearLoadedStep? || step.UnmapStep? || step.RemoveObjectStep?
    ensures Shape(Apply(s, step))
  {
    match step
    case ClearCreatedStep(p) => ClearCreatedShape(s, p);
    case ClearLoadedStep(p) => ClearLoadedShape(s, p);
    case UnmapStep(m) => UnmapShape(s, m);
    case RemoveObjectStep(h) =>
      forall m | m in s.mappings
        ensures s.mappings[m].handle != h
      {
        LiveMappingCounted(s, m);
      }
      RemoveObjectShape(s, h);
  }

  /** Every step of every thread keeps the invariant. */
  lemma StepInv(s: State, step: Step)
    requires Inv(s) && Enabled(s, step)
    ensures Inv(Apply(s, step))
  {
    if step.EndDeleterStep? {
      EndDeleterInv(s, step.ptr);
    } else if step.LoadOpenErrorStep? {
    } else if step.LoadOpenStep? {
      LoadOpenInv(s, step.op, step.proc, step.id);
    } else if step.LoadAttachErrorStep? {
      LoadAttachErrorInv(s, step.op);
    } else {
      StepCounts(s, step);
      if step.ReuseStep? || step.CreateStep? || step.DropStep? {
        AllocStepShape(s, step);
      } else if step.LoadPopStep? || step.LoadAttachStep? || step.LoadCheckStep? || step.LoadCheckErrorStep? {
        LoadStepShape(s, step);
      } else {
        FreeStepShape(s, step);
      }
    }
  }
}

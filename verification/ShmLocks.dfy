/**
  The locks of the allocator, one acquisition at a time.

  maybe_get_and_pop takes the created cache mutex and then a block mutex; the
  deleter of allocate_shm takes a block mutex and then the created cache mutex. No
  reachable state has a wait cycle all the same, because a block whose allocation
  pointer is being dropped is not in a created cache.
 */
module ShmLocks {
  import opened Wrappers

  type Proc = nat
  type Handle = nat
  type Tid = nat

  datatype Lock =
    | CreatedCache(proc: Proc)
    | LoadedCache(proc: Proc)
    | InTransit(proc: Proc)
    | BlockMutex(handle: Handle)
    | RawMutex(handle: Handle)

  /** Where a thread stands. "Want" waits for a lock, the others can run. */
  datatype Pc =
    | Idle
    | DoneWant
    // AllocationCache.maybe_get_and_pop
    | ScanWant | Scan | ScanWantBlock(h: Handle) | ScanHasBlock(h: Handle)
    // The deleter of allocate_shm
    | DropWant(h: Handle) | DropWantCache(h: Handle) | DropHasBoth(h: Handle) | DropTail(h: Handle)
    // load_shm
    | LoadWant(h: Handle) | LoadHasCache(h: Handle) | LoadWantRaw(h: Handle) | LoadHasRaw(h: Handle)
    | LoadWantBlock(h: Handle) | LoadHasBlock(h: Handle)
    // The deleter of load_shm; the raw mutex is for the mapping that its insertion evicts
    | UnloadWant(h: Handle) | UnloadWantCache(h: Handle) | UnloadHasBoth(h: Handle)
    | UnloadWantRaw(h: Handle) | UnloadHasRaw(h: Handle) | UnloadTail(h: Handle)
    // AllocationCache.clear and LoadCache.clear
    | ClearWant | ClearHas | ClearWantRaw(h: Handle) | ClearHasRaw(h: Handle)
    | ForgetWant | ForgetHas | ForgetWantRaw(h: Handle) | ForgetHasRaw(h: Handle)
    // ~RawSHMBlock outside of any cache
    | UnmapWantRaw(h: Handle) | UnmapHasRaw(h: Handle)

  /** `inDone`: the thread is inside TransferrableController.done and runs deleters under its mutex. */
  datatype Thread = Thread(proc: Proc, pc: Pc, inDone: bool)

  /** Who has the allocation of a block: a live pointer, a running deleter, a created cache, or nobody. */
  datatype Place = Live(proc: Proc) | Dropping(tid: Tid) | Cached(proc: Proc) | Forgotten

  /** What a lock guards: the counts of a block, the count of its mappings, the blocks in a cache. */
  datatype Datum =
    | Nothing
    | Counts(refcount: nat, reuse: nat)
    | RawCount(rawRefs: nat)
    | Created(sizes: map<nat, nat>)
    | Loaded(mappings: map<nat, nat>)

  datatype State = State(threads: map<Tid, Thread>, place: map<Handle, Place>, data: map<Lock, Datum>)

  function DataAt(s: State, l: Lock): Datum {
    if l in s.data then s.data[l] else Nothing
  }

  function Wants(th: Thread): Option<Lock> {
    match th.pc
    case DoneWant => Some(InTransit(th.proc))
    case ScanWant => Some(CreatedCache(th.proc))
    case ScanWantBlock(h) => Some(BlockMutex(h))
    case DropWant(h) => Some(BlockMutex(h))
    case DropWantCache(h) => Some(CreatedCache(th.proc))
    case LoadWant(h) => Some(LoadedCache(th.proc))
    case LoadWantRaw(h) => Some(RawMutex(h))
    case LoadWantBlock(h) => Some(BlockMutex(h))
    case UnloadWant(h) => Some(BlockMutex(h))
    case UnloadWantCache(h) => Some(LoadedCache(th.proc))
    case UnloadWantRaw(h) => Some(RawMutex(h))
    case ClearWant => Some(CreatedCache(th.proc))
    case ClearWantRaw(h) => Some(RawMutex(h))
    case ForgetWant => Some(LoadedCache(th.proc))
    case ForgetWantRaw(h) => Some(RawMutex(h))
    case UnmapWantRaw(h) => Some(RawMutex(h))
    case _ => None
  }

  /** The locks the current operation has taken. */
  function OwnLocks(th: Thread): set<Lock> {
    match th.pc
    case Scan => {CreatedCache(th.proc)}
    case ScanWantBlock(h) => {CreatedCache(th.proc)}
    case ScanHasBlock(h) => {CreatedCache(th.proc), BlockMutex(h)}
    case DropWantCache(h) => {BlockMutex(h)}
    case DropHasBoth(h) => {BlockMutex(h), CreatedCache(th.proc)}
    case DropTail(h) => {BlockMutex(h)}
    case LoadHasCache(h) => {LoadedCache(th.proc)}
    case LoadHasRaw(h) => {RawMutex(h)}
    case LoadHasBlock(h) => {BlockMutex(h)}
    case UnloadWantCache(h) => {BlockMutex(h)}
    case UnloadHasBoth(h) => {BlockMutex(h), LoadedCache(th.proc)}
    case UnloadWantRaw(h) => {BlockMutex(h), LoadedCache(th.proc)}
    case UnloadHasRaw(h) => {BlockMutex(h), LoadedCache(th.proc), RawMutex(h)}
    case UnloadTail(h) => {BlockMutex(h)}
    case ClearHas => {CreatedCache(th.proc)}
    case ClearWantRaw(h) => {CreatedCache(th.proc)}
    case ClearHasRaw(h) => {CreatedCache(th.proc), RawMutex(h)}
    case ForgetHas => {LoadedCache(th.proc)}
    case ForgetWantRaw(h) => {LoadedCache(th.proc)}
    case ForgetHasRaw(h) => {LoadedCache(th.proc), RawMutex(h)}
    case UnmapHasRaw(h) => {RawMutex(h)}
    case _ => {}
  }

  function Holds(th: Thread): set<Lock> {
    OwnLocks(th) + if th.inDone then {InTransit(th.proc)} else {}
  }

  /** Getting the lock a thread waits for. */
  function Granted(th: Thread): Thread
    requires Wants(th).Some?
  {
    match th.pc
    case DoneWant => th.(pc := Idle, inDone := true)
    case ScanWant => th.(pc := Scan)
    case ScanWantBlock(h) => th.(pc := ScanHasBlock(h))
    case DropWant(h) => th.(pc := DropWantCache(h))
    case DropWantCache(h) => th.(pc := DropHasBoth(h))
    case LoadWant(h) => th.(pc := LoadHasCache(h))
    case LoadWantRaw(h) => th.(pc := LoadHasRaw(h))
    case LoadWantBlock(h) => th.(pc := LoadHasBlock(h))
    case UnloadWant(h) => th.(pc := UnloadWantCache(h))
    case UnloadWantCache(h) => th.(pc := UnloadHasBoth(h))
    case UnloadWantRaw(h) => th.(pc := UnloadHasRaw(h))
    case ClearWant => th.(pc := ClearHas)
    case ClearWantRaw(h) => th.(pc := ClearHasRaw(h))
    case ForgetWant => th.(pc := ForgetHas)
    case ForgetWantRaw(h) => th.(pc := ForgetHasRaw(h))
    case UnmapWantRaw(h) => th.(pc := UnmapHasRaw(h))
  }

  /** Moves inside a region or between regions that touch neither a lock set of others nor a place. */
  predicate PcMove(th: Thread, to: Pc) {
    match th.pc
    case Idle =>
      if th.inDone then to.UnloadWant? || to.UnmapWantRaw?
      else
        || to.DoneWant? || to.ScanWant? || to.LoadWant? || to.UnloadWant? || to.ClearWant?
        || to.ForgetWant? || to.UnmapWantRaw?
    case Scan => to == Idle
    case ScanHasBlock(h) => to == Scan
    case DropTail(h) => to == Idle || to == UnmapWantRaw(h)
    case LoadHasCache(h) => to == LoadWantBlock(h) || to == LoadWantRaw(h)
    case LoadHasRaw(h) => to == LoadWantBlock(h) || to == Idle
    case LoadHasBlock(h) => to == Idle || to == UnmapWantRaw(h)
    case UnloadHasBoth(h) => to == UnloadTail(h) || to == UnloadWantRaw(h)
    case UnloadHasRaw(h) => to == UnloadTail(h)
    case UnloadTail(h) => to == Idle || to == UnmapWantRaw(h)
    case ClearHas => to == Idle
    case ClearHasRaw(h) => to == ClearHas
    case ForgetHas => to == Idle || to.ForgetWantRaw?
    case ForgetHasRaw(h) => to == ForgetHas
    case UnmapHasRaw(h) => to == Idle
    case _ => false
  }

  datatype Step =
    | Acquire
    | Move(to: Pc)
    | LeaveDone
    | NewBlock(h: Handle)      // allocate_shm found nothing and creates a block
    | StartDrop(h: Handle)     // the last copy of an allocation pointer goes away
    | Pick(h: Handle)          // the scan looks at the next block of the cache
    | Take(h: Handle)          // ... and pops it
    | Insert(h: Handle)        // the deleter puts the block into the cache
    | Clear(h: Handle, last: bool) // clear() erases one entry, and destroys it if nobody else owns it
    // Code between taking and releasing locks: finds `found` in what they guard and writes `written`
    | Access(found: map<Lock, Datum>, written: map<Lock, Datum>)

  predicate Enabled(s: State, t: Tid, step: Step) {
    t in s.threads &&
    var th := s.threads[t];
    match step
    case Acquire => Wants(th).Some? && forall u <- s.threads :: Wants(th).value !in Holds(s.threads[u])
    case Move(to) => PcMove(th, to)
    case LeaveDone => th.pc == Idle && th.inDone
    case NewBlock(h) => th.pc == Idle && !th.inDone && h !in s.place
    case StartDrop(h) => th.pc == Idle && h in s.place && s.place[h] == Live(th.proc)
    case Pick(h) => th.pc == Scan && h in s.place && s.place[h] == Cached(th.proc)
    case Take(h) => th.pc == ScanHasBlock(h)
    case Insert(h) => th.pc == DropHasBoth(h)
    case Clear(h, _) => th.pc == ClearHas && h in s.place && s.place[h] == Cached(th.proc)
    case Access(found, written) =>
      found.Keys <= Holds(th) && written.Keys <= Holds(th) && forall l <- found :: DataAt(s, l) == found[l]
  }

  function Apply(s: State, t: Tid, step: Step): State
    requires Enabled(s, t, step)
  {
    var th := s.threads[t];
    match step
    case Acquire => s.(threads := s.threads[t := Granted(th)])
    case Move(to) => s.(threads := s.threads[t := th.(pc := to)])
    case LeaveDone => s.(threads := s.threads[t := th.(inDone := false)])
    case NewBlock(h) => s.(place := s.place[h := Live(th.proc)])
    case StartDrop(h) => s.(threads := s.threads[t := th.(pc := DropWant(h))], place := s.place[h := Dropping(t)])
    case Pick(h) => s.(threads := s.threads[t := th.(pc := ScanWantBlock(h))])
    case Take(h) => s.(threads := s.threads[t := th.(pc := Idle)], place := s.place[h := Live(th.proc)])
    case Insert(h) => s.(threads := s.threads[t := th.(pc := DropTail(h))], place := s.place[h := Cached(th.proc)])
    case Clear(h, last) =>
      s.(threads := if last then s.threads[t := th.(pc := ClearWantRaw(h))] else s.threads,
         place := s.place[h := Forgotten])
    case Access(_, written) => s.(data := s.data + written)
  }

  predicate Initial(s: State) {
    s.place == map[] && forall t <- s.threads :: s.threads[t].pc == Idle && !s.threads[t].inDone
  }

  /** A lock has one holder. */
  ghost predicate Exclusive(s: State) {
    forall t <- s.threads, u <- s.threads :: t != u ==> Holds(s.threads[t]) !! Holds(s.threads[u])
  }

  /** A deleter before its insertion owns the block; a scanned block is in the scanner's cache. */
  ghost predicate PlaceOk(s: State, t: Tid)
    requires t in s.threads
  {
    match s.threads[t].pc
    case DoneWant => !s.threads[t].inDone
    case DropWant(h) => h in s.place && s.place[h] == Dropping(t)
    case DropWantCache(h) => h in s.place && s.place[h] == Dropping(t)
    case DropHasBoth(h) => h in s.place && s.place[h] == Dropping(t)
    case ScanWantBlock(h) => h in s.place && s.place[h] == Cached(s.threads[t].proc)
    case ScanHasBlock(h) => h in s.place && s.place[h] == Cached(s.threads[t].proc)
    case _ => true
  }

  ghost predicate Inv(s: State) {
    Exclusive(s) && forall t <- s.threads :: PlaceOk(s, t)
  }

  lemma InitInv(s: State)
    requires Initial(s)
    ensures Inv(s)
  {
  }

  lemma HoldsGranted(th: Thread)
    requires Wants(th).Some?
    ensures Holds(Granted(th)) <= Holds(th) + {Wants(th).value}
  {
  }

  lemma HoldsMoved(th: Thread, to: Pc)
    requires PcMove(th, to)
    ensures Holds(th.(pc := to)) <= Holds(th)
  {
  }

  lemma HoldsAfter(s: State, t: Tid, step: Step)
    requires Enabled(s, t, step)
    ensures Holds(Apply(s, t, step).threads[t])
            <= Holds(s.threads[t]) + if step.Acquire? then {Wants(s.threads[t]).value} else {}
  {
    match step
    case Acquire => HoldsGranted(s.threads[t]);
    case Move(to) => HoldsMoved(s.threads[t], to);
    case _ =>
  }

  lemma OthersAfter(s: State, t: Tid, step: Step)
    requires Enabled(s, t, step)
    ensures Apply(s, t, step).threads.Keys == s.threads.Keys
    ensures forall u <- s.threads :: u != t ==> Apply(s, t, step).threads[u] == s.threads[u]
  {
  }

  lemma ExclusiveFrame(s: State, s': State, t: Tid, extra: set<Lock>)
    requires Exclusive(s) && t in s.threads && s'.threads.Keys == s.threads.Keys
    requires forall u <- s.threads :: u != t ==> s'.threads[u] == s.threads[u]
    requires Holds(s'.threads[t]) <= Holds(s.threads[t]) + extra
    requires forall u <- s.threads :: u != t ==> extra !! Holds(s.threads[u])
    ensures Exclusive(s')
  {
  }

  lemma StepExclusive(s: State, t: Tid, step: Step)
    requires Exclusive(s) && Enabled(s, t, step)
    ensures Exclusive(Apply(s, t, step))
  {
    HoldsAfter(s, t, step);
    OthersAfter(s, t, step);
    ExclusiveFrame(s, Apply(s, t, step), t, if step.Acquire? then {Wants(s.threads[t]).value} else {});
  }

  lemma StepPlace(s: State, t: Tid, step: Step)
    requires Inv(s) && Enabled(s, t, step)
    ensures forall u <- Apply(s, t, step).threads :: PlaceOk(Apply(s, t, step), u)
  {
    forall u | u in Apply(s, t, step).threads
      ensures PlaceOk(Apply(s, t, step), u)
    {
      assert PlaceOk(s, u) && PlaceOk(s, t);
      if u == t {
        OwnPlace(s, t, step);
      } else {
        OtherPlace(s, t, step, u);
      }
    }
  }

  lemma OwnPlace(s: State, t: Tid, step: Step)
    requires Enabled(s, t, step) && PlaceOk(s, t)
    ensures PlaceOk(Apply(s, t, step), t)
  {
  }

  lemma OtherPlace(s: State, t: Tid, step: Step, u: Tid)
    requires Exclusive(s) && Enabled(s, t, step) && t != u && u in s.threads && PlaceOk(s, t) && PlaceOk(s, u)
    ensures PlaceOk(Apply(s, t, step), u)
  {
    if step.Take? || step.Clear? {
      var lock := CreatedCache(s.threads[t].proc);
      assert lock in Holds(s.threads[t]);
      assert lock !in Holds(s.threads[u]);
    }
  }

  lemma StepInv(s: State, t: Tid, step: Step)
    requires Inv(s) && Enabled(s, t, step)
    ensures Inv(Apply(s, t, step))
  {
    StepExclusive(s, t, step);
    StepPlace(s, t, step);
  }

  // ---------------------------------------------------------------------- No deadlock

  /** t cannot move before u has released a lock. */
  predicate WaitsFor(s: State, t: Tid, u: Tid) {
    && t in s.threads && u in s.threads
    && Wants(s.threads[t]).Some? && Wants(s.threads[t]).value in Holds(s.threads[u])
  }

  function Rank(th: Thread): nat {
    match th.pc
    case DoneWant => 6
    case ScanWant => 5
    case DropWant(_) => 5
    case LoadWant(_) => 5
    case LoadWantRaw(_) => 5
    case LoadWantBlock(_) => 5
    case UnloadWant(_) => 5
    case ClearWant => 5
    case ForgetWant => 5
    case UnmapWantRaw(_) => 5
    case DropWantCache(_) => 4
    case ScanWantBlock(_) => 3
    case UnloadWantCache(_) => 2
    case UnloadWantRaw(_) => 1
    case ClearWantRaw(_) => 1
    case ForgetWantRaw(_) => 1
    case _ => 0
  }

  /** Waiting goes strictly down in rank, although the two lock orders are opposite. */
  lemma WaitingDescends(s: State, t: Tid, u: Tid)
    requires Inv(s) && WaitsFor(s, t, u) && t != u
    ensures Rank(s.threads[u]) < Rank(s.threads[t])
  {
    assert PlaceOk(s, t) && PlaceOk(s, u);
  }

  /** No thread waits for itself: none of the mutexes is taken twice by one thread. */
  lemma NoSelfWait(s: State, t: Tid)
    requires Inv(s)
    ensures !WaitsFor(s, t, t)
  {
    if t in s.threads {
      assert PlaceOk(s, t);
    }
  }

  ghost predicate WaitChain(s: State, ts: seq<Tid>) {
    && (forall i | 0 <= i < |ts| :: ts[i] in s.threads)
    && (forall i | 0 <= i < |ts| - 1 :: ts[i] != ts[i + 1] && WaitsFor(s, ts[i], ts[i + 1]))
  }

  lemma {:induction false} ChainDescends(s: State, ts: seq<Tid>)
    requires Inv(s) && WaitChain(s, ts) && |ts| >= 2
    ensures Rank(s.threads[ts[|ts| - 1]]) < Rank(s.threads[ts[0]])
    decreases |ts|
  {
    NoSelfWait(s, ts[0]);
    WaitingDescends(s, ts[0], ts[1]);
    if |ts| > 2 {
      ChainDescends(s, ts[1..]);
    }
  }

  /** No reachable state has a cycle of waiting threads, of whatever length. */
  lemma NoWaitCycle(s: State, ts: seq<Tid>)
    requires Inv(s) && WaitChain(s, ts) && |ts| >= 2
    ensures ts[0] != ts[|ts| - 1]
  {
    ChainDescends(s, ts);
  }

  /** The thread a blocked thread ultimately waits for: it has no lock to wait for, or its lock is free. */
  lemma {:induction false} FindRunnable(s: State, t: Tid) returns (r: Tid, step: Step)
    requires Inv(s) && t in s.threads && s.threads[t].pc != Idle
    ensures Enabled(s, r, step) && !step.Access?
    ensures s.threads[r].pc != Idle || (step == LeaveDone && s.threads[r].inDone)
    decreases Rank(s.threads[t])
  {
    var th := s.threads[t];
    r := t;
    match Wants(th)
    case Some(l) =>
      if u :| u in s.threads && l in Holds(s.threads[u]) {
        assert WaitsFor(s, t, u);
        NoSelfWait(s, t);
        WaitingDescends(s, t, u);
        if s.threads[u].pc == Idle {
          return u, LeaveDone;
        }
        r, step := FindRunnable(s, u);
      } else {
        step := Acquire;
      }
    case None =>
      step := OwnMove(th);
  }

  /** What a thread that waits for nothing does next. */
  function OwnMove(th: Thread): (step: Step)
    requires th.pc != Idle && Wants(th).None?
    ensures step.Insert? || (step.Move? && PcMove(th, step.to))
  {
    match th.pc
    case Scan => Move(Idle)
    case ScanHasBlock(h) => Move(Scan)
    case DropHasBoth(h) => Insert(h)
    case DropTail(h) => Move(Idle)
    case LoadHasCache(h) => Move(LoadWantBlock(h))
    case LoadHasRaw(h) => Move(LoadWantBlock(h))
    case LoadHasBlock(h) => Move(Idle)
    case UnloadHasBoth(h) => Move(UnloadTail(h))
    case UnloadHasRaw(h) => Move(UnloadTail(h))
    case UnloadTail(h) => Move(Idle)
    case ClearHas => Move(Idle)
    case ClearHasRaw(h) => Move(ClearHas)
    case ForgetHas => Move(Idle)
    case ForgetHasRaw(h) => Move(ForgetHas)
    case UnmapHasRaw(h) => Move(Idle)
  }

  // ----------------------------------------------------------- What the operations come to

  /** Where a block is after a step: with a pointer, with its deleter, in a cache, or nowhere. */
  lemma BlockMoves(s: State, t: Tid, step: Step, h: Handle)
    requires Enabled(s, t, step)
    ensures var r, p := Apply(s, t, step), s.threads[t].proc;
            if step == NewBlock(h) || step == Take(h) then h in r.place && r.place[h] == Live(p)
            else if step == StartDrop(h) then h in r.place && r.place[h] == Dropping(t)
            else if step == Insert(h) then h in r.place && r.place[h] == Cached(p)
            else if step == Clear(h, true) || step == Clear(h, false) then h in r.place && r.place[h] == Forgotten
            else (h in r.place <==> h in s.place) && (h in s.place ==> r.place[h] == s.place[h])
  {
  }

  /** How many steps of its own a thread is away from the end of its operation, on the shortest way. */
  function Togo(pc: Pc): nat {
    match pc
    case Idle => 0
    case DoneWant => 2
    case ScanWant => 2
    case Scan => 1
    case ScanWantBlock(_) => 3
    case ScanHasBlock(_) => 2
    case DropWant(_) => 4
    case DropWantCache(_) => 3
    case DropHasBoth(_) => 2
    case DropTail(_) => 1
    case LoadWant(_) => 4
    case LoadHasCache(_) => 3
    case LoadWantRaw(_) => 4
    case LoadHasRaw(_) => 3
    case LoadWantBlock(_) => 2
    case LoadHasBlock(_) => 1
    case UnloadWant(_) => 4
    case UnloadWantCache(_) => 3
    case UnloadHasBoth(_) => 2
    case UnloadWantRaw(_) => 3
    case UnloadHasRaw(_) => 2
    case UnloadTail(_) => 1
    case ClearWant => 2
    case ClearHas => 1
    case ClearWantRaw(_) => 3
    case ClearHasRaw(_) => 2
    case ForgetWant => 2
    case ForgetHas => 1
    case ForgetWantRaw(_) => 3
    case ForgetHasRaw(_) => 2
    case UnmapWantRaw(_) => 2
    case UnmapHasRaw(_) => 1
  }

  function NextStep(th: Thread): Step
    requires Busy(th)
  {
    if th.pc == Idle then LeaveDone else if Wants(th).Some? then Acquire else OwnMove(th)
  }

  /** Inside an operation, or inside TransferrableController.done between two deleters. */
  predicate Busy(th: Thread) {
    th.pc != Idle || th.inDone
  }

  function Distance(th: Thread): nat {
    Togo(th.pc) + if th.inDone then 1 else 0
  }

  lemma NextStepGoes(s: State, t: Tid)
    requires Inv(s) && t in s.threads && Busy(s.threads[t])
    requires forall u <- s.threads :: u != t ==> Holds(s.threads[u]) == {}
    ensures Enabled(s, t, NextStep(s.threads[t]))
    ensures var r := Apply(s, t, NextStep(s.threads[t]));
            t in r.threads && Distance(r.threads[t]) < Distance(s.threads[t])
  {
    if s.threads[t].pc == Idle {
    } else if Wants(s.threads[t]).Some? {
      NoSelfWait(s, t);
      assert PlaceOk(s, t);
      GrantedGoes(s.threads[t]);
    } else {
      OwnMoveGoes(s, t);
    }
  }

  lemma GrantedGoes(th: Thread)
    requires Wants(th).Some? && (th.pc.DoneWant? ==> !th.inDone)
    ensures Distance(Granted(th)) < Distance(th)
  {
  }

  lemma OwnMoveGoes(s: State, t: Tid)
    requires t in s.threads && s.threads[t].pc != Idle && Wants(s.threads[t]).None?
    ensures Enabled(s, t, OwnMove(s.threads[t]))
    ensures var r := Apply(s, t, OwnMove(s.threads[t]));
            t in r.threads && Distance(r.threads[t]) < Distance(s.threads[t])
  {
  }

  /** Left to itself, a thread ends what it is in, within five steps, and then holds no lock. */
  lemma {:induction false} OperationEnds(s: State, t: Tid) returns (steps: seq<(Tid, Step)>)
    requires Inv(s) && t in s.threads
    requires forall u <- s.threads :: u != t ==> Holds(s.threads[u]) == {}
    ensures ValidRun(s, steps) && |steps| <= Distance(s.threads[t]) <= 5
    ensures var r := RunFrom(s, steps).threads;
            t in r && !Busy(r[t]) && Holds(r[t]) == {}
    decreases Distance(s.threads[t])
  {
    if !Busy(s.threads[t]) {
      steps := [];
    } else {
      var step := NextStep(s.threads[t]);
      NextStepGoes(s, t);
      StepInv(s, t, step);
      OthersAfter(s, t, step);
      var rest := OperationEnds(Apply(s, t, step), t);
      steps := [(t, step)] + rest;
      assert steps[1..] == rest;
    }
  }

  // ------------------------------------------------ Runs

  ghost predicate ValidRun(s: State, steps: seq<(Tid, Step)>)
    decreases |steps|
  {
    |steps| == 0
    || (Enabled(s, steps[0].0, steps[0].1) && ValidRun(Apply(s, steps[0].0, steps[0].1), steps[1..]))
  }

  ghost function RunFrom(s: State, steps: seq<(Tid, Step)>): State
    requires ValidRun(s, steps)
    decreases |steps|
  {
    if |steps| == 0 then s else RunFrom(Apply(s, steps[0].0, steps[0].1), steps[1..])
  }

  /** Waiting never closes a cycle, and somebody inside an operation can always go on. */
  ghost predicate Unstuck(s: State) {
    && (forall ts :: WaitChain(s, ts) && |ts| >= 2 ==> ts[0] != ts[|ts| - 1])
    && (forall t <- s.threads :: s.threads[t].pc != Idle ==> SomeoneGoesOn(s))
  }

  ghost predicate SomeoneGoesOn(s: State) {
    exists r, step :: Enabled(s, r, step) && !step.Access? && (s.threads[r].pc != Idle || step == LeaveDone)
  }

  /** Every state of every run is free of deadlock. */
  lemma {:induction false} DeadlockFree(s: State, steps: seq<(Tid, Step)>)
    requires Inv(s) && ValidRun(s, steps)
    ensures Unstuck(RunFrom(s, steps))
    decreases |steps|
  {
    if |steps| == 0 {
      forall ts | WaitChain(s, ts) && |ts| >= 2
        ensures ts[0] != ts[|ts| - 1]
      {
        NoWaitCycle(s, ts);
      }
      if t :| t in s.threads && s.threads[t].pc != Idle {
        var r, step := FindRunnable(s, t);
      }
    } else {
      StepInv(s, steps[0].0, steps[0].1);
      DeadlockFree(Apply(s, steps[0].0, steps[0].1), steps[1..]);
    }
  }

  // ------------------------------------------------------------------ Atomic regions

  /** Between taking and releasing the lock, the thread reads or changes what the lock guards. */
  predicate Inside(th: Thread, l: Lock) {
    match l
    case CreatedCache(p) =>
      th.proc == p && (th.pc.Scan? || th.pc.ScanWantBlock? || th.pc.ScanHasBlock? || th.pc.DropHasBoth?
                       || th.pc.ClearHas? || th.pc.ClearWantRaw? || th.pc.ClearHasRaw?)
    case LoadedCache(p) =>
      th.proc == p && (th.pc.LoadHasCache? || th.pc.UnloadHasBoth? || th.pc.UnloadWantRaw? || th.pc.UnloadHasRaw?
                       || th.pc.ForgetHas? || th.pc.ForgetWantRaw? || th.pc.ForgetHasRaw?)
    case InTransit(p) => th.proc == p && th.inDone
    case BlockMutex(h) =>
      || th.pc == ScanHasBlock(h) || th.pc == DropWantCache(h) || th.pc == DropHasBoth(h) || th.pc == LoadHasBlock(h)
      || th.pc == UnloadWantCache(h) || th.pc == UnloadHasBoth(h) || th.pc == UnloadWantRaw(h)
      || th.pc == UnloadHasRaw(h)
    case RawMutex(h) =>
      || th.pc == LoadHasRaw(h) || th.pc == UnloadHasRaw(h) || th.pc == ClearHasRaw(h)
      || th.pc == ForgetHasRaw(h) || th.pc == UnmapHasRaw(h)
  }

  lemma {:induction false} RunInv(s: State, steps: seq<(Tid, Step)>)
    requires Inv(s) && ValidRun(s, steps)
    ensures Inv(RunFrom(s, steps))
    decreases |steps|
  {
    if |steps| > 0 {
      StepInv(s, steps[0].0, steps[0].1);
      RunInv(Apply(s, steps[0].0, steps[0].1), steps[1..]);
    }
  }

  /** In every run two threads are never inside regions of the same lock. */
  lemma RegionsAtomic(s: State, steps: seq<(Tid, Step)>, t: Tid, u: Tid, l: Lock)
    requires Initial(s) && ValidRun(s, steps)
    ensures var r := RunFrom(s, steps).threads;
            t in r && u in r && Inside(r[t], l) && Inside(r[u], l) ==> t == u
  {
    InitInv(s);
    RunInv(s, steps);
    var r := RunFrom(s, steps).threads;
    if t in r && u in r && Inside(r[t], l) && Inside(r[u], l) {
      InsideHolds(r[t], l);
      InsideHolds(r[u], l);
    }
  }

  lemma InsideHolds(th: Thread, l: Lock)
    requires Inside(th, l)
    ensures l in Holds(th)
  {
  }
}

/**
  Regions of the allocator's mutexes as single steps: taking a lock can be put off, and what follows
  until the locks are released can be brought forward, past the steps of other threads.
 */
module ShmReduction {
  import opened ShmLocks

  /** Taking a lock, using what held locks guard, looking at the next block of a cache, and releasing nothing. */
  predicate MovesRight(th: Thread, step: Step) {
    step.Acquire? || step.Access? || step.Pick?
      || (step.Move? && PcMove(th, step.to) && Holds(th.(pc := step.to)) == Holds(th))
  }

  /** What a thread does without taking another lock, up to releasing the ones it has. */
  predicate MovesLeft(step: Step) {
    step.Move? || step.LeaveDone? || step.Access? || step.Take? || step.Insert? || step.Clear?
  }

  lemma GrantedHolds(th: Thread)
    requires Wants(th).Some?
    ensures Holds(th) + {Wants(th).value} == Holds(Granted(th))
  {
  }

  /** The lock that u takes is not one that t wants, has or gets. */
  lemma OtherLock(s: State, t: Tid, u: Tid)
    requires t != u && t in s.threads && Enabled(s, u, Acquire)
    ensures Wants(s.threads[u]).value !in Holds(s.threads[t])
  {
  }

  lemma SwapThreads(ts: map<Tid, Thread>, t: Tid, x: Thread, u: Tid, y: Thread)
    requires t != u
    ensures ts[t := x][u := y] == ts[u := y][t := x]
  {
  }

  /** A step that is not an acquisition depends on the thread itself, on where blocks are and on the guarded data. */
  lemma EnabledFrame(s: State, s': State, u: Tid, step: Step)
    requires Enabled(s, u, step) && !step.Acquire? && u in s'.threads && s'.threads[u] == s.threads[u]
    requires s'.place == s.place && s'.data == s.data
    ensures Enabled(s', u, step)
  {
  }

  lemma AcquireEnabled(s: State, s': State, u: Tid)
    requires Enabled(s, u, Acquire) && s'.threads.Keys == s.threads.Keys && s'.threads[u] == s.threads[u]
    requires forall v <- s'.threads :: Wants(s.threads[u]).value in Holds(s'.threads[v]) ==>
               Wants(s.threads[u]).value in Holds(s.threads[v])
    ensures Enabled(s', u, Acquire)
  {
  }

  lemma AcquirePastEnabled(s: State, t: Tid, u: Tid, step: Step)
    requires t != u && Enabled(s, t, Acquire) && Enabled(Apply(s, t, Acquire), u, step)
    ensures Enabled(s, u, step) && Enabled(Apply(s, u, step), t, Acquire)
  {
    var s1 := Apply(s, t, Acquire);
    GrantedHolds(s.threads[t]);
    if step.Acquire? {
      AcquireEnabled(s1, s, u);
      OtherLock(s1, t, u);
    } else {
      EnabledFrame(s1, s, u, step);
    }
    HoldsAfter(s, u, step);
    OthersAfter(s, u, step);
    AcquireEnabled(s, Apply(s, u, step), t);
  }

  /** The new state of the thread that moves depends on nothing but the thread. */
  lemma SameMove(s: State, s': State, u: Tid, step: Step)
    requires Enabled(s, u, step) && Enabled(s', u, step) && s.threads[u] == s'.threads[u]
    ensures Apply(s, u, step).threads[u] == Apply(s', u, step).threads[u]
    ensures s.place == s'.place ==> Apply(s, u, step).place == Apply(s', u, step).place
    ensures s.data == s'.data ==> Apply(s, u, step).data == Apply(s', u, step).data
  {
  }

  lemma AcquirePast(s: State, t: Tid, u: Tid, step: Step)
    requires t != u && Enabled(s, t, Acquire) && Enabled(Apply(s, t, Acquire), u, step)
    ensures Enabled(s, u, step) && Enabled(Apply(s, u, step), t, Acquire)
    ensures Apply(Apply(s, u, step), t, Acquire) == Apply(Apply(s, t, Acquire), u, step)
  {
    AcquirePastEnabled(s, t, u, step);
    var s1, s2 := Apply(s, t, Acquire), Apply(s, u, step);
    SameMove(s1, s, u, step);
    SwapThreads(s.threads, t, s1.threads[t], u, s2.threads[u]);
  }

  /** A move of t that releases nothing may come after a step of u. */
  lemma QuietMovePast(s: State, t: Tid, to: Pc, u: Tid, step: Step)
    requires t != u && Enabled(s, t, Move(to)) && MovesRight(s.threads[t], Move(to))
    requires Enabled(Apply(s, t, Move(to)), u, step)
    ensures Enabled(s, u, step) && Enabled(Apply(s, u, step), t, Move(to))
    ensures Apply(Apply(s, u, step), t, Move(to)) == Apply(Apply(s, t, Move(to)), u, step)
  {
    var s1 := Apply(s, t, Move(to));
    if step.Acquire? {
      AcquireEnabled(s1, s, u);
    } else {
      EnabledFrame(s1, s, u, step);
    }
    var s2 := Apply(s, u, step);
    OthersAfter(s, u, step);
    SameMove(s1, s, u, step);
    SwapThreads(s.threads, t, s1.threads[t], u, s2.threads[u]);
  }

  /** No other thread changes where a block is while t holds the cache that the block is in. */
  lemma CachedStays(s: State, t: Tid, u: Tid, step: Step, h: Handle)
    requires Inv(s) && t != u && t in s.threads && Enabled(s, u, step)
    requires CreatedCache(s.threads[t].proc) in Holds(s.threads[t])
    requires h in s.place && s.place[h] == Cached(s.threads[t].proc)
    ensures h in Apply(s, u, step).place && Apply(s, u, step).place[h] == s.place[h]
  {
    assert PlaceOk(s, u);
    if step.Take? || step.Clear? || step.Insert? {
      assert CreatedCache(s.threads[u].proc) in Holds(s.threads[u]);
    }
  }

  lemma PickPast(s: State, t: Tid, h: Handle, u: Tid, step: Step)
    requires Inv(s) && t != u && Enabled(s, t, Pick(h)) && Enabled(Apply(s, t, Pick(h)), u, step)
    ensures Enabled(s, u, step) && Enabled(Apply(s, u, step), t, Pick(h))
    ensures Apply(Apply(s, u, step), t, Pick(h)) == Apply(Apply(s, t, Pick(h)), u, step)
  {
    var s1 := Apply(s, t, Pick(h));
    assert Holds(s1.threads[t]) == Holds(s.threads[t]);
    if step.Acquire? {
      AcquireEnabled(s1, s, u);
    } else {
      EnabledFrame(s1, s, u, step);
    }
    var s2 := Apply(s, u, step);
    OthersAfter(s, u, step);
    CachedStays(s, t, u, step, h);
    SameMove(s1, s, u, step);
    SwapThreads(s.threads, t, s1.threads[t], u, s2.threads[u]);
  }

  // ------------------------------------------------------------------ Guarded data

  /** Two threads hold different locks, so what one of them does with guarded data is nothing to the other. */
  lemma AccessCommutes(s: State, t: Tid, b: Step, u: Tid, step: Step)
    requires Exclusive(s) && t != u && b.Access? && Enabled(s, t, b) && Enabled(s, u, step)
    ensures Enabled(Apply(s, t, b), u, step) && Enabled(Apply(s, u, step), t, b)
    ensures Apply(Apply(s, u, step), t, b) == Apply(Apply(s, t, b), u, step)
  {
    if step.Access? {
      TwoAccesses(s, t, b, u, step);
    } else {
      AccessThenOther(s, t, b, u, step);
    }
  }

  lemma TwoAccesses(s: State, t: Tid, b: Step, u: Tid, step: Step)
    requires Exclusive(s) && t != u && b.Access? && step.Access? && Enabled(s, t, b) && Enabled(s, u, step)
    ensures Enabled(Apply(s, t, b), u, step) && Enabled(Apply(s, u, step), t, b)
    ensures Apply(Apply(s, u, step), t, b) == Apply(Apply(s, t, b), u, step)
  {
    assert Holds(s.threads[t]) !! Holds(s.threads[u]);
    assert s.data + b.written + step.written == s.data + step.written + b.written;
  }

  lemma AccessThenOther(s: State, t: Tid, b: Step, u: Tid, step: Step)
    requires t != u && b.Access? && !step.Access? && Enabled(s, t, b) && Enabled(s, u, step)
    ensures Enabled(Apply(s, t, b), u, step) && Enabled(Apply(s, u, step), t, b)
    ensures Apply(Apply(s, u, step), t, b) == Apply(Apply(s, t, b), u, step)
  {
    OthersAfter(s, u, step);
  }

  lemma OtherAccess(s: State, t: Tid, b: Step, u: Tid, step: Step)
    requires Exclusive(s) && t != u && t in s.threads && u in s.threads && b.Access?
    requires b.written.Keys <= Holds(s.threads[t])
    requires Enabled(s.(data := s.data + b.written), u, step)
    ensures Enabled(s, u, step)
  {
    assert Holds(s.threads[t]) !! Holds(s.threads[u]);
    if step.Access? {
      var s1 := s.(data := s.data + b.written);
      forall l | l in step.found
        ensures DataAt(s, l) == step.found[l]
      {
        assert DataAt(s1, l) == step.found[l];
      }
    }
  }

  lemma AccessRightPast(s: State, t: Tid, a: Step, u: Tid, step: Step)
    requires Inv(s) && t != u && a.Access? && Enabled(s, t, a) && Enabled(Apply(s, t, a), u, step)
    ensures Enabled(s, u, step) && Enabled(Apply(s, u, step), t, a)
    ensures Apply(Apply(s, u, step), t, a) == Apply(Apply(s, t, a), u, step)
  {
    OtherAccess(s, t, a, u, step);
    AccessCommutes(s, t, a, u, step);
  }

  lemma AccessLeftEnabled(s: State, t: Tid, b: Step, u: Tid, step: Step)
    requires Inv(s) && t != u && b.Access? && t in s.threads && Enabled(s, u, step) && Enabled(Apply(s, u, step), t, b)
    ensures Enabled(s, t, b)
  {
    OthersAfter(s, u, step);
    if step.Access? {
      OtherAccess(s, u, step, t, b);
    }
  }

  lemma RightPast(s: State, t: Tid, a: Step, u: Tid, step: Step)
    requires Inv(s) && t != u && Enabled(s, t, a) && MovesRight(s.threads[t], a) && Enabled(Apply(s, t, a), u, step)
    ensures Enabled(s, u, step) && Enabled(Apply(s, u, step), t, a)
    ensures Apply(Apply(s, u, step), t, a) == Apply(Apply(s, t, a), u, step)
    ensures Apply(s, u, step).threads[t] == s.threads[t]
  {
    match a {
      case Acquire => AcquirePast(s, t, u, step);
      case Access(_, _) => AccessRightPast(s, t, a, u, step);
      case Pick(h) => PickPast(s, t, h, u, step);
      case Move(to) => QuietMovePast(s, t, to, u, step);
    }
    OthersAfter(s, u, step);
  }

  function Touches(step: Step): set<Handle> {
    match step
    case NewBlock(h) => {h}
    case StartDrop(h) => {h}
    case Pick(h) => {h}
    case Take(h) => {h}
    case Insert(h) => {h}
    case Clear(h, _) => {h}
    case _ => {}
  }

  lemma MoveFrame(s: State, s': State, t: Tid, b: Step)
    requires Enabled(s, t, b) && (b.Move? || b.LeaveDone?) && t in s'.threads && s'.threads[t] == s.threads[t]
    ensures Enabled(s', t, b)
  {
  }

  /** A thread that changes where block h is has it to itself. */
  lemma OwnBlock(s: State, t: Tid, b: Step, u: Tid, step: Step)
    requires Inv(s) && t != u && Enabled(s, t, b) && Enabled(s, u, step)
    requires b.Take? || b.Insert? || b.Clear?
    ensures b.h in s.place && b.h !in Touches(step)
  {
    assert PlaceOk(s, t) && PlaceOk(s, u);
    assert CreatedCache(s.threads[t].proc) in Holds(s.threads[t]);
    if step.Pick? || step.Take? || step.Clear? {
      assert CreatedCache(s.threads[u].proc) in Holds(s.threads[u]);
    }
  }

  /** A block that is in the cache of t after a step of u was there before. */
  lemma ClearedWasCached(s: State, t: Tid, h: Handle, last: bool, u: Tid, step: Step)
    requires Inv(s) && t != u && t in s.threads && Enabled(s, u, step) && Enabled(Apply(s, u, step), t, Clear(h, last))
    ensures Enabled(s, t, Clear(h, last))
  {
    OthersAfter(s, u, step);
    if step.Insert? {
      assert CreatedCache(s.threads[t].proc) in Holds(s.threads[t]);
      assert CreatedCache(s.threads[u].proc) in Holds(s.threads[u]);
    } else {
      NotCachedBy(s, u, step, h, s.threads[t].proc);
    }
  }

  /** Only an insertion puts a block into a cache. */
  lemma NotCachedBy(s: State, u: Tid, step: Step, h: Handle, p: Proc)
    requires Enabled(s, u, step) && !step.Insert?
    requires h in Apply(s, u, step).place && Apply(s, u, step).place[h] == Cached(p)
    ensures h in s.place && s.place[h] == Cached(p)
  {
  }

  /** A step that neither acquires nor touches h does not notice that h has moved. */
  lemma PlaceFrame(s: State, s': State, u: Tid, step: Step, h: Handle)
    requires Enabled(s, u, step) && !step.Acquire? && h !in Touches(step) && h in s.place
    requires u in s'.threads && s'.threads[u] == s.threads[u] && s'.data == s.data
    requires h in s'.place && s'.place == s.place[h := s'.place[h]]
    ensures Enabled(s', u, step)
    ensures Apply(s', u, step).threads[u] == Apply(s, u, step).threads[u]
    ensures Apply(s', u, step).place == Apply(s, u, step).place[h := s'.place[h]]
    ensures Apply(s', u, step).data == Apply(s, u, step).data
  {
  }

  lemma LeftEnabled(s: State, t: Tid, b: Step, u: Tid, step: Step)
    requires Inv(s) && t != u && MovesLeft(b) && t in s.threads
    requires Enabled(s, u, step) && Enabled(Apply(s, u, step), t, b)
    ensures Enabled(s, t, b)
  {
    OthersAfter(s, u, step);
    if b.Clear? {
      ClearedWasCached(s, t, b.h, b.last, u, step);
    } else if b.Access? {
      AccessLeftEnabled(s, t, b, u, step);
    } else if b.Move? || b.LeaveDone? {
      MoveFrame(Apply(s, u, step), s, t, b);
    }
  }

  lemma LeftThenAcquire(s: State, t: Tid, b: Step, u: Tid)
    requires t != u && MovesLeft(b) && Enabled(s, t, b) && Enabled(s, u, Acquire)
    ensures Enabled(Apply(s, t, b), u, Acquire)
  {
    HoldsAfter(s, t, b);
    OthersAfter(s, t, b);
    AcquireEnabled(s, Apply(s, t, b), u);
  }

  lemma LeftPast(s: State, t: Tid, b: Step, u: Tid, step: Step)
    requires Inv(s) && t != u && MovesLeft(b) && t in s.threads
    requires Enabled(s, u, step) && Enabled(Apply(s, u, step), t, b)
    ensures Enabled(s, t, b) && Enabled(Apply(s, t, b), u, step)
    ensures Apply(Apply(s, t, b), u, step) == Apply(Apply(s, u, step), t, b)
  {
    LeftEnabled(s, t, b, u, step);
    OthersAfter(s, u, step);
    OthersAfter(s, t, b);
    if b.Access? {
      AccessCommutes(s, t, b, u, step);
    } else if step.Acquire? {
      LeftThenAcquire(s, t, b, u);
      LeftPastAcquire(s, t, b, u);
    } else if b.Move? || b.LeaveDone? {
      EnabledFrame(s, Apply(s, t, b), u, step);
      MovePast(s, t, b, u, step);
    } else {
      OwnBlock(s, t, b, u, step);
      PlaceStepPast(s, t, b, u, step);
    }
  }

  lemma LeftPastAcquire(s: State, t: Tid, b: Step, u: Tid)
    requires t != u && MovesLeft(b) && Enabled(s, t, b) && Enabled(s, u, Acquire)
    requires Enabled(Apply(s, t, b), u, Acquire) && Enabled(Apply(s, u, Acquire), t, b)
    ensures Apply(Apply(s, t, b), u, Acquire) == Apply(Apply(s, u, Acquire), t, b)
  {
    var s1, s2 := Apply(s, t, b), Apply(s, u, Acquire);
    OthersAfter(s, t, b);
    OthersAfter(s, u, Acquire);
    SameMove(s, s1, u, Acquire);
    SameMove(s, s2, t, b);
    SwapThreads(s.threads, t, s1.threads[t], u, s2.threads[u]);
  }

  lemma MovePast(s: State, t: Tid, b: Step, u: Tid, step: Step)
    requires t != u && (b.Move? || b.LeaveDone?) && Enabled(s, t, b) && Enabled(s, u, step) && !step.Acquire?
    requires Enabled(Apply(s, t, b), u, step) && Enabled(Apply(s, u, step), t, b)
    ensures Apply(Apply(s, t, b), u, step) == Apply(Apply(s, u, step), t, b)
  {
    var s1, s2 := Apply(s, t, b), Apply(s, u, step);
    OthersAfter(s, t, b);
    OthersAfter(s, u, step);
    SameMove(s, s1, u, step);
    SameMove(s, s2, t, b);
    SwapThreads(s.threads, t, s1.threads[t], u, s2.threads[u]);
  }

  lemma PlaceStepPast(s: State, t: Tid, b: Step, u: Tid, step: Step)
    requires t != u && (b.Take? || b.Insert? || b.Clear?) && !step.Acquire?
    requires Enabled(s, t, b) && Enabled(s, u, step) && Enabled(Apply(s, u, step), t, b)
    requires b.h in s.place && b.h !in Touches(step)
    ensures Enabled(Apply(s, t, b), u, step)
    ensures Apply(Apply(s, t, b), u, step) == Apply(Apply(s, u, step), t, b)
  {
    var s1, s2 := Apply(s, t, b), Apply(s, u, step);
    OthersAfter(s, t, b);
    OthersAfter(s, u, step);
    PlaceFrame(s, s1, u, step, b.h);
    SwapThreads(s.threads, t, s1.threads[t], u, s2.threads[u]);
    assert Apply(s2, t, b).threads[t] == s1.threads[t];
    assert Apply(s2, t, b).place == s2.place[b.h := s1.place[b.h]];
  }

  // ------------------------------------------------------------- Regions in whole runs

  predicate ByOthers(t: Tid, steps: seq<(Tid, Step)>) {
    forall i | 0 <= i < |steps| :: steps[i].0 != t
  }

  lemma {:induction false} RunConcat(s: State, a: seq<(Tid, Step)>, b: seq<(Tid, Step)>)
    requires ValidRun(s, a)
    ensures ValidRun(s, a + b) <==> ValidRun(RunFrom(s, a), b)
    ensures ValidRun(s, a + b) ==> RunFrom(s, a + b) == RunFrom(RunFrom(s, a), b)
    decreases |a|
  {
    if a == [] {
      assert a + b == b;
    } else {
      assert (a + b)[0] == a[0] && (a + b)[1..] == a[1..] + b;
      RunConcat(Apply(s, a[0].0, a[0].1), a[1..], b);
    }
  }

  lemma RunCons(s: State, t: Tid, a: Step, b: seq<(Tid, Step)>)
    ensures ValidRun(s, [(t, a)] + b) <==> Enabled(s, t, a) && ValidRun(Apply(s, t, a), b)
    ensures ValidRun(s, [(t, a)] + b) ==> RunFrom(s, [(t, a)] + b) == RunFrom(Apply(s, t, a), b)
  {
    assert ([(t, a)] + b)[1..] == b;
  }

  /** A step that moves right may be taken after any steps of other threads that followed it. */
  lemma {:induction false} MoveRight(s: State, t: Tid, a: Step, us: seq<(Tid, Step)>)
    requires Inv(s) && Enabled(s, t, a) && MovesRight(s.threads[t], a) && ByOthers(t, us)
    requires ValidRun(Apply(s, t, a), us)
    ensures ValidRun(s, us) && Enabled(RunFrom(s, us), t, a)
    ensures Apply(RunFrom(s, us), t, a) == RunFrom(Apply(s, t, a), us)
    decreases |us|
  {
    if us != [] {
      var (u, step) := us[0];
      RightPast(s, t, a, u, step);
      StepInv(s, u, step);
      MoveRight(Apply(s, u, step), t, a, us[1..]);
    }
  }

  /** A step that moves left may be taken before any steps of other threads that preceded it. */
  lemma {:induction false} MoveLeft(s: State, t: Tid, b: Step, us: seq<(Tid, Step)>)
    requires Inv(s) && t in s.threads && MovesLeft(b) && ByOthers(t, us) && ValidRun(s, us)
    requires Enabled(RunFrom(s, us), t, b)
    ensures Enabled(s, t, b) && ValidRun(Apply(s, t, b), us)
    ensures RunFrom(Apply(s, t, b), us) == Apply(RunFrom(s, us), t, b)
    decreases |us|
  {
    if us != [] {
      var (u, step) := us[0];
      var s1 := Apply(s, u, step);
      OthersAfter(s, u, step);
      StepInv(s, u, step);
      MoveLeft(s1, t, b, us[1..]);
      LeftPast(s, t, b, u, step);
    }
  }

  /** A step of one thread, and what other threads do before its next one. */
  datatype Part = Part(step: Step, others: seq<(Tid, Step)>)

  /** The run that the parts make. */
  function Woven(t: Tid, parts: seq<Part>): seq<(Tid, Step)> {
    if parts == [] then [] else [(t, parts[0].step)] + (parts[0].others + Woven(t, parts[1..]))
  }

  function OwnSteps(t: Tid, parts: seq<Part>): seq<(Tid, Step)> {
    if parts == [] then [] else [(t, parts[0].step)] + OwnSteps(t, parts[1..])
  }

  function OtherSteps(parts: seq<Part>): seq<(Tid, Step)> {
    if parts == [] then [] else parts[0].others + OtherSteps(parts[1..])
  }

  predicate OthersOnly(t: Tid, parts: seq<Part>) {
    forall part <- parts :: ByOthers(t, part.others)
  }

  predicate AllLeft(parts: seq<Part>) {
    forall part <- parts :: MovesLeft(part.step)
  }

  /** Each step moves right where it is taken. */
  ghost predicate AllRight(s: State, t: Tid, parts: seq<Part>)
    requires ValidRun(s, Woven(t, parts))
    decreases |parts|
  {
    parts == [] ||
    (PartRun(s, t, parts);
     MovesRight(s.threads[t], parts[0].step)
     && AllRight(RunFrom(Apply(s, t, parts[0].step), parts[0].others), t, parts[1..]))
  }

  lemma PartRun(s: State, t: Tid, parts: seq<Part>)
    requires parts != []
    ensures var (a, us) := (parts[0].step, parts[0].others);
            ValidRun(s, Woven(t, parts)) <==>
              && Enabled(s, t, a) && ValidRun(Apply(s, t, a), us)
              && ValidRun(RunFrom(Apply(s, t, a), us), Woven(t, parts[1..]))
    ensures var (a, us) := (parts[0].step, parts[0].others);
            ValidRun(s, Woven(t, parts)) ==>
              RunFrom(s, Woven(t, parts)) == RunFrom(RunFrom(Apply(s, t, a), us), Woven(t, parts[1..]))
  {
    var (a, us) := (parts[0].step, parts[0].others);
    RunCons(s, t, a, us + Woven(t, parts[1..]));
    if Enabled(s, t, a) {
      if ValidRun(Apply(s, t, a), us) {
        RunConcat(Apply(s, t, a), us, Woven(t, parts[1..]));
      } else {
        PrefixValid(Apply(s, t, a), us, Woven(t, parts[1..]));
      }
    }
  }

  lemma {:induction false} PrefixValid(s: State, a: seq<(Tid, Step)>, b: seq<(Tid, Step)>)
    ensures ValidRun(s, a + b) ==> ValidRun(s, a)
    decreases |a|
  {
    if a != [] && Enabled(s, a[0].0, a[0].1) {
      assert (a + b)[0] == a[0] && (a + b)[1..] == a[1..] + b;
      PrefixValid(Apply(s, a[0].0, a[0].1), a[1..], b);
    }
  }

  lemma {:induction false} MoveAllLeft(s: State, t: Tid, us: seq<(Tid, Step)>, parts: seq<Part>)
    requires Inv(s) && t in s.threads && AllLeft(parts) && ByOthers(t, us)
    requires ValidRun(s, us) && ValidRun(RunFrom(s, us), OwnSteps(t, parts))
    ensures ValidRun(s, OwnSteps(t, parts)) && ValidRun(RunFrom(s, OwnSteps(t, parts)), us)
    ensures RunFrom(RunFrom(s, OwnSteps(t, parts)), us) == RunFrom(RunFrom(s, us), OwnSteps(t, parts))
    decreases |parts|
  {
    if parts != [] {
      var b := parts[0].step;
      RunCons(RunFrom(s, us), t, b, OwnSteps(t, parts[1..]));
      MoveLeft(s, t, b, us);
      OthersAfter(s, t, b);
      StepInv(s, t, b);
      MoveAllLeft(Apply(s, t, b), t, us, parts[1..]);
      RunCons(s, t, b, OwnSteps(t, parts[1..]));
    }
  }

  lemma {:induction false} ReduceLeft(s: State, t: Tid, parts: seq<Part>)
    requires Inv(s) && t in s.threads && AllLeft(parts) && OthersOnly(t, parts) && ValidRun(s, Woven(t, parts))
    ensures ValidRun(s, OwnSteps(t, parts)) && ValidRun(RunFrom(s, OwnSteps(t, parts)), OtherSteps(parts))
    ensures RunFrom(RunFrom(s, OwnSteps(t, parts)), OtherSteps(parts)) == RunFrom(s, Woven(t, parts))
    decreases |parts|
  {
    if parts != [] {
      var b, us, rest := parts[0].step, parts[0].others, parts[1..];
      PartRun(s, t, parts);
      var s1 := Apply(s, t, b);
      var s2 := RunFrom(s1, us);
      StepInv(s, t, b);
      OthersAfter(s, t, b);
      RunInv(s1, us);
      ThreadsKept(s1, us);
      ReduceLeft(s2, t, rest);
      MoveAllLeft(s1, t, us, rest);
      RunCons(s, t, b, OwnSteps(t, rest));
      RunConcat(RunFrom(s1, OwnSteps(t, rest)), us, OtherSteps(rest));
    }
  }

  lemma {:induction false} ThreadsKept(s: State, us: seq<(Tid, Step)>)
    requires ValidRun(s, us)
    ensures RunFrom(s, us).threads.Keys == s.threads.Keys
    decreases |us|
  {
    if us != [] {
      OthersAfter(s, us[0].0, us[0].1);
      ThreadsKept(Apply(s, us[0].0, us[0].1), us[1..]);
    }
  }

  lemma {:induction false} ReduceRight(s: State, t: Tid, parts: seq<Part>)
    requires Inv(s) && OthersOnly(t, parts) && ValidRun(s, Woven(t, parts)) && AllRight(s, t, parts)
    ensures ValidRun(s, OtherSteps(parts)) && ValidRun(RunFrom(s, OtherSteps(parts)), OwnSteps(t, parts))
    ensures RunFrom(RunFrom(s, OtherSteps(parts)), OwnSteps(t, parts)) == RunFrom(s, Woven(t, parts))
    decreases |parts|
  {
    if parts != [] {
      var a, us, rest := parts[0].step, parts[0].others, parts[1..];
      PartRun(s, t, parts);
      var s1 := Apply(s, t, a);
      StepInv(s, t, a);
      RunInv(s1, us);
      ReduceRight(RunFrom(s1, us), t, rest);
      RunConcat(s1, us, OtherSteps(rest));
      OthersConcat(t, us, rest);
      MoveRight(s, t, a, us + OtherSteps(rest));
      RunCons(RunFrom(s, OtherSteps(parts)), t, a, OwnSteps(t, rest));
    }
  }

  lemma {:induction false} OthersConcat(t: Tid, us: seq<(Tid, Step)>, parts: seq<Part>)
    requires ByOthers(t, us) && OthersOnly(t, parts)
    ensures ByOthers(t, us + OtherSteps(parts))
    decreases |parts|
  {
    if parts != [] {
      OthersConcat(t, parts[0].others, parts[1..]);
    }
  }

  /**
    A region that first takes locks and then works and releases them may as well run without
    interruption: what other threads do meanwhile can come before it or after it, with the same end.
   */
  lemma RegionReduces(s: State, t: Tid, rights: seq<Part>, lefts: seq<Part>)
    requires Inv(s) && t in s.threads && OthersOnly(t, rights) && OthersOnly(t, lefts) && AllLeft(lefts)
    requires ValidRun(s, Woven(t, rights)) && AllRight(s, t, rights)
    requires ValidRun(RunFrom(s, Woven(t, rights)), Woven(t, lefts))
    ensures var before, after := OtherSteps(rights), OtherSteps(lefts);
            var region := OwnSteps(t, rights) + OwnSteps(t, lefts);
            && ValidRun(s, before) && ValidRun(RunFrom(s, before), region)
            && ValidRun(RunFrom(RunFrom(s, before), region), after)
            && RunFrom(RunFrom(RunFrom(s, before), region), after)
               == RunFrom(RunFrom(s, Woven(t, rights)), Woven(t, lefts))
  {
    ReduceRight(s, t, rights);
    RunInv(s, Woven(t, rights));
    ThreadsKept(s, Woven(t, rights));
    ReduceLeft(RunFrom(s, Woven(t, rights)), t, lefts);
    RunConcat(RunFrom(s, OtherSteps(rights)), OwnSteps(t, rights), OwnSteps(t, lefts));
  }
}

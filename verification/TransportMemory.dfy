/** What is in the blocks that an unreleased message guards: recycling and other holders do not reach it. */
module TransportMemory {
  import Shm = ShmModel
  import opened ShmTheorems
  import opened Transport
  import opened TransportTheorems
  import Serialization

  /** The data of a block. */
  function BytesAt(s: State, h: Shm.Handle): Serialization.Bytes {
    if h in s.memory then s.memory[h] else []
  }

  /** User code may write to any block that it holds, and what it has written is what is there. */
  lemma WriteArrives(s: State, q: Shm.PtrId, bytes: Serialization.Bytes)
    requires q in s.app && q in s.shm.ptrs
    ensures Enabled(s, WriteStep(q, bytes))
    ensures var t := Apply(s, WriteStep(q, bytes));
            && BytesAt(t, s.shm.ptrs[q].id.handle) == bytes
            && (forall h :: h != s.shm.ptrs[q].id.handle ==> BytesAt(t, h) == BytesAt(s, h))
            && t.shm == s.shm && t.app == s.app && t.main == s.main && t.worker == s.worker
  {
  }

  /** In this run nobody writes through a pointer that was obtained under this id. */
  ghost predicate Unwritten(s: State, steps: seq<Step>, b: Shm.BlockId)
    requires Valid(s, steps)
    decreases |steps|
  {
    |steps| == 0
    || ((steps[0].WriteStep? ==> s.shm.ptrs[steps[0].ptr].id != b) && Unwritten(Apply(s, steps[0]), steps[1..], b))
  }

  /** While an id is live, all holders of its block hold it under this id, so nobody else writes to it. */
  lemma OthersWriteElsewhere(s: State, step: Step, b: Shm.BlockId)
    requires Shm.PtrsOk(s.shm) && Enabled(s, step) && IdLive(s.shm, b)
    requires step.WriteStep? ==> s.shm.ptrs[step.ptr].id != b
    ensures BytesAt(Apply(s, step), b.handle) == BytesAt(s, b.handle)
  {
    if step.WriteStep? {
      var q :| q in s.shm.ptrs && s.shm.ptrs[q].id == b;
      assert Shm.PtrOk(s.shm, q) && Shm.PtrOk(s.shm, step.ptr);
      assert s.shm.ptrs[step.ptr].id.handle != b.handle;
    }
  }

  // ---------------------------------------------------------------- A message is in flight once

  /** Only its own send brings a message into flight. */
  lemma FlightBefore(s: State, step: Step, e: End, w: Wire)
    requires Enabled(s, step) && w.User? && w.id < At(s, e).nextId
    requires InFlight(At(Apply(s, step), e), At(Apply(s, step), Other(e)), w)
    ensures InFlight(At(s, e), At(s, Other(e)), w)
  {
    match step
    case ReadStep(f) => ReadFlight(At(s, f), At(s, Other(f)), w);
    case PushStep(f, i) => QuietFlight(At(s, f), At(s, Other(f)), i);
    case DeliverStep(f) => QuietFlight(At(s, f), At(s, Other(f)), 0);
    case RecvStep(f) => QuietFlight(At(s, f), At(s, Other(f)), 0);
    case DropStep(f, i) => QuietFlight(At(s, f), At(s, Other(f)), i);
    case _ => AddedFlight(s, step, e, w);
  }

  lemma AddedFlight(s: State, step: Step, e: End, w: Wire)
    requires Enabled(s, step) && w.User? && w.id < At(s, e).nextId
    requires !step.ReadStep? && !step.PushStep? && !step.DeliverStep? && !step.RecvStep? && !step.DropStep?
    requires InFlight(At(Apply(s, step), e), At(Apply(s, step), Other(e)), w)
    ensures InFlight(At(s, e), At(s, Other(e)), w)
  {
  }

  lemma CounterGrows(s: State, step: Step, e: End)
    requires Enabled(s, step)
    ensures At(Apply(s, step), e).nextId >= At(s, e).nextId
  {
  }

  lemma {:induction false} FlightThroughout(s: State, steps: seq<Step>, e: End, w: Wire)
    requires Valid(s, steps) && w.User? && w.id < At(s, e).nextId
    requires InFlight(At(After(s, steps), e), At(After(s, steps), Other(e)), w)
    ensures InFlight(At(s, e), At(s, Other(e)), w)
    decreases |steps|
  {
    if |steps| > 0 {
      CounterGrows(s, steps[0], e);
      FlightThroughout(Apply(s, steps[0]), steps[1..], e, w);
      FlightBefore(s, steps[0], e, w);
    }
  }

  /**
    As long as a message is not released, a block that it guards keeps its data, whatever both processes
    allocate, recycle, free and write meanwhile, unless somebody writes through a pointer to just this block
    that was obtained under just this id.
   */
  lemma {:induction false} GuardedBytesKept(s: State, steps: seq<Step>, e: End, w: Wire, b: Shm.BlockId)
    requires Inv(s) && Valid(s, steps) && w.User? && w.requiresDone && b in w.guarded && w.id < At(s, e).nextId
    requires InFlight(At(After(s, steps), e), At(After(s, steps), Other(e)), w) && Unwritten(s, steps, b)
    ensures BytesAt(After(s, steps), b.handle) == BytesAt(s, b.handle)
    decreases |steps|
  {
    if |steps| > 0 {
      FlightThroughout(s, steps, e, w);
      GuardedIsLive(s, e, w, b);
      OthersWriteElsewhere(s, steps[0], b);
      CounterGrows(s, steps[0], e);
      StepInv(s, steps[0]);
      GuardedBytesKept(Apply(s, steps[0]), steps[1..], e, w, b);
    }
  }
}

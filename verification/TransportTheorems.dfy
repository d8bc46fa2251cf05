/**
  The two queues and the allocator together: an unreleased message always carries
  loadable block ids, nothing is lost or reordered, and a queue that is shutting
  down gets all its acknowledgements.
 */
module TransportTheorems {
  import Shm = ShmModel
  import opened ShmTheorems
  import opened Transport
  import opened TransportInv
  import opened Wrappers

  /** x has sent w and y has not released it: it is queued somewhere or held by user code. */
  predicate InFlight(x: EndState, y: EndState, w: Wire) {
    w in x.sending || w in x.ipc || w in y.blocked || w in y.out || w in y.held
  }

  /** The message that SendStep puts into `sending`. */
  function SentWire(s: State, e: End, tag: nat, kept: Kept): Wire
    requires kept.Some? ==> kept.value <= s.shm.ptrs.Keys
  {
    User(tag, At(s, e).nextId, kept.Some?, IdsOf(s.shm, kept))
  }

  /** Every block id the message guards belongs to a live pointer kept by its transferrables. */
  ghost predicate Guarded(shm: Shm.State, x: EndState, w: Wire) {
    w.User? && w.requiresDone ==>
      && w.id in x.inTransit
      && forall b <- w.guarded :: exists q :: q in x.inTransit[w.id] && q in shm.ptrs && shm.ptrs[q].id == b
  }

  ghost predicate Guards(shm: Shm.State, x: EndState, y: EndState) {
    forall w: Wire :: InFlight(x, y, w) ==> Guarded(shm, x, w)
  }

  ghost predicate TransitLive(shm: Shm.State, x: EndState) {
    forall id <- x.inTransit :: x.inTransit[id] <= shm.ptrs.Keys
  }

  ghost predicate Inv(s: State) {
    && Shm.Inv(s.shm)
    && PairInv(s.main, s.worker) && PairInv(s.worker, s.main)
    && s.app <= s.shm.ptrs.Keys && TransitLive(s.shm, s.main) && TransitLive(s.shm, s.worker)
    && Guards(s.shm, s.main, s.worker) && Guards(s.shm, s.worker, s.main)
  }

  lemma InitInv()
    ensures Inv(INIT)
  {
    Shm.InitInv();
  }

  // ------------------------------------------------------------------- Steps of the ends

  lemma InFlightInTransit(x: EndState, y: EndState, w: Wire)
    requires Conserved(x, y) && InFlight(x, y, w) && w.User? && w.requiresDone
    ensures w.id in x.inTransit
  {
    if w in x.sending { MemberCounted(x.sending, w); }
    if w in x.ipc { MemberCounted(x.ipc, w); }
    if w in y.blocked { MemberCounted(y.blocked, w); }
    if w in y.out { MemberCounted(y.out, w); }
    if w in y.held { MemberCounted(y.held, w); }
    assert Tokens(x, y, w.id) == if w.id in x.inTransit then 1 else 0;
  }

  /** A step that brings no new message into flight and drops only acknowledged entries keeps the guards. */
  lemma GuardsKept(shm: Shm.State, x: EndState, y: EndState, x': EndState, y': EndState)
    requires Guards(shm, x, y) && Conserved(x', y')
    requires forall w: Wire :: InFlight(x', y', w) && w.User? ==> InFlight(x, y, w)
    requires forall id <- x'.inTransit :: id in x.inTransit && x'.inTransit[id] == x.inTransit[id]
    ensures Guards(shm, x', y')
  {
    forall w: Wire | InFlight(x', y', w)
      ensures Guarded(shm, x', w)
    {
      if w.User? && w.requiresDone {
        InFlightInTransit(x', y', w);
        assert Guarded(shm, x, w);
      }
    }
  }

  lemma SendGuards(shm: Shm.State, x: EndState, y: EndState, tag: nat, kept: Kept)
    requires PairInv(x, y) && Guards(shm, x, y) && Guards(shm, y, x) && PairInv(y, x)
    requires kept.Some? ==> kept.value <= shm.ptrs.Keys
    ensures Guards(shm, Send(x, tag, kept, IdsOf(shm, kept)), y)
    ensures Guards(shm, y, Send(x, tag, kept, IdsOf(shm, kept)))
  {
    var x' := Send(x, tag, kept, IdsOf(shm, kept));
    forall w: Wire | InFlight(x', y, w)
      ensures Guarded(shm, x', w)
    {
      if InFlight(x, y, w) {
        assert Guarded(shm, x, w);
      }
    }
    forall w: Wire | InFlight(y, x', w)
      ensures Guarded(shm, y, w)
    {
      assert InFlight(y, x, w);
    }
  }

  lemma RemoveSubset<T>(ws: seq<T>, i: nat)
    requires i < |ws|
    ensures forall w :: w in Remove(ws, i) ==> w in ws
    ensures ws[i] in ws
  {
  }

  /** What an end's own action, other than Send, does to the messages in flight in both directions. */
  lemma QuietFlight(x: EndState, y: EndState, i: nat)
    ensures i < |x.sending| ==> forall w: Wire ::
              (InFlight(Push(x, i), y, w) ==> InFlight(x, y, w)) && (InFlight(y, Push(x, i), w) ==> InFlight(y, x, w))
    ensures |x.blocked| == 1 ==> forall w: Wire ::
              (InFlight(Deliver(x), y, w) ==> InFlight(x, y, w)) && (InFlight(y, Deliver(x), w) ==> InFlight(y, x, w))
    ensures x.out != [] ==> forall w: Wire ::
              (InFlight(Recv(x), y, w) ==> InFlight(x, y, w)) && (InFlight(y, Recv(x), w) ==> InFlight(y, x, w))
    ensures i < |x.held| ==> forall w: Wire :: w.User? ==>
              (InFlight(Drop(x, i), y, w) ==> InFlight(x, y, w)) && (InFlight(y, Drop(x, i), w) ==> InFlight(y, x, w))
  {
    if i < |x.sending| { RemoveSubset(x.sending, i); }
    if i < |x.held| { RemoveSubset(x.held, i); }
  }

  /** Both directions between two ends, with the allocator as it is. */
  ghost predicate Linked(shm: Shm.State, x: EndState, y: EndState) {
    && PairInv(x, y) && PairInv(y, x)
    && TransitLive(shm, x) && TransitLive(shm, y)
    && Guards(shm, x, y) && Guards(shm, y, x)
  }

  lemma SendLinked(shm: Shm.State, x: EndState, y: EndState, tag: nat, kept: Kept)
    requires Linked(shm, x, y) && !x.destroying
    requires kept.Some? ==> kept.value <= shm.ptrs.Keys
    ensures Linked(shm, Send(x, tag, kept, IdsOf(shm, kept)), y)
  {
    SendKeeps(x, y, tag, kept, IdsOf(shm, kept));
    SendGuards(shm, x, y, tag, kept);
  }

  lemma BeatLinked(shm: Shm.State, x: EndState, y: EndState)
    requires Linked(shm, x, y) && !x.destroying
    ensures Linked(shm, x.(sending := x.sending + [Heartbeat]), y)
  {
    BeatKeeps(x, y);
    var x' := x.(sending := x.sending + [Heartbeat]);
    GuardsKept(shm, x, y, x', y);
    GuardsKept(shm, y, x, y, x');
  }

  lemma PushLinked(shm: Shm.State, x: EndState, y: EndState, i: nat)
    requires Linked(shm, x, y) && i < |x.sending| && |x.ipc| < MAX_QUEUE_SIZE
    ensures Linked(shm, Push(x, i), y)
  {
    PushKeeps(x, y, i);
    QuietFlight(x, y, i);
    GuardsKept(shm, x, y, Push(x, i), y);
    GuardsKept(shm, y, x, y, Push(x, i));
  }

  lemma DeliverLinked(shm: Shm.State, x: EndState, y: EndState)
    requires Linked(shm, x, y) && |x.blocked| == 1 && |x.out| < MAX_QUEUE_SIZE
    ensures Linked(shm, Deliver(x), y)
  {
    DeliverKeeps(x, y);
    QuietFlight(x, y, 0);
    GuardsKept(shm, x, y, Deliver(x), y);
    GuardsKept(shm, y, x, y, Deliver(x));
  }

  lemma RecvLinked(shm: Shm.State, x: EndState, y: EndState)
    requires Linked(shm, x, y) && x.out != [] && !x.destroying
    ensures Linked(shm, Recv(x), y)
  {
    RecvKeeps(x, y);
    QuietFlight(x, y, 0);
    GuardsKept(shm, x, y, Recv(x), y);
    GuardsKept(shm, y, x, y, Recv(x));
  }

  lemma DropLinked(shm: Shm.State, x: EndState, y: EndState, i: nat)
    requires Linked(shm, x, y) && i < |x.held|
    ensures Linked(shm, Drop(x, i), y)
  {
    DropKeeps(x, y, i);
    QuietFlight(x, y, i);
    GuardsKept(shm, x, y, Drop(x, i), y);
    GuardsKept(shm, y, x, y, Drop(x, i));
  }

  lemma ReadFlight(x: EndState, y: EndState, w: Wire)
    requires y.ipc != [] && x.blocked == [] && w.User?
    ensures InFlight(HandleReceived(x, y.ipc[0]), Behead(y), w) ==> InFlight(x, y, w)
    ensures InFlight(Behead(y), HandleReceived(x, y.ipc[0]), w) ==> InFlight(y, x, w)
  {
    assert y.ipc == [y.ipc[0]] + y.ipc[1..];
  }

  lemma ReadTransit(shm: Shm.State, x: EndState, w: Wire)
    requires TransitLive(shm, x)
    ensures TransitLive(shm, HandleReceived(x, w))
    ensures forall id <- HandleReceived(x, w).inTransit ::
              id in x.inTransit && HandleReceived(x, w).inTransit[id] == x.inTransit[id]
  {
  }

  lemma ReadGuards(shm: Shm.State, x: EndState, y: EndState, x': EndState, y': EndState)
    requires Guards(shm, x, y) && Guards(shm, y, x) && y.ipc != [] && x.blocked == [] && TransitLive(shm, x)
    requires x' == HandleReceived(x, y.ipc[0]) && y' == Behead(y)
    requires Conserved(x', y') && Conserved(y', x')
    ensures Guards(shm, x', y') && Guards(shm, y', x')
  {
    ReadTransit(shm, x, y.ipc[0]);
    forall w: Wire | w.User?
      ensures (InFlight(x', y', w) ==> InFlight(x, y, w)) && (InFlight(y', x', w) ==> InFlight(y, x, w))
    {
      ReadFlight(x, y, w);
    }
    GuardsKept(shm, x, y, x', y');
    GuardsKept(shm, y, x, y', x');
  }

  lemma ReadLinked(shm: Shm.State, x: EndState, y: EndState)
    requires Linked(shm, x, y) && y.ipc != [] && x.blocked == [] && !x.exited
    ensures Linked(shm, HandleReceived(x, y.ipc[0]), Behead(y))
  {
    ReadKeeps(x, y);
    ReadTransit(shm, x, y.ipc[0]);
    ReadGuards(shm, x, y, HandleReceived(x, y.ipc[0]), Behead(y));
  }

  lemma DestroyLinked(shm: Shm.State, x: EndState, y: EndState)
    requires Linked(shm, x, y) && !x.destroying && x.held == [] && x.sending == [] && |y.ipc| < MAX_QUEUE_SIZE
    ensures Linked(shm, x.(destroying := true), y.(ipc := y.ipc + [ShutdownQueues]))
  {
    DestroyKeeps(x, y);
    var x', y' := x.(destroying := true), y.(ipc := y.ipc + [ShutdownQueues]);
    GuardsKept(shm, x, y, x', y');
    GuardsKept(shm, y, x, y', x');
  }

  // ------------------------------------------------------------- Steps of the allocator

  lemma AllocatorLinked(s: State, a: Shm.Step)
    requires Inv(s) && Enabled(s, Allocator(a))
    ensures Inv(Apply(s, Allocator(a)))
  {
    Shm.StepInv(s.shm, a);
    PtrsAfter(s.shm, a);
    NewPtrLive(s.shm, a);
    AppLive(s, a);
    AllocatorGuards(s, a, Main);
    AllocatorGuards(s, a, Worker);
  }

  lemma NewPtrLive(shm: Shm.State, a: Shm.Step)
    requires Shm.Enabled(shm, a)
    ensures NewPtr(a) <= Shm.Apply(shm, a).ptrs.Keys
  {
  }

  /** Whoever allocates or loads gets the pointer, which is live; no other step of the allocator gives any away. */
  lemma HandedOut(s: State, a: Shm.Step)
    requires Enabled(s, Allocator(a))
    ensures var t := Apply(s, Allocator(a));
            if a.ReuseStep? || a.CreateStep? || a.LoadCheckStep? then t.app == s.app + {a.ptr} && a.ptr in t.shm.ptrs
            else t.app == s.app
  {
  }

  /** What user code has given up can be deleted, unless a message in transit keeps it. */
  lemma GivenUp(s: State, q: Shm.PtrId)
    requires Inv(s) && q in s.app
    ensures var t := Apply(s, AppRelease(q));
            && t.app == s.app - {q} && t.shm == s.shm && t.main == s.main && t.worker == s.worker
            && (!InSomeTransit(s, q) ==> Enabled(t, Allocator(Shm.DropStep(q))))
  {
    assert Shm.PtrOk(s.shm, q);
    Shm.LivePtrCounted(s.shm, q);
    SameTransit(s, Apply(s, AppRelease(q)), q);
  }

  lemma SameTransit(s: State, t: State, q: Shm.PtrId)
    requires t.main == s.main && t.worker == s.worker
    ensures InSomeTransit(t, q) <==> InSomeTransit(s, q)
  {
    assert forall e: End :: At(t, e) == At(s, e);
  }

  /** Pointers of user code stay live: their deleters run only after user code has given them up. */
  lemma AppLive(s: State, a: Shm.Step)
    requires Enabled(s, Allocator(a)) && s.app <= s.shm.ptrs.Keys && NewPtr(a) <= Shm.Apply(s.shm, a).ptrs.Keys
    requires forall q <- s.shm.ptrs :: a != Shm.DropStep(q) ==> q in Shm.Apply(s.shm, a).ptrs
    ensures s.app + NewPtr(a) <= Shm.Apply(s.shm, a).ptrs.Keys
  {
  }

  lemma AllocatorGuards(s: State, a: Shm.Step, e: End)
    requires Enabled(s, Allocator(a)) && TransitLive(s.shm, At(s, e)) && Guards(s.shm, At(s, e), At(s, Other(e)))
    requires forall q <- s.shm.ptrs :: a != Shm.DropStep(q) ==>
               q in Shm.Apply(s.shm, a).ptrs && Shm.Apply(s.shm, a).ptrs[q] == s.shm.ptrs[q]
    ensures TransitLive(Shm.Apply(s.shm, a), At(s, e)) && Guards(Shm.Apply(s.shm, a), At(s, e), At(s, Other(e)))
  {
    var shm' := Shm.Apply(s.shm, a);
    var x, y := At(s, e), At(s, Other(e));
    forall id, q | id in x.inTransit && q in x.inTransit[id]
      ensures q in shm'.ptrs && shm'.ptrs[q] == s.shm.ptrs[q]
    {
      assert InSomeTransit(s, q);
    }
    forall w: Wire | InFlight(x, y, w)
      ensures Guarded(shm', x, w)
    {
      assert Guarded(s.shm, x, w);
    }
  }

  // ------------------------------------------------------------------- All steps, all runs

  lemma EndStepInv(s: State, step: Step, e: End)
    requires Linked(s.shm, At(s, e), At(s, Other(e))) && Enabled(s, step)
    requires match step
             case SendStep(f, _, _) => f == e
             case BeatStep(f) => f == e
             case PushStep(f, _) => f == e
             case ReadStep(f) => f == e
             case DeliverStep(f) => f == e
             case RecvStep(f) => f == e
             case DropStep(f, _) => f == e
             case DestroyStep(f) => f == e
             case _ => false
    ensures var t := Apply(s, step);
            t.shm == s.shm && t.app == s.app && Linked(t.shm, At(t, e), At(t, Other(e)))
  {
    var x, y := At(s, e), At(s, Other(e));
    match step
    case SendStep(_, tag, kept) => SendLinked(s.shm, x, y, tag, kept);
    case BeatStep(_) => BeatLinked(s.shm, x, y);
    case PushStep(_, i) => PushLinked(s.shm, x, y, i);
    case ReadStep(_) => ReadLinked(s.shm, x, y);
    case DeliverStep(_) => DeliverLinked(s.shm, x, y);
    case RecvStep(_) => RecvLinked(s.shm, x, y);
    case DropStep(_, i) => DropLinked(s.shm, x, y, i);
    case DestroyStep(_) => DestroyLinked(s.shm, x, y);
  }

  lemma StepInv(s: State, step: Step)
    requires Inv(s) && Enabled(s, step)
    ensures Inv(Apply(s, step))
  {
    if step.Allocator? {
      AllocatorLinked(s, step.step);
    } else if step.AppRelease? || step.WriteStep? {
    } else {
      EndStepInv(s, step, step.e);
    }
  }

  ghost predicate Valid(s: State, steps: seq<Step>)
    decreases |steps|
  {
    |steps| == 0 || (Enabled(s, steps[0]) && Valid(Apply(s, steps[0]), steps[1..]))
  }

  ghost function After(s: State, steps: seq<Step>): State
    requires Valid(s, steps)
    decreases |steps|
  {
    if |steps| == 0 then s else After(Apply(s, steps[0]), steps[1..])
  }

  lemma Prepend(s: State, step: Step, rest: seq<Step>)
    requires Enabled(s, step) && Valid(Apply(s, step), rest)
    ensures Valid(s, [step] + rest) && After(s, [step] + rest) == After(Apply(s, step), rest)
  {
    assert ([step] + rest)[1..] == rest;
  }

  lemma {:induction false} RunKeepsInv(s: State, steps: seq<Step>)
    requires Inv(s) && Valid(s, steps)
    ensures Inv(After(s, steps))
    decreases |steps|
  {
    if |steps| > 0 {
      StepInv(s, steps[0]);
      RunKeepsInv(Apply(s, steps[0]), steps[1..]);
    }
  }

  /**
    In every state of every run, whatever threads and free_unused_shm_blocks did in between,
    each block id guarded by a message that the receiver has not released can be loaded:
    none of the regions of load_shm can take an error branch for it.
   */
  lemma UnreleasedMessageLoads(steps: seq<Step>, e: End, w: Wire, b: Shm.BlockId, op: Shm.OpId)
    requires Valid(INIT, steps)
    requires var s := After(INIT, steps);
             InFlight(At(s, e), At(s, Other(e)), w) && w.User? && w.requiresDone && b in w.guarded
    ensures var shm := After(INIT, steps).shm;
            && !Shm.CanLoadOpenError(shm, op, b) && (op !in shm.loads ==> Shm.CanLoadOpen(shm, op, b))
            && Shm.AttachPasses(shm, b.handle) && Shm.CheckPasses(shm, b)
            && (op in shm.loads && shm.loads[op].id == b ==>
                  !Shm.CanLoadAttachError(shm, op) && !Shm.CanLoadCheckError(shm, op))
  {
    InitInv();
    RunKeepsInv(INIT, steps);
    GuardedIsLive(After(INIT, steps), e, w, b);
    LiveIdLoads(After(INIT, steps).shm, b, op);
  }

  lemma GuardedIsLive(s: State, e: End, w: Wire, b: Shm.BlockId)
    requires Guards(s.shm, At(s, e), At(s, Other(e)))
    requires InFlight(At(s, e), At(s, Other(e)), w) && w.User? && w.requiresDone && b in w.guarded
    ensures IdLive(s.shm, b)
  {
    assert Guarded(s.shm, At(s, e), w);
    var q :| q in At(s, e).inTransit[w.id] && q in s.shm.ptrs && s.shm.ptrs[q].id == b;
  }

  /** In every run: what user code received is a prefix of what was sent, and the tokens are conserved. */
  lemma DeliveryInOrder(steps: seq<Step>, e: End)
    requires Valid(INIT, steps)
    ensures var s := After(INIT, steps);
            && At(s, Other(e)).received <= At(s, e).sent
            && (forall id: MsgId :: Tokens(At(s, e), At(s, Other(e)), id) == if id in At(s, e).inTransit then 1 else 0)
            && |At(s, e).out| <= MAX_QUEUE_SIZE && |At(s, e).ipc| <= MAX_QUEUE_SIZE
  {
    InitInv();
    RunKeepsInv(INIT, steps);
    var s := After(INIT, steps);
    assert InOrder(At(s, e), At(s, Other(e))) && Conserved(At(s, e), At(s, Other(e)));
  }
}

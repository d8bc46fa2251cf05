/**
  Shutting one queue down. The destructor of an IPCMessageQueue joins its read
  thread, which stops once every message it has in transit is acknowledged.
 */
module TransportShutdown {
  import opened Transport
  import opened TransportInv
  import opened TransportTheorems
  import opened Wrappers

  /** What goes on once nobody sends: queues move, the live peer receives, drops and keeps up its heartbeat. */
  predicate IsDrain(step: Step, e: End) {
    match step
    case PushStep(_, _) => true
    case ReadStep(_) => true
    case BeatStep(f) => f == Other(e)
    case DeliverStep(_) => true
    case RecvStep(f) => f == Other(e)
    case DropStep(_, _) => true
    case _ => false
  }

  /** A message weighs more the farther it still has to go; `ack` is the weight of a DONE, `beat` of a HEARTBEAT. */
  function Weight(ws: seq<Wire>, other: nat, ack: nat, beat: nat): nat {
    if ws == [] then 0
    else (if ws[0].Done? then ack else if ws[0].Heartbeat? then beat else other) + Weight(ws[1..], other, ack, beat)
  }

  function EndMeasure(x: EndState): nat {
    Weight(x.sending, 7, 2, 2) + Weight(x.ipc, 6, 1, 1)
    + Weight(x.blocked, 5, 5, 5) + Weight(x.out, 4, 4, 4) + Weight(x.held, 3, 3, 3)
  }

  function Measure(s: State): nat {
    EndMeasure(s.main) + EndMeasure(s.worker)
  }

  lemma {:induction false} WeightConcat(a: seq<Wire>, b: seq<Wire>, other: nat, ack: nat, beat: nat)
    ensures Weight(a + b, other, ack, beat) == Weight(a, other, ack, beat) + Weight(b, other, ack, beat)
  {
    if a == [] {
      assert a + b == b;
    } else {
      assert (a + b)[0] == a[0] && (a + b)[1..] == a[1..] + b;
      WeightConcat(a[1..], b, other, ack, beat);
    }
  }

  lemma {:induction false} WeightRemove(ws: seq<Wire>, i: nat, other: nat, ack: nat, beat: nat)
    requires i < |ws|
    ensures Weight(ws, other, ack, beat) == Weight([ws[i]], other, ack, beat) + Weight(Remove(ws, i), other, ack, beat)
  {
    assert ws == ws[..i] + ([ws[i]] + ws[i + 1..]);
    WeightWithout(ws[..i], [ws[i]], ws[i + 1..], other, ack, beat);
  }

  lemma {:induction false} WeightWithout(a: seq<Wire>, b: seq<Wire>, c: seq<Wire>, other: nat, ack: nat, beat: nat)
    ensures Weight(a + (b + c), other, ack, beat) == Weight(b, other, ack, beat) + Weight(a + c, other, ack, beat)
  {
    WeightConcat(a, b + c, other, ack, beat);
    WeightConcat(b, c, other, ack, beat);
    WeightConcat(a, c, other, ack, beat);
  }

  lemma PushShrinks(x: EndState, i: nat)
    requires i < |x.sending|
    ensures EndMeasure(Push(x, i)) < EndMeasure(x)
  {
    WeightRemove(x.sending, i, 7, 2, 2);
    WeightConcat(x.ipc, [x.sending[i]], 6, 1, 1);
  }

  lemma DeliverShrinks(x: EndState)
    requires |x.blocked| == 1
    ensures EndMeasure(Deliver(x)) < EndMeasure(x)
  {
    WeightConcat(x.out, x.blocked, 4, 4, 4);
    assert Weight(x.blocked, 4, 4, 4) < Weight(x.blocked, 5, 5, 5);
  }

  lemma RecvShrinks(x: EndState)
    requires x.out != []
    ensures EndMeasure(Recv(x)) < EndMeasure(x)
  {
    WeightConcat(x.held, x.out[..1], 3, 3, 3);
    assert x.out == x.out[..1] + x.out[1..];
    WeightConcat(x.out[..1], x.out[1..], 4, 4, 4);
  }

  lemma DropShrinks(x: EndState, i: nat)
    requires i < |x.held|
    ensures EndMeasure(Drop(x, i)) < EndMeasure(x)
  {
    WeightRemove(x.held, i, 3, 3, 3);
    if x.held[i].User? {
      WeightConcat(x.sending, [Done(x.held[i].id)], 7, 2, 2);
    }
  }

  lemma {:induction false} WeightHead(ws: seq<Wire>, other: nat, ack: nat, beat: nat)
    requires ws != []
    ensures Weight(ws, other, ack, beat) == Weight([ws[0]], other, ack, beat) + Weight(ws[1..], other, ack, beat)
    ensures ws[0].ShutdownQueues? ==> Weight([ws[0]], other, ack, beat) == other
  {
    assert [ws[0]][1..] == [];
  }

  lemma ReadShrinks(x: EndState, y: EndState)
    requires y.ipc != [] && x.blocked == []
    ensures EndMeasure(HandleReceived(x, y.ipc[0])) + EndMeasure(Behead(y)) < EndMeasure(x) + EndMeasure(y)
  {
    if y.ipc[0].ShutdownQueues? {
      ReadShutdownShrinks(x, y);
    } else {
      ReadOtherShrinks(x, y);
    }
  }

  lemma ReadOtherShrinks(x: EndState, y: EndState)
    requires y.ipc != [] && x.blocked == [] && !y.ipc[0].ShutdownQueues?
    ensures EndMeasure(HandleReceived(x, y.ipc[0])) + EndMeasure(Behead(y)) < EndMeasure(x) + EndMeasure(y)
  {
    WeightHead(y.ipc, 6, 1, 1);
  }

  lemma ReadShutdownShrinks(x: EndState, y: EndState)
    requires y.ipc != [] && x.blocked == [] && y.ipc[0].ShutdownQueues?
    ensures EndMeasure(HandleReceived(x, y.ipc[0])) + EndMeasure(Behead(y)) < EndMeasure(x) + EndMeasure(y)
  {
    WeightHead(y.ipc, 6, 1, 1);
    WeightConcat(x.out, [y.ipc[0]], 4, 4, 4);
    assert Weight([y.ipc[0]], 4, 4, 4) == 4;
  }

  lemma BeatGrows(x: EndState)
    ensures EndMeasure(x.(sending := x.sending + [Heartbeat])) == EndMeasure(x) + 2
  {
    WeightConcat(x.sending, [Heartbeat], 7, 2, 2);
    assert Weight([Heartbeat], 7, 2, 2) == 2;
  }

  /** Every draining step brings some message closer to its end; a new heartbeat costs two. */
  lemma DrainShrinks(s: State, e: End, step: Step)
    requires Enabled(s, step) && IsDrain(step, e)
    ensures if step.BeatStep? then Measure(Apply(s, step)) == Measure(s) + 2 else Measure(Apply(s, step)) < Measure(s)
  {
    match step
    case PushStep(f, i) => PushShrinks(At(s, f), i);
    case ReadStep(f) => ReadShrinks(At(s, f), At(s, Other(f)));
    case DeliverStep(f) => DeliverShrinks(At(s, f));
    case RecvStep(f) => RecvShrinks(At(s, f));
    case DropStep(f, i) => DropShrinks(At(s, f), i);
    case BeatStep(f) => BeatGrows(At(s, f));
  }

  // -------------------------------------------------------------- Room in the out queue

  /** How many of the messages land in the out queue of their reader. */
  function ForOut(ws: seq<Wire>): nat {
    if ws == [] then 0 else (if ws[0].User? || ws[0].ShutdownQueues? then 1 else 0) + ForOut(ws[1..])
  }

  lemma {:induction false} ForOutConcat(a: seq<Wire>, b: seq<Wire>)
    ensures ForOut(a + b) == ForOut(a) + ForOut(b)
  {
    if a == [] {
      assert a + b == b;
    } else {
      assert (a + b)[0] == a[0] && (a + b)[1..] == a[1..] + b;
      ForOutConcat(a[1..], b);
    }
  }

  lemma {:induction false} ForOutRemove(ws: seq<Wire>, i: nat)
    requires i < |ws|
    ensures ForOut(ws) == ForOut([ws[i]]) + ForOut(Remove(ws, i))
  {
    assert ws == ws[..i] + ([ws[i]] + ws[i + 1..]);
    ForOutWithout(ws[..i], [ws[i]], ws[i + 1..]);
  }

  lemma {:induction false} ForOutWithout(a: seq<Wire>, b: seq<Wire>, c: seq<Wire>)
    ensures ForOut(a + (b + c)) == ForOut(b) + ForOut(a + c)
  {
    ForOutConcat(a, b + c);
    ForOutConcat(b, c);
    ForOutConcat(a, c);
  }

  lemma {:induction false} UsersCount(ws: seq<Wire>)
    ensures |Users(ws)| <= ForOut(ws) && (ShutdownQueues !in ws ==> |Users(ws)| == ForOut(ws))
    ensures (forall w <- ws :: w.User?) ==> |Users(ws)| == |ws|
  {
    if ws != [] {
      UsersCount(ws[1..]);
    }
  }

  /** An upper bound on what can still land in the out queue of x; y is its peer. */
  function Backlog(x: EndState, y: EndState): nat {
    |x.out| + |x.blocked| + ForOut(y.ipc) + ForOut(y.sending)
  }

  lemma {:induction false} PushBacklog(x: EndState, y: EndState, i: nat)
    requires i < |x.sending|
    ensures Backlog(Push(x, i), y) <= Backlog(x, y) && Backlog(y, Push(x, i)) <= Backlog(y, x)
  {
    ForOutRemove(x.sending, i);
    ForOutConcat(x.ipc, [x.sending[i]]);
  }

  lemma {:induction false} DropBacklog(x: EndState, y: EndState, i: nat)
    requires i < |x.held|
    ensures Backlog(Drop(x, i), y) <= Backlog(x, y) && Backlog(y, Drop(x, i)) <= Backlog(y, x)
  {
    if x.held[i].User? {
      ForOutConcat(x.sending, [Done(x.held[i].id)]);
    }
  }

  lemma {:induction false} ReadBacklog(x: EndState, y: EndState)
    requires y.ipc != [] && x.blocked == []
    ensures Backlog(HandleReceived(x, y.ipc[0]), Behead(y)) <= Backlog(x, y)
    ensures Backlog(Behead(y), HandleReceived(x, y.ipc[0])) <= Backlog(y, x)
  {
  }

  /** Draining never lets the backlog grow. */
  lemma DrainKeepsBacklog(s: State, e: End, step: Step)
    requires Enabled(s, step) && IsDrain(step, e)
    ensures var t := Apply(s, step); Backlog(At(t, e), At(t, Other(e))) <= Backlog(At(s, e), At(s, Other(e)))
  {
    match step
    case PushStep(f, i) => PushBacklog(At(s, f), At(s, Other(f)), i);
    case ReadStep(f) => ReadBacklog(At(s, f), At(s, Other(f)));
    case DropStep(f, i) => DropBacklog(At(s, f), At(s, Other(f)), i);
    case BeatStep(f) => ForOutConcat(At(s, f).sending, [Heartbeat]);
    case _ =>
  }

  /** The user messages in front of the first SHUTDOWN_QUEUES. */
  function UsersAhead(ws: seq<Wire>): nat {
    if ws == [] || ws[0].ShutdownQueues? then 0 else (if ws[0].User? then 1 else 0) + UsersAhead(ws[1..])
  }

  lemma {:induction false} UsersAheadAppend(ws: seq<Wire>, w: Wire)
    ensures UsersAhead(ws + [w]) >= UsersAhead(ws)
    ensures !w.User? ==> UsersAhead(ws + [w]) == UsersAhead(ws)
  {
    if ws == [] {
      assert [] + [w] == [w];
    } else {
      assert (ws + [w])[0] == ws[0] && (ws + [w])[1..] == ws[1..] + [w];
      UsersAheadAppend(ws[1..], w);
    }
  }

  /** All messages in the IPC queue for the out queue of x are in front of the shutdown message, and they fit. */
  predicate FitsBeforeShutdown(x: EndState, y: EndState) {
    if x.shutdownStarted then x.blocked == [] && Users(y.ipc) == []
    else UsersAhead(y.ipc) == |Users(y.ipc)| && |x.out| + |x.blocked| + |Users(y.ipc)| <= MAX_QUEUE_SIZE
  }

  /** e is going down and its peer is up. */
  predicate GoingDown(s: State, e: End) {
    At(s, e).destroying && !At(s, Other(e)).destroying
  }

  /** The out queue of x has room for whatever may still come. */
  predicate HasRoom(x: EndState, y: EndState) {
    Backlog(x, y) <= MAX_QUEUE_SIZE || (Users(y.sending) == [] && FitsBeforeShutdown(x, y))
  }

  predicate CanFinish(s: State, e: End) {
    GoingDown(s, e) && HasRoom(At(s, e), At(s, Other(e)))
  }

  lemma {:induction false} NoUsers(ws: seq<Wire>)
    ensures Users(ws) == [] <==> forall w <- ws :: !w.User?
  {
    if ws != [] {
      assert ws == [ws[0]] + ws[1..];
      NoUsers(ws[1..]);
    }
  }

  lemma {:induction false} UsersRemove(ws: seq<Wire>, i: nat)
    requires i < |ws| && Users(ws) == []
    ensures Users(Remove(ws, i)) == [] && !ws[i].User?
  {
    NoUsers(ws);
    RemoveSubset(ws, i);
    NoUsers(Remove(ws, i));
  }

  lemma {:induction false} PushFits(x: EndState, y: EndState, i: nat)
    requires FitsBeforeShutdown(x, y) && i < |y.sending| && !y.sending[i].User?
    ensures FitsBeforeShutdown(x, Push(y, i))
  {
    UsersAheadAppend(y.ipc, y.sending[i]);
    UsersConcat(y.ipc, [y.sending[i]]);
  }

  lemma {:induction false} PushOwnFits(x: EndState, y: EndState, i: nat)
    requires FitsBeforeShutdown(x, y) && i < |x.sending|
    ensures FitsBeforeShutdown(Push(x, i), y)
  {
  }

  lemma {:induction false} ReadFits(x: EndState, y: EndState)
    requires FitsBeforeShutdown(x, y) && y.ipc != [] && x.blocked == []
    ensures FitsBeforeShutdown(HandleReceived(x, y.ipc[0]), Behead(y))
  {
  }

  lemma {:induction false} ReadOtherFits(x: EndState, y: EndState)
    requires FitsBeforeShutdown(x, y) && x.ipc != [] && y.blocked == []
    ensures FitsBeforeShutdown(Behead(x), HandleReceived(y, x.ipc[0]))
  {
  }

  lemma {:induction false} DeliverFits(x: EndState, y: EndState)
    requires FitsBeforeShutdown(x, y)
    ensures |x.blocked| == 1 ==> FitsBeforeShutdown(Deliver(x), y)
    ensures |y.blocked| == 1 ==> FitsBeforeShutdown(x, Deliver(y))
  {
  }

  /** The step does not put a user message of the peer of e into the IPC queue. */
  predicate SendsNoUser(s: State, e: End, step: Step)
    requires Enabled(s, step)
  {
    step.PushStep? && step.e == Other(e) ==> !At(s, step.e).sending[step.i].User?
  }

  lemma DrainKeepsFit(s: State, e: End, step: Step)
    requires Enabled(s, step) && IsDrain(step, e) && SendsNoUser(s, e, step)
    requires FitsBeforeShutdown(At(s, e), At(s, Other(e)))
    ensures FitsBeforeShutdown(At(Apply(s, step), e), At(Apply(s, step), Other(e)))
  {
    var x, y := At(s, e), At(s, Other(e));
    match step
    case PushStep(f, i) => if f == e { PushOwnFits(x, y, i); } else { PushFits(x, y, i); }
    case ReadStep(f) => if f == e { ReadFits(x, y); } else { ReadOtherFits(x, y); }
    case DeliverStep(f) => DeliverFits(x, y);
    case _ => QuietFits(s, e, step);
  }

  lemma QuietFits(s: State, e: End, step: Step)
    requires Enabled(s, step) && FitsBeforeShutdown(At(s, e), At(s, Other(e)))
    requires step.BeatStep? || step.DropStep? || (step.RecvStep? && step.e == Other(e))
    ensures FitsBeforeShutdown(At(Apply(s, step), e), At(Apply(s, step), Other(e)))
  {
  }

  lemma DrainSendsNoUser(s: State, e: End, step: Step)
    requires Enabled(s, step) && IsDrain(step, e) && Users(At(s, Other(e)).sending) == []
    ensures SendsNoUser(s, e, step) && Users(At(Apply(s, step), Other(e)).sending) == []
  {
    var y := At(s, Other(e));
    match step
    case PushStep(f, i) => if f != e { UsersRemove(y.sending, i); }
    case DropStep(f, i) => if f != e { DropSendsNoUser(y, i); }
    case BeatStep(f) => UsersConcat(y.sending, [Heartbeat]);
    case _ =>
  }

  lemma {:induction false} DropSendsNoUser(y: EndState, i: nat)
    requires i < |y.held|
    ensures Users(Drop(y, i).sending) == Users(y.sending)
  {
    if y.held[i].User? {
      UsersConcat(y.sending, [Done(y.held[i].id)]);
      assert Users([Done(y.held[i].id)]) == [];
    }
  }

  lemma DrainKeepsRoom(s: State, e: End, step: Step)
    requires HasRoom(At(s, e), At(s, Other(e))) && Enabled(s, step) && IsDrain(step, e)
    ensures HasRoom(At(Apply(s, step), e), At(Apply(s, step), Other(e)))
  {
    DrainKeepsBacklog(s, e, step);
    if Users(At(s, Other(e)).sending) == [] && FitsBeforeShutdown(At(s, e), At(s, Other(e))) {
      DrainSendsNoUser(s, e, step);
      DrainKeepsFit(s, e, step);
    }
  }

  /** Until the read thread of e has finished there is always something left to drain. */
  lemma DrainGoesOn(s: State, e: End) returns (step: Step)
    requires Inv(s) && GoingDown(s, e) && !At(s, e).exited
    requires At(s, e).blocked != [] ==> |At(s, e).out| < MAX_QUEUE_SIZE
    ensures Enabled(s, step) && IsDrain(step, e) && !step.BeatStep? && SendsNoUser(s, e, step)
  {
    var o := Other(e);
    var x, y := At(s, e), At(s, o);
    assert StopsRight(x, y) && StopsRight(y, x) && Local(x) && Local(y) && Conserved(x, y);
    if x.blocked != [] {
      return DeliverStep(e);
    }
    if y.ipc != [] {
      return ReadStep(e);
    }
    if y.blocked != [] {
      return if |y.out| < MAX_QUEUE_SIZE then DeliverStep(o) else RecvStep(o);
    }
    if x.ipc != [] {
      return ReadStep(o);
    }
    if y.out != [] {
      return RecvStep(o);
    }
    if y.held != [] {
      return DropStep(o, 0);
    }
    assert x.shutdownStarted;
    var i := PendingDone(x, y);
    return PushStep(o, i);
  }

  /** What is in transit while its message is nowhere is about to be acknowledged. */
  lemma PendingDone(x: EndState, y: EndState) returns (i: nat)
    requires Conserved(x, y) && |x.inTransit| > 0
    requires x.sending == [] && x.ipc == [] && y.blocked == [] && y.out == [] && y.held == [] && y.ipc == []
    ensures i < |y.sending| && y.sending[i].Done?
  {
    var id :| id in x.inTransit;
    assert Tokens(x, y, id) == 1;
    AckingMember(y.sending, id);
    i :| 0 <= i < |y.sending| && y.sending[i] == Done(id);
  }

  lemma {:induction false} AckingMember(ws: seq<Wire>, id: MsgId)
    requires Acking(ws, id) > 0
    ensures Done(id) in ws
  {
    if ws[0] != Done(id) {
      AckingMember(ws[1..], id);
    }
  }

  ghost predicate AllDrain(steps: seq<Step>, e: End) {
    forall step <- steps :: IsDrain(step, e)
  }

  function Beats(steps: seq<Step>): nat {
    if steps == [] then 0 else (if steps[0].BeatStep? then 1 else 0) + Beats(steps[1..])
  }

  /**
    Shutdown completes, whatever order things drain in: apart from the heartbeats that the live peer
    keeps sending, and two steps for each of them, it takes boundedly many steps, and it does not end
    before e has finished.
   */
  lemma {:induction false} ShutdownCompletes(s: State, e: End, steps: seq<Step>)
    requires Inv(s) && CanFinish(s, e) && Valid(s, steps) && AllDrain(steps, e)
    ensures |steps| - Beats(steps) <= Measure(s) + 2 * Beats(steps)
    ensures var t := After(s, steps);
            At(t, e).exited || exists step :: IsDrain(step, e) && Enabled(t, step) && !step.BeatStep?
    decreases |steps|
  {
    if |steps| == 0 {
      if !At(s, e).exited {
        assert Local(At(s, e));
        var step := DrainGoesOn(s, e);
      }
    } else {
      StepInv(s, steps[0]);
      DrainShrinks(s, e, steps[0]);
      DrainKeepsUp(s, e, steps[0]);
      DrainKeepsRoom(s, e, steps[0]);
      ShutdownCompletes(Apply(s, steps[0]), e, steps[1..]);
    }
  }

  lemma DrainKeepsUp(s: State, e: End, step: Step)
    requires Enabled(s, step) && IsDrain(step, e)
    ensures forall f: End :: At(Apply(s, step), f).destroying == At(s, f).destroying
  {
    match step
    case ReadStep(f) => ReadKeepsFlag(At(s, f), At(s, Other(f)).ipc[0]);
    case _ =>
  }

  lemma ReadKeepsFlag(x: EndState, w: Wire)
    ensures HandleReceived(x, w).destroying == x.destroying
  {
  }

  /** The user messages sent to e that its user code has not received yet. */
  function Unread(s: State, e: End): int {
    |At(s, Other(e)).sent| - |At(s, e).received|
  }

  /** They are exactly what is queued for e, so with few of them the read thread never waits for room. */
  lemma UnreadAreQueued(s: State, e: End)
    requires Inv(s) && !At(s, e).destroying
    ensures var x, y := At(s, e), At(s, Other(e));
            && Unread(s, e) == |x.out| + |x.blocked| + ForOut(y.ipc)
            && (Unread(s, e) <= MAX_QUEUE_SIZE && |x.blocked| == 1 ==> Enabled(s, DeliverStep(e)))
  {
    var x, y := At(s, e), At(s, Other(e));
    assert InOrder(y, x) && StopsRight(x, y) && Local(x);
    UsersCount(x.out);
    UsersCount(y.ipc);
  }

  lemma DestroyFits(s: State, e: End)
    requires Inv(s) && Enabled(s, DestroyStep(e)) && Unread(s, e) <= MAX_QUEUE_SIZE
    ensures var t := Apply(s, DestroyStep(e));
            At(t, e).destroying && FitsBeforeShutdown(At(t, e), At(t, Other(e)))
  {
    var x, y := At(s, e), At(s, Other(e));
    UnreadAreQueued(s, e);
    UsersConcat(y.ipc, [ShutdownQueues]);
    UsersAheadAppend(y.ipc, ShutdownQueues);
    assert StopsRight(x, y);
    NoShutdownAhead(y.ipc);
    UsersCount(y.ipc);
  }

  /** A queue destroyed with few unread messages has the room that ShutdownCompletes asks for. */
  lemma DestroyLeavesRoom(s: State, e: End)
    requires Inv(s) && Enabled(s, DestroyStep(e))
    requires Unread(s, e) + ForOut(At(s, Other(e)).sending) < MAX_QUEUE_SIZE
             || (Unread(s, e) <= MAX_QUEUE_SIZE && Users(At(s, Other(e)).sending) == [])
    ensures var t := Apply(s, DestroyStep(e));
            HasRoom(At(t, e), At(t, Other(e))) && (!At(s, Other(e)).destroying ==> CanFinish(t, e))
  {
    UnreadAreQueued(s, e);
    ForOutConcat(At(s, Other(e)).ipc, [ShutdownQueues]);
    DestroyFits(s, e);
  }

  lemma {:induction false} NoShutdownAhead(ws: seq<Wire>)
    requires ShutdownQueues !in ws
    ensures UsersAhead(ws) == |Users(ws)|
  {
    if ws != [] {
      NoShutdownAhead(ws[1..]);
    }
  }

  // ---------------------------------------------------------------------- Without the room

  /** More user messages wait in front of the shutdown message than the out queue can ever take. */
  predicate Jammed(s: State, e: End) {
    At(s, e).destroying && Stuck(At(s, e), At(s, Other(e)).ipc)
  }

  predicate Stuck(x: EndState, ipc: seq<Wire>) {
    !x.shutdownStarted && !x.exited && |x.out| + |x.blocked| + UsersAhead(ipc) > MAX_QUEUE_SIZE
  }

  lemma ReadStuck(x: EndState, ipc: seq<Wire>)
    requires Stuck(x, ipc) && ipc != [] && x.blocked == [] && |x.out| <= MAX_QUEUE_SIZE
    ensures Stuck(HandleReceived(x, ipc[0]), ipc[1..])
  {
  }

  lemma JammedStep(s: State, e: End, step: Step)
    requires |At(s, e).out| <= MAX_QUEUE_SIZE && Jammed(s, e) && Enabled(s, step)
    ensures Jammed(Apply(s, step), e)
  {
    match step
    case PushStep(_, _) => PushStuck(s, e, step);
    case ReadStep(_) => ReadStepStuck(s, e, step);
    case _ => OtherStepStuck(s, e, step);
  }

  lemma ReadKeepsIpc(x: EndState, w: Wire)
    ensures HandleReceived(x, w).ipc == x.ipc
  {
  }

  lemma ReadStepStuck(s: State, e: End, step: Step)
    requires |At(s, e).out| <= MAX_QUEUE_SIZE && Jammed(s, e) && Enabled(s, step) && step.ReadStep?
    ensures Jammed(Apply(s, step), e)
  {
    if step.e == e {
      ReadStuck(At(s, e), At(s, Other(e)).ipc);
    } else {
      ReadKeepsIpc(At(s, step.e), At(s, e).ipc[0]);
    }
  }

  lemma PushStuck(s: State, e: End, step: Step)
    requires Jammed(s, e) && Enabled(s, step) && step.PushStep?
    ensures Jammed(Apply(s, step), e)
  {
    if step.e != e {
      UsersAheadAppend(At(s, Other(e)).ipc, At(s, Other(e)).sending[step.i]);
    }
  }

  lemma OtherStepStuck(s: State, e: End, step: Step)
    requires Jammed(s, e) && Enabled(s, step) && !step.PushStep? && !step.ReadStep?
    ensures Jammed(Apply(s, step), e)
  {
  }

  /** Then the destructor hangs: in no run, whatever else happens, does the read thread finish. */
  lemma {:induction false} JammedForever(s: State, e: End, steps: seq<Step>)
    requires Inv(s) && Jammed(s, e) && Valid(s, steps)
    ensures Jammed(After(s, steps), e)
    decreases |steps|
  {
    if |steps| > 0 {
      assert Local(At(s, e));
      JammedStep(s, e, steps[0]);
      StepInv(s, steps[0]);
      JammedForever(Apply(s, steps[0]), e, steps[1..]);
    }
  }

  lemma DestroyJams(s: State, e: End)
    requires Inv(s) && Enabled(s, DestroyStep(e)) && Unread(s, e) > MAX_QUEUE_SIZE
    ensures Jammed(Apply(s, DestroyStep(e)), e)
  {
    var x, y := At(s, e), At(s, Other(e));
    UnreadAreQueued(s, e);
    assert StopsRight(x, y);
    NoShutdownAhead(y.ipc);
    UsersCount(y.ipc);
    UsersAheadAppend(y.ipc, ShutdownQueues);
  }

  ghost predicate CanExit(s: State, e: End) {
    exists steps :: Valid(s, steps) && At(After(s, steps), e).exited
  }

  /** A run that lets e finish: the peer receives, drops and acknowledges, and holds back what it has half sent. */
  lemma {:induction false} FinishingRun(s: State, e: End) returns (steps: seq<Step>)
    requires Inv(s) && GoingDown(s, e) && FitsBeforeShutdown(At(s, e), At(s, Other(e)))
    ensures Valid(s, steps) && At(After(s, steps), e).exited
    decreases Measure(s)
  {
    if At(s, e).exited {
      return [];
    }
    assert Local(At(s, e));
    var step := DrainGoesOn(s, e);
    StepInv(s, step);
    DrainShrinks(s, e, step);
    DrainKeepsUp(s, e, step);
    DrainKeepsFit(s, e, step);
    var rest := FinishingRun(Apply(s, step), e);
    Prepend(s, step, rest);
    steps := [step] + rest;
  }

  /**
    A queue is destroyed while its peer is up. Its read thread can finish, so that the destructor
    returns, if and only if no more messages are unread than out_queue_ holds.
   */
  lemma DestroyFinishesIff(s: State, e: End)
    requires Inv(s) && Enabled(s, DestroyStep(e)) && !At(s, Other(e)).destroying
    ensures CanExit(Apply(s, DestroyStep(e)), e) <==> Unread(s, e) <= MAX_QUEUE_SIZE
  {
    var t := Apply(s, DestroyStep(e));
    StepInv(s, DestroyStep(e));
    if Unread(s, e) <= MAX_QUEUE_SIZE {
      DestroyFits(s, e);
      var steps := FinishingRun(t, e);
    } else {
      DestroyJams(s, e);
      forall steps | Valid(t, steps)
        ensures !At(After(t, steps), e).exited
      {
        JammedForever(t, e, steps);
      }
    }
  }

  // ---------------------------------------------------------------- A run that jams

  function Unheard(n: nat): seq<Wire> {
    seq(n, i requires 0 <= i < n => User(0, i, false, {}))
  }

  /** The worker has sent n messages, and all wait in the out queue of the main process. */
  function Filled(n: nat): State {
    INIT.(main := INIT_END.(out := Unheard(n)), worker := INIT_END.(nextId := n, sent := Unheard(n)))
  }

  function Pushed(n: nat): State {
    Filled(n).(worker := INIT_END.(nextId := n + 1, sent := Unheard(n + 1), ipc := [User(0, n, false, {})]))
  }

  lemma SendPush(n: nat, rest: seq<Step>)
    requires Valid(Pushed(n), rest)
    ensures var steps := [SendStep(Worker, 0, None)] + ([PushStep(Worker, 0)] + rest);
            Valid(Filled(n), steps) && After(Filled(n), steps) == After(Pushed(n), rest)
  {
    var w := User(0, n, false, {});
    var sent := Apply(Filled(n), SendStep(Worker, 0, None));
    assert sent == Filled(n).(worker := INIT_END.(nextId := n + 1, sent := Unheard(n), sending := [w]));
    assert Users([w]) == [w] && Remove([w], 0) == [] && Unheard(n) + [w] == Unheard(n + 1);
    assert Apply(sent, PushStep(Worker, 0)) == Pushed(n);
    Prepend(sent, PushStep(Worker, 0), rest);
    Prepend(Filled(n), SendStep(Worker, 0, None), [PushStep(Worker, 0)] + rest);
  }

  lemma ReadDeliver(n: nat, rest: seq<Step>)
    requires n < MAX_QUEUE_SIZE && Valid(Filled(n + 1), rest)
    ensures var steps := [ReadStep(Main)] + ([DeliverStep(Main)] + rest);
            Valid(Pushed(n), steps) && After(Pushed(n), steps) == After(Filled(n + 1), rest)
  {
    var w := User(0, n, false, {});
    var read := Apply(Pushed(n), ReadStep(Main));
    assert [w][1..] == [] && Unheard(n) + [w] == Unheard(n + 1);
    assert read == Filled(n + 1).(main := INIT_END.(out := Unheard(n), blocked := [w]));
    assert Apply(read, DeliverStep(Main)) == Filled(n + 1);
    Prepend(read, DeliverStep(Main), rest);
    Prepend(Pushed(n), ReadStep(Main), [DeliverStep(Main)] + rest);
  }

  lemma {:induction false} FillFrom(n: nat) returns (steps: seq<Step>)
    requires n <= MAX_QUEUE_SIZE
    ensures Valid(Filled(n), steps) && After(Filled(n), steps) == Pushed(MAX_QUEUE_SIZE)
    decreases MAX_QUEUE_SIZE - n
  {
    if n == MAX_QUEUE_SIZE {
      SendPush(n, []);
      steps := [SendStep(Worker, 0, None)] + ([PushStep(Worker, 0)] + []);
    } else {
      var rest := FillFrom(n + 1);
      ReadDeliver(n, rest);
      rest := [ReadStep(Main)] + ([DeliverStep(Main)] + rest);
      SendPush(n, rest);
      steps := [SendStep(Worker, 0, None)] + ([PushStep(Worker, 0)] + rest);
    }
  }

  /** A run at whose end the main process may destroy its queue with 21 messages unread, and never gets out. */
  lemma JamReachable() returns (steps: seq<Step>)
    ensures Valid(INIT, steps)
    ensures var s := After(INIT, steps);
            && Enabled(s, DestroyStep(Main)) && !s.worker.destroying && Unread(s, Main) == MAX_QUEUE_SIZE + 1
            && !CanExit(Apply(s, DestroyStep(Main)), Main)
  {
    assert Unheard(0) == [];
    assert Filled(0) == INIT;
    steps := FillFrom(0);
    InitInv();
    RunKeepsInv(INIT, steps);
    DestroyFinishesIff(After(INIT, steps), Main);
  }

  /**
    In every run: once shutdown has begun the out queue is not empty, so a thread that waits in
    recv_message finds a message and wakes up.
   */
  lemma ShutdownWakesReceiver(steps: seq<Step>, e: End)
    requires Valid(INIT, steps) && At(After(INIT, steps), e).shutdownStarted
    ensures At(After(INIT, steps), e).out != []
  {
    InitInv();
    RunKeepsInv(INIT, steps);
    assert Local(At(After(INIT, steps), e));
  }

  /** The read loop stops only when nothing is in transit, and a heartbeat never hides the last DONE. */
  lemma ReadLoopStopsRight(steps: seq<Step>, e: End)
    requires Valid(INIT, steps)
    ensures var x := At(After(INIT, steps), e);
            && (x.exited ==> x.inTransit == map[])
            && (x.shutdownStarted && x.blocked == [] && x.inTransit == map[] ==> x.exited)
  {
    InitInv();
    RunKeepsInv(INIT, steps);
    var s := After(INIT, steps);
    assert StopsRight(At(s, e), At(s, Other(e)));
    if |At(s, e).inTransit| == 0 {
      assert At(s, e).inTransit.Keys == {};
    }
  }
}

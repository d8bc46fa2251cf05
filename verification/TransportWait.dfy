/**
  Shutting one queue down while the user code of its peer waits for just that: the peer's read and
  heartbeat threads go on, but it receives, drops and sends nothing.
 */
module TransportWait {
  import opened Transport
  import opened TransportInv
  import opened TransportTheorems
  import opened TransportShutdown

  predicate PeerWaits(step: Step, e: End) {
    match step
    case SendStep(f, _, _) => f == e
    case RecvStep(f) => f == e
    case DropStep(f, _) => f == e
    case DestroyStep(f) => f == e
    case _ => true
  }

  ghost predicate CanExitAlone(s: State, e: End) {
    exists steps :: Valid(s, steps) && (forall step <- steps :: PeerWaits(step, e)) && At(After(s, steps), e).exited
  }

  /** How many messages of x with this id are still to be acknowledged by user code of y. */
  function Unreleased(x: EndState, y: EndState, id: MsgId): nat {
    Requiring(x.ipc, id) + Requiring(y.blocked, id) + Requiring(y.out, id) + Requiring(y.held, id)
  }

  ghost predicate AllReleased(x: EndState, y: EndState) {
    forall id: MsgId :: Unreleased(x, y, id) == 0
  }

  // ------------------------------------------------------------ A message that nobody releases

  lemma ReadUnreleased(x: EndState, y: EndState, id: MsgId)
    requires x.ipc != [] && y.blocked == []
    ensures Unreleased(Behead(x), HandleReceived(y, x.ipc[0]), id) == Unreleased(x, y, id)
  {
    BeheadCounts(x, id);
    ReceivedCounts(y, x.ipc[0], id);
  }

  lemma OwnReadUnreleased(x: EndState, y: EndState, id: MsgId)
    requires y.ipc != [] && x.blocked == []
    ensures Unreleased(HandleReceived(x, y.ipc[0]), Behead(y), id) == Unreleased(x, y, id)
  {
  }

  lemma DeliverUnreleased(x: EndState, y: EndState, id: MsgId)
    requires |y.blocked| == 1
    ensures Unreleased(x, Deliver(y), id) == Unreleased(x, y, id)
  {
    CountConcat(y.out, y.blocked, id);
  }

  lemma PushUnreleased(x: EndState, y: EndState, i: nat, id: MsgId)
    requires i < |x.sending|
    ensures Unreleased(Push(x, i), y, id) >= Unreleased(x, y, id)
  {
    CountConcat(x.ipc, [x.sending[i]], id);
  }

  /** While the peer waits, a message it has not released stays unreleased. */
  lemma WaitKeepsUnreleased(s: State, e: End, step: Step, id: MsgId)
    requires Enabled(s, step) && PeerWaits(step, e) && At(s, e).destroying
    ensures Unreleased(At(Apply(s, step), e), At(Apply(s, step), Other(e)), id)
            >= Unreleased(At(s, e), At(s, Other(e)), id)
    ensures At(Apply(s, step), e).destroying
  {
    var x, y := At(s, e), At(s, Other(e));
    match step
    case PushStep(f, i) => if f == e { PushUnreleased(x, y, i, id); }
    case ReadStep(f) => if f == e { OwnReadUnreleased(x, y, id); } else { ReadUnreleased(x, y, id); }
    case DeliverStep(f) => if f != e { DeliverUnreleased(x, y, id); }
    case _ => QuietUnreleased(s, e, step, id);
  }

  lemma QuietUnreleased(s: State, e: End, step: Step, id: MsgId)
    requires Enabled(s, step) && PeerWaits(step, e) && At(s, e).destroying
    requires !step.PushStep? && !step.ReadStep? && !step.DeliverStep?
    ensures Unreleased(At(Apply(s, step), e), At(Apply(s, step), Other(e)), id)
            == Unreleased(At(s, e), At(s, Other(e)), id)
    ensures At(Apply(s, step), e).destroying
  {
  }

  lemma {:induction false} NeverReleased(s: State, e: End, steps: seq<Step>, id: MsgId)
    requires Inv(s) && Valid(s, steps) && (forall step <- steps :: PeerWaits(step, e)) && At(s, e).destroying
    requires Unreleased(At(s, e), At(s, Other(e)), id) > 0
    ensures !At(After(s, steps), e).exited
    decreases |steps|
  {
    if |steps| == 0 {
      var x, y := At(s, e), At(s, Other(e));
      assert Conserved(x, y) && StopsRight(x, y);
      assert Tokens(x, y, id) == if id in x.inTransit then 1 else 0;
    } else {
      StepInv(s, steps[0]);
      WaitKeepsUnreleased(s, e, steps[0], id);
      NeverReleased(Apply(s, steps[0]), e, steps[1..], id);
    }
  }

  // ------------------------------------------------------------- Nothing left to be released

  /** With everything released, the read thread of e and the peer's pending DONEs are all that is needed. */
  lemma AloneGoesOn(s: State, e: End) returns (step: Step)
    requires Inv(s) && At(s, e).destroying && !At(s, e).exited && AllReleased(At(s, e), At(s, Other(e)))
    requires At(s, e).blocked != [] ==> |At(s, e).out| < MAX_QUEUE_SIZE
    ensures Enabled(s, step) && IsDrain(step, e) && !step.BeatStep? && SendsNoUser(s, e, step) && PeerWaits(step, e)
  {
    var o := Other(e);
    var x, y := At(s, e), At(s, o);
    assert StopsRight(x, y) && Local(x) && Conserved(x, y);
    if x.blocked != [] {
      return DeliverStep(e);
    }
    if y.ipc != [] {
      return ReadStep(e);
    }
    assert x.shutdownStarted;
    var id :| id in x.inTransit;
    assert Tokens(x, y, id) == 1 && Unreleased(x, y, id) == 0;
    AckingMember(y.sending, id);
    var i :| 0 <= i < |y.sending| && y.sending[i] == Done(id);
    return PushStep(o, i);
  }

  /** Nothing that goes on meanwhile leaves another message to be released. */
  lemma AloneKeepsReleased(s: State, e: End, step: Step)
    requires Enabled(s, step) && IsDrain(step, e) && PeerWaits(step, e)
    requires At(s, e).sending == [] && AllReleased(At(s, e), At(s, Other(e)))
    ensures AllReleased(At(Apply(s, step), e), At(Apply(s, step), Other(e)))
  {
    var x, y := At(s, e), At(s, Other(e));
    forall id: MsgId
      ensures Unreleased(At(Apply(s, step), e), At(Apply(s, step), Other(e)), id) == 0
    {
      assert Unreleased(x, y, id) == 0;
      match step
      case ReadStep(f) => if f == e { OwnReadUnreleased(x, y, id); } else { ReadUnreleased(x, y, id); }
      case DeliverStep(f) => if f != e { DeliverUnreleased(x, y, id); }
      case _ =>
    }
  }

  lemma {:induction false} AloneRun(s: State, e: End) returns (steps: seq<Step>)
    requires Inv(s) && At(s, e).destroying && FitsBeforeShutdown(At(s, e), At(s, Other(e)))
    requires AllReleased(At(s, e), At(s, Other(e)))
    ensures Valid(s, steps) && (forall step <- steps :: PeerWaits(step, e)) && At(After(s, steps), e).exited
    decreases Measure(s)
  {
    if At(s, e).exited {
      return [];
    }
    assert Local(At(s, e));
    var step := AloneGoesOn(s, e);
    StepInv(s, step);
    DrainShrinks(s, e, step);
    DrainKeepsUp(s, e, step);
    DrainKeepsFit(s, e, step);
    AloneKeepsReleased(s, e, step);
    var rest := AloneRun(Apply(s, step), e);
    Prepend(s, step, rest);
    steps := [step] + rest;
  }

  /**
    A queue is destroyed while the user code of its peer waits, or is gone. Its read thread can finish if
    and only if it has at most as many unread messages as out_queue_ holds, and none of the messages it
    has sent waits to be released by that user code.
   */
  lemma ExitsAloneIff(s: State, e: End)
    requires Inv(s) && Enabled(s, DestroyStep(e))
    ensures CanExitAlone(Apply(s, DestroyStep(e)), e)
            <==> Unread(s, e) <= MAX_QUEUE_SIZE && AllReleased(At(s, e), At(s, Other(e)))
  {
    var t := Apply(s, DestroyStep(e));
    StepInv(s, DestroyStep(e));
    SameUnreleased(s, e);
    if Unread(s, e) > MAX_QUEUE_SIZE {
      DestroyJams(s, e);
      forall steps | Valid(t, steps)
        ensures !At(After(t, steps), e).exited
      {
        JammedForever(t, e, steps);
      }
    } else if !AllReleased(At(s, e), At(s, Other(e))) {
      var id: MsgId :| Unreleased(At(s, e), At(s, Other(e)), id) != 0;
      forall steps | Valid(t, steps) && forall step <- steps :: PeerWaits(step, e)
        ensures !At(After(t, steps), e).exited
      {
        NeverReleased(t, e, steps, id);
      }
    } else {
      DestroyFits(s, e);
      var steps := AloneRun(t, e);
    }
  }

  lemma SameUnreleased(s: State, e: End)
    requires Enabled(s, DestroyStep(e))
    ensures var t := Apply(s, DestroyStep(e));
            forall id: MsgId :: Unreleased(At(t, e), At(t, Other(e)), id) == Unreleased(At(s, e), At(s, Other(e)), id)
  {
  }

  // ------------------------------------------------------------------- In whatever order

  /** e is going down, everything it has sent is released, and its out queue has room for what may still come. */
  ghost predicate CanFinishAlone(s: State, e: End) {
    var x, y := At(s, e), At(s, Other(e));
    x.destroying && HasRoom(x, y) && AllReleased(x, y)
  }

  ghost predicate AllDrainAlone(steps: seq<Step>, e: End) {
    forall step <- steps :: IsDrain(step, e) && PeerWaits(step, e)
  }

  /** A queue destroyed with room and with everything released is in such a state. */
  lemma DestroyFinishesAlone(s: State, e: End)
    requires Inv(s) && Enabled(s, DestroyStep(e)) && AllReleased(At(s, e), At(s, Other(e)))
    requires Unread(s, e) + ForOut(At(s, Other(e)).sending) < MAX_QUEUE_SIZE
             || (Unread(s, e) <= MAX_QUEUE_SIZE && Users(At(s, Other(e)).sending) == [])
    ensures CanFinishAlone(Apply(s, DestroyStep(e)), e)
  {
    DestroyLeavesRoom(s, e);
    SameUnreleased(s, e);
  }

  /**
    Then shutdown completes without the peer's user code, in whatever order the threads go on: apart from
    the peer's heartbeats, and two steps for each of them, it takes boundedly many steps, and it does not
    end before e has finished.
   */
  lemma {:induction false} AloneCompletes(s: State, e: End, steps: seq<Step>)
    requires Inv(s) && CanFinishAlone(s, e) && Valid(s, steps) && AllDrainAlone(steps, e)
    ensures |steps| - Beats(steps) <= Measure(s) + 2 * Beats(steps)
    ensures var t := After(s, steps);
            At(t, e).exited
            || exists step :: IsDrain(step, e) && PeerWaits(step, e) && Enabled(t, step) && !step.BeatStep?
    decreases |steps|
  {
    assert Local(At(s, e));
    if |steps| == 0 {
      if !At(s, e).exited {
        var step := AloneGoesOn(s, e);
      }
    } else {
      StepInv(s, steps[0]);
      DrainShrinks(s, e, steps[0]);
      DrainKeepsUp(s, e, steps[0]);
      DrainKeepsRoom(s, e, steps[0]);
      AloneKeepsReleased(s, e, steps[0]);
      AloneCompletes(Apply(s, steps[0]), e, steps[1..]);
    }
  }

  // ------------------------------------------------------------------- After the peer

  /** A peer whose queue has been destroyed has no user code left that could do anything. */
  lemma PeerGone(s: State, e: End, step: Step)
    requires Local(At(s, Other(e))) && At(s, Other(e)).destroying && Enabled(s, step)
    ensures PeerWaits(step, e) && At(Apply(s, step), Other(e)).destroying
  {
  }

  lemma {:induction false} PeerStaysGone(s: State, e: End, steps: seq<Step>)
    requires Inv(s) && At(s, Other(e)).destroying && Valid(s, steps)
    ensures forall step <- steps :: PeerWaits(step, e)
    decreases |steps|
  {
    if |steps| > 0 {
      assert Local(At(s, Other(e)));
      PeerGone(s, e, steps[0]);
      StepInv(s, steps[0]);
      PeerStaysGone(Apply(s, steps[0]), e, steps[1..]);
    }
  }

  /**
    A queue is destroyed after its peer. Its read thread can finish, in whatever run, if and only if it
    has at most as many unread messages as out_queue_ holds and the peer has left none unreleased.
   */
  lemma DestroyAfterPeerIff(s: State, e: End)
    requires Inv(s) && Enabled(s, DestroyStep(e)) && At(s, Other(e)).destroying
    ensures CanExit(Apply(s, DestroyStep(e)), e)
            <==> Unread(s, e) <= MAX_QUEUE_SIZE && AllReleased(At(s, e), At(s, Other(e)))
  {
    var t := Apply(s, DestroyStep(e));
    StepInv(s, DestroyStep(e));
    ExitsAloneIff(s, e);
    forall steps | Valid(t, steps)
      ensures forall step <- steps :: PeerWaits(step, e)
    {
      PeerStaysGone(t, e, steps);
    }
  }
}

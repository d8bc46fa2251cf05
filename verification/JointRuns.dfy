/**
  Every run of the protocol can happen on the queues, in particular one after which the backend waits
  for a worker that never exits.
 */
module JointRuns {
  import Control
  import P = Protocol
  import PT = ProtocolTheorems
  import T = Transport
  import TT = TransportTheorems
  import TW = TransportWait
  import opened Joint
  import opened JointShutdown
  import opened Wrappers

  /** All that has been sent is in an out queue, and nothing is held. */
  predicate Still(x: T.EndState) {
    && x.sending == [] && x.ipc == [] && x.blocked == [] && x.held == []
    && !x.shutdownStarted && !x.exited && !x.destroying
  }

  ghost predicate Settled(s: State) {
    Inv(s) && Still(s.net.main) && Still(s.net.worker)
  }

  /** In a settled state the out queue of o is the channel to it. */
  lemma SettledOut(s: State, o: T.End)
    requires Settled(s)
    ensures |T.At(s.net, o).out| == |InFlight(s.proto, T.Other(o))| <= 2 && forall w <- T.At(s.net, o).out :: w.User?
  {
    var e := T.Other(o);
    FewInFlight(s.proto);
    Ordered(s.net, e);
    UnreceivedIs(T.At(s.net, e), T.At(s.net, o));
    ShutdownOnlyDestroying(s.net, o);
    AllUsers(T.At(s.net, o).out);
    assert Coupled(s, e);
  }

  // --------------------------------------------------------------- One message from end to end

  /** The message that e is sending has arrived. */
  function Conveyed(net: T.State, e: T.End, w: T.Wire): T.State {
    var o := T.Other(e);
    T.With(T.With(net, e, T.At(net, e).(sending := [], sent := T.At(net, e).sent + [w])),
           o, T.At(net, o).(out := T.At(net, o).out + [w]))
  }

  predicate Sending(net: T.State, e: T.End, w: T.Wire) {
    && w.User? && T.At(net, e).sending == [w] && Still(T.At(net, e).(sending := [])) && Still(T.At(net, T.Other(e)))
    && |T.At(net, T.Other(e)).out| < T.MAX_QUEUE_SIZE
  }

  lemma ConveyPush(net: T.State, e: T.End, w: T.Wire)
    requires Sending(net, e, w)
    ensures T.Enabled(net, T.PushStep(e, 0))
    ensures T.Apply(net, T.PushStep(e, 0))
            == T.With(net, e, T.At(net, e).(sending := [], ipc := [w], sent := T.At(net, e).sent + [w]))
  {
    assert Remove([w], 0) == [] && T.Users([w]) == [w] && [] + [w] == [w];
  }

  lemma ConveyRead(net: T.State, e: T.End, w: T.Wire)
    requires w.User? && T.At(net, e).ipc == [w] && Still(T.At(net, T.Other(e)))
    ensures T.Enabled(net, T.ReadStep(T.Other(e)))
    ensures T.Apply(net, T.ReadStep(T.Other(e)))
            == T.With(T.With(net, e, T.At(net, e).(ipc := [])), T.Other(e), T.At(net, T.Other(e)).(blocked := [w]))
  {
  }

  lemma ConveyDeliver(net: T.State, o: T.End, w: T.Wire)
    requires T.At(net, o).blocked == [w] && |T.At(net, o).out| < T.MAX_QUEUE_SIZE && Still(T.At(net, o).(blocked := []))
    ensures T.Enabled(net, T.DeliverStep(o))
    ensures T.Apply(net, T.DeliverStep(o))
            == T.With(net, o, T.At(net, o).(blocked := [], out := T.At(net, o).out + [w]))
  {
  }

  function ConveySteps(e: T.End): seq<Step> {
    [Net(T.PushStep(e, 0))] + ([Net(T.ReadStep(T.Other(e)))] + ([Net(T.DeliverStep(T.Other(e)))] + []))
  }

  lemma Convey(s: State, e: T.End, w: T.Wire)
    requires Sending(s.net, e, w)
    ensures Valid(s, ConveySteps(e)) && After(s, ConveySteps(e)) == s.(net := Conveyed(s.net, e, w))
  {
    var o := T.Other(e);
    ConveyPush(s.net, e, w);
    var pushed := Apply(s, Net(T.PushStep(e, 0)));
    ConveyRead(pushed.net, e, w);
    var read := Apply(pushed, Net(T.ReadStep(o)));
    ConveyDeliver(read.net, o, w);
    var delivered := Apply(read, Net(T.DeliverStep(o)));
    assert delivered == s.(net := Conveyed(s.net, e, w));
    Prepend(read, Net(T.DeliverStep(o)), []);
    Prepend(pushed, Net(T.ReadStep(o)), [Net(T.DeliverStep(o))] + []);
    Prepend(s, Net(T.PushStep(e, 0)), [Net(T.ReadStep(o))] + ([Net(T.DeliverStep(o))] + []));
  }

  /** A message that o has received is dropped, and acknowledged if that is required. */
  function ReleaseSteps(o: T.End, w: T.Wire): seq<Step>
    requires w.User?
  {
    [Net(T.DropStep(o, 0))]
    + if w.requiresDone then [Net(T.PushStep(o, 0))] + ([Net(T.ReadStep(T.Other(o)))] + []) else []
  }

  lemma DropEffect(net: T.State, o: T.End, w: T.Wire)
    requires w.User? && T.At(net, o).held == [w] && T.At(net, o).sending == []
    ensures T.Enabled(net, T.DropStep(o, 0))
    ensures T.Apply(net, T.DropStep(o, 0))
            == T.With(net, o, T.At(net, o).(held := [], sending := if w.requiresDone then [T.Done(w.id)] else []))
  {
    assert Remove([w], 0) == [] && [] + [T.Done(w.id)] == [T.Done(w.id)];
  }

  lemma PushDone(net: T.State, o: T.End, d: T.Wire)
    requires d.Done? && T.At(net, o).sending == [d] && T.At(net, o).ipc == []
    ensures T.Enabled(net, T.PushStep(o, 0))
    ensures T.Apply(net, T.PushStep(o, 0)) == T.With(net, o, T.At(net, o).(sending := [], ipc := [d]))
  {
    assert Remove([d], 0) == [] && T.Users([d]) == [] && [] + [d] == [d];
    assert T.At(net, o).sent + [] == T.At(net, o).sent;
  }

  lemma ReadDone(net: T.State, o: T.End, d: T.Wire)
    requires d.Done? && T.At(net, o).ipc == [d] && Still(T.At(net, T.Other(o)))
    ensures T.Enabled(net, T.ReadStep(T.Other(o)))
    ensures var after := T.Apply(net, T.ReadStep(T.Other(o)));
            && T.At(after, o) == T.At(net, o).(ipc := []) && Still(T.At(after, T.Other(o)))
            && T.At(after, T.Other(o)).out == T.At(net, T.Other(o)).out
  {
  }

  lemma Release(s: State, o: T.End, w: T.Wire)
    requires w.User? && T.At(s.net, o).held == [w] && Still(T.At(s.net, o).(held := []))
    requires Still(T.At(s.net, T.Other(o)))
    ensures Valid(s, ReleaseSteps(o, w))
    ensures var t := After(s, ReleaseSteps(o, w));
            t.proto == s.proto && Still(t.net.main) && Still(t.net.worker)
  {
    DropEffect(s.net, o, w);
    var dropped := Apply(s, Net(T.DropStep(o, 0)));
    if w.requiresDone {
      PushDone(dropped.net, o, T.Done(w.id));
      var pushed := Apply(dropped, Net(T.PushStep(o, 0)));
      ReadDone(pushed.net, o, T.Done(w.id));
      var read := Apply(pushed, Net(T.ReadStep(T.Other(o))));
      Prepend(pushed, Net(T.ReadStep(T.Other(o))), []);
      Prepend(dropped, Net(T.PushStep(o, 0)), [Net(T.ReadStep(T.Other(o)))] + []);
      Prepend(s, Net(T.DropStep(o, 0)), [Net(T.PushStep(o, 0))] + ([Net(T.ReadStep(T.Other(o)))] + []));
    } else {
      Prepend(s, Net(T.DropStep(o, 0)), []);
    }
  }

  // ------------------------------------------------------------- Every step of the protocol

  /** A moved payload is kept, though it may own no shared memory; nothing is spilled. */
  function KeptOf(ms: seq<P.Msg>): T.Kept {
    if ms != [] && (ms[0].AddInput? || ms[0].ReturnOutput?) then Some({}) else None
  }

  lemma OneCall(p: P.State, step: P.Step)
    requires P.Enabled(p, step) && CallStep(step)
    ensures |Sent(p, step, T.Main)| <= 1
  {
  }

  lemma OneReply(p: P.State, outcome: P.Outcome)
    requires P.Enabled(p, P.WorkerHandleStep(outcome))
    ensures |Sent(p, P.WorkerHandleStep(outcome), T.Worker)| <= 1
    ensures forall m <- Sent(p, P.WorkerHandleStep(outcome), T.Worker) :: DoneFits(m, KeptOf([m]).Some?)
  {
  }

  lemma CanEmitSettled(s: State, e: T.End, ms: seq<P.Msg>)
    requires Settled(s) && |ms| <= 1
    ensures CanEmit(s, e, ms, KeptOf(ms))
    ensures var t := Emit(s, e, ms, KeptOf(ms));
            if ms == [] then t.net == s.net
            else Sending(t.net, e, TT.SentWire(s.net, e, |LogOf(s, e)|, KeptOf(ms)))
  {
    SettledOut(s, T.Other(e));
    assert T.Users([]) == [];
    if ms != [] {
      SendEffect(s.net, e, |LogOf(s, e)|, KeptOf(ms));
    }
  }

  /** A step that may send one message, and the message's way to the other end. */
  lemma RealiseEmit(s: State, step: Step, e: T.End, ms: seq<P.Msg>, p: P.State) returns (steps: seq<Step>)
    requires Settled(s) && |ms| <= 1 && CanEmit(s, e, ms, KeptOf(ms))
    requires Enabled(s, step) && Apply(s, step) == Emit(s, e, ms, KeptOf(ms)).(proto := p)
    ensures Valid(s, steps) && Settled(After(s, steps)) && After(s, steps).proto == p
  {
    CanEmitSettled(s, e, ms);
    var t := Apply(s, step);
    if ms == [] {
      Prepend(s, step, []);
      steps := [step] + [];
    } else {
      var w := TT.SentWire(s.net, e, |LogOf(s, e)|, KeptOf(ms));
      Convey(t, e, w);
      Prepend(s, step, ConveySteps(e));
      steps := [step] + ConveySteps(e);
    }
    RunInv(s, steps);
  }

  lemma RecvHolds(net: T.State, o: T.End)
    requires T.Enabled(net, T.RecvStep(o)) && Still(T.At(net, o)) && Still(T.At(net, T.Other(o)))
    ensures var after := T.Apply(net, T.RecvStep(o));
            && T.At(after, o).held == [T.At(net, o).out[0]]
            && Still(T.At(after, o).(held := [])) && Still(T.At(after, T.Other(o)))
  {
    assert T.At(net, o).out[..1] == [T.At(net, o).out[0]] && [] + [T.At(net, o).out[0]] == [T.At(net, o).out[0]];
  }

  /** A received message is handed to the protocol and then dropped. */
  lemma RealiseReceive(s: State, step: Step, o: T.End, p: P.State) returns (steps: seq<Step>)
    requires Settled(s) && T.At(s.net, o).out != []
    requires Enabled(s, step) && Apply(s, step) == s.(proto := p, net := T.Apply(s.net, T.RecvStep(o)))
    requires T.Enabled(s.net, T.RecvStep(o)) && T.At(s.net, o).out[0].User?
    ensures Valid(s, steps) && Settled(After(s, steps)) && After(s, steps).proto == p
  {
    var w := T.At(s.net, o).out[0];
    var t := Apply(s, step);
    RecvHolds(s.net, o);
    Release(t, o, w);
    Prepend(s, step, ReleaseSteps(o, w));
    steps := [step] + ReleaseSteps(o, w);
    RunInv(s, steps);
  }

  lemma HeadReceivable(s: State, o: T.End)
    requires Still(T.At(s.net, o)) && T.At(s.net, o).out != [] && T.At(s.net, o).out[0].User?
    ensures CanReceive(s, o)
  {
    assert T.Users([]) == [];
  }

  lemma SettledStill(s: State, o: T.End)
    requires Settled(s)
    ensures Still(T.At(s.net, o))
  {
  }

  lemma CanReceiveSettled(s: State, o: T.End)
    requires Settled(s) && InFlight(s.proto, T.Other(o)) != []
    ensures CanReceive(s, o)
  {
    SettledOut(s, o);
    SettledStill(s, o);
    HeadReceivable(s, o);
  }

  lemma RealiseStep(s: State, step: P.Step) returns (steps: seq<Step>)
    requires Settled(s) && P.Enabled(s.proto, step)
    ensures Valid(s, steps) && Settled(After(s, steps)) && After(s, steps).proto == P.Apply(s.proto, step)
  {
    var p := P.Apply(s.proto, step);
    match step
    case MainReceiveStep(fails) =>
      CanReceiveSettled(s, T.Main);
      steps := RealiseReceive(s, MainReceives(fails), T.Main, p);
    case WorkerReceiveStep =>
      CanReceiveSettled(s, T.Worker);
      steps := RealiseReceive(s, WorkerReceives, T.Worker, p);
    case WorkerHandleStep(outcome) =>
      var ms := Sent(s.proto, step, T.Worker);
      OneReply(s.proto, outcome);
      CanEmitSettled(s, T.Worker, ms);
      steps := RealiseEmit(s, WorkerHandles(outcome, KeptOf(ms)), T.Worker, ms, p);
    case _ =>
      var ms := Sent(s.proto, step, T.Main);
      OneCall(s.proto, step);
      CanEmitSettled(s, T.Main, ms);
      steps := RealiseEmit(s, MainCalls(step, KeptOf(ms)), T.Main, ms, p);
  }

  lemma FirstStep(s: State, a: seq<Step>)
    requires Valid(s, a) && a != []
    ensures Enabled(s, a[0]) && Valid(Apply(s, a[0]), a[1..]) && After(s, a) == After(Apply(s, a[0]), a[1..])
  {
  }

  lemma {:induction false} Concat(s: State, a: seq<Step>, b: seq<Step>)
    requires Valid(s, a) && Valid(After(s, a), b)
    ensures Valid(s, a + b) && After(s, a + b) == After(After(s, a), b)
    decreases |a|
  {
    if a == [] {
      assert a + b == b && After(s, a) == s;
    } else {
      FirstStep(s, a);
      Concat(Apply(s, a[0]), a[1..], b);
      Prepend(s, a[0], a[1..] + b);
      assert a + b == [a[0]] + (a[1..] + b);
    }
  }

  /** Every run of the protocol is the protocol's part of a run on the queues, which ends settled. */
  lemma {:induction false} Realised(s: State, psteps: seq<P.Step>) returns (steps: seq<Step>)
    requires Settled(s) && PT.Valid(s.proto, psteps)
    ensures Valid(s, steps) && Settled(After(s, steps)) && After(s, steps).proto == PT.After(s.proto, psteps)
    decreases |psteps|
  {
    if |psteps| == 0 {
      steps := [];
    } else {
      var first := RealiseStep(s, psteps[0]);
      var rest := Realised(After(s, first), psteps[1..]);
      Concat(s, first, rest);
      steps := first + rest;
    }
  }

  lemma InitSettled(config: P.Config)
    ensures Settled(Init(config))
  {
    InitInv(config);
  }

  // ------------------------------------------------------------------- A run that hangs

  /** ADD_INPUT has thrown, INFER has not; the backend has consumed the EXCEPTION, and the reply is unread. */
  predicate ReplyLeft(s: P.State) {
    && s.main.pc == P.Idle && s.worker.status == P.Running && s.worker.current == None
    && s.toWorker == [] && |s.toMain| == 1 && s.toMain[0].ReturnOutput?
  }

  predicate Over(s: P.State) {
    && s.main.pc == P.Closed && s.worker.status == P.Stopped && |s.toMain| == 1 && s.toMain[0].ReturnOutput?
  }

  lemma Closes(s: P.State) returns (steps: seq<P.Step>)
    requires ReplyLeft(s)
    ensures PT.Valid(s, steps) && Over(PT.After(s, steps))
  {
    var s1 := P.Apply(s, P.CloseStep);
    assert s1.toWorker == [P.Shutdown];
    var s2 := P.Apply(s1, P.WorkerReceiveStep);
    assert s2.worker.current == Some(P.Shutdown);
    var s3 := P.Apply(s2, P.WorkerHandleStep(P.Finishes));
    assert s3.toMain == s.toMain;
    PT.Prepend(s2, P.WorkerHandleStep(P.Finishes), []);
    PT.Prepend(s1, P.WorkerReceiveStep, [P.WorkerHandleStep(P.Finishes)] + []);
    PT.Prepend(s, P.CloseStep, [P.WorkerReceiveStep] + ([P.WorkerHandleStep(P.Finishes)] + []));
    steps := [P.CloseStep] + ([P.WorkerReceiveStep] + ([P.WorkerHandleStep(P.Finishes)] + []));
  }

  /** The request has been sent and the worker is about to handle it. */
  predicate Requested(s: P.State, call: P.Call) {
    && s.main.pc == P.AwaitReply(call) && s.main.verifier == Control.Last(Control.INFER)
    && s.worker.status == P.Running && s.worker.current == Some(P.AddInput(call.inputs))
    && s.worker.verifier == Control.Last(Control.ADD_INPUT) && s.worker.neuropod.Some?
    && s.toWorker == [P.Infer(call.requested)] && s.toMain == []
  }

  lemma Requests(s: P.State, call: P.Call, rest: seq<P.Step>) returns (steps: seq<P.Step>)
    requires P.Ready(s)
    requires forall t :: Requested(t, call) ==> PT.Valid(t, rest) && ReplyLeft(PT.After(t, rest))
    ensures PT.Valid(s, steps) && ReplyLeft(PT.After(s, steps))
  {
    var s1 := P.Apply(s, P.InferStep(call, false));
    assert s1.main.pc == P.Added(call) && s1.toWorker == [P.AddInput(call.inputs)];
    var s2 := P.Apply(s1, P.SendInferStep(false));
    assert s2.main.pc == P.AwaitReply(call) && s2.toWorker == [P.AddInput(call.inputs), P.Infer(call.requested)];
    var s3 := P.Apply(s2, P.WorkerReceiveStep);
    assert Requested(s3, call);
    PT.Prepend(s2, P.WorkerReceiveStep, rest);
    PT.Prepend(s1, P.SendInferStep(false), [P.WorkerReceiveStep] + rest);
    PT.Prepend(s, P.InferStep(call, false), [P.SendInferStep(false)] + ([P.WorkerReceiveStep] + rest));
    steps := [P.InferStep(call, false)] + ([P.SendInferStep(false)] + ([P.WorkerReceiveStep] + rest));
  }

  const ADD_THROWS := P.WorkerHandleStep(P.Throws({}, false, false))

  function FailingSteps(): seq<P.Step> {
    [ADD_THROWS] + ([P.WorkerReceiveStep] + ([P.WorkerHandleStep(P.Finishes)] + ([P.MainReceiveStep(false)] + [])))
  }

  lemma Fails(s: P.State, call: P.Call)
    requires Requested(s, call)
    ensures PT.Valid(s, FailingSteps()) && ReplyLeft(PT.After(s, FailingSteps()))
  {
    var s1 := P.Apply(s, ADD_THROWS);
    assert s1.toMain == [P.Exception] && s1.toWorker == [P.Infer(call.requested)];
    var s2 := P.Apply(s1, P.WorkerReceiveStep);
    assert s2.worker.current == Some(P.Infer(call.requested)) && s2.toWorker == [];
    var s3 := P.Apply(s2, P.WorkerHandleStep(P.Finishes));
    assert |s3.toMain| == 2 && s3.toMain[0] == P.Exception && s3.toMain[1].ReturnOutput?;
    var s4 := P.Apply(s3, P.MainReceiveStep(false));
    assert ReplyLeft(s4);
    PT.Prepend(s3, P.MainReceiveStep(false), []);
    PT.Prepend(s2, P.WorkerHandleStep(P.Finishes), [P.MainReceiveStep(false)] + []);
    PT.Prepend(s1, P.WorkerReceiveStep, [P.WorkerHandleStep(P.Finishes)] + ([P.MainReceiveStep(false)] + []));
    PT.Prepend(s, ADD_THROWS,
                 [P.WorkerReceiveStep] + ([P.WorkerHandleStep(P.Finishes)] + ([P.MainReceiveStep(false)] + [])));
  }

  lemma SettledParts(s: State)
    requires Settled(s) && Over(s.proto)
    ensures Parting(s)
  {
  }

  /**
    For every call there is a run in which ADD_INPUT throws and INFER does not, and after which the
    backend waits for a worker that never exits.
   */
  lemma BackendHangs(config: P.Config, call: P.Call) returns (steps: seq<Step>)
    ensures Valid(Init(config), steps) && Parting(After(Init(config), steps))
    ensures !TW.CanExitAlone(Apply(After(Init(config), steps), WorkerLeaves).net, T.Worker)
  {
    InitSettled(config);
    PT.LoadAnswers(config);
    var a := Realised(Init(config), PT.LoadSteps());
    var ready := After(Init(config), a);
    forall t | Requested(t, call)
      ensures PT.Valid(t, FailingSteps()) && ReplyLeft(PT.After(t, FailingSteps()))
    {
      Fails(t, call);
    }
    var failing := Requests(ready.proto, call, FailingSteps());
    var b := Realised(ready, failing);
    var failed := After(ready, b);
    var closing := Closes(failed.proto);
    var c := Realised(failed, closing);
    Concat(ready, b, c);
    Concat(Init(config), a, b + c);
    steps := a + (b + c);
    SettledParts(After(Init(config), steps));
    UnreadReplyHangs(config, steps, 0);
  }
}

/**
  What happens after SHUTDOWN: the backend's user thread waits for the worker process, and the worker
  waits until everything it has sent is acknowledged.
 */
module JointShutdown {
  import P = Protocol
  import T = Transport
  import TI = TransportInv
  import TT = TransportTheorems
  import TS = TransportShutdown
  import TW = TransportWait
  import opened Joint

  predicate NoneRequires(ws: seq<T.Wire>) {
    forall w <- ws :: !(w.User? && w.requiresDone)
  }

  ghost predicate NoCount(ws: seq<T.Wire>) {
    forall id: T.MsgId :: TI.Requiring(ws, id) == 0
  }

  lemma {:induction false} RequiringNone(ws: seq<T.Wire>)
    ensures NoneRequires(ws) <==> NoCount(ws)
  {
    if ws != [] {
      assert ws == [ws[0]] + ws[1..];
      RequiringNone(ws[1..]);
      if ws[0].User? && ws[0].requiresDone {
        assert ws[0] in ws && !NoneRequires(ws);
        assert TI.Requiring(ws, ws[0].id) > 0 && !NoCount(ws);
      } else {
        forall id: T.MsgId
          ensures TI.Requiring(ws, id) == TI.Requiring(ws[1..], id)
        {
        }
        assert NoCount(ws) <==> NoCount(ws[1..]);
      }
    }
  }

  lemma {:induction false} UsersRequire(ws: seq<T.Wire>)
    ensures NoneRequires(T.Users(ws)) <==> NoneRequires(ws)
  {
    if ws != [] {
      assert ws == [ws[0]] + ws[1..];
      UsersRequire(ws[1..]);
    }
  }

  /** Nothing waits to be released by user code of y exactly when no message on the way requires it. */
  lemma ReleasedIff(x: T.EndState, y: T.EndState)
    requires TI.InOrder(x, y) && y.held == []
    ensures TW.AllReleased(x, y) <==> NoneRequires(Unreceived(x, y))
  {
    UnreceivedIs(x, y);
    RequiringNone(x.ipc);
    RequiringNone(y.blocked);
    RequiringNone(y.out);
    UsersRequire(x.ipc);
    UsersRequire(y.out);
    NoneOfThree(T.Users(y.out), y.blocked, T.Users(x.ipc));
    forall id: T.MsgId
      ensures TW.Unreleased(x, y, id) == TI.Requiring(x.ipc, id) + TI.Requiring(y.blocked, id) + TI.Requiring(y.out, id)
    {
    }
    if TW.AllReleased(x, y) {
      forall id: T.MsgId
        ensures TI.Requiring(x.ipc, id) == 0 && TI.Requiring(y.blocked, id) == 0 && TI.Requiring(y.out, id) == 0
      {
        assert TW.Unreleased(x, y, id) == 0;
      }
      assert NoCount(x.ipc) && NoCount(y.blocked) && NoCount(y.out);
    }
    if NoCount(x.ipc) && NoCount(y.blocked) && NoCount(y.out) {
      forall id: T.MsgId
        ensures TW.Unreleased(x, y, id) == 0
      {
        assert TI.Requiring(x.ipc, id) == 0 && TI.Requiring(y.blocked, id) == 0 && TI.Requiring(y.out, id) == 0;
      }
    }
  }

  lemma NoneOfThree(a: seq<T.Wire>, b: seq<T.Wire>, c: seq<T.Wire>)
    ensures NoneRequires(a + b + c) <==> NoneRequires(a) && NoneRequires(b) && NoneRequires(c)
  {
    forall w: T.Wire
      ensures w in a + b + c <==> w in a || w in b || w in c
    {
    }
  }

  /** The backend's user thread is in waitpid, and the worker's queue is about to be destroyed. */
  ghost predicate Parting(s: State) {
    s.proto.main.pc == P.Closed && s.net.main.held == [] && Enabled(s, WorkerLeaves)
  }

  /**
    In every run: after SHUTDOWN the worker process can exit, while the backend waits for just that, if
    and only if no message it has sent is both unread and to be acknowledged.
   */
  lemma WorkerExitsIff(config: P.Config, steps: seq<Step>)
    requires Valid(Init(config), steps) && Parting(After(Init(config), steps))
    ensures var s := After(Init(config), steps);
            TW.CanExitAlone(Apply(s, WorkerLeaves).net, T.Worker) <==> NoneRequires(Channel(s.net, T.Worker))
  {
    InitInv(config);
    RunInv(Init(config), steps);
    ExitsIff(After(Init(config), steps));
  }

  lemma ExitsIff(s: State)
    requires Inv(s) && Parting(s)
    ensures TW.CanExitAlone(Apply(s, WorkerLeaves).net, T.Worker) <==> NoneRequires(Channel(s.net, T.Worker))
  {
    NothingUnread(s);
    TW.ExitsAloneIff(s.net, T.Worker);
    Ordered(s.net, T.Worker);
    ReleasedIff(s.net.worker, s.net.main);
  }

  lemma NothingUnread(s: State)
    requires Inv(s) && s.proto.worker.status == P.Stopped
    ensures TS.Unread(s.net, T.Worker) == 0
  {
    FewInFlight(s.proto);
    Ordered(s.net, T.Main);
    UnreceivedIs(s.net.main, s.net.worker);
    assert Coupled(s, T.Main);
  }

  lemma WorkerCoupled(s: State)
    requires Inv(s)
    ensures Coupled(s, T.Worker)
  {
  }

  lemma WorkerIdle(s: State)
    requires Parting(s)
    ensures s.net.worker.sending == []
  {
  }

  /** When the worker sends nothing, the unread messages are those the protocol has on the way to the backend. */
  lemma UnreadReplies(s: State)
    requires Coupled(s, T.Worker) && s.net.worker.sending == []
    ensures Carries(s.workerLog, Channel(s.net, T.Worker), s.proto.toMain)
  {
    assert Pending(s.net, T.Worker) == Channel(s.net, T.Worker);
  }

  lemma OutputRequires(log: seq<P.Msg>, ws: seq<T.Wire>, ms: seq<P.Msg>, k: nat)
    requires Carries(log, ws, ms) && k < |ms| && ms[k].ReturnOutput?
    ensures !NoneRequires(ws)
  {
    assert ws[k] in ws;
  }

  lemma Quiet(s: State)
    requires Inv(s) && s.proto.main.pc == P.Closed && !s.proto.threw
    ensures s.proto.toMain == []
  {
  }

  /** Without exceptions the worker can always exit. */
  lemma ExitsWithoutExceptions(config: P.Config, steps: seq<Step>)
    requires Valid(Init(config), steps) && Parting(After(Init(config), steps))
    requires !After(Init(config), steps).proto.threw
    ensures TW.CanExitAlone(Apply(After(Init(config), steps), WorkerLeaves).net, T.Worker)
  {
    InitInv(config);
    RunInv(Init(config), steps);
    var s := After(Init(config), steps);
    WorkerExitsIff(config, steps);
    Quiet(s);
    WorkerCoupled(s);
    WorkerIdle(s);
    UnreadReplies(s);
  }

  /** With a RETURN_OUTPUT left unread it never does, and the backend waits as long as no receive times out. */
  lemma UnreadReplyHangs(config: P.Config, steps: seq<Step>, k: nat)
    requires Valid(Init(config), steps) && Parting(After(Init(config), steps))
    requires var p := After(Init(config), steps).proto; k < |p.toMain| && p.toMain[k].ReturnOutput?
    ensures !TW.CanExitAlone(Apply(After(Init(config), steps), WorkerLeaves).net, T.Worker)
  {
    InitInv(config);
    RunInv(Init(config), steps);
    var s := After(Init(config), steps);
    WorkerExitsIff(config, steps);
    WorkerCoupled(s);
    WorkerIdle(s);
    UnreadReplies(s);
    OutputRequires(s.workerLog, Channel(s.net, T.Worker), s.proto.toMain, k);
  }

  // -------------------------------------------------------------------- In whatever order

  /** The worker has read everything, and the backend sends nothing more. */
  lemma NothingSent(s: State)
    requires Inv(s) && s.proto.worker.status == P.Stopped
    ensures Channel(s.net, T.Main) == [] && T.Users(s.net.main.sending) == []
  {
    FewInFlight(s.proto);
    assert Coupled(s, T.Main);
  }

  /** Under the condition of WorkerExitsIff the worker does exit, however the threads of both processes go on. */
  lemma WorkerExitsInAnyOrder(config: P.Config, steps: seq<Step>, rest: seq<T.Step>)
    requires Valid(Init(config), steps) && Parting(After(Init(config), steps))
    requires NoneRequires(Channel(After(Init(config), steps).net, T.Worker))
    requires var net := Apply(After(Init(config), steps), WorkerLeaves).net;
             TT.Valid(net, rest) && TW.AllDrainAlone(rest, T.Worker)
    ensures var net := Apply(After(Init(config), steps), WorkerLeaves).net;
            && |rest| - TS.Beats(rest) <= TS.Measure(net) + 2 * TS.Beats(rest)
            && (T.At(TT.After(net, rest), T.Worker).exited || GoesOnAlone(TT.After(net, rest), T.Worker))
  {
    InitInv(config);
    RunInv(Init(config), steps);
    WorkerMayFinish(After(Init(config), steps));
    NetFinishes(After(Init(config), steps).net, T.Worker, rest);
  }

  lemma WorkerMayFinish(s: State)
    requires Inv(s) && Parting(s) && NoneRequires(Channel(s.net, T.Worker))
    ensures TT.Inv(s.net) && T.Enabled(s.net, T.DestroyStep(T.Worker))
    ensures Apply(s, WorkerLeaves).net == T.Apply(s.net, T.DestroyStep(T.Worker))
    ensures TW.CanFinishAlone(T.Apply(s.net, T.DestroyStep(T.Worker)), T.Worker)
  {
    WorkerFinishes(s);
    NetInvariant(s);
    LeavesByDestroying(s);
  }

  lemma LeavesByDestroying(s: State)
    requires Enabled(s, WorkerLeaves)
    ensures T.Enabled(s.net, T.DestroyStep(T.Worker))
    ensures Apply(s, WorkerLeaves).net == T.Apply(s.net, T.DestroyStep(T.Worker))
  {
  }

  lemma NetInvariant(s: State)
    requires Inv(s)
    ensures TT.Inv(s.net)
  {
  }

  lemma NetFinishes(net: T.State, e: T.End, rest: seq<T.Step>)
    requires TT.Inv(net) && T.Enabled(net, T.DestroyStep(e)) && TW.CanFinishAlone(T.Apply(net, T.DestroyStep(e)), e)
    requires TT.Valid(T.Apply(net, T.DestroyStep(e)), rest) && TW.AllDrainAlone(rest, e)
    ensures var going := T.Apply(net, T.DestroyStep(e));
            && |rest| - TS.Beats(rest) <= TS.Measure(going) + 2 * TS.Beats(rest)
            && (T.At(TT.After(going, rest), e).exited || GoesOnAlone(TT.After(going, rest), e))
  {
    TT.StepInv(net, T.DestroyStep(e));
    TW.AloneCompletes(T.Apply(net, T.DestroyStep(e)), e, rest);
  }

  /** A thread can go on that is no heartbeat and not the peer's user thread. */
  ghost predicate GoesOnAlone(net: T.State, e: T.End) {
    exists step :: TS.IsDrain(step, e) && TW.PeerWaits(step, e) && T.Enabled(net, step) && !step.BeatStep?
  }

  lemma WorkerFinishes(s: State)
    requires Inv(s) && Parting(s) && NoneRequires(Channel(s.net, T.Worker))
    ensures TW.CanFinishAlone(Apply(s, WorkerLeaves).net, T.Worker)
  {
    NothingUnread(s);
    NothingSent(s);
    NetInvariant(s);
    NetMayFinish(s.net);
  }

  lemma NetMayFinish(net: T.State)
    requires TT.Inv(net) && T.Enabled(net, T.DestroyStep(T.Worker)) && net.main.held == []
    requires TS.Unread(net, T.Worker) == 0 && T.Users(net.main.sending) == [] && NoneRequires(Channel(net, T.Worker))
    ensures TW.CanFinishAlone(T.Apply(net, T.DestroyStep(T.Worker)), T.Worker)
  {
    Ordered(net, T.Worker);
    ReleasedIff(net.worker, net.main);
    TW.DestroyFinishesAlone(net, T.Worker);
  }

  /**
    In every run, exceptions included: once waitpid has returned and the backend destroys its own queue,
    that queue finishes as well, however the remaining threads go on.
   */
  lemma BackendExits(config: P.Config, steps: seq<Step>)
    requires Valid(Init(config), steps) && Enabled(After(Init(config), steps), MainLeaves)
    ensures var net := Apply(After(Init(config), steps), MainLeaves).net;
            TW.CanExitAlone(net, T.Main) && TW.CanFinishAlone(net, T.Main)
  {
    InitInv(config);
    RunInv(Init(config), steps);
    MainFinishes(After(Init(config), steps));
  }

  lemma WorkerGone(s: State)
    requires Inv(s) && s.net.worker.exited
    ensures s.proto.worker.status == P.Stopped && s.net.worker.held == [] && s.net.worker.sending == []
  {
    ExitedIsDestroying(s.net, T.Worker);
  }

  lemma MainFinishes(s: State)
    requires Inv(s) && Enabled(s, MainLeaves)
    ensures var net := Apply(s, MainLeaves).net; TW.CanExitAlone(net, T.Main) && TW.CanFinishAlone(net, T.Main)
  {
    WorkerGone(s);
    NothingSent(s);
    FewInChannel(s, T.Worker);
    FewUnread(s.net, T.Main);
    Ordered(s.net, T.Main);
    ReleasedIff(s.net.main, s.net.worker);
    TW.ExitsAloneIff(s.net, T.Main);
    TW.DestroyFinishesAlone(s.net, T.Main);
  }
}

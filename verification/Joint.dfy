/**
  The control protocol over the message queues over the allocator, as one step machine. The user
  thread of each process sends one message at a time, and receives what recv_message hands it.
 */
module Joint {
  import P = Protocol
  import PT = ProtocolTheorems
  import T = Transport
  import TI = TransportInv
  import TT = TransportTheorems
  import TS = TransportShutdown
  import opened Wrappers

  /** The tag of a user message is its position in the log of the messages its end has sent. */
  datatype State = State(proto: P.State, net: T.State, mainLog: seq<P.Msg>, workerLog: seq<P.Msg>)

  function Init(config: P.Config): State {
    State(P.Init(config), T.INIT, [], [])
  }

  function LogOf(s: State, e: T.End): seq<P.Msg> {
    if e == T.Main then s.mainLog else s.workerLog
  }

  /** What the protocol has in flight from this end. */
  function InFlight(p: P.State, e: T.End): seq<P.Msg> {
    if e == T.Main then p.toWorker else p.toMain
  }

  /** A moved payload is always a transferrable, a message without payload has none, others may be spilled. */
  predicate DoneFits(m: P.Msg, requiresDone: bool) {
    match m
    case AddInput(_) => requiresDone
    case ReturnOutput(_) => requiresDone
    case LoadSuccess => !requiresDone
    case Shutdown => !requiresDone
    case _ => true
  }

  datatype Step =
    | Net(step: T.Step)
    | MainCalls(call: P.Step, kept: T.Kept)
    | MainReceives(fails: bool)
    | WorkerReceives
    | WorkerHandles(outcome: P.Outcome, kept: T.Kept)
    | WorkerLeaves
    | MainLeaves

  /** What goes on below the user threads. */
  predicate Internal(step: T.Step) {
    !step.SendStep? && !step.RecvStep? && !step.DestroyStep?
  }

  /** The user thread of e is not inside a send. */
  predicate Free(net: T.State, e: T.End) {
    T.Users(T.At(net, e).sending) == []
  }

  predicate CallStep(step: P.Step) {
    step.LoadStep? || step.InferStep? || step.SendInferStep? || step.CloseStep?
  }

  /** What a step of the protocol sends from e. */
  function Sent(p: P.State, step: P.Step, e: T.End): seq<P.Msg>
    requires P.Enabled(p, step)
  {
    var before, after := InFlight(p, e), InFlight(P.Apply(p, step), e);
    if |before| <= |after| then after[|before|..] else []
  }

  ghost predicate CanEmit(s: State, e: T.End, ms: seq<P.Msg>, kept: T.Kept) {
    && Free(s.net, e) && |ms| <= 1
    && (ms != [] ==> DoneFits(ms[0], kept.Some?) && T.Enabled(s.net, T.SendStep(e, |LogOf(s, e)|, kept)))
  }

  ghost function Emit(s: State, e: T.End, ms: seq<P.Msg>, kept: T.Kept): State
    requires CanEmit(s, e, ms, kept)
  {
    if ms == [] then s
    else
      var net := T.Apply(s.net, T.SendStep(e, |LogOf(s, e)|, kept));
      if e == T.Main then s.(net := net, mainLog := s.mainLog + ms) else s.(net := net, workerLog := s.workerLog + ms)
  }

  ghost predicate CanReceive(s: State, e: T.End) {
    Free(s.net, e) && T.Enabled(s.net, T.RecvStep(e)) && T.At(s.net, e).out[0].User?
  }

  ghost predicate Enabled(s: State, step: Step) {
    match step
    case Net(t) => Internal(t) && T.Enabled(s.net, t)
    case MainCalls(p, kept) =>
      CallStep(p) && P.Enabled(s.proto, p) && CanEmit(s, T.Main, Sent(s.proto, p, T.Main), kept)
    case MainReceives(fails) => P.Enabled(s.proto, P.MainReceiveStep(fails)) && CanReceive(s, T.Main)
    case WorkerReceives => P.Enabled(s.proto, P.WorkerReceiveStep) && CanReceive(s, T.Worker)
    case WorkerHandles(outcome, kept) =>
      && P.Enabled(s.proto, P.WorkerHandleStep(outcome))
      && CanEmit(s, T.Worker, Sent(s.proto, P.WorkerHandleStep(outcome), T.Worker), kept)
    case WorkerLeaves => s.proto.worker.status == P.Stopped && T.Enabled(s.net, T.DestroyStep(T.Worker))
    // waitpid has returned
    case MainLeaves => s.proto.main.pc == P.Closed && s.net.worker.exited && T.Enabled(s.net, T.DestroyStep(T.Main))
  }

  ghost function Apply(s: State, step: Step): State
    requires Enabled(s, step)
  {
    match step
    case Net(t) => s.(net := T.Apply(s.net, t))
    case MainCalls(p, kept) => Emit(s, T.Main, Sent(s.proto, p, T.Main), kept).(proto := P.Apply(s.proto, p))
    case MainReceives(fails) =>
      s.(proto := P.Apply(s.proto, P.MainReceiveStep(fails)), net := T.Apply(s.net, T.RecvStep(T.Main)))
    case WorkerReceives =>
      s.(proto := P.Apply(s.proto, P.WorkerReceiveStep), net := T.Apply(s.net, T.RecvStep(T.Worker)))
    case WorkerHandles(outcome, kept) =>
      var step := P.WorkerHandleStep(outcome);
      Emit(s, T.Worker, Sent(s.proto, step, T.Worker), kept).(proto := P.Apply(s.proto, step))
    case WorkerLeaves => s.(net := T.Apply(s.net, T.DestroyStep(T.Worker)))
    case MainLeaves => s.(net := T.Apply(s.net, T.DestroyStep(T.Main)))
  }

  // ---------------------------------------------------------- A queue as a first-in first-out channel

  /** The user messages from x that are in the queues and not yet received by y. */
  function Unreceived(x: T.EndState, y: T.EndState): seq<T.Wire> {
    if |y.received| <= |x.sent| then x.sent[|y.received|..] else []
  }

  function Channel(net: T.State, e: T.End): seq<T.Wire> {
    Unreceived(T.At(net, e), T.At(net, T.Other(e)))
  }

  lemma UnreceivedIs(x: T.EndState, y: T.EndState)
    requires TI.InOrder(x, y)
    ensures |y.received| <= |x.sent| && x.sent == y.received + Unreceived(x, y)
    ensures Unreceived(x, y) == T.Users(y.out) + y.blocked + T.Users(x.ipc)
  {
    var rest := T.Users(y.out) + y.blocked + T.Users(x.ipc);
    assert x.sent == y.received + rest;
    assert x.sent[|y.received|..] == rest;
  }

  lemma Ordered(net: T.State, e: T.End)
    requires TT.Inv(net)
    ensures TI.InOrder(T.At(net, e), T.At(net, T.Other(e)))
  {
  }

  /** With the message that is being sent, if any. */
  function Pending(net: T.State, e: T.End): seq<T.Wire> {
    Channel(net, e) + T.Users(T.At(net, e).sending)
  }

  lemma PushAppends(x: T.EndState, y: T.EndState, i: nat)
    requires TI.InOrder(x, y) && i < |x.sending|
    ensures Unreceived(T.Push(x, i), y) == Unreceived(x, y) + if x.sending[i].User? then [x.sending[i]] else []
  {
    UnreceivedIs(x, y);
    assert T.Users([x.sending[i]]) == if x.sending[i].User? then [x.sending[i]] else [];
  }

  lemma RecvTakesHead(x: T.EndState, y: T.EndState)
    requires TI.InOrder(x, y) && y.out != []
    ensures Unreceived(x, y) == (if y.out[0].User? then [y.out[0]] else []) + Unreceived(x, T.Recv(y))
  {
    HeadFirst(y.out);
    HeadOff(x.sent, y.received, T.Users(y.out[..1]), T.Users(y.out[1..]), y.blocked, T.Users(x.ipc));
  }

  lemma HeadOff(sent: seq<T.Wire>, received: seq<T.Wire>, head: seq<T.Wire>, a: seq<T.Wire>, b: seq<T.Wire>,
                c: seq<T.Wire>)
    requires sent == received + (head + a) + b + c
    ensures |received + head| <= |sent| && sent[|received|..] == head + sent[|received + head|..]
  {
    assert sent == received + head + (a + b + c);
  }

  lemma {:induction false} HeadFirst(ws: seq<T.Wire>)
    requires ws != []
    ensures T.Users(ws[..1]) == if ws[0].User? then [ws[0]] else []
    ensures T.Users(ws) == T.Users(ws[..1]) + T.Users(ws[1..])
  {
    assert ws == ws[..1] + ws[1..] && ws[..1] == [ws[0]];
    TI.UsersConcat(ws[..1], ws[1..]);
  }

  lemma HistoriesKept(net: T.State, t: T.Step, e: T.End)
    requires T.Enabled(net, t) && !t.PushStep? && !t.RecvStep?
    ensures T.At(T.Apply(net, t), e).sent == T.At(net, e).sent
    ensures T.At(T.Apply(net, t), e).received == T.At(net, e).received
  {
    match t
    case ReadStep(f) => ReadKeepsHistories(T.At(net, f), T.At(net, T.Other(f)).ipc[0]);
    case _ =>
  }

  lemma ReadKeepsHistories(x: T.EndState, w: T.Wire)
    ensures T.HandleReceived(x, w).sent == x.sent && T.HandleReceived(x, w).received == x.received
  {
  }

  /**
    User code sees each direction as a first-in first-out channel: a push of a user message appends it,
    recv_message takes the head, and no other step of any thread changes it.
   */
  lemma ChannelStep(net: T.State, t: T.Step, e: T.End)
    requires TI.InOrder(T.At(net, e), T.At(net, T.Other(e))) && T.Enabled(net, t)
    ensures var before, after, y := Channel(net, e), Channel(T.Apply(net, t), e), T.At(net, T.Other(e));
            if t.PushStep? && t.e == e
                && T.At(net, e).sending[t.i].User? then after == before + [T.At(net, e).sending[t.i]]
            else if t == T.RecvStep(T.Other(e)) && y.out[0].User? then before == [y.out[0]] + after
            else after == before
  {
    match t
    case PushStep(f, i) => ChannelPush(net, f, i, e);
    case RecvStep(f) => ChannelRecv(net, f, e);
    case _ =>
      HistoriesKept(net, t, e);
      HistoriesKept(net, t, T.Other(e));
  }

  lemma ChannelPush(net: T.State, f: T.End, i: nat, e: T.End)
    requires TI.InOrder(T.At(net, e), T.At(net, T.Other(e))) && T.Enabled(net, T.PushStep(f, i))
    ensures var before, after := Channel(net, e), Channel(T.Apply(net, T.PushStep(f, i)), e);
            if f == e && T.At(net, e).sending[i].User? then after == before + [T.At(net, e).sending[i]]
                else after == before
  {
    if f == e {
      PushAppends(T.At(net, e), T.At(net, T.Other(e)), i);
    }
  }

  lemma ChannelRecv(net: T.State, f: T.End, e: T.End)
    requires TI.InOrder(T.At(net, e), T.At(net, T.Other(e))) && T.Enabled(net, T.RecvStep(f))
    ensures var before, after, y := Channel(net, e), Channel(T.Apply(net, T.RecvStep(f)), e), T.At(net, T.Other(e));
            if f == T.Other(e) && y.out[0].User? then before == [y.out[0]] + after else after == before
  {
    if f == T.Other(e) {
      RecvTakesHead(T.At(net, e), T.At(net, T.Other(e)));
    }
  }

  lemma UsersRemove(ws: seq<T.Wire>, i: nat)
    requires i < |ws|
    ensures |T.Users(ws)| == |T.Users(Remove(ws, i))| + if ws[i].User? then 1 else 0
    ensures !ws[i].User? ==> T.Users(Remove(ws, i)) == T.Users(ws)
    ensures ws[i].User? && |T.Users(ws)| <= 1 ==> T.Users(ws) == [ws[i]] && T.Users(Remove(ws, i)) == []
  {
    var a, b, c := ws[..i], [ws[i]], ws[i + 1..];
    assert ws == a + (b + c);
    TI.UsersConcat(a, b + c);
    TI.UsersConcat(b, c);
    TI.UsersConcat(a, c);
    assert T.Users(b) == if ws[i].User? then b else [];
    if ws[i].User? && |T.Users(ws)| <= 1 {
      assert |T.Users(a)| == 0 && |T.Users(c)| == 0;
    }
  }

  lemma PushKeepsPending(net: T.State, f: T.End, i: nat, e: T.End)
    requires TI.InOrder(T.At(net, e), T.At(net, T.Other(e))) && T.Enabled(net, T.PushStep(f, i))
    requires |T.Users(T.At(net, e).sending)| <= 1
    ensures var after := T.Apply(net, T.PushStep(f, i));
            Pending(after, e) == Pending(net, e) && |T.Users(T.At(after, e).sending)| <= 1
  {
    ChannelStep(net, T.PushStep(f, i), e);
    if f == e {
      var x := T.At(net, e);
      UsersRemove(x.sending, i);
      if x.sending[i].User? {
        assert Channel(net, e) + [x.sending[i]] + [] == Channel(net, e) + [x.sending[i]];
      }
    }
  }

  /** The user messages that e is sending; acknowledgements and heartbeats join them without being one. */
  lemma SendingKept(net: T.State, t: T.Step, e: T.End)
    requires T.Enabled(net, t) && Internal(t) && !t.PushStep?
    ensures T.Users(T.At(T.Apply(net, t), e).sending) == T.Users(T.At(net, e).sending)
  {
    var x := T.At(net, e);
    match t
    case DropStep(f, i) =>
      if f == e && x.held[i].User? { TI.UsersConcat(x.sending, [T.Done(x.held[i].id)]); }
    case BeatStep(f) => TI.UsersConcat(x.sending, [T.Heartbeat]);
    case _ =>
  }

  /** What goes on below the user threads does not change what is pending. */
  lemma InternalKeepsPending(net: T.State, t: T.Step, e: T.End)
    requires TI.InOrder(T.At(net, e), T.At(net, T.Other(e))) && T.Enabled(net, t) && Internal(t)
    requires |T.Users(T.At(net, e).sending)| <= 1
    ensures Pending(T.Apply(net, t), e) == Pending(net, e) && |T.Users(T.At(T.Apply(net, t), e).sending)| <= 1
  {
    if t.PushStep? {
      PushKeepsPending(net, t.e, t.i, e);
    } else {
      ChannelStep(net, t, e);
      SendingKept(net, t, e);
    }
  }

  // ------------------------------------------------------------------- The two machines agree

  /** The wires ws carry the protocol messages ms. */
  predicate Carries(log: seq<P.Msg>, ws: seq<T.Wire>, ms: seq<P.Msg>) {
    && |ws| == |ms|
    && forall i | 0 <= i < |ws| ::
         ws[i].User? && ws[i].tag < |log| && log[ws[i].tag] == ms[i] && DoneFits(ms[i], ws[i].requiresDone)
  }

  predicate Coupled(s: State, e: T.End) {
    |T.Users(T.At(s.net, e).sending)| <= 1 && Carries(LogOf(s, e), Pending(s.net, e), InFlight(s.proto, e))
  }

  predicate Linked(s: State) {
    && Coupled(s, T.Main) && Coupled(s, T.Worker)
    && (s.net.worker.destroying ==> s.proto.worker.status == P.Stopped)
    && (s.net.main.destroying ==>
          s.proto.main.pc == P.Closed && s.net.worker.destroying && TS.FitsBeforeShutdown(s.net.main, s.net.worker))
  }

  ghost predicate Inv(s: State) {
    P.Inv(s.proto) && TT.Inv(s.net) && Linked(s)
  }

  lemma InitInv(config: P.Config)
    ensures Inv(Init(config))
  {
    PT.InitInv(config);
    TT.InitInv();
  }

  lemma CarriesMore(log: seq<P.Msg>, ws: seq<T.Wire>, ms: seq<P.Msg>, w: T.Wire, m: P.Msg)
    requires Carries(log, ws, ms) && w.User? && w.tag == |log| && DoneFits(m, w.requiresDone)
    ensures Carries(log + [m], ws + [w], ms + [m])
  {
  }

  lemma CarriesTail(log: seq<P.Msg>, w: T.Wire, rest: seq<T.Wire>, ms: seq<P.Msg>)
    requires Carries(log, [w] + rest, ms)
    ensures ms != [] && w.User? && w.tag < |log| && log[w.tag] == ms[0] && Carries(log, rest, ms[1..])
  {
    assert ([w] + rest)[0] == w;
    forall i | 0 <= i < |rest|
      ensures rest[i] == ([w] + rest)[i + 1]
    {
    }
  }

  lemma SendEffect(net: T.State, e: T.End, tag: nat, kept: T.Kept)
    requires T.Enabled(net, T.SendStep(e, tag, kept))
    ensures var after := T.Apply(net, T.SendStep(e, tag, kept));
            && T.At(after, e).sending == T.At(net, e).sending + [TT.SentWire(net, e, tag, kept)]
            && T.At(after, T.Other(e)) == T.At(net, T.Other(e))
            && T.At(after, e).sent == T.At(net, e).sent && T.At(after, e).received == T.At(net, e).received
            && T.At(after, e).destroying == T.At(net, e).destroying
  {
  }

  lemma SendPending(net: T.State, e: T.End, tag: nat, kept: T.Kept)
    requires T.Enabled(net, T.SendStep(e, tag, kept)) && Free(net, e)
    ensures var after := T.Apply(net, T.SendStep(e, tag, kept));
            && Pending(after, e) == Pending(net, e) + [TT.SentWire(net, e, tag, kept)]
            && |T.Users(T.At(after, e).sending)| == 1
            && Pending(after, T.Other(e)) == Pending(net, T.Other(e))
  {
    SendEffect(net, e, tag, kept);
    var w := TT.SentWire(net, e, tag, kept);
    TI.UsersConcat(T.At(net, e).sending, [w]);
    assert T.Users([w]) == [w] && [] + [w] == [w];
  }

  /** e emits what the protocol sends; the other direction stays coupled. */
  lemma EmitKeeps(s: State, e: T.End, ms: seq<P.Msg>, kept: T.Kept)
    requires CanEmit(s, e, ms, kept) && Coupled(s, e) && Coupled(s, T.Other(e))
    ensures var t := Emit(s, e, ms, kept);
            && t.proto == s.proto
            && |T.Users(T.At(t.net, e).sending)| <= 1
            && Carries(LogOf(t, e), Pending(t.net, e), InFlight(s.proto, e) + ms)
            && Coupled(t, T.Other(e))
            && t.net.main.destroying == s.net.main.destroying && t.net.worker.destroying == s.net.worker.destroying
  {
    if ms == [] {
      assert InFlight(s.proto, e) + ms == InFlight(s.proto, e);
    } else {
      SendEffect(s.net, e, |LogOf(s, e)|, kept);
      SendPending(s.net, e, |LogOf(s, e)|, kept);
      var w := TT.SentWire(s.net, e, |LogOf(s, e)|, kept);
      CarriesMore(LogOf(s, e), Pending(s.net, e), InFlight(s.proto, e), w, ms[0]);
      assert ms == [ms[0]];
    }
  }

  lemma EmitNet(s: State, e: T.End, ms: seq<P.Msg>, kept: T.Kept)
    requires TT.Inv(s.net) && CanEmit(s, e, ms, kept)
    ensures TT.Inv(Emit(s, e, ms, kept).net)
  {
    if ms != [] {
      TT.StepInv(s.net, T.SendStep(e, |LogOf(s, e)|, kept));
    }
  }

  lemma RecvEffect(net: T.State, o: T.End)
    requires T.Enabled(net, T.RecvStep(o))
    ensures var after := T.Apply(net, T.RecvStep(o));
            && T.At(after, o).sending == T.At(net, o).sending && T.At(after, o).destroying == T.At(net, o).destroying
            && T.At(after, T.Other(o)) == T.At(net, T.Other(o))
  {
  }

  /** recv_message hands out the message that the protocol expects next. */
  lemma ReceiveKeeps(s: State, o: T.End)
    requires TI.InOrder(s.net.main, s.net.worker) && TI.InOrder(s.net.worker, s.net.main)
    requires CanReceive(s, o) && Coupled(s, o) && Coupled(s, T.Other(o))
    ensures var net := T.Apply(s.net, T.RecvStep(o));
            var log, ms := LogOf(s, T.Other(o)), InFlight(s.proto, T.Other(o));
            var w := T.At(s.net, o).out[0];
            && ms != [] && w.tag < |log| && log[w.tag] == ms[0]
            && Carries(log, Pending(net, T.Other(o)), ms[1..])
            && Pending(net, o) == Pending(s.net, o)
  {
    var e, step := T.Other(o), T.RecvStep(o);
    var net := T.Apply(s.net, step);
    ChannelStep(s.net, step, e);
    ChannelStep(s.net, step, o);
    RecvEffect(s.net, o);
    var w := T.At(s.net, o).out[0];
    assert Pending(s.net, e) == [w] + Pending(net, e);
    CarriesTail(LogOf(s, e), w, Pending(net, e), InFlight(s.proto, e));
  }

  lemma CallEffect(p: P.State, step: P.Step)
    requires P.Enabled(p, step) && CallStep(step)
    ensures P.Apply(p, step).toWorker == p.toWorker + Sent(p, step, T.Main)
    ensures P.Apply(p, step).toMain == p.toMain && P.Apply(p, step).worker == p.worker
  {
    assert p.toWorker + [] == p.toWorker;
  }

  lemma HandleEffect(p: P.State, outcome: P.Outcome)
    requires P.Enabled(p, P.WorkerHandleStep(outcome))
    ensures var step := P.WorkerHandleStep(outcome);
            && P.Apply(p, step).toMain == p.toMain + Sent(p, step, T.Worker)
            && P.Apply(p, step).toWorker == p.toWorker && p.worker.status == P.Running
  {
    assert p.toMain + [] == p.toMain;
  }

  lemma CallLinked(s: State, call: P.Step, kept: T.Kept)
    requires Linked(s) && Enabled(s, MainCalls(call, kept))
    ensures Linked(Apply(s, MainCalls(call, kept)))
  {
    CallEffect(s.proto, call);
    EmitKeeps(s, T.Main, Sent(s.proto, call, T.Main), kept);
  }

  lemma CallInv(s: State, call: P.Step, kept: T.Kept)
    requires Inv(s) && Enabled(s, MainCalls(call, kept))
    ensures Inv(Apply(s, MainCalls(call, kept)))
  {
    PT.StepInv(s.proto, call);
    EmitNet(s, T.Main, Sent(s.proto, call, T.Main), kept);
    CallLinked(s, call, kept);
  }

  lemma HandleLinked(s: State, outcome: P.Outcome, kept: T.Kept)
    requires Linked(s) && Enabled(s, WorkerHandles(outcome, kept))
    ensures Linked(Apply(s, WorkerHandles(outcome, kept)))
  {
    HandleEffect(s.proto, outcome);
    EmitKeeps(s, T.Worker, Sent(s.proto, P.WorkerHandleStep(outcome), T.Worker), kept);
  }

  lemma HandleInv(s: State, outcome: P.Outcome, kept: T.Kept)
    requires Inv(s) && Enabled(s, WorkerHandles(outcome, kept))
    ensures Inv(Apply(s, WorkerHandles(outcome, kept)))
  {
    PT.StepInv(s.proto, P.WorkerHandleStep(outcome));
    EmitNet(s, T.Worker, Sent(s.proto, P.WorkerHandleStep(outcome), T.Worker), kept);
    HandleLinked(s, outcome, kept);
  }

  lemma ReceiveLinked(s: State, step: Step)
    requires Linked(s) && Enabled(s, step) && (step.MainReceives? || step.WorkerReceives?)
    requires TI.InOrder(s.net.main, s.net.worker) && TI.InOrder(s.net.worker, s.net.main)
    ensures Linked(Apply(s, step))
  {
    var o := if step.MainReceives? then T.Main else T.Worker;
    ReceiveKeeps(s, o);
    RecvEffect(s.net, o);
  }

  lemma ReceiveInv(s: State, step: Step)
    requires Inv(s) && Enabled(s, step) && (step.MainReceives? || step.WorkerReceives?)
    ensures Inv(Apply(s, step))
  {
    Ordered(s.net, T.Main);
    Ordered(s.net, T.Worker);
    ReceiveLinked(s, step);
    if step.MainReceives? {
      PT.StepInv(s.proto, P.MainReceiveStep(step.fails));
      TT.StepInv(s.net, T.RecvStep(T.Main));
    } else {
      PT.StepInv(s.proto, P.WorkerReceiveStep);
      TT.StepInv(s.net, T.RecvStep(T.Worker));
    }
  }

  lemma NetInv(s: State, t: T.Step)
    requires Inv(s) && Enabled(s, Net(t))
    ensures Inv(Apply(s, Net(t)))
  {
    Ordered(s.net, T.Main);
    Ordered(s.net, T.Worker);
    TT.StepInv(s.net, t);
    if s.net.main.destroying {
      FitKept(s.net, t);
    }
    NetLinked(s, t);
  }

  /** When both queues are being destroyed nothing more is sent, so what was left unread keeps its room. */
  lemma FitKept(net: T.State, t: T.Step)
    requires TI.Local(net.main) && TI.Local(net.worker) && net.main.destroying && net.worker.destroying
    requires TS.FitsBeforeShutdown(net.main, net.worker) && T.Enabled(net, t)
    ensures var after := T.Apply(net, t); TS.FitsBeforeShutdown(after.main, after.worker)
  {
    if TS.IsDrain(t, T.Main) {
      TS.DrainKeepsFit(net, T.Main, t);
    }
  }

  lemma NetLinked(s: State, t: T.Step)
    requires Linked(s) && Enabled(s, Net(t))
    requires TI.InOrder(s.net.main, s.net.worker) && TI.InOrder(s.net.worker, s.net.main)
    requires s.net.main.destroying ==> var after := T.Apply(s.net, t); TS.FitsBeforeShutdown(after.main, after.worker)
    ensures Linked(Apply(s, Net(t)))
  {
    InternalKeepsPending(s.net, t, T.Main);
    InternalKeepsPending(s.net, t, T.Worker);
    DestroyingKept(s.net, t);
  }

  lemma DestroyingKept(net: T.State, t: T.Step)
    requires T.Enabled(net, t) && !t.DestroyStep?
    ensures forall f: T.End :: T.At(T.Apply(net, t), f).destroying == T.At(net, f).destroying
  {
  }

  lemma FewInChannel(s: State, o: T.End)
    requires Inv(s)
    ensures |Channel(s.net, o)| <= 2
  {
    FewInFlight(s.proto);
    assert Coupled(s, o);
  }

  lemma LeaveInv(s: State, e: T.End)
    requires Inv(s) && Enabled(s, if e == T.Main then MainLeaves else WorkerLeaves)
    ensures Inv(Apply(s, if e == T.Main then MainLeaves else WorkerLeaves))
  {
    var t := T.DestroyStep(e);
    Ordered(s.net, T.Main);
    Ordered(s.net, T.Worker);
    TT.StepInv(s.net, t);
    if e == T.Main {
      FewInChannel(s, T.Worker);
      FewUnread(s.net, T.Main);
      TS.DestroyFits(s.net, T.Main);
    }
    LeaveLinked(s, e);
  }

  lemma FewUnread(net: T.State, e: T.End)
    requires TT.Inv(net) && |Channel(net, T.Other(e))| <= 2
    ensures TS.Unread(net, e) <= 2
  {
    Ordered(net, T.Other(e));
    UnreceivedIs(T.At(net, T.Other(e)), T.At(net, e));
  }

  lemma ExitedIsDestroying(net: T.State, e: T.End)
    requires TI.StopsRight(T.At(net, e), T.At(net, T.Other(e))) && T.At(net, e).exited
    ensures T.At(net, e).destroying
  {
  }

  lemma LeaveLinked(s: State, e: T.End)
    requires Linked(s) && Enabled(s, if e == T.Main then MainLeaves else WorkerLeaves)
    requires TI.InOrder(s.net.main, s.net.worker) && TI.InOrder(s.net.worker, s.net.main)
    requires TI.StopsRight(s.net.worker, s.net.main)
    requires e == T.Main ==>
               var t := T.Apply(s.net, T.DestroyStep(T.Main)); TS.FitsBeforeShutdown(t.main, t.worker)
    ensures Linked(Apply(s, if e == T.Main then MainLeaves else WorkerLeaves))
  {
    var t := T.DestroyStep(e);
    ChannelStep(s.net, t, T.Main);
    ChannelStep(s.net, t, T.Worker);
    if e == T.Main {
      ExitedIsDestroying(s.net, T.Worker);
    }
  }

  lemma StepInv(s: State, step: Step)
    requires Inv(s) && Enabled(s, step)
    ensures Inv(Apply(s, step))
  {
    match step
    case Net(t) => NetInv(s, t);
    case MainCalls(call, kept) => CallInv(s, call, kept);
    case MainReceives(_) => ReceiveInv(s, step);
    case WorkerReceives => ReceiveInv(s, step);
    case WorkerHandles(outcome, kept) => HandleInv(s, outcome, kept);
    case WorkerLeaves => LeaveInv(s, T.Worker);
    case MainLeaves => LeaveInv(s, T.Main);
  }

  ghost predicate Valid(s: State, steps: seq<Step>)
    decreases |steps|
  {
    |steps| == 0 || (Enabled(s, steps[0]) && Valid(Apply(s, steps[0]), steps[1..]))
  }

  ghost function After(s: State, steps: seq<Step>): State
    requires Valid(s, steps)
    decreases |steps|
  {
    if |steps| == 0 then s else After(Apply(s, steps[0]), steps[1..])
  }

  lemma Prepend(s: State, step: Step, rest: seq<Step>)
    requires Enabled(s, step) && Valid(Apply(s, step), rest)
    ensures Valid(s, [step] + rest) && After(s, [step] + rest) == After(Apply(s, step), rest)
  {
    assert ([step] + rest)[1..] == rest;
  }

  lemma {:induction false} RunInv(s: State, steps: seq<Step>)
    requires Inv(s) && Valid(s, steps)
    ensures Inv(After(s, steps))
    decreases |steps|
  {
    if |steps| > 0 {
      StepInv(s, steps[0]);
      RunInv(Apply(s, steps[0]), steps[1..]);
    }
  }

  // ------------------------------------------------------------------- What follows for both

  /** In every run a message that recv_message can hand out is the one the protocol has next. */
  lemma ReceivesExpected(config: P.Config, steps: seq<Step>, o: T.End)
    requires Valid(Init(config), steps) && CanReceive(After(Init(config), steps), o)
    ensures var s := After(Init(config), steps);
            var w := T.At(s.net, o).out[0];
            && InFlight(s.proto, T.Other(o)) != [] && w.tag < |LogOf(s, T.Other(o))|
            && LogOf(s, T.Other(o))[w.tag] == InFlight(s.proto, T.Other(o))[0]
  {
    InitInv(config);
    RunInv(Init(config), steps);
    Ordered(After(Init(config), steps).net, T.Main);
    Ordered(After(Init(config), steps).net, T.Worker);
    ReceiveKeeps(After(Init(config), steps), o);
  }

  lemma FewInFlight(p: P.State)
    requires P.Inv(p)
    ensures |p.toWorker| <= 2 && |p.toMain| <= 2
    ensures p.worker.status == P.Stopped ==> p.toWorker == []
  {
  }

  lemma ShutdownOnlyDestroying(net: T.State, e: T.End)
    requires TT.Inv(net) && !T.At(net, e).destroying
    ensures forall w <- T.At(net, e).out :: w.User?
  {
    assert TI.Local(T.At(net, e)) && TI.StopsRight(T.At(net, e), T.At(net, T.Other(e)));
  }

  lemma {:induction false} AllUsers(ws: seq<T.Wire>)
    requires forall w <- ws :: w.User?
    ensures T.Users(ws) == ws
  {
    if ws != [] {
      AllUsers(ws[1..]);
    }
  }


  lemma RoomToDeliver(net: T.State, e: T.End)
    requires TT.Inv(net) && |Channel(net, T.Other(e))| <= 2
    requires T.At(net, e).destroying ==>
               Channel(net, T.Other(e)) == [] || TS.FitsBeforeShutdown(T.At(net, e), T.At(net, T.Other(e)))
    ensures T.At(net, e).blocked != [] ==> T.Enabled(net, T.DeliverStep(e))
  {
    Ordered(net, T.Other(e));
    UnreceivedIs(T.At(net, T.Other(e)), T.At(net, e));
    assert TI.Local(T.At(net, e)) && TI.StopsRight(T.At(net, e), T.At(net, T.Other(e)));
    if !T.At(net, e).destroying {
      ShutdownOnlyDestroying(net, e);
      AllUsers(T.At(net, e).out);
    }
  }

  lemma LeavingHasRoom(s: State, e: T.End)
    requires Inv(s) && T.At(s.net, e).destroying
    ensures Channel(s.net, T.Other(e)) == [] || TS.FitsBeforeShutdown(T.At(s.net, e), T.At(s.net, T.Other(e)))
  {
    FewInFlight(s.proto);
    assert Coupled(s, T.Other(e));
  }

  /**
    In every run, exceptions included, at most two user messages per direction are on their way, so no
    read thread ever waits for room in its out queue.
   */
  lemma ReadThreadsNeverWait(config: P.Config, steps: seq<Step>, e: T.End)
    requires Valid(Init(config), steps)
    ensures var net := After(Init(config), steps).net;
            && |Channel(net, T.Other(e))| <= 2
            && (T.At(net, e).blocked != [] ==> T.Enabled(net, T.DeliverStep(e)))
  {
    InitInv(config);
    RunInv(Init(config), steps);
    FewInChannel(After(Init(config), steps), T.Other(e));
    if T.At(After(Init(config), steps).net, e).destroying {
      LeavingHasRoom(After(Init(config), steps), e);
    }
    RoomToDeliver(After(Init(config), steps).net, e);
  }
}

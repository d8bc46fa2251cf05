/**
  The control channel, the main backend and the worker loop as objects whose methods update their
  fields, each proved to do what the protocol's functions say. A call that would wait for a message
  is split at that point.
 */
module Processes {
  import opened Control
  import opened Protocol
  import PT = ProtocolTheorems
  import opened Wrappers

  /** One end of the control channel: messages are verified before a send and after a receive. */
  class IPCControlChannel {
    const verifier: TransitionVerifier
    var incoming: seq<Msg>
    var outgoing: seq<Msg>
    ghost var log: seq<MessageType>

    constructor ()
      ensures fresh(verifier) && verifier.State() == First && incoming == [] && outgoing == [] && log == []
    {
      verifier := new TransitionVerifier();
      incoming, outgoing, log := [], [], [];
    }

    /** `fails`: the queue throws on a message that the verifier has let through. */
    method SendMessage(m: Msg, fails: bool) returns (ok: bool)
      modifies this, verifier
      ensures var allowed := Allowed(old(verifier.State()), TypeOf(m));
              && (ok <==> allowed && !fails)
              && verifier.State()
                 == (if allowed then Advance(old(verifier.State()), TypeOf(m)) else old(verifier.State()))
              && log == (if allowed then old(log) + [TypeOf(m)] else old(log))
              && outgoing == (if ok then old(outgoing) + [m] else old(outgoing))
              && incoming == old(incoming)
    {
      ok := verifier.AssertTransitionAllowed(TypeOf(m));
      if ok {
        log := log + [TypeOf(m)];
        if fails {
          return false;
        }
        outgoing := outgoing + [m];
      }
    }

    /** The message leaves the queue before it is verified. */
    method RecvMessage() returns (m: Msg, ok: bool)
      requires incoming != []
      modifies this, verifier
      ensures m == old(incoming)[0] && incoming == old(incoming)[1..] && outgoing == old(outgoing)
      ensures ok <==> Allowed(old(verifier.State()), TypeOf(m))
      ensures verifier.State() == if ok then Advance(old(verifier.State()), TypeOf(m)) else old(verifier.State())
      ensures log == if ok then old(log) + [TypeOf(m)] else old(log)
    {
      m := incoming[0];
      incoming := incoming[1..];
      ok := verifier.AssertTransitionAllowed(TypeOf(m));
      if ok {
        log := log + [TypeOf(m)];
      }
    }
  }

  // ------------------------------------------------------------------- The main backend

  class MultiprocessNeuropodBackend {
    const channel: IPCControlChannel
    const loadConfig: Config
    var isModelLoaded: bool
    var pc: MainPc
    ghost var calls: seq<Call>
    ghost var consumed: seq<Output>
    ghost var returned: seq<Option<Output>>
    ghost var surprised: bool

    ghost function View(): Main
      reads this, channel, channel.verifier
    {
      Main(pc, isModelLoaded, channel.verifier.State(), channel.log, calls, consumed, returned, surprised)
    }

    constructor (config: Config)
      ensures fresh(channel) && fresh(channel.verifier) && View() == INIT_MAIN && loadConfig == config
      ensures channel.incoming == [] && channel.outgoing == []
    {
      channel := new IPCControlChannel();
      loadConfig := config;
      isModelLoaded := false;
      pc := Idle;
      calls, consumed, returned, surprised := [], [], [], false;
    }

    /** load_model up to the wait for the confirmation. */
    method LoadModel(fails: bool)
      requires pc == Idle
      modifies this, channel, channel.verifier
      ensures View() == CallLoad(old(View()), loadConfig, fails).0
      ensures channel.outgoing == old(channel.outgoing) + CallLoad(old(View()), loadConfig, fails).1
      ensures var sends := !old(isModelLoaded) && Allowed(old(View()).verifier, LOAD_NEUROPOD) && !fails;
              && channel.outgoing == old(channel.outgoing) + (if sends then [LoadNeuropod(loadConfig)] else [])
              && pc == (if sends then AwaitLoad else Idle) && isModelLoaded == old(isModelLoaded)
    {
      if isModelLoaded {
        return;
      }
      var ok := channel.SendMessage(LoadNeuropod(loadConfig), fails);
      if ok {
        pc := AwaitLoad;
      }
    }

    method WaitForLoadConfirmation() returns (ok: bool)
      requires pc == AwaitLoad && channel.incoming != []
      modifies this, channel, channel.verifier
      ensures View() == MainReceive(old(View()), old(channel.incoming)[0], false)
      ensures channel.incoming == old(channel.incoming)[1..]
      ensures ok <==>
                && Allowed(old(View()).verifier, TypeOf(old(channel.incoming)[0]))
                && old(channel.incoming)[0].LoadSuccess?
      ensures pc == Idle && isModelLoaded == (old(isModelLoaded) || ok)
    {
      var m, allowed := channel.RecvMessage();
      pc := Idle;
      if !allowed {
        surprised := true;
        return false;
      }
      if m.Exception? {
        return false;
      }
      if !m.LoadSuccess? {
        surprised := true;
        return false;
      }
      isModelLoaded := true;
      return true;
    }

    /** infer up to the send of the inputs. */
    method AddInputs(call: Call, fails: bool)
      requires pc == Idle
      modifies this, channel, channel.verifier
      ensures View() == CallInfer(old(View()), call, fails).0
      ensures channel.outgoing == old(channel.outgoing) + CallInfer(old(View()), call, fails).1
      ensures var sends := old(isModelLoaded) && Allowed(old(View()).verifier, ADD_INPUT) && !fails;
              && channel.outgoing == old(channel.outgoing) + (if sends then [AddInput(call.inputs)] else [])
              && calls == old(calls) + (if sends then [call] else []) && pc == (if sends then Added(call) else Idle)
    {
      if !isModelLoaded {
        return;
      }
      var ok := channel.SendMessage(AddInput(call.inputs), fails);
      if ok {
        pc := Added(call);
        calls := calls + [call];
      }
    }

    method RequestInference(fails: bool)
      requires pc.Added?
      modifies this, channel, channel.verifier
      ensures View() == SendInfer(old(View()), fails).0
      ensures channel.outgoing == old(channel.outgoing) + SendInfer(old(View()), fails).1
      ensures var call, sends := old(pc).call, Allowed(old(View()).verifier, INFER) && !fails;
              && channel.outgoing == old(channel.outgoing) + (if sends then [Infer(call.requested)] else [])
              && pc == if sends then AwaitReply(call) else Idle
    {
      var ok := channel.SendMessage(Infer(pc.call.requested), fails);
      pc := if ok then AwaitReply(pc.call) else Idle;
    }

    /** The rest of infer_internal; None where it throws. `fails`: reading the payload of the reply throws. */
    method FinishInference(fails: bool) returns (r: Option<Output>)
      requires pc.AwaitReply? && channel.incoming != []
      modifies this, channel, channel.verifier
      ensures View() == MainReceive(old(View()), old(channel.incoming)[0], fails)
      ensures channel.incoming == old(channel.incoming)[1..]
      ensures var m := old(channel.incoming)[0];
              var answers := Allowed(old(View()).verifier, TypeOf(m)) && m.ReturnOutput?;
              && (r.Some? <==> answers && !fails) && (r.Some? ==> r.value == m.output)
              && View().consumed == old(View()).consumed + (if answers then [m.output] else [])
              && View().returned == old(View()).returned + (if answers then [r] else [])
              && View().pc == Idle && View().loaded == old(View()).loaded && View().calls == old(View()).calls
    {
      var m, allowed := channel.RecvMessage();
      pc := Idle;
      if !allowed {
        surprised := true;
        return None;
      }
      if m.Exception? {
        return None;
      }
      if !m.ReturnOutput? {
        surprised := true;
        return None;
      }
      consumed := consumed + [m.output];
      r := if fails then None else Some(m.output);
      returned := returned + [r];
    }

    /** The destructor of a backend that started its worker. */
    method Close()
      requires pc == Idle
      modifies this, channel, channel.verifier
      ensures View() == Pass(old(View()), SHUTDOWN).(pc := Closed)
      ensures channel.outgoing == old(channel.outgoing) + [Shutdown]
    {
      var ok := channel.SendMessage(Shutdown, false);
      pc := Closed;
    }
  }

  // -------------------------------------------------------------------- The worker loop

  /** One pass of the loop over a received message: the new worker, and what it sends. */
  function WorkerPass(w: Worker, m: Msg, outcome: Outcome): (Worker, seq<Msg>) {
    var received := WorkerReceive(w, m);
    if received.status == Running then WorkerHandle(received, outcome) else (received, [])
  }

  /** What the worker does with the messages that have arrived, one outcome per pass; `sent` accumulates. */
  function WorkerRun(w: Worker, incoming: seq<Msg>, outcomes: seq<Outcome>, sent: seq<Msg>): (Worker, seq<Msg>,
                     seq<Msg>)
    decreases |outcomes|
  {
    if w.status != Running || w.current.Some? || incoming == [] || outcomes == [] then (w, incoming, sent)
    else
      var (next, replies) := WorkerPass(w, incoming[0], outcomes[0]);
      WorkerRun(next, incoming[1..], outcomes[1..], sent + replies)
  }

  lemma PickedOne(tmp: ValueMap, names: set<string>, name: string)
    requires name in tmp
    ensures Picked(tmp, names)[name := tmp[name]] == Picked(tmp, names + {name})
  {
  }

  lemma PickedMeet(tmp: ValueMap, names: set<string>)
    ensures Picked(tmp, tmp.Keys * names) == Picked(tmp, names)
  {
  }

  lemma PickedAll(tmp: ValueMap)
    ensures Picked(tmp, tmp.Keys) == tmp
  {
  }

  /** The named tensors of tmp are in `after`, over those that were in `before`. */
  ghost predicate Stored(before: ValueMap, tmp: ValueMap, names: set<string>, after: ValueMap) {
    forall k ::
      && (k in after <==> k in before || (k in tmp && k in names))
      && (k in after ==> after[k] == if k in tmp && k in names then tmp[k] else before[k])
  }

  class MultiprocessWorker {
    const channel: IPCControlChannel
    var status: Status
    var current: Option<Msg>
    var neuropod: Option<Config>
    var inputs: ValueMap

    ghost function View(): Worker
      reads this, channel, channel.verifier
    {
      Worker(status, channel.verifier.State(), channel.log, current, neuropod, inputs)
    }

    constructor ()
      ensures fresh(channel) && fresh(channel.verifier) && View() == INIT_WORKER
      ensures channel.incoming == [] && channel.outgoing == []
    {
      channel := new IPCControlChannel();
      status := Running;
      current, neuropod := None, None;
      inputs := map[];
    }

    method Receive()
      requires status == Running && current == None && channel.incoming != []
      modifies this, channel, channel.verifier
      ensures View() == WorkerReceive(old(View()), old(channel.incoming)[0])
      ensures channel.incoming == old(channel.incoming)[1..] && channel.outgoing == old(channel.outgoing)
      ensures var m := old(channel.incoming)[0];
              var allowed := Allowed(old(View()).verifier, TypeOf(m));
              && current == (if allowed then Some(m) else None) && status == (if allowed then Running else Crashed)
              && neuropod == old(neuropod) && inputs == old(inputs)
    {
      var m, allowed := channel.RecvMessage();
      if allowed {
        current := Some(m);
      } else {
        status := Crashed;
      }
    }

    /** The catch blocks. */
    method SendException()
      modifies this, channel, channel.verifier
      ensures View() == Report(old(View())).0 && channel.outgoing == old(channel.outgoing) + [Exception]
      ensures channel.incoming == old(channel.incoming)
    {
      var ok := channel.SendMessage(Exception, false);
      current := None;
    }

    /** Sends a reply from inside the try block; `fails` as for the channel. */
    method SendReply(m: Msg, fails: bool) returns (ok: bool)
      modifies channel, channel.verifier
      ensures ok <==> Allowed(old(View()).verifier, TypeOf(m)) && !fails
      ensures View() == if Allowed(old(View()).verifier, TypeOf(m)) then Note(old(View()), TypeOf(m)) else old(View())
      ensures channel.outgoing == old(channel.outgoing) + if ok then [m] else []
      ensures channel.incoming == old(channel.incoming)
    {
      ok := channel.SendMessage(m, fails);
    }

    /** The loop of ADD_INPUT over the received tensors, in any order. */
    method StoreInputs(tmp: ValueMap, names: set<string>)
      requires names <= tmp.Keys
      modifies `inputs
      ensures inputs == Merge(old(inputs), tmp, names)
      ensures Stored(old(inputs), tmp, names, inputs)
    {
      var before := inputs;
      var rest := names;
      while rest != {}
        invariant rest <= names && inputs == before + Picked(tmp, names - rest)
        decreases |rest|
      {
        var name :| name in rest;
        PickedOne(tmp, names - rest, name);
        assert names - rest + {name} == names - (rest - {name});
        inputs := inputs[name := tmp[name]];
        rest := rest - {name};
      }
      assert names - rest == names;
    }

    /** A new model and no inputs, and LOAD_SUCCESS, unless it throws; then EXCEPTION. */
    method HandleLoad(config: Config, outcome: Outcome)
      requires current == Some(LoadNeuropod(config))
      modifies this, channel, channel.verifier
      ensures var done := outcome.Finishes? && Allowed(old(View()).verifier, LOAD_SUCCESS);
              && channel.outgoing == old(channel.outgoing) + [if done then LoadSuccess else Exception]
              && (outcome.Throws? && !outcome.verified ==>
                    inputs == old(inputs) && neuropod == if outcome.replaced then Some(config) else old(neuropod))
              && (outcome.Finishes? || outcome.verified ==> neuropod == Some(config) && inputs == map[])
              && current == None && status == old(status)
      ensures View() == WorkerHandle(old(View()), outcome).0
      ensures channel.outgoing == old(channel.outgoing) + WorkerHandle(old(View()), outcome).1
      ensures channel.incoming == old(channel.incoming)
    {
      if outcome.Throws? && !outcome.verified {
        if outcome.replaced {
          neuropod := Some(config);
        }
        SendException();
        return;
      }
      neuropod := Some(config);
      inputs := map[];
      var ok := SendReply(LoadSuccess, outcome.Throws?);
      if ok {
        current := None;
      } else {
        SendException();
      }
    }

    /** The received tensors are stored, or some of them and EXCEPTION is sent. */
    method HandleAddInput(tmp: ValueMap, outcome: Outcome)
      requires status == Running && current == Some(AddInput(tmp))
      modifies this, channel, channel.verifier
      ensures status == Running ==>
                && Stored(old(inputs), tmp, if outcome.Throws? then outcome.names else tmp.Keys, inputs)
                && channel.outgoing == old(channel.outgoing) + (if outcome.Throws? then [Exception] else [])
                && current == None && neuropod == old(neuropod)
      ensures status == (if outcome.Finishes? && old(neuropod).None? && tmp != map[] then Crashed else Running)
      ensures View() == WorkerHandle(old(View()), outcome).0
      ensures channel.outgoing == old(channel.outgoing) + WorkerHandle(old(View()), outcome).1
      ensures channel.incoming == old(channel.incoming)
    {
      if outcome.Finishes? && neuropod.None? && tmp != map[] {
        status := Crashed;
        return;
      }
      if outcome.Throws? {
        PickedMeet(tmp, outcome.names);
        StoreInputs(tmp, tmp.Keys * outcome.names);
        SendException();
      } else {
        PickedAll(tmp);
        StoreInputs(tmp, tmp.Keys);
        current := None;
      }
    }

    /** The model's output for all stored inputs, which are then emptied, unless it throws; then EXCEPTION. */
    method HandleInfer(requested: Names, outcome: Outcome)
      requires status == Running && current == Some(Infer(requested))
      modifies this, channel, channel.verifier
      ensures old(neuropod).Some? ==>
                var done := outcome.Finishes? && Allowed(old(View()).verifier, RETURN_OUTPUT);
                && channel.outgoing
                   == old(channel.outgoing)
                      + [if done then ReturnOutput(InferOf(old(neuropod).value, old(inputs), requested)) else Exception]
                && inputs == (if done then map[] else old(inputs))
                && current == None && neuropod == old(neuropod) && status == Running
      ensures View() == WorkerHandle(old(View()), outcome).0
      ensures channel.outgoing == old(channel.outgoing) + WorkerHandle(old(View()), outcome).1
      ensures channel.incoming == old(channel.incoming)
    {
      if neuropod.None? {
        status := Crashed;
        return;
      }
      if outcome.Throws? && !outcome.verified {
        SendException();
        return;
      }
      var output := InferOf(neuropod.value, inputs, requested);
      var ok := SendReply(ReturnOutput(output), outcome.Throws?);
      if ok {
        inputs := map[];
        current := None;
      } else {
        SendException();
      }
    }

    /** One pass through the try block and its catch blocks. */
    method Handle(outcome: Outcome)
      requires status == Running && current.Some?
      modifies this, channel, channel.verifier
      ensures View() == WorkerHandle(old(View()), outcome).0
      ensures channel.outgoing == old(channel.outgoing) + WorkerHandle(old(View()), outcome).1
      ensures channel.incoming == old(channel.incoming)
      ensures var m := old(current).value;
              && (m.Shutdown? ==> status == Stopped && channel.outgoing == old(channel.outgoing))
              && (m.LoadSuccess? || m.ReturnOutput? || m.Exception? ==>
                    status == Running && channel.outgoing == old(channel.outgoing) + [Exception])
              && (m.Shutdown? || m.LoadSuccess? || m.ReturnOutput? || m.Exception? ==>
                    current == None && neuropod == old(neuropod) && inputs == old(inputs))
    {
      match current.value {
        case LoadNeuropod(config) => HandleLoad(config, outcome);
        case AddInput(tmp) => HandleAddInput(tmp, outcome);
        case Infer(requested) => HandleInfer(requested, outcome);
        case Shutdown =>
          status := Stopped;
          current := None;
        case _ => SendException();
      }
    }

    /** A message is received outside of the try block, then handled inside of it. */
    method Pass(outcome: Outcome)
      requires status == Running && current == None && channel.incoming != []
      modifies this, channel, channel.verifier
      ensures View() == WorkerPass(old(View()), old(channel.incoming)[0], outcome).0
      ensures channel.outgoing == old(channel.outgoing) + WorkerPass(old(View()), old(channel.incoming)[0], outcome).1
      ensures channel.incoming == old(channel.incoming)[1..]
    {
      Receive();
      if status == Running {
        Handle(outcome);
      }
    }

    /** multiprocess_worker_loop, until it ends or has to wait; one outcome per pass. */
    method Loop(outcomes: seq<Outcome>)
      modifies this, channel, channel.verifier
      ensures (View(), channel.incoming, channel.outgoing)
              == WorkerRun(old(View()), old(channel.incoming), outcomes, old(channel.outgoing))
      ensures var n := |old(channel.incoming)| - |channel.incoming|;
              && 0 <= n <= |outcomes| && channel.incoming == old(channel.incoming)[n..]
              && (status != Running || current.Some? || channel.incoming == [] || n == |outcomes|)
    {
      var i := 0;
      while status == Running && current.None? && channel.incoming != [] && i < |outcomes|
        invariant 0 <= i <= |outcomes| && i <= |old(channel.incoming)|
        invariant channel.incoming == old(channel.incoming)[i..]
        invariant WorkerRun(View(), channel.incoming, outcomes[i..], channel.outgoing)
                  == WorkerRun(old(View()), old(channel.incoming), outcomes, old(channel.outgoing))
        decreases |outcomes| - i
      {
        assert outcomes[i..][1..] == outcomes[i + 1..];
        Pass(outcomes[i]);
        i := i + 1;
      }
    }
  }

  // ------------------------------------------------------ The worker loop as steps of the machine

  /** A pass of the loop is one step of the protocol machine or two. */
  lemma PassIsSteps(s: State, outcome: Outcome)
    requires Enabled(s, WorkerReceiveStep)
    ensures var received := Apply(s, WorkerReceiveStep);
            var (w, replies) := WorkerPass(s.worker, s.toWorker[0], outcome);
            if received.worker.status == Running then
              && Enabled(received, WorkerHandleStep(outcome))
              && Apply(received, WorkerHandleStep(outcome))
                 == s.(worker := w, toWorker := s.toWorker[1..], toMain := s.toMain + replies,
                       threw := s.threw || outcome.Throws?)
            else received == s.(worker := w, toWorker := s.toWorker[1..])
  {
  }

  function PassSteps(s: State, outcome: Outcome): seq<Step>
    requires Enabled(s, WorkerReceiveStep)
  {
    if Apply(s, WorkerReceiveStep).worker.status == Running then [WorkerReceiveStep, WorkerHandleStep(outcome)]
    else [WorkerReceiveStep]
  }

  /** The state after a pass. */
  function Passed(s: State, outcome: Outcome): State
    requires Enabled(s, WorkerReceiveStep)
  {
    var received := Apply(s, WorkerReceiveStep);
    if received.worker.status == Running then Apply(received, WorkerHandleStep(outcome)) else received
  }

  lemma PassRun(s: State, outcome: Outcome, rest: seq<Step>)
    requires Enabled(s, WorkerReceiveStep)
    ensures var (w, replies) := WorkerPass(s.worker, s.toWorker[0], outcome);
            var t := Passed(s, outcome);
            t.worker == w && t.toWorker == s.toWorker[1..] && t.main == s.main && t.toMain == s.toMain + replies
    ensures var t := Passed(s, outcome);
            PT.Valid(t, rest) ==>
              && PT.Valid(s, PassSteps(s, outcome) + rest)
              && PT.After(s, PassSteps(s, outcome) + rest) == PT.After(t, rest)
  {
    PassIsSteps(s, outcome);
    var received := Apply(s, WorkerReceiveStep);
    if received.worker.status == Running {
      if PT.Valid(Passed(s, outcome), rest) {
        PT.Prepend(received, WorkerHandleStep(outcome), rest);
        PT.Prepend(s, WorkerReceiveStep, [WorkerHandleStep(outcome)] + rest);
        assert PassSteps(s, outcome) + rest == [WorkerReceiveStep] + ([WorkerHandleStep(outcome)] + rest);
      }
    } else {
      assert s.toMain + [] == s.toMain;
      if PT.Valid(received, rest) {
        PT.Prepend(s, WorkerReceiveStep, rest);
      }
    }
  }

  /** What Loop does in one call is a run of steps of the protocol machine. */
  lemma {:induction false} LoopIsRun(s: State, outcomes: seq<Outcome>) returns (steps: seq<Step>)
    ensures PT.Valid(s, steps)
    ensures var t := PT.After(s, steps);
            && (t.worker, t.toWorker, t.toMain) == WorkerRun(s.worker, s.toWorker, outcomes, s.toMain)
            && t.main == s.main
    decreases |outcomes|
  {
    if s.worker.status != Running || s.worker.current.Some? || s.toWorker == [] || outcomes == [] {
      steps := [];
    } else {
      var rest := LoopIsRun(Passed(s, outcomes[0]), outcomes[1..]);
      PassRun(s, outcomes[0], rest);
      steps := PassSteps(s, outcomes[0]) + rest;
    }
  }
}

/** What the main backend and the worker keep in every run, exceptions included. */
module ProtocolTheorems {
  import opened Control
  import opened Protocol
  import opened Wrappers

  lemma InitInv(config: Config)
    ensures Inv(Init(config))
  {
  }

  lemma LoadKeeps(s: State, fails: bool)
    requires Inv(s) && Enabled(s, LoadStep(fails))
    ensures Inv(Apply(s, LoadStep(fails)))
  {
  }

  lemma InferKeeps(s: State, call: Call, fails: bool)
    requires Inv(s) && Enabled(s, InferStep(call, fails))
    ensures Inv(Apply(s, InferStep(call, fails)))
  {
  }

  lemma SendInferKeeps(s: State, fails: bool)
    requires Inv(s) && Enabled(s, SendInferStep(fails))
    ensures Inv(Apply(s, SendInferStep(fails)))
  {
  }

  lemma MainReceiveKeeps(s: State, fails: bool)
    requires Inv(s) && Enabled(s, MainReceiveStep(fails))
    ensures Inv(Apply(s, MainReceiveStep(fails)))
  {
  }

  lemma AnsweredKept(s: State, t: State, open: nat)
    requires Answered(s, open) && t.config == s.config
    requires t.main.consumed == s.main.consumed && t.main.calls == s.main.calls && t.main.returned == s.main.returned
    ensures Answered(t, open)
  {
  }

  lemma CloseKeeps(s: State)
    requires Inv(s) && Enabled(s, CloseStep)
    ensures Inv(Apply(s, CloseStep))
  {
    var t := Apply(s, CloseStep);
    var open := if Answered(s, 0) then 0 else 1;
    AnsweredKept(s, t, open);
    if s.toWorker == [] {
      assert t.toWorker == [Shutdown];
    }
    assert Closing(t);
  }

  lemma WorkerReceiveKeeps(s: State)
    requires Inv(s) && Enabled(s, WorkerReceiveStep)
    ensures Inv(Apply(s, WorkerReceiveStep))
  {
  }

  lemma HandleLoadKeeps(s: State, outcome: Outcome)
    requires Inv(s) && Enabled(s, WorkerHandleStep(outcome)) && s.worker.current.value.LoadNeuropod?
    ensures Inv(Apply(s, WorkerHandleStep(outcome)))
  {
  }

  lemma HandleAddInputKeeps(s: State, outcome: Outcome)
    requires Inv(s) && Enabled(s, WorkerHandleStep(outcome)) && s.worker.current.value.AddInput?
    ensures Inv(Apply(s, WorkerHandleStep(outcome)))
  {
  }

  lemma HandleInferKeeps(s: State, outcome: Outcome)
    requires Inv(s) && Enabled(s, WorkerHandleStep(outcome)) && s.worker.current.value.Infer?
    ensures Inv(Apply(s, WorkerHandleStep(outcome)))
  {
  }

  lemma HandleOtherKeeps(s: State, outcome: Outcome)
    requires Inv(s) && Enabled(s, WorkerHandleStep(outcome))
    requires var m := s.worker.current.value; !m.LoadNeuropod? && !m.AddInput? && !m.Infer?
    ensures Inv(Apply(s, WorkerHandleStep(outcome)))
  {
  }

  lemma WorkerHandleKeeps(s: State, outcome: Outcome)
    requires Inv(s) && Enabled(s, WorkerHandleStep(outcome))
    ensures Inv(Apply(s, WorkerHandleStep(outcome)))
  {
    match s.worker.current.value
    case LoadNeuropod(_) => HandleLoadKeeps(s, outcome);
    case AddInput(_) => HandleAddInputKeeps(s, outcome);
    case Infer(_) => HandleInferKeeps(s, outcome);
    case _ => HandleOtherKeeps(s, outcome);
  }

  /** Every step of either process keeps the invariant, whatever is thrown where. */
  lemma StepInv(s: State, step: Step)
    requires Inv(s) && Enabled(s, step)
    ensures Inv(Apply(s, step))
  {
    match step
    case LoadStep(fails) => LoadKeeps(s, fails);
    case InferStep(call, fails) => InferKeeps(s, call, fails);
    case SendInferStep(fails) => SendInferKeeps(s, fails);
    case MainReceiveStep(fails) => MainReceiveKeeps(s, fails);
    case CloseStep => CloseKeeps(s);
    case WorkerReceiveStep => WorkerReceiveKeeps(s);
    case WorkerHandleStep(outcome) => WorkerHandleKeeps(s, outcome);
  }

  predicate Valid(s: State, steps: seq<Step>)
    decreases |steps|
  {
    |steps| == 0 || (Enabled(s, steps[0]) && Valid(Apply(s, steps[0]), steps[1..]))
  }

  function After(s: State, steps: seq<Step>): State
    requires Valid(s, steps)
    decreases |steps|
  {
    if |steps| == 0 then s else After(Apply(s, steps[0]), steps[1..])
  }

  lemma {:induction false} RunInv(s: State, steps: seq<Step>)
    requires Inv(s) && Valid(s, steps)
    ensures Inv(After(s, steps))
    ensures After(s, steps).config == s.config
    decreases |steps|
  {
    if |steps| > 0 {
      StepInv(s, steps[0]);
      RunInv(Apply(s, steps[0]), steps[1..]);
    }
  }

  /**
    In every run, exceptions included: the k-th consumed output is what the requested model computes
    from exactly the inputs of the k-th call, and that call returns this or nothing; at most the last
    call goes unanswered; no received message is ever unexpected; the worker never dies of a rejected
    message or a missing model.
   */
  lemma ResultsMatchCalls(config: Config, steps: seq<Step>)
    requires Valid(Init(config), steps)
    ensures var s := After(Init(config), steps);
            && |s.main.consumed| <= |s.main.calls| <= |s.main.consumed| + 1 && |s.main.returned| == |s.main.consumed|
            && (forall k | 0 <= k < |s.main.consumed| ::
                  && s.main.consumed[k] == InferOf(config, s.main.calls[k].inputs, s.main.calls[k].requested)
                  && (s.main.returned[k] == None || s.main.returned[k] == Some(s.main.consumed[k])))
            && !s.main.surprised && s.worker.status != Crashed
  {
    InitInv(config);
    RunInv(Init(config), steps);
  }

  /** At most two messages are ever outstanding in either direction. */
  lemma FewOutstanding(config: Config, steps: seq<Step>)
    requires Valid(Init(config), steps)
    ensures var s := After(Init(config), steps); |s.toWorker| <= 2 && |s.toMain| <= 2
  {
    InitInv(config);
    RunInv(Init(config), steps);
  }

  // ------------------------------------------------------------------ After an exception

  /** A request was answered by EXCEPTION, or could not be sent after it had been verified. */
  predicate Failed(s: State) {
    (s.main.pc == Idle || s.main.pc == Closed)
    && (s.main.verifier == Last(LOAD_NEUROPOD) || s.main.verifier == Last(ADD_INPUT) || s.main.verifier == Last(INFER))
    && (s.main.verifier == Last(LOAD_NEUROPOD) <==> !s.main.loaded)
  }

  lemma ExceptionFails(s: State, fails: bool)
    requires Inv(s) && Enabled(s, MainReceiveStep(fails)) && s.toMain[0] == Exception
    ensures Failed(Apply(s, MainReceiveStep(fails)))
  {
  }

  lemma UnsentFails(s: State, step: Step)
    requires Inv(s) && Enabled(s, step) && s.main.pc != Closed
    requires step == LoadStep(true) || (step.InferStep? && step.fails) || step == SendInferStep(true)
    ensures if step.LoadStep? && (s.main.loaded || !Allowed(s.main.verifier, LOAD_NEUROPOD)) then
              Apply(s, step) == s.(threw := true)
            else if step.InferStep? && (!s.main.loaded || !Allowed(s.main.verifier, ADD_INPUT)) then
              Apply(s, step) == s.(threw := true)
            else Failed(Apply(s, step))
  {
    assert s.toWorker + [] == s.toWorker;
  }

  lemma FailedStep(s: State, step: Step)
    requires Failed(s) && Enabled(s, step)
    ensures var t := Apply(s, step);
            && Failed(t) && t.main.calls == s.main.calls
            && t.main.consumed == s.main.consumed && t.main.returned == s.main.returned
            && (step.LoadStep? || step.InferStep? ==> t == s.(threw := t.threw))
  {
    assert s.toWorker + [] == s.toWorker;
  }

  /**
    Once a request has failed in either of these ways, in no continuation does the backend send another
    request or consume another reply, so a reply that the worker still owes is never used.
   */
  lemma {:induction false} FailedForever(s: State, steps: seq<Step>)
    requires Failed(s) && Valid(s, steps)
    ensures var t := After(s, steps);
            && Failed(t) && t.main.calls == s.main.calls
            && t.main.consumed == s.main.consumed && t.main.returned == s.main.returned
    decreases |steps|
  {
    if |steps| > 0 {
      FailedStep(s, steps[0]);
      FailedForever(Apply(s, steps[0]), steps[1..]);
    }
  }

  // ---------------------------------------------------------------------- What infer returns

  /** The backend consumes the output of its call in this step. */
  predicate Consumes(s: State, step: Step) {
    && step.MainReceiveStep? && s.main.pc.AwaitReply? && s.toMain != []
    && Allowed(s.main.verifier, TypeOf(s.toMain[0])) && s.toMain[0].ReturnOutput?
  }

  /** For each output that a run consumes, whether reading its payload throws. */
  ghost function ReadFailures(s: State, steps: seq<Step>): seq<bool>
    requires Valid(s, steps)
    decreases |steps|
  {
    if |steps| == 0 then []
    else (if Consumes(s, steps[0]) then [steps[0].fails] else []) + ReadFailures(Apply(s, steps[0]), steps[1..])
  }

  /** An output that is read is what the call returns, and each consumption is a return of the one call. */
  lemma ReturnStep(s: State, step: Step)
    requires Enabled(s, step)
    ensures var t := Apply(s, step);
            && t.main.consumed == s.main.consumed + (if Consumes(s, step) then [s.toMain[0].output] else [])
            && t.main.returned
               == s.main.returned
                  + (if !Consumes(s, step) then [] else if step.fails then [None] else [Some(s.toMain[0].output)])
            && (Consumes(s, step) && step.fails ==> t.threw)
  {
  }

  /** The outputs, None where reading them failed. */
  function Read(outputs: seq<Output>, failures: seq<bool>): (r: seq<Option<Output>>)
    requires |outputs| == |failures|
  {
    seq(|outputs|, k requires 0 <= k < |outputs| => if failures[k] then None else Some(outputs[k]))
  }

  lemma ReadMore(c: seq<Output>, r: seq<Option<Output>>, a: seq<Output>, b: seq<Output>, f: seq<bool>, g: seq<bool>)
    requires |a| == |f| && |b| == |g|
    ensures c + a + b == c + (a + b) && r + Read(a, f) + Read(b, g) == r + Read(a + b, f + g)
  {
    assert Read(a, f) + Read(b, g) == Read(a + b, f + g);
  }

  lemma {:induction false} ReturnsFrom(s: State, steps: seq<Step>) returns (more: seq<Output>)
    requires Valid(s, steps)
    ensures |more| == |ReadFailures(s, steps)| && After(s, steps).main.consumed == s.main.consumed + more
    ensures After(s, steps).main.returned == s.main.returned + Read(more, ReadFailures(s, steps))
    decreases |steps|
  {
    if |steps| == 0 {
      more := [];
    } else {
      var t := Apply(s, steps[0]);
      ReturnStep(s, steps[0]);
      var rest := ReturnsFrom(t, steps[1..]);
      var head := if Consumes(s, steps[0]) then [s.toMain[0].output] else [];
      var fails := if Consumes(s, steps[0]) then [steps[0].fails] else [];
      more := head + rest;
      assert Read(head, fails) == if head == [] then [] else if fails[0] then [None] else [Some(head[0])];
      ReadMore(s.main.consumed, s.main.returned, head, rest, fails, ReadFailures(t, steps[1..]));
    }
  }

  lemma {:induction false} FailuresThrow(s: State, steps: seq<Step>)
    requires Valid(s, steps) && !After(s, steps).threw
    ensures forall k | 0 <= k < |ReadFailures(s, steps)| :: !ReadFailures(s, steps)[k]
    decreases |steps|
  {
    if |steps| > 0 {
      ReturnStep(s, steps[0]);
      if Apply(s, steps[0]).threw {
        ThrewMonotone(Apply(s, steps[0]), steps[1..]);
      }
      FailuresThrow(Apply(s, steps[0]), steps[1..]);
    }
  }

  /**
    In every run, exceptions included: the k-th call whose output is consumed throws exactly if reading
    that output throws, and otherwise returns what the configured model computes from exactly its inputs;
    in a run without exceptions every such call returns it.
   */
  lemma CallsReturn(config: Config, steps: seq<Step>)
    requires Valid(Init(config), steps)
    ensures var s, failures := After(Init(config), steps), ReadFailures(Init(config), steps);
            && |s.main.returned| == |failures| && |failures| <= |s.main.calls| <= |failures| + 1
            && (forall k | 0 <= k < |failures| ::
                  s.main.returned[k] == if failures[k] then None else Some(Answer(config, s.main.calls[k])))
            && (!s.threw ==> forall k | 0 <= k < |failures| :: !failures[k])
  {
    ResultsMatchCalls(config, steps);
    var more := ReturnsFrom(Init(config), steps);
    assert [] + more == more;
    if !After(Init(config), steps).threw {
      FailuresThrow(Init(config), steps);
    }
  }

  function Answer(config: Config, call: Call): Output {
    InferOf(config, call.inputs, call.requested)
  }

  // ------------------------------------------------------- Requests that are answered

  lemma Prepend(s: State, step: Step, rest: seq<Step>)
    requires Enabled(s, step) && Valid(Apply(s, step), rest)
    ensures Valid(s, [step] + rest) && After(s, [step] + rest) == After(Apply(s, step), rest)
  {
    assert ([step] + rest)[1..] == rest;
  }

  /** The worker receives a message and handles it; then the backend receives the reply. */
  function ReplySteps(): seq<Step> {
    [WorkerReceiveStep] + ([WorkerHandleStep(Finishes)] + ([MainReceiveStep(false)] + []))
  }

  function LoadSteps(): seq<Step> {
    [LoadStep(false)] + ReplySteps()
  }

  lemma ReplyRun(s: State)
    requires Enabled(s, WorkerReceiveStep)
    requires var s1 := Apply(s, WorkerReceiveStep);
             && Enabled(s1, WorkerHandleStep(Finishes))
             && Enabled(Apply(s1, WorkerHandleStep(Finishes)), MainReceiveStep(false))
    ensures Valid(s, ReplySteps())
    ensures var s1 := Apply(s, WorkerReceiveStep);
            After(s, ReplySteps()) == Apply(Apply(s1, WorkerHandleStep(Finishes)), MainReceiveStep(false))
  {
    var s1 := Apply(s, WorkerReceiveStep);
    var s2 := Apply(s1, WorkerHandleStep(Finishes));
    Prepend(s2, MainReceiveStep(false), []);
    Prepend(s1, WorkerHandleStep(Finishes), [MainReceiveStep(false)] + []);
    Prepend(s, WorkerReceiveStep, [WorkerHandleStep(Finishes)] + ([MainReceiveStep(false)] + []));
  }

  /** When nothing throws, a backend that loads its model is ready for requests. */
  lemma LoadAnswers(config: Config)
    ensures Valid(Init(config), LoadSteps()) && Ready(After(Init(config), LoadSteps()))
    ensures After(Init(config), LoadSteps()).main.returned == []
  {
    var s := Init(config);
    var s1 := Apply(s, LoadStep(false));
    assert s1.toWorker == [LoadNeuropod(config)];
    var s2 := Apply(s1, WorkerReceiveStep);
    assert s2.worker.current == Some(LoadNeuropod(config)) && s2.toWorker == [];
    var s3 := Apply(s2, WorkerHandleStep(Finishes));
    assert s3.toMain == [LoadSuccess];
    assert Apply(s3, MainReceiveStep(false)).toMain == [];
    ReplyRun(s1);
    Prepend(s, LoadStep(false), ReplySteps());
  }

  function InferSteps(call: Call): seq<Step> {
    [InferStep(call, false)]
    + ([SendInferStep(false)] + ([WorkerReceiveStep] + ([WorkerHandleStep(Finishes)] + ReplySteps())))
  }

  /** When nothing throws, a call of infer on a loaded backend returns its answer, and the backend is ready again. */
  lemma InferAnswers(s: State, call: Call)
    requires Ready(s)
    ensures Valid(s, InferSteps(call))
    ensures var t := After(s, InferSteps(call));
            && Ready(t) && t.threw == s.threw
            && t.main.calls == s.main.calls + [call]
            && t.main.returned == s.main.returned + [Some(Answer(s.config, call))]
  {
    RequestSent(s, call);
    var s1 := Apply(s, InferStep(call, false));
    var s2 := Apply(s1, SendInferStep(false));
    var s3 := Apply(s2, WorkerReceiveStep);
    InputsStored(s3, call);
    InferReply(Apply(s3, WorkerHandleStep(Finishes)), call);
    Prepend(s3, WorkerHandleStep(Finishes), ReplySteps());
    Prepend(s2, WorkerReceiveStep, [WorkerHandleStep(Finishes)] + ReplySteps());
    Prepend(s1, SendInferStep(false), [WorkerReceiveStep] + ([WorkerHandleStep(Finishes)] + ReplySteps()));
    Prepend(s, InferStep(call, false),
            [SendInferStep(false)] + ([WorkerReceiveStep] + ([WorkerHandleStep(Finishes)] + ReplySteps())));
  }

  lemma RequestSent(s: State, call: Call)
    requires Ready(s)
    ensures Enabled(s, InferStep(call, false)) && Enabled(Apply(s, InferStep(call, false)), SendInferStep(false))
    ensures var s2 := Apply(Apply(s, InferStep(call, false)), SendInferStep(false));
            && Enabled(s2, WorkerReceiveStep)
            && var s3 := Apply(s2, WorkerReceiveStep);
               && Inferring(s3) && s3.main.pc == AwaitReply(call) && Busy(s3, AddInput(call.inputs))
               && s3.worker.inputs == map[] && s3.toWorker == [Infer(call.requested)] && s3.toMain == []
               && s3.main.calls == s.main.calls + [call] && s3.main.returned == s.main.returned
               && s3.threw == s.threw && s3.config == s.config
  {
    var s1 := Apply(s, InferStep(call, false));
    assert s1.main.pc == Added(call) && s1.toWorker == [AddInput(call.inputs)];
    var s2 := Apply(s1, SendInferStep(false));
    assert s2.main.pc == AwaitReply(call) && s2.toWorker == [AddInput(call.inputs), Infer(call.requested)];
    assert Apply(s2, WorkerReceiveStep).toWorker == [Infer(call.requested)];
  }

  lemma InputsStored(s: State, call: Call)
    requires Inferring(s) && s.main.pc == AwaitReply(call) && Busy(s, AddInput(call.inputs)) && s.worker.inputs == map[]
    requires s.toWorker == [Infer(call.requested)] && s.toMain == []
    ensures var t := Apply(s, WorkerHandleStep(Finishes));
            && t.worker.inputs == call.inputs && At(t, Last(ADD_INPUT)) && Inferring(t)
            && t.toWorker == s.toWorker && t.toMain == [] && t.main == s.main && t.threw == s.threw
  {
  }

  lemma InferReply(s: State, call: Call)
    requires Inferring(s) && s.main.pc == AwaitReply(call) && At(s, Last(ADD_INPUT)) && s.worker.inputs == call.inputs
    requires s.toWorker == [Infer(call.requested)] && s.toMain == []
    ensures Valid(s, ReplySteps())
    ensures var t := After(s, ReplySteps());
            && Ready(t) && t.threw == s.threw && t.main.calls == s.main.calls
            && t.main.returned == s.main.returned + [Some(Answer(s.config, call))]
  {
    var s1 := Apply(s, WorkerReceiveStep);
    assert s1.worker.current == Some(Infer(call.requested)) && s1.toWorker == [];
    var s2 := Apply(s1, WorkerHandleStep(Finishes));
    assert s2.toMain == [ReturnOutput(Answer(s.config, call))];
    assert Apply(s2, MainReceiveStep(false)).toMain == [];
    ReplyRun(s);
  }

  // ------------------------------------------------------------- Logs without exceptions

  /** One end's accepted log is a prefix of the other's, and the gap is what is in flight. */
  predicate LogsAgree(s: State) {
    || (s.main.log == s.worker.log + Types(s.toWorker) && s.toMain == [])
    || (s.worker.log == s.main.log + Types(s.toMain) && s.toWorker == [])
  }

  lemma TypesConcat(a: seq<Msg>, b: seq<Msg>)
    ensures Types(a + b) == Types(a) + Types(b)
  {
  }

  lemma SendsAreLogged(v: Main, config: Config, call: Call)
    ensures CallLoad(v, config, false).0.log == v.log + Types(CallLoad(v, config, false).1)
    ensures CallInfer(v, call, false).0.log == v.log + Types(CallInfer(v, call, false).1)
    ensures v.pc.Added? ==> SendInfer(v, false).0.log == v.log + Types(SendInfer(v, false).1)
    ensures Pass(v, SHUTDOWN).log == v.log + Types([Shutdown])
  {
  }

  /** When the backend sends and no exception is on its way, it has read all replies. */
  lemma SendsWithNothingToRead(s: State)
    requires Inv(s) && !s.threw && (s.main.pc == Idle || s.main.pc.Added?)
    ensures s.toMain == []
  {
  }

  lemma MainLogs(s: State, step: Step)
    requires Inv(s) && LogsAgree(s) && Enabled(s, step) && !Apply(s, step).threw
    requires step.LoadStep? || step.InferStep? || step.SendInferStep? || step.CloseStep?
    ensures LogsAgree(Apply(s, step))
  {
    SendsWithNothingToRead(s);
    MainSendLogs(s, step);
  }

  lemma MainSendLogs(s: State, step: Step)
    requires s.toMain == [] && LogsAgree(s) && Enabled(s, step) && !Apply(s, step).threw
    requires step.LoadStep? || step.InferStep? || step.SendInferStep? || step.CloseStep?
    ensures LogsAgree(Apply(s, step))
  {
    assert Types([]) == [];
    assert s.main.log == s.worker.log + Types(s.toWorker);
    var sent := match step
      case LoadStep(_) => CallLoad(s.main, s.config, false).1
      case InferStep(call, _) => CallInfer(s.main, call, false).1
      case SendInferStep(_) => SendInfer(s.main, false).1
      case CloseStep => [Shutdown];
    SendsAreLogged(s.main, s.config, if step.InferStep? then step.call else Call(map[], []));
    TypesConcat(s.toWorker, sent);
  }

  lemma MainReceiveLogs(s: State, fails: bool)
    requires Inv(s) && LogsAgree(s) && Enabled(s, MainReceiveStep(fails))
    ensures LogsAgree(Apply(s, MainReceiveStep(fails)))
  {
    var t := Apply(s, MainReceiveStep(fails));
    assert s.toMain == s.toMain[..1] + s.toMain[1..];
    TypesConcat(s.toMain[..1], s.toMain[1..]);
    assert Types(s.toMain[..1]) == [TypeOf(s.toMain[0])];
    assert t.main.log == s.main.log + [TypeOf(s.toMain[0])];
    assert t.worker.log == t.main.log + Types(t.toMain);
  }

  /** The worker's verifier never refuses a message. */
  lemma ReceiveAllowed(s: State)
    requires Inv(s) && Enabled(s, WorkerReceiveStep)
    ensures Allowed(s.worker.verifier, TypeOf(s.toWorker[0]))
  {
  }

  lemma WorkerReceiveLogs(s: State)
    requires LogsAgree(s) && Enabled(s, WorkerReceiveStep) && Allowed(s.worker.verifier, TypeOf(s.toWorker[0]))
    ensures LogsAgree(Apply(s, WorkerReceiveStep))
  {
    var t := Apply(s, WorkerReceiveStep);
    assert s.toWorker == s.toWorker[..1] + s.toWorker[1..];
    TypesConcat(s.toWorker[..1], s.toWorker[1..]);
    assert Types(s.toWorker[..1]) == [TypeOf(s.toWorker[0])];
    assert t.main.log == t.worker.log + Types(t.toWorker);
  }

  /** What a pass that does not throw sends is logged, and is a reply to the last request. */
  lemma RepliesAreLogged(s: State)
    requires Inv(s) && Enabled(s, WorkerHandleStep(Finishes)) && !s.threw
    ensures var (w, replies) := WorkerHandle(s.worker, Finishes);
            && w.log == s.worker.log + Types(replies)
            && s.toMain == [] && (replies != [] ==> s.toWorker == [])
  {
    assert Types([]) == [];
  }

  lemma WorkerHandleLogs(s: State)
    requires LogsAgree(s) && Enabled(s, WorkerHandleStep(Finishes)) && s.toMain == []
    requires var (w, replies) := WorkerHandle(s.worker, Finishes);
             w.log == s.worker.log + Types(replies) && (replies != [] ==> s.toWorker == [])
    ensures LogsAgree(Apply(s, WorkerHandleStep(Finishes)))
  {
    assert Types([]) == [];
    var (w, replies) := WorkerHandle(s.worker, Finishes);
    assert s.toMain + replies == replies;
  }

  /** Each verifier lets through whatever its end can send next. */
  predicate SendsAllowed(s: State) {
    && (s.main.pc == Idle && !s.main.loaded ==> Allowed(s.main.verifier, LOAD_NEUROPOD))
    && (s.main.pc == Idle && s.main.loaded ==> Allowed(s.main.verifier, ADD_INPUT))
    && (s.main.pc.Added? ==> Allowed(s.main.verifier, INFER))
    && (s.worker.status == Running && s.worker.current.Some? ==>
          && (s.worker.current.value.LoadNeuropod? ==> Allowed(s.worker.verifier, LOAD_SUCCESS))
          && (s.worker.current.value.Infer? ==> Allowed(s.worker.verifier, RETURN_OUTPUT)))
  }

  /** Each verifier lets through whatever its end receives next. */
  predicate ReceivesAllowed(s: State) {
    && (s.main.pc.AwaitLoad? || s.main.pc.AwaitReply? ==>
          s.toMain != [] ==> Allowed(s.main.verifier, TypeOf(s.toMain[0])))
    && (s.worker.status == Running && s.worker.current.None? && s.toWorker != [] ==>
          Allowed(s.worker.verifier, TypeOf(s.toWorker[0])))
  }

  /** In every run without exceptions no send and no received message is refused, on either end. */
  lemma NothingRefused(config: Config, steps: seq<Step>)
    requires Valid(Init(config), steps) && !After(Init(config), steps).threw
    ensures SendsAllowed(After(Init(config), steps)) && ReceivesAllowed(After(Init(config), steps))
  {
    InitInv(config);
    RunInv(Init(config), steps);
    SendsFollow(After(Init(config), steps));
    ReceivesFollow(After(Init(config), steps));
  }

  lemma SendsFollow(s: State)
    requires Inv(s) && !s.threw
    ensures SendsAllowed(s)
  {
  }

  lemma ReceivesFollow(s: State)
    requires Inv(s)
    ensures ReceivesAllowed(s)
  {
  }

  /** In every run without exceptions the two logs agree up to what is in flight. */
  lemma {:induction false} LogsAgreeThroughout(s: State, steps: seq<Step>)
    requires Inv(s) && LogsAgree(s) && Valid(s, steps) && !After(s, steps).threw
    ensures LogsAgree(After(s, steps)) && !s.threw
    decreases |steps|
  {
    if |steps| > 0 {
      StepInv(s, steps[0]);
      var t := Apply(s, steps[0]);
      if t.threw {
        ThrewMonotone(t, steps[1..]);
      }
      match steps[0] {
        case MainReceiveStep(fails) => MainReceiveLogs(s, fails);
        case WorkerReceiveStep =>
          ReceiveAllowed(s);
          WorkerReceiveLogs(s);
        case WorkerHandleStep(outcome) =>
          RepliesAreLogged(s);
          WorkerHandleLogs(s);
        case _ => MainLogs(s, steps[0]);
      }
      LogsAgreeThroughout(t, steps[1..]);
    }
  }

  lemma {:induction false} ThrewMonotone(s: State, steps: seq<Step>)
    requires Valid(s, steps) && s.threw
    ensures After(s, steps).threw
    decreases |steps|
  {
    if |steps| > 0 {
      ThrewMonotone(Apply(s, steps[0]), steps[1..]);
    }
  }
}

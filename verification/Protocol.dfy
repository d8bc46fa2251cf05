/**
  The main backend and the worker loop, joined by one control channel in each
  direction. Exceptions may be raised in either process at any point of any request,
  also between the verification of a message and its sending.

  A value map stands for the tensors in it; `InferOf` is what a loaded model computes
  from its inputs, left uninterpreted.
 */
module Protocol {
  import opened Control
  import opened Wrappers

  type ValueMap = map<string, nat>
  type Names = seq<string>
  type Config = string

  datatype Output = InferOf(model: Config, inputs: ValueMap, requested: Names)

  datatype Msg =
    | LoadNeuropod(config: Config)
    | LoadSuccess
    | AddInput(inputs: ValueMap)
    | Infer(requested: Names)
    | ReturnOutput(output: Output)
    | Shutdown
    | Exception

  function TypeOf(m: Msg): MessageType {
    match m
    case LoadNeuropod(_) => LOAD_NEUROPOD
    case LoadSuccess => LOAD_SUCCESS
    case AddInput(_) => ADD_INPUT
    case Infer(_) => INFER
    case ReturnOutput(_) => RETURN_OUTPUT
    case Shutdown => SHUTDOWN
    case Exception => EXCEPTION
  }

  function Types(ms: seq<Msg>): seq<MessageType> {
    seq(|ms|, i requires 0 <= i < |ms| => TypeOf(ms[i]))
  }

  // ------------------------------------------------------------------- The main backend

  datatype Call = Call(inputs: ValueMap, requested: Names)

  /** Where MultiprocessNeuropodBackend stands in load_model_internal or infer_internal. */
  datatype MainPc = Idle | AwaitLoad | Added(call: Call) | AwaitReply(call: Call) | Closed

  datatype Main = Main(
    pc: MainPc,
    loaded: bool,
    verifier: VerifierState,
    log: seq<MessageType>,      // accepted by the verifier
    calls: seq<Call>,           // infer calls that sent ADD_INPUT
    consumed: seq<Output>,      // of the RETURN_OUTPUT messages they received
    returned: seq<Option<Output>>, // what those calls returned, None where reading the payload threw
    surprised: bool)            // a received message was rejected, or was of an unexpected type

  const INIT_MAIN := Main(Idle, false, First, [], [], [], [], false)

  /** A checked send or receive that the verifier lets through. */
  function Pass(v: Main, t: MessageType): Main {
    v.(verifier := Advance(v.verifier, t), log := v.log + [t])
  }

  /** load_model followed by the send of load_model_internal; without a message when it throws. */
  function CallLoad(v: Main, config: Config, fails: bool): (Main, seq<Msg>) {
    if v.loaded || !Allowed(v.verifier, LOAD_NEUROPOD) then (v, [])
    else if fails then (Pass(v, LOAD_NEUROPOD), [])
    else (Pass(v, LOAD_NEUROPOD).(pc := AwaitLoad), [LoadNeuropod(config)])
  }

  /** infer followed by the first send of infer_internal. */
  function CallInfer(v: Main, call: Call, fails: bool): (Main, seq<Msg>) {
    if !v.loaded || !Allowed(v.verifier, ADD_INPUT) then (v, [])
    else if fails then (Pass(v, ADD_INPUT), [])
    else (Pass(v, ADD_INPUT).(pc := Added(call), calls := v.calls + [call]), [AddInput(call.inputs)])
  }

  /** The second send of infer_internal. */
  function SendInfer(v: Main, fails: bool): (Main, seq<Msg>)
    requires v.pc.Added?
  {
    if !Allowed(v.verifier, INFER) then (v.(pc := Idle), [])
    else if fails then (Pass(v, INFER).(pc := Idle), [])
    else (Pass(v, INFER).(pc := AwaitReply(v.pc.call)), [Infer(v.pc.call.requested)])
  }

  /**
    recv_message and what wait_for_load_confirmation or infer_internal does with the message; `fails`:
    reading the payload throws.
   */
  function MainReceive(v: Main, m: Msg, fails: bool): Main
    requires v.pc.AwaitLoad? || v.pc.AwaitReply?
  {
    if !Allowed(v.verifier, TypeOf(m)) then v.(pc := Idle, surprised := true)
    else
      var u := Pass(v, TypeOf(m)).(pc := Idle);
      if m.Exception? then u
      else if v.pc.AwaitLoad? then
        if m.LoadSuccess? then u.(loaded := true) else u.(surprised := true)
      else
        if !m.ReturnOutput? then u.(surprised := true)
        else u.(consumed := u.consumed + [m.output], returned := u.returned + [if fails then None else Some(m.output)])
  }

  // -------------------------------------------------------------------- The worker loop

  datatype Status = Running | Stopped | Crashed

  datatype Worker = Worker(
    status: Status,
    verifier: VerifierState,
    log: seq<MessageType>,
    current: Option<Msg>,       // received, not yet handled
    neuropod: Option<Config>,
    inputs: ValueMap)

  const INIT_WORKER := Worker(Running, First, [], None, None, map[])

  /**
    How the body of the try block ends. When it throws: `names` are the inputs already stored,
    `replaced` tells whether a new model was, and `verified` whether the reply had passed the verifier.
   */
  datatype Outcome = Finishes | Throws(names: set<string>, replaced: bool, verified: bool)

  function Note(w: Worker, t: MessageType): Worker {
    w.(verifier := Advance(w.verifier, t), log := w.log + [t])
  }

  /** recv_message is outside of the try block: a rejected message ends the process. */
  function WorkerReceive(w: Worker, m: Msg): Worker {
    if Allowed(w.verifier, TypeOf(m)) then Note(w, TypeOf(m)).(current := Some(m)) else w.(status := Crashed)
  }

  /** The catch blocks. */
  function Report(w: Worker): (Worker, seq<Msg>) {
    (Note(w, EXCEPTION).(current := None), [Exception])
  }

  function Reply(w: Worker, m: Msg): (Worker, seq<Msg>) {
    if Allowed(w.verifier, TypeOf(m)) then (Note(w, TypeOf(m)).(current := None), [m]) else Report(w)
  }

  /** The body throws; the reply may have been verified, but was not sent. */
  function Fail(w: Worker, t: MessageType, verified: bool): (Worker, seq<Msg>) {
    Report(if verified && Allowed(w.verifier, t) then Note(w, t) else w)
  }

  function Picked(tmp: ValueMap, names: set<string>): ValueMap {
    map k | k in tmp && k in names :: tmp[k]
  }

  function Merge(inputs: ValueMap, tmp: ValueMap, names: set<string>): ValueMap {
    inputs + Picked(tmp, names)
  }

  /** One pass through the try block and, if it throws, its catch blocks. */
  function WorkerHandle(w: Worker, outcome: Outcome): (Worker, seq<Msg>)
    requires w.current.Some?
  {
    match w.current.value
    case LoadNeuropod(config) =>
      if outcome.Throws? && outcome.verified
          then Fail(w.(neuropod := Some(config), inputs := map[]), LOAD_SUCCESS, true)
      else if outcome.Throws? then Report(if outcome.replaced then w.(neuropod := Some(config)) else w)
      else Reply(w.(neuropod := Some(config), inputs := map[]), LoadSuccess)
    case AddInput(tmp) =>
      if outcome.Throws? then Report(w.(inputs := Merge(w.inputs, tmp, outcome.names)))
      else if w.neuropod.None? && tmp != map[] then (w.(status := Crashed), [])
      else (w.(inputs := w.inputs + tmp, current := None), [])
    case Infer(requested) =>
      if w.neuropod.None? then (w.(status := Crashed), [])
      else if outcome.Throws? then Fail(w, RETURN_OUTPUT, outcome.verified)
      else
        var (u, reply) := Reply(w, ReturnOutput(InferOf(w.neuropod.value, w.inputs, requested)));
        (if reply[0].Exception? then u else u.(inputs := map[]), reply)
    case Shutdown => (w.(status := Stopped, current := None), [])
    case _ => Report(w)
  }

  // ------------------------------------------------------------------------ The machine

  datatype State = State(config: Config, main: Main, worker: Worker, toWorker: seq<Msg>, toMain: seq<Msg>, threw: bool)

  function Init(config: Config): State {
    State(config, INIT_MAIN, INIT_WORKER, [], [], false)
  }

  datatype Step =
    | LoadStep(fails: bool)
    | InferStep(call: Call, fails: bool)
    | SendInferStep(fails: bool)
    | MainReceiveStep(fails: bool)
    | CloseStep
    | WorkerReceiveStep
    | WorkerHandleStep(outcome: Outcome)

  predicate Enabled(s: State, step: Step) {
    match step
    case LoadStep(_) => s.main.pc == Idle
    case InferStep(_, _) => s.main.pc == Idle
    case SendInferStep(_) => s.main.pc.Added?
    case MainReceiveStep(_) => (s.main.pc.AwaitLoad? || s.main.pc.AwaitReply?) && s.toMain != []
    case CloseStep => s.main.pc == Idle
    case WorkerReceiveStep => s.worker.status == Running && s.worker.current.None? && s.toWorker != []
    case WorkerHandleStep(_) => s.worker.status == Running && s.worker.current.Some?
  }

  function Sent(s: State, r: (Main, seq<Msg>), fails: bool): State {
    s.(main := r.0, toWorker := s.toWorker + r.1, threw := s.threw || fails)
  }

  function Apply(s: State, step: Step): State
    requires Enabled(s, step)
  {
    match step
    case LoadStep(fails) => Sent(s, CallLoad(s.main, s.config, fails), fails)
    case InferStep(call, fails) => Sent(s, CallInfer(s.main, call, fails), fails)
    case SendInferStep(fails) => Sent(s, SendInfer(s.main, fails), fails)
    case MainReceiveStep(fails) =>
      s.(main := MainReceive(s.main, s.toMain[0], fails), toMain := s.toMain[1..], threw := s.threw || fails)
    case CloseStep => s.(main := Pass(s.main, SHUTDOWN).(pc := Closed), toWorker := s.toWorker + [Shutdown])
    case WorkerReceiveStep => s.(worker := WorkerReceive(s.worker, s.toWorker[0]), toWorker := s.toWorker[1..])
    case WorkerHandleStep(outcome) =>
      var (w, replies) := WorkerHandle(s.worker, outcome);
      s.(worker := w, toMain := s.toMain + replies, threw := s.threw || outcome.Throws?)
  }

  // ------------------------------------------------------------------------- The phases

  /** The worker has nothing to do and stands at verifier state v. */
  predicate At(s: State, v: VerifierState) {
    s.worker.status == Running && s.worker.current == None && s.worker.verifier == v
  }

  predicate Busy(s: State, m: Msg) {
    s.worker.status == Running && s.worker.current == Some(m) && s.worker.verifier == Last(TypeOf(m))
  }

  predicate Model(s: State) {
    s.worker.neuropod == Some(s.config)
  }

  /** What was consumed is what the loaded model computed from the calls, in order. */
  predicate Answered(s: State, open: nat) {
    && |s.main.consumed| + open == |s.main.calls| && |s.main.returned| == |s.main.consumed|
    && (forall k | 0 <= k < |s.main.consumed| ::
          s.main.consumed[k] == InferOf(s.config, s.main.calls[k].inputs, s.main.calls[k].requested))
    && (forall k | 0 <= k < |s.main.returned| ::
          s.main.returned[k].Some? ==> s.main.returned[k].value == s.main.consumed[k])
  }

  predicate Starting(s: State) {
    && s.main.pc == Idle && !s.main.loaded && s.main.verifier == First && Answered(s, 0)
    && At(s, First) && s.toWorker == [] && s.toMain == []
  }

  predicate Loading(s: State) {
    && s.main.pc == AwaitLoad && !s.main.loaded && s.main.verifier == Last(LOAD_NEUROPOD) && Answered(s, 0)
    && var load := LoadNeuropod(s.config);
       || (At(s, First) && s.toWorker == [load] && s.toMain == [])
       || (Busy(s, load) && s.toWorker == [] && s.toMain == [])
       || (At(s, Last(LOAD_SUCCESS)) && s.toWorker == [] && s.toMain == [LoadSuccess]
           && Model(s) && s.worker.inputs == map[])
       || (AtLoadFailure(s) && s.toWorker == [] && s.toMain == [Exception] && s.threw)
  }

  predicate AtLoadFailure(s: State) {
    At(s, Last(LOAD_NEUROPOD)) || At(s, Last(LOAD_SUCCESS))
  }

  /** The load threw in the worker, or its request was never sent. */
  predicate LoadFailed(s: State) {
    && s.main.pc == Idle && !s.main.loaded && s.main.verifier == Last(LOAD_NEUROPOD) && Answered(s, 0)
    && (AtLoadFailure(s) || At(s, First)) && s.toWorker == [] && s.toMain == [] && s.threw
  }

  /** ADD_INPUT was verified and never sent. */
  predicate CallUnsent(s: State) {
    && s.main.pc == Idle && s.main.loaded && s.main.verifier == Last(ADD_INPUT) && Answered(s, 0) && s.threw
    && AtBoundary(s) && s.toWorker == [] && s.toMain == [] && Model(s)
  }

  predicate AtBoundary(s: State) {
    At(s, Last(LOAD_SUCCESS)) || At(s, Last(RETURN_OUTPUT))
  }

  /** INFER was verified and never sent behind its ADD_INPUT. */
  predicate InferUnsent(s: State) {
    && s.main.pc == Idle && s.main.loaded && s.main.verifier == Last(INFER) && Answered(s, 1) && Model(s) && s.threw
    && ( || (AtBoundary(s) && |s.toWorker| == 1 && s.toWorker[0].AddInput? && s.toMain == [])
         || (s.worker.current.Some? && s.worker.current.value.AddInput? && Busy(s, s.worker.current.value)
             && s.toWorker == [] && s.toMain == [])
         || (At(s, Last(ADD_INPUT)) && s.toWorker == [] && (s.toMain == [] || s.toMain == [Exception])))
  }

  predicate Ready(s: State) {
    && s.main.pc == Idle && s.main.loaded && Boundary(s.main.verifier) && Answered(s, 0)
    && At(s, s.main.verifier) && s.toWorker == [] && s.toMain == [] && Model(s) && s.worker.inputs == map[]
  }

  /** What of the current request has been sent behind ADD_INPUT. */
  function Rest(s: State): seq<Msg> {
    if s.main.pc.AwaitReply? then [Infer(s.main.pc.call.requested)] else []
  }

  predicate Inferring(s: State) {
    && (s.main.pc.Added? || s.main.pc.AwaitReply?)
    && s.main.verifier == (if s.main.pc.Added? then Last(ADD_INPUT) else Last(INFER))
    && s.main.loaded && Answered(s, 1) && s.main.calls[|s.main.calls| - 1] == s.main.pc.call && Model(s)
    && (Serving(s, s.main.pc.call) || AddThrew(s) || InferThrew(s))
  }

  predicate Serving(s: State, call: Call)
    requires s.main.pc.Added? || s.main.pc.AwaitReply?
  {
    || (AtBoundary(s) && s.worker.inputs == map[]
        && s.toWorker == [AddInput(call.inputs)] + Rest(s) && s.toMain == [])
    || (Busy(s, AddInput(call.inputs)) && s.worker.inputs == map[] && s.toWorker == Rest(s) && s.toMain == [])
    || (At(s, Last(ADD_INPUT)) && s.worker.inputs == call.inputs && s.toWorker == Rest(s) && s.toMain == [])
    || (s.main.pc.AwaitReply? && Busy(s, Infer(call.requested)) && s.worker.inputs == call.inputs
        && s.toWorker == [] && s.toMain == [])
    || (s.main.pc.AwaitReply? && At(s, Last(RETURN_OUTPUT)) && s.worker.inputs == map[] && s.toWorker == []
        && s.toMain == [ReturnOutput(InferOf(s.config, call.inputs, call.requested))])
  }

  predicate AddThrew(s: State)
    requires s.main.pc.Added? || s.main.pc.AwaitReply?
  {
    s.threw && s.toMain == [Exception] &&
    ( || (At(s, Last(ADD_INPUT)) && s.toWorker == Rest(s))
      || (s.main.pc.AwaitReply? && Busy(s, Infer(s.main.pc.call.requested)) && s.toWorker == []))
  }

  /** The inference threw, possibly after ADD_INPUT had thrown; a second reply may follow the first. */
  predicate InferThrew(s: State) {
    && s.threw && s.main.pc.AwaitReply? && s.toWorker == []
    && (At(s, Last(INFER)) || At(s, Last(RETURN_OUTPUT)))
    && 1 <= |s.toMain| <= 2 && s.toMain[0] == Exception
  }

  predicate InferFailed(s: State) {
    && s.main.pc == Idle && s.main.loaded && s.main.verifier == Last(INFER) && Answered(s, 1) && Model(s) && s.threw
    && ( || (At(s, Last(ADD_INPUT)) && |s.toWorker| == 1 && s.toWorker[0].Infer? && s.toMain == [])
         || (s.worker.current.Some? && s.worker.current.value.Infer? && Busy(s, s.worker.current.value)
             && s.toWorker == [] && s.toMain == [])
         || ((At(s, Last(INFER)) || At(s, Last(RETURN_OUTPUT))) && s.toWorker == [] && |s.toMain| <= 1))
  }

  predicate Closing(s: State) {
    && s.main.pc == Closed && (Answered(s, 0) || Answered(s, 1)) && |s.toMain| <= 1 && (s.toMain != [] ==> s.threw)
    && ( || (s.worker.status == Running && s.worker.current == None && s.toWorker == [Shutdown])
         || (AtBoundary(s) && |s.toWorker| == 2 && s.toWorker[0].AddInput? && s.toWorker[1].Shutdown?
             && Model(s) && s.toMain == [] && s.threw)
         || (s.worker.current.Some? && s.worker.current.value.AddInput? && Busy(s, s.worker.current.value)
             && s.toWorker == [Shutdown] && Model(s) && s.toMain == [] && s.threw)
         || (At(s, Last(ADD_INPUT)) && |s.toWorker| == 2 && s.toWorker[0].Infer? && s.toWorker[1].Shutdown?
             && Model(s) && s.toMain == [] && s.threw)
         || (s.worker.current.Some? && s.worker.current.value.Infer? && Busy(s, s.worker.current.value)
             && s.toWorker == [Shutdown] && Model(s) && s.toMain == [] && s.threw)
         || (s.worker.status == Running && s.worker.current == Some(Shutdown) && s.toWorker == [])
         || (s.worker.status == Stopped && s.toWorker == []))
  }

  predicate Inv(s: State) {
    && !s.main.surprised
    && ( || Starting(s) || Loading(s) || LoadFailed(s) || Ready(s) || CallUnsent(s)
         || Inferring(s) || InferUnsent(s) || InferFailed(s) || Closing(s))
  }
}

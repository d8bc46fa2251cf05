/** The control messages, the transition verifier, and the language of traces it accepts. */
module Control {

  datatype MessageType =
    | LOAD_NEUROPOD
    | LOAD_SUCCESS
    | ADD_INPUT
    | INFER
    | RETURN_OUTPUT
    | SHUTDOWN
    | EXCEPTION

  predicate AlwaysAllowed(t: MessageType) {
    t == SHUTDOWN || t == EXCEPTION
  }

  const ALLOWED_TRANSITIONS: set<(MessageType, MessageType)> := {
    (LOAD_NEUROPOD, LOAD_SUCCESS),
    (LOAD_SUCCESS, ADD_INPUT),
    (LOAD_SUCCESS, LOAD_NEUROPOD),
    (ADD_INPUT, INFER),
    (INFER, RETURN_OUTPUT),
    (RETURN_OUTPUT, ADD_INPUT),
    (RETURN_OUTPUT, LOAD_NEUROPOD)}

  /** Before the first message, or the last message that was not SHUTDOWN or EXCEPTION. */
  datatype VerifierState = First | Last(messageType: MessageType)

  predicate Allowed(v: VerifierState, t: MessageType) {
    if AlwaysAllowed(t) then true
    else if v == First then t == LOAD_NEUROPOD
    else (v.messageType, t) in ALLOWED_TRANSITIONS
  }

  function Advance(v: VerifierState, t: MessageType): VerifierState {
    if AlwaysAllowed(t) then v else Last(t)
  }

  /** The verifier of one end of a control channel; its fields change in place. */
  class TransitionVerifier {
    var lastType: MessageType
    var isFirstMessage: bool

    constructor ()
      ensures State() == First
    {
      // The source leaves the last type uninitialised
      lastType := *;
      isFirstMessage := true;
    }

    function State(): VerifierState
      reads this
    {
      if isFirstMessage then First else Last(lastType)
    }

    /** `ok` is false where the source throws; a rejected message leaves the state as it was. */
    method AssertTransitionAllowed(current: MessageType) returns (ok: bool)
      modifies this
      ensures ok <==> Allowed(old(State()), current)
      ensures State() == if ok then Advance(old(State()), current) else old(State())
    {
      if current == SHUTDOWN || current == EXCEPTION {
        return true;
      }
      if isFirstMessage && current != LOAD_NEUROPOD {
        return false;
      }
      if !isFirstMessage && (lastType, current) !in ALLOWED_TRANSITIONS {
        return false;
      }
      lastType := current;
      isFirstMessage := false;
      return true;
    }

    /** A whole trace, stopping at the first message the verifier refuses. */
    method AssertTrace(trace: seq<MessageType>) returns (ok: bool)
      modifies this
      ensures ok <==> Accepts(old(State()), trace)
    {
      var i := 0;
      while i < |trace|
        invariant 0 <= i <= |trace|
        invariant Accepts(old(State()), trace) <==> Accepts(State(), trace[i..])
      {
        var allowed := AssertTransitionAllowed(trace[i]);
        if !allowed {
          return false;
        }
        assert trace[i..][1..] == trace[i + 1..];
        i := i + 1;
      }
      return true;
    }
  }

  predicate Accepts(v: VerifierState, trace: seq<MessageType>)
    decreases |trace|
  {
    |trace| == 0 || (Allowed(v, trace[0]) && Accepts(Advance(v, trace[0]), trace[1..]))
  }

  function EndState(v: VerifierState, trace: seq<MessageType>): VerifierState
    decreases |trace|
  {
    if |trace| == 0 then v else EndState(Advance(v, trace[0]), trace[1..])
  }

  // ----------------------------------------------------------- The language of sessions

  /** A trace without the messages that are allowed at any time. */
  function Strip(trace: seq<MessageType>): seq<MessageType> {
    if trace == [] then []
    else (if AlwaysAllowed(trace[0]) then [] else [trace[0]]) + Strip(trace[1..])
  }

  function Inferences(n: nat): seq<MessageType> {
    if n == 0 then [] else Inferences(n - 1) + [ADD_INPUT, INFER, RETURN_OUTPUT]
  }

  /** One load per entry, each followed by that many inferences. */
  function Session(rounds: seq<nat>): seq<MessageType> {
    if rounds == [] then []
    else Session(rounds[..|rounds| - 1]) + [LOAD_NEUROPOD, LOAD_SUCCESS] + Inferences(rounds[|rounds| - 1])
  }

  /** What is missing until the current load or inference is complete. */
  function Completion(v: VerifierState): seq<MessageType> {
    match v
    case First => [LOAD_NEUROPOD, LOAD_SUCCESS]
    case Last(LOAD_NEUROPOD) => [LOAD_SUCCESS]
    case Last(ADD_INPUT) => [INFER, RETURN_OUTPUT]
    case Last(INFER) => [RETURN_OUTPUT]
    case Last(_) => []
  }

  lemma {:induction false} AcceptsConcat(v: VerifierState, a: seq<MessageType>, b: seq<MessageType>)
    ensures Accepts(v, a + b) <==> Accepts(v, a) && Accepts(EndState(v, a), b)
    ensures EndState(v, a + b) == EndState(EndState(v, a), b)
    decreases |a|
  {
    if a == [] {
      assert a + b == b;
    } else {
      assert (a + b)[0] == a[0] && (a + b)[1..] == a[1..] + b;
      AcceptsConcat(Advance(v, a[0]), a[1..], b);
    }
  }

  lemma {:induction false} StripAccepted(v: VerifierState, trace: seq<MessageType>)
    ensures Accepts(v, trace) <==> Accepts(v, Strip(trace))
    decreases |trace|
  {
    if trace != [] {
      StripAccepted(Advance(v, trace[0]), trace[1..]);
      if AlwaysAllowed(trace[0]) {
        assert Strip(trace) == Strip(trace[1..]);
      } else {
        assert Strip(trace) == [trace[0]] + Strip(trace[1..]);
        assert Strip(trace)[1..] == Strip(trace[1..]);
      }
    }
  }

  lemma {:induction false} StripPure(trace: seq<MessageType>)
    ensures forall t <- Strip(trace) :: !AlwaysAllowed(t)
  {
    if trace != [] {
      StripPure(trace[1..]);
    }
  }

  /** Where complete sessions end. */
  predicate Boundary(v: VerifierState) {
    v == Last(LOAD_SUCCESS) || v == Last(RETURN_OUTPUT)
  }

  lemma {:induction false} InferencesAccepted(v: VerifierState, n: nat)
    requires Boundary(v)
    ensures Accepts(v, Inferences(n)) && Boundary(EndState(v, Inferences(n)))
  {
    if n > 0 {
      InferencesAccepted(v, n - 1);
      var u := EndState(v, Inferences(n - 1));
      var step := [ADD_INPUT, INFER, RETURN_OUTPUT];
      AcceptsConcat(v, Inferences(n - 1), step);
      assert step[1..] == [INFER, RETURN_OUTPUT] && step[1..][1..] == [RETURN_OUTPUT];
      assert Accepts(u, step) && EndState(u, step) == Last(RETURN_OUTPUT);
    }
  }

  lemma {:induction false} SessionAccepted(rounds: seq<nat>)
    ensures Accepts(First, Session(rounds))
    ensures rounds != [] ==> Boundary(EndState(First, Session(rounds)))
  {
    if rounds != [] {
      var before, n := rounds[..|rounds| - 1], rounds[|rounds| - 1];
      SessionAccepted(before);
      var v := EndState(First, Session(before));
      var load := [LOAD_NEUROPOD, LOAD_SUCCESS];
      assert load[1..] == [LOAD_SUCCESS];
      assert Accepts(v, load) && EndState(v, load) == Last(LOAD_SUCCESS);
      AcceptsConcat(First, Session(before), load);
      InferencesAccepted(Last(LOAD_SUCCESS), n);
      AcceptsConcat(First, Session(before) + load, Inferences(n));
    }
  }

  /** An accepted trace completes to a session. */
  lemma {:induction false} AcceptedCompletes(trace: seq<MessageType>) returns (rounds: seq<nat>)
    requires Accepts(First, trace) && forall t <- trace :: !AlwaysAllowed(t)
    ensures rounds != [] && trace + Completion(EndState(First, trace)) == Session(rounds)
    decreases |trace|
  {
    if trace == [] {
      rounds := [0];
      assert Session([]) == [] && Inferences(0) == [];
      assert Session(rounds) == [LOAD_NEUROPOD, LOAD_SUCCESS];
    } else {
      var before, t := trace[..|trace| - 1], trace[|trace| - 1];
      assert trace == before + [t];
      AcceptsConcat(First, before, [t]);
      var r := AcceptedCompletes(before);
      var v := EndState(First, before);
      assert Allowed(v, t) && EndState(v, [t]) == Last(t);
      if Completion(v) != [] {
        rounds := r;
        assert Completion(v) == [t] + Completion(Last(t));
      } else if t == ADD_INPUT {
        var last := |r| - 1;
        rounds := r[last := r[last] + 1];
        assert rounds[..last] == r[..last];
        assert Session(rounds) == Session(r) + [ADD_INPUT, INFER, RETURN_OUTPUT];
      } else {
        rounds := r + [0];
        assert rounds[..|r|] == r;
        assert Session(rounds) == Session(r) + [LOAD_NEUROPOD, LOAD_SUCCESS];
      }
    }
  }

  /**
    The verifier accepts a trace if and only if, without SHUTDOWN and EXCEPTION, it is a prefix of
    one or more rounds of a load followed by inferences.
   */
  lemma AcceptedTraces(trace: seq<MessageType>)
    ensures Accepts(First, trace) <==> exists rounds :: rounds != [] && Strip(trace) <= Session(rounds)
  {
    StripAccepted(First, trace);
    StripPure(trace);
    var s := Strip(trace);
    if Accepts(First, s) {
      var rounds := AcceptedCompletes(s);
      assert s <= Session(rounds);
    }
    if rounds :| rounds != [] && s <= Session(rounds) {
      SessionAccepted(rounds);
      assert Session(rounds) == s + Session(rounds)[|s|..];
      AcceptsConcat(First, s, Session(rounds)[|s|..]);
    }
  }
}

/**
  The two-process message queue over the shared memory allocator, as one step
  machine. Steps of user threads, heartbeat threads, read threads and of the
  allocator interleave freely; an IPC queue is a bounded first-in first-out queue.

  A pointer lives as long as somebody owns it: user code (`app`) or the
  transferrables of a message in transit. Giving up ownership and running the
  deleter are separate steps, so the deleter may be delayed arbitrarily.
 */
module Transport {
  import Shm = ShmModel
  import Serialization
  import opened Wrappers

  type MsgId = nat

  const MAX_QUEUE_SIZE := 20

  datatype End = Main | Worker

  function Other(e: End): End {
    if e == Main then Worker else Main
  }

  /** One IPC message. `guarded`: the block ids in the payload that its transferrables keep alive. */
  datatype Wire =
    | User(tag: nat, id: MsgId, requiresDone: bool, guarded: set<Shm.BlockId>)
    | Heartbeat
    | Done(acked: MsgId)
    | ShutdownQueues

  /** One IPCMessageQueue object, with the IPC queue it sends to. */
  datatype EndState = EndState(
    nextId: MsgId,
    inTransit: map<MsgId, set<Shm.PtrId>>,
    sending: seq<Wire>,   // messages inside send_queue_->send, in any order
    ipc: seq<Wire>,
    blocked: seq<Wire>,   // the read thread's message while it waits for room in out_queue_
    out: seq<Wire>,
    held: seq<Wire>,      // returned by recv_message and not yet dropped
    shutdownStarted: bool,
    exited: bool,
    destroying: bool,
    sent: seq<Wire>,      // history: user messages in the order they entered the IPC queue
    received: seq<Wire>)  // history: user messages in the order recv_message returned them

  type Memory = map<Shm.Handle, Serialization.Bytes>

  /** `memory`: the data in the blocks, as it was last written. */
  datatype State = State(shm: Shm.State, app: set<Shm.PtrId>, main: EndState, worker: EndState, memory: Memory)

  function At(s: State, e: End): EndState {
    if e == Main then s.main else s.worker
  }

  function With(s: State, e: End, x: EndState): State {
    if e == Main then s.(main := x) else s.(worker := x)
  }

  const INIT_END := EndState(0, map[], [], [], [], [], [], false, false, false, [], [])
  const INIT := State(Shm.INIT, {}, INIT_END, INIT_END, map[])

  // ------------------------------------------------------------- One end at a time

  /** The last lines of an iteration of the read loop. */
  function ExitCheck(x: EndState): EndState {
    x.(exited := x.exited || (x.shutdownStarted && |x.inTransit| == 0))
  }

  /** One iteration of the read loop up to the point where it may block on out_queue_. */
  function HandleReceived(x: EndState, w: Wire): EndState {
    match w
    case Heartbeat => x
    case Done(acked) => ExitCheck(x.(inTransit := x.inTransit - {acked}))
    case ShutdownQueues =>
      ExitCheck(x.(shutdownStarted := true, out := if |x.out| < MAX_QUEUE_SIZE then x.out + [w] else x.out))
    case User(_, _, _, _) => x.(blocked := [w])
  }

  function Deliver(x: EndState): EndState
    requires |x.blocked| == 1
  {
    ExitCheck(x.(out := x.out + x.blocked, blocked := []))
  }

  function Recv(x: EndState): EndState
    requires x.out != []
  {
    x.(out := x.out[1..], held := x.held + x.out[..1], received := x.received + Users(x.out[..1]))
  }

  /** The deleter of a received message. */
  function Drop(x: EndState, i: nat): EndState
    requires i < |x.held|
  {
    var w := x.held[i];
    x.(held := Remove(x.held, i),
       sending := if w.User? && w.requiresDone then x.sending + [Done(w.id)] else x.sending)
  }

  /** The pointers that the transferrables of a message own; None when there are no transferrables. */
  type Kept = Option<set<Shm.PtrId>>

  /** send_message and send_message_move. */
  function Send(x: EndState, tag: nat, kept: Kept, guarded: set<Shm.BlockId>): EndState {
    var w := User(tag, x.nextId, kept.Some?, guarded);
    x.(nextId := x.nextId + 1,
       inTransit := if kept.Some? then x.inTransit[x.nextId := kept.value] else x.inTransit,
       sending := x.sending + [w])
  }

  function Push(x: EndState, i: nat): EndState
    requires i < |x.sending|
  {
    var w := x.sending[i];
    x.(sending := Remove(x.sending, i), ipc := x.ipc + [w], sent := x.sent + Users([w]))
  }

  function Users(ws: seq<Wire>): seq<Wire> {
    if ws == [] then [] else (if ws[0].User? then [ws[0]] else []) + Users(ws[1..])
  }

  // ------------------------------------------------------------------- The machine

  datatype Step =
    | Allocator(step: Shm.Step)
    | AppRelease(ptr: Shm.PtrId)
    | WriteStep(ptr: Shm.PtrId, bytes: Serialization.Bytes) // user code writes to the data of a block it holds
    | SendStep(e: End, tag: nat, kept: Kept)
    | BeatStep(e: End)
    | PushStep(e: End, i: nat)
    | ReadStep(e: End)
    | DeliverStep(e: End)
    | RecvStep(e: End)
    | DropStep(e: End, i: nat)
    | DestroyStep(e: End)

  ghost predicate InSomeTransit(s: State, q: Shm.PtrId) {
    exists e: End, id :: id in At(s, e).inTransit && q in At(s, e).inTransit[id]
  }

  ghost predicate Enabled(s: State, step: Step) {
    match step
    case Allocator(a) =>
      && Shm.Enabled(s.shm, a)
      && (a.DropStep? ==> a.ptr !in s.app && !InSomeTransit(s, a.ptr))
    case AppRelease(q) => q in s.app
    case WriteStep(q, _) => q in s.app && q in s.shm.ptrs
    case SendStep(e, _, kept) =>
      && !At(s, e).destroying
      && (kept.Some? ==> kept.value <= s.app && kept.value <= s.shm.ptrs.Keys)
    case BeatStep(e) => !At(s, e).destroying
    case PushStep(e, i) => i < |At(s, e).sending| && |At(s, e).ipc| < MAX_QUEUE_SIZE
    case ReadStep(e) => !At(s, e).exited && At(s, e).blocked == [] && At(s, Other(e)).ipc != []
    case DeliverStep(e) => |At(s, e).blocked| == 1 && |At(s, e).out| < MAX_QUEUE_SIZE
    case RecvStep(e) => At(s, e).out != [] && !At(s, e).destroying
    case DropStep(e, i) => i < |At(s, e).held|
    case DestroyStep(e) =>
      && !At(s, e).destroying && At(s, e).held == [] && At(s, e).sending == []
      && |At(s, Other(e)).ipc| < MAX_QUEUE_SIZE
  }

  /** The pointer an allocator step hands to the user. */
  function NewPtr(a: Shm.Step): set<Shm.PtrId> {
    match a
    case ReuseStep(_, _, _, q) => {q}
    case CreateStep(_, _, _, _, q) => {q}
    case LoadCheckStep(_, q) => {q}
    case _ => {}
  }

  function IdsOf(shm: Shm.State, kept: Kept): set<Shm.BlockId>
    requires kept.Some? ==> kept.value <= shm.ptrs.Keys
  {
    if kept.Some? then set q | q in kept.value :: shm.ptrs[q].id else {}
  }

  ghost function Apply(s: State, step: Step): State
    requires Enabled(s, step)
  {
    match step
    case Allocator(a) => s.(shm := Shm.Apply(s.shm, a), app := s.app + NewPtr(a))
    case AppRelease(q) => s.(app := s.app - {q})
    case WriteStep(q, bytes) => s.(memory := s.memory[s.shm.ptrs[q].id.handle := bytes])
    case SendStep(e, tag, kept) => With(s, e, Send(At(s, e), tag, kept, IdsOf(s.shm, kept)))
    case BeatStep(e) => With(s, e, At(s, e).(sending := At(s, e).sending + [Heartbeat]))
    case PushStep(e, i) => With(s, e, Push(At(s, e), i))
    case ReadStep(e) =>
      var o := Other(e);
      With(With(s, o, At(s, o).(ipc := At(s, o).ipc[1..])), e, HandleReceived(At(s, e), At(s, o).ipc[0]))
    case DeliverStep(e) => With(s, e, Deliver(At(s, e)))
    case RecvStep(e) => With(s, e, Recv(At(s, e)))
    case DropStep(e, i) => With(s, e, Drop(At(s, e), i))
    case DestroyStep(e) =>
      var o := Other(e);
      With(With(s, o, At(s, o).(ipc := At(s, o).ipc + [ShutdownQueues])), e, At(s, e).(destroying := true))
  }
}

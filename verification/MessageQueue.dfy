/**
  One IPCMessageQueue object. Each method does to the fields what the step machine of the two
  queues does to one end; where the source would wait, a method returns and leaves the rest to a
  later call.
 */
module MessageQueue {
  import opened Transport
  import opened Queues
  import opened Wrappers
  import Shm = ShmModel
  import TransportTheorems

  /** boost::interprocess::message_queue: messages of equal priority keep their order. */
  class IpcQueue {
    var items: seq<Wire>

    constructor ()
      ensures items == []
    {
      items := [];
    }

    method Send(w: Wire) returns (ready: bool)
      modifies this
      ensures ready <==> |old(items)| < MAX_QUEUE_SIZE
      ensures items == if ready then old(items) + [w] else old(items)
    {
      ready := |items| < MAX_QUEUE_SIZE;
      if ready {
        items := items + [w];
      }
    }

    method Receive() returns (w: Wire)
      requires items != []
      modifies this
      ensures w == old(items)[0] && items == old(items)[1..]
    {
      w := items[0];
      items := items[1..];
    }
  }

  /** One iteration of the read loop; it ends early where out_queue_ has no room for a user message. */
  function ReadOnce(x: EndState, w: Wire): EndState
    requires x.blocked == []
  {
    var y := HandleReceived(x, w);
    if |y.blocked| == 1 && |y.out| < MAX_QUEUE_SIZE then Deliver(y) else y
  }

  /**
    What reading w has done, kind by kind. A heartbeat changes nothing. A DONE ends the transit of its
    message. SHUTDOWN_QUEUES starts the shutdown and wakes up the receiver, for which it enters the out queue
    if there is room. A user message enters the out queue, or waits for room in it. The loop stops once
    shutdown has begun and nothing is in transit, but not on a heartbeat or while a message waits.
   */
  predicate Read(x: EndState, w: Wire, y: EndState) {
    var room := |x.out| < MAX_QUEUE_SIZE;
    && y.inTransit == (if w.Done? then x.inTransit - {w.acked} else x.inTransit)
    && y.out == (if (w.User? || w.ShutdownQueues?) && room then x.out + [w] else x.out)
    && y.blocked == (if w.User? && !room then [w] else [])
    && (y.shutdownStarted <==> x.shutdownStarted || w.ShutdownQueues?)
    && (y.exited <==>
          x.exited || (!w.Heartbeat? && y.blocked == [] && y.shutdownStarted && |y.inTransit| == 0))
    && y.sending == x.sending && y.ipc == x.ipc && y.held == x.held && y.destroying == x.destroying
    && y.nextId == x.nextId && y.sent == x.sent && y.received == x.received
  }

  lemma ReadOnceReads(x: EndState, w: Wire)
    requires x.blocked == []
    ensures Read(x, w, ReadOnce(x, w))
  {
  }

  /** The read loop on what is in its IPC queue, until it returns or has to wait. */
  function ReadAll(x: EndState, ipc: seq<Wire>): (EndState, seq<Wire>)
    decreases |ipc|
  {
    if x.exited || x.blocked != [] || ipc == [] then (x, ipc) else ReadAll(ReadOnce(x, ipc[0]), ipc[1..])
  }

  class IPCMessageQueue {
    const outQueue: BlockingSPSCQueue<Wire>
    const controller: TransferrableController
    const sendQueue: IpcQueue
    const recvQueue: IpcQueue
    var msgCounter: MsgId
    var shutdownStarted: bool
    var exited: bool         // the read thread has returned
    var destroying: bool
    var sending: seq<Wire>   // calls that are inside send_queue_->send
    var blocked: seq<Wire>   // what the read thread waits to put into out_queue_
    var held: seq<Wire>      // returned by RecvMessage and still alive
    ghost var sent: seq<Wire>
    ghost var received: seq<Wire>

    ghost predicate Valid()
      reads this, outQueue, controller, sendQueue, recvQueue
    {
      && outQueue.Valid() && outQueue.capacity == MAX_QUEUE_SIZE
      && sendQueue != recvQueue && |blocked| <= 1
      && forall id <- Ids(controller.inTransit) :: id < msgCounter
    }

    ghost function View(): EndState
      reads this, outQueue, controller, sendQueue
    {
      EndState(msgCounter, InTransit(controller.inTransit), sending, sendQueue.items, blocked, outQueue.queue, held,
               shutdownStarted, exited, destroying, sent, received)
    }

    constructor (sendQueue: IpcQueue, recvQueue: IpcQueue)
      requires sendQueue != recvQueue && sendQueue.items == []
      ensures Valid() && View() == INIT_END
      ensures this.sendQueue == sendQueue && this.recvQueue == recvQueue && fresh(outQueue) && fresh(controller)
    {
      outQueue := new BlockingSPSCQueue<Wire>(MAX_QUEUE_SIZE);
      controller := new TransferrableController();
      this.sendQueue, this.recvQueue := sendQueue, recvQueue;
      msgCounter := 0;
      shutdownStarted, exited, destroying := false, false, false;
      sending, blocked, held := [], [], [];
      sent, received := [], [];
      new;
      assert InTransit(controller.inTransit) == map[];
    }

    /** The end of an iteration of the read loop. */
    method CheckShutdown()
      requires Valid()
      modifies `exited
      ensures Valid() && View() == ExitCheck(old(View()))
    {
      if shutdownStarted {
        var inTransitCount := controller.Size();
        if inTransitCount == 0 {
          exited := true;
        }
      }
    }

    method ReadIteration()
      requires Valid() && !exited && blocked == [] && recvQueue.items != []
      modifies this, outQueue, controller, recvQueue
      ensures Valid() && recvQueue.items == old(recvQueue.items)[1..]
      ensures View() == ReadOnce(old(View()), old(recvQueue.items)[0])
      ensures Read(old(View()), old(recvQueue.items)[0], View())
    {
      ReadOnceReads(View(), recvQueue.items[0]);
      var w := recvQueue.Receive();
      match w {
        case Heartbeat =>
          return;
        case Done(acked) =>
          controller.Done(acked);
        case ShutdownQueues =>
          shutdownStarted := true;
          var success := outQueue.TryEmplace(w);
        case User(_, _, _, _) =>
          blocked := [w];
          var ready := ResumeRead();
          return;
      }
      CheckShutdown();
    }

    /** The read thread goes on after a user message has waited for room in out_queue_. */
    method ResumeRead() returns (ready: bool)
      requires Valid() && |blocked| == 1
      modifies this, outQueue
      ensures Valid() && (ready <==> |old(outQueue.queue)| < MAX_QUEUE_SIZE)
      ensures View() == if ready then Deliver(old(View())) else old(View())
    {
      ready := outQueue.Emplace(blocked[0]);
      if ready {
        blocked := [];
        CheckShutdown();
      }
    }

    method ReadWorkerLoop()
      requires Valid()
      modifies this, outQueue, controller, recvQueue
      ensures Valid()
      ensures (View(), recvQueue.items) == ReadAll(old(View()), old(recvQueue.items))
      ensures exited || blocked != [] || recvQueue.items == []
    {
      while !exited && blocked == [] && recvQueue.items != []
        invariant Valid()
        invariant ReadAll(View(), recvQueue.items) == ReadAll(old(View()), old(recvQueue.items))
        decreases |recvQueue.items|
      {
        ReadIteration();
      }
    }

    /** send_message with a payload up to the blocking send; `spilled` holds its transferrables. */
    method SendMessage(tag: nat, spilled: seq<Item>)
      requires Valid()
      modifies this, controller
      ensures Valid()
      ensures View() == Send(old(View()), tag, KeptBy(old(msgCounter), spilled), IdsIn(spilled))
      ensures controller.inTransit == old(controller.inTransit) + EntriesOf(old(msgCounter), spilled)
      ensures sending == old(sending) + [User(tag, old(msgCounter), spilled != [], IdsIn(spilled))]
      ensures msgCounter == old(msgCounter) + 1
    {
      var id := msgCounter;
      msgCounter := msgCounter + 1;
      ghost var before := controller.inTransit;
      var requiresDone := false;
      if spilled != [] {
        controller.Add(id, spilled);
        AddInTransit(before, id, spilled);
        AddedIds(before, id, spilled);
        requiresDone := true;
      }
      sending := sending + [User(tag, id, requiresDone, IdsIn(spilled))];
    }

    /** send_message_move: the payload itself becomes a transferrable. */
    method SendMessageMove(tag: nat, spilled: seq<Item>, payload: Item)
      requires Valid()
      modifies this, controller
      ensures Valid()
      ensures View() == Send(old(View()), tag, KeptBy(old(msgCounter), spilled + [payload]), IdsIn(spilled + [payload]))
      ensures KeptBy(old(msgCounter), spilled + [payload]).Some?
      ensures controller.inTransit == old(controller.inTransit) + EntriesOf(old(msgCounter), spilled + [payload])
      ensures sending == old(sending) + [User(tag, old(msgCounter), true, IdsIn(spilled + [payload]))]
      ensures msgCounter == old(msgCounter) + 1
    {
      SendMessage(tag, spilled + [payload]);
    }

    /** One of the calls in send_queue_->send gets through. */
    method FinishSend(i: nat) returns (ready: bool)
      requires Valid() && i < |sending|
      modifies this, sendQueue
      ensures Valid() && (ready <==> |old(sendQueue.items)| < MAX_QUEUE_SIZE)
      ensures View() == if ready then Push(old(View()), i) else old(View())
      ensures sendQueue.items == if ready then old(sendQueue.items) + [old(sending)[i]] else old(sendQueue.items)
      ensures sending == if ready then old(sending)[..i] + old(sending)[i + 1..] else old(sending)
    {
      var w := sending[i];
      ready := sendQueue.Send(w);
      if ready {
        sending := Remove(sending, i);
        sent := sent + Users([w]);
      }
    }

    method RecvMessage() returns (w: Option<Wire>)
      requires Valid()
      modifies this, outQueue
      ensures Valid() && (w.None? <==> old(outQueue.queue) == [])
      ensures w.Some? ==> w.value == old(outQueue.queue)[0]
      ensures View() == if w.Some? then Recv(old(View())) else old(View())
      ensures w.Some? ==> outQueue.queue == old(outQueue.queue)[1..] && held == old(held) + [w.value]
    {
      w := outQueue.Pop();
      if w.Some? {
        assert old(outQueue.queue)[..1] == [w.value];
        held := held + [w.value];
        received := received + Users([w.value]);
      }
    }

    /** The deleter of a received message. */
    method DropMessage(i: nat)
      requires Valid() && i < |held|
      modifies this
      ensures Valid() && View() == Drop(old(View()), i)
      ensures var w := old(held)[i];
              && held == old(held)[..i] + old(held)[i + 1..]
              && sending == old(sending) + if w.User? && w.requiresDone then [Done(w.id)] else []
    {
      var msg := held[i];
      if msg.User? && msg.requiresDone {
        sending := sending + [Done(msg.id)];
      }
      held := Remove(held, i);
    }

    /** The destructor up to the join of the read thread. */
    method StartShutdown() returns (ready: bool)
      requires Valid()
      modifies this, recvQueue
      ensures Valid() && (ready <==> |old(recvQueue.items)| < MAX_QUEUE_SIZE)
      ensures View() == if ready then old(View()).(destroying := true) else old(View())
      ensures recvQueue.items == if ready then old(recvQueue.items) + [ShutdownQueues] else old(recvQueue.items)
    {
      ready := recvQueue.Send(ShutdownQueues);
      if ready {
        destroying := true;
      }
    }
  }

  function KeptBy(id: MsgId, items: seq<Item>): Kept {
    if items == [] then None else Some(PtrsFor(EntriesOf(id, items), id))
  }

  lemma AddedIds(entries: seq<Entry>, id: MsgId, items: seq<Item>)
    ensures forall i <- Ids(entries + EntriesOf(id, items)) :: i in Ids(entries) || i == id
  {
    IdsConcat(entries, EntriesOf(id, items));
  }

  /** A moved payload that is spilled as well is one message in transit, and counts as two. */
  method MoveOfSpilled(queue: IPCMessageQueue, spilled: Item, payload: Item) returns (size: nat)
    requires queue.Valid() && queue.controller.inTransit == []
    modifies queue, queue.controller
    ensures size == 2 && |queue.View().inTransit| == 1
  {
    var id := queue.msgCounter;
    queue.SendMessageMove(0, [spilled], payload);
    var entries := queue.controller.inTransit;
    assert entries == EntriesOf(id, [spilled] + [payload]);
    assert entries[0] in entries && entries[1] in entries && entries == [entries[0], entries[1]];
    assert InTransit(entries).Keys == {id};
    size := queue.controller.Size();
  }

  // ------------------------------------------------------------- Sending as a step of the machine

  /** The items own live pointers, under the ids that the allocator has handed out for them. */
  predicate Own(items: seq<Item>, shm: Shm.State) {
    forall item <- items, q <- item.ptrs :: q in shm.ptrs && shm.ptrs[q].id == item.ptrs[q]
  }

  lemma {:induction false} IdsOfItems(id: MsgId, items: seq<Item>, shm: Shm.State)
    requires Own(items, shm)
    ensures PtrsFor(EntriesOf(id, items), id) <= shm.ptrs.Keys
    ensures IdsIn(items) == set q | q in PtrsFor(EntriesOf(id, items), id) :: shm.ptrs[q].id
  {
    var es := EntriesOf(id, items);
    if items != [] {
      var rest := PtrsFor(EntriesOf(id, items[1..]), id);
      assert es[1..] == EntriesOf(id, items[1..]);
      IdsOfItems(id, items[1..], shm);
      assert PtrsFor(es, id) == items[0].ptrs.Keys + rest;
      assert items[0] in items;
      IdsOfUnion(items[0].ptrs, rest, shm);
    }
  }

  lemma IdsOfUnion(owned: map<Shm.PtrId, Shm.BlockId>, rest: set<Shm.PtrId>, shm: Shm.State)
    requires forall q <- owned :: q in shm.ptrs && shm.ptrs[q].id == owned[q]
    requires rest <= shm.ptrs.Keys
    ensures (set q | q in owned.Keys + rest :: shm.ptrs[q].id) == owned.Values + set q | q in rest :: shm.ptrs[q].id
  {
    var all := set q | q in owned.Keys + rest :: shm.ptrs[q].id;
    forall b | b in owned.Values
      ensures b in all
    {
      var q :| q in owned && owned[q] == b;
      assert q in owned.Keys + rest;
    }
    forall b | b in set q | q in rest :: shm.ptrs[q].id
      ensures b in all
    {
      var q :| q in rest && shm.ptrs[q].id == b;
      assert q in owned.Keys + rest;
    }
  }

  /** What SendMessage does to the fields is the machine's send step: it guards the ids of what it keeps. */
  lemma SendIsStep(s: State, e: End, tag: nat, items: seq<Item>)
    requires Own(items, s.shm) && Enabled(s, SendStep(e, tag, KeptBy(At(s, e).nextId, items)))
    ensures Apply(s, SendStep(e, tag, KeptBy(At(s, e).nextId, items)))
            == With(s, e, Send(At(s, e), tag, KeptBy(At(s, e).nextId, items), IdsIn(items)))
  {
    IdsOfItems(At(s, e).nextId, items, s.shm);
  }

  // ---------------------------------------------------- The read loop as steps of the machine

  function Joined(s: State, e: End, r: (EndState, seq<Wire>)): State {
    With(With(s, Other(e), At(s, Other(e)).(ipc := r.1)), e, r.0)
  }

  lemma ReadEffect(s: State, e: End)
    requires !At(s, e).exited && At(s, e).blocked == [] && At(s, Other(e)).ipc != []
    ensures Enabled(s, ReadStep(e))
    ensures Apply(s, ReadStep(e))
            == Joined(s, e, (HandleReceived(At(s, e), At(s, Other(e)).ipc[0]), At(s, Other(e)).ipc[1..]))
  {
  }

  lemma DeliverEffect(s: State, e: End)
    requires |At(s, e).blocked| == 1 && |At(s, e).out| < MAX_QUEUE_SIZE
    ensures Enabled(s, DeliverStep(e))
    ensures Apply(s, DeliverStep(e)) == Joined(s, e, (Deliver(At(s, e)), At(s, Other(e)).ipc))
  {
  }

  lemma JoinedAt(s: State, e: End, r: (EndState, seq<Wire>), t: (EndState, seq<Wire>))
    ensures At(Joined(s, e, r), e) == r.0 && At(Joined(s, e, r), Other(e)).ipc == r.1
    ensures Joined(Joined(s, e, r), e, t) == Joined(s, e, t)
  {
  }

  /** One iteration of the read loop is one step or two. */
  lemma ReadOnceIsRun(s: State, e: End, rest: seq<Step>) returns (steps: seq<Step>)
    requires !At(s, e).exited && At(s, e).blocked == [] && At(s, Other(e)).ipc != []
    requires TransportTheorems.Valid(Iterated(s, e), rest)
    ensures TransportTheorems.Valid(s, steps)
    ensures TransportTheorems.After(s, steps) == TransportTheorems.After(Iterated(s, e), rest)
  {
    var y, ipc := HandleReceived(At(s, e), At(s, Other(e)).ipc[0]), At(s, Other(e)).ipc[1..];
    ReadEffect(s, e);
    JoinedAt(s, e, (y, ipc), (ReadOnce(At(s, e), At(s, Other(e)).ipc[0]), ipc));
    steps := rest;
    if |y.blocked| == 1 && |y.out| < MAX_QUEUE_SIZE {
      DeliverEffect(Joined(s, e, (y, ipc)), e);
      TransportTheorems.Prepend(Joined(s, e, (y, ipc)), DeliverStep(e), steps);
      steps := [DeliverStep(e)] + steps;
    }
    TransportTheorems.Prepend(s, ReadStep(e), steps);
    steps := [ReadStep(e)] + steps;
  }

  function Iterated(s: State, e: End): State
    requires At(s, e).blocked == [] && At(s, Other(e)).ipc != []
  {
    Joined(s, e, (ReadOnce(At(s, e), At(s, Other(e)).ipc[0]), At(s, Other(e)).ipc[1..]))
  }

  /** What ReadWorkerLoop does in one call is a run of steps of the machine. */
  lemma {:induction false} ReadLoopIsRun(s: State, e: End) returns (steps: seq<Step>)
    ensures TransportTheorems.Valid(s, steps)
    ensures TransportTheorems.After(s, steps) == Joined(s, e, ReadAll(At(s, e), At(s, Other(e)).ipc))
    decreases |At(s, Other(e)).ipc|
  {
    var x, ipc := At(s, e), At(s, Other(e)).ipc;
    if x.exited || x.blocked != [] || ipc == [] {
      steps := [];
    } else {
      JoinedAt(s, e, (ReadOnce(x, ipc[0]), ipc[1..]), ReadAll(x, ipc));
      var rest := ReadLoopIsRun(Iterated(s, e), e);
      steps := ReadOnceIsRun(s, e, rest);
    }
  }
}

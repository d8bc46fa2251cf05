/**
  What every step of the two queues keeps, end by end. In `PairInv(x, y)` x is the
  sending end and y the receiving end.
 */
module TransportInv {
  import Shm = ShmModel
  import opened Transport
  import opened Wrappers

  /** How many of the messages ws are message `id` and must be acknowledged. */
  function Requiring(ws: seq<Wire>, id: MsgId): nat {
    if ws == [] then 0
    else (if ws[0].User? && ws[0].requiresDone && ws[0].id == id then 1 else 0) + Requiring(ws[1..], id)
  }

  /** How many of the messages ws are a DONE for message `id`. */
  function Acking(ws: seq<Wire>, id: MsgId): nat {
    if ws == [] then 0 else (if ws[0] == Done(id) then 1 else 0) + Acking(ws[1..], id)
  }

  lemma {:induction false} CountConcat(a: seq<Wire>, b: seq<Wire>, id: MsgId)
    ensures Requiring(a + b, id) == Requiring(a, id) + Requiring(b, id)
    ensures Acking(a + b, id) == Acking(a, id) + Acking(b, id)
  {
    if a == [] {
      assert a + b == b;
    } else {
      assert (a + b)[0] == a[0] && (a + b)[1..] == a[1..] + b;
      CountConcat(a[1..], b, id);
    }
  }

  lemma {:induction false} UsersConcat(a: seq<Wire>, b: seq<Wire>)
    ensures Users(a + b) == Users(a) + Users(b)
  {
    if a == [] {
      assert a + b == b;
    } else {
      assert (a + b)[0] == a[0] && (a + b)[1..] == a[1..] + b;
      UsersConcat(a[1..], b);
    }
  }

  lemma CountRemove(ws: seq<Wire>, i: nat, id: MsgId)
    requires i < |ws|
    ensures Requiring(ws, id) == Requiring([ws[i]], id) + Requiring(Remove(ws, i), id)
    ensures Acking(ws, id) == Acking([ws[i]], id) + Acking(Remove(ws, i), id)
  {
    assert ws == ws[..i] + ([ws[i]] + ws[i + 1..]);
    CountConcat(ws[..i], [ws[i]] + ws[i + 1..], id);
    CountConcat([ws[i]], ws[i + 1..], id);
    CountConcat(ws[..i], ws[i + 1..], id);
  }

  lemma MemberCounted(ws: seq<Wire>, w: Wire)
    requires w in ws && w.User? && w.requiresDone
    ensures Requiring(ws, w.id) > 0
  {
    var i :| 0 <= i < |ws| && ws[i] == w;
    CountRemove(ws, i, w.id);
  }

  /** The tokens of message `id` that x has sent: the unacknowledged message itself, or a DONE for it. */
  function Tokens(x: EndState, y: EndState, id: MsgId): nat {
    Requiring(x.sending, id) + Requiring(x.ipc, id)
    + Requiring(y.blocked, id) + Requiring(y.out, id) + Requiring(y.held, id)
    + Acking(y.sending, id) + Acking(y.ipc, id)
  }

  /** Each message in transit has exactly one token, and nothing else has any. */
  ghost predicate Conserved(x: EndState, y: EndState) {
    forall id: MsgId :: Tokens(x, y, id) == if id in x.inTransit then 1 else 0
  }

  /** The messages user code receives are a prefix of those sent; nothing is lost, doubled or reordered. */
  predicate InOrder(x: EndState, y: EndState) {
    x.sent == y.received + Users(y.out) + y.blocked + Users(x.ipc)
  }

  ghost predicate Local(x: EndState) {
    && (forall id <- x.inTransit :: id < x.nextId)
    && |x.out| <= MAX_QUEUE_SIZE && |x.ipc| <= MAX_QUEUE_SIZE
    && (x.blocked == [] || (|x.blocked| == 1 && x.blocked[0].User?))
    && ShutdownQueues !in x.sending
    && (forall w <- x.out :: w.User? || (w == ShutdownQueues && x.shutdownStarted))
    && (x.shutdownStarted ==> x.out != [])
    && (x.destroying ==> x.held == [] && x.sending == [])
  }

  /** The read thread of x stops only when nothing of x is in transit, and waits only for what is. */
  ghost predicate StopsRight(x: EndState, y: EndState) {
    && (x.exited ==> x.shutdownStarted && |x.inTransit| == 0 && x.blocked == [])
    && (x.shutdownStarted && !x.exited && x.blocked == [] ==> |x.inTransit| > 0)
    && (x.destroying <==> x.shutdownStarted || ShutdownQueues in y.ipc)
  }

  ghost predicate PairInv(x: EndState, y: EndState) {
    Conserved(x, y) && InOrder(x, y) && Local(x) && StopsRight(x, y)
  }

  // ----------------------------------------------------------- Conservation, action by action

  lemma SendConserves(x: EndState, y: EndState, tag: nat, kept: Kept, guarded: set<Shm.BlockId>)
    requires Conserved(x, y) && Conserved(y, x) && x.nextId !in x.inTransit
    ensures Conserved(Send(x, tag, kept, guarded), y) && Conserved(y, Send(x, tag, kept, guarded))
  {
    var w := User(tag, x.nextId, kept.Some?, guarded);
    forall id: MsgId
      ensures Requiring(x.sending + [w], id)
              == Requiring(x.sending, id) + (if kept.Some? && id == x.nextId then 1 else 0)
      ensures Acking(x.sending + [w], id) == Acking(x.sending, id)
    {
      CountConcat(x.sending, [w], id);
    }
  }

  lemma BeatConserves(x: EndState, y: EndState)
    requires Conserved(x, y) && Conserved(y, x)
    ensures var x' := x.(sending := x.sending + [Heartbeat]); Conserved(x', y) && Conserved(y, x')
  {
    forall id: MsgId
      ensures Requiring(x.sending + [Heartbeat], id) == Requiring(x.sending, id)
      ensures Acking(x.sending + [Heartbeat], id) == Acking(x.sending, id)
    {
      CountConcat(x.sending, [Heartbeat], id);
    }
  }

  lemma PushConserves(x: EndState, y: EndState, i: nat)
    requires Conserved(x, y) && Conserved(y, x) && i < |x.sending|
    ensures Conserved(Push(x, i), y) && Conserved(y, Push(x, i))
  {
    var x' := Push(x, i);
    forall id: MsgId
      ensures Requiring(x'.sending, id) + Requiring(x'.ipc, id) == Requiring(x.sending, id) + Requiring(x.ipc, id)
      ensures Acking(x'.sending, id) + Acking(x'.ipc, id) == Acking(x.sending, id) + Acking(x.ipc, id)
    {
      CountRemove(x.sending, i, id);
      CountConcat(x.ipc, [x.sending[i]], id);
    }
  }

  lemma DeliverConserves(x: EndState, y: EndState)
    requires Conserved(x, y) && Conserved(y, x) && |x.blocked| == 1
    ensures Conserved(Deliver(x), y) && Conserved(y, Deliver(x))
  {
    forall id: MsgId
      ensures Requiring(x.out + x.blocked, id) == Requiring(x.out, id) + Requiring(x.blocked, id)
    {
      CountConcat(x.out, x.blocked, id);
    }
  }

  lemma RecvConserves(x: EndState, y: EndState)
    requires Conserved(x, y) && Conserved(y, x) && x.out != []
    ensures Conserved(Recv(x), y) && Conserved(y, Recv(x))
  {
    forall id: MsgId
      ensures Requiring(x.out[1..], id) + Requiring(x.held + x.out[..1], id)
              == Requiring(x.out, id) + Requiring(x.held, id)
    {
      CountConcat(x.out[..1], x.out[1..], id);
      assert x.out == x.out[..1] + x.out[1..];
      CountConcat(x.held, x.out[..1], id);
    }
  }

  lemma DropConserves(x: EndState, y: EndState, i: nat)
    requires Conserved(x, y) && Conserved(y, x) && i < |x.held|
    ensures Conserved(Drop(x, i), y) && Conserved(y, Drop(x, i))
  {
    var x' := Drop(x, i);
    forall id: MsgId
      ensures Requiring(x'.held, id) + Acking(x'.sending, id) == Requiring(x.held, id) + Acking(x.sending, id)
      ensures Requiring(x'.sending, id) == Requiring(x.sending, id)
    {
      CountRemove(x.held, i, id);
      if x.held[i].User? {
        CountConcat(x.sending, [Done(x.held[i].id)], id);
      }
    }
  }

  /** The head of y's IPC queue leaves it. */
  function Behead(y: EndState): EndState
    requires y.ipc != []
  {
    y.(ipc := y.ipc[1..])
  }

  lemma BeheadCounts(y: EndState, id: MsgId)
    requires y.ipc != []
    ensures Requiring(y.ipc, id) == Requiring([y.ipc[0]], id) + Requiring(Behead(y).ipc, id)
    ensures Acking(y.ipc, id) == Acking([y.ipc[0]], id) + Acking(Behead(y).ipc, id)
  {
    assert y.ipc == [y.ipc[0]] + y.ipc[1..];
    CountConcat([y.ipc[0]], y.ipc[1..], id);
  }

  /** A received message changes the counts of the reader in one place at most. */
  lemma ReceivedCounts(x: EndState, w: Wire, id: MsgId)
    requires x.blocked == []
    ensures var x' := HandleReceived(x, w);
            && x'.sending == x.sending && x'.ipc == x.ipc && x'.held == x.held
            && Requiring(x'.blocked, id) == Requiring([w], id)
            && Requiring(x'.out, id) == Requiring(x.out, id)
            && (id in x'.inTransit <==> id in x.inTransit && w != Done(id))
  {
    CountConcat(x.out, [w], id);
  }

  lemma ReadConserves(x: EndState, y: EndState)
    requires Conserved(x, y) && Conserved(y, x) && y.ipc != [] && x.blocked == []
    ensures Conserved(HandleReceived(x, y.ipc[0]), Behead(y))
    ensures Conserved(Behead(y), HandleReceived(x, y.ipc[0]))
  {
    var w := y.ipc[0];
    var x', y' := HandleReceived(x, w), Behead(y);
    forall id: MsgId
      ensures Tokens(x', y', id) == if id in x'.inTransit then 1 else 0
      ensures Tokens(y', x', id) == if id in y'.inTransit then 1 else 0
    {
      BeheadCounts(y, id);
      ReceivedCounts(x, w, id);
      assert Tokens(x, y, id) == if id in x.inTransit then 1 else 0;
      assert Tokens(y, x, id) == if id in y.inTransit then 1 else 0;
    }
  }

  lemma DestroyConserves(x: EndState, y: EndState)
    requires Conserved(x, y) && Conserved(y, x)
    ensures var x', y' := x.(destroying := true), y.(ipc := y.ipc + [ShutdownQueues]);
            Conserved(x', y') && Conserved(y', x')
  {
    forall id: MsgId
      ensures Requiring(y.ipc + [ShutdownQueues], id) == Requiring(y.ipc, id)
      ensures Acking(y.ipc + [ShutdownQueues], id) == Acking(y.ipc, id)
    {
      CountConcat(y.ipc, [ShutdownQueues], id);
    }
  }

  // ----------------------------------------------------------- Everything, action by action

  lemma SendKeeps(x: EndState, y: EndState, tag: nat, kept: Kept, guarded: set<Shm.BlockId>)
    requires PairInv(x, y) && PairInv(y, x) && !x.destroying
    ensures PairInv(Send(x, tag, kept, guarded), y) && PairInv(y, Send(x, tag, kept, guarded))
  {
    SendConserves(x, y, tag, kept, guarded);
  }

  lemma BeatKeeps(x: EndState, y: EndState)
    requires PairInv(x, y) && PairInv(y, x) && !x.destroying
    ensures var x' := x.(sending := x.sending + [Heartbeat]); PairInv(x', y) && PairInv(y, x')
  {
    BeatConserves(x, y);
  }

  lemma PushKeeps(x: EndState, y: EndState, i: nat)
    requires PairInv(x, y) && PairInv(y, x) && i < |x.sending| && |x.ipc| < MAX_QUEUE_SIZE
    ensures PairInv(Push(x, i), y) && PairInv(y, Push(x, i))
  {
    PushConserves(x, y, i);
    UsersConcat(x.ipc, [x.sending[i]]);
  }

  lemma DeliverKeeps(x: EndState, y: EndState)
    requires PairInv(x, y) && PairInv(y, x) && |x.blocked| == 1 && |x.out| < MAX_QUEUE_SIZE
    ensures PairInv(Deliver(x), y) && PairInv(y, Deliver(x))
  {
    DeliverConserves(x, y);
    UsersConcat(x.out, x.blocked);
    assert Users(x.blocked) == x.blocked;
  }

  lemma RecvKeeps(x: EndState, y: EndState)
    requires PairInv(x, y) && PairInv(y, x) && x.out != [] && !x.destroying
    ensures PairInv(Recv(x), y) && PairInv(y, Recv(x))
  {
    RecvConserves(x, y);
    RecvInOrder(x, y);
    assert !x.shutdownStarted;
    RecvLocal(x);
    RecvStops(x, y);
  }

  lemma RecvInOrder(x: EndState, y: EndState)
    requires InOrder(x, y) && InOrder(y, x) && x.out != []
    ensures InOrder(Recv(x), y) && InOrder(y, Recv(x))
  {
    assert x.out == x.out[..1] + x.out[1..];
    UsersConcat(x.out[..1], x.out[1..]);
    var first, rest := Users(x.out[..1]), Users(x.out[1..]);
    assert x.received + (first + rest) == x.received + first + rest;
  }

  lemma RecvLocal(x: EndState)
    requires Local(x) && x.out != [] && !x.destroying && !x.shutdownStarted
    ensures Local(Recv(x))
  {
    assert x.out == x.out[..1] + x.out[1..];
  }

  lemma RecvStops(x: EndState, y: EndState)
    requires StopsRight(x, y) && StopsRight(y, x) && x.out != []
    ensures StopsRight(Recv(x), y) && StopsRight(y, Recv(x))
  {
  }

  lemma DropKeeps(x: EndState, y: EndState, i: nat)
    requires PairInv(x, y) && PairInv(y, x) && i < |x.held|
    ensures PairInv(Drop(x, i), y) && PairInv(y, Drop(x, i))
  {
    DropConserves(x, y, i);
  }

  lemma ReceivedUsers(x: EndState, w: Wire)
    requires x.blocked == []
    ensures var x' := HandleReceived(x, w);
            Users(x'.out) == Users(x.out) && x'.blocked == Users([w]) && x'.received == x.received
            && x'.sent == x.sent && x'.ipc == x.ipc
  {
    UsersConcat(x.out, [w]);
  }

  lemma ReadInOrder(x: EndState, y: EndState)
    requires InOrder(x, y) && InOrder(y, x) && y.ipc != [] && x.blocked == []
    ensures InOrder(Behead(y), HandleReceived(x, y.ipc[0])) && InOrder(HandleReceived(x, y.ipc[0]), Behead(y))
  {
    var w := y.ipc[0];
    ReceivedUsers(x, w);
    assert y.ipc == [w] + y.ipc[1..];
    UsersConcat([w], y.ipc[1..]);
    var before := x.received + Users(x.out);
    assert before + [] + (Users([w]) + Users(y.ipc[1..])) == before + Users([w]) + Users(y.ipc[1..]);
  }

  lemma ReadStops(x: EndState, y: EndState)
    requires StopsRight(x, y) && StopsRight(y, x) && y.ipc != [] && x.blocked == [] && !x.exited
    ensures StopsRight(Behead(y), HandleReceived(x, y.ipc[0])) && StopsRight(HandleReceived(x, y.ipc[0]), Behead(y))
  {
    var w := y.ipc[0];
    assert y.ipc == [w] + y.ipc[1..];
  }

  lemma ReadLocal(x: EndState, y: EndState)
    requires Local(x) && Local(y) && y.ipc != [] && x.blocked == []
    ensures Local(HandleReceived(x, y.ipc[0])) && Local(Behead(y))
  {
  }

  lemma ReadKeeps(x: EndState, y: EndState)
    requires PairInv(x, y) && PairInv(y, x) && y.ipc != [] && x.blocked == [] && !x.exited
    ensures PairInv(Behead(y), HandleReceived(x, y.ipc[0])) && PairInv(HandleReceived(x, y.ipc[0]), Behead(y))
  {
    ReadConserves(x, y);
    ReadInOrder(x, y);
    ReadLocal(x, y);
    ReadStops(x, y);
  }

  lemma DestroyKeeps(x: EndState, y: EndState)
    requires PairInv(x, y) && PairInv(y, x) && !x.destroying && x.held == [] && x.sending == []
    requires |y.ipc| < MAX_QUEUE_SIZE
    ensures var x', y' := x.(destroying := true), y.(ipc := y.ipc + [ShutdownQueues]);
            PairInv(x', y') && PairInv(y', x')
  {
    DestroyConserves(x, y);
    UsersConcat(y.ipc, [ShutdownQueues]);
  }
}

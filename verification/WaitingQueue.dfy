/**
  The blocking queue with its condition variables: one producer and one consumer, which sleep, are
  notified or wake up for no reason, and check again. No wake-up is ever lost.
 */
module WaitingQueue {

  type Item = nat

  /** "Notifying" is after the region has released the mutex and before notify_all. */
  datatype Producer = Idle | Asleep(item: Item) | Woken(item: Item) | Notifying
  datatype Consumer = Away | Waiting | Roused | Calling

  datatype State = State(
    capacity: nat,
    queue: seq<Item>,
    producer: Producer,
    consumer: Consumer,
    accepted: seq<Item>,
    delivered: seq<Item>)

  function Init(capacity: nat): State {
    State(capacity, [], Idle, Away, [], [])
  }

  datatype Step =
    | TryEmplace(item: Item)
    | Emplace(item: Item)
    | ProducerWakes        // for no reason
    | ProducerChecks       // the condition of the wait, after waking up
    | ProducerNotifies
    | Pop
    | ConsumerWakes
    | ConsumerChecks
    | ConsumerNotifies

  predicate Enabled(s: State, step: Step) {
    match step
    case TryEmplace(_) => s.producer == Idle
    case Emplace(_) => s.producer == Idle
    case ProducerWakes => s.producer.Asleep?
    case ProducerChecks => s.producer.Woken?
    case ProducerNotifies => s.producer == Notifying
    case Pop => s.consumer == Away
    case ConsumerWakes => s.consumer == Waiting
    case ConsumerChecks => s.consumer == Roused
    case ConsumerNotifies => s.consumer == Calling
  }

  /** The mutex region of emplace, entered by a call or after a wait. */
  function Put(s: State, item: Item): State {
    if |s.queue| < s.capacity
    then s.(queue := s.queue + [item], accepted := s.accepted + [item], producer := Notifying)
    else s.(producer := Asleep(item))
  }

  /** The mutex region of pop. */
  function Take(s: State): State {
    if s.queue != []
    then s.(queue := s.queue[1..], delivered := s.delivered + [s.queue[0]], consumer := Calling)
    else s.(consumer := Waiting)
  }

  function Apply(s: State, step: Step): State
    requires Enabled(s, step)
  {
    match step
    case TryEmplace(item) => if |s.queue| < s.capacity then Put(s, item) else s
    case Emplace(item) => Put(s, item)
    case ProducerWakes => s.(producer := Woken(s.producer.item))
    case ProducerChecks => Put(s, s.producer.item)
    case ProducerNotifies => s.(producer := Idle, consumer := if s.consumer == Waiting then Roused else s.consumer)
    case Pop => Take(s)
    case ConsumerWakes => s.(consumer := Roused)
    case ConsumerChecks => Take(s)
    case ConsumerNotifies =>
      s.(consumer := Away, producer := if s.producer.Asleep? then Woken(s.producer.item) else s.producer)
  }

  /** A bounded first-in first-out queue, and nobody sleeps through what it waits for. */
  predicate Inv(s: State) {
    && s.accepted == s.delivered + s.queue && |s.queue| <= s.capacity
    && (s.consumer == Waiting && s.queue != [] ==> s.producer == Notifying)
    && (s.producer.Asleep? && |s.queue| < s.capacity ==> s.consumer == Calling)
  }

  lemma StepInv(s: State, step: Step)
    requires Inv(s) && Enabled(s, step)
    ensures Inv(Apply(s, step))
  {
    if s.queue != [] {
      assert s.delivered + s.queue == s.delivered + [s.queue[0]] + s.queue[1..];
    }
  }

  predicate ValidRun(s: State, steps: seq<Step>)
    decreases |steps|
  {
    |steps| == 0 || (Enabled(s, steps[0]) && ValidRun(Apply(s, steps[0]), steps[1..]))
  }

  function RunFrom(s: State, steps: seq<Step>): State
    requires ValidRun(s, steps)
    decreases |steps|
  {
    if |steps| == 0 then s else RunFrom(Apply(s, steps[0]), steps[1..])
  }

  lemma {:induction false} RunInv(s: State, steps: seq<Step>)
    requires Inv(s) && ValidRun(s, steps)
    ensures Inv(RunFrom(s, steps)) && RunFrom(s, steps).capacity == s.capacity
    decreases |steps|
  {
    if |steps| > 0 {
      StepInv(s, steps[0]);
      RunInv(Apply(s, steps[0]), steps[1..]);
    }
  }

  /**
    In every run: what was popped is a prefix of what was accepted and the queue is the rest of it,
    never above capacity; a side sleeps only while its condition is false or the other side is about
    to notify it; and the two never sleep at the same time.
   */
  lemma NoLostWakeup(capacity: nat, steps: seq<Step>)
    requires ValidRun(Init(capacity), steps)
    ensures var s := RunFrom(Init(capacity), steps);
            && s.accepted == s.delivered + s.queue && |s.queue| <= capacity
            && (s.consumer == Waiting ==> s.queue == [] || s.producer == Notifying)
            && (s.producer.Asleep? ==> |s.queue| == capacity || s.consumer == Calling)
            && (capacity > 0 ==> !(s.consumer == Waiting && s.producer.Asleep?))
  {
    RunInv(Init(capacity), steps);
  }

  // ----------------------------------------------------------------- What the calls do

  /** emplace queues its item if there is room, and is about to notify; if not it sleeps with the item. */
  lemma EmplaceCall(s: State, item: Item)
    requires Inv(s) && Enabled(s, Emplace(item))
    ensures var t := Apply(s, Emplace(item));
            && t.queue == (if |s.queue| < s.capacity then s.queue + [item] else s.queue)
            && t.producer == (if |s.queue| < s.capacity then Notifying else Asleep(item))
            && t.delivered == s.delivered && t.consumer == s.consumer && t.capacity == s.capacity
  {
  }

  /** try_emplace does the same if there is room, and nothing at all if not. */
  lemma TryEmplaceCall(s: State, item: Item)
    requires Inv(s) && Enabled(s, TryEmplace(item))
    ensures |s.queue| < s.capacity ==> Apply(s, TryEmplace(item)) == Apply(s, Emplace(item))
    ensures |s.queue| == s.capacity ==> Apply(s, TryEmplace(item)) == s
  {
  }

  /** pop delivers the head of the queue if there is one, and is about to notify; if not it sleeps. */
  lemma PopCall(s: State)
    requires Inv(s) && Enabled(s, Pop)
    ensures var t := Apply(s, Pop);
            && (s.queue != [] ==>
                  && [s.queue[0]] + t.queue == s.queue && t.delivered == s.delivered + [s.queue[0]]
                  && t.consumer == Calling)
            && (s.queue == [] ==> t.queue == [] && t.delivered == s.delivered && t.consumer == Waiting)
            && t.producer == s.producer && t.capacity == s.capacity
  {
  }

  /** The item a producer still waits with. */
  function Pending(s: State): seq<Item> {
    if s.producer.Asleep? || s.producer.Woken? then [s.producer.item] else []
  }

  /** The items of all calls of emplace, and of those of try_emplace that find room. */
  function Offered(s: State, steps: seq<Step>): seq<Item>
    requires ValidRun(s, steps)
    decreases |steps|
  {
    if |steps| == 0 then []
    else
      (match steps[0]
       case Emplace(item) => [item]
       case TryEmplace(item) => if |s.queue| < s.capacity then [item] else []
       case _ => []) + Offered(Apply(s, steps[0]), steps[1..])
  }

  lemma OfferStep(s: State, step: Step)
    requires Inv(s) && Enabled(s, step)
    ensures var t := Apply(s, step);
            t.delivered + t.queue + Pending(t)
            == s.delivered + s.queue + Pending(s)
               + match step
                 case Emplace(item) => [item]
                 case TryEmplace(item) => if |s.queue| < s.capacity then [item] else []
                 case _ => []
  {
    if s.queue != [] {
      assert s.delivered + s.queue == s.delivered + [s.queue[0]] + s.queue[1..];
    }
  }

  lemma {:induction false} OffersFrom(s: State, steps: seq<Step>)
    requires Inv(s) && ValidRun(s, steps)
    ensures var t := RunFrom(s, steps);
            t.delivered + t.queue + Pending(t) == s.delivered + s.queue + Pending(s) + Offered(s, steps)
    decreases |steps|
  {
    if |steps| > 0 {
      OfferStep(s, steps[0]);
      StepInv(s, steps[0]);
      OffersFrom(Apply(s, steps[0]), steps[1..]);
    }
  }

  /**
    In every run: the items that were handed to the queue are those popped, then those in the queue, then
    the one a producer waits with, in the order of the calls; none is lost, doubled or overtaken.
   */
  lemma NothingLost(capacity: nat, steps: seq<Step>)
    requires ValidRun(Init(capacity), steps)
    ensures var s := RunFrom(Init(capacity), steps);
            Offered(Init(capacity), steps) == s.delivered + s.queue + Pending(s)
  {
    RunInv(Init(capacity), steps);
    OffersFrom(Init(capacity), steps);
  }

  /** A pop that waits gets the head of the queue once there is one, by at most two steps already due. */
  lemma PopCompletes(s: State) returns (steps: seq<Step>)
    requires Inv(s) && s.queue != [] && (s.consumer == Waiting || s.consumer == Roused)
    ensures |steps| <= 2 && ValidRun(s, steps)
    ensures forall step <- steps :: step == ProducerNotifies || step == ConsumerChecks
    ensures RunFrom(s, steps).delivered == s.delivered + [s.queue[0]]
  {
    if s.consumer == Roused {
      steps := [ConsumerChecks];
    } else {
      steps := [ProducerNotifies, ConsumerChecks];
      assert steps[1..] == [ConsumerChecks] && steps[1..][1..] == [];
    }
  }

  /** An emplace that waits gets its item in once there is room, by at most two steps already due. */
  lemma EmplaceCompletes(s: State) returns (steps: seq<Step>)
    requires Inv(s) && |s.queue| < s.capacity && (s.producer.Asleep? || s.producer.Woken?)
    ensures |steps| <= 2 && ValidRun(s, steps)
    ensures forall step <- steps :: step == ConsumerNotifies || step == ProducerChecks
    ensures RunFrom(s, steps).accepted == s.accepted + [s.producer.item]
  {
    if s.producer.Woken? {
      steps := [ProducerChecks];
    } else {
      steps := [ConsumerNotifies, ProducerChecks];
      assert steps[1..] == [ProducerChecks] && steps[1..][1..] == [];
    }
  }
}

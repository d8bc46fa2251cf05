/** The bounded blocking queue and the bookkeeping of messages in transit. */
module Queues {
  import opened Wrappers
  import Shm = ShmModel

  /**
    A method that would wait on a condition variable returns without an effect instead; its caller
    tries again. `accepted` and `delivered` are the items of all calls so far.
   */
  class BlockingSPSCQueue<T> {
    var queue: seq<T>
    const capacity: nat
    ghost var accepted: seq<T>
    ghost var delivered: seq<T>

    /** A bounded first-in first-out queue: nothing is lost, doubled or reordered. */
    ghost predicate Valid()
      reads this
    {
      accepted == delivered + queue && |queue| <= capacity
    }

    constructor (capacity: nat)
      ensures Valid() && queue == [] && accepted == [] && delivered == [] && this.capacity == capacity
    {
      this.capacity := capacity;
      queue, accepted, delivered := [], [], [];
    }

    method TryEmplace(item: T) returns (success: bool)
      requires Valid()
      modifies this
      ensures Valid() && (success <==> |old(queue)| < capacity)
      ensures queue == if success then old(queue) + [item] else old(queue)
      ensures accepted == if success then old(accepted) + [item] else old(accepted)
      ensures delivered == old(delivered)
    {
      success := false;
      if |queue| < capacity {
        queue, accepted := queue + [item], accepted + [item];
        success := true;
      }
    }

    method Emplace(item: T) returns (ready: bool)
      requires Valid()
      modifies this
      ensures Valid() && (ready <==> |old(queue)| < capacity)
      ensures queue == if ready then old(queue) + [item] else old(queue)
      ensures accepted == if ready then old(accepted) + [item] else old(accepted)
      ensures delivered == old(delivered)
    {
      if |queue| >= capacity {
        return false;
      }
      queue, accepted := queue + [item], accepted + [item];
      return true;
    }

    method Pop() returns (item: Option<T>)
      requires Valid()
      modifies this
      ensures Valid() && accepted == old(accepted)
      ensures item == if old(queue) == [] then None else Some(old(queue)[0])
      ensures queue == if old(queue) == [] then [] else old(queue)[1..]
      ensures delivered == if old(queue) == [] then old(delivered) else old(delivered) + [old(queue)[0]]
    {
      if queue == [] {
        return None;
      }
      item := Some(queue[0]);
      delivered := delivered + [queue[0]];
      queue := queue[1..];
    }
  }

  // ----------------------------------------------------------------- TransferrableController

  type MsgId = nat

  /** One boost::any: the shared memory pointers it owns, each with the block id it was obtained under. */
  datatype Item = Item(ptrs: map<Shm.PtrId, Shm.BlockId>)

  datatype Entry = Entry(id: MsgId, item: Item)

  /** Everything that the entries of message `id` own. */
  function PtrsFor(entries: seq<Entry>, id: MsgId): set<Shm.PtrId> {
    if entries == [] then {}
    else (if entries[0].id == id then entries[0].item.ptrs.Keys else {}) + PtrsFor(entries[1..], id)
  }

  function Ids(entries: seq<Entry>): set<MsgId> {
    set e | e in entries :: e.id
  }

  function InTransit(entries: seq<Entry>): map<MsgId, set<Shm.PtrId>> {
    map id | id in Ids(entries) :: PtrsFor(entries, id)
  }

  function Erase(entries: seq<Entry>, id: MsgId): (rest: seq<Entry>)
    ensures forall e :: e in rest <==> e in entries && e.id != id
  {
    if entries == [] then []
    else
      var rest := Erase(entries[1..], id);
      assert forall e :: e in entries <==> e == entries[0] || e in entries[1..];
      (if entries[0].id == id then [] else [entries[0]]) + rest
  }

  /** The other entries stay, each as often as before. */
  lemma {:induction false} EraseKeepsOthers(entries: seq<Entry>, id: MsgId, e: Entry)
    ensures multiset(Erase(entries, id))[e] == if e.id == id then 0 else multiset(entries)[e]
  {
    if entries != [] {
      var first, rest := [entries[0]], entries[1..];
      EraseKeepsOthers(rest, id, e);
      assert entries == first + rest;
      assert multiset(entries)[e] == multiset(first)[e] + multiset(rest)[e];
      assert multiset(first + Erase(rest, id))[e] == multiset(first)[e] + multiset(Erase(rest, id))[e];
    }
  }

  lemma {:induction false} PtrsForConcat(a: seq<Entry>, b: seq<Entry>, id: MsgId)
    ensures PtrsFor(a + b, id) == PtrsFor(a, id) + PtrsFor(b, id)
  {
    if a == [] {
      assert a + b == b;
    } else {
      assert (a + b)[1..] == a[1..] + b;
      PtrsForConcat(a[1..], b, id);
    }
  }

  lemma {:induction false} PtrsForErase(entries: seq<Entry>, gone: MsgId, id: MsgId)
    requires id != gone
    ensures PtrsFor(Erase(entries, gone), id) == PtrsFor(entries, id)
  {
    if entries != [] {
      PtrsForErase(entries[1..], gone, id);
      PtrsForConcat(if entries[0].id == gone then [] else [entries[0]], Erase(entries[1..], gone), id);
    }
  }

  lemma IdsErase(entries: seq<Entry>, id: MsgId)
    ensures Ids(Erase(entries, id)) == Ids(entries) - {id}
  {
    forall i | i in Ids(entries) && i != id
      ensures i in Ids(Erase(entries, id))
    {
      var e :| e in entries && e.id == i;
      assert e in Erase(entries, id);
    }
  }

  lemma EraseInTransit(entries: seq<Entry>, id: MsgId)
    ensures InTransit(Erase(entries, id)) == InTransit(entries) - {id}
  {
    forall i | i in Ids(Erase(entries, id))
      ensures PtrsFor(Erase(entries, id), i) == PtrsFor(entries, i)
    {
      PtrsForErase(entries, id, i);
    }
    IdsErase(entries, id);
    assert InTransit(Erase(entries, id)).Keys == (InTransit(entries) - {id}).Keys;
  }

  /** The block ids of everything that the items own. */
  function IdsIn(items: seq<Item>): set<Shm.BlockId> {
    if items == [] then {} else items[0].ptrs.Values + IdsIn(items[1..])
  }

  function EntriesOf(id: MsgId, items: seq<Item>): (es: seq<Entry>)
    ensures |es| == |items| && forall i | 0 <= i < |items| :: es[i] == Entry(id, items[i])
  {
    seq(|items|, i requires 0 <= i < |items| => Entry(id, items[i]))
  }

  lemma {:induction false} PtrsForOthers(es: seq<Entry>, id: MsgId)
    requires forall e <- es :: e.id != id
    ensures PtrsFor(es, id) == {}
  {
    if es != [] {
      PtrsForOthers(es[1..], id);
    }
  }

  lemma AddInTransit(entries: seq<Entry>, id: MsgId, items: seq<Item>)
    requires id !in Ids(entries) && items != []
    ensures InTransit(entries + EntriesOf(id, items)) == InTransit(entries)[id := PtrsFor(EntriesOf(id, items), id)]
  {
    var es := EntriesOf(id, items);
    assert es[0] in entries + es;
    forall i: MsgId
      ensures PtrsFor(entries + es, i) == PtrsFor(entries, i) + PtrsFor(es, i)
      ensures i != id ==> PtrsFor(es, i) == {}
    {
      PtrsForConcat(entries, es, i);
      if i != id {
        PtrsForOthers(es, i);
      }
    }
    PtrsForOthers(entries, id);
    IdsConcat(entries, es);
    assert Ids(es) == {id} by {
      assert es[0] in es;
    }
    var after, expected := InTransit(entries + es), InTransit(entries)[id := PtrsFor(es, id)];
    assert after.Keys == expected.Keys;
    forall i | i in after
      ensures after[i] == expected[i]
    {
    }
  }

  lemma IdsConcat(a: seq<Entry>, b: seq<Entry>)
    ensures Ids(a + b) == Ids(a) + Ids(b)
  {
    forall e
      ensures e in a + b <==> e in a || e in b
    {
    }
    forall i | i in Ids(a) + Ids(b)
      ensures i in Ids(a + b)
    {
      var e :| (e in a || e in b) && e.id == i;
      assert e in a + b;
    }
  }

  /** The entries of the multimap, in the order they came. */
  class TransferrableController {
    var inTransit: seq<Entry>

    constructor ()
      ensures inTransit == []
    {
      inTransit := [];
    }

    method Add(msgId: MsgId, items: seq<Item>)
      modifies this
      ensures inTransit == old(inTransit) + EntriesOf(msgId, items)
    {
      var i := 0;
      while i < |items|
        invariant 0 <= i <= |items|
        invariant inTransit == old(inTransit) + EntriesOf(msgId, items)[..i]
      {
        inTransit := inTransit + [Entry(msgId, items[i])];
        i := i + 1;
      }
    }

    method Done(msgId: MsgId)
      modifies this
      ensures inTransit == Erase(old(inTransit), msgId)
      ensures InTransit(inTransit) == InTransit(old(inTransit)) - {msgId} && Ids(inTransit) <= Ids(old(inTransit))
      ensures forall e :: multiset(inTransit)[e] == if e.id == msgId then 0 else multiset(old(inTransit))[e]
    {
      forall e
        ensures multiset(Erase(inTransit, msgId))[e] == if e.id == msgId then 0 else multiset(inTransit)[e]
      {
        EraseKeepsOthers(inTransit, msgId, e);
      }
      EraseInTransit(inTransit, msgId);
      inTransit := Erase(inTransit, msgId);
    }

    /** The number of items, which is zero exactly when no message is in transit. */
    method Size() returns (n: nat)
      ensures n == |inTransit|
      ensures n == 0 <==> |InTransit(inTransit)| == 0
    {
      n := |inTransit|;
      if n > 0 {
        assert inTransit[0] in inTransit;
        assert inTransit[0].id in InTransit(inTransit);
      }
    }
  }

  predicate DistinctIds(entries: seq<Entry>) {
    forall i, j | 0 <= i < j < |entries| :: entries[i].id != entries[j].id
  }

  lemma DistinctSnoc(rest: seq<Entry>, last: Entry)
    ensures DistinctIds(rest + [last]) <==> DistinctIds(rest) && last.id !in Ids(rest)
  {
    var entries := rest + [last];
    if DistinctIds(entries) {
      forall i, j | 0 <= i < j < |rest|
        ensures rest[i].id != rest[j].id
      {
        assert entries[i].id != entries[j].id;
      }
      forall e | e in rest
        ensures e.id != last.id
      {
        var i :| 0 <= i < |rest| && rest[i] == e;
        assert entries[i].id != entries[|rest|].id;
      }
    }
    if DistinctIds(rest) && last.id !in Ids(rest) {
      forall i | 0 <= i < |rest|
        ensures rest[i].id != last.id
      {
        assert rest[i] in rest;
      }
    }
  }

  lemma {:induction false} DistinctCount(entries: seq<Entry>)
    ensures |Ids(entries)| <= |entries|
    ensures |Ids(entries)| == |entries| <==> DistinctIds(entries)
  {
    if entries != [] {
      var rest, last := entries[..|entries| - 1], entries[|entries| - 1];
      assert entries == rest + [last];
      DistinctCount(rest);
      DistinctSnoc(rest, last);
      IdsConcat(rest, [last]);
      assert Ids([last]) == {last.id} by {
        assert last in [last];
      }
    }
  }

  /**
    What Size returns is the number of messages in transit if and only if none of them has more than
    one item; otherwise it is larger.
   */
  lemma SizeCountsMessages(entries: seq<Entry>)
    ensures |InTransit(entries)| <= |entries|
    ensures |InTransit(entries)| == |entries| <==> DistinctIds(entries)
  {
    assert InTransit(entries).Keys == Ids(entries);
    DistinctCount(entries);
  }
}

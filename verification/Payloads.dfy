/** From the tensors of a moved message to the block ids that its receiver loads. */
module Payloads {
  import opened Serialization
  import opened Transport
  import opened WireFormat
  import opened Wrappers
  import Shm = ShmModel
  import ST = ShmTheorems
  import opened TransportTheorems
  import opened TransportMemory

  const HANDLE_BYTES := 16
  const REUSE_BYTES := 8

  /** The UUID has 16 bytes, and the reuse count has not wrapped around. */
  predicate InWidth(b: Shm.BlockId) {
    b.handle < Pow256(HANDLE_BYTES) && b.reuse < Pow256(REUSE_BYTES)
  }

  function IdBytes(b: Shm.BlockId): (bs: Bytes)
    ensures |bs| == BLOCK_ID_BYTES
  {
    LittleEndian(b.handle, HANDLE_BYTES) + LittleEndian(b.reuse, REUSE_BYTES)
  }

  function IdFrom(bs: Bytes): Shm.BlockId
    requires |bs| == BLOCK_ID_BYTES
  {
    Shm.BlockId(FromLittleEndian(bs[..HANDLE_BYTES]), FromLittleEndian(bs[HANDLE_BYTES..]))
  }

  lemma IdRoundTrip(b: Shm.BlockId)
    requires InWidth(b)
    ensures IdFrom(IdBytes(b)) == b
  {
    LittleEndianRoundTrip(b.handle, HANDLE_BYTES);
    LittleEndianRoundTrip(b.reuse, REUSE_BYTES);
    var h, r := LittleEndian(b.handle, HANDLE_BYTES), LittleEndian(b.reuse, REUSE_BYTES);
    assert (h + r)[..HANDLE_BYTES] == h && (h + r)[HANDLE_BYTES..] == r;
  }

  /** The UUID comes first, then the reuse count in 8 bytes, least significant first. */
  lemma IdLayout(b: Shm.BlockId)
    ensures IdBytes(b)[..16] == LittleEndian(b.handle, 16)
    ensures forall k: nat | k < 8 :: IdBytes(b)[16 + k] as int == b.reuse / Pow256(k) % 256
  {
    forall k: nat | k < 8
      ensures IdBytes(b)[16 + k] as int == b.reuse / Pow256(k) % 256
    {
      LittleEndianDigit(b.reuse, 8, k);
    }
  }

  /** A tensor of a value map, in the order in which the map is visited. */
  datatype NamedTensor = NamedTensor(name: Bytes, ptr: Shm.PtrId)

  const VALUE_MAP := TMap(TString, TBlockId)

  predicate Live(shm: Shm.State, tensors: seq<NamedTensor>) {
    forall t <- tensors :: t.ptr in shm.ptrs && InWidth(shm.ptrs[t.ptr].id) && |t.name| < Pow256(SIZE_T_BYTES)
  }

  function EntryOf(shm: Shm.State, t: NamedTensor): Entry
    requires t.ptr in shm.ptrs
  {
    Entry(Str(t.name), BlockId(IdBytes(shm.ptrs[t.ptr].id)))
  }

  /** The payload of a message that carries these tensors. */
  function PayloadOf(shm: Shm.State, tensors: seq<NamedTensor>): (v: Value)
    requires Live(shm, tensors) && |tensors| < MAX_COUNT
    ensures Typed(VALUE_MAP, v)
  {
    Map(seq(|tensors|, i requires 0 <= i < |tensors| => EntryOf(shm, tensors[i])))
  }

  lemma {:induction false} AssignedFrom(acc: map<Decoded, Decoded>, xs: seq<Entry>, k: Decoded)
    requires k in AssignAll(acc, xs)
    ensures (k in acc && AssignAll(acc, xs)[k] == acc[k])
            || exists x :: x in xs && Plain(x.key) == k && Plain(x.value) == AssignAll(acc, xs)[k]
    decreases |xs|
  {
    if xs != [] {
      AssignedFrom(Assign(acc, xs[0]), xs[1..], k);
      assert xs == [xs[0]] + xs[1..];
      assert xs[0] in xs;
    }
  }

  /** The entries a receiver decodes: under the names of the tensors that were sent, their ids. */
  ghost predicate SameTensors(shm: Shm.State, tensors: seq<NamedTensor>, entries: map<Decoded, Decoded>)
    requires Live(shm, tensors)
  {
    && (forall k <- entries :: exists t :: t in tensors && IsEntry(shm, t, k, entries[k]))
    && (forall t <- tensors :: DStr(t.name) in entries)
  }

  ghost predicate GivesTensors(shm: Shm.State, tensors: seq<NamedTensor>, r: Option<(Decoded, Bytes)>)
    requires Live(shm, tensors)
  {
    r.Some? && r.value.0.DMap? && r.value.1 == [] && SameTensors(shm, tensors, r.value.0.entries)
  }

  predicate IsEntry(shm: Shm.State, t: NamedTensor, key: Decoded, value: Decoded)
    requires t.ptr in shm.ptrs
  {
    key == DStr(t.name) && value == DBlockId(IdBytes(shm.ptrs[t.ptr].id))
  }

  lemma {:induction false} AllAssigned(acc: map<Decoded, Decoded>, xs: seq<Entry>)
    ensures acc.Keys <= AssignAll(acc, xs).Keys
    ensures forall x <- xs :: Plain(x.key) in AssignAll(acc, xs)
    decreases |xs|
  {
    if xs != [] {
      AllAssigned(Assign(acc, xs[0]), xs[1..]);
      assert xs == [xs[0]] + xs[1..];
    }
  }

  /** A receiver decodes a map with the names that were sent, each with the id of a tensor sent under it. */
  lemma DecodedIds(shm: Shm.State, tensors: seq<NamedTensor>)
    requires Live(shm, tensors) && |tensors| < MAX_COUNT
    ensures GivesTensors(shm, tensors, Decode(VALUE_MAP, Encode(VALUE_MAP, PayloadOf(shm, tensors))))
  {
    var v := PayloadOf(shm, tensors);
    RoundTrip(VALUE_MAP, v, []);
    assert Encode(VALUE_MAP, v) + [] == Encode(VALUE_MAP, v);
    AssignedTensors(shm, tensors);
  }

  lemma AssignedTensors(shm: Shm.State, tensors: seq<NamedTensor>)
    requires Live(shm, tensors) && |tensors| < MAX_COUNT
    ensures SameTensors(shm, tensors, AssignAll(map[], PayloadOf(shm, tensors).entries))
  {
    var v := PayloadOf(shm, tensors);
    var entries := AssignAll(map[], v.entries);
    forall k | k in entries
      ensures exists t :: t in tensors && IsEntry(shm, t, k, entries[k])
    {
      AssignedFrom(map[], v.entries, k);
      var x :| x in v.entries && Plain(x.key) == k && Plain(x.value) == entries[k];
      var i :| 0 <= i < |v.entries| && v.entries[i] == x;
      assert tensors[i] in tensors && IsEntry(shm, tensors[i], k, entries[k]);
    }
    AllAssigned(map[], v.entries);
    forall t | t in tensors
      ensures DStr(t.name) in entries
    {
      var i :| 0 <= i < |tensors| && tensors[i] == t;
      assert v.entries[i] in v.entries;
    }
  }

  // ------------------------------------------------------------------ Through the machine

  /** What send_message_move keeps when it is given these tensors: they are in it, with any spilled payload. */
  predicate KeepsTensors(shm: Shm.State, kept: Kept, tensors: seq<NamedTensor>) {
    kept.Some? && kept.value <= shm.ptrs.Keys && forall t <- tensors :: t.ptr in kept.value
  }

  /** Where the payload is: in the message itself, or in a block. */
  datatype Carrier = Inline(bytes: Bytes) | Spilled(id: Shm.BlockId)

  function CarriedBytes(s: State, c: Carrier): Bytes {
    match c
    case Inline(bytes) => bytes
    case Spilled(id) => BytesAt(s, id.handle)
  }

  /** What deserialize_payload makes of the payload, of which a uint32_t says the size. */
  function Reading(s: State, c: Carrier, size: nat): Option<(Decoded, Bytes)> {
    var bs := CarriedBytes(s, c);
    if size % UINT32_RANGE <= |bs| then Decode(VALUE_MAP, bs[..size % UINT32_RANGE]) else None
  }

  /** User code hands these tensors to send_message_move in state s, and serialize_payload has written them. */
  ghost predicate Moves(s: State, e: End, tag: nat, kept: Kept, tensors: seq<NamedTensor>, c: Carrier) {
    && Enabled(s, SendStep(e, tag, kept)) && KeepsTensors(s.shm, kept, tensors)
    && Live(s.shm, tensors) && |tensors| < MAX_COUNT
    && CarriedBytes(s, c) == Encode(VALUE_MAP, PayloadOf(s.shm, tensors))
    && (c.Spilled? ==> c.id in IdsOf(s.shm, kept))
  }

  /** No region of load_shm takes an error branch for the id. */
  ghost predicate Loads(t: State, op: Shm.OpId, b: Shm.BlockId) {
    !Shm.CanLoadOpenError(t.shm, op, b) && Shm.AttachPasses(t.shm, b.handle) && Shm.CheckPasses(t.shm, b)
  }

  /** The message goes out in state s, and after `later` it is not yet released. */
  ghost predicate Unreleased(s: State, e: End, tag: nat, kept: Kept, later: seq<Step>) {
    Enabled(s, SendStep(e, tag, kept)) &&
    var sent := Apply(s, SendStep(e, tag, kept));
    && Valid(sent, later)
    && InFlight(At(After(sent, later), e), At(After(sent, later), Other(e)), SentWire(s, e, tag, kept))
  }

  ghost function AtEnd(s: State, e: End, tag: nat, kept: Kept, later: seq<Step>): State
    requires Unreleased(s, e, tag, kept, later)
  {
    After(Apply(s, SendStep(e, tag, kept)), later)
  }

  /** Nobody has written through a pointer under this id since. */
  ghost predicate Untouched(s: State, e: End, tag: nat, kept: Kept, later: seq<Step>, b: Shm.BlockId)
    requires Unreleased(s, e, tag, kept, later)
  {
    Unwritten(Apply(s, SendStep(e, tag, kept)), later, b)
  }

  /** load_shm accepts the id, and finds the data that was there when the message was sent. */
  ghost predicate Arrives(s: State, e: End, tag: nat, kept: Kept, later: seq<Step>, b: Shm.BlockId, op: Shm.OpId)
    requires Unreleased(s, e, tag, kept, later)
  {
    var t := AtEnd(s, e, tag, kept, later);
    Loads(t, op, b) && (Untouched(s, e, tag, kept, later, b) ==> BytesAt(t, b.handle) == BytesAt(s, b.handle))
  }

  lemma GuardedLoads(t: State, e: End, w: Wire, b: Shm.BlockId, op: Shm.OpId)
    requires Inv(t) && InFlight(At(t, e), At(t, Other(e)), w) && w.User? && w.requiresDone && b in w.guarded
    ensures Loads(t, op, b)
  {
    GuardedIsLive(t, e, w, b);
    ST.LiveIdLoads(t.shm, b, op);
  }

  lemma SendEffect(s: State, e: End, tag: nat, kept: Kept)
    requires Enabled(s, SendStep(e, tag, kept))
    ensures var sent := Apply(s, SendStep(e, tag, kept));
            sent.memory == s.memory && SentWire(s, e, tag, kept).id < At(sent, e).nextId
  {
  }

  lemma BlockArrives(s: State, e: End, tag: nat, kept: Kept, later: seq<Step>, b: Shm.BlockId, op: Shm.OpId)
    requires Inv(s) && Unreleased(s, e, tag, kept, later) && b in IdsOf(s.shm, kept)
    ensures Arrives(s, e, tag, kept, later, b, op)
  {
    var sent := Apply(s, SendStep(e, tag, kept));
    StepInv(s, SendStep(e, tag, kept));
    SendEffect(s, e, tag, kept);
    GuardedArrives(sent, e, SentWire(s, e, tag, kept), later, b, op);
  }

  lemma GuardedArrives(sent: State, e: End, w: Wire, later: seq<Step>, b: Shm.BlockId, op: Shm.OpId)
    requires Inv(sent) && Valid(sent, later) && w.User? && w.requiresDone && b in w.guarded && w.id < At(sent, e).nextId
    requires InFlight(At(After(sent, later), e), At(After(sent, later), Other(e)), w)
    ensures Loads(After(sent, later), op, b)
    ensures Unwritten(sent, later, b) ==> BytesAt(After(sent, later), b.handle) == BytesAt(sent, b.handle)
  {
    RunKeepsInv(sent, later);
    GuardedLoads(After(sent, later), e, w, b, op);
    if Unwritten(sent, later, b) {
      GuardedBytesKept(sent, later, e, w, b);
    }
  }

  lemma PayloadArrives(s: State, e: End, tag: nat, kept: Kept, tensors: seq<NamedTensor>, c: Carrier, later: seq<Step>)
    requires Inv(s) && Moves(s, e, tag, kept, tensors, c) && Unreleased(s, e, tag, kept, later)
    requires c.Spilled? ==> Untouched(s, e, tag, kept, later, c.id)
    ensures CarriedBytes(AtEnd(s, e, tag, kept, later), c) == Encode(VALUE_MAP, PayloadOf(s.shm, tensors))
  {
    if c.Spilled? {
      BlockArrives(s, e, tag, kept, later, c.id, 0);
    }
  }

  /** An encoding of 2^32 bytes or more is never decoded, a shorter one gives the tensors that were sent. */
  lemma {:induction false} PayloadReads(t: State, shm: Shm.State, tensors: seq<NamedTensor>, c: Carrier)
    requires Live(shm, tensors) && |tensors| < MAX_COUNT
    requires CarriedBytes(t, c) == Encode(VALUE_MAP, PayloadOf(shm, tensors))
    ensures var size := |Encode(VALUE_MAP, PayloadOf(shm, tensors))|;
            if size >= UINT32_RANGE then Reading(t, c, size) == None
                else GivesTensors(shm, tensors, Reading(t, c, size))
  {
    CutReads(VALUE_MAP, PayloadOf(shm, tensors), CarriedBytes(t, c));
    DecodedIds(shm, tensors);
  }

  lemma {:induction false} CutReads(kind: Type, v: Value, bs: Bytes)
    requires Typed(kind, v) && bs == Encode(kind, v)
    ensures Decode(kind, bs[..|bs| % UINT32_RANGE]) == if |bs| < UINT32_RANGE then Decode(kind, bs) else None
  {
    PayloadSurvives(kind, v);
    if |bs| < UINT32_RANGE {
      assert bs[..|bs| % UINT32_RANGE] == bs;
    }
  }

  /**
    User code moves tensors into a message. In every run from there, as long as the message is not
    released: if the encoding is shorter than 2^32 bytes, its receiver decodes a map with the names that
    were sent, in which each entry is the id of a tensor sent under that name; load_shm accepts each of
    these ids, and finds the data of the tensor as it was sent, unless somebody has written through a
    pointer under just this id. A longer encoding is never decoded.
   */
  lemma TensorsLoad(before: seq<Step>, e: End, tag: nat, kept: Kept, tensors: seq<NamedTensor>, c: Carrier,
                    later: seq<Step>, op: Shm.OpId)
    requires Valid(INIT, before) && Moves(After(INIT, before), e, tag, kept, tensors, c)
    requires Unreleased(After(INIT, before), e, tag, kept, later)
    requires c.Spilled? ==> Untouched(After(INIT, before), e, tag, kept, later, c.id)
    ensures var s := After(INIT, before);
            var t := AtEnd(s, e, tag, kept, later);
            var size := |Encode(VALUE_MAP, PayloadOf(s.shm, tensors))|;
            if size >= UINT32_RANGE then Reading(t, c, size) == None
                else GivesTensors(s.shm, tensors, Reading(t, c, size))
    ensures var s := After(INIT, before);
            forall x <- tensors ::
              var id := s.shm.ptrs[x.ptr].id;
              IdFrom(IdBytes(id)) == id && Arrives(s, e, tag, kept, later, id, op)
  {
    InitInv();
    RunKeepsInv(INIT, before);
    TensorsArrive(After(INIT, before), e, tag, kept, tensors, c, later, op);
    PayloadArrives(After(INIT, before), e, tag, kept, tensors, c, later);
    PayloadReads(AtEnd(After(INIT, before), e, tag, kept, later), After(INIT, before).shm, tensors, c);
  }

  lemma TensorsArrive(s: State, e: End, tag: nat, kept: Kept, tensors: seq<NamedTensor>, c: Carrier, later: seq<Step>,
                      op: Shm.OpId)
    requires Inv(s) && Moves(s, e, tag, kept, tensors, c) && Unreleased(s, e, tag, kept, later)
    ensures forall x <- tensors ::
              var id := s.shm.ptrs[x.ptr].id;
              IdFrom(IdBytes(id)) == id && Arrives(s, e, tag, kept, later, id, op)
  {
    forall x | x in tensors
      ensures var id := s.shm.ptrs[x.ptr].id;
              IdFrom(IdBytes(id)) == id && Arrives(s, e, tag, kept, later, id, op)
    {
      IdRoundTrip(s.shm.ptrs[x.ptr].id);
      BlockArrives(s, e, tag, kept, later, s.shm.ptrs[x.ptr].id, op);
    }
  }

  /** Such messages exist: a run in which a tensor with any name and data is written and moved into one. */
  lemma MovesReachable(e: End, tag: nat, name: Bytes, data: Bytes) returns (before: seq<Step>, c: Carrier)
    requires |name| < Pow256(SIZE_T_BYTES)
    ensures var tensors, kept := [NamedTensor(name, 0)], Some({0});
            && Valid(INIT, before) && Moves(After(INIT, before), e, tag, kept, tensors, c)
            && Unreleased(After(INIT, before), e, tag, kept, [])
            && BytesAt(After(INIT, before), 0) == data && After(INIT, before).shm.ptrs[0].id.handle == 0
  {
    var create := Allocator(Shm.CreateStep(0, |data|, 0, 0, 0));
    var created := Apply(INIT, create);
    var written := Apply(created, WriteStep(0, data));
    Prepend(created, WriteStep(0, data), []);
    Prepend(INIT, create, [WriteStep(0, data)] + []);
    before := [create] + ([WriteStep(0, data)] + []);
    var tensors := [NamedTensor(name, 0)];
    assert written.shm.ptrs[0].id == Shm.BlockId(0, 0);
    assert Live(written.shm, tensors);
    c := Inline(Encode(VALUE_MAP, PayloadOf(written.shm, tensors)));
    WriteArrives(created, 0, data);
    JustSent(written, e, tag, Some({0}));
  }

  lemma JustSent(s: State, e: End, tag: nat, kept: Kept)
    requires Enabled(s, SendStep(e, tag, kept))
    ensures Unreleased(s, e, tag, kept, [])
  {
  }
}

/** Payloads inside a wire message: inline when they fit, otherwise spilled into shared memory. */
module WireFormat {
  import opened Serialization
  import opened Streams
  import opened Wrappers

  const INLINE_PAYLOAD_SIZE_BYTES := 8192
  const UINT32_RANGE := 0x1_0000_0000 // payload_size is a uint32_t

  type BlockKey = nat

  /** The data of the shared memory blocks that are alive, by block id. */
  class SharedBlocks {
    var contents: map<BlockKey, Bytes>

    constructor ()
      ensures contents == map[]
    {
      contents := map[];
    }

    /** A block under an id that was never used, with whatever bytes an earlier user has left in it. */
    method Allocate(id: BlockKey, stale: Bytes)
      requires id !in contents
      modifies this
      ensures contents == old(contents)[id := stale]
    {
      contents := contents[id := stale];
    }

    /** Copies bs to the start of the block. */
    method Write(id: BlockKey, bs: Bytes)
      requires id in contents && |bs| <= |contents[id]|
      modifies this
      ensures contents == old(contents)[id := bs + old(contents)[id][|bs|..]]
    {
      contents := contents[id := bs + contents[id][|bs|..]];
    }
  }

  class WireMessage {
    var isInline: bool
    var payloadSize: nat
    var payloadId: BlockKey
    const payload: array<Byte>

    constructor ()
      ensures fresh(payload) && payload.Length == INLINE_PAYLOAD_SIZE_BYTES
    {
      isInline := *;
      payloadSize := *;
      payloadId := *;
      payload := new Byte[INLINE_PAYLOAD_SIZE_BYTES];
    }
  }

  /** payload_size stays inside the inline buffer, or inside the block if it can be loaded. */
  ghost predicate InBounds(msg: WireMessage, shm: SharedBlocks)
    reads msg, shm
  {
    if msg.isInline then msg.payloadSize <= msg.payload.Length
    else msg.payloadId in shm.contents ==> msg.payloadSize <= |shm.contents[msg.payloadId]|
  }

  /** The bytes a receiver reads, or None where load_shm throws. */
  ghost function Received(msg: WireMessage, shm: SharedBlocks): Option<Bytes>
    requires InBounds(msg, shm)
    reads msg, msg.payload, shm
  {
    if msg.isInline then Some(msg.payload[..msg.payloadSize])
    else if msg.payloadId in shm.contents then Some(shm.contents[msg.payloadId][..msg.payloadSize])
    else None
  }

  method CopyInline(payload: array<Byte>, bs: Bytes)
    requires |bs| <= payload.Length
    modifies payload
    ensures payload[..|bs|] == bs
  {
    var i := 0;
    while i < |bs|
      invariant 0 <= i <= |bs| && payload[..i] == bs[..i]
    {
      payload[i] := bs[i];
      i := i + 1;
    }
  }

  /**
    serialize_payload. `id` and `stale` are what allocate_shm would return: an id that is not in use
    and a block of the requested size.
   */
  method SerializePayload(t: Type, v: Value, msg: WireMessage, shm: SharedBlocks, id: BlockKey, stale: Bytes)
    returns (transferrables: seq<BlockKey>)
    requires Typed(t, v) && msg.payload.Length == INLINE_PAYLOAD_SIZE_BYTES
    requires id !in shm.contents && |stale| == |Encode(t, v)|
    modifies msg, msg.payload, shm
    ensures msg.isInline <==> |Encode(t, v)| <= INLINE_PAYLOAD_SIZE_BYTES
    ensures transferrables == if msg.isInline then [] else [msg.payloadId]
    ensures msg.payloadSize == |Encode(t, v)| % UINT32_RANGE
    ensures msg.isInline ==> shm.contents == old(shm.contents)
    ensures !msg.isInline ==> msg.payloadId == id && shm.contents == old(shm.contents)[id := Encode(t, v)]
    ensures InBounds(msg, shm)
    ensures Received(msg, shm) == Some(Encode(t, v)[..|Encode(t, v)| % UINT32_RANGE])
  {
    var ss := new OutStream();
    Serialize(ss, t, v);
    var bs := ss.bytes;
    assert bs == Encode(t, v);
    msg.payloadSize := |bs| % UINT32_RANGE;
    if |bs| <= INLINE_PAYLOAD_SIZE_BYTES {
      CopyInline(msg.payload, bs);
      assert bs[..|bs| % UINT32_RANGE] == bs;
      msg.isInline := true;
      transferrables := [];
    } else {
      shm.Allocate(id, stale);
      shm.Write(id, bs);
      assert bs + stale[|bs|..] == bs;
      msg.payloadId := id;
      msg.isInline := false;
      transferrables := [id];
    }
  }

  /** deserialize_payload; None where load_shm or the decoder throws. */
  method DeserializePayload(t: Type, msg: WireMessage, shm: SharedBlocks, staticBuffer: array<Byte>)
    returns (r: Option<Decoded>)
    requires InBounds(msg, shm)
    requires staticBuffer.Length == STATIC_BUFFER_BYTES && staticBuffer != msg.payload
    modifies staticBuffer
    ensures r == match Received(msg, shm)
                 case None => None
                 case Some(bs) => if Decode(t, bs).Some? then Some(Decode(t, bs).value.0) else None
  {
    var bs: Bytes;
    if msg.isInline {
      bs := msg.payload[..msg.payloadSize];
    } else if msg.payloadId in shm.contents {
      bs := shm.contents[msg.payloadId][..msg.payloadSize];
    } else {
      return None;
    }
    var ss := new InStream(bs);
    r := Deserialize(ss, staticBuffer, t);
  }

  /**
    The payload survives the wire if and only if its encoding is shorter than 2^32 bytes; a longer
    one is cut to its size modulo 2^32 and never decodes.
   */
  lemma PayloadSurvives(t: Type, v: Value)
    requires Typed(t, v)
    ensures var bs := Encode(t, v);
            var received := Decode(t, bs[..|bs| % UINT32_RANGE]);
            && (|bs| < UINT32_RANGE <==> received == Some((Plain(v), [])))
            && (|bs| >= UINT32_RANGE ==> received == None)
  {
    var bs := Encode(t, v);
    if |bs| < UINT32_RANGE {
      RoundTrip(t, v, []);
      assert bs + [] == bs && bs[..|bs|] == bs;
    } else {
      TruncatedFails(t, v, |bs| % UINT32_RANGE);
    }
  }

  /** A string of 2^32 - 8 bytes has an encoding of 2^32 bytes; the size field says none, and nothing is decoded. */
  lemma PayloadTooLong()
    ensures var v := Str(seq(UINT32_RANGE - SIZE_T_BYTES, _ => 0));
            && Typed(TString, v) && |Encode(TString, v)| == UINT32_RANGE
            && Decode(TString, Encode(TString, v)[..|Encode(TString, v)| % UINT32_RANGE]) == None
  {
    var v := Str(seq(UINT32_RANGE - SIZE_T_BYTES, _ => 0));
    CountsFit();
    assert Pow256(4) == UINT32_RANGE by {
      assert Pow256(1) == 256 && Pow256(2) == 256 * 256 && Pow256(3) == 256 * 256 * 256;
    }
    assert Pow256(5) == 256 * Pow256(4) && Pow256(6) == 256 * Pow256(5);
    assert Pow256(7) == 256 * Pow256(6) && Pow256(8) == 256 * Pow256(7);
    PayloadSurvives(TString, v);
  }

  // ------------------------------------------------------------------------------------- DONE

  const MESSAGE_ID := TInt(8, false)

  /** The id in a DONE is found again by the read loop; its encoding has 8 bytes. */
  lemma DoneRoundTrip(acked: nat)
    requires Typed(MESSAGE_ID, Int(acked))
    ensures |Encode(MESSAGE_ID, Int(acked))| == 8
    ensures Decode(MESSAGE_ID, Encode(MESSAGE_ID, Int(acked))) == Some((DInt(acked), []))
  {
    RoundTrip(MESSAGE_ID, Int(acked), []);
    assert Encode(MESSAGE_ID, Int(acked)) + [] == Encode(MESSAGE_ID, Int(acked));
  }

  /**
    The acking deleter up to the send; `ok` is false where it throws because the DONE has transferrables
    of its own. It never has: a DONE requires no DONE, whatever the id is.
   */
  method MakeDone(acked: nat, msg: WireMessage, shm: SharedBlocks, id: BlockKey, stale: Bytes) returns (ok: bool)
    requires Typed(MESSAGE_ID, Int(acked)) && msg.payload.Length == INLINE_PAYLOAD_SIZE_BYTES
    requires id !in shm.contents && |stale| == 8
    modifies msg, msg.payload, shm
    ensures ok && msg.isInline && shm.contents == old(shm.contents)
    ensures InBounds(msg, shm) && Received(msg, shm) == Some(Encode(MESSAGE_ID, Int(acked)))
  {
    DoneRoundTrip(acked);
    var transferrables := SerializePayload(MESSAGE_ID, Int(acked), msg, shm, id, stale);
    assert Encode(MESSAGE_ID, Int(acked))[..8] == Encode(MESSAGE_ID, Int(acked));
    ok := transferrables == [];
  }

  /** A payload sent and received, on both sides of the inline limit. */
  method Transfer(t: Type, v: Value, msg: WireMessage, shm: SharedBlocks, id: BlockKey, stale: Bytes,
                  staticBuffer: array<Byte>)
    returns (r: Option<Decoded>)
    requires Typed(t, v) && msg.payload.Length == INLINE_PAYLOAD_SIZE_BYTES
    requires id !in shm.contents && |stale| == |Encode(t, v)|
    requires staticBuffer.Length == STATIC_BUFFER_BYTES && staticBuffer != msg.payload
    modifies msg, msg.payload, shm, staticBuffer
    ensures r == if |Encode(t, v)| < UINT32_RANGE then Some(Plain(v)) else None
  {
    var transferrables := SerializePayload(t, v, msg, shm, id, stale);
    PayloadSurvives(t, v);
    r := DeserializePayload(t, msg, shm, staticBuffer);
  }
}

/** ipc_serialize and ipc_deserialize as they work on streams, proved against the encoding. */
module Streams {
  import opened Serialization
  import opened Wrappers

  class OutStream {
    var bytes: Bytes

    constructor ()
      ensures bytes == []
    {
      bytes := [];
    }

    method Write(bs: Bytes)
      modifies this
      ensures bytes == old(bytes) + bs
    {
      bytes := bytes + bs;
    }
  }

  class InStream {
    var rest: Bytes

    constructor (bs: Bytes)
      ensures rest == bs
    {
      rest := bs;
    }

    /** checked_read into a buffer; `ok` is false where it throws. */
    method ReadInto(buffer: array<Byte>, n: nat) returns (ok: bool)
      requires n <= buffer.Length
      modifies this, buffer
      ensures ok <==> n <= |old(rest)|
      ensures ok ==> buffer[..n] == old(rest)[..n] && buffer[n..] == old(buffer[n..]) && rest == old(rest)[n..]
    {
      if n > |rest| {
        return false;
      }
      var i := 0;
      while i < n
        invariant 0 <= i <= n <= |rest|
        invariant buffer[..i] == rest[..i] && buffer[n..] == old(buffer[n..]) && rest == old(rest)
      {
        buffer[i] := rest[i];
        i := i + 1;
      }
      rest := rest[n..];
      return true;
    }

    method ReadBytes(n: nat) returns (r: Option<Bytes>)
      modifies this
      ensures match Take(old(rest), n)
              case None => r == None
              case Some((bs, rest')) => r == Some(bs) && rest == rest'
    {
      var buffer := new Byte[n];
      var ok := ReadInto(buffer, n);
      assert buffer[..] == buffer[..n];
      return if ok then Some(buffer[..]) else None;
    }

    method ReadSize() returns (r: Option<nat>)
      modifies this
      ensures match DecodeSize(old(rest))
              case None => r == None
              case Some((n, rest')) => r == Some(n) && rest == rest'
    {
      var raw := ReadBytes(SIZE_T_BYTES);
      return if raw.Some? then Some(FromLittleEndian(raw.value)) else None;
    }

    /** Short strings go through the static buffer, whatever an earlier string has left in it. */
    method ReadString(staticBuffer: array<Byte>) returns (r: Option<Bytes>)
      requires staticBuffer.Length == STATIC_BUFFER_BYTES
      modifies this, staticBuffer
      ensures match Decode(TString, old(rest))
              case None => r == None
              case Some((d, rest')) => r.Some? && d == DStr(r.value) && rest == rest'
    {
      var length := ReadSize();
      if length.None? {
        return None;
      }
      var ok: bool;
      if length.value < staticBuffer.Length {
        ok := ReadInto(staticBuffer, length.value);
        return if ok then Some(staticBuffer[..length.value]) else None;
      } else {
        var buffer := new Byte[length.value];
        ok := ReadInto(buffer, length.value);
        return if ok then Some(buffer[..]) else None;
      }
    }
  }

  method Serialize(out: OutStream, t: Type, v: Value)
    requires Typed(t, v)
    modifies out
    ensures out.bytes == old(out.bytes) + Encode(t, v)
    decreases v
  {
    match t
    case TInt(width, signed) => out.Write(EncodeInt(v.i, width, signed));
    case TBool => out.Write([if v.b then 1 else 0]);
    case TString =>
      out.Write(EncodeSize(|v.s|));
      out.Write(v.s);
    case TBlockId => out.Write(v.id);
    case TVector(e) => SerializeItems(out, t, v);
    case TMap(k, e) => SerializeEntries(out, t, v);
    case TStruct(fields) => SerializeFields(out, t, v);
  }

  lemma Regroup(a: Bytes, b: Bytes, c: Bytes)
    ensures (a + b) + c == a + (b + c)
  {
  }

  method SerializeItems(out: OutStream, t: Type, v: Value)
    requires t.TVector? && Typed(t, v)
    modifies out
    ensures out.bytes == old(out.bytes) + Encode(t, v)
    decreases v, 0
  {
    var items := v.items;
    out.Write(EncodeSize(|items|));
    ghost var before, written := out.bytes, [];
    var i := 0;
    while i < |items|
      invariant 0 <= i <= |items|
      invariant out.bytes == before + written
      invariant written + EncodeItems(t.elem, items[i..]) == EncodeItems(t.elem, items)
    {
      assert items[i..][1..] == items[i + 1..];
      Serialize(out, t.elem, items[i]);
      ghost var item := Encode(t.elem, items[i]);
      Regroup(before, written, item);
      Regroup(written, item, EncodeItems(t.elem, items[i + 1..]));
      written := written + item;
      i := i + 1;
    }
    assert items[i..] == [];
    Regroup(old(out.bytes), EncodeSize(|items|), written);
  }

  method SerializeEntries(out: OutStream, t: Type, v: Value)
    requires t.TMap? && Typed(t, v)
    modifies out
    ensures out.bytes == old(out.bytes) + Encode(t, v)
    decreases v, 0
  {
    var entries := v.entries;
    out.Write(EncodeSize(|entries|));
    ghost var before, written := out.bytes, [];
    var i := 0;
    while i < |entries|
      invariant 0 <= i <= |entries|
      invariant out.bytes == before + written
      invariant written + EncodeEntries(t.key, t.value, entries[i..]) == EncodeEntries(t.key, t.value, entries)
    {
      assert entries[i..][1..] == entries[i + 1..];
      SerializeEntry(out, t.key, t.value, entries[i]);
      ghost var entry := EncodeEntry(t.key, t.value, entries[i]);
      Regroup(before, written, entry);
      Regroup(written, entry, EncodeEntries(t.key, t.value, entries[i + 1..]));
      written := written + entry;
      i := i + 1;
    }
    assert entries[i..] == [];
    Regroup(old(out.bytes), EncodeSize(|entries|), written);
  }

  method SerializeEntry(out: OutStream, k: Type, e: Type, x: Entry)
    requires Typed(k, x.key) && Typed(e, x.value)
    modifies out
    ensures out.bytes == old(out.bytes) + EncodeEntry(k, e, x)
    decreases x, 0
  {
    Serialize(out, k, x.key);
    Serialize(out, e, x.value);
    Regroup(old(out.bytes), Encode(k, x.key), Encode(e, x.value));
  }

  method SerializeFields(out: OutStream, t: Type, v: Value)
    requires t.TStruct? && Typed(t, v)
    modifies out
    ensures out.bytes == old(out.bytes) + Encode(t, v)
    decreases v, 0
  {
    var fields, members, i := t.fields, v.members, 0;
    ghost var before, written := out.bytes, [];
    while i < |members|
      invariant 0 <= i <= |members| == |fields|
      invariant TypedFields(fields[i..], members[i..])
      invariant out.bytes == before + written
      invariant written + EncodeFields(fields[i..], members[i..]) == EncodeFields(fields, members)
    {
      assert members[i..][1..] == members[i + 1..] && fields[i..][1..] == fields[i + 1..];
      Serialize(out, fields[i], members[i]);
      ghost var member := Encode(fields[i], members[i]);
      Regroup(before, written, member);
      Regroup(written, member, EncodeFields(fields[i + 1..], members[i + 1..]));
      written := written + member;
      i := i + 1;
    }
    assert members[i..] == [];
  }

  method Deserialize(input: InStream, staticBuffer: array<Byte>, t: Type) returns (r: Option<Decoded>)
    requires staticBuffer.Length == STATIC_BUFFER_BYTES
    modifies input, staticBuffer
    ensures match Decode(t, old(input.rest))
            case None => r == None
            case Some((d, rest)) => r == Some(d) && input.rest == rest
    decreases t
  {
    match t
    case TInt(width, signed) =>
      var raw := input.ReadBytes(width);
      return if raw.Some? then Some(DInt(FromUnsigned(FromLittleEndian(raw.value), width, signed))) else None;
    case TBool =>
      var raw := input.ReadBytes(1);
      return if raw.Some? then Some(DBool(raw.value[0] != 0)) else None;
    case TString =>
      var s := input.ReadString(staticBuffer);
      return if s.Some? then Some(DStr(s.value)) else None;
    case TBlockId =>
      var raw := input.ReadBytes(BLOCK_ID_BYTES);
      return if raw.Some? then Some(DBlockId(raw.value)) else None;
    case TVector(e) =>
      r := DeserializeItems(input, staticBuffer, t);
    case TMap(k, e) =>
      r := DeserializeEntries(input, staticBuffer, t);
    case TStruct(fields) =>
      var members, i := [], 0;
      while i < |fields|
        invariant 0 <= i <= |fields|
        invariant DecodeFields(fields[i..], input.rest, members) == Decode(t, old(input.rest))
      {
        assert fields[i..][1..] == fields[i + 1..];
        var member := Deserialize(input, staticBuffer, fields[i]);
        if member.None? {
          return None;
        }
        members := members + [member.value];
        i := i + 1;
      }
      return Some(DStruct(members));
  }

  method DeserializeItems(input: InStream, staticBuffer: array<Byte>, t: Type) returns (r: Option<Decoded>)
    requires staticBuffer.Length == STATIC_BUFFER_BYTES && t.TVector?
    modifies input, staticBuffer
    ensures match Decode(t, old(input.rest))
            case None => r == None
            case Some((d, rest)) => r == Some(d) && input.rest == rest
    decreases t, 0
  {
    var size := input.ReadSize();
    if size.None? {
      return None;
    }
    var items, i := [], 0;
    while i < size.value
      invariant 0 <= i <= size.value
      invariant DecodeItems(t, size.value - i, input.rest, items) == Decode(t, old(input.rest))
    {
      var item := Deserialize(input, staticBuffer, t.elem);
      if item.None? {
        return None;
      }
      items := items + [item.value];
      i := i + 1;
    }
    return Some(DVector(items));
  }

  method DeserializeEntries(input: InStream, staticBuffer: array<Byte>, t: Type) returns (r: Option<Decoded>)
    requires staticBuffer.Length == STATIC_BUFFER_BYTES && t.TMap?
    modifies input, staticBuffer
    ensures match Decode(t, old(input.rest))
            case None => r == None
            case Some((d, rest)) => r == Some(d) && input.rest == rest
    decreases t, 0
  {
    var size := input.ReadSize();
    if size.None? {
      return None;
    }
    var data: map<Decoded, Decoded>, i := map[], 0;
    while i < size.value
      invariant 0 <= i <= size.value
      invariant DecodeEntries(t, size.value - i, input.rest, data) == Decode(t, old(input.rest))
    {
      var key := Deserialize(input, staticBuffer, t.key);
      if key.None? {
        return None;
      }
      var value := Deserialize(input, staticBuffer, t.value);
      if value.None? {
        return None;
      }
      data := data[key.value := value.value];
      i := i + 1;
    }
    return Some(DMap(data));
  }
}

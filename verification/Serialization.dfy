/** The byte encoding of IPC payloads, and that decoding undoes it for values of any nesting. */
module Serialization {
  import opened Wrappers

  type Byte = b: int | 0 <= b < 256

  type Bytes = seq<Byte>

  /** The C++ types ipc_serialize is defined for; a block id is copied raw. */
  datatype Type =
    | TInt(width: nat, signed: bool)
    | TBool
    | TString
    | TBlockId
    | TVector(elem: Type)
    | TMap(key: Type, value: Type)
    | TStruct(fields: seq<Type>)

  /** A value to encode. The entries of an unordered_map stand in the order its iterator visits them. */
  datatype Value =
    | Int(i: int)
    | Bool(b: bool)
    | Str(s: Bytes)
    | BlockId(id: Bytes)
    | Vector(items: seq<Value>)
    | Map(entries: seq<Entry>)
    | Struct(members: seq<Value>)

  datatype Entry = Entry(key: Value, value: Value)

  /** A decoded value, where a map has no order. */
  datatype Decoded =
    | DInt(i: int)
    | DBool(b: bool)
    | DStr(s: Bytes)
    | DBlockId(id: Bytes)
    | DVector(items: seq<Decoded>)
    | DMap(entries: map<Decoded, Decoded>)
    | DStruct(members: seq<Decoded>)

  const SIZE_T_BYTES := 8
  const BLOCK_ID_BYTES := 24
  const MAX_COUNT := INT32_LIMIT // the loop counters of the decoder are ints
  const STATIC_BUFFER_BYTES := 2048

  function Pow256(n: nat): (p: nat)
    ensures p > 0
  {
    if n == 0 then 1 else 256 * Pow256(n - 1)
  }

  // ---------------------------------------------------------------------- Fixed width integers

  /** The bytes of an unsigned integer in memory, least significant first. */
  function LittleEndian(n: nat, width: nat): (bs: Bytes)
    ensures |bs| == width
  {
    if width == 0 then [] else [n % 256] + LittleEndian(n / 256, width - 1)
  }

  function FromLittleEndian(bs: Bytes): nat {
    if bs == [] then 0 else bs[0] + 256 * FromLittleEndian(bs[1..])
  }

  /** The byte with weight 256^k comes at position k. */
  lemma {:induction false} LittleEndianDigit(n: nat, width: nat, k: nat)
    requires k < width
    ensures LittleEndian(n, width)[k] as int == n / Pow256(k) % 256
  {
    if k > 0 {
      LittleEndianDigit(n / 256, width - 1, k - 1);
      DivideTwice(n, Pow256(k - 1));
    }
  }

  lemma DivideTwice(n: nat, p: nat)
    requires p > 0
    ensures n / 256 / p == n / (256 * p)
  {
    var q, r := n / 256, n % 256;
    var a, b := q / p, q % p;
    assert n == 256 * q + r && q == a * p + b;
    assert n == a * (256 * p) + (256 * b + r) && 256 * b + r < 256 * p;
    QuotientIs(n, 256 * p, a, 256 * b + r);
  }

  lemma QuotientIs(n: nat, d: nat, q: nat, r: nat)
    requires r < d && n == q * d + r
    ensures n / d == q
  {
    var x, y := n / d, n % d;
    assert n == x * d + y;
    assert (x - q) * d == r - y;
    if x != q {
      MultipleFar(x - q, d);
    }
  }

  lemma {:induction false} MultipleFar(e: int, d: nat)
    requires e != 0
    ensures e * d >= d || e * d <= -(d as int)
  {
    if e > 0 {
      assert (e - 1) * d >= 0;
    } else {
      assert (-e - 1) * d >= 0;
    }
  }

  lemma {:induction false} LittleEndianRoundTrip(n: nat, width: nat)
    requires n < Pow256(width)
    ensures FromLittleEndian(LittleEndian(n, width)) == n
  {
    if width > 0 {
      LittleEndianRoundTrip(n / 256, width - 1);
      assert LittleEndian(n, width)[1..] == LittleEndian(n / 256, width - 1);
    }
  }

  predicate InRange(i: int, width: nat, signed: bool) {
    if signed then -(Pow256(width) as int) <= 2 * i < Pow256(width) else 0 <= i < Pow256(width)
  }

  /** Two's complement. */
  function ToUnsigned(i: int, width: nat): int {
    if i < 0 then i + Pow256(width) else i
  }

  function FromUnsigned(n: nat, width: nat, signed: bool): int {
    if signed && 2 * n >= Pow256(width) then n - Pow256(width) else n
  }

  function EncodeInt(i: int, width: nat, signed: bool): (bs: Bytes)
    requires InRange(i, width, signed)
    ensures |bs| == width
  {
    LittleEndian(ToUnsigned(i, width), width)
  }

  lemma IntRoundTrip(i: int, width: nat, signed: bool)
    requires InRange(i, width, signed)
    ensures FromUnsigned(FromLittleEndian(EncodeInt(i, width, signed)), width, signed) == i
  {
    LittleEndianRoundTrip(ToUnsigned(i, width), width);
  }

  function EncodeSize(n: nat): Bytes {
    LittleEndian(n, SIZE_T_BYTES)
  }

  // ------------------------------------------------------------------------------- Encoding

  /** v is a value of type t, with lengths a size_t holds and fewer elements than an int counts. */
  predicate Typed(t: Type, v: Value)
    decreases v, 1
  {
    match t
    case TInt(width, signed) => v.Int? && InRange(v.i, width, signed)
    case TBool => v.Bool?
    case TString => v.Str? && |v.s| < Pow256(SIZE_T_BYTES)
    case TBlockId => v.BlockId? && |v.id| == BLOCK_ID_BYTES
    case TVector(e) => v.Vector? && |v.items| < MAX_COUNT && forall x <- v.items :: Typed(e, x)
    case TMap(k, e) =>
      v.Map? && |v.entries| < MAX_COUNT && forall x <- v.entries :: Typed(k, x.key) && Typed(e, x.value)
    case TStruct(fields) => v.Struct? && TypedFields(fields, v.members)
  }

  predicate TypedFields(fields: seq<Type>, vs: seq<Value>)
    decreases vs, 0
  {
    && |fields| == |vs|
    && (|vs| > 0 ==> Typed(fields[0], vs[0]) && TypedFields(fields[1..], vs[1..]))
  }

  function Encode(t: Type, v: Value): Bytes
    requires Typed(t, v)
    decreases v, 1
  {
    match t
    case TInt(width, signed) => EncodeInt(v.i, width, signed)
    case TBool => [if v.b then 1 else 0]
    case TString => EncodeSize(|v.s|) + v.s
    case TBlockId => v.id
    case TVector(e) => EncodeSize(|v.items|) + EncodeItems(e, v.items)
    case TMap(k, e) => EncodeSize(|v.entries|) + EncodeEntries(k, e, v.entries)
    case TStruct(fields) => EncodeFields(fields, v.members)
  }

  function EncodeItems(t: Type, vs: seq<Value>): Bytes
    requires forall x <- vs :: Typed(t, x)
    decreases vs, 0
  {
    if vs == [] then [] else Encode(t, vs[0]) + EncodeItems(t, vs[1..])
  }

  function EncodeEntries(k: Type, e: Type, xs: seq<Entry>): Bytes
    requires forall x <- xs :: Typed(k, x.key) && Typed(e, x.value)
    decreases xs, 0
  {
    if xs == [] then [] else EncodeEntry(k, e, xs[0]) + EncodeEntries(k, e, xs[1..])
  }

  function EncodeEntry(k: Type, e: Type, x: Entry): Bytes
    requires Typed(k, x.key) && Typed(e, x.value)
    decreases x, 0
  {
    Encode(k, x.key) + Encode(e, x.value)
  }

  function EncodeFields(fields: seq<Type>, vs: seq<Value>): Bytes
    requires TypedFields(fields, vs)
    decreases vs, 0
  {
    if vs == [] then [] else Encode(fields[0], vs[0]) + EncodeFields(fields[1..], vs[1..])
  }

  // --------------------------------------------------------------------------------- Layout

  function Joined(parts: seq<Bytes>): Bytes {
    if parts == [] then [] else parts[0] + Joined(parts[1..])
  }

  /** These parts, in order, behind their number in 8 bytes. */
  predicate CountedParts(bs: Bytes, parts: seq<Bytes>) {
    && |bs| >= 8 && bs[8..] == Joined(parts)
    && forall k: nat | k < 8 :: bs[k] as int == |parts| / Pow256(k) % 256
  }

  lemma SizeLayout(n: nat, rest: Bytes)
    ensures var bs := EncodeSize(n) + rest;
            && |bs| == 8 + |rest| && bs[8..] == rest
            && forall k: nat | k < 8 :: bs[k] as int == n / Pow256(k) % 256
  {
    forall k: nat | k < 8
      ensures (EncodeSize(n) + rest)[k] as int == n / Pow256(k) % 256
    {
      LittleEndianDigit(n, 8, k);
    }
  }

  function ItemParts(t: Type, vs: seq<Value>): (parts: seq<Bytes>)
    requires forall x <- vs :: Typed(t, x)
    ensures |parts| == |vs| && forall i | 0 <= i < |vs| :: parts[i] == (assert vs[i] in vs; Encode(t, vs[i]))
  {
    seq(|vs|, i requires 0 <= i < |vs| => (assert vs[i] in vs; Encode(t, vs[i])))
  }

  function EntryParts(k: Type, e: Type, xs: seq<Entry>): (parts: seq<Bytes>)
    requires forall x <- xs :: Typed(k, x.key) && Typed(e, x.value)
    ensures |parts| == |xs|
    ensures forall i | 0 <= i < |xs| :: parts[i] == (assert xs[i] in xs; Encode(k, xs[i].key) + Encode(e, xs[i].value))
  {
    seq(|xs|, i requires 0 <= i < |xs| => (assert xs[i] in xs; Encode(k, xs[i].key) + Encode(e, xs[i].value)))
  }

  lemma {:induction false} ItemsLayout(t: Type, vs: seq<Value>)
    requires forall x <- vs :: Typed(t, x)
    ensures EncodeItems(t, vs) == Joined(ItemParts(t, vs))
    decreases |vs|
  {
    if vs != [] {
      ItemsLayout(t, vs[1..]);
      assert ItemParts(t, vs)[1..] == ItemParts(t, vs[1..]);
    }
  }

  lemma {:induction false} EntriesLayout(k: Type, e: Type, xs: seq<Entry>)
    requires forall x <- xs :: Typed(k, x.key) && Typed(e, x.value)
    ensures EncodeEntries(k, e, xs) == Joined(EntryParts(k, e, xs))
    decreases |xs|
  {
    if xs != [] {
      EntriesLayout(k, e, xs[1..]);
      assert EntryParts(k, e, xs)[1..] == EntryParts(k, e, xs[1..]);
    }
  }

  /**
    Byte by byte: an integer is its two's complement, least significant byte first; a bool is one byte; a
    string, a vector and a map begin with their length in 8 bytes, and then come the characters, the
    elements, or each key followed by its value; a struct is its members one after the other.
   */
  lemma {:induction false} Layout(t: Type, v: Value)
    requires Typed(t, v)
    ensures var bs := Encode(t, v);
            match t
            case TInt(width, _) =>
              && |bs| == width
              && (forall k: nat | k < width ::
                    bs[k] as int == (if v.i < 0 then v.i + Pow256(width) else v.i) / Pow256(k) % 256)
            case TBool => bs == [if v.b then 1 else 0]
            case TString =>
              && |bs| == 8 + |v.s| && bs[8..] == v.s
              && (forall k: nat | k < 8 :: bs[k] as int == |v.s| / Pow256(k) % 256)
            case TBlockId => bs == v.id
            case TVector(e) => CountedParts(bs, ItemParts(e, v.items))
            case TMap(k, e) => CountedParts(bs, EntryParts(k, e, v.entries))
            case TStruct(fields) =>
              |fields| == |v.members| &&
              if fields == [] then bs == []
              else
                var (first, rest) := (v.members[0], Struct(v.members[1..]));
                && Typed(fields[0], first) && Typed(TStruct(fields[1..]), rest)
                && bs == Encode(fields[0], first) + Encode(TStruct(fields[1..]), rest)
  {
    match t
    case TInt(width, signed) =>
      forall k: nat | k < width
        ensures Encode(t, v)[k] as int == ToUnsigned(v.i, width) / Pow256(k) % 256
      {
        LittleEndianDigit(ToUnsigned(v.i, width), width, k);
      }
    case TString => SizeLayout(|v.s|, v.s);
    case TVector(e) =>
      SizeLayout(|v.items|, EncodeItems(e, v.items));
      ItemsLayout(e, v.items);
    case TMap(k, e) =>
      SizeLayout(|v.entries|, EncodeEntries(k, e, v.entries));
      EntriesLayout(k, e, v.entries);
    case TStruct(fields) => assert TypedFields(fields, v.members);
    case _ =>
  }

  // ------------------------------------------------------------------------------- Decoding

  /** checked_read: the first n bytes, or an error when the stream is shorter. */
  function Take(bs: Bytes, n: nat): Option<(Bytes, Bytes)> {
    if n <= |bs| then Some((bs[..n], bs[n..])) else None
  }

  function DecodeSize(bs: Bytes): Option<(nat, Bytes)> {
    match Take(bs, SIZE_T_BYTES)
    case None => None
    case Some((raw, rest)) => Some((FromLittleEndian(raw), rest))
  }

  function Decode(t: Type, bs: Bytes): Option<(Decoded, Bytes)>
    decreases t, 1, 0
  {
    match t
    case TInt(width, signed) =>
      (match Take(bs, width)
       case None => None
       case Some((raw, rest)) => Some((DInt(FromUnsigned(FromLittleEndian(raw), width, signed)), rest)))
    case TBool =>
      (match Take(bs, 1)
       case None => None
       case Some((raw, rest)) => Some((DBool(raw[0] != 0), rest)))
    case TString =>
      (match DecodeSize(bs)
       case None => None
       case Some((n, rest)) =>
         match Take(rest, n)
         case None => None
         case Some((s, rest')) => Some((DStr(s), rest')))
    case TBlockId =>
      (match Take(bs, BLOCK_ID_BYTES)
       case None => None
       case Some((raw, rest)) => Some((DBlockId(raw), rest)))
    case TVector(_) =>
      (match DecodeSize(bs)
       case None => None
       case Some((n, rest)) => DecodeItems(t, n, rest, []))
    case TMap(_, _) =>
      (match DecodeSize(bs)
       case None => None
       case Some((n, rest)) => DecodeEntries(t, n, rest, map[]))
    case TStruct(fields) => DecodeFields(fields, bs, [])
  }

  /** n elements, each appended to acc. */
  function DecodeItems(t: Type, n: nat, bs: Bytes, acc: seq<Decoded>): Option<(Decoded, Bytes)>
    requires t.TVector?
    decreases t, 0, n
  {
    if n == 0 then Some((DVector(acc), bs))
    else
      match Decode(t.elem, bs)
      case None => None
      case Some((d, rest)) => DecodeItems(t, n - 1, rest, acc + [d])
  }

  /** n entries, each assigned in acc. */
  function DecodeEntries(t: Type, n: nat, bs: Bytes, acc: map<Decoded, Decoded>): Option<(Decoded, Bytes)>
    requires t.TMap?
    decreases t, 0, n
  {
    if n == 0 then Some((DMap(acc), bs))
    else
      match Decode(t.key, bs)
      case None => None
      case Some((k, rest)) =>
        match Decode(t.value, rest)
        case None => None
        case Some((d, rest')) => DecodeEntries(t, n - 1, rest', acc[k := d])
  }

  function DecodeFields(fields: seq<Type>, bs: Bytes, acc: seq<Decoded>): Option<(Decoded, Bytes)>
    decreases fields, 0, 0
  {
    if fields == [] then Some((DStruct(acc), bs))
    else
      match Decode(fields[0], bs)
      case None => None
      case Some((d, rest)) => DecodeFields(fields[1..], rest, acc + [d])
  }

  // ------------------------------------------------------------------------------ Round trip

  /** The value without the iteration order of its maps. */
  function Plain(v: Value): Decoded
    decreases v, 1
  {
    match v
    case Int(i) => DInt(i)
    case Bool(b) => DBool(b)
    case Str(s) => DStr(s)
    case BlockId(id) => DBlockId(id)
    case Vector(items) => DVector(PlainAll(items))
    case Map(entries) => DMap(AssignAll(map[], entries))
    case Struct(members) => DStruct(PlainAll(members))
  }

  function PlainAll(vs: seq<Value>): seq<Decoded>
    decreases vs, 0
  {
    if vs == [] then [] else [Plain(vs[0])] + PlainAll(vs[1..])
  }

  function AssignAll(acc: map<Decoded, Decoded>, xs: seq<Entry>): map<Decoded, Decoded>
    decreases xs, 0
  {
    if xs == [] then acc else AssignAll(Assign(acc, xs[0]), xs[1..])
  }

  function Assign(acc: map<Decoded, Decoded>, x: Entry): map<Decoded, Decoded>
    decreases x, 0
  {
    acc[Plain(x.key) := Plain(x.value)]
  }

  lemma TakePrefix(a: Bytes, b: Bytes)
    ensures Take(a + b, |a|) == Some((a, b))
  {
  }

  lemma SizeRoundTrip(n: nat, suffix: Bytes)
    requires n < Pow256(SIZE_T_BYTES)
    ensures DecodeSize(EncodeSize(n) + suffix) == Some((n, suffix))
  {
    TakePrefix(EncodeSize(n), suffix);
    LittleEndianRoundTrip(n, SIZE_T_BYTES);
  }

  lemma CountsFit()
    ensures MAX_COUNT < Pow256(SIZE_T_BYTES)
  {
    assert Pow256(4) == 256 * 256 * 256 * 256 by {
      assert Pow256(1) == 256 && Pow256(2) == 256 * 256 && Pow256(3) == 256 * 256 * 256;
    }
    assert Pow256(5) == 256 * Pow256(4) && Pow256(6) == 256 * Pow256(5);
    assert Pow256(7) == 256 * Pow256(6) && Pow256(8) == 256 * Pow256(7);
  }

  /** Decoding the encoding of a value, followed by anything, gives the value and leaves the rest. */
  lemma {:induction false} RoundTrip(t: Type, v: Value, suffix: Bytes)
    requires Typed(t, v)
    ensures Decode(t, Encode(t, v) + suffix) == Some((Plain(v), suffix))
    decreases v, 1
  {
    match t
    case TInt(width, signed) =>
      TakePrefix(Encode(t, v), suffix);
      IntRoundTrip(v.i, width, signed);
    case TBool =>
      TakePrefix(Encode(t, v), suffix);
    case TString =>
      assert Encode(t, v) + suffix == EncodeSize(|v.s|) + (v.s + suffix);
      SizeRoundTrip(|v.s|, v.s + suffix);
      TakePrefix(v.s, suffix);
    case TBlockId =>
      TakePrefix(v.id, suffix);
    case TVector(e) =>
      CountsFit();
      var body := EncodeItems(e, v.items);
      assert Encode(t, v) + suffix == EncodeSize(|v.items|) + (body + suffix);
      SizeRoundTrip(|v.items|, body + suffix);
      ItemsRoundTrip(t, v.items, suffix, []);
      assert [] + PlainAll(v.items) == PlainAll(v.items);
    case TMap(k, e) =>
      CountsFit();
      var body := EncodeEntries(k, e, v.entries);
      assert Encode(t, v) + suffix == EncodeSize(|v.entries|) + (body + suffix);
      SizeRoundTrip(|v.entries|, body + suffix);
      EntriesRoundTrip(t, v.entries, suffix, map[]);
    case TStruct(fields) =>
      FieldsRoundTrip(fields, v.members, suffix, []);
      assert [] + PlainAll(v.members) == PlainAll(v.members);
  }

  lemma {:induction false} ItemsRoundTrip(t: Type, vs: seq<Value>, suffix: Bytes, acc: seq<Decoded>)
    requires t.TVector? && forall x <- vs :: Typed(t.elem, x)
    ensures DecodeItems(t, |vs|, EncodeItems(t.elem, vs) + suffix, acc) == Some((DVector(acc + PlainAll(vs)), suffix))
    decreases vs, 0
  {
    if vs == [] {
      assert [] + suffix == suffix && acc + [] == acc;
    } else {
      var first, rest := Encode(t.elem, vs[0]), EncodeItems(t.elem, vs[1..]);
      assert (first + rest) + suffix == first + (rest + suffix);
      RoundTrip(t.elem, vs[0], rest + suffix);
      ItemsRoundTrip(t, vs[1..], suffix, acc + [Plain(vs[0])]);
      assert acc + [Plain(vs[0])] + PlainAll(vs[1..]) == acc + PlainAll(vs);
    }
  }

  lemma {:induction false} EntryRoundTrip(k: Type, e: Type, x: Entry, suffix: Bytes)
    requires Typed(k, x.key) && Typed(e, x.value)
    ensures Decode(k, EncodeEntry(k, e, x) + suffix) == Some((Plain(x.key), Encode(e, x.value) + suffix))
    ensures Decode(e, Encode(e, x.value) + suffix) == Some((Plain(x.value), suffix))
    decreases x, 0
  {
    assert EncodeEntry(k, e, x) + suffix == Encode(k, x.key) + (Encode(e, x.value) + suffix);
    RoundTrip(k, x.key, Encode(e, x.value) + suffix);
    RoundTrip(e, x.value, suffix);
  }

  lemma {:induction false} EntriesRoundTrip(t: Type, xs: seq<Entry>, suffix: Bytes, acc: map<Decoded, Decoded>)
    requires t.TMap? && forall x <- xs :: Typed(t.key, x.key) && Typed(t.value, x.value)
    ensures DecodeEntries(t, |xs|, EncodeEntries(t.key, t.value, xs) + suffix, acc)
            == Some((DMap(AssignAll(acc, xs)), suffix))
    decreases xs, 0
  {
    if xs == [] {
      assert [] + suffix == suffix;
    } else {
      var rest := EncodeEntries(t.key, t.value, xs[1..]);
      assert EncodeEntries(t.key, t.value, xs) + suffix == EncodeEntry(t.key, t.value, xs[0]) + (rest + suffix);
      EntryRoundTrip(t.key, t.value, xs[0], rest + suffix);
      EntriesRoundTrip(t, xs[1..], suffix, Assign(acc, xs[0]));
    }
  }

  lemma {:induction false} FieldsRoundTrip(fields: seq<Type>, vs: seq<Value>, suffix: Bytes, acc: seq<Decoded>)
    requires TypedFields(fields, vs)
    ensures DecodeFields(fields, EncodeFields(fields, vs) + suffix, acc) == Some((DStruct(acc + PlainAll(vs)), suffix))
    decreases vs, 0
  {
    if vs == [] {
      assert [] + suffix == suffix && acc + [] == acc;
    } else {
      var first, rest := Encode(fields[0], vs[0]), EncodeFields(fields[1..], vs[1..]);
      assert (first + rest) + suffix == first + (rest + suffix);
      RoundTrip(fields[0], vs[0], rest + suffix);
      FieldsRoundTrip(fields[1..], vs[1..], suffix, acc + [Plain(vs[0])]);
      assert acc + [Plain(vs[0])] + PlainAll(vs[1..]) == acc + PlainAll(vs);
    }
  }

  // --------------------------------------------------------------------------- Map order

  predicate DistinctKeys(xs: seq<Entry>) {
    forall i, j | 0 <= i < j < |xs| :: Plain(xs[i].key) != Plain(xs[j].key)
  }

  lemma {:induction false} AssignAllLookup(acc: map<Decoded, Decoded>, xs: seq<Entry>, k: Decoded)
    requires DistinctKeys(xs)
    ensures k in AssignAll(acc, xs) <==> k in acc || exists x :: x in xs && Plain(x.key) == k
    ensures forall x <- xs :: Plain(x.key) == k ==> k in AssignAll(acc, xs) && AssignAll(acc, xs)[k] == Plain(x.value)
    ensures (forall x <- xs :: Plain(x.key) != k) && k in acc
            ==> k in AssignAll(acc, xs) && AssignAll(acc, xs)[k] == acc[k]
    decreases |xs|
  {
    if xs != [] {
      assert xs == [xs[0]] + xs[1..];
      AssignAllLookup(Assign(acc, xs[0]), xs[1..], k);
      if k == Plain(xs[0].key) {
        assert xs[0] in xs;
        forall x | x in xs[1..]
          ensures Plain(x.key) != k
        {
          var i :| 0 <= i < |xs[1..]| && xs[1..][i] == x;
          assert xs[i + 1] == x;
        }
      }
    }
  }

  /** The order in which an unordered_map happens to be visited does not change what is decoded. */
  lemma MapOrderIrrelevant(xs: seq<Entry>, ys: seq<Entry>)
    requires DistinctKeys(xs) && DistinctKeys(ys) && (forall x :: x in xs <==> x in ys)
    ensures Plain(Map(xs)) == Plain(Map(ys))
  {
    var a, b := AssignAll(map[], xs), AssignAll(map[], ys);
    forall k
      ensures k in a <==> k in b
      ensures k in a && k in b ==> a[k] == b[k]
    {
      AssignAllLookup(map[], xs, k);
      AssignAllLookup(map[], ys, k);
    }
    assert a == b;
  }

  // ----------------------------------------------------------------------- Truncated streams

  lemma {:induction false} DecodeExtends(t: Type, bs: Bytes, more: Bytes)
    requires Decode(t, bs).Some?
    ensures var (d, rest) := Decode(t, bs).value; Decode(t, bs + more) == Some((d, rest + more))
    decreases t, 1, 0
  {
    match t
    case TInt(width, _) => TakeExtends(bs, width, more);
    case TBool => TakeExtends(bs, 1, more);
    case TString =>
      TakeExtends(bs, SIZE_T_BYTES, more);
      var (n, rest) := DecodeSize(bs).value;
      TakeExtends(rest, n, more);
    case TBlockId => TakeExtends(bs, BLOCK_ID_BYTES, more);
    case TVector(_) =>
      TakeExtends(bs, SIZE_T_BYTES, more);
      var (n, rest) := DecodeSize(bs).value;
      ItemsExtend(t, n, rest, [], more);
    case TMap(_, _) =>
      TakeExtends(bs, SIZE_T_BYTES, more);
      var (n, rest) := DecodeSize(bs).value;
      EntriesExtend(t, n, rest, map[], more);
    case TStruct(fields) => FieldsExtend(fields, bs, [], more);
  }

  lemma TakeExtends(bs: Bytes, n: nat, more: Bytes)
    requires n <= |bs|
    ensures Take(bs + more, n) == Some((bs[..n], bs[n..] + more))
  {
    assert (bs + more)[..n] == bs[..n] && (bs + more)[n..] == bs[n..] + more;
  }

  lemma {:induction false} ItemsExtend(t: Type, n: nat, bs: Bytes, acc: seq<Decoded>, more: Bytes)
    requires t.TVector? && DecodeItems(t, n, bs, acc).Some?
    ensures var (d, rest) := DecodeItems(t, n, bs, acc).value;
            DecodeItems(t, n, bs + more, acc) == Some((d, rest + more))
    decreases t, 0, n
  {
    if n > 0 {
      DecodeExtends(t.elem, bs, more);
      var (d, rest) := Decode(t.elem, bs).value;
      ItemsExtend(t, n - 1, rest, acc + [d], more);
    }
  }

  lemma {:induction false} EntriesExtend(t: Type, n: nat, bs: Bytes, acc: map<Decoded, Decoded>, more: Bytes)
    requires t.TMap? && DecodeEntries(t, n, bs, acc).Some?
    ensures var (d, rest) := DecodeEntries(t, n, bs, acc).value;
            DecodeEntries(t, n, bs + more, acc) == Some((d, rest + more))
    decreases t, 0, n
  {
    if n > 0 {
      DecodeExtends(t.key, bs, more);
      var (k, rest) := Decode(t.key, bs).value;
      DecodeExtends(t.value, rest, more);
      var (d, rest') := Decode(t.value, rest).value;
      EntriesExtend(t, n - 1, rest', acc[k := d], more);
    }
  }

  lemma {:induction false} FieldsExtend(fields: seq<Type>, bs: Bytes, acc: seq<Decoded>, more: Bytes)
    requires DecodeFields(fields, bs, acc).Some?
    ensures var (d, rest) := DecodeFields(fields, bs, acc).value;
            DecodeFields(fields, bs + more, acc) == Some((d, rest + more))
    decreases fields, 0, 0
  {
    if fields != [] {
      DecodeExtends(fields[0], bs, more);
      var (d, rest) := Decode(fields[0], bs).value;
      FieldsExtend(fields[1..], rest, acc + [d], more);
    }
  }

  /** A proper prefix of an encoding never decodes. */
  lemma TruncatedFails(t: Type, v: Value, n: nat)
    requires Typed(t, v) && n < |Encode(t, v)|
    ensures Decode(t, Encode(t, v)[..n]).None?
  {
    var bs := Encode(t, v);
    RoundTrip(t, v, []);
    assert bs + [] == bs && bs == bs[..n] + bs[n..];
    if Decode(t, bs[..n]).Some? {
      DecodeExtends(t, bs[..n], bs[n..]);
    }
  }
}

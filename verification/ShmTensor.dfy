/** Tensors inside shared memory blocks: the aligned header and the packing of string tensors. */
module ShmTensor {
  import opened Serialization
  import opened Wrappers
  import Shape

  const MAX_DIMS := 128
  const TYPE_BYTES := 4
  const NDIMS_BYTES := 8
  const DIM_BYTES := 8
  const HEADER_BYTES := TYPE_BYTES + NDIMS_BYTES + MAX_DIMS * DIM_BYTES
  const ALIGNMENT := 64
  const PAGE_BYTES := 4096
  const LENGTH_BYTES := 8 // the length field of a string_wrapper

  /** What the two allocators put in front of a block: each a mutex, with its counters. */
  const MUTEX_BYTES := 40
  const ALLOCATOR_BYTES := (MUTEX_BYTES + 8) + (MUTEX_BYTES + 16)

  /** The enumerators of TensorType are numbered from zero. */
  const TENSOR_TYPES := 11
  const STRING_TENSOR := 2
  const UINT8_TENSOR := 7

  type Address = nat

  // ------------------------------------------------------------------------------ Alignment

  /** Where get_next_aligned_offset puts the header, relative to the start of the block. */
  function HeaderOffset(base: Address): nat {
    ALIGNMENT - (base + HEADER_BYTES) % ALIGNMENT
  }

  function DataOffset(base: Address): nat {
    HeaderOffset(base) + HEADER_BYTES
  }

  /** The data is aligned, and a header and n bytes of data fit in the n + 64 + header bytes asked for. */
  lemma DataAlignedAndFits(base: Address, n: nat)
    ensures (base + DataOffset(base)) % ALIGNMENT == 0
    ensures HeaderOffset(base) >= 1 && DataOffset(base) + n <= HEADER_BYTES + n + ALIGNMENT
  {
    var m := base + HEADER_BYTES;
    assert m == m / ALIGNMENT * ALIGNMENT + m % ALIGNMENT;
    assert base + DataOffset(base) == (m / ALIGNMENT + 1) * ALIGNMENT;
  }

  /** A loader looks where the creator wrote if and only if their addresses agree modulo 64. */
  lemma SameHeaderIff(a: Address, b: Address)
    ensures HeaderOffset(a) == HeaderOffset(b) <==> a % ALIGNMENT == b % ALIGNMENT
  {
    Shifted(a);
    Shifted(b);
  }

  lemma Shifted(a: Address)
    ensures (a + HEADER_BYTES) % ALIGNMENT == (a % ALIGNMENT + HEADER_BYTES) % ALIGNMENT
  {
  }

  function Mapped(page: nat, skipped: nat): Address {
    page * PAGE_BYTES + skipped
  }

  lemma PageAligned(page: nat, skipped: nat)
    ensures Mapped(page, skipped) % ALIGNMENT == skipped % ALIGNMENT
  {
    assert Mapped(page, skipped) == (page * 64 + skipped / ALIGNMENT) * ALIGNMENT + skipped % ALIGNMENT;
  }

  /** Mappings start on pages and the allocators' own headers have a fixed size, so the addresses do agree. */
  lemma MappingsAgree(pageA: nat, pageB: nat, skipped: nat)
    ensures HeaderOffset(Mapped(pageA, skipped)) == HeaderOffset(Mapped(pageB, skipped))
  {
    PageAligned(pageA, skipped);
    PageAligned(pageB, skipped);
    SameHeaderIff(Mapped(pageA, skipped), Mapped(pageB, skipped));
  }

  // -------------------------------------------------------------------------- Block contents

  predicate SameOutside(before: Bytes, after: Bytes, lo: nat, hi: nat) {
    && |before| == |after|
    && forall k | 0 <= k < |before| && !(lo <= k < hi) :: before[k] == after[k]
  }

  lemma SliceKept(before: Bytes, after: Bytes, lo: nat, hi: nat, from: nat, to: nat)
    requires SameOutside(before, after, lo, hi) && from <= to <= |before|
    requires to <= lo || hi <= from
    ensures before[from..to] == after[from..to]
  {
  }

  method WriteAt(block: array<Byte>, pos: nat, bs: Bytes)
    requires pos + |bs| <= block.Length
    modifies block
    ensures block[pos..pos + |bs|] == bs
    ensures SameOutside(old(block[..]), block[..], pos, pos + |bs|)
  {
    var i := 0;
    while i < |bs|
      invariant 0 <= i <= |bs|
      invariant block[pos..pos + i] == bs[..i]
      invariant forall k | 0 <= k < block.Length && !(pos <= k < pos + i) :: block[k] == old(block[k])
    {
      block[pos + i] := bs[i];
      i := i + 1;
    }
  }

  predicate IsInt64(i: int) {
    InRange(i, DIM_BYTES, true)
  }

  function DecodeInt64(bs: Bytes): int
    requires |bs| == DIM_BYTES
  {
    FromUnsigned(FromLittleEndian(bs), DIM_BYTES, true)
  }

  lemma {:induction false} Pow256Grows(n: nat)
    requires n > 0
    ensures Pow256(n) >= 256
  {
    if n > 1 {
      Pow256Grows(n - 1);
    }
  }

  // --------------------------------------------------------------------------------- Header

  predicate IsDims(dims: seq<int>) {
    forall k | 0 <= k < |dims| :: IsInt64(dims[k])
  }

  /** The bytes hold dims from position pos on. */
  predicate DimsAt(bytes: Bytes, pos: nat, dims: seq<int>) {
    && pos + DIM_BYTES * |dims| <= |bytes|
    && forall k | 0 <= k < |dims| :: IsInt64(dims[k]) && DimAt(bytes, pos, k) == EncodeInt(dims[k], DIM_BYTES, true)
  }

  function DimAt(bytes: Bytes, pos: nat, k: nat): Bytes
    requires pos + DIM_BYTES * (k + 1) <= |bytes|
  {
    bytes[pos + DIM_BYTES * k..pos + DIM_BYTES * (k + 1)]
  }

  predicate HeaderAt(bytes: Bytes, pos: nat, tensorType: nat, dims: seq<int>) {
    && |dims| < MAX_DIMS && tensorType < TENSOR_TYPES && pos + HEADER_BYTES <= |bytes|
    && bytes[pos..pos + TYPE_BYTES] == LittleEndian(tensorType, TYPE_BYTES)
    && bytes[pos + TYPE_BYTES..pos + TYPE_BYTES + NDIMS_BYTES] == LittleEndian(|dims|, NDIMS_BYTES)
    && DimsAt(bytes, pos + TYPE_BYTES + NDIMS_BYTES, dims)
  }

  /** The header survives writes behind it. */
  lemma HeaderKept(before: Bytes, after: Bytes, lo: nat, hi: nat, pos: nat, tensorType: nat, dims: seq<int>)
    requires SameOutside(before, after, lo, hi) && pos + HEADER_BYTES <= lo
    requires HeaderAt(before, pos, tensorType, dims)
    ensures HeaderAt(after, pos, tensorType, dims)
  {
    SliceKept(before, after, lo, hi, pos, pos + TYPE_BYTES);
    SliceKept(before, after, lo, hi, pos + TYPE_BYTES, pos + TYPE_BYTES + NDIMS_BYTES);
    DimsKept(before, after, lo, hi, pos + TYPE_BYTES + NDIMS_BYTES, dims);
  }

  lemma DimsKept(before: Bytes, after: Bytes, lo: nat, hi: nat, pos: nat, dims: seq<int>)
    requires SameOutside(before, after, lo, hi) && (pos + DIM_BYTES * |dims| <= lo || hi <= pos)
    requires DimsAt(before, pos, dims)
    ensures DimsAt(after, pos, dims)
  {
    forall k | 0 <= k < |dims|
      ensures DimAt(after, pos, k) == DimAt(before, pos, k)
    {
      SliceKept(before, after, lo, hi, pos + DIM_BYTES * k, pos + DIM_BYTES * (k + 1));
    }
  }

  /** std::copy of the dims into the header. */
  method WriteDims(block: array<Byte>, pos: nat, dims: seq<int>)
    requires IsDims(dims) && pos + DIM_BYTES * |dims| <= block.Length
    modifies block
    ensures DimsAt(block[..], pos, dims)
    ensures SameOutside(old(block[..]), block[..], pos, pos + DIM_BYTES * |dims|)
  {
    var i := 0;
    while i < |dims|
      invariant 0 <= i <= |dims|
      invariant DimsAt(block[..], pos, dims[..i])
      invariant SameOutside(old(block[..]), block[..], pos, pos + DIM_BYTES * i)
    {
      ghost var before := block[..];
      WriteAt(block, pos + DIM_BYTES * i, EncodeInt(dims[i], DIM_BYTES, true));
      DimsKept(before, block[..], pos + DIM_BYTES * i, pos + DIM_BYTES * (i + 1), pos, dims[..i]);
      assert DimAt(block[..], pos, i) == EncodeInt(dims[i], DIM_BYTES, true);
      i := i + 1;
    }
    assert dims[..i] == dims;
  }

  /**
    Writes the header of a new tensor into a block that may hold anything. `ok` is false where the
    constructor throws, which is after it has set the type and the number of dims.
   */
  method WriteHeader(block: array<Byte>, base: Address, tensorType: nat, dims: seq<int>) returns (ok: bool)
    requires tensorType < TENSOR_TYPES && IsDims(dims)
    requires DataOffset(base) <= block.Length
    modifies block
    ensures ok <==> |dims| < MAX_DIMS
    ensures ok ==> HeaderAt(block[..], HeaderOffset(base), tensorType, dims)
    ensures SameOutside(old(block[..]), block[..], HeaderOffset(base), DataOffset(base))
  {
    var pos := HeaderOffset(base);
    WriteAt(block, pos, LittleEndian(tensorType, TYPE_BYTES));
    ghost var typed := block[..];
    WriteAt(block, pos + TYPE_BYTES, LittleEndian(|dims|, NDIMS_BYTES));
    ghost var counted := block[..];
    SliceKept(typed, counted, pos + TYPE_BYTES, pos + TYPE_BYTES + NDIMS_BYTES, pos, pos + TYPE_BYTES);
    if |dims| >= MAX_DIMS {
      return false;
    }
    ghost var dimsPos := pos + TYPE_BYTES + NDIMS_BYTES;
    WriteDims(block, pos + TYPE_BYTES + NDIMS_BYTES, dims);
    SliceKept(counted, block[..], dimsPos, dimsPos + DIM_BYTES * |dims|, pos, pos + TYPE_BYTES);
    SliceKept(counted, block[..], dimsPos, dimsPos + DIM_BYTES * |dims|, pos + TYPE_BYTES, dimsPos);
    return true;
  }

  method OverwriteType(block: array<Byte>, base: Address, tensorType: nat, ghost oldType: nat, ghost dims: seq<int>)
    requires tensorType < TENSOR_TYPES && HeaderAt(block[..], HeaderOffset(base), oldType, dims)
    modifies block
    ensures HeaderAt(block[..], HeaderOffset(base), tensorType, dims)
    ensures SameOutside(old(block[..]), block[..], HeaderOffset(base), DataOffset(base))
  {
    var pos := HeaderOffset(base);
    ghost var before := block[..];
    WriteAt(block, pos, LittleEndian(tensorType, TYPE_BYTES));
    SliceKept(before, block[..], pos, pos + TYPE_BYTES, pos + TYPE_BYTES, pos + TYPE_BYTES + NDIMS_BYTES);
    DimsKept(before, block[..], pos, pos + TYPE_BYTES, pos + TYPE_BYTES + NDIMS_BYTES, dims);
  }

  /** What tensor_from_id reads from a block whose header was written at the same offset. */
  method ReadHeader(block: array<Byte>, data: nat, ghost wroteType: nat, ghost wroteDims: seq<int>)
    returns (tensorType: nat, dims: seq<int>)
    requires HeaderAt(block[..], data, wroteType, wroteDims)
    ensures tensorType == wroteType && dims == wroteDims
  {
    var pos := data;
    Pow256Grows(TYPE_BYTES);
    Pow256Grows(NDIMS_BYTES);
    LittleEndianRoundTrip(wroteType, TYPE_BYTES);
    LittleEndianRoundTrip(|wroteDims|, NDIMS_BYTES);
    assert block[pos..pos + TYPE_BYTES] == block[..][pos..pos + TYPE_BYTES];
    tensorType := FromLittleEndian(block[pos..pos + TYPE_BYTES]);
    pos := pos + TYPE_BYTES;
    assert block[pos..pos + NDIMS_BYTES] == block[..][pos..pos + NDIMS_BYTES];
    var ndims := FromLittleEndian(block[pos..pos + NDIMS_BYTES]);
    dims := ReadDims(block, pos + NDIMS_BYTES, ndims, wroteDims);
  }

  method ReadDims(block: array<Byte>, pos: nat, ndims: nat, ghost wroteDims: seq<int>) returns (dims: seq<int>)
    requires DimsAt(block[..], pos, wroteDims) && ndims == |wroteDims|
    ensures dims == wroteDims
  {
    dims := [];
    while |dims| < ndims
      invariant |dims| <= ndims == |wroteDims| && dims == wroteDims[..|dims|]
    {
      var at := pos + DIM_BYTES * |dims|;
      assert block[at..at + DIM_BYTES] == DimAt(block[..], pos, |dims|);
      IntRoundTrip(wroteDims[|dims|], DIM_BYTES, true);
      dims := dims + [DecodeInt64(block[at..at + DIM_BYTES])];
    }
  }

  // ------------------------------------------------------------------------- String tensors

  function MaxLength(strs: seq<Bytes>): (m: nat)
    ensures forall s <- strs :: |s| <= m
  {
    if strs == [] then 0
    else
      var rest := MaxLength(strs[..|strs| - 1]);
      assert forall s <- strs :: s in strs[..|strs| - 1] || s == strs[|strs| - 1];
      if |strs[|strs| - 1]| > rest then |strs[|strs| - 1]| else rest
  }

  /** Some string has n bytes, and none has more; without strings n is zero. */
  predicate IsLongest(strs: seq<Bytes>, n: nat) {
    && (forall s <- strs :: |s| <= n)
    && (if strs == [] then n == 0 else exists s :: s in strs && |s| == n)
  }

  lemma {:induction false} LongestIs(strs: seq<Bytes>, n: nat)
    ensures IsLongest(strs, n) <==> n == MaxLength(strs)
  {
    if strs != [] {
      var rest, last := strs[..|strs| - 1], strs[|strs| - 1];
      assert strs == rest + [last];
      LongestIs(rest, MaxLength(rest));
      assert exists s :: s in strs && |s| == MaxLength(strs) by {
        if |last| > MaxLength(rest) || rest == [] {
          assert last in strs;
        } else {
          var s :| s in rest && |s| == MaxLength(rest);
          assert s in strs;
        }
      }
    }
  }

  lemma OneLongest(strs: seq<Bytes>)
    ensures IsLongest(strs, MaxLength(strs)) && forall n: nat | IsLongest(strs, n) :: n == MaxLength(strs)
  {
    LongestIs(strs, MaxLength(strs));
    forall n: nat | IsLongest(strs, n)
      ensures n == MaxLength(strs)
    {
      LongestIs(strs, n);
    }
  }

  /** The last dim of the packed tensor. */
  function SlotBytes(strs: seq<Bytes>): nat {
    MaxLength(strs) + LENGTH_BYTES
  }

  /** A string_wrapper: the length, then the bytes; what follows in its slot is left as it was. */
  predicate SlotAt(bytes: Bytes, pos: nat, s: Bytes) {
    && pos + LENGTH_BYTES + |s| <= |bytes| && IsInt64(|s|)
    && bytes[pos..pos + LENGTH_BYTES] == EncodeInt(|s|, LENGTH_BYTES, true)
    && bytes[pos + LENGTH_BYTES..pos + LENGTH_BYTES + |s|] == s
  }

  /** The bytes hold strs in slots of the given size from pos on. */
  predicate SlotsAt(bytes: Bytes, pos: nat, slot: nat, strs: seq<Bytes>) {
    forall k | 0 <= k < |strs| :: SlotAt(bytes, pos + SlotStart(k, slot), strs[k])
  }

  function SlotStart(k: nat, slot: nat): nat {
    k * slot
  }

  lemma SlotBefore(strs: seq<Bytes>, j: nat, k: nat)
    requires j < k <= |strs|
    ensures SlotStart(j, SlotBytes(strs)) + LENGTH_BYTES + |strs[j]| <= SlotStart(k, SlotBytes(strs))
  {
    assert strs[j] in strs;
    Shape.TimesMonotone(j + 1, k, SlotBytes(strs));
  }

  /** The slots do not overlap and lie inside the room that |strs| slots take. */
  lemma SlotsDisjoint(strs: seq<Bytes>, j: nat, k: nat)
    requires j < k < |strs|
    ensures var slot := SlotBytes(strs);
            && SlotStart(j, slot) + LENGTH_BYTES + |strs[j]| <= SlotStart(k, slot)
            && SlotStart(k, slot) + LENGTH_BYTES + |strs[k]| <= SlotStart(|strs|, slot)
  {
    SlotBefore(strs, j, k);
    SlotBefore(strs, k, |strs|);
  }

  /** The number that these bytes hold, the least significant one first. */
  predicate NumberAt(bytes: Bytes, pos: nat, width: nat, n: nat) {
    pos + width <= |bytes| && forall k: nat | k < width :: bytes[pos + k] as int == n / Pow256(k) % 256
  }

  lemma {:induction false} EncodedNumber(bytes: Bytes, pos: nat, width: nat, n: nat)
    requires pos + width <= |bytes| && bytes[pos..pos + width] == LittleEndian(n, width)
    ensures NumberAt(bytes, pos, width, n)
  {
    forall k: nat | k < width
      ensures bytes[pos + k] as int == n / Pow256(k) % 256
    {
      LittleEndianDigit(n, width, k);
      assert bytes[pos + k] == bytes[pos..pos + width][k];
    }
  }

  /** Byte by byte: the type in 4 bytes, the rank in 8, then each dim in 8, as a non-negative number. */
  lemma {:induction false} HeaderLayout(bytes: Bytes, pos: nat, tensorType: nat, dims: seq<int>)
    requires HeaderAt(bytes, pos, tensorType, dims)
    ensures NumberAt(bytes, pos, 4, tensorType) && NumberAt(bytes, pos + 4, 8, |dims|)
    ensures forall k | 0 <= k < |dims| && dims[k] >= 0 :: NumberAt(bytes, pos + 12 + 8 * k, 8, dims[k])
  {
    EncodedNumber(bytes, pos, 4, tensorType);
    EncodedNumber(bytes, pos + 4, 8, |dims|);
    forall k | 0 <= k < |dims| && dims[k] >= 0
      ensures NumberAt(bytes, pos + 12 + 8 * k, 8, dims[k])
    {
      assert DimAt(bytes, pos + 12, k) == LittleEndian(dims[k], 8);
      EncodedNumber(bytes, pos + 12 + 8 * k, 8, dims[k]);
    }
  }

  /** Byte by byte: slots of this size, each a length and then the string. */
  predicate Laid(bytes: Bytes, pos: nat, strs: seq<Bytes>, slot: nat) {
    forall k: nat | k < |strs| :: SlotLaid(bytes, pos + k * slot, strs[k])
  }

  predicate SlotLaid(bytes: Bytes, at: nat, s: Bytes) {
    NumberAt(bytes, at, 8, |s|) && at + 8 + |s| <= |bytes| && bytes[at + 8..at + 8 + |s|] == s
  }

  lemma {:induction false} PackedLayout(bytes: Bytes, pos: nat, dims: seq<int>, strs: seq<Bytes>, n: nat)
    requires PackedAt(bytes, pos, dims, strs) && IsLongest(strs, n)
    ensures LaidOut(bytes, pos, dims, strs, n)
  {
    LongestIs(strs, n);
    LongestLayout(bytes, pos, dims, strs);
  }

  lemma {:induction false} LongestLayout(bytes: Bytes, pos: nat, dims: seq<int>, strs: seq<Bytes>)
    requires PackedAt(bytes, pos, dims, strs)
    ensures LaidOut(bytes, pos, dims, strs, MaxLength(strs))
  {
    PackedParts(bytes, pos, dims, strs);
    SlotsLayout(bytes, pos + HEADER_BYTES, SlotBytes(strs), strs);
  }

  lemma PackedParts(bytes: Bytes, pos: nat, dims: seq<int>, strs: seq<Bytes>)
    requires PackedAt(bytes, pos, dims, strs)
    ensures HeaderAt(bytes, pos, STRING_TENSOR, dims + [MaxLength(strs) + 8])
    ensures SlotsAt(bytes, pos + HEADER_BYTES, SlotBytes(strs), strs)
  {
    assert Packed(dims, strs) == dims + [MaxLength(strs) + 8];
  }

  /** The layout of the block when the longest string has n bytes. */
  predicate LaidOut(bytes: Bytes, pos: nat, dims: seq<int>, strs: seq<Bytes>, n: nat) {
    HeaderAt(bytes, pos, STRING_TENSOR, dims + [n + 8]) && Laid(bytes, pos + 1036, strs, n + 8)
  }

  lemma {:induction false} SlotsLayout(bytes: Bytes, pos: nat, slot: nat, strs: seq<Bytes>)
    requires SlotsAt(bytes, pos, slot, strs)
    ensures Laid(bytes, pos, strs, slot)
  {
    forall k: nat | k < |strs|
      ensures SlotLaid(bytes, pos + k * slot, strs[k])
    {
      SlotLayout(bytes, pos + SlotStart(k, slot), strs[k]);
    }
  }

  lemma {:induction false} SlotLayout(bytes: Bytes, at: nat, s: Bytes)
    requires SlotAt(bytes, at, s)
    ensures SlotLaid(bytes, at, s)
  {
    EncodedNumber(bytes, at, 8, |s|);
  }

  /** A packed string tensor whose header is at pos. */
  predicate PackedAt(bytes: Bytes, pos: nat, dims: seq<int>, strs: seq<Bytes>) {
    && HeaderAt(bytes, pos, STRING_TENSOR, Packed(dims, strs))
    && SlotsAt(bytes, pos + HEADER_BYTES, SlotBytes(strs), strs)
    && pos + HEADER_BYTES + SlotStart(|strs|, SlotBytes(strs)) <= |bytes|
  }

  lemma SlotKept(before: Bytes, after: Bytes, lo: nat, hi: nat, pos: nat, s: Bytes)
    requires SameOutside(before, after, lo, hi) && SlotAt(before, pos, s)
    requires pos + LENGTH_BYTES + |s| <= lo
    ensures SlotAt(after, pos, s)
  {
    SliceKept(before, after, lo, hi, pos, pos + LENGTH_BYTES);
    SliceKept(before, after, lo, hi, pos + LENGTH_BYTES, pos + LENGTH_BYTES + |s|);
  }

  lemma SlotsStep(before: Bytes, after: Bytes, pos: nat, strs: seq<Bytes>, i: nat)
    requires i < |strs| && SlotsAt(before, pos, SlotBytes(strs), strs[..i])
    requires SlotAt(after, pos + SlotStart(i, SlotBytes(strs)), strs[i])
    requires var lo := pos + SlotStart(i, SlotBytes(strs));
             SameOutside(before, after, lo, lo + LENGTH_BYTES + |strs[i]|)
    ensures SlotsAt(after, pos, SlotBytes(strs), strs[..i + 1])
  {
    var slot := SlotBytes(strs);
    var lo := pos + SlotStart(i, slot);
    forall k | 0 <= k < i + 1
      ensures SlotAt(after, pos + SlotStart(k, slot), strs[..i + 1][k])
    {
      if k < i {
        SlotBefore(strs, k, i);
        assert strs[..i][k] == strs[k];
        SlotKept(before, after, lo, lo + LENGTH_BYTES + |strs[i]|, pos + SlotStart(k, slot), strs[k]);
      }
    }
  }

  lemma SameOutsideMore(a: Bytes, b: Bytes, c: Bytes, lo: nat, mid: nat, hi: nat)
    requires SameOutside(a, b, lo, |a|) && SameOutside(b, c, mid, hi) && lo <= mid && hi <= |a|
    ensures SameOutside(a, c, lo, |a|)
  {
  }

  method WriteSlot(block: array<Byte>, pos: nat, s: Bytes)
    requires IsInt64(|s|) && pos + LENGTH_BYTES + |s| <= block.Length
    modifies block
    ensures SlotAt(block[..], pos, s)
    ensures SameOutside(old(block[..]), block[..], pos, pos + LENGTH_BYTES + |s|)
  {
    WriteAt(block, pos, EncodeInt(|s|, LENGTH_BYTES, true));
    ghost var before := block[..];
    WriteAt(block, pos + LENGTH_BYTES, s);
    SliceKept(before, block[..], pos + LENGTH_BYTES, pos + LENGTH_BYTES + |s|, pos, pos + LENGTH_BYTES);
  }

  method ReadSlot(block: array<Byte>, pos: nat, ghost wrote: Bytes) returns (s: Bytes)
    requires SlotAt(block[..], pos, wrote)
    ensures s == wrote
  {
    IntRoundTrip(|wrote|, LENGTH_BYTES, true);
    assert block[pos..pos + LENGTH_BYTES] == block[..][pos..pos + LENGTH_BYTES];
    var length := DecodeInt64(block[pos..pos + LENGTH_BYTES]);
    s := block[pos + LENGTH_BYTES..pos + LENGTH_BYTES + length];
    assert s == block[..][pos + LENGTH_BYTES..pos + LENGTH_BYTES + length];
  }

  /** Every string, with its length, ends inside the room that follows the header. */
  predicate SlotsFit(strs: seq<Bytes>, slot: nat, room: int) {
    forall k | 0 <= k < |strs| :: SlotStart(k, slot) + LENGTH_BYTES + |strs[k]| <= room
  }

  /** The loop of get_native_data over the strings; `ok` is false where it would leave the block. */
  method WriteSlots(block: array<Byte>, start: nat, strs: seq<Bytes>, slot: nat) returns (ok: bool)
    requires slot == SlotBytes(strs) && start <= block.Length
    requires forall s <- strs :: IsInt64(|s|)
    modifies block
    ensures ok <==> SlotsFit(strs, slot, block.Length - start)
    ensures ok ==> SlotsAt(block[..], start, slot, strs)
    ensures SameOutside(old(block[..]), block[..], start, block.Length)
  {
    var pos := start;
    var i := 0;
    while i < |strs|
      invariant 0 <= i <= |strs| && pos == start + SlotStart(i, slot)
      invariant SlotsFit(strs[..i], slot, block.Length - start)
      invariant SlotsAt(block[..], start, slot, strs[..i])
      invariant SameOutside(old(block[..]), block[..], start, block.Length)
    {
      if pos + LENGTH_BYTES + |strs[i]| > block.Length {
        return false;
      }
      ghost var before := block[..];
      WriteSlot(block, pos, strs[i]);
      SlotsStep(before, block[..], start, strs, i);
      SameOutsideMore(old(block[..]), before, block[..], start, pos, pos + LENGTH_BYTES + |strs[i]|);
      FitsStep(strs, i, slot, block.Length - start);
      pos := pos + slot;
      i := i + 1;
    }
    assert strs[..i] == strs;
    return true;
  }

  lemma FitsStep(strs: seq<Bytes>, i: nat, slot: nat, room: int)
    requires i < |strs| && SlotsFit(strs[..i], slot, room)
    requires SlotStart(i, slot) + LENGTH_BYTES + |strs[i]| <= room
    ensures SlotsFit(strs[..i + 1], slot, room)
    ensures SlotStart(i + 1, slot) == SlotStart(i, slot) + slot
  {
    forall k | 0 <= k < i + 1
      ensures SlotStart(k, slot) + LENGTH_BYTES + |strs[..i + 1][k]| <= room
    {
      assert k < i ==> strs[..i + 1][k] == strs[..i][k];
    }
  }

  function Packed(dims: seq<int>, strs: seq<Bytes>): seq<int> {
    dims + [SlotBytes(strs)]
  }

  /** A string tensor whose strings fill its dims, with lengths that an int64_t holds. */
  predicate IsStringTensor(dims: seq<int>, strs: seq<Bytes>) {
    IsDims(dims) && Shape.NonNegative(dims) && |strs| == Shape.Product(dims) && IsInt64(SlotBytes(strs))
  }

  lemma StringLengths(strs: seq<Bytes>)
    requires IsInt64(SlotBytes(strs))
    ensures forall s <- strs :: IsInt64(|s|)
  {
  }

  /** The bytes asked for, as a size_t. */
  function RequestedBytes(numel: nat, elemBytes: nat): nat {
    (HEADER_BYTES + numel * elemBytes + ALIGNMENT) % Shape.SIZE_T_RANGE
  }

  /** The size of the object that is created for them. */
  function ObjectBytes(sizeBytes: nat): nat {
    (sizeBytes + ALLOCATOR_BYTES) % Shape.SIZE_T_RANGE
  }

  /** A block of this size, unless it cannot be had or the size of its object has wrapped around. */
  method Allocate(sizeBytes: nat, available: nat) returns (r: Native)
    requires sizeBytes < Shape.SIZE_T_RANGE && available < Shape.INT64_LIMIT
    ensures r.Throws? <==> ObjectBytes(sizeBytes) > available
    ensures r.Block? <==> sizeBytes + ALLOCATOR_BYTES <= available
    ensures r.Block? ==> fresh(r.bytes) && r.bytes.Length == sizeBytes
    ensures r.RunsPast? ==> sizeBytes + ALLOCATOR_BYTES >= Shape.SIZE_T_RANGE
  {
    var total := ObjectBytes(sizeBytes);
    if total > available {
      return Throws;
    }
    if total < ALLOCATOR_BYTES {
      return RunsPast;
    }
    var block := new Byte[total - ALLOCATOR_BYTES];
    return Block(block);
  }

  lemma PackedProduct(dims: seq<int>, strs: seq<Bytes>)
    requires Shape.NonNegative(dims) && |strs| == Shape.Product(dims)
    ensures Shape.NonNegative(Packed(dims, strs))
    ensures SlotStart(|strs|, SlotBytes(strs)) == Shape.Product(Packed(dims, strs))
  {
    Shape.ProductAppend(dims, SlotBytes(strs));
  }

  /**
    The element count of the packed tensor is the room that the slots take if and only if it is below
    2^31 (or within 2^31 below 2^64, which no block can hold).
   */
  lemma PackedRoom(dims: seq<int>, strs: seq<Bytes>)
    requires Shape.NonNegative(dims) && |strs| == Shape.Product(dims)
    ensures Shape.CountElements(Packed(dims, strs)) == SlotStart(|strs|, SlotBytes(strs))
            <==> Shape.Counted(Shape.Product(Packed(dims, strs)))
  {
    PackedProduct(dims, strs);
    Shape.CountExact(Packed(dims, strs));
  }

  function Zeros(n: nat): (s: Bytes)
    ensures |s| == n
  {
    seq(n, _ => 0)
  }

  /** One string of 2^31 - 8 bytes is counted as 2^64 - 2^31 bytes, one of 2^32 - 8 bytes as none at all. */
  lemma PackedRoomWrong()
    ensures Shape.CountElements(Packed([1], [Zeros(INT32_LIMIT - LENGTH_BYTES)])) == Shape.SIZE_T_RANGE - INT32_LIMIT
    ensures Shape.CountElements(Packed([1], [Zeros(0x1_0000_0000 - LENGTH_BYTES)])) == 0
  {
    OneStringCount(INT32_LIMIT - LENGTH_BYTES);
    OneStringCount(0x1_0000_0000 - LENGTH_BYTES);
  }

  /** One string of 2^32 - 1118 bytes asks for 2^64 - 10 bytes, and gets an object of 94. */
  lemma HeadersWrap()
    ensures var size := RequestedBytes(Shape.CountElements(Packed([1], [Zeros(0x1_0000_0000 - 1118)])), 1);
            size == Shape.SIZE_T_RANGE - 10 && ObjectBytes(size) == 94 < ALLOCATOR_BYTES
  {
    OneStringCount(0x1_0000_0000 - 1118);
  }

  lemma OneStringCount(n: nat)
    ensures Shape.CountElements(Packed([1], [Zeros(n)])) == Shape.ToSizeT(Shape.ToInt32(n + LENGTH_BYTES))
  {
    assert [Zeros(n)][..0] == [];
    assert MaxLength([Zeros(n)]) == n;
    var packed := [1, n + LENGTH_BYTES];
    assert Packed([1], [Zeros(n)]) == packed;
    assert packed[1..] == [n + LENGTH_BYTES] && packed[1..][1..] == [];
    assert Shape.Fold(Shape.ToInt32(n + LENGTH_BYTES), []) == Shape.ToInt32(n + LENGTH_BYTES);
    assert Shape.Fold(1, packed[1..]) == Shape.ToInt32(n + LENGTH_BYTES);
  }

  /** Twice the last slot's start is at least all of the slots. */
  lemma LastSlotFar(n: nat, slot: nat)
    requires n >= 2
    ensures 2 * SlotStart(n - 1, slot) >= SlotStart(n, slot)
  {
    Shape.TimesMonotone(n, 2 * (n - 1), slot);
  }

  /** Where the slots take 2^31 bytes or more, some string ends behind the block of a count that was cut. */
  lemma CutCountTooSmall(strs: seq<Bytes>, cut: int, k: int)
    requires var all := SlotStart(|strs|, SlotBytes(strs));
             all >= INT32_LIMIT && cut == all + k * Shape.INT32_RANGE && cut < INT32_LIMIT
    ensures !SlotsFit(strs, SlotBytes(strs), cut + ALIGNMENT)
  {
    var n, slot := |strs|, SlotBytes(strs);
    assert k <= -1;
    if n == 1 {
      assert strs[..0] == [] && MaxLength(strs) == |strs[0]|;
      assert SlotStart(0, slot) + LENGTH_BYTES + |strs[0]| > cut + ALIGNMENT;
    } else if n >= 2 {
      LastSlotFar(n, slot);
      assert SlotStart(n - 1, slot) + LENGTH_BYTES + |strs[n - 1]| > cut + ALIGNMENT;
    }
  }

  /** Of a block for a count that was cut, at most this many bytes follow the header. */
  lemma RoomOfCut(cut: int, base: Address)
    requires -INT32_LIMIT <= cut < INT32_LIMIT
    requires RequestedBytes(Shape.ToSizeT(cut), 1) < Shape.INT64_LIMIT
    ensures RequestedBytes(Shape.ToSizeT(cut), 1) - DataOffset(base) < cut + ALIGNMENT
  {
    Shape.SizeOfInt(cut);
  }

  /** A packed tensor that ends up inside its block was counted right. */
  lemma FittingIsCounted(dims: seq<int>, strs: seq<Bytes>, base: Address)
    requires IsStringTensor(dims, strs)
    requires var size := RequestedBytes(Shape.CountElements(Packed(dims, strs)), 1);
             size < Shape.INT64_LIMIT && SlotsFit(strs, SlotBytes(strs), size - DataOffset(base))
    ensures Shape.Product(Packed(dims, strs)) < INT32_LIMIT
  {
    var packed := Packed(dims, strs);
    PackedProduct(dims, strs);
    var k := Shape.FoldCongruent(1, packed);
    var cut := Shape.Fold(1, packed);
    RoomOfCut(cut, base);
    SmallerRoom(strs, SlotBytes(strs), RequestedBytes(Shape.CountElements(packed), 1) - DataOffset(base),
                cut + ALIGNMENT);
    if Shape.Product(packed) >= INT32_LIMIT {
      CutCountTooSmall(strs, cut, k);
    }
  }

  lemma SmallerRoom(strs: seq<Bytes>, slot: nat, room: int, more: int)
    requires room <= more && SlotsFit(strs, slot, room)
    ensures SlotsFit(strs, slot, more)
  {
  }

  lemma CountedFits(dims: seq<int>, strs: seq<Bytes>, base: Address)
    requires IsStringTensor(dims, strs) && Shape.Product(Packed(dims, strs)) < INT32_LIMIT
    ensures var all := SlotStart(|strs|, SlotBytes(strs));
            && RequestedBytes(Shape.CountElements(Packed(dims, strs)), 1) == HEADER_BYTES + all + ALIGNMENT
            && DataOffset(base) + all <= HEADER_BYTES + all + ALIGNMENT
            && SlotsFit(strs, SlotBytes(strs), HEADER_BYTES + all + ALIGNMENT - DataOffset(base))
  {
    PackedProduct(dims, strs);
    PackedRoom(dims, strs);
    DataAlignedAndFits(base, SlotStart(|strs|, SlotBytes(strs)));
    forall k | 0 <= k < |strs|
      ensures SlotStart(k, SlotBytes(strs)) + LENGTH_BYTES + |strs[k]| <= SlotStart(|strs|, SlotBytes(strs))
    {
      SlotBefore(strs, k, |strs|);
    }
  }

  /** The strings fit into the block that is asked for, if it can be had at all, exactly below 2^31 bytes. */
  lemma FitsIff(dims: seq<int>, strs: seq<Bytes>, base: Address)
    requires IsStringTensor(dims, strs)
    ensures var product := Shape.Product(Packed(dims, strs));
            var size := RequestedBytes(Shape.CountElements(Packed(dims, strs)), 1);
            && (product < INT32_LIMIT ==>
                  size == HEADER_BYTES + product + ALIGNMENT
                    && DataOffset(base) + SlotStart(|strs|, SlotBytes(strs)) <= size)
            && (size < Shape.INT64_LIMIT ==>
                  (SlotsFit(strs, SlotBytes(strs), size - DataOffset(base)) <==> product < INT32_LIMIT))
            && SlotStart(|strs|, SlotBytes(strs)) == product
  {
    var size := RequestedBytes(Shape.CountElements(Packed(dims, strs)), 1);
    PackedProduct(dims, strs);
    if Shape.Product(Packed(dims, strs)) < INT32_LIMIT {
      CountedFits(dims, strs, base);
    }
    if size < Shape.INT64_LIMIT && SlotsFit(strs, SlotBytes(strs), size - DataOffset(base)) {
      FittingIsCounted(dims, strs, base);
    }
  }

  /**
    A block, or an exception, or a write that leaves the block it was given, after which C++ promises
    nothing.
   */
  datatype Native = Block(bytes: array<Byte>) | Throws | RunsPast

  /** For a longest string of n bytes: few enough dims, fewer than 2^31 bytes, and an object can be created. */
  predicate CanPack(dims: seq<int>, strs: seq<Bytes>, n: nat, available: nat) {
    && |dims| + 1 < 128 && |strs| * (n + 8) < INT32_LIMIT
    && HEADER_BYTES + |strs| * (n + 8) + ALIGNMENT + ALLOCATOR_BYTES <= available
  }

  lemma PackedSize(dims: seq<int>, strs: seq<Bytes>)
    requires Shape.NonNegative(dims) && |strs| == Shape.Product(dims)
    ensures Shape.Product(Packed(dims, strs)) == |strs| * (MaxLength(strs) + 8)
  {
    PackedProduct(dims, strs);
  }

  /**
    get_native_data: packs the strings into a block that may hold anything before. `base` is where
    the block is mapped, `available` the largest object that can be created. It packs them exactly
    when the packed tensor has fewer than 128 dims and 2^31 bytes and its object can be created.
   */
  method GetNativeData(dims: seq<int>, strs: seq<Bytes>, base: Address, available: nat) returns (r: Native)
    requires IsStringTensor(dims, strs) && available < Shape.INT64_LIMIT
    ensures r.Block? <==>
              && |dims| + 1 < MAX_DIMS && Shape.Product(Packed(dims, strs)) < INT32_LIMIT
              && HEADER_BYTES + Shape.Product(Packed(dims, strs)) + ALIGNMENT + ALLOCATOR_BYTES <= available
    ensures r.RunsPast? ==> Shape.Product(Packed(dims, strs)) >= INT32_LIMIT
    ensures r.Block? ==> fresh(r.bytes) && PackedAt(r.bytes[..], HeaderOffset(base), dims, strs)
    ensures forall n: nat | IsLongest(strs, n) :: r.Block? <==> CanPack(dims, strs, n, available)
    ensures r.Block? ==> forall n: nat | IsLongest(strs, n) :: LaidOut(r.bytes[..], HeaderOffset(base), dims, strs, n)
  {
    r := Pack(dims, strs, base, available);
    PackedSize(dims, strs);
    OneLongest(strs);
    if r.Block? {
      PackedLayout(r.bytes[..], HeaderOffset(base), dims, strs, MaxLength(strs));
    }
  }

  method Pack(dims: seq<int>, strs: seq<Bytes>, base: Address, available: nat) returns (r: Native)
    requires IsStringTensor(dims, strs) && available < Shape.INT64_LIMIT
    ensures r.Block? <==>
              && |dims| + 1 < MAX_DIMS && Shape.Product(Packed(dims, strs)) < INT32_LIMIT
              && HEADER_BYTES + Shape.Product(Packed(dims, strs)) + ALIGNMENT + ALLOCATOR_BYTES <= available
    ensures r.RunsPast? ==> Shape.Product(Packed(dims, strs)) >= INT32_LIMIT
    ensures r.Block? ==> fresh(r.bytes) && PackedAt(r.bytes[..], HeaderOffset(base), dims, strs)
  {
    var maxLen := LongestLength(strs);
    maxLen := maxLen + LENGTH_BYTES;
    var dimsCopy := dims + [maxLen];
    StringLengths(strs);
    FitsIff(dims, strs, base);
    var numel := Shape.ComputeNumElements(dimsCopy);
    r := Allocate(RequestedBytes(numel, 1), available);
    if r.Block? {
      r := FillBlock(r.bytes, base, dims, strs, maxLen);
    }
  }

  /** The SHM tensor is constructed in the block, retyped, and the strings are copied into it. */
  method FillBlock(block: array<Byte>, base: Address, dims: seq<int>, strs: seq<Bytes>, maxLen: nat) returns (r: Native)
    requires maxLen == SlotBytes(strs) && IsDims(Packed(dims, strs)) && forall s <- strs :: IsInt64(|s|)
    modifies block
    ensures r.Block? <==>
              && |dims| + 1 < MAX_DIMS && DataOffset(base) <= block.Length
              && SlotsFit(strs, maxLen, block.Length - DataOffset(base))
    ensures r.RunsPast? ==>
              block.Length < DataOffset(base) || !SlotsFit(strs, maxLen, block.Length - DataOffset(base))
    ensures r.Block? ==>
              && r.bytes == block && HeaderAt(block[..], HeaderOffset(base), STRING_TENSOR, Packed(dims, strs))
              && SlotsAt(block[..], DataOffset(base), maxLen, strs)
  {
    var dimsCopy := dims + [maxLen];
    if block.Length < DataOffset(base) {
      return RunsPast;
    }
    var ok := WriteHeader(block, base, UINT8_TENSOR, dimsCopy);
    if !ok {
      return Throws;
    }
    OverwriteType(block, base, STRING_TENSOR, UINT8_TENSOR, dimsCopy);
    ok := CopyStrings(block, base, dims, strs, maxLen);
    return if ok then Block(block) else RunsPast;
  }

  /** The data behind the header, which stays as it was. */
  method CopyStrings(block: array<Byte>, base: Address, ghost dims: seq<int>, strs: seq<Bytes>, maxLen: nat)
    returns (ok: bool)
    requires maxLen == SlotBytes(strs) && DataOffset(base) <= block.Length && forall s <- strs :: IsInt64(|s|)
    requires HeaderAt(block[..], HeaderOffset(base), STRING_TENSOR, Packed(dims, strs))
    modifies block
    ensures ok <==> SlotsFit(strs, maxLen, block.Length - DataOffset(base))
    ensures ok ==>
              && HeaderAt(block[..], HeaderOffset(base), STRING_TENSOR, Packed(dims, strs))
              && SlotsAt(block[..], DataOffset(base), maxLen, strs)
  {
    ghost var before := block[..];
    ok := WriteSlots(block, DataOffset(base), strs, maxLen);
    HeaderKept(before, block[..], DataOffset(base), block.Length, HeaderOffset(base), STRING_TENSOR,
               Packed(dims, strs));
  }

  method LongestLength(strs: seq<Bytes>) returns (maxLen: nat)
    ensures maxLen == MaxLength(strs)
  {
    maxLen := 0;
    var i := 0;
    while i < |strs|
      invariant 0 <= i <= |strs| && maxLen == MaxLength(strs[..i])
    {
      assert strs[..i + 1][..i] == strs[..i];
      if |strs[i]| > maxLen {
        maxLen := |strs[i]|;
      }
      i := i + 1;
    }
    assert strs[..i] == strs;
  }

  // ------------------------------------------------------------------------ Numeric tensors

  predicate NumericAt(bytes: Bytes, pos: nat, tensorType: nat, dims: seq<int>, data: Bytes) {
    && tensorType != STRING_TENSOR && HeaderAt(bytes, pos, tensorType, dims)
    && pos + HEADER_BYTES + |data| <= |bytes| && bytes[pos + HEADER_BYTES..pos + HEADER_BYTES + |data|] == data
  }

  /**
    A tensor is allocated and the data is copied into it. An element count that was cut differs from
    the size of the data, and copy_from throws.
   */
  method AllocateAndCopy(tensorType: nat, dims: seq<int>, data: Bytes, elemBytes: nat, base: Address, available: nat)
    returns (r: Native)
    requires tensorType < TENSOR_TYPES && tensorType != STRING_TENSOR && IsDims(dims) && Shape.NonNegative(dims)
    requires elemBytes > 0 && |data| == Shape.Product(dims) * elemBytes
    requires |data| < Shape.INT64_LIMIT && available < Shape.INT64_LIMIT
    ensures r.Block? <==>
              && |dims| < MAX_DIMS && Shape.Product(dims) < INT32_LIMIT
              && HEADER_BYTES + |data| + ALIGNMENT + ALLOCATOR_BYTES <= available
    ensures r.Block? ==> fresh(r.bytes) && NumericAt(r.bytes[..], HeaderOffset(base), tensorType, dims, data)
  {
    var numel := Shape.ComputeNumElements(dims);
    NumericSizes(dims, |data|, elemBytes, base);
    r := Allocate(RequestedBytes(numel, elemBytes), available);
    if !r.Block? {
      return;
    }
    var block := r.bytes;
    if block.Length < DataOffset(base) {
      return RunsPast;
    }
    var ok := WriteHeader(block, base, tensorType, dims);
    if !ok || numel * elemBytes != |data| {
      return Throws;
    }
    CopyFrom(block, HeaderOffset(base), tensorType, dims, data);
    return Block(block);
  }

  /** memcpy of the data behind the header. */
  method CopyFrom(block: array<Byte>, pos: nat, ghost tensorType: nat, ghost dims: seq<int>, data: Bytes)
    requires tensorType != STRING_TENSOR && HeaderAt(block[..], pos, tensorType, dims)
    requires pos + HEADER_BYTES + |data| <= block.Length
    modifies block
    ensures NumericAt(block[..], pos, tensorType, dims, data)
  {
    ghost var before := block[..];
    WriteAt(block, pos + HEADER_BYTES, data);
    HeaderKept(before, block[..], pos + HEADER_BYTES, pos + HEADER_BYTES + |data|, pos, tensorType, dims);
  }

  lemma CountOfData(numel: nat, count: nat, elemBytes: nat)
    requires elemBytes > 0
    ensures numel * elemBytes == count * elemBytes <==> numel == count
    ensures count <= count * elemBytes
  {
    Shape.TimesMonotone(1, elemBytes, count);
  }

  /** The count passes the check of copy_from exactly below 2^31, and then the block has room for the data. */
  lemma NumericSizes(dims: seq<int>, dataBytes: nat, elemBytes: nat, base: Address)
    requires Shape.NonNegative(dims) && elemBytes > 0
    requires dataBytes == Shape.Product(dims) * elemBytes && dataBytes < Shape.INT64_LIMIT
    ensures Shape.CountElements(dims) * elemBytes == dataBytes <==> Shape.Product(dims) < INT32_LIMIT
    ensures Shape.CountElements(dims) * elemBytes == dataBytes ==>
              && RequestedBytes(Shape.CountElements(dims), elemBytes) == HEADER_BYTES + dataBytes + ALIGNMENT
              && DataOffset(base) + dataBytes <= HEADER_BYTES + dataBytes + ALIGNMENT
  {
    Shape.ProductNonNegative(dims);
    Shape.CountExact(dims);
    CountOfData(Shape.CountElements(dims), Shape.Product(dims), elemBytes);
    DataAlignedAndFits(base, dataBytes);
  }

  // -------------------------------------------------------------------------------- Loading

  datatype Loaded = Strings(dims: seq<int>, strs: seq<Bytes>) | Numeric(tensorType: nat, dims: seq<int>, data: nat)

  /** What the block at this header was written as. */
  predicate Holds(bytes: Bytes, pos: nat, wrote: Loaded) {
    match wrote
    case Strings(dims, strs) =>
      Shape.NonNegative(dims) && |strs| == Shape.Product(dims) && |strs| < MAX_COUNT && PackedAt(bytes, pos, dims, strs)
    case Numeric(tensorType, dims, data) =>
      tensorType != STRING_TENSOR && HeaderAt(bytes, pos, tensorType, dims) && data == pos + HEADER_BYTES
  }

  /** The constructor that copies the strings out of a packed block; `pos` is where the header is. */
  method LoadStrings(packedDims: seq<int>, block: array<Byte>, pos: nat, ghost wroteDims: seq<int>,
                     ghost wrote: seq<Bytes>)
    returns (dims: seq<int>, strs: seq<Bytes>)
    requires Holds(block[..], pos, Strings(wroteDims, wrote)) && packedDims == Packed(wroteDims, wrote)
    ensures dims == wroteDims && strs == wrote
  {
    dims := packedDims[..|packedDims| - 1];
    var maxLen := packedDims[|packedDims| - 1];
    assert dims == wroteDims && maxLen == SlotBytes(wrote);
    Shape.CountExact(dims);
    var numel := Shape.ComputeNumElements(dims);
    strs := ReadSlots(block, pos + HEADER_BYTES, maxLen, numel, wrote);
  }

  method ReadSlots(block: array<Byte>, start: nat, slot: nat, numel: nat, ghost wrote: seq<Bytes>)
    returns (strs: seq<Bytes>)
    requires numel == |wrote| && SlotsAt(block[..], start, slot, wrote)
    ensures strs == wrote
  {
    strs := [];
    while |strs| < numel
      invariant |strs| <= numel && strs == wrote[..|strs|]
    {
      var s := ReadSlot(block, start + SlotStart(|strs|, slot), wrote[|strs|]);
      strs := strs + [s];
    }
  }

  /** tensor_from_id: the stored type chooses the kind of tensor. */
  method TensorFromId(block: array<Byte>, base: Address, ghost wrote: Loaded) returns (r: Loaded)
    requires Holds(block[..], HeaderOffset(base), wrote)
    ensures r == wrote
  {
    r := TensorAt(block, HeaderOffset(base), wrote);
  }

  method TensorAt(block: array<Byte>, pos: nat, ghost wrote: Loaded) returns (r: Loaded)
    requires Holds(block[..], pos, wrote)
    ensures r == wrote
  {
    ghost var wroteType := if wrote.Strings? then STRING_TENSOR else wrote.tensorType;
    ghost var wroteDims := if wrote.Strings? then Packed(wrote.dims, wrote.strs) else wrote.dims;
    var tensorType, dims := ReadHeader(block, pos, wroteType, wroteDims);
    if tensorType == STRING_TENSOR {
      var stripped, strs := LoadStrings(dims, block, pos, wrote.dims, wrote.strs);
      return Strings(stripped, strs);
    }
    return Numeric(tensorType, dims, pos + HEADER_BYTES);
  }

  // ----------------------------------------------------- From one process to another one

  /**
    A string tensor packed in one process and loaded in another one comes back exactly when its
    packed form has fewer than 128 dims and 2^31 bytes and its object can be created.
   */
  method Transit(dims: seq<int>, strs: seq<Bytes>, pageA: nat, pageB: nat, skipped: nat, available: nat)
    returns (r: Option<Loaded>)
    requires IsStringTensor(dims, strs) && available < Shape.INT64_LIMIT
    ensures r.Some? <==>
              && |dims| + 1 < MAX_DIMS && Shape.Product(Packed(dims, strs)) < INT32_LIMIT
              && HEADER_BYTES + Shape.Product(Packed(dims, strs)) + ALIGNMENT + ALLOCATOR_BYTES <= available
    ensures r.Some? ==> r.value == Strings(dims, strs)
    ensures forall n: nat | IsLongest(strs, n) :: r.Some? <==> CanPack(dims, strs, n, available)
  {
    var creator, loader := Mapped(pageA, skipped), Mapped(pageB, skipped);
    var native := GetNativeData(dims, strs, creator, available);
    if !native.Block? {
      return None;
    }
    PackedCount(dims, strs);
    MappingsAgree(pageA, pageB, skipped);
    var loaded := TensorFromId(native.bytes, loader, Strings(dims, strs));
    return Some(loaded);
  }

  lemma PackedCount(dims: seq<int>, strs: seq<Bytes>)
    requires Shape.NonNegative(dims) && |strs| == Shape.Product(dims)
    requires Shape.Product(Packed(dims, strs)) < INT32_LIMIT
    ensures |strs| < MAX_COUNT
  {
    PackedProduct(dims, strs);
    Shape.TimesMonotone(1, SlotBytes(strs), |strs|);
  }

  /** A numeric tensor filled in one process and loaded in another one. */
  method TransitNumeric(tensorType: nat, dims: seq<int>, data: Bytes, elemBytes: nat, pageA: nat, pageB: nat,
                        skipped: nat, available: nat)
    returns (r: Option<(Loaded, Bytes)>)
    requires tensorType < TENSOR_TYPES && tensorType != STRING_TENSOR && IsDims(dims) && Shape.NonNegative(dims)
    requires elemBytes > 0 && |data| == Shape.Product(dims) * elemBytes
    requires |data| < Shape.INT64_LIMIT && available < Shape.INT64_LIMIT
    ensures r.Some? <==>
              && |dims| < MAX_DIMS && Shape.Product(dims) < INT32_LIMIT
              && HEADER_BYTES + |data| + ALIGNMENT + ALLOCATOR_BYTES <= available
    ensures r.Some? ==> r.value.0.Numeric? && r.value.0.tensorType == tensorType && r.value.0.dims == dims
    ensures r.Some? ==> r.value.1 == data
  {
    var creator, loader := Mapped(pageA, skipped), Mapped(pageB, skipped);
    var native := AllocateAndCopy(tensorType, dims, data, elemBytes, creator, available);
    if !native.Block? {
      return None;
    }
    MappingsAgree(pageA, pageB, skipped);
    var block := native.bytes;
    var loaded := TensorFromId(block, loader, Numeric(tensorType, dims, DataOffset(loader)));
    assert block[..][loaded.data..loaded.data + |data|] == block[loaded.data..loaded.data + |data|];
    return Some((loaded, block[loaded.data..loaded.data + |data|]));
  }
}

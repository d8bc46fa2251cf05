/** Dimensions, strides and element accessors of a tensor. */
module Shape {
  import opened Wrappers

  const INT32_RANGE := 0x1_0000_0000
  const SIZE_T_RANGE := 0x1_0000_0000_0000_0000
  const INT64_LIMIT := 0x8000_0000_0000_0000

  function Product(dims: seq<int>): int {
    if dims == [] then 1 else dims[0] * Product(dims[1..])
  }

  predicate NonNegative(dims: seq<int>) {
    forall k | 0 <= k < |dims| :: dims[k] >= 0
  }

  lemma {:induction false} ProductNonNegative(dims: seq<int>)
    requires NonNegative(dims)
    ensures Product(dims) >= 0
  {
    if dims != [] {
      ProductNonNegative(dims[1..]);
    }
  }

  lemma {:induction false} ProductAppend(dims: seq<int>, d: int)
    ensures Product(dims + [d]) == Product(dims) * d
  {
    if dims == [] {
      assert [] + [d] == [d];
      assert Product([d]) == d * Product([]);
    } else {
      assert (dims + [d])[1..] == dims[1..] + [d];
      ProductAppend(dims[1..], d);
      assert dims[0] * (Product(dims[1..]) * d) == dims[0] * Product(dims[1..]) * d;
    }
  }

  // ------------------------------------------------------------------ integer widths

  /** The conversion of an int64_t to int. */
  function ToInt32(x: int): int {
    (x + INT32_LIMIT) % INT32_RANGE - INT32_LIMIT
  }

  /** Two's complement arithmetic of int64_t. */
  function ToInt64(x: int): int {
    (x + INT64_LIMIT) % SIZE_T_RANGE - INT64_LIMIT
  }

  function ToSizeT(x: int): int {
    x % SIZE_T_RANGE
  }

  lemma ToInt32Congruent(x: int) returns (k: int)
    ensures ToInt32(x) == x + k * INT32_RANGE
    ensures -INT32_LIMIT <= ToInt32(x) < INT32_LIMIT
  {
    k := -((x + INT32_LIMIT) / INT32_RANGE);
  }

  lemma ToInt64Congruent(x: int) returns (k: int)
    ensures ToInt64(x) == x + k * SIZE_T_RANGE
    ensures -INT64_LIMIT <= ToInt64(x) < INT64_LIMIT
  {
    k := -((x + INT64_LIMIT) / SIZE_T_RANGE);
  }

  /** A product taken modulo a range may be reduced before the next factor. */
  lemma ReducedTimes(reduced: int, exact: int, k: int, range: int, d: int, j: int)
    requires reduced == exact + k * range
    ensures reduced * d + j * range == exact * d + (k * d + j) * range
  {
    calc {
      reduced * d + j * range;
      (exact + k * range) * d + j * range;
      exact * d + k * range * d + j * range;
      { assert k * range * d == k * d * range; }
      exact * d + k * d * range + j * range;
      exact * d + (k * d + j) * range;
    }
  }

  // -------------------------------------------------------------- compute_num_elements

  /** The fold carries an int, so every partial product is cut to 32 bits. */
  function Fold(acc: int, dims: seq<int>): int
    decreases |dims|
  {
    if dims == [] then acc else Fold(ToInt32(acc * dims[0]), dims[1..])
  }

  function CountElements(dims: seq<int>): int {
    ToSizeT(Fold(1, dims))
  }

  lemma {:induction false} FoldCongruent(acc: int, dims: seq<int>) returns (k: int)
    requires -INT32_LIMIT <= acc < INT32_LIMIT
    ensures Fold(acc, dims) == acc * Product(dims) + k * INT32_RANGE
    ensures -INT32_LIMIT <= Fold(acc, dims) < INT32_LIMIT
    decreases |dims|
  {
    if dims == [] {
      k := 0;
    } else {
      var rest := Product(dims[1..]);
      var j := ToInt32Congruent(acc * dims[0]);
      var cut := ToInt32(acc * dims[0]);
      var m := FoldCongruent(cut, dims[1..]);
      ReducedTimes(cut, acc * dims[0], j, INT32_RANGE, rest, m);
      k := j * rest + m;
      assert acc * dims[0] * rest == acc * (dims[0] * rest);
    }
  }

  lemma SizeOfInt(x: int)
    requires -INT32_LIMIT <= x < INT32_LIMIT
    ensures ToSizeT(x) == if x >= 0 then x else x + SIZE_T_RANGE
  {
  }

  /** What the conversions int to size_t of a product of this size leave unchanged. */
  predicate Counted(product: int) {
    product < INT32_LIMIT || SIZE_T_RANGE - INT32_LIMIT <= product < SIZE_T_RANGE
  }

  lemma CutExact(cut: int, exact: int, k: int)
    requires cut == exact + k * INT32_RANGE && -INT32_LIMIT <= cut < INT32_LIMIT && 0 <= exact
    ensures (if cut >= 0 then cut else cut + SIZE_T_RANGE) == exact <==> Counted(exact)
  {
    var m := SIZE_T_RANGE / INT32_RANGE;
    assert m * INT32_RANGE == SIZE_T_RANGE;
    if SIZE_T_RANGE - INT32_LIMIT <= exact < SIZE_T_RANGE {
      assert cut + SIZE_T_RANGE - exact == (k + m) * INT32_RANGE;
    }
  }

  /**
    The count is the product of the dims, whatever its prefixes are, if and only if that product is
    below 2^31, or within 2^31 below 2^64, where the int is negative and turns back into it.
   */
  lemma CountExact(dims: seq<int>)
    requires NonNegative(dims)
    ensures CountElements(dims) == Product(dims) <==> Counted(Product(dims))
  {
    var k := FoldCongruent(1, dims);
    ProductNonNegative(dims);
    SizeOfInt(Fold(1, dims));
    CutExact(Fold(1, dims), Product(dims), k);
  }

  /** A tensor of 65536 by 32768 elements is counted as one of 2^64 - 2^31. */
  lemma CountWrong()
    ensures var dims := [65536, 32768];
            Product(dims) == INT32_LIMIT && CountElements(dims) == SIZE_T_RANGE - INT32_LIMIT
  {
    var dims := [65536, 32768];
    assert dims[1..] == [32768] && [32768][1..] == [];
    assert Product([]) == 1 && Product([32768]) == 32768;
    assert Fold(-INT32_LIMIT, []) == -INT32_LIMIT;
    assert Fold(65536, [32768]) == -INT32_LIMIT;
  }

  method ComputeNumElements(dims: seq<int>) returns (n: int)
    ensures n == CountElements(dims)
  {
    var acc := 1;
    var i := 0;
    while i < |dims|
      invariant 0 <= i <= |dims|
      invariant Fold(acc, dims[i..]) == Fold(1, dims)
    {
      assert dims[i..][1..] == dims[i + 1..];
      acc := ToInt32(acc * dims[i]);
      i := i + 1;
    }
    n := ToSizeT(acc);
  }

  // -------------------------------------------------------------------- compute_strides

  predicate FitsInt64(x: int) {
    -INT64_LIMIT <= x < INT64_LIMIT
  }

  lemma InRangeUnique(x: int, exact: int, k: int)
    requires x == exact + k * SIZE_T_RANGE && FitsInt64(x)
    ensures x == exact <==> FitsInt64(exact)
  {
  }

  predicate Positive(dims: seq<int>) {
    forall k | 0 <= k < |dims| :: dims[k] > 0
  }

  lemma {:induction false} SuffixProduct(dims: seq<int>, i: nat)
    requires Positive(dims) && i <= |dims|
    ensures 1 <= Product(dims[i..]) <= Product(dims)
    decreases |dims|
  {
    if i > 0 {
      SuffixProduct(dims[1..], i - 1);
      assert dims[1..][i - 1..] == dims[i..];
      TimesMonotone(1, dims[0], Product(dims[1..]));
    } else if dims != [] {
      SuffixProduct(dims[1..], 0);
      TimesMonotone(1, dims[0], Product(dims[1..]));
      assert dims[0..] == dims && dims[1..][0..] == dims[1..];
    }
  }

  /** The strides of a tensor without empty dims fit when its element count does. */
  lemma StridesFit(dims: seq<int>)
    requires Positive(dims) && FitsInt64(Product(dims))
    ensures forall i | 0 <= i < |dims| :: FitsInt64(Strides(dims)[i])
  {
    forall i | 0 <= i < |dims|
      ensures FitsInt64(Strides(dims)[i])
    {
      SuffixProduct(dims, i + 1);
    }
  }

  /** A stride is the product of the later dims exactly when that product is an int64_t. */
  method ComputeStrides(dims: seq<int>) returns (out: array<int>)
    ensures fresh(out) && out.Length == |dims|
    ensures forall i | 0 <= i < |dims| :: out[i] == Strides(dims)[i] <==> FitsInt64(Strides(dims)[i])
    ensures Positive(dims) && FitsInt64(Product(dims)) ==> out[..] == Strides(dims)
  {
    out := new int[|dims|];
    var runningProduct := 1;
    ghost var k := 0;
    var i := |dims| - 1;
    while i >= 0
      invariant -1 <= i < |dims|
      invariant runningProduct == Product(dims[i + 1..]) + k * SIZE_T_RANGE && FitsInt64(runningProduct)
      invariant forall m | i < m < |dims| :: out[m] == Strides(dims)[m] <==> FitsInt64(Strides(dims)[m])
    {
      out[i] := runningProduct;
      InRangeUnique(runningProduct, Product(dims[i + 1..]), k);
      ghost var j := ToInt64Congruent(runningProduct * dims[i]);
      assert dims[i..][1..] == dims[i + 1..];
      ReducedTimes(runningProduct, Product(dims[i + 1..]), k, SIZE_T_RANGE, dims[i], j);
      k := k * dims[i] + j;
      runningProduct := ToInt64(runningProduct * dims[i]);
      i := i - 1;
    }
    if Positive(dims) && FitsInt64(Product(dims)) {
      StridesFit(dims);
    }
  }

  /** Row-major strides: the product of all the later dims. */
  function Strides(dims: seq<int>): (out: seq<int>)
    ensures |out| == |dims|
  {
    seq(|dims|, i requires 0 <= i < |dims| => Product(dims[i + 1..]))
  }

  lemma StridesTail(dims: seq<int>)
    requires dims != []
    ensures Strides(dims)[1..] == Strides(dims[1..]) && Strides(dims)[0] == Product(dims[1..])
  {
    forall i | 0 <= i < |dims| - 1
      ensures Strides(dims)[1..][i] == Strides(dims[1..])[i]
    {
      assert dims[1..][i + 1..] == dims[i + 2..];
    }
  }

  // ---------------------------------------------------------------------- TensorAccessor

  /** An accessor of rank |dims|; `offset` is where it starts in the buffer. */
  datatype Accessor = Accessor(dims: seq<int>, strides: seq<int>, offset: int) {

    /** Indexing an accessor of rank above one. */
    function Sub(i: int): Accessor
      requires |dims| == |strides| > 1
    {
      Accessor(dims[1..], strides[1..], offset + strides[0] * i)
    }

    /** Indexing an accessor of rank one: it does not look at its stride. */
    function Element(i: int): int {
      offset + i
    }

    /** Indexing down to one element. */
    function At(index: seq<int>): int
      requires |index| == |dims| == |strides| > 0
      decreases |index|
    {
      if |index| == 1 then Element(index[0]) else Sub(index[0]).At(index[1..])
    }
  }

  function Root(dims: seq<int>): Accessor {
    Accessor(dims, Strides(dims), 0)
  }

  predicate InRange(dims: seq<int>, index: seq<int>) {
    |dims| == |index| && forall k | 0 <= k < |dims| :: 0 <= index[k] < dims[k]
  }

  /** The index tuple that is the n-th in row-major order. */
  function Unravel(dims: seq<int>, n: int): seq<int>
    requires NonNegative(dims) && 0 <= n < Product(dims)
    decreases |dims|
  {
    if dims == [] then []
    else
      var size := Product(dims[1..]);
      UnravelStep(dims, n);
      [n / size] + Unravel(dims[1..], n % size)
  }

  lemma ProductPositive(a: int, size: int)
    requires size >= 0 && a * size > 0
    ensures size > 0
  {
  }

  lemma QuotientBelow(n: int, size: int, bound: int)
    requires size > 0 && 0 <= n < bound * size
    ensures 0 <= n / size < bound
  {
    assert n / size * size <= n;
    if n / size >= bound {
      TimesMonotone(bound, n / size, size);
    }
  }

  lemma TimesMonotone(a: int, b: int, size: int)
    requires a <= b && size >= 0
    ensures a * size <= b * size
  {
  }

  lemma Division(n: int, size: int)
    requires size > 0
    ensures 0 <= n % size < size && n == size * (n / size) + n % size
  {
  }

  lemma UnravelStep(dims: seq<int>, n: int)
    requires NonNegative(dims) && dims != [] && 0 <= n < Product(dims)
    ensures var size := Product(dims[1..]);
            size > 0 && 0 <= n / size < dims[0] && 0 <= n % size < size && n == size * (n / size) + n % size
  {
    ProductNonNegative(dims[1..]);
    var size := Product(dims[1..]);
    assert Product(dims) == dims[0] * size;
    ProductPositive(dims[0], size);
    QuotientBelow(n, size, dims[0]);
    Division(n, size);
  }

  lemma QuotientUnique(q: int, r: int, size: int)
    requires 0 <= r < size
    ensures (size * q + r) / size == q && (size * q + r) % size == r
  {
    var x := size * q + r;
    var d := x / size - q;
    assert size * d + x % size == r by {
      assert size * (x / size) + x % size == x;
      assert size * (x / size) == size * d + size * q;
    }
    if d >= 1 {
      TimesMonotone(1, d, size);
    } else if d <= -1 {
      TimesMonotone(d, -1, size);
    }
  }

  lemma {:induction false} RootOffset(dims: seq<int>, offset: int, index: seq<int>)
    requires |index| == |dims| > 0
    ensures Accessor(dims, Strides(dims), offset).At(index) == offset + Root(dims).At(index)
    decreases |dims|
  {
    if |dims| > 1 {
      StridesTail(dims);
      var step := Product(dims[1..]) * index[0];
      RootOffset(dims[1..], offset + step, index[1..]);
      RootOffset(dims[1..], step, index[1..]);
    }
  }

  lemma AtStep(dims: seq<int>, index: seq<int>)
    requires |index| == |dims| > 1
    ensures Root(dims).At(index) == Product(dims[1..]) * index[0] + Root(dims[1..]).At(index[1..])
  {
    StridesTail(dims);
    RootOffset(dims[1..], Product(dims[1..]) * index[0], index[1..]);
  }

  lemma RowWithin(q: int, r: int, size: int, rows: int)
    requires 0 <= r < size && 0 <= q < rows
    ensures 0 <= size * q + r < rows * size
  {
    TimesMonotone(q + 1, rows, size);
    TimesMonotone(0, q, size);
  }

  /** Every in-range index tuple reaches an element of its own. */
  lemma {:induction false} AccessInRange(dims: seq<int>, index: seq<int>)
    requires NonNegative(dims) && dims != [] && InRange(dims, index)
    ensures 0 <= Root(dims).At(index) < Product(dims)
    ensures Unravel(dims, Root(dims).At(index)) == index
    decreases |dims|
  {
    if |dims| == 1 {
      AccessVector(dims, index);
    } else {
      AccessInRange(dims[1..], index[1..]);
      AccessRow(dims, index);
    }
  }

  lemma AccessVector(dims: seq<int>, index: seq<int>)
    requires NonNegative(dims) && |dims| == 1 && InRange(dims, index)
    ensures 0 <= Root(dims).At(index) < Product(dims)
    ensures Unravel(dims, Root(dims).At(index)) == index
  {
    assert Product(dims[1..]) == 1 && Product(dims) == dims[0];
    assert Unravel(dims, index[0]) == [index[0]];
  }

  lemma AccessRow(dims: seq<int>, index: seq<int>)
    requires NonNegative(dims) && |dims| > 1 && InRange(dims, index)
    requires 0 <= Root(dims[1..]).At(index[1..]) < Product(dims[1..])
    requires Unravel(dims[1..], Root(dims[1..]).At(index[1..])) == index[1..]
    ensures 0 <= Root(dims).At(index) < Product(dims)
    ensures Unravel(dims, Root(dims).At(index)) == index
  {
    var n, rest, size := Root(dims).At(index), Root(dims[1..]).At(index[1..]), Product(dims[1..]);
    AtStep(dims, index);
    RowWithin(index[0], rest, size, dims[0]);
    QuotientUnique(index[0], rest, size);
    UnravelRow(dims, n, index[0], rest);
    assert index == [index[0]] + index[1..];
  }

  lemma UnravelRow(dims: seq<int>, n: int, q: int, r: int)
    requires NonNegative(dims) && dims != [] && 0 <= n < Product(dims)
    requires Product(dims[1..]) > 0 && 0 <= r < Product(dims[1..])
    requires n / Product(dims[1..]) == q && n % Product(dims[1..]) == r
    ensures Unravel(dims, n) == [q] + Unravel(dims[1..], r)
  {
  }

  /** Every element of the buffer is reached by an in-range index tuple. */
  lemma {:induction false} AccessCovers(dims: seq<int>, n: int)
    requires NonNegative(dims) && dims != [] && 0 <= n < Product(dims)
    ensures InRange(dims, Unravel(dims, n)) && Root(dims).At(Unravel(dims, n)) == n
    decreases |dims|
  {
    UnravelStep(dims, n);
    var size := Product(dims[1..]);
    var index := Unravel(dims, n);
    if |dims| == 1 {
      assert size == 1 && n / size == n && n % size == 0;
      assert Unravel(dims[1..], n % size) == [];
      assert index == [n];
    } else {
      AccessCovers(dims[1..], n % size);
      assert index[1..] == Unravel(dims[1..], n % size);
      AtStep(dims, index);
    }
  }

  ghost predicate Reached(dims: seq<int>, n: int)
    requires dims != []
  {
    exists index :: InRange(dims, index) && Root(dims).At(index) == n
  }

  /** Accessor indexing is a bijection from the in-range index tuples onto 0 .. numel - 1. */
  lemma AccessorBijective(dims: seq<int>)
    requires NonNegative(dims) && dims != []
    ensures forall index :: InRange(dims, index) ==> 0 <= Root(dims).At(index) < Product(dims)
    ensures forall a, b :: InRange(dims, a) && InRange(dims, b) && Root(dims).At(a) == Root(dims).At(b) ==> a == b
    ensures forall n :: 0 <= n < Product(dims) ==> Reached(dims, n)
  {
    forall index | InRange(dims, index)
      ensures 0 <= Root(dims).At(index) < Product(dims) && Unravel(dims, Root(dims).At(index)) == index
    {
      AccessInRange(dims, index);
    }
    forall n | 0 <= n < Product(dims)
      ensures Reached(dims, n)
    {
      AccessCovers(dims, n);
    }
  }

  // ------------------------------------------------------------------- AccessorIterator

  class AccessorIterator {
    const accessor: Accessor
    var index: int

    constructor (accessor: Accessor, index: int)
      ensures this.accessor == accessor && this.index == index
    {
      this.accessor := accessor;
      this.index := index;
    }

    method Increment()
      modifies this
      ensures index == old(index) + 1
    {
      index := index + 1;
    }
  }

  /** The buffer positions n, n + 1, ... */
  function Consecutive(n: int, count: nat): (s: seq<int>)
    ensures |s| == count
  {
    seq(count, i => n + i)
  }

  /** Range-based for loops nested over all dimensions, down to the elements. */
  method VisitAll(accessor: Accessor) returns (visited: seq<int>)
    requires NonNegative(accessor.dims) && accessor.dims != [] && accessor.strides == Strides(accessor.dims)
    ensures Product(accessor.dims) >= 0 && visited == Consecutive(accessor.offset, Product(accessor.dims))
    decreases |accessor.dims|
  {
    var dims := accessor.dims;
    ProductNonNegative(dims);
    ProductNonNegative(dims[1..]);
    StridesTail(dims);
    ghost var size := Product(dims[1..]);
    var it := new AccessorIterator(accessor, 0);
    var end := new AccessorIterator(accessor, dims[0]);
    visited := [];
    while it.index != end.index
      invariant 0 <= it.index <= end.index == dims[0] && fresh(it) && fresh(end) && it != end
      invariant size * it.index >= 0 && visited == Consecutive(accessor.offset, size * it.index)
      decreases end.index - it.index
    {
      assert size * (it.index + 1) == size * it.index + size;
      if |dims| == 1 {
        assert size == 1;
        visited := visited + [accessor.Element(it.index)];
      } else {
        var inner := VisitAll(accessor.Sub(it.index));
        visited := visited + inner;
      }
      it.Increment();
    }
    assert size * dims[0] == Product(dims);
  }
}

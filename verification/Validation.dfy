/** Validation of tensors against specs, in the C++ and in the Python implementation. */
module Validation {
  import opened Wrappers

  datatype TensorType =
    | Float | Double | String
    | Int8 | Int16 | Int32 | Int64
    | Uint8 | Uint16 | Uint32 | Uint64

  datatype Tensor = Tensor(tensorType: TensorType, dims: seq<int>)

  /** A named tensor of a spec, over some representation of its dims. */
  datatype Spec<Dim> = Spec(name: string, dims: seq<Dim>, tensorType: TensorType)

  type Symbols = map<string, int>

  // ---------------------------------------------------------------- What a spec asks for

  datatype Want = Anything | Exactly(n: int) | SameAs(symbol: string) | Invalid

  predicate DimFits(env: Symbols, want: Want, dim: int) {
    match want
    case Anything => true
    case Exactly(n) => dim == n
    case SameAs(symbol) => symbol in env && env[symbol] == dim
    case Invalid => false
  }

  predicate ShapeFits(env: Symbols, wants: seq<Want>, dims: seq<int>) {
    |wants| == |dims| && forall i | 0 <= i < |dims| :: DimFits(env, wants[i], dims[i])
  }

  /** Tensors are optional: a spec without a tensor of its name asks for nothing. */
  predicate SpecFits(env: Symbols, spec: Spec<Want>, tensors: map<string, Tensor>) {
    spec.name in tensors ==>
      && tensors[spec.name].tensorType == spec.tensorType
      && ShapeFits(env, spec.dims, tensors[spec.name].dims)
  }

  predicate AllFit(env: Symbols, specs: seq<Spec<Want>>, tensors: map<string, Tensor>) {
    forall spec <- specs :: SpecFits(env, spec, tensors)
  }

  predicate Known(name: string, specs: seq<Spec<Want>>) {
    exists spec <- specs :: spec.name == name
  }

  predicate NamesKnown(specs: seq<Spec<Want>>, tensors: map<string, Tensor>) {
    forall name <- tensors.Keys :: Known(name, specs)
  }

  /** Every tensor is in the spec, and one assignment of the symbols makes all of them fit. */
  ghost predicate Acceptable(specs: seq<Spec<Want>>, tensors: map<string, Tensor>) {
    NamesKnown(specs, tensors) && exists env: Symbols :: AllFit(env, specs, tensors)
  }

  lemma OrderIrrelevant(a: seq<Spec<Want>>, b: seq<Spec<Want>>, tensors: map<string, Tensor>)
    requires multiset(a) == multiset(b)
    ensures Acceptable(a, tensors) == Acceptable(b, tensors)
  {
    SameMembers(a, b);
    SameMembers(b, a);
    if Acceptable(a, tensors) {
      var env: Symbols :| AllFit(env, a, tensors);
      assert AllFit(env, b, tensors);
      KnownElsewhere(a, b, tensors);
    }
    if Acceptable(b, tensors) {
      var env: Symbols :| AllFit(env, b, tensors);
      assert AllFit(env, a, tensors);
      KnownElsewhere(b, a, tensors);
    }
  }

  lemma SameMembers(a: seq<Spec<Want>>, b: seq<Spec<Want>>)
    requires multiset(a) == multiset(b)
    ensures forall spec <- a :: spec in b
  {
    forall spec | spec in a
      ensures spec in b
    {
      assert spec in multiset(a);
    }
  }

  lemma KnownElsewhere(a: seq<Spec<Want>>, b: seq<Spec<Want>>, tensors: map<string, Tensor>)
    requires NamesKnown(a, tensors) && forall spec <- a :: spec in b
    ensures NamesKnown(b, tensors)
  {
  }

  predicate Extends(env: Symbols, known: Symbols) {
    forall s <- known.Keys :: s in env && env[s] == known[s]
  }

  lemma FitsExtended(env: Symbols, known: Symbols, spec: Spec<Want>, tensors: map<string, Tensor>)
    requires SpecFits(known, spec, tensors) && Extends(env, known)
    ensures SpecFits(env, spec, tensors)
  {
    if spec.name in tensors {
      ShapeFitsExtended(env, known, spec.dims, tensors[spec.name].dims);
    }
  }

  lemma ShapeFitsExtended(env: Symbols, known: Symbols, wants: seq<Want>, dims: seq<int>)
    requires ShapeFits(known, wants, dims) && Extends(env, known)
    ensures ShapeFits(env, wants, dims)
  {
    forall i | 0 <= i < |dims|
      ensures DimFits(env, wants[i], dims[i])
    {
      assert DimFits(known, wants[i], dims[i]);
    }
  }

  // ------------------------------------------------------------------------- C++ version

  datatype Dimension = Dimension(value: int, symbol: string)

  function Meaning(d: Dimension): Want {
    if d.value == -1 then Anything
    else if d.value > 0 then Exactly(d.value)
    else if d.value < -1 then SameAs(d.symbol)
    else Invalid
  }

  function Meanings(dims: seq<Dimension>): (wants: seq<Want>)
    ensures |wants| == |dims| && forall i | 0 <= i < |dims| :: wants[i] == Meaning(dims[i])
  {
    seq(|dims|, i requires 0 <= i < |dims| => Meaning(dims[i]))
  }

  function SpecMeanings(specs: seq<Spec<Dimension>>): (wants: seq<Spec<Want>>)
    ensures |wants| == |specs|
    ensures forall i | 0 <= i < |specs| ::
              wants[i] == Spec(specs[i].name, Meanings(specs[i].dims), specs[i].tensorType)
  {
    seq(|specs|, i requires 0 <= i < |specs| => Spec(specs[i].name, Meanings(specs[i].dims), specs[i].tensorType))
  }

  /** The loop over the dims; `known` is the least extension of `before` that makes them fit. */
  method CheckShape(expected: seq<Dimension>, dims: seq<int>, before: Symbols) returns (ok: bool, known: Symbols)
    requires |expected| == |dims|
    ensures Extends(known, before)
    ensures ok ==> ShapeFits(known, Meanings(expected), dims)
    ensures forall env :: Extends(env, before) && ShapeFits(env, Meanings(expected), dims) ==> ok && Extends(env, known)
  {
    known := before;
    var i := 0;
    while i < |expected|
      invariant 0 <= i <= |dims| && Extends(known, before)
      invariant ShapeFits(known, Meanings(expected)[..i], dims[..i])
      invariant forall env :: Extends(env, before) && ShapeFits(env, Meanings(expected), dims) ==> Extends(env, known)
    {
      var dim, want := dims[i], expected[i];
      ghost var former := known;
      if want.value == -1 {
      } else if want.value > 0 {
        if dim != want.value {
          ForcedDim(Meanings(expected), dims, i);
          return false, known;
        }
      } else if want.value < -1 {
        if want.symbol in known {
          if dim != known[want.symbol] {
            ForcedDim(Meanings(expected), dims, i);
            return false, known;
          }
        } else {
          ForcedDim(Meanings(expected), dims, i);
          known := known[want.symbol := dim];
        }
      } else {
        ForcedDim(Meanings(expected), dims, i);
        return false, known;
      }
      ShapeFitsExtended(known, former, Meanings(expected)[..i], dims[..i]);
      i := i + 1;
    }
    assert Meanings(expected)[..i] == Meanings(expected) && dims[..i] == dims;
    ok := true;
  }

  /** What any fitting assignment must satisfy at dim i. */
  lemma ForcedDim(wants: seq<Want>, dims: seq<int>, i: nat)
    requires i < |wants| == |dims|
    ensures forall env :: ShapeFits(env, wants, dims) ==> DimFits(env, wants[i], dims[i])
  {
  }

  method ValidateTensorsAgainstSpecs(tensors: map<string, Tensor>, specs: seq<Spec<Dimension>>) returns (ok: bool)
    ensures ok <==> Acceptable(SpecMeanings(specs), tensors)
  {
    var specTensorNames: set<string> := {};
    var symbols: Symbols := map[];
    ghost var wants := SpecMeanings(specs);
    var i := 0;
    while i < |specs|
      invariant 0 <= i <= |specs|
      invariant specTensorNames == set spec | spec in wants[..i] :: spec.name
      invariant AllFit(symbols, wants[..i], tensors)
      invariant forall env :: AllFit(env, wants, tensors) ==> Extends(env, symbols)
    {
      var spec := specs[i];
      assert wants[..i + 1] == wants[..i] + [wants[i]] && wants[i] in wants;
      specTensorNames := specTensorNames + {spec.name};
      if spec.name in tensors {
        var tensor := tensors[spec.name];
        if tensor.tensorType != spec.tensorType || |tensor.dims| != |spec.dims| {
          return false;
        }
        ghost var former := symbols;
        var fits;
        fits, symbols := CheckShape(spec.dims, tensor.dims, symbols);
        if !fits {
          return false;
        }
        StillFit(symbols, former, wants[..i], tensors);
      }
      i := i + 1;
    }
    assert wants[..i] == wants;
    var unexpected := UnexpectedNames(tensors, specTensorNames);
    ok := |unexpected| == 0;
    if ok {
      assert NamesKnown(wants, tensors);
    } else {
      assert unexpected[0] in tensors.Keys && !Known(unexpected[0], wants);
    }
  }

  lemma StillFit(env: Symbols, known: Symbols, specs: seq<Spec<Want>>, tensors: map<string, Tensor>)
    requires AllFit(known, specs, tensors) && Extends(env, known)
    ensures AllFit(env, specs, tensors)
  {
    forall spec | spec in specs
      ensures SpecFits(env, spec, tensors)
    {
      FitsExtended(env, known, spec, tensors);
    }
  }

  method UnexpectedNames(tensors: map<string, Tensor>, names: set<string>) returns (unexpected: seq<string>)
    ensures forall name :: name in unexpected <==> name in tensors && name !in names
  {
    unexpected := [];
    var rest := tensors.Keys;
    while rest != {}
      invariant rest <= tensors.Keys
      invariant forall name :: name in unexpected <==> name in tensors.Keys - rest && name !in names
      decreases |rest|
    {
      var name :| name in rest;
      if name !in names {
        unexpected := unexpected + [name];
      }
      rest := rest - {name};
    }
  }

  // ---------------------------------------------------------------------- Python version

  /** A dim of a shape in the configuration file; a Real is one with an integral value. */
  datatype JsonDim = Null | Integer(n: int) | Real(n: int) | Boolean(b: bool) | Text(s: string) | Other

  /** To Python a boolean is an integer. */
  function PyMeaning(d: JsonDim): Want {
    match d
    case Null => Anything
    case Integer(n) => Exactly(n)
    case Boolean(b) => Exactly(if b then 1 else 0)
    case Text(s) => SameAs(s)
    case _ => Invalid
  }

  function PyMeanings(dims: seq<JsonDim>): (wants: seq<Want>)
    ensures |wants| == |dims| && forall i | 0 <= i < |dims| :: wants[i] == PyMeaning(dims[i])
  {
    seq(|dims|, i requires 0 <= i < |dims| => PyMeaning(dims[i]))
  }

  function PySpecMeanings(specs: seq<Spec<JsonDim>>): (wants: seq<Spec<Want>>)
    ensures |wants| == |specs|
    ensures forall i | 0 <= i < |specs| ::
              wants[i] == Spec(specs[i].name, PyMeanings(specs[i].dims), specs[i].tensorType)
  {
    seq(|specs|, i requires 0 <= i < |specs| => Spec(specs[i].name, PyMeanings(specs[i].dims), specs[i].tensorType))
  }

  method PyCheckShape(expected: seq<JsonDim>, dims: seq<int>, before: Symbols) returns (ok: bool, known: Symbols)
    requires |expected| == |dims|
    ensures Extends(known, before)
    ensures ok ==> ShapeFits(known, PyMeanings(expected), dims)
    ensures forall env :: Extends(env, before) && ShapeFits(env, PyMeanings(expected), dims) ==>
              ok && Extends(env, known)
  {
    known := before;
    var i := 0;
    while i < |expected|
      invariant 0 <= i <= |dims| && Extends(known, before)
      invariant ShapeFits(known, PyMeanings(expected)[..i], dims[..i])
      invariant forall env :: Extends(env, before) && ShapeFits(env, PyMeanings(expected), dims) ==> Extends(env, known)
    {
      var dim := dims[i];
      ghost var former := known;
      ForcedDim(PyMeanings(expected), dims, i);
      match expected[i] {
        case Null =>
        case Integer(n) =>
          if dim != n {
            return false, known;
          }
        case Boolean(b) =>
          if dim != (if b then 1 else 0) {
            return false, known;
          }
        case Text(s) =>
          if s in known {
            if dim != known[s] {
              return false, known;
            }
          } else {
            known := known[s := dim];
          }
        case _ =>
          return false, known;
      }
      ShapeFitsExtended(known, former, PyMeanings(expected)[..i], dims[..i]);
      i := i + 1;
    }
    assert PyMeanings(expected)[..i] == PyMeanings(expected) && dims[..i] == dims;
    ok := true;
  }

  method PyValidateTensorsAgainstSpecs(tensors: map<string, Tensor>, specs: seq<Spec<JsonDim>>) returns (ok: bool)
    ensures ok <==> Acceptable(PySpecMeanings(specs), tensors)
  {
    ghost var wants := PySpecMeanings(specs);
    var specTensorNames := set spec | spec in specs :: spec.name;
    var unknown := tensors.Keys - specTensorNames;
    PyNames(specs);
    if unknown != {} {
      ghost var name :| name in unknown;
      assert name in tensors.Keys && !Known(name, wants);
      return false;
    }
    var symbols: Symbols := map[];
    var i := 0;
    while i < |specs|
      invariant 0 <= i <= |specs|
      invariant AllFit(symbols, wants[..i], tensors)
      invariant forall env :: AllFit(env, wants, tensors) ==> Extends(env, symbols)
    {
      var spec := specs[i];
      assert wants[..i + 1] == wants[..i] + [wants[i]] && wants[i] in wants;
      if spec.name in tensors {
        var tensor := tensors[spec.name];
        if tensor.tensorType != spec.tensorType || |tensor.dims| != |spec.dims| {
          return false;
        }
        ghost var former := symbols;
        var fits;
        fits, symbols := PyCheckShape(spec.dims, tensor.dims, symbols);
        if !fits {
          return false;
        }
        StillFit(symbols, former, wants[..i], tensors);
      }
      i := i + 1;
    }
    assert wants[..i] == wants;
    forall name | name in tensors.Keys
      ensures Known(name, wants)
    {
      assert name !in unknown;
    }
    return true;
  }

  lemma PyNames(specs: seq<Spec<JsonDim>>)
    ensures forall name :: Known(name, PySpecMeanings(specs)) <==> name in set spec | spec in specs :: spec.name
  {
    var wants := PySpecMeanings(specs);
    forall name | name in set spec | spec in specs :: spec.name
      ensures Known(name, wants)
    {
      var i :| 0 <= i < |specs| && specs[i].name == name;
      assert wants[i] in wants;
    }
    forall name | Known(name, wants)
      ensures name in set spec | spec in specs :: spec.name
    {
      var i :| 0 <= i < |wants| && wants[i].name == name;
      assert specs[i] in specs;
    }
  }

  // --------------------------------------------------------------- Agreement of the two

  /** JsonCpp calls a number an int when its value is one of 32 bits, also if it is written as a real. */
  predicate IsInt(d: JsonDim) {
    (d.Integer? || d.Real?) && -INT32_LIMIT <= d.n < INT32_LIMIT
  }

  predicate CppLoadable(d: JsonDim) {
    d.Null? || d.Text? || (IsInt(d) && d.n > 0)
  }

  function LoadedMeaning(d: JsonDim): Want {
    if d.Real? then Exactly(d.n) else PyMeaning(d)
  }

  /** get_dims_from_json; None where it throws. */
  method GetDimsFromJson(shape: seq<JsonDim>) returns (r: Option<seq<Dimension>>)
    ensures r.Some? <==> forall d <- shape :: CppLoadable(d)
    ensures r.Some? ==>
              && |r.value| == |shape|
              && forall i | 0 <= i < |shape| :: Meaning(r.value[i]) == LoadedMeaning(shape[i])
  {
    var out: seq<Dimension> := [];
    while |out| < |shape|
      invariant |out| <= |shape|
      invariant forall i | 0 <= i < |out| :: CppLoadable(shape[i]) && Meaning(out[i]) == LoadedMeaning(shape[i])
    {
      var item := shape[|out|];
      if IsInt(item) && item.n > 0 {
        out := out + [Dimension(item.n, "")];
      } else if item.Null? {
        out := out + [Dimension(-1, "")];
      } else if item.Text? {
        out := out + [Dimension(-2, item.s)];
      } else {
        assert item in shape;
        return None;
      }
    }
    return Some(out);
  }

  predicate PyLoadable(d: JsonDim) {
    d.Null? || d.Text? || (d.Integer? && d.n > 0)
  }

  /** The loop over a shape in validate_tensor_spec; `ok` is false where it raises. */
  method ValidateShape(shape: seq<JsonDim>) returns (ok: bool)
    ensures ok <==> forall d <- shape :: PyLoadable(d)
  {
    var i := 0;
    while i < |shape|
      invariant 0 <= i <= |shape| && forall d <- shape[..i] :: PyLoadable(d)
    {
      var dim := shape[i];
      var isUint := !dim.Boolean? && dim.Integer? && dim.n > 0;
      if !(dim.Null? || isUint || dim.Text?) {
        assert dim in shape;
        return false;
      }
      i := i + 1;
    }
    assert shape[..i] == shape;
    return true;
  }

  /** The two sides load the same dims, but for integers beyond 32 bits and for reals with integral values. */
  lemma LoadersAgreeIff(d: JsonDim)
    ensures (CppLoadable(d) <==> PyLoadable(d))
            <==> !(d.Integer? && d.n >= INT32_LIMIT) && !(d.Real? && 0 < d.n < INT32_LIMIT)
  {
  }

  predicate AllDims(config: seq<Spec<JsonDim>>, loadable: JsonDim -> bool) {
    forall spec <- config :: forall d <- spec.dims :: loadable(d)
  }

  /** Spelled out: all names are in the specs, and one size for each symbol makes every given tensor match. */
  ghost predicate Matches(config: seq<Spec<JsonDim>>, tensors: map<string, Tensor>) {
    && (forall name <- tensors :: exists spec :: spec in config && spec.name == name)
    && exists sizes: map<string, int> :: MatchesWith(config, tensors, sizes)
  }

  ghost predicate MatchesWith(config: seq<Spec<JsonDim>>, tensors: map<string, Tensor>, sizes: map<string, int>) {
    forall spec <- config :: spec.name in tensors ==>
      var tensor := tensors[spec.name];
      && tensor.tensorType == spec.tensorType && |tensor.dims| == |spec.dims|
      && (forall i | 0 <= i < |spec.dims| && spec.dims[i].Integer? :: tensor.dims[i] == spec.dims[i].n)
      && (forall i | 0 <= i < |spec.dims| && spec.dims[i].Text? ::
            spec.dims[i].s in sizes && tensor.dims[i] == sizes[spec.dims[i].s])
  }

  lemma NamesMean(config: seq<Spec<JsonDim>>, tensors: map<string, Tensor>)
    ensures NamesKnown(PySpecMeanings(config), tensors)
            <==> forall name <- tensors :: exists spec :: spec in config && spec.name == name
  {
    PyNames(config);
    var names := set spec | spec in config :: spec.name;
    forall name
      ensures name in names <==> exists spec :: spec in config && spec.name == name
    {
    }
  }

  lemma FitMeans(spec: Spec<JsonDim>, tensor: Tensor, sizes: Symbols)
    requires forall d <- spec.dims :: PyLoadable(d)
    ensures ShapeFits(sizes, PyMeanings(spec.dims), tensor.dims) <==>
              && |tensor.dims| == |spec.dims|
              && (forall i | 0 <= i < |spec.dims| && spec.dims[i].Integer? :: tensor.dims[i] == spec.dims[i].n)
              && (forall i | 0 <= i < |spec.dims| && spec.dims[i].Text? ::
                    spec.dims[i].s in sizes && tensor.dims[i] == sizes[spec.dims[i].s])
  {
    forall i | 0 <= i < |spec.dims| && |tensor.dims| == |spec.dims|
      ensures DimFits(sizes, PyMeanings(spec.dims)[i], tensor.dims[i]) <==>
                && (spec.dims[i].Integer? ==> tensor.dims[i] == spec.dims[i].n)
                && (spec.dims[i].Text? ==> spec.dims[i].s in sizes && tensor.dims[i] == sizes[spec.dims[i].s])
    {
      assert spec.dims[i] in spec.dims;
    }
  }

  lemma AllFitMeans(config: seq<Spec<JsonDim>>, tensors: map<string, Tensor>, sizes: Symbols)
    requires AllDims(config, PyLoadable)
    ensures AllFit(sizes, PySpecMeanings(config), tensors) <==> MatchesWith(config, tensors, sizes)
  {
    var wants := PySpecMeanings(config);
    forall i | 0 <= i < |config| && config[i].name in tensors
      ensures SpecFits(sizes, wants[i], tensors) <==> MatchesWith([config[i]], tensors, sizes)
    {
      assert config[i] in config;
      FitMeans(config[i], tensors[config[i].name], sizes);
    }
    if AllFit(sizes, wants, tensors) {
      forall spec | spec in config && spec.name in tensors
        ensures MatchesWith([spec], tensors, sizes)
      {
        var i :| 0 <= i < |config| && config[i] == spec;
        assert wants[i] in wants;
      }
      assert forall spec <- config :: spec in [spec];
    }
    if MatchesWith(config, tensors, sizes) {
      forall want | want in wants
        ensures SpecFits(sizes, want, tensors)
      {
        var i :| 0 <= i < |wants| && wants[i] == want;
        assert config[i] in config;
      }
    }
  }

  /** On configurations that can be loaded, Acceptable means just that. */
  lemma AcceptableMeans(config: seq<Spec<JsonDim>>, tensors: map<string, Tensor>)
    requires AllDims(config, PyLoadable)
    ensures Acceptable(PySpecMeanings(config), tensors) <==> Matches(config, tensors)
  {
    NamesMean(config, tensors);
    forall sizes: Symbols
      ensures AllFit(sizes, PySpecMeanings(config), tensors) <==> MatchesWith(config, tensors, sizes)
    {
      AllFitMeans(config, tensors, sizes);
    }
  }

  /** Both sides read a configuration and validate the same tensors: if both can read it, they agree. */
  method BothValidate(tensors: map<string, Tensor>, config: seq<Spec<JsonDim>>)
    returns (cppLoaded: bool, pyLoaded: bool, cpp: bool, py: bool)
    ensures cppLoaded <==> AllDims(config, CppLoadable)
    ensures pyLoaded <==> AllDims(config, PyLoadable)
    ensures cppLoaded && pyLoaded ==> cpp == py && (cpp <==> Acceptable(PySpecMeanings(config), tensors))
    ensures cppLoaded && pyLoaded ==> (cpp <==> Matches(config, tensors))
  {
    pyLoaded := ReadPython(config);
    if pyLoaded {
      AcceptableMeans(config, tensors);
    }
    py := PyValidateTensorsAgainstSpecs(tensors, config);
    cpp := false;
    var specs := ReadCpp(config);
    cppLoaded := specs.Some?;
    if cppLoaded {
      cpp := ValidateTensorsAgainstSpecs(tensors, specs.value);
      if pyLoaded {
        SameMeanings(specs.value, config);
      }
    }
  }

  method ReadPython(config: seq<Spec<JsonDim>>) returns (ok: bool)
    ensures ok <==> AllDims(config, PyLoadable)
  {
    var i := 0;
    while i < |config|
      invariant 0 <= i <= |config| && AllDims(config[..i], PyLoadable)
    {
      ok := ValidateShape(config[i].dims);
      if !ok {
        assert config[i] in config;
        return false;
      }
      i := i + 1;
    }
    assert config[..i] == config;
    return true;
  }

  predicate Reads(spec: Spec<Dimension>, source: Spec<JsonDim>) {
    && spec.name == source.name && spec.tensorType == source.tensorType && |spec.dims| == |source.dims|
    && forall i | 0 <= i < |source.dims| :: Meaning(spec.dims[i]) == LoadedMeaning(source.dims[i])
  }

  method ReadCpp(config: seq<Spec<JsonDim>>) returns (r: Option<seq<Spec<Dimension>>>)
    ensures r.Some? <==> AllDims(config, CppLoadable)
    ensures r.Some? ==> |r.value| == |config| && forall i | 0 <= i < |config| :: Reads(r.value[i], config[i])
  {
    var specs: seq<Spec<Dimension>> := [];
    while |specs| < |config|
      invariant |specs| <= |config| && AllDims(config[..|specs|], CppLoadable)
      invariant forall i | 0 <= i < |specs| :: Reads(specs[i], config[i])
    {
      var spec := config[|specs|];
      var dims := GetDimsFromJson(spec.dims);
      if dims.None? {
        assert spec in config;
        return None;
      }
      specs := specs + [Spec(spec.name, dims.value, spec.tensorType)];
    }
    assert config[..|specs|] == config;
    return Some(specs);
  }

  /** What both sides load means the same to both. */
  lemma SameMeanings(specs: seq<Spec<Dimension>>, config: seq<Spec<JsonDim>>)
    requires |specs| == |config| && forall i | 0 <= i < |config| :: Reads(specs[i], config[i])
    requires AllDims(config, PyLoadable)
    ensures SpecMeanings(specs) == PySpecMeanings(config)
  {
    forall i | 0 <= i < |config|
      ensures Meanings(specs[i].dims) == PyMeanings(config[i].dims)
    {
      assert Reads(specs[i], config[i]) && config[i] in config;
      forall k | 0 <= k < |config[i].dims|
        ensures Meanings(specs[i].dims)[k] == PyMeanings(config[i].dims)[k]
      {
        assert config[i].dims[k] in config[i].dims;
        assert PyLoadable(config[i].dims[k]);
      }
    }
  }

  // ------------------------------------------------- Specs that no loader has looked at

  predicate Plain(d: JsonDim) {
    d.Null? || d.Integer? || d.Text?
  }

  function Direct(d: JsonDim): Dimension
    requires Plain(d)
  {
    match d
    case Null => Dimension(-1, "")
    case Integer(n) => Dimension(n, "")
    case Text(s) => Dimension(-2, s)
  }

  function DirectMeanings(dims: seq<JsonDim>): (wants: seq<Want>)
    requires forall d <- dims :: Plain(d)
    ensures |wants| == |dims|
  {
    Meanings(seq(|dims|, i requires 0 <= i < |dims| => Direct(dims[i])))
  }

  ghost predicate Fits(wants: seq<Want>, dims: seq<int>) {
    exists env: Symbols :: ShapeFits(env, wants, dims)
  }

  /** Validation of one tensor against a spec with these dims. */
  ghost predicate Accepts(wants: seq<Want>, dims: seq<int>) {
    Acceptable([Spec("x", wants, Float)], map["x" := Tensor(Float, dims)])
  }

  lemma OneTensor(wants: seq<Want>, dims: seq<int>)
    ensures Accepts(wants, dims) <==> Fits(wants, dims)
  {
    var specs, tensors := [Spec("x", wants, Float)], map["x" := Tensor(Float, dims)];
    assert specs[0] in specs && Known("x", specs);
    forall env: Symbols
      ensures AllFit(env, specs, tensors) <==> ShapeFits(env, wants, dims)
    {
      assert AllFit(env, specs, tensors) ==> SpecFits(env, specs[0], tensors);
    }
  }

  predicate IsShape(dims: seq<int>) {
    forall i | 0 <= i < |dims| :: dims[i] >= 0
  }

  /** The validators agree on every shape. */
  ghost predicate SameForShapes(dims: seq<JsonDim>)
    requires forall d <- dims :: Plain(d)
  {
    forall shape | IsShape(shape) :: Accepts(DirectMeanings(dims), shape) == Accepts(PyMeanings(dims), shape)
  }

  predicate HasInteger(dims: seq<JsonDim>, p: int -> bool) {
    exists d <- dims :: d.Integer? && p(d.n)
  }

  /** A shape that the dims let through as far as they can. */
  function Sample(dims: seq<JsonDim>): (shape: seq<int>)
    ensures |shape| == |dims| && IsShape(shape)
  {
    seq(|dims|, i requires 0 <= i < |dims| => if dims[i].Integer? && dims[i].n > 0 then dims[i].n else 0)
  }

  function SymbolsOf(dims: seq<JsonDim>): set<string> {
    (set d | d in dims && d.Text? :: d.s) + {""}
  }

  function ZeroSymbols(dims: seq<JsonDim>): Symbols {
    map s | s in SymbolsOf(dims) :: 0
  }

  lemma CppTakesSample(dims: seq<JsonDim>)
    requires (forall d <- dims :: Plain(d)) && !HasInteger(dims, n => n == 0)
    ensures Fits(DirectMeanings(dims), Sample(dims))
  {
    var env := ZeroSymbols(dims);
    forall i | 0 <= i < |dims|
      ensures DimFits(env, DirectMeanings(dims)[i], Sample(dims)[i])
    {
      assert dims[i] in dims;
      assert DirectMeanings(dims)[i] == Meaning(Direct(dims[i]));
    }
    assert ShapeFits(env, DirectMeanings(dims), Sample(dims));
  }

  lemma PythonTakesSample(dims: seq<JsonDim>)
    requires (forall d <- dims :: Plain(d)) && !HasInteger(dims, n => n < 0)
    ensures Fits(PyMeanings(dims), Sample(dims))
  {
    var env := ZeroSymbols(dims);
    forall i | 0 <= i < |dims|
      ensures DimFits(env, PyMeanings(dims)[i], Sample(dims)[i])
    {
      assert dims[i] in dims;
    }
    assert ShapeFits(env, PyMeanings(dims), Sample(dims));
  }

  lemma CppRefusesZero(dims: seq<JsonDim>, shape: seq<int>)
    requires (forall d <- dims :: Plain(d)) && HasInteger(dims, n => n == 0)
    ensures !Fits(DirectMeanings(dims), shape)
  {
    var i :| 0 <= i < |dims| && dims[i].Integer? && dims[i].n == 0;
    assert DirectMeanings(dims)[i] == Invalid;
    forall env: Symbols
      ensures !ShapeFits(env, DirectMeanings(dims), shape)
    {
      if |shape| == |dims| {
        assert !DimFits(env, DirectMeanings(dims)[i], shape[i]);
      }
    }
  }

  lemma PythonRefusesNegative(dims: seq<JsonDim>, shape: seq<int>)
    requires HasInteger(dims, n => n < 0) && IsShape(shape)
    ensures !Fits(PyMeanings(dims), shape)
  {
    var i :| 0 <= i < |dims| && dims[i].Integer? && dims[i].n < 0;
    forall env: Symbols
      ensures !ShapeFits(env, PyMeanings(dims), shape)
    {
      if |shape| == |dims| {
        assert !DimFits(env, PyMeanings(dims)[i], shape[i]);
      }
    }
  }

  /**
    Given dims of any rank that no loader has looked at, the two agree on every shape if and only if
    all integers are positive, or both refuse everything: C++ because of a zero, Python because of a
    negative dim.
   */
  lemma IntegerDimsAgreeIff(dims: seq<JsonDim>)
    requires forall d <- dims :: Plain(d)
    ensures SameForShapes(dims) <==> (HasInteger(dims, n => n == 0) <==> HasInteger(dims, n => n < 0))
  {
    forall shape: seq<int>
      ensures Accepts(DirectMeanings(dims), shape) <==> Fits(DirectMeanings(dims), shape)
      ensures Accepts(PyMeanings(dims), shape) <==> Fits(PyMeanings(dims), shape)
    {
      OneTensor(DirectMeanings(dims), shape);
      OneTensor(PyMeanings(dims), shape);
    }
    var zero, negative := HasInteger(dims, n => n == 0), HasInteger(dims, n => n < 0);
    if zero && negative {
      forall shape | IsShape(shape)
        ensures !Fits(DirectMeanings(dims), shape) && !Fits(PyMeanings(dims), shape)
      {
        CppRefusesZero(dims, shape);
        PythonRefusesNegative(dims, shape);
      }
    } else if zero {
      CppRefusesZero(dims, Sample(dims));
      PythonTakesSample(dims);
    } else if negative {
      CppTakesSample(dims);
      PythonRefusesNegative(dims, Sample(dims));
    } else {
      forall i | 0 <= i < |dims|
        ensures DirectMeanings(dims)[i] == PyMeanings(dims)[i]
      {
        assert dims[i] in dims;
      }
      assert DirectMeanings(dims) == PyMeanings(dims);
    }
  }
}

/**
 * The example module `the_greatest_module`: a free function, a class
 * hierarchy whose pure virtual `f` can be overridden from the host runtime,
 * a process-wide `shared_ptr<Base>`, the fill loops of `make_array`, and the
 * two ways of converting the native class `X`.
 */
module GreatestModule {
  import opened Wrappers
  import opened Exceptions
  import Decimal
  import Host

  /** `add(x, y)`. */
  function Add(x: int, y: int): (r: int)
    ensures r == x + y
  {
    x + y
  }

  // ---------------------------------------------------------------------------
  // Base, Derived, PyBase

  const DerivedPrefix := "Derived("
  const ExpiredMessage := "PyBase.f(): weak reference expired!"
  const PureVirtualMessage := "Base.f: pure virtual, but not defined in subclass"
  const BaseFWhere := "Base.f"

  /** `_der_name(m)`: the name a `Derived(m)` carries. */
  function DerName(m: int): (s: string)
    ensures |s| > |DerivedPrefix| && s[..|DerivedPrefix|] == DerivedPrefix && s[|s| - 1] == ')'
  {
    DerivedPrefix + Decimal.IntToDecimal(m) + ")"
  }

  /** Reads back the number a `Derived` name was made from. */
  function ParseDerName(s: string): Option<int>
  {
    if |s| > |DerivedPrefix| && s[..|DerivedPrefix|] == DerivedPrefix && s[|s| - 1] == ')'
    then Decimal.ParseInt(s[|DerivedPrefix|..|s| - 1])
    else None
  }

  lemma DerNameRoundTrip(m: int)
    ensures ParseDerName(DerName(m)) == Some(m)
  {
    var s := DerName(m);
    assert s[|DerivedPrefix|..|s| - 1] == Decimal.IntToDecimal(m);
    Decimal.IntRoundTrip(m);
  }

  /** Two `Derived` objects with different `m` have different names. */
  lemma DerNameInjective(a: int, b: int)
    ensures DerName(a) == DerName(b) ==> a == b
  {
    DerNameRoundTrip(a);
    DerNameRoundTrip(b);
  }

  /** A weak reference to a host object (`py_weakref`, not part of this model). */
  type WeakRef = nat

  /** What calling a host callable does: it raises (returns null), or returns an object of the given type. */
  datatype CallOutcome = Raised | Returned(value: Host.Tag)

  /**
   * What a weak reference dereferences to: `None` once the referent is gone,
   * otherwise the referent, seen through its attribute `f` (absent, or a
   * callable taking the items of a positional-argument tuple).
   */
  datatype Referent = Expired | Alive(attrF: Option<seq<Host.Tag> -> CallOutcome>)

  /**
   * A `Base` object.  `Derived(m)` is the native subclass; `PyBase` stands for
   * a subclass written in the host language and keeps only its name and a
   * weak reference to its host-side self.
   */
  datatype Base = Derived(m: int) | PyBase(name: string, self: WeakRef)

  /** `Base::get_name()`. */
  function Name(b: Base): (s: string)
    ensures b.Derived? ==> s == DerName(b.m)
    ensures b.PyBase? ==> s == b.name
  {
    match b
    case Derived(m) => DerName(m)
    case PyBase(name, _) => name
  }

  /** `converter<ssize_t>::from_python(obj, where)`: an int converts; anything else throws with the label. */
  function IntFromPython(v: Host.Tag, where: string): (r: Result<int, Exception>)
    ensures v.IntType? ==> r == Success(v.value)
    ensures !v.IntType? ==> r == Failure(ConversionError(where))
  {
    if v.IntType? then Success(v.value) else Failure(ConversionError(where))
  }

  /**
   * `PyBase::f(n)`: dereference the weak reference, look up `f`, call it with
   * the one-item tuple `(n)` and convert what it returns.
   */
  function PyBaseF(obj: Referent, n: int): (r: Result<int, Exception>)
    ensures obj.Expired? ==> r == Failure(RuntimeError(ExpiredMessage))
    ensures obj.Alive? && obj.attrF.None? ==> r == Failure(RuntimeError(PureVirtualMessage))
    ensures obj.Alive? && obj.attrF.Some? && obj.attrF.value([Host.IntType(n)]).Raised? ==> r == Failure(PyErrOccurred)
    ensures obj.Alive? && obj.attrF.Some? && obj.attrF.value([Host.IntType(n)]).Returned?
            ==> r == IntFromPython(obj.attrF.value([Host.IntType(n)]).value, BaseFWhere)
  {
    match obj
    case Expired => Failure(RuntimeError(ExpiredMessage))
    case Alive(attrF) =>
      if attrF.None? then Failure(RuntimeError(PureVirtualMessage))
      else
        match attrF.value([Host.IntType(n)])
        case Raised => Failure(PyErrOccurred)
        case Returned(v) => IntFromPython(v, BaseFWhere)
  }

  /** The override is asked exactly one question: what it answers for the arguments `(n)`. */
  lemma PyBaseFOnlyAsksOnce(g1: seq<Host.Tag> -> CallOutcome, g2: seq<Host.Tag> -> CallOutcome, n: int)
    requires g1([Host.IntType(n)]) == g2([Host.IntType(n)])
    ensures PyBaseF(Alive(Some(g1)), n) == PyBaseF(Alive(Some(g2)), n)
  {
  }

  /** An override that returns an int makes `PyBase::f` return that int. */
  lemma PyBaseFReturnsOverride(g: seq<Host.Tag> -> CallOutcome, n: int, v: int)
    requires g([Host.IntType(n)]) == Returned(Host.IntType(v))
    ensures PyBaseF(Alive(Some(g)), n) == Success(v)
  {
  }

  /**
   * The virtual `f(n)`, dispatched on the dynamic class.  `deref` is the host's
   * answer to dereferencing each weak reference.
   */
  function F(b: Base, deref: WeakRef -> Referent, n: int): (r: Result<int, Exception>)
    ensures b.Derived? ==> r == Success(b.m + n)
    ensures b.PyBase? ==> r == PyBaseF(deref(b.self), n)
  {
    match b
    case Derived(m) => Success(m + n)
    case PyBase(_, self) => PyBaseF(deref(self), n)
  }

  /** `Base::f_cpp(n)`: the call goes through the virtual `f` of the same object. */
  function FCpp(b: Base, deref: WeakRef -> Referent, n: int): (r: Result<int, Exception>)
    ensures r == F(b, deref, n)
  {
    F(b, deref, n)
  }

  /** `Derived(m)` is named after `m`, and both its `f` and its `f_cpp` add `m`. */
  lemma DerivedBehaviour(m: int, deref: WeakRef -> Referent, n: int)
    ensures ParseDerName(Name(Derived(m))) == Some(m)
    ensures F(Derived(m), deref, n) == FCpp(Derived(m), deref, n) == Success(m + n)
  {
    assert F(Derived(m), deref, n) == Success(m + n);
    DerNameRoundTrip(m);
  }

  /** The process-wide `g_Base` of the module, empty at load time. */
  class GlobalBase {
    var current: Option<Base>

    constructor ()
      ensures current == None
    {
      current := None;
    }

    /** `set_global_Base(b)`. */
    method Set(b: Base)
      modifies this
      ensures current == Some(b)
    {
      current := Some(b);
    }

    /** `clear_global_Base()`. */
    method Clear()
      modifies this
      ensures current == None
    {
      current := None;
    }

    /** `f_global_Base(n)`: 0 when nothing is held, otherwise the held object's `f(n)`. */
    method FGlobal(deref: WeakRef -> Referent, n: int) returns (r: Result<int, Exception>)
      ensures current.None? ==> r == Success(0)
      ensures current.Some? ==> r == F(current.value, deref, n)
    {
      if current.None? {
        return Success(0);
      }
      r := F(current.value, deref, n);
    }
  }

  /** After `set_global_Base(b)`, `f_global_Base` is `b.f`; after `clear_global_Base()`, it is 0. */
  method SetThenClear(g: GlobalBase, b: Base, deref: WeakRef -> Referent, n: int)
      returns (whileSet: Result<int, Exception>, afterClear: Result<int, Exception>)
    modifies g
    ensures whileSet == F(b, deref, n) && afterClear == Success(0)
    ensures g.current == None
  {
    g.Set(b);
    whileSet := g.FGlobal(deref, n);
    g.Clear();
    afterClear := g.FGlobal(deref, n);
  }

  // ---------------------------------------------------------------------------
  // make_array

  const NotContiguousMessage := "make_array: rs_array was not fully contiguous as expected"

  /** Every item of `dims` converts to an integer. */
  predicate AllInts(dims: seq<Host.Tag>) {
    forall i :: 0 <= i < |dims| ==> dims[i].IntType?
  }

  /** The number of elements of an array of the given shape. */
  function Product(shape: seq<int>): int
  {
    if shape == [] then 1 else shape[0] * Product(shape[1..])
  }

  /**
   * The shape loop of `make_array`: `shape[i]` is item `i` of the tuple,
   * converted to an integer (with no label); the first item that is not an
   * int throws.
   */
  method ShapeFromDims(dims: seq<Host.Tag>) returns (r: Result<seq<int>, Exception>)
    ensures r.Success? <==> AllInts(dims)
    ensures r.Success? ==> |r.value| == |dims| && forall i :: 0 <= i < |dims| ==> r.value[i] == dims[i].value
    ensures r.Failure? ==> r.error == ConversionError("")
  {
    var shape := new int[|dims|];
    var i := 0;
    while i < |dims|
      invariant 0 <= i <= |dims|
      invariant forall j :: 0 <= j < i ==> dims[j].IntType? && shape[j] == dims[j].value
    {
      var c := IntFromPython(dims[i], "");
      if c.Failure? {
        return Failure(c.error);
      }
      shape[i] := c.value;
      i := i + 1;
    }
    return Success(shape[..]);
  }

  /** The fill loop of `make_array`: element `i` becomes `100 * i`. */
  method FillRamp(data: array<int>)
    modifies data
    ensures forall i :: 0 <= i < data.Length ==> data[i] == 100 * i
  {
    var i := 0;
    while i < data.Length
      invariant 0 <= i <= data.Length
      invariant forall j :: 0 <= j < i ==> data[j] == 100 * j
    {
      data[i] := 100 * i;
      i := i + 1;
    }
  }

  /**
   * `make_array(dims)`.  The array library is an oracle: `allocOk` says
   * whether `rs_array<int>(ndims, shape)` succeeds, and `ncontig` is the
   * contiguity it reports.  On success the data is the ramp `100 * i` over
   * all `Product(shape)` elements.
   */
  method MakeArray(dims: seq<Host.Tag>, allocOk: bool, ncontig: int) returns (r: Result<array<int>, Exception>)
    ensures !AllInts(dims) ==> r == Failure(ConversionError(""))
    ensures AllInts(dims) && !allocOk ==> r == Failure(ForeignError)
    ensures AllInts(dims) && allocOk && ncontig != |dims| ==> r == Failure(RuntimeError(NotContiguousMessage))
    ensures r.Success? <==> AllInts(dims) && allocOk && ncontig == |dims|
    ensures r.Success? ==> fresh(r.value)
    ensures r.Success? ==> var shape := seq(|dims|, i requires 0 <= i < |dims| => dims[i].value);
                          r.value.Length == if Product(shape) < 0 then 0 else Product(shape)
    ensures r.Success? ==> forall i :: 0 <= i < r.value.Length ==> r.value[i] == 100 * i
  {
    var shape := ShapeFromDims(dims);
    if shape.Failure? {
      return Failure(shape.error);
    }
    if !allocOk {
      return Failure(ForeignError);
    }
    if ncontig != |dims| {
      return Failure(RuntimeError(NotContiguousMessage));
    }
    assert shape.value == seq(|dims|, i requires 0 <= i < |dims| => dims[i].value);
    var size := Product(shape.value);
    var data := new int[if size < 0 then 0 else size];
    FillRamp(data);
    return Success(data);
  }

  // ---------------------------------------------------------------------------
  // Converting X

  /** The native class `X`. */
  class X {
    const x: int

    constructor (x: int)
      ensures this.x == x
    {
      this.x := x;
    }

    /** `X::get()`. */
    function Get(): (r: int)
      ensures r == x
    {
      x
    }
  }

  /** A host-side instance of the extension type for `X`: it owns a `shared_ptr<X>`. */
  class XInstance {
    const held: X

    constructor (p: X)
      ensures held == p
    {
      held := p;
    }
  }

  /** `converter<X>::to_python(x)`: wraps a fresh copy of `x`. */
  method XToPython(v: X) returns (obj: XInstance)
    ensures fresh(obj) && fresh(obj.held) && obj.held.x == v.x
  {
    var copy := new X(v.x);
    obj := new XInstance(copy);
  }

  /** `converter<X>::from_python(obj)`: returns a copy of the wrapped `X`. */
  method XFromPython(obj: XInstance) returns (v: X)
    ensures fresh(v) && v.x == obj.held.x
  {
    v := new X(obj.held.x);
  }

  /** `converter<shared_ptr<X>>::to_python(p)`: wraps `p` itself. */
  method SharedXToPython(p: X) returns (obj: XInstance)
    ensures fresh(obj) && obj.held == p
  {
    obj := new XInstance(p);
  }

  /** `converter<shared_ptr<X>>::from_python(obj)`: the wrapped pointer itself. */
  method SharedXFromPython(obj: XInstance) returns (p: X)
    ensures p == obj.held
  {
    p := obj.held;
  }

  /** A by-value round trip keeps the value but never the object. */
  method ValueRoundTrip(v: X) returns (w: X)
    ensures w.x == v.x && w != v
  {
    var obj := XToPython(v);
    w := XFromPython(obj);
  }

  /** A `shared_ptr` round trip gives back the very same object. */
  method SharedRoundTrip(p: X) returns (q: X)
    ensures q == p
  {
    var obj := SharedXToPython(p);
    q := SharedXFromPython(obj);
  }

  /**
   * `clone_Xp` as the host sees it: the argument is unwrapped to its
   * `shared_ptr<X>`, returned unchanged, and wrapped again, so the result
   * holds the same `X` as the argument.
   */
  method CloneXp(obj: XInstance) returns (out: XInstance)
    ensures out.held == obj.held
  {
    var p := SharedXFromPython(obj);
    out := SharedXToPython(p);
  }
}

/**
 * `extension_module`: accumulates the functions of a host-runtime module and
 * registers them, once, with `Py_InitModule3`.
 */
module ExtensionModules {
  import opened Wrappers
  import opened Exceptions

  /** The calling-convention flags of CPython 2 (`METH_VARARGS`, `METH_KEYWORDS`). */
  const MethVarargs: bv32 := 0x0001
  const MethKeywords: bv32 := 0x0002

  /** The C entry point `make_kwargs_cfunction` builds for a registered function (not part of this model). */
  type EntryPoint = nat

  /** A `PyMethodDef`; a field left zero (a null pointer) is `None`. */
  datatype MethodDef = MethodDef(name: Option<string>, meth: Option<EntryPoint>, flags: bv32, doc: Option<string>)

  /** The all-zero `PyMethodDef` that ends a method table. */
  const Sentinel := MethodDef(None, None, 0, None)

  const EmptyNameMessage := "pyclops: extension_module name must be a nonempty string"
  const AddAfterFinalizeMessage := "pyclops: extension_module::add_function() called after extension_module::finalize()"
  const DoubleFinalizeMessage := "pyclops: double call to extension_module::finalize()"
  const InitFailedMessage := "pyclops: Py_InitModule3() failed"

  /** The entry `add_function` records: copies of name and docstring, keyword calling convention. */
  function Entry(name: string, doc: string, func: EntryPoint): (m: MethodDef)
    ensures m != Sentinel && m.name == Some(name) && m.doc == Some(doc)
    ensures m.flags == MethVarargs | MethKeywords && m.flags & MethKeywords != 0
  {
    MethodDef(Some(name), Some(func), MethVarargs | MethKeywords, Some(doc))
  }

  /**
   * The `malloc` / `memset` / `memcpy` steps of `finalize`: a table of n+1
   * entries whose first n are the registered entries in order and whose last
   * is all zero.
   */
  method MethodTable(methods: seq<MethodDef>) returns (mdefs: array<MethodDef>)
    ensures mdefs.Length == |methods| + 1
    ensures mdefs[..|methods|] == methods
    ensures mdefs[|methods|] == Sentinel
  {
    var n := |methods|;
    mdefs := new MethodDef[n + 1];
    for i := 0 to n + 1
      invariant forall j :: 0 <= j < i ==> mdefs[j] == Sentinel
    {
      mdefs[i] := Sentinel;
    }
    for i := 0 to n
      invariant forall j :: 0 <= j < i ==> mdefs[j] == methods[j]
      invariant mdefs[n] == Sentinel
    {
      mdefs[i] := methods[i];
    }
  }

  class ExtensionModule {
    const moduleName: string
    const moduleDocstring: string
    var moduleMethods: seq<MethodDef>
    var finalized: bool

    /** The name is non-empty and every recorded entry is a keyword-convention entry, never a sentinel. */
    ghost predicate Valid()
      reads this
    {
      && |moduleName| > 0
      && forall i :: 0 <= i < |moduleMethods| ==>
           moduleMethods[i].name.Some? && moduleMethods[i].flags == MethVarargs | MethKeywords
    }

    constructor Init(name: string, docstring: string)
      requires |name| > 0
      ensures Valid()
      ensures moduleName == name && moduleDocstring == docstring
      ensures moduleMethods == [] && !finalized
    {
      moduleName := name;
      moduleDocstring := docstring;
      moduleMethods := [];
      finalized := false;
    }

    /**
     * `extension_module(name, docstring)`: an empty name throws; otherwise the
     * module stores both strings, has no functions and is not finalized.
     */
    static method Create(name: string, docstring: string) returns (r: Result<ExtensionModule, Exception>)
      ensures name == [] ==> r == Failure(RuntimeError(EmptyNameMessage))
      ensures name != [] ==> && r.Success? && fresh(r.value) && r.value.Valid()
                             && r.value.moduleName == name && r.value.moduleDocstring == docstring
                             && r.value.moduleMethods == [] && !r.value.finalized
    {
      if |name| == 0 {
        return Failure(RuntimeError(EmptyNameMessage));
      }
      var m := new ExtensionModule.Init(name, docstring);
      return Success(m);
    }

    /**
     * `add_function(name, docstring, func)`: after `finalize` it throws and
     * the table is unchanged; before, it appends exactly one entry and leaves
     * the earlier ones alone.
     */
    method AddFunction(funcName: string, funcDocstring: string, func: EntryPoint) returns (ex: Outcome<Exception>)
      requires Valid()
      modifies this
      ensures Valid() && finalized == old(finalized)
      ensures old(finalized) ==> ex == Fail(RuntimeError(AddAfterFinalizeMessage)) && moduleMethods == old(moduleMethods)
      ensures !old(finalized) ==> ex == Pass && moduleMethods == old(moduleMethods) + [Entry(funcName, funcDocstring, func)]
    {
      if finalized {
        return Fail(RuntimeError(AddAfterFinalizeMessage));
      }
      moduleMethods := moduleMethods + [Entry(funcName, funcDocstring, func)];
      ex := Pass;
    }

    /** `add_function(name, func)`: the three-argument form with an empty docstring. */
    method AddFunctionWithoutDoc(funcName: string, func: EntryPoint) returns (ex: Outcome<Exception>)
      requires Valid()
      modifies this
      ensures Valid() && finalized == old(finalized)
      ensures old(finalized) ==> ex == Fail(RuntimeError(AddAfterFinalizeMessage)) && moduleMethods == old(moduleMethods)
      ensures !old(finalized) ==> ex == Pass && moduleMethods == old(moduleMethods) + [Entry(funcName, "", func)]
    {
      ex := AddFunction(funcName, "", func);
    }

    /**
     * `finalize()`: a second call throws.  Otherwise it hands `Py_InitModule3`
     * (the oracle `initOk`) the registered entries followed by a zeroed
     * sentinel; when the host call fails it throws and the module stays
     * unfinalized, and only a successful call marks it finalized.
     * `handedOver` is the table passed to the host (empty when nothing was).
     */
    method Finalize(initOk: bool) returns (ex: Outcome<Exception>, handedOver: seq<MethodDef>)
      requires Valid()
      modifies this
      ensures Valid() && moduleMethods == old(moduleMethods)
      ensures old(finalized) ==> ex == Fail(RuntimeError(DoubleFinalizeMessage)) && finalized && handedOver == []
      ensures !old(finalized) ==> handedOver == moduleMethods + [Sentinel]
      ensures !old(finalized) && !initOk ==> ex == Fail(RuntimeError(InitFailedMessage)) && !finalized
      ensures !old(finalized) && initOk ==> ex == Pass && finalized
    {
      if finalized {
        return Fail(RuntimeError(DoubleFinalizeMessage)), [];
      }
      var mdefs := MethodTable(moduleMethods);
      handedOver := mdefs[..];
      assert handedOver == handedOver[..|moduleMethods|] + [handedOver[|moduleMethods|]];
      if !initOk {
        return Fail(RuntimeError(InitFailedMessage)), handedOver;
      }
      finalized := true;
      ex := Pass;
    }
  }
}

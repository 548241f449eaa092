/**
 * The reference-counted handle wrapper `py_object` and its typed views
 * `py_tuple` and `py_dict`.
 *
 * The three C++ structs share one layout (a single `PyObject *ptr`) and
 * `py_tuple`, `py_dict` derive from `py_object`; here they are one class
 * whose constant `view` says which struct an instance is.  Every operation
 * states its exact effect on the host heap.
 */
module Core {
  import opened Wrappers
  import opened Exceptions
  import opened Host

  /** Which struct a wrapper is: `py_object`, `py_tuple` or `py_dict`. */
  datatype View = Plain | TupleView | DictView

  /** `PyTuple_Check` / `PyDict_Check` as a view's `_check` applies it; a plain `py_object` accepts anything. */
  predicate TagMatches(heap: Heap, h: Handle, view: View)
    requires h in heap
  {
    match view
    case Plain => true
    case TupleView => heap[h].tag.TupleType?
    case DictView => heap[h].tag.DictType?
  }

  /** The exception a view's `_throw` raises. */
  function ViewError(view: View): Exception
  {
    if view == DictView then DictTypeError else TupleTypeError
  }

  /**
   * The heap after `x` has been stored into slot `pos` of tuple `t` while the
   * caller keeps its own reference to `x`: the slot holds `x`, `x` gains the
   * slot's reference, the item the slot held before loses it (the two cancel
   * when `x` was already there), and nothing else changes.  `x` may be the
   * tuple itself.
   */
  ghost predicate StoredInto(h0: Heap, h1: Heap, t: Handle, pos: int, x: Handle)
    requires t in h0 && 0 <= pos < |h0[t].items|
  {
    var prev := h0[t].items[pos];
    && h1.Keys == h0.Keys
    && h1[t] == h0[t].(items := h0[t].items[pos := Ref(x)], refcnt := h0[t].refcnt + SlotGain(t, x, prev))
    && forall k :: k in h0 && k != t ==> h1[k] == h0[k].(refcnt := h0[k].refcnt + SlotGain(k, x, prev))
  }

  /** How the count of `k` changes when a slot holding `prev` is made to hold `x`. */
  function SlotGain(k: Handle, x: Handle, prev: Ptr): int
  {
    (if k == x then 1 else 0) - (if prev == Ref(k) then 1 else 0)
  }

  class PyObject {
    /** The held reference; null only after the object has been moved from or destroyed. */
    var ptr: Ptr
    const view: View

    ghost predicate Valid(rt: Interp)
      reads this, rt
    {
      rt.Valid() && Holds(rt.heap, ptr)
    }

    /** The member initialiser `ptr(x)`: holds `p` and touches no count. */
    constructor Wrap(p: Ptr, view: View)
      ensures ptr == p && this.view == view
    {
      ptr := p;
      this.view := view;
    }

    /**
     * `py_object(x, increment_refcount)`: a null `x` throws `pyerr_occurred`
     * and changes nothing; otherwise the new object holds `x`, whose count
     * rises by one when `incrementRefcount` holds and is left alone otherwise.
     */
    static method FromRaw(rt: Interp, x: Ptr, incrementRefcount: bool) returns (r: Result<PyObject, Exception>)
      requires rt.Valid() && Holds(rt.heap, x)
      modifies rt
      ensures rt.Valid() && rt.next == old(rt.next)
      ensures x.Null? ==> r == Failure(PyErrOccurred) && rt.heap == old(rt.heap)
      ensures x.Ref? ==> r.Success? && fresh(r.value) && r.value.ptr == x && r.value.view == Plain
      ensures x.Ref? ==> rt.heap == if incrementRefcount then IncRef(old(rt.heap), x.h) else old(rt.heap)
    {
      if x.Null? {
        return Failure(PyErrOccurred);
      }
      var o := new PyObject.Wrap(x, Plain);
      if incrementRefcount {
        rt.heap := IncRef(rt.heap, x.h);
      }
      return Success(o);
    }

    /** `borrowed_reference(x)`: shares `x`, so its count rises by exactly one. */
    static method BorrowedReference(rt: Interp, x: Ptr) returns (r: Result<PyObject, Exception>)
      requires rt.Valid() && Holds(rt.heap, x)
      modifies rt
      ensures rt.Valid() && rt.next == old(rt.next)
      ensures x.Null? ==> r == Failure(PyErrOccurred) && rt.heap == old(rt.heap)
      ensures x.Ref? ==> r.Success? && fresh(r.value) && r.value.ptr == x && r.value.view == Plain
      ensures x.Ref? ==> rt.heap == IncRef(old(rt.heap), x.h)
    {
      r := FromRaw(rt, x, true);
    }

    /** `new_reference(x)`: adopts a reference the caller already owns, so no count changes. */
    static method NewReference(rt: Interp, x: Ptr) returns (r: Result<PyObject, Exception>)
      requires rt.Valid() && Holds(rt.heap, x)
      modifies rt
      ensures rt.Valid() && rt.next == old(rt.next) && rt.heap == old(rt.heap)
      ensures x.Null? ==> r == Failure(PyErrOccurred)
      ensures x.Ref? ==> r.Success? && fresh(r.value) && r.value.ptr == x && r.value.view == Plain
    {
      r := FromRaw(rt, x, false);
    }

    /** `py_object()`: holds `Py_None`, borrowed, so the count of `Py_None` rises by one. */
    static method Default(rt: Interp) returns (o: PyObject)
      requires rt.Valid()
      modifies rt
      ensures rt.Valid() && rt.next == old(rt.next)
      ensures fresh(o) && o.ptr == Ref(rt.none) && o.view == Plain
      ensures rt.heap == IncRef(old(rt.heap), rt.none)
    {
      var r := FromRaw(rt, Ref(rt.none), true);
      o := r.value;
    }

    /**
     * `py_object(const py_object &x)`: shares `x`'s handle (+1).  Copying a
     * moved-from object meets a null handle and throws `pyerr_occurred`.
     */
    static method Copy(rt: Interp, x: PyObject) returns (r: Result<PyObject, Exception>)
      requires x.Valid(rt)
      modifies rt
      ensures rt.Valid() && rt.next == old(rt.next)
      ensures x.ptr.Null? ==> r == Failure(PyErrOccurred) && rt.heap == old(rt.heap)
      ensures x.ptr.Ref? ==> r.Success? && fresh(r.value) && r.value.ptr == x.ptr && r.value.view == Plain
      ensures x.ptr.Ref? ==> rt.heap == IncRef(old(rt.heap), x.ptr.h)
    {
      r := FromRaw(rt, x.ptr, true);
    }

    /**
     * `py_object(py_object &&x)`: takes `x`'s handle and leaves `x` null.  The
     * interpreter is not in the frame, so no count changes.
     */
    static method Move(x: PyObject) returns (r: PyObject)
      modifies x
      ensures fresh(r) && r.ptr == old(x.ptr) && r.view == Plain
      ensures x.ptr == Null
    {
      r := new PyObject.Wrap(x.ptr, Plain);
      x.ptr := Null;
    }

    /** `~py_object()`: releases a held handle (-1), does nothing for a null one, and leaves `ptr` null. */
    method Destroy(rt: Interp)
      requires Valid(rt)
      modifies this, rt
      ensures Valid(rt) && rt.next == old(rt.next)
      ensures ptr == Null
      ensures rt.heap == XDecRef(old(rt.heap), old(ptr))
      ensures old(ptr).Null? ==> rt.heap == old(rt.heap)
    {
      rt.heap := XDecRef(rt.heap, ptr);
      ptr := Null;
    }

    /** `_check()` of `py_tuple` / `py_dict`: passes exactly when the held object carries the view's tag. */
    method Check(rt: Interp) returns (ex: Outcome<Exception>)
      requires rt.Valid() && view != Plain && ptr.Ref? && ptr.h in rt.heap
      ensures ex.Pass? <==> TagMatches(rt.heap, ptr.h, view)
      ensures ex.Fail? ==> ex.error == ViewError(view)
    {
      if TagMatches(rt.heap, ptr.h, view) {
        ex := Pass;
      } else {
        ex := Fail(ViewError(view));
      }
    }

    /**
     * Copy-assignment `this = x`: increments the new handle, then decrements
     * the old one, then takes the new handle.  A view assigned from an object
     * of another struct (the declared `operator=(const py_object &)` of
     * `py_tuple` / `py_dict`) then runs `_check`, and on a mismatch throws
     * while still holding the new handle.  Between two objects of the same
     * struct the implicitly declared operator forwards to `py_object`'s and
     * runs no check.  Self-assignment changes nothing.
     */
    method CopyAssign(rt: Interp, x: PyObject) returns (ex: Outcome<Exception>)
      requires Valid(rt) && x.Valid(rt)
      requires view != Plain && x.view != view ==> x.ptr.Ref?  // `_check` dereferences the new handle
      modifies this, rt
      ensures Valid(rt) && rt.next == old(rt.next)
      ensures ptr == old(x.ptr)
      ensures rt.heap == XDecRef(XIncRef(old(rt.heap), old(x.ptr)), old(ptr))
      ensures x == this ==> rt.heap == old(rt.heap)
      ensures view == Plain || x.view == view ==> ex == Pass
      ensures view != Plain && x.view != view ==> (ex.Pass? <==> TagMatches(rt.heap, ptr.h, view))
      ensures ex.Fail? ==> ex.error == ViewError(view)
    {
      var p := x.ptr;
      rt.heap := XIncRef(rt.heap, p);
      rt.heap := XDecRef(rt.heap, ptr);
      ptr := p;
      if x == this {
        IncDecCancel(old(rt.heap), p);
      }
      if view == Plain || x.view == view {
        ex := Pass;
      } else {
        ex := Check(rt);
      }
    }

    /**
     * Move-assignment `this = std::move(x)`, as written: takes `x`'s handle
     * and nulls `x`, touching no count, so the handle held before is never
     * released.  A view moved into from an object of another struct then
     * runs `_check`; between two objects of the same struct the implicitly
     * declared operator forwards to `py_object`'s and runs no check.  Moving
     * an object into itself leaves it null.
     */
    method MoveAssign(rt: Interp, x: PyObject) returns (ex: Outcome<Exception>)
      requires Valid(rt) && x.Valid(rt)
      requires view != Plain && x.view != view ==> x.ptr.Ref?  // `_check` dereferences the new handle
      modifies this, x
      ensures Valid(rt)
      ensures x.ptr == Null
      ensures x != this ==> ptr == old(x.ptr)
      ensures view == Plain || x.view == view ==> ex == Pass
      ensures view != Plain && x.view != view ==> (ex.Pass? <==> TagMatches(rt.heap, ptr.h, view))
      ensures ex.Fail? ==> ex.error == ViewError(view)
    {
      ptr := x.ptr;
      x.ptr := Null;
      if view == Plain || x.view == view {
        ex := Pass;
      } else {
        ex := Check(rt);
      }
    }

    /**
     * Move-assignment as evidently intended: the handle held before is
     * released (-1) when a different object is moved in, and moving an
     * object into itself changes nothing; `_check` runs as in `MoveAssign`.
     */
    method MoveAssignReleasing(rt: Interp, x: PyObject) returns (ex: Outcome<Exception>)
      requires Valid(rt) && x.Valid(rt)
      requires view != Plain && x.view != view ==> x.ptr.Ref?
      modifies this, x, rt
      ensures Valid(rt) && rt.next == old(rt.next)
      ensures x != this ==> ptr == old(x.ptr) && x.ptr == Null && rt.heap == XDecRef(old(rt.heap), old(ptr))
      ensures x == this ==> ptr == old(ptr) && rt.heap == old(rt.heap)
      ensures view == Plain || x.view == view ==> ex == Pass
      ensures view != Plain && x.view != view ==> (ex.Pass? <==> TagMatches(rt.heap, ptr.h, view))
      ensures ex.Fail? ==> ex.error == ViewError(view)
    {
      if x != this {
        rt.heap := XDecRef(rt.heap, ptr);
        ptr := x.ptr;
        x.ptr := Null;
      }
      if view == Plain || x.view == view {
        ex := Pass;
      } else {
        ex := Check(rt);
      }
    }

    /**
     * The converting constructors `py_tuple(x)` / `py_dict(x)`, from `const
     * py_object &` and from `py_object &&` alike (the latter passes `x` on as
     * an lvalue, so it copies too and leaves `x` holding its handle): a null
     * handle throws `pyerr_occurred`; a handle of the wrong type throws the
     * view's type error after the base destructor has undone the increment;
     * otherwise the view shares the handle (+1).
     */
    static method ViewFrom(rt: Interp, x: PyObject, view: View) returns (r: Result<PyObject, Exception>)
      requires x.Valid(rt) && view != Plain
      modifies rt
      ensures rt.Valid() && rt.next == old(rt.next)
      ensures x.ptr.Null? ==> r == Failure(PyErrOccurred) && rt.heap == old(rt.heap)
      ensures x.ptr.Ref? && !TagMatches(old(rt.heap), x.ptr.h, view) ==>
                r == Failure(ViewError(view)) && rt.heap == old(rt.heap)
      ensures x.ptr.Ref? && TagMatches(old(rt.heap), x.ptr.h, view) ==>
                && r.Success? && fresh(r.value) && r.value.ptr == x.ptr && r.value.view == view
                && rt.heap == IncRef(old(rt.heap), x.ptr.h)
    {
      if x.ptr.Null? {
        return Failure(PyErrOccurred);
      }
      var h := x.ptr.h;
      rt.heap := IncRef(rt.heap, h);
      var v := new PyObject.Wrap(x.ptr, view);
      var ex := v.Check(rt);
      if ex.Fail? {
        v.Destroy(rt);
        IncDecCancel(old(rt.heap), x.ptr);
        return Failure(ex.error);
      }
      return Success(v);
    }

    /** `py_tuple(x)`: a tuple view of `x` (+1), or `pyerr_occurred` / the tuple type error with no count changed. */
    static method TupleFrom(rt: Interp, x: PyObject) returns (r: Result<PyObject, Exception>)
      requires x.Valid(rt)
      modifies rt
      ensures rt.Valid() && rt.next == old(rt.next)
      ensures x.ptr.Null? ==> r == Failure(PyErrOccurred) && rt.heap == old(rt.heap)
      ensures x.ptr.Ref? && !old(rt.heap)[x.ptr.h].tag.TupleType? ==>
                r == Failure(TupleTypeError) && rt.heap == old(rt.heap)
      ensures x.ptr.Ref? && old(rt.heap)[x.ptr.h].tag.TupleType? ==>
                && r.Success? && fresh(r.value) && r.value.ptr == x.ptr && r.value.view == TupleView
                && rt.heap == IncRef(old(rt.heap), x.ptr.h)
    {
      r := ViewFrom(rt, x, TupleView);
    }

    /** `py_dict(x)`: a dict view of `x` (+1), or `pyerr_occurred` / the dict type error with no count changed. */
    static method DictFrom(rt: Interp, x: PyObject) returns (r: Result<PyObject, Exception>)
      requires x.Valid(rt)
      modifies rt
      ensures rt.Valid() && rt.next == old(rt.next)
      ensures x.ptr.Null? ==> r == Failure(PyErrOccurred) && rt.heap == old(rt.heap)
      ensures x.ptr.Ref? && !old(rt.heap)[x.ptr.h].tag.DictType? ==>
                r == Failure(DictTypeError) && rt.heap == old(rt.heap)
      ensures x.ptr.Ref? && old(rt.heap)[x.ptr.h].tag.DictType? ==>
                && r.Success? && fresh(r.value) && r.value.ptr == x.ptr && r.value.view == DictView
                && rt.heap == IncRef(old(rt.heap), x.ptr.h)
    {
      r := ViewFrom(rt, x, DictView);
    }

    /**
     * `py_dict()`: adopts a fresh empty dict (count 1); throws
     * `pyerr_occurred` when `PyDict_New` returns null (`ok` false).
     */
    static method EmptyDict(rt: Interp, ok: bool) returns (r: Result<PyObject, Exception>)
      requires rt.Valid()
      modifies rt
      ensures rt.Valid()
      ensures !ok ==> r == Failure(PyErrOccurred) && rt.heap == old(rt.heap) && rt.next == old(rt.next)
      ensures ok ==> && r.Success? && fresh(r.value) && r.value.view == DictView
                     && r.value.ptr == Ref(old(rt.next)) && rt.next == old(rt.next) + 1
                     && rt.heap == old(rt.heap)[old(rt.next) := HostObject(1, DictType, [])]
    {
      var p := rt.DictNew(ok);
      if p.Null? {
        return Failure(PyErrOccurred);
      }
      var d := new PyObject.Wrap(p, DictView);
      return Success(d);
    }

    /**
     * `call(args)` / `call(args, kwds)`: the result of `PyObject_Call` (the
     * oracle `result`, a new reference or null) is adopted, so a null result
     * surfaces as `pyerr_occurred` and no count changes.
     */
    method Call(rt: Interp, args: PyObject, result: Ptr) returns (r: Result<PyObject, Exception>)
      requires Valid(rt) && ptr.Ref?
      requires args.Valid(rt) && args.view == TupleView && args.ptr.Ref?
      requires Holds(rt.heap, result)
      modifies rt
      ensures rt.Valid() && rt.heap == old(rt.heap) && rt.next == old(rt.next)
      ensures result.Null? ==> r == Failure(PyErrOccurred)
      ensures result.Ref? ==> r.Success? && fresh(r.value) && r.value.ptr == result && r.value.view == Plain
    {
      r := NewReference(rt, result);
    }

    /** `call(args, kwds)`: as `Call`, with a keyword dict passed through to `PyObject_Call`. */
    method CallWithKeywords(rt: Interp, args: PyObject, kwds: PyObject, result: Ptr) returns (r: Result<PyObject, Exception>)
      requires Valid(rt) && ptr.Ref?
      requires args.Valid(rt) && args.view == TupleView && args.ptr.Ref?
      requires kwds.Valid(rt) && kwds.view == DictView && kwds.ptr.Ref?
      requires Holds(rt.heap, result)
      modifies rt
      ensures rt.Valid() && rt.heap == old(rt.heap) && rt.next == old(rt.next)
      ensures result.Null? ==> r == Failure(PyErrOccurred)
      ensures result.Ref? ==> r.Success? && fresh(r.value) && r.value.ptr == result && r.value.view == Plain
    {
      r := NewReference(rt, result);
    }

    /**
     * `get_item(pos)`: a borrowed (+1) reference to slot `pos`; a position
     * out of range, an empty slot or a non-tuple gives a null pointer, which
     * throws `pyerr_occurred` with no count changed.
     */
    method GetItem(rt: Interp, pos: int) returns (r: Result<PyObject, Exception>)
      requires Valid(rt) && view == TupleView && ptr.Ref?
      modifies rt
      ensures rt.Valid() && rt.next == old(rt.next)
      ensures var o := old(rt.heap)[ptr.h];
        if o.tag.TupleType? && 0 <= pos < |o.items| && o.items[pos].Ref? then
          && r.Success? && fresh(r.value) && r.value.ptr == o.items[pos] && r.value.view == Plain
          && rt.heap == IncRef(old(rt.heap), o.items[pos].h)
        else
          r == Failure(PyErrOccurred) && rt.heap == old(rt.heap)
    {
      var p := TupleGetItem(rt.heap, ptr.h, pos);
      r := BorrowedReference(rt, p);
    }

    /**
     * `set_item(pos, x)` as written: `PyTuple_SetItem` steals a reference to
     * `x`, and only on success is it given back (`Py_INCREF`).  On success
     * the slot holds `x`, which may be the tuple itself, and the caller
     * keeps its reference; on failure `pyerr_occurred` is thrown and `x` has
     * lost the reference that was stolen, although the caller still holds it.
     */
    method SetItem(rt: Interp, pos: int, x: PyObject) returns (ex: Outcome<Exception>)
      requires Valid(rt) && view == TupleView && ptr.Ref?
      requires x.Valid(rt) && x.ptr.Ref?
      modifies rt
      ensures rt.Valid() && rt.next == old(rt.next)
      ensures ex.Pass? <==> !SetItemRefused(old(rt.heap), ptr.h, pos)
      ensures ex.Fail? ==> ex.error == PyErrOccurred && rt.heap == DecRef(old(rt.heap), x.ptr.h)
      ensures ex.Pass? ==> StoredInto(old(rt.heap), rt.heap, ptr.h, pos, x.ptr.h)
    {
      var (failed, after) := TupleSetItem(rt.heap, ptr.h, pos, x.ptr);
      rt.heap := after;
      if !failed {
        rt.heap := IncRef(rt.heap, x.ptr.h);
        ex := Pass;
      } else {
        ex := Fail(PyErrOccurred);
      }
    }

    /**
     * `set_item(pos, x)` ordered as evidently intended: the reference handed
     * to `PyTuple_SetItem` is taken first, so on failure the stolen reference
     * is the extra one and no count changes; success is as in `SetItem`.
     * Because the tuple's count is checked after the increment, a live tuple
     * stored into itself is refused, where `SetItem` stores it.
     */
    method SetItemSafe(rt: Interp, pos: int, x: PyObject) returns (ex: Outcome<Exception>)
      requires Valid(rt) && view == TupleView && ptr.Ref?
      requires x.Valid(rt) && x.ptr.Ref?
      modifies rt
      ensures rt.Valid() && rt.next == old(rt.next)
      ensures ex.Pass? <==> !SetItemRefused(IncRef(old(rt.heap), x.ptr.h), ptr.h, pos)
      ensures x.ptr != ptr ==> (ex.Pass? <==> !SetItemRefused(old(rt.heap), ptr.h, pos))
      ensures x.ptr == ptr && Live(old(rt.heap), ptr.h) ==> ex.Fail?
      ensures ex.Fail? ==> ex.error == PyErrOccurred && rt.heap == old(rt.heap)
      ensures ex.Pass? ==> StoredInto(old(rt.heap), rt.heap, ptr.h, pos, x.ptr.h)
    {
      rt.heap := IncRef(rt.heap, x.ptr.h);
      var (failed, after) := TupleSetItem(rt.heap, ptr.h, pos, x.ptr);
      rt.heap := after;
      if failed {
        ex := Fail(PyErrOccurred);
      } else {
        ex := Pass;
      }
    }

    /**
     * `make_empty(n)`: a tuple view adopting what `PyTuple_New(n)` returns:
     * for `n == 0` the shared empty tuple (+1), for `n > 0` a fresh tuple of
     * `n` empty (null) slots with count 1; `pyerr_occurred` when `n` is
     * negative or the allocation fails, with nothing allocated.
     */
    static method MakeEmpty(rt: Interp, n: int, ok: bool) returns (r: Result<PyObject, Exception>)
      requires rt.Valid()
      modifies rt
      ensures rt.Valid()
      ensures n < 0 || (n > 0 && !ok) ==> r == Failure(PyErrOccurred) && rt.heap == old(rt.heap) && rt.next == old(rt.next)
      ensures n == 0 ==>
                && r.Success? && fresh(r.value) && r.value.view == TupleView && r.value.ptr == Ref(rt.emptyTuple)
                && rt.next == old(rt.next) && rt.heap == IncRef(old(rt.heap), rt.emptyTuple)
      ensures n > 0 && ok ==>
                && r.Success? && fresh(r.value) && r.value.view == TupleView && r.value.ptr == Ref(old(rt.next))
                && rt.next == old(rt.next) + 1
                && rt.heap == old(rt.heap)[old(rt.next) := EmptyTuple(n)]
    {
      var p := rt.TupleNew(n, ok);
      var o := NewReference(rt, p);
      if o.Failure? {
        return Failure(o.error);
      }
      ghost var adopted := rt.heap;
      r := ViewFrom(rt, o.value, TupleView);   // the py_tuple made from the temporary (+1)
      o.value.Destroy(rt);                     // the temporary goes away (-1)
      IncDecCancel(adopted, p);
    }
  }

  /** The index of the first failing conversion, or `|convs|` when none fails. */
  function FirstFailure(convs: seq<Conversion>): (k: nat)
    ensures k <= |convs|
    ensures forall i :: 0 <= i < k ==> !convs[i].Failed?
    ensures k < |convs| ==> convs[k].Failed?
  {
    if convs == [] || convs[0].Failed? then 0 else 1 + FirstFailure(convs[1..])
  }

  /** How many conversions before the first failure create a fresh object. */
  function FreshCount(convs: seq<Conversion>): (n: nat)
    ensures n <= FirstFailure(convs)
  {
    if convs == [] || convs[0].Failed? then 0
    else (if convs[0].Fresh? then 1 else 0) + FreshCount(convs[1..])
  }

  /** How many conversions before the first failure hand out the existing object `h`. */
  function CachedUses(convs: seq<Conversion>, h: Handle): (n: nat)
    ensures n <= FirstFailure(convs)
    ensures (forall i :: 0 <= i < |convs| ==> convs[i] != Cached(h)) ==> n == 0
  {
    if convs == [] || convs[0].Failed? then 0
    else (if convs[0] == Cached(h) then 1 else 0) + CachedUses(convs[1..], h)
  }

  /** The object a slot filled from `c` points at: the existing object, or the fresh one placed at `next`. */
  function StepTarget(c: Conversion, next: Handle): Ptr
  {
    if c.Cached? then Ref(c.h) else Ref(next)
  }

  /**
   * The objects the slots receive, in order, up to the first failing
   * conversion: existing objects as handed out, fresh ones at increasing
   * addresses from `next` (`TargetsCached`, `TargetsFresh`,
   * `TargetsIncreasing`).
   */
  function Targets(convs: seq<Conversion>, next: Handle): (ts: seq<Ptr>)
    ensures |ts| == FirstFailure(convs)
    ensures forall i :: 0 <= i < |ts| ==> ts[i].Ref?
    decreases |convs|
  {
    if convs == [] || convs[0].Failed? then []
    else [StepTarget(convs[0], next)] + Targets(convs[1..], if convs[0].Fresh? then next + 1 else next)
  }

  /** The first target is the first conversion's object; the rest follow from the next address on. */
  lemma TargetsUnfold(convs: seq<Conversion>, next: Handle)
    requires convs != [] && !convs[0].Failed?
    ensures FirstFailure(convs) == 1 + FirstFailure(convs[1..])
    ensures Targets(convs, next) ==
              [StepTarget(convs[0], next)] + Targets(convs[1..], if convs[0].Fresh? then next + 1 else next)
  {
  }

  /** An existing object handed out by a conversion is stored as itself. */
  lemma {:induction false} TargetsCached(convs: seq<Conversion>, next: Handle, i: nat)
    requires i < FirstFailure(convs) && convs[i].Cached?
    ensures Targets(convs, next)[i] == Ref(convs[i].h)
    decreases |convs|
  {
    TargetsUnfold(convs, next);
    if i > 0 {
      TargetsCached(convs[1..], if convs[0].Fresh? then next + 1 else next, i - 1);
    }
  }

  /** A fresh object gets an address from `next` on, below the next address left after the fill. */
  lemma {:induction false} TargetsFresh(convs: seq<Conversion>, next: Handle, i: nat)
    requires i < FirstFailure(convs) && convs[i].Fresh?
    ensures next <= Targets(convs, next)[i].h < next + FreshCount(convs)
    decreases |convs|
  {
    TargetsUnfold(convs, next);
    if i > 0 {
      TargetsFresh(convs[1..], if convs[0].Fresh? then next + 1 else next, i - 1);
    }
  }

  /** Fresh objects get strictly increasing, hence distinct, addresses. */
  lemma {:induction false} TargetsIncreasing(convs: seq<Conversion>, next: Handle, i: nat, j: nat)
    requires i < j < FirstFailure(convs) && convs[i].Fresh? && convs[j].Fresh?
    ensures Targets(convs, next)[i].h < Targets(convs, next)[j].h
    decreases |convs|
  {
    var next' := if convs[0].Fresh? then next + 1 else next;
    TargetsUnfold(convs, next);
    if i == 0 {
      TargetsFresh(convs[1..], next', j - 1);
    } else {
      TargetsIncreasing(convs[1..], next', i - 1, j - 1);
    }
  }

  /** An object below `next` is a target exactly as often as a conversion hands it out. */
  lemma {:induction false} TargetsBelow(convs: seq<Conversion>, next: Handle, h: Handle)
    requires h < next
    ensures Occurrences(Targets(convs, next), h) == CachedUses(convs, h)
    decreases |convs|
  {
    if convs != [] && !convs[0].Failed? {
      var ts := Targets(convs, next);
      TargetsUnfold(convs, next);
      TargetsBelow(convs[1..], if convs[0].Fresh? then next + 1 else next, h);
      assert ts[0] == StepTarget(convs[0], next) && ts[1..] == Targets(convs[1..], if convs[0].Fresh? then next + 1 else next);
    }
  }

  /**
   * When every object handed out lies below `next`, an address from `next`
   * on is a target exactly once if a fresh object was placed there, and
   * otherwise never.
   */
  lemma {:induction false} TargetsAbove(convs: seq<Conversion>, next: Handle, h: Handle)
    requires next <= h
    requires forall i :: 0 <= i < |convs| && convs[i].Cached? ==> convs[i].h < next
    ensures Occurrences(Targets(convs, next), h) == if h < next + FreshCount(convs) then 1 else 0
    decreases |convs|
  {
    if convs != [] && !convs[0].Failed? {
      var next' := if convs[0].Fresh? then next + 1 else next;
      var ts := Targets(convs, next);
      TargetsUnfold(convs, next);
      assert ts[0] == StepTarget(convs[0], next) && ts[1..] == Targets(convs[1..], next');
      forall i | 0 <= i < |convs[1..]| && convs[1..][i].Cached?
        ensures convs[1..][i].h < next
      {
        assert convs[1..][i] == convs[i + 1];
      }
      if convs[0].Fresh? && h == next {
        TargetsBelow(convs[1..], next', h);
      } else {
        TargetsAbove(convs[1..], next', h);
      }
    }
  }

  /**
   * What filling slots `pos..` of tuple `t` from `convs` needs: the slots
   * exist, `next` is above every address in use, and every existing object
   * handed out is in the heap and is not the tuple itself.
   */
  predicate FillReady(heap: Heap, t: Handle, pos: nat, convs: seq<Conversion>, next: Handle)
  {
    && t in heap && pos + |convs| <= |heap[t].items|
    && (forall h :: h in heap ==> h < next)
    && (forall i :: 0 <= i < |convs| && convs[i].Cached? ==> convs[i].h in heap && convs[i].h != t)
  }

  /**
   * The heap and next address after slot `pos` of `t` has been filled from
   * `c`: the slot points at the converted object, which holds the slot's
   * reference and nothing more (`FillStepOther` for the other objects).
   */
  function FillStep(heap: Heap, t: Handle, pos: nat, c: Conversion, next: Handle): (r: (Heap, Handle))
    requires t in heap && pos < |heap[t].items| && !c.Failed?
    requires c.Cached? ==> c.h in heap && c.h != t
    requires forall h :: h in heap ==> h < next
    ensures r.1 == if c.Fresh? then next + 1 else next
    ensures t in r.0 && r.0[t] == heap[t].(items := heap[t].items[pos := StepTarget(c, next)])
    ensures c.Fresh? ==> next in r.0 && r.0[next] == HostObject(1, c.tag, [])
  {
    var h1 := if c.Fresh? then heap[next := HostObject(1, c.tag, [])] else IncRef(heap, c.h);
    (h1[t := heap[t].(items := heap[t].items[pos := StepTarget(c, next)])], if c.Fresh? then next + 1 else next)
  }

  /** One fill step changes no other object except for the reference an existing object gains. */
  lemma FillStepOther(heap: Heap, t: Handle, pos: nat, c: Conversion, next: Handle, h: Handle)
    requires t in heap && pos < |heap[t].items| && !c.Failed?
    requires c.Cached? ==> c.h in heap && c.h != t
    requires forall h :: h in heap ==> h < next
    requires h in heap && h != t
    ensures FillStep(heap, t, pos, c, next).0[h] == heap[h].(refcnt := heap[h].refcnt + (if c == Cached(h) then 1 else 0))
  {
  }

  /** The heap and next address after slots `pos..` have been filled, left to right, up to the first failure. */
  function Filled(heap: Heap, t: Handle, pos: nat, convs: seq<Conversion>, next: Handle): (r: (Heap, Handle))
    requires FillReady(heap, t, pos, convs, next)
    ensures r.1 == next + FreshCount(convs)
    ensures t in r.0
    ensures r.0[t].refcnt == heap[t].refcnt && r.0[t].tag == heap[t].tag && |r.0[t].items| == |heap[t].items|
    decreases |convs|
  {
    if convs == [] || convs[0].Failed? then (heap, next)
    else
      var step := FillStep(heap, t, pos, convs[0], next);
      Filled(step.0, t, pos + 1, convs[1..], step.1)
  }

  /** Filling one slot keeps the rest of the fill possible. */
  lemma FillStepReady(heap: Heap, t: Handle, pos: nat, convs: seq<Conversion>, next: Handle)
    requires FillReady(heap, t, pos, convs, next) && convs != [] && !convs[0].Failed?
    ensures var step := FillStep(heap, t, pos, convs[0], next);
            FillReady(step.0, t, pos + 1, convs[1..], step.1)
  {
    var step := FillStep(heap, t, pos, convs[0], next);
    forall i | 0 <= i < |convs[1..]| && convs[1..][i].Cached?
      ensures convs[1..][i].h in step.0 && convs[1..][i].h != t
    {
      assert convs[1..][i] == convs[i + 1];
    }
  }

  /** Filling allocates exactly the addresses from `next` up to the new next address. */
  lemma {:induction false} FilledKeys(heap: Heap, t: Handle, pos: nat, convs: seq<Conversion>, next: Handle)
    requires FillReady(heap, t, pos, convs, next)
    ensures var r := Filled(heap, t, pos, convs, next);
            forall h :: h in r.0 <==> h in heap || next <= h < r.1
    decreases |convs|
  {
    if convs != [] && !convs[0].Failed? {
      var step := FillStep(heap, t, pos, convs[0], next);
      FillStepReady(heap, t, pos, convs, next);
      FilledKeys(step.0, t, pos + 1, convs[1..], step.1);
    }
  }

  /** The slots of the tuple after filling positions `pos..` from `convs`, computed on the slots alone. */
  function ItemsFilled(items: seq<Ptr>, pos: nat, convs: seq<Conversion>, next: Handle): (r: seq<Ptr>)
    requires pos + |convs| <= |items|
    ensures |r| == |items|
    decreases |convs|
  {
    if convs == [] || convs[0].Failed? then items
    else ItemsFilled(items[pos := StepTarget(convs[0], next)], pos + 1, convs[1..], if convs[0].Fresh? then next + 1 else next)
  }

  /** Filling changes the tuple's slots exactly as `ItemsFilled` does. */
  lemma {:induction false} FilledItems(heap: Heap, t: Handle, pos: nat, convs: seq<Conversion>, next: Handle)
    requires FillReady(heap, t, pos, convs, next)
    ensures Filled(heap, t, pos, convs, next).0[t].items == ItemsFilled(heap[t].items, pos, convs, next)
    decreases |convs|
  {
    if convs != [] && !convs[0].Failed? {
      var step := FillStep(heap, t, pos, convs[0], next);
      FillStepReady(heap, t, pos, convs, next);
      FilledItems(step.0, t, pos + 1, convs[1..], step.1);
    }
  }

  /** A slot outside the filled range keeps what it held. */
  lemma {:induction false} ItemsFilledOutside(items: seq<Ptr>, pos: nat, convs: seq<Conversion>, next: Handle, i: nat)
    requires pos + |convs| <= |items| && i < |items|
    requires i < pos || pos + FirstFailure(convs) <= i
    ensures ItemsFilled(items, pos, convs, next)[i] == items[i]
    decreases |convs|
  {
    if convs != [] && !convs[0].Failed? {
      ItemsFilledOutside(items[pos := StepTarget(convs[0], next)], pos + 1, convs[1..],
                         if convs[0].Fresh? then next + 1 else next, i);
    }
  }

  /** Slot `pos + j` holds the `j`-th target. */
  lemma {:induction false} ItemsFilledInside(items: seq<Ptr>, pos: nat, convs: seq<Conversion>, next: Handle, j: nat)
    requires pos + |convs| <= |items| && j < FirstFailure(convs)
    ensures ItemsFilled(items, pos, convs, next)[pos + j] == Targets(convs, next)[j]
    decreases |convs|
  {
    var next' := if convs[0].Fresh? then next + 1 else next;
    var items' := items[pos := StepTarget(convs[0], next)];
    TargetsUnfold(convs, next);
    if j == 0 {
      ItemsFilledOutside(items', pos + 1, convs[1..], next', pos);
    } else {
      ItemsFilledInside(items', pos + 1, convs[1..], next', j - 1);
    }
  }

  /** Slot `pos + j` points at the `j`-th target up to the first failure; every other slot is unchanged. */
  lemma FilledSlot(heap: Heap, t: Handle, pos: nat, convs: seq<Conversion>, next: Handle, i: nat)
    requires FillReady(heap, t, pos, convs, next) && i < |heap[t].items|
    ensures Filled(heap, t, pos, convs, next).0[t].items[i] ==
              if pos <= i < pos + FirstFailure(convs) then Targets(convs, next)[i - pos] else heap[t].items[i]
  {
    FilledItems(heap, t, pos, convs, next);
    if pos <= i < pos + FirstFailure(convs) {
      ItemsFilledInside(heap[t].items, pos, convs, next, i - pos);
    } else {
      ItemsFilledOutside(heap[t].items, pos, convs, next, i);
    }
  }

  /** Every other object that existed before gains exactly one reference per slot it was handed out for. */
  lemma {:induction false} FilledCount(heap: Heap, t: Handle, pos: nat, convs: seq<Conversion>, next: Handle, h: Handle)
    requires FillReady(heap, t, pos, convs, next) && h in heap && h != t
    ensures var r := Filled(heap, t, pos, convs, next).0;
            h in r && r[h] == heap[h].(refcnt := heap[h].refcnt + CachedUses(convs, h))
    decreases |convs|
  {
    if convs != [] && !convs[0].Failed? {
      var step := FillStep(heap, t, pos, convs[0], next);
      FillStepReady(heap, t, pos, convs, next);
      FillStepOther(heap, t, pos, convs[0], next, h);
      FilledCount(step.0, t, pos + 1, convs[1..], step.1, h);
      assert Filled(heap, t, pos, convs, next) == Filled(step.0, t, pos + 1, convs[1..], step.1);
      assert CachedUses(convs, h) == (if convs[0] == Cached(h) then 1 else 0) + CachedUses(convs[1..], h);
    }
  }

  /** The fresh object slot `pos + i` points at has the converted value and the slot's reference only. */
  lemma {:induction false} FilledFresh(heap: Heap, t: Handle, pos: nat, convs: seq<Conversion>, next: Handle, i: nat)
    requires FillReady(heap, t, pos, convs, next) && i < FirstFailure(convs) && convs[i].Fresh?
    ensures var r := Filled(heap, t, pos, convs, next).0;
            var x := Targets(convs, next)[i].h;
            x in r && r[x] == HostObject(1, convs[i].tag, [])
    decreases |convs|
  {
    var step := FillStep(heap, t, pos, convs[0], next);
    var rest := convs[1..];
    FillStepReady(heap, t, pos, convs, next);
    TargetsUnfold(convs, next);
    if i == 0 {
      assert forall j :: 0 <= j < |rest| ==> rest[j] != Cached(next);
      FilledCount(step.0, t, pos + 1, rest, step.1, next);
    } else {
      FilledFresh(step.0, t, pos + 1, rest, step.1, i - 1);
    }
  }

  /**
   * `converter<T>::to_python(a)` as answered by the oracle `c`: a new
   * reference to a fresh object (count 1) or to an object that already
   * exists (+1), or `pyerr_occurred` with nothing changed when the host call
   * returns null.
   */
  method ToPython(rt: Interp, c: Conversion) returns (r: Result<PyObject, Exception>)
    requires rt.Valid() && (c.Cached? ==> c.h in rt.heap)
    modifies rt
    ensures rt.Valid()
    ensures c.Failed? ==> r == Failure(PyErrOccurred) && rt.heap == old(rt.heap) && rt.next == old(rt.next)
    ensures c.Fresh? ==> && r.Success? && fresh(r.value) && r.value.ptr == Ref(old(rt.next)) && r.value.view == Plain
                         && rt.next == old(rt.next) + 1
                         && rt.heap == old(rt.heap)[old(rt.next) := HostObject(1, c.tag, [])]
    ensures c.Cached? ==> && r.Success? && fresh(r.value) && r.value.ptr == Ref(c.h) && r.value.view == Plain
                          && rt.next == old(rt.next) && rt.heap == IncRef(old(rt.heap), c.h)
  {
    var p := rt.Convert(c);
    r := PyObject.NewReference(rt, p);
  }

  /**
   * `_set_tuple(t, pos, a1, ..., ak)`: converts the arguments and stores them
   * into slots `pos`, `pos + 1`, ... strictly left to right; the first
   * conversion that fails stops it and `pyerr_occurred` propagates.  The
   * resulting heap is `Filled`, whose meaning `FilledSlots`, `FilledCounts`
   * and `FilledFresh` state.
   */
  method SetTuple(rt: Interp, t: PyObject, pos: nat, convs: seq<Conversion>) returns (ex: Outcome<Exception>)
    requires t.Valid(rt) && t.view == TupleView && t.ptr.Ref?
    requires rt.heap[t.ptr.h].tag == TupleType && (convs != [] ==> rt.heap[t.ptr.h].refcnt == 1)
    requires FillReady(rt.heap, t.ptr.h, pos, convs, rt.next)
    requires forall i :: pos <= i < pos + |convs| ==> rt.heap[t.ptr.h].items[i] == Null
    modifies rt
    decreases |convs|
    ensures rt.Valid()
    ensures ex == if FirstFailure(convs) < |convs| then Fail(PyErrOccurred) else Pass
    ensures (rt.heap, rt.next) == Filled(old(rt.heap), t.ptr.h, pos, convs, old(rt.next))
  {
    if convs == [] {
      return Pass;
    }
    ex := FillSlot(rt, t, pos, convs[0]);
    if ex.Fail? {
      return;
    }
    ex := SetTuple(rt, t, pos + 1, convs[1..]);
  }

  /**
   * One step of `_set_tuple`: `t.set_item(pos, converter<A>::to_python(a))`
   * followed by the destruction of the temporary.  The empty slot `pos` ends
   * up pointing at the converted object, which gains the slot's reference.
   */
  method FillSlot(rt: Interp, t: PyObject, pos: nat, c: Conversion) returns (ex: Outcome<Exception>)
    requires t.Valid(rt) && t.view == TupleView && t.ptr.Ref?
    requires rt.heap[t.ptr.h].tag == TupleType && rt.heap[t.ptr.h].refcnt == 1
    requires pos < |rt.heap[t.ptr.h].items| && rt.heap[t.ptr.h].items[pos] == Null
    requires c.Cached? ==> c.h in rt.heap && c.h != t.ptr.h
    modifies rt
    ensures rt.Valid()
    ensures c.Failed? ==> ex == Fail(PyErrOccurred) && rt.heap == old(rt.heap) && rt.next == old(rt.next)
    ensures !c.Failed? ==> ex == Pass
    ensures !c.Failed? ==> rt.heap == FillStep(old(rt.heap), t.ptr.h, pos, c, old(rt.next)).0
    ensures !c.Failed? ==> rt.next == FillStep(old(rt.heap), t.ptr.h, pos, c, old(rt.next)).1
  {
    var converted := ToPython(rt, c);
    if converted.Failure? {
      return Fail(converted.error);
    }
    var tmp := converted.value;
    assert tmp.ptr == StepTarget(c, old(rt.next));
    ghost var h1 := rt.heap;
    ex := t.SetItem(rt, pos, tmp);
    assert ex.Pass?;
    ghost var h2 := rt.heap;
    tmp.Destroy(rt);
    StoreThenRelease(old(rt.heap), h1, h2, t.ptr.h, pos, c, old(rt.next));
  }

  /**
   * Storing the converted object into an empty slot (`set_item`) and then
   * destroying the temporary that held it amounts to `FillStep`.
   */
  lemma StoreThenRelease(h0: Heap, h1: Heap, h2: Heap, t: Handle, pos: nat, c: Conversion, next: Handle)
    requires t in h0 && pos < |h0[t].items| && h0[t].items[pos] == Null && !c.Failed?
    requires c.Cached? ==> c.h in h0 && c.h != t
    requires forall h :: h in h0 ==> h < next
    requires h1 == if c.Fresh? then h0[next := HostObject(1, c.tag, [])] else IncRef(h0, c.h)
    requires StoredInto(h1, h2, t, pos, StepTarget(c, next).h)
    ensures DecRef(h2, StepTarget(c, next).h) == FillStep(h0, t, pos, c, next).0
  {
    var x := StepTarget(c, next).h;
    var want := FillStep(h0, t, pos, c, next).0;
    var got := DecRef(h2, x);
    forall h | h in got
      ensures got[h] == want[h]
    {
      if h == t {
      } else if h == x {
      } else {
      }
    }
  }

  /**
   * The heap and next address `make` leaves behind when it has at least one
   * argument and `PyTuple_New` succeeds: a new tuple at `next` filled from
   * `convs`; when a conversion fails, the tuple is released, which
   * deallocates it and releases the slots filled so far.
   */
  function Made(heap: Heap, next: Handle, convs: seq<Conversion>): (Heap, Handle)
    requires convs != []
    requires forall h :: h in heap ==> h < next
    requires forall i :: 0 <= i < |convs| && convs[i].Cached? ==> convs[i].h in heap
  {
    var filled := Filled(heap[next := EmptyTuple(|convs|)], next, 0, convs, next + 1);
    if FirstFailure(convs) == |convs| then filled
    else (ReleaseItems(DecRef(filled.0, next), filled.0[next].items), filled.1)
  }

  /** A fresh tuple at `next` is ready to be filled from `convs`. */
  lemma MakeReady(heap: Heap, next: Handle, convs: seq<Conversion>)
    requires forall h :: h in heap ==> h < next
    requires forall i :: 0 <= i < |convs| && convs[i].Cached? ==> convs[i].h in heap
    ensures FillReady(heap[next := EmptyTuple(|convs|)], next, 0, convs, next + 1)
  {
  }

  /**
   * How often the slots of `make`'s filled tuple point at an object: an
   * existing object once per conversion that handed it out, the tuple itself
   * never, and an address above the tuple once if a fresh object went there.
   */
  lemma MadeOccurrences(heap: Heap, next: Handle, convs: seq<Conversion>, h: Handle)
    requires convs != []
    requires forall h :: h in heap ==> h < next
    requires forall i :: 0 <= i < |convs| && convs[i].Cached? ==> convs[i].h in heap
    ensures var items := Filled(heap[next := EmptyTuple(|convs|)], next, 0, convs, next + 1).0[next].items;
            && (h in heap ==> Occurrences(items, h) == CachedUses(convs, h))
            && (h == next ==> Occurrences(items, h) == 0)
            && (next < h ==> Occurrences(items, h) == if h < next + 1 + FreshCount(convs) then 1 else 0)
  {
    MakeReady(heap, next, convs);
    FilledEmptyItems(heap[next := EmptyTuple(|convs|)], next, convs, next + 1);
    SlotsOccurrences(convs, next, h);
  }

  /**
   * `MadeOccurrences` on the slots alone: the targets from `next + 1` on,
   * then empty slots.
   */
  lemma SlotsOccurrences(convs: seq<Conversion>, next: Handle, h: Handle)
    requires forall i :: 0 <= i < |convs| && convs[i].Cached? ==> convs[i].h < next
    ensures var items := Targets(convs, next + 1) + Nulls(|convs| - FirstFailure(convs));
            && (h < next ==> Occurrences(items, h) == CachedUses(convs, h))
            && (h == next ==> Occurrences(items, h) == 0)
            && (next < h ==> Occurrences(items, h) == if h < next + 1 + FreshCount(convs) then 1 else 0)
  {
    var ts := Targets(convs, next + 1);
    var empty := Nulls(|convs| - FirstFailure(convs));
    OccurrencesAppend(ts, empty, h);
    OccurrencesNulls(|convs| - FirstFailure(convs), h);
    assert Occurrences(ts + empty, h) == Occurrences(ts, h);
    if h < next {
      TargetsBelow(convs, next + 1, h);
    } else if h == next {
      TargetsBelow(convs, next + 1, h);
      forall i | 0 <= i < |convs|
        ensures convs[i] != Cached(next)
      {
      }
    } else {
      TargetsAbove(convs, next + 1, h);
    }
  }

  /** The new tuple of `make` has n slots, slot i points at `to_python(ai)` up to the first failure and is empty from there on. */
  lemma MadeSlots(heap: Heap, next: Handle, convs: seq<Conversion>)
    requires convs != []
    requires forall h :: h in heap ==> h < next
    requires forall i :: 0 <= i < |convs| && convs[i].Cached? ==> convs[i].h in heap
    ensures var r := Made(heap, next, convs);
            var k := FirstFailure(convs);
            var ts := Targets(convs, next + 1);
            && r.0[next].tag == TupleType && |r.0[next].items| == |convs|
            && (forall i :: 0 <= i < |convs| ==> r.0[next].items[i] == if i < k then ts[i] else Null)
            && r.0[next].refcnt == if k == |convs| then 1 else 0
  {
    var h0 := heap[next := EmptyTuple(|convs|)];
    MakeReady(heap, next, convs);
    var filled := Filled(h0, next, 0, convs, next + 1);
    var r := Made(heap, next, convs);
    if FirstFailure(convs) == |convs| {
      assert r.0 == filled.0;
    } else {
      MadeOccurrences(heap, next, convs, next);
      ReleasedAt(DecRef(filled.0, next), filled.0[next].items, next);
      assert r.0 == ReleaseItems(DecRef(filled.0, next), filled.0[next].items);
    }
    assert r.0[next].items == filled.0[next].items;
    FilledEmpty(h0, next, convs, next + 1);
  }

  /** The slots of an empty tuple after filling: the targets, then empty slots. */
  lemma FilledEmptyItems(heap: Heap, t: Handle, convs: seq<Conversion>, next: Handle)
    requires FillReady(heap, t, 0, convs, next) && heap[t].items == Nulls(|convs|)
    ensures Filled(heap, t, 0, convs, next).0[t].items == Targets(convs, next) + Nulls(|convs| - FirstFailure(convs))
  {
    FilledEmpty(heap, t, convs, next);
  }

  /** Filling every slot of an empty tuple: slot i holds the i-th converted object up to the first failure, and null after it. */
  lemma FilledEmpty(heap: Heap, t: Handle, convs: seq<Conversion>, next: Handle)
    requires FillReady(heap, t, 0, convs, next) && heap[t].items == Nulls(|convs|)
    ensures forall i :: 0 <= i < |convs| ==>
              Filled(heap, t, 0, convs, next).0[t].items[i] == if i < FirstFailure(convs) then Targets(convs, next)[i] else Null
  {
    forall i | 0 <= i < |convs|
      ensures Filled(heap, t, 0, convs, next).0[t].items[i] == if i < FirstFailure(convs) then Targets(convs, next)[i] else Null
    {
      FilledSlot(heap, t, 0, convs, next, i);
    }
  }

  /** The references `make` leaves on an existing object: its slots' when `make` succeeds, none after a failure. */
  function Kept(convs: seq<Conversion>, h: Handle): nat
  {
    if FirstFailure(convs) == |convs| then CachedUses(convs, h) else 0
  }

  /**
   * `make` allocates the tuple and one address per fresh object and nothing
   * else; every object that existed before gains one reference per slot it
   * fills when `make` succeeds, is back at its old count after a failure, and
   * is otherwise unchanged.
   */
  lemma MadeCounts(heap: Heap, next: Handle, convs: seq<Conversion>)
    requires convs != []
    requires forall h :: h in heap ==> h < next
    requires forall i :: 0 <= i < |convs| && convs[i].Cached? ==> convs[i].h in heap
    ensures var r := Made(heap, next, convs);
            && r.1 == next + 1 + FreshCount(convs)
            && (forall h :: h in r.0 <==> h in heap || next <= h < r.1)
            && (forall h :: h in heap ==> r.0[h] == heap[h].(refcnt := heap[h].refcnt + Kept(convs, h)))
  {
    MadeKeys(heap, next, convs);
    forall h | h in heap
      ensures Made(heap, next, convs).0[h] == heap[h].(refcnt := heap[h].refcnt + Kept(convs, h))
    {
      MadeCountAt(heap, next, convs, h);
    }
  }

  /** `make` allocates the tuple's address and the fresh objects' addresses, and nothing else. */
  lemma MadeKeys(heap: Heap, next: Handle, convs: seq<Conversion>)
    requires convs != []
    requires forall h :: h in heap ==> h < next
    requires forall i :: 0 <= i < |convs| && convs[i].Cached? ==> convs[i].h in heap
    ensures var r := Made(heap, next, convs);
            && r.1 == next + 1 + FreshCount(convs)
            && (forall h :: h in r.0 <==> h in heap || next <= h < r.1)
  {
    var h0 := heap[next := EmptyTuple(|convs|)];
    MakeReady(heap, next, convs);
    var filled := Filled(h0, next, 0, convs, next + 1);
    FilledKeys(h0, next, 0, convs, next + 1);
    var r := Made(heap, next, convs);
    assert r.0.Keys == filled.0.Keys;
    forall h
      ensures h in r.0 <==> h in heap || next <= h < r.1
    {
      assert h in r.0 <==> h in filled.0;
      assert h in h0 <==> h in heap || h == next;
    }
  }

  /** An object that existed before `make` gains one reference per slot it fills, and none after a failure. */
  lemma MadeCountAt(heap: Heap, next: Handle, convs: seq<Conversion>, h: Handle)
    requires convs != []
    requires forall h :: h in heap ==> h < next
    requires forall i :: 0 <= i < |convs| && convs[i].Cached? ==> convs[i].h in heap
    requires h in heap
    ensures var r := Made(heap, next, convs);
            h in r.0 && r.0[h] == heap[h].(refcnt := heap[h].refcnt + Kept(convs, h))
  {
    MakeReady(heap, next, convs);
    MadeAwayFromTuple(heap, next, convs, h);
  }

  /** Away from the tuple itself, `make` leaves every object as filling the tuple left it. */
  lemma MadeAwayFromTuple(heap: Heap, next: Handle, convs: seq<Conversion>, h: Handle)
    requires convs != []
    requires forall h :: h in heap ==> h < next
    requires forall i :: 0 <= i < |convs| && convs[i].Cached? ==> convs[i].h in heap
    requires FillReady(heap[next := EmptyTuple(|convs|)], next, 0, convs, next + 1)
    requires h in heap
    ensures h in Made(heap, next, convs).0
    ensures Made(heap, next, convs).0[h] == heap[h].(refcnt := heap[h].refcnt + Kept(convs, h))
  {
    var h0 := heap[next := EmptyTuple(|convs|)];
    assert h != next && h0[h] == heap[h];
    FilledCount(h0, next, 0, convs, next + 1, h);
    var filled := Filled(h0, next, 0, convs, next + 1);
    if FirstFailure(convs) == |convs| {
      assert Made(heap, next, convs).0 == filled.0;
    } else {
      MadeOccurrences(heap, next, convs, h);
      ReleasedAt(DecRef(filled.0, next), filled.0[next].items, h);
      assert Made(heap, next, convs).0 == ReleaseItems(DecRef(filled.0, next), filled.0[next].items);
    }
  }

  /**
   * Every fresh object a slot of `make`'s tuple points at has the converted
   * value; it holds the slot's reference when `make` succeeds, and none once
   * a failure has released the tuple.
   */
  lemma MadeFresh(heap: Heap, next: Handle, convs: seq<Conversion>)
    requires convs != []
    requires forall h :: h in heap ==> h < next
    requires forall i :: 0 <= i < |convs| && convs[i].Cached? ==> convs[i].h in heap
    ensures var r := Made(heap, next, convs);
            var ts := Targets(convs, next + 1);
            forall i :: 0 <= i < FirstFailure(convs) && convs[i].Fresh? ==>
              ts[i].h in r.0 && r.0[ts[i].h] == HostObject(if FirstFailure(convs) == |convs| then 1 else 0, convs[i].tag, [])
  {
    forall i | 0 <= i < FirstFailure(convs) && convs[i].Fresh?
      ensures Targets(convs, next + 1)[i].h in Made(heap, next, convs).0
      ensures Made(heap, next, convs).0[Targets(convs, next + 1)[i].h] == HostObject(if FirstFailure(convs) == |convs| then 1 else 0, convs[i].tag, [])
    {
      MadeFreshAt(heap, next, convs, i);
    }
  }

  /** `MadeFresh` for the object of slot i. */
  lemma MadeFreshAt(heap: Heap, next: Handle, convs: seq<Conversion>, i: nat)
    requires convs != []
    requires forall h :: h in heap ==> h < next
    requires forall i :: 0 <= i < |convs| && convs[i].Cached? ==> convs[i].h in heap
    requires i < FirstFailure(convs) && convs[i].Fresh?
    ensures var x := Targets(convs, next + 1)[i].h;
            x in Made(heap, next, convs).0
            && Made(heap, next, convs).0[x] == HostObject(if FirstFailure(convs) == |convs| then 1 else 0, convs[i].tag, [])
  {
    var h0 := heap[next := EmptyTuple(|convs|)];
    MakeReady(heap, next, convs);
    var filled := Filled(h0, next, 0, convs, next + 1);
    var x := Targets(convs, next + 1)[i].h;
    FilledFresh(h0, next, 0, convs, next + 1, i);
    TargetsFresh(convs, next + 1, i);
    if FirstFailure(convs) == |convs| {
      assert Made(heap, next, convs).0 == filled.0;
    } else {
      MadeOccurrences(heap, next, convs, x);
      ReleasedAt(DecRef(filled.0, next), filled.0[next].items, x);
      assert Made(heap, next, convs).0 == ReleaseItems(DecRef(filled.0, next), filled.0[next].items);
    }
  }

  /**
   * `py_tuple::make(a1, ..., an)`, with `convs` the answers of the n
   * conversions.  With no arguments the result holds the shared empty tuple
   * (+1).  Otherwise, when `PyTuple_New` fails nothing is allocated; when it
   * succeeds the heap becomes `Made` (whose meaning `MadeSlots`, `MadeCounts`
   * and `MadeFresh` state) and the result is the new tuple, or
   * `pyerr_occurred` when a conversion failed.
   */
  method Make(rt: Interp, convs: seq<Conversion>, tupleOk: bool) returns (r: Result<PyObject, Exception>)
    requires rt.Valid()
    requires forall i :: 0 <= i < |convs| && convs[i].Cached? ==> convs[i].h in rt.heap
    modifies rt
    ensures rt.Valid()
    ensures convs == [] ==>
              && r.Success? && fresh(r.value) && r.value.view == TupleView && r.value.ptr == Ref(rt.emptyTuple)
              && rt.next == old(rt.next) && rt.heap == IncRef(old(rt.heap), rt.emptyTuple)
    ensures convs != [] && !tupleOk ==> r == Failure(PyErrOccurred) && rt.heap == old(rt.heap) && rt.next == old(rt.next)
    ensures convs != [] && tupleOk ==> (rt.heap, rt.next) == Made(old(rt.heap), old(rt.next), convs)
    ensures convs != [] && tupleOk && FirstFailure(convs) == |convs| ==>
              r.Success? && fresh(r.value) && r.value.view == TupleView && r.value.ptr == Ref(old(rt.next))
    ensures convs != [] && tupleOk && FirstFailure(convs) < |convs| ==> r == Failure(PyErrOccurred)
  {
    var empty := PyObject.MakeEmpty(rt, |convs|, tupleOk);
    if empty.Failure? {
      return Failure(empty.error);
    }
    var ret := empty.value;
    if convs != [] {
      assert rt.heap == old(rt.heap)[old(rt.next) := EmptyTuple(|convs|)];
      MakeReady(old(rt.heap), old(rt.next), convs);
    }
    var ex := SetTuple(rt, ret, 0, convs);
    if ex.Fail? {
      // unwinding destroys the half-filled tuple; its count reaches 0, so
      // the host deallocates it and releases the slots filled so far
      var t := ret.ptr.h;
      ret.Destroy(rt);
      rt.TupleDealloc(t);
      return Failure(ex.error);
    }
    return Success(ret);
  }

  /**
   * Why copy-assignment increments before it decrements: for a live handle
   * assigned to itself, incrementing first keeps it live at every step and
   * ends where it began, while decrementing first would deallocate a handle
   * held once before the increment could reach it.
   */
  lemma SelfAssignmentOrder(heap: Heap, h: Handle)
    requires Live(heap, h)
    ensures Live(IncRef(heap, h), h) && Live(DecRef(IncRef(heap, h), h), h)
    ensures DecRef(IncRef(heap, h), h) == heap
    ensures heap[h].refcnt == 1 ==> !Live(DecRef(heap, h), h)
  {
    IncDecCancel(heap, Ref(h));
  }

  /**
   * `a = std::move(b)` followed by the destruction of both, for `a` holding
   * `ha` and `b` holding a different `hb`.  As written the reference `a`
   * held is never released; with the release the intended move-assignment
   * performs, every reference the two objects held is released exactly once.
   */
  lemma MoveAssignmentBalance(heap: Heap, ha: Handle, hb: Handle)
    requires ha in heap && hb in heap && ha != hb
    ensures var asWritten := XDecRef(XDecRef(heap, Ref(hb)), Null);
            asWritten[ha].refcnt == heap[ha].refcnt && asWritten[hb].refcnt == heap[hb].refcnt - 1
    ensures var intended := XDecRef(XDecRef(XDecRef(heap, Ref(ha)), Ref(hb)), Null);
            intended[ha].refcnt == heap[ha].refcnt - 1 && intended[hb].refcnt == heap[hb].refcnt - 1
  {
  }

  /**
   * `a = std::move(b)` followed by the destruction of `b` and `a`, for two
   * distinct objects, as written: of the references the two held only the
   * one `b` held is ever released.
   */
  method MoveThenDestroy(rt: Interp, a: PyObject, b: PyObject)
    requires a.Valid(rt) && b.Valid(rt) && a != b && a.view == Plain
    modifies rt, a, b
    ensures rt.Valid()
    ensures rt.heap == XDecRef(old(rt.heap), old(b.ptr))
  {
    var ex := a.MoveAssign(rt, b);
    b.Destroy(rt);
    a.Destroy(rt);
  }

  /** The same sequence with the intended move-assignment: both references are released exactly once. */
  method MoveReleasingThenDestroy(rt: Interp, a: PyObject, b: PyObject)
    requires a.Valid(rt) && b.Valid(rt) && a != b && a.view == Plain
    modifies rt, a, b
    ensures rt.Valid()
    ensures rt.heap == XDecRef(XDecRef(old(rt.heap), old(a.ptr)), old(b.ptr))
  {
    var ex := a.MoveAssignReleasing(rt, b);
    b.Destroy(rt);
    a.Destroy(rt);
  }

  /**
   * A failing `set_item`: as written `PyTuple_SetItem` has released the
   * caller's reference to `x` and nothing gives it back; when the increment
   * comes first the failure changes no count.
   */
  lemma SetItemFailureCounts(heap: Heap, t: Handle, pos: int, x: Handle)
    requires t in heap && x in heap && x != t && Closed(heap) && SetItemRefused(heap, t, pos)
    ensures TupleSetItem(heap, t, pos, Ref(x)).1 == DecRef(heap, x)
    ensures TupleSetItem(IncRef(heap, x), t, pos, Ref(x)).1 == heap
  {
    IncDecCancel(heap, Ref(x));
  }

  /**
   * A tuple held once and stored into one of its own slots: as written the
   * store succeeds and the tuple ends up holding a reference to itself; with
   * the increment first its count is 2 when `PyTuple_SetItem` checks it, so
   * the store is refused and no count changes.
   */
  lemma SelfStore(heap: Heap, t: Handle, pos: int)
    requires t in heap && Closed(heap) && heap[t].tag == TupleType && heap[t].refcnt == 1
    requires 0 <= pos < |heap[t].items|
    ensures var asWritten := TupleSetItem(heap, t, pos, Ref(t));
            && !asWritten.0
            && IncRef(asWritten.1, t)[t].items == heap[t].items[pos := Ref(t)]
            && IncRef(asWritten.1, t)[t].refcnt == if heap[t].items[pos] == Ref(t) then 1 else 2
    ensures var intended := TupleSetItem(IncRef(heap, t), t, pos, Ref(t));
            intended.0 && intended.1 == heap
  {
    IncDecCancel(heap, Ref(t));
  }

  /**
   * The input that shows it: a one-slot tuple from `make_empty(1)` and an
   * integer held by a single `py_object`.  `set_item(1, x)` is out of range;
   * as written it leaves the integer deallocated while the `py_object` still
   * holds it, and that object's destructor will release it a second time.
   */
  lemma SetItemOutOfRangeExample()
    ensures var heap := map[0 := HostObject(1, NoneType, []),
                            1 := HostObject(1, TupleType, [Null]),
                            2 := HostObject(1, IntType(1000), [])];
            && SetItemRefused(heap, 1, 1)
            && !Live(TupleSetItem(heap, 1, 1, Ref(2)).1, 2)
            && Live(TupleSetItem(IncRef(heap, 2), 1, 1, Ref(2)).1, 2)
  {
  }
}

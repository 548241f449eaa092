# pyclops core, modelled in Dafny

pyclops is a C++ binding layer for writing CPython 2 extension modules. This project models three parts of it:

- **The reference-counted handle wrappers** `py_object`, `py_tuple` and `py_dict` (`pyclops/core.hpp`). The host interpreter is an abstract heap of reference-counted objects (`Host.Interp`). Each wrapper is an object of the class `Core.PyObject`. Every constructor, assignment, destructor and tuple operation states its effect on the counts and slots of that heap; where a contract covers less than the code does, the member is named under "## Left out".
- **`extension_module`** (`extension_module.cpp`). It accumulates the method table of a module and registers it once, through `Py_InitModule3`.
- **The example module** `the_greatest_module.cpp`. This covers `add`, `_der_name` and the `Base` / `Derived` / `PyBase` hierarchy with its host-side override, the global `g_Base` holder, the loops of `make_array`, and the by-value and by-`shared_ptr` converters for `X`.

## Design

Host calls whose outcome depends on code not modelled here are parameters of the operation that makes them. These parameters are oracles:

- `ok` says whether an allocation (`PyTuple_New`, `PyDict_New`) succeeds;
- a `Conversion` is what `converter<T>::to_python` returns for one argument: a failure, a fresh object of a given type, or a new reference to an object that already exists (a cached small integer, `Py_None`, a wrapped object);
- `result` is what `PyObject_Call` returns;
- `initOk` says whether `Py_InitModule3` succeeds;
- `deref` is what each weak reference dereferences to;
- `allocOk` and `ncontig` are the array library's answers.

A C++ constructor that can throw becomes a static method returning `Result<PyObject, Exception>`. A thrown exception becomes a `Failure` or a `Fail` value.

`py_tuple` and `py_dict` derive from `py_object` and add no fields. So the three are one class, and a constant `view` field records which struct an instance is. This also lets the model express self-assignment (`t = t`).

**Where the model follows the code over its comment or declaration:**

- `make_empty(n)` yields slots that hold null. The header's comment says `None`, but `PyTuple_New` leaves the slots null.
- The converting constructors `py_tuple(py_object &&)` and `py_dict(py_object &&)` pass `x` on as an lvalue. So they copy (+1), like the `const &` constructors, and leave `x` holding its handle.
- The `where` label passed to these constructors is never forwarded to `_check`, so it is not part of the model.

## Model

| member | source | states |
|---|---|---|
| Host.IncRef | pyclops/core.hpp:166 | `Py_INCREF` raises the count of one object by one and leaves its type and items, and every other object, unchanged |
| Host.DecRef | pyclops/core.hpp:173 | the decrement inside `Py_XDECREF` on a non-null pointer (here, and in the destructor at line 146) lowers the count of one object by one and leaves its type and items, and every other object, unchanged |
| Host.XIncRef | pyclops/core.hpp:172 | `Py_XINCREF` ignores null and otherwise is `Py_INCREF`: no object is added or removed and no type or item changes |
| Host.XDecRef | pyclops/core.hpp:173 | `Py_XDECREF` ignores null and otherwise is `Py_DECREF`: no object is added or removed and no type or item changes |
| Host.IncDecCancel | pyclops/core.hpp:169-176 | a decrement of the handle just incremented restores the heap exactly; this is what makes self-assignment safe |
| Host.TupleSetItem | pyclops/core.hpp:256-258 | `PyTuple_SetItem` refuses exactly for a non-tuple, a shared tuple or an out-of-range position; it then releases `x`; otherwise the slot holds `x`, the replaced item is released, and the tuple keeps its type, and keeps its count unless the replaced item is the tuple itself, while every other object keeps its type, items and count |
| Host.OccurrencesAppend | pyclops/core.hpp:290-297 | the number of slots holding an object is additive over concatenation of slot sequences |
| Host.OccurrencesNulls | pyclops/core.hpp:270-274 | the slots of a fresh tuple hold no object |
| Host.ReleaseItems | pyclops/core.hpp:146 | releasing a tuple's slots adds and removes no address |
| Host.ReleasedAt | pyclops/core.hpp:146 | releasing a tuple's slots lowers each object's count by the number of slots that held it, and changes nothing else about it |
| Host.Interp.TupleDealloc | pyclops/core.hpp:144-148 | when the destructor's `Py_XDECREF` brings a tuple to count 0, the host releases the reference of every non-null slot, last to first, and allocates nothing |
| Host.Interp.TupleNew | pyclops/core.hpp:273 | `PyTuple_New(0)` returns a new reference (+1) to the interpreter's one shared empty tuple and allocates nothing; for `n > 0` it allocates a fresh tuple of `n` null slots with count 1, or fails on a refused allocation with nothing allocated; a negative `n` fails |
| Host.Interp.DictNew | pyclops/core.hpp:306 | `PyDict_New()` allocates a fresh empty dict with count 1, or fails with nothing allocated |
| Host.Interp.Convert | pyclops/core.hpp:286 | `to_python` either fails with nothing changed, allocates a fresh object with count 1, or returns a new reference (+1) to an existing object |
| Host.TupleGetItem | pyclops/core.hpp:251-254 | the borrowed item at `pos`, or null for a non-tuple or a position out of range |
| Core.PyObject.FromRaw | pyclops/core.hpp:160-167 | a null pointer throws `pyerr_occurred` and changes no count; otherwise the object holds `x`, whose count rises by one only when `increment_refcount` is set |
| Core.PyObject.BorrowedReference | pyclops/core.hpp:48 | a non-null pointer is held with its count raised by exactly one; null throws |
| Core.PyObject.NewReference | pyclops/core.hpp:49 | a non-null pointer is adopted with no count changed; null throws |
| Core.PyObject.Default | pyclops/core.hpp:140-142 | the object holds `Py_None`, whose count rises by one |
| Core.PyObject.Copy | pyclops/core.hpp:150-152 | the copy shares the handle (+1); copying a moved-from object throws |
| Core.PyObject.Move | pyclops/core.hpp:154-158 | the new object takes the handle and the source becomes null, with no count changed |
| Core.PyObject.Destroy | pyclops/core.hpp:144-148 | a held handle is released (-1), a null one is ignored, and the object ends null |
| Core.PyObject.Check | pyclops/core.hpp:245-249 | a view's `_check` passes exactly when the object has the view's type, and otherwise raises that view's type error |
| Core.PyObject.CopyAssign | pyclops/core.hpp:169-176 | the new heap is "increment new, then decrement old"; self-assignment leaves the heap unchanged; a view assigned from another struct then checks the new handle's type (`py_tuple` / `py_dict` `operator=`, 227-235 and 321-329), while same-struct assignment runs no check |
| Core.PyObject.MoveAssign | pyclops/core.hpp:178-183 | as written: the target takes the handle and the source becomes null; the old handle is never released, and self-move leaves the object null; a view moved into from another struct then checks the new handle's type (237-243 and 331-337), while same-struct moves run no check |
| Core.PyObject.MoveAssignReleasing | pyclops/core.hpp:178-183 | corrected move-assignment: the old handle is released exactly once, and self-move changes nothing; the type check runs as in `MoveAssign` |
| Core.PyObject.ViewFrom | pyclops/core.hpp:215-225 | a view constructor either shares a handle of the right type (+1), or throws with no count changed: `pyerr_occurred` for null, the view's type error otherwise |
| Core.PyObject.TupleFrom | pyclops/core.hpp:215-225 | `py_tuple(x)` from either reference kind: it accepts exactly tuples (+1) and leaves other counts unchanged |
| Core.PyObject.DictFrom | pyclops/core.hpp:309-319 | `py_dict(x)` from either reference kind: it accepts exactly dicts (+1) and leaves other counts unchanged |
| Core.PyObject.EmptyDict | pyclops/core.hpp:305-307 | `py_dict()` adopts a fresh empty dict with count 1, or throws with nothing allocated |
| Core.PyObject.Call | pyclops/core.hpp:186-190 | the call result is adopted without a count change; a null result throws `pyerr_occurred` |
| Core.PyObject.CallWithKeywords | pyclops/core.hpp:192-196 | as `Call`, with keyword arguments |
| Core.PyObject.GetItem | pyclops/core.hpp:251-254 | an item in range is returned with its count raised by one; otherwise it throws with no count changed |
| Core.PyObject.SetItem | pyclops/core.hpp:256-266 | as written: it succeeds exactly when `PyTuple_SetItem` accepts; then the slot holds `x`, `x` gains the slot's reference and the replaced item loses it, also when `x` is the tuple itself; on failure it throws and `x` has lost a reference |
| Core.PyObject.SetItemSafe | pyclops/core.hpp:256-266 | corrected `set_item` (increment first): a failure changes no count; the success effect is that of `SetItem`; because the count is checked after the increment, a live tuple stored into itself is refused, which `SetItem` accepts |
| Core.PyObject.MakeEmpty | pyclops/core.hpp:270-274 | `make_empty(0)` holds the shared empty tuple (+1); for `n > 0` a fresh tuple of `n` null slots with count 1; a negative `n` or a failed allocation throws with nothing allocated |
| Core.FirstFailure | pyclops/core.hpp:283-288 | the index of the first failing conversion: every earlier conversion succeeded, and this one failed |
| Core.FreshCount | pyclops/core.hpp:283-288 | the number of fresh objects the conversions before the first failure allocate; it is at most that index |
| Core.CachedUses | pyclops/core.hpp:283-288 | how many of the conversions before the first failure return an existing object `h`; zero when none names `h` |
| Core.TargetsCached | pyclops/core.hpp:283-288 | the object a slot receives from a conversion that hands out an existing object is that object itself |
| Core.TargetsFresh | pyclops/core.hpp:283-288 | a fresh object's address lies between the allocation frontier before the fill and the one after it |
| Core.TargetsBelow | pyclops/core.hpp:283-288 | an object that existed before the fill is stored in exactly as many slots as conversions handed it out |
| Core.TargetsAbove | pyclops/core.hpp:283-288 | an address at or above the allocation frontier is stored in one slot if a fresh object was allocated there, and in none otherwise |
| Core.TargetsIncreasing | pyclops/core.hpp:283-288 | fresh objects are allocated at strictly increasing, hence distinct, addresses, in argument order |
| Core.ToPython | pyclops/core.hpp:286 | the temporary `to_python` result: a failed conversion throws `pyerr_occurred` with nothing changed; a fresh object is adopted with count 1; an existing object is held with its count raised by one |
| Core.FillStep | pyclops/core.hpp:286 | one `_set_tuple` step on the heap: the slot holds the converted object, a fresh object has count 1, and the allocation frontier moves only for a fresh object |
| Core.FillStepOther | pyclops/core.hpp:286 | in one step, every other object is unchanged except that an existing object handed out gains one reference |
| Core.FillSlot | pyclops/core.hpp:286 | one step of `_set_tuple` through the as-written `set_item` and the temporary's destructor: a failed conversion throws with nothing changed; otherwise the heap is exactly `FillStep` |
| Core.StoreThenRelease | pyclops/core.hpp:286 | storing the temporary into the slot and then destroying the temporary leaves the slot owning the one reference the conversion created |
| Core.Filled | pyclops/core.hpp:277-288 | the heap after `_set_tuple`: the frontier moves by the number of fresh objects, and the tuple keeps its type, count and size |
| Core.FilledKeys | pyclops/core.hpp:277-288 | `_set_tuple` adds exactly the addresses of the fresh objects to the heap |
| Core.FilledItems | pyclops/core.hpp:277-288 | `_set_tuple` changes the tuple's slots exactly as storing each converted object at the next position, left to right, up to the first failure |
| Core.FilledSlot | pyclops/core.hpp:277-288 | after `_set_tuple`, slot `pos + i` holds the i-th converted object for each conversion before the first failure, and every other slot is unchanged |
| Core.FilledEmptyItems | pyclops/core.hpp:277-288 | filling an empty tuple from its first slot leaves the converted objects in order, followed by empty slots from the first failure on |
| Core.FilledEmpty | pyclops/core.hpp:277-288 | filling an empty tuple from its first slot: slot i holds the i-th converted object up to the first failure, and null after it |
| Core.FilledCount | pyclops/core.hpp:277-288 | after `_set_tuple`, every existing object other than the tuple has gained exactly one reference per argument converted to it |
| Core.FilledFresh | pyclops/core.hpp:277-288 | every fresh object `_set_tuple` stores has count 1 and the converted type |
| Core.SetTuple | pyclops/core.hpp:277-288 | `_set_tuple` on a fresh tuple: it throws exactly when some conversion fails, and its effect on the heap is exactly `Filled` |
| Core.MadeOccurrences | pyclops/core.hpp:290-297 | for n ≥ 1, `make`'s tuple holds each existing object once per argument converted to it, never itself, and each fresh object once |
| Core.SlotsOccurrences | pyclops/core.hpp:283-297 | the same counts, stated on the filled slot sequence alone |
| Core.MadeSlots | pyclops/core.hpp:290-297 | for n ≥ 1, the tuple `make(a1..an)` builds has size n; slot i holds the i-th converted object up to the first failure, and null after it; its count is 1 on success and 0 after a failure |
| Core.MadeCounts | pyclops/core.hpp:290-297 | for n ≥ 1, `make` allocates exactly the tuple and the fresh converted objects, and every existing object gains one reference per argument converted to it when `make` succeeds, and is back at its old count after a conversion failure, whose unwinding deallocates the tuple |
| Core.MadeKeys | pyclops/core.hpp:290-297 | for n ≥ 1, `make` allocates exactly the tuple's address and the fresh objects' addresses |
| Core.MadeCountAt | pyclops/core.hpp:290-297 | for n ≥ 1, an object that existed before `make` is still there with its type and items, and has gained one reference per argument converted to it on success, or none after a failure |
| Core.MadeFreshAt | pyclops/core.hpp:290-297 | `MadeFresh` for the object of one slot |
| Core.MadeFresh | pyclops/core.hpp:290-297 | for n ≥ 1, every fresh object `make` stores has the converted type, and count 1 on success or 0 after a failure, once the deallocated tuple has released it |
| Core.Make | pyclops/core.hpp:290-297 | `make()` with no arguments returns the shared empty tuple (+1) and allocates nothing; with arguments, a failed `make_empty` throws with nothing changed; otherwise the heap is exactly `Made`, and the result is the fresh tuple on success or a `pyerr_occurred` throw after a conversion failure, whose unwinding deallocates the tuple and releases the slots filled so far |
| Core.SelfAssignmentOrder | pyclops/core.hpp:169-176 | incrementing before decrementing keeps a self-assigned handle live and restores the heap; the opposite order would deallocate a handle held once |
| Core.MoveAssignmentBalance | pyclops/core.hpp:178-183 | move-assigning then destroying both objects: as written, the target's old handle keeps an unreleased reference; as intended, every reference is released once |
| Core.MoveThenDestroy | pyclops/core.hpp:178-183 | `a = std::move(b)` followed by both destructors, as written: only the reference `b` held is released |
| Core.MoveReleasingThenDestroy | pyclops/core.hpp:178-183 | the same sequence with the corrected move-assignment: both references are released exactly once |
| Core.SetItemFailureCounts | pyclops/core.hpp:256-266 | a refused store as written leaves `x` one reference short; incrementing first makes the failure count-neutral |
| Core.SelfStore | pyclops/core.hpp:256-266 | a tuple held once stored into its own slot: as written the store succeeds and the tuple holds itself (count 2, or 1 if that slot already held it); with the increment first the store is refused and the heap is unchanged |
| Core.SetItemOutOfRangeExample | pyclops/core.hpp:256-266 | `set_item(1, x)` on a one-slot tuple deallocates an integer the caller still holds; with the increment first it stays live |
| ExtensionModules.Entry | extension_module.cpp:26-30 | an entry records the name and docstring and uses the keyword calling convention |
| ExtensionModules.MethodTable | extension_module.cpp:47-50 | the table handed to the host has n+1 entries: the registered ones in order, then an all-zero sentinel |
| ExtensionModules.ExtensionModule.Create | extension_module.cpp:12-18 | an empty name throws with its message; otherwise the module is empty and not finalized |
| ExtensionModules.ExtensionModule.AddFunction | extension_module.cpp:21-33 | after `finalize` it throws and changes nothing; before, it appends exactly one entry |
| ExtensionModules.ExtensionModule.AddFunctionWithoutDoc | extension_module.cpp:36-39 | the three-argument form with an empty docstring |
| ExtensionModules.ExtensionModule.Finalize | extension_module.cpp:42-60 | a second call throws; otherwise the host receives the entries plus the sentinel; only a successful registration marks the module finalized, and a failed one throws |
| Decimal.NatToDecimal | the_greatest_module.cpp:161 | digits only, at least one, and no leading zero |
| Decimal.IntToDecimal | the_greatest_module.cpp:161 | the rendering is never empty and starts with a minus sign exactly when the number is negative |
| Decimal.IntRoundTrip | the_greatest_module.cpp:161 | parsing the decimal rendering of an integer gives it back |
| Decimal.IntToDecimalInjective | the_greatest_module.cpp:161 | different integers render differently |
| GreatestModule.Add | the_greatest_module.cpp:11 | `add(x, y)` is the sum |
| GreatestModule.DerName | the_greatest_module.cpp:158-163 | the name is `Derived(`, then the number, then `)` |
| GreatestModule.DerNameRoundTrip | the_greatest_module.cpp:158-163 | the number can be read back from a `Derived` name |
| GreatestModule.DerNameInjective | the_greatest_module.cpp:158-163 | different `m` give different names |
| GreatestModule.Name | the_greatest_module.cpp:153 | `get_name` of a `Derived(m)` is `_der_name(m)`; a host subclass has the name it was built with |
| GreatestModule.IntFromPython | the_greatest_module.cpp:198 | an int converts to its value; anything else throws with the `where` label |
| GreatestModule.PyBaseF | the_greatest_module.cpp:180-199 | an expired weak reference and a missing `f` each throw their message; otherwise `f` is called with `(n)` and a raise propagates, or its result is converted with the label `Base.f` |
| GreatestModule.PyBaseFOnlyAsksOnce | the_greatest_module.cpp:197-198 | the result depends on the override only through its answer for `(n)` |
| GreatestModule.PyBaseFReturnsOverride | the_greatest_module.cpp:197-198 | an override returning an int makes `PyBase::f` return that int |
| GreatestModule.F | the_greatest_module.cpp:165-169 | `Derived(m).f(n)` is `m + n`; a host subclass dispatches to its override |
| GreatestModule.FCpp | the_greatest_module.cpp:154 | `f_cpp(n)` is exactly `f(n)` of the same object |
| GreatestModule.DerivedBehaviour | the_greatest_module.cpp:165-169 | a `Derived(m)` is named after `m`, and its `f` and `f_cpp` both add `m` |
| GreatestModule.GlobalBase.Set | the_greatest_module.cpp:229 | the global now holds `b` |
| GreatestModule.GlobalBase.Clear | the_greatest_module.cpp:230 | the global holds nothing |
| GreatestModule.GlobalBase.FGlobal | the_greatest_module.cpp:231 | 0 when empty, otherwise the held object's `f(n)` |
| GreatestModule.SetThenClear | the_greatest_module.cpp:227-231 | after a set, `f_global_Base` is `b.f`; after a clear, it is 0 |
| GreatestModule.ShapeFromDims | the_greatest_module.cpp:67-71 | succeeds exactly when every item is an int, and then `shape[i]` is item i; otherwise it throws |
| GreatestModule.FillRamp | the_greatest_module.cpp:78-79 | every element i of the data holds `100 * i` |
| GreatestModule.MakeArray | the_greatest_module.cpp:65-79 | it throws on a non-int dimension, a failed allocation, or a non-contiguous array; otherwise all `size` elements hold `100 * i` |
| GreatestModule.X.Get | the_greatest_module.cpp:101 | `get()` is the stored value |
| GreatestModule.XToPython | the_greatest_module.cpp:119-123 | wraps a fresh copy with the same value |
| GreatestModule.XFromPython | the_greatest_module.cpp:113-117 | returns a fresh copy of the wrapped value |
| GreatestModule.SharedXToPython | the_greatest_module.cpp:136-139 | wraps the pointer itself |
| GreatestModule.SharedXFromPython | the_greatest_module.cpp:131-134 | returns the wrapped pointer itself |
| GreatestModule.ValueRoundTrip | the_greatest_module.cpp:111-124 | a by-value round trip keeps the value but yields a different object |
| GreatestModule.SharedRoundTrip | the_greatest_module.cpp:129-140 | a `shared_ptr` round trip yields the same object |
| GreatestModule.CloneXp | the_greatest_module.cpp:274 | `clone_Xp` returns a wrapper of the same `X` |

## Left out

- Arithmetic width: integers are unbounded. `ssize_t` overflow in `add` and `Derived::f` is undefined behaviour in C++ and is not modelled, nor is the `int` truncation of `ndims` and of the loop indices in `make_array`.
- Host.Interp: the shared empty tuple exists from the interpreter's start, and the permanent reference CPython keeps to it is only its initial count; nothing stops a client that releases more than it holds from bringing that count to 0.
- Deallocation: a count reaching 0 marks the object as deallocated, and its address is not reused. Only the tuple that `make` abandons after a conversion failure releases its items; no other deallocation cascades into the items of the object.
- `PyObject_Call`: it is an oracle, and any effect the callee has on the heap is not modelled.
- `is_none`, `is_tuple`, `is_dict`, `is_array`, `is_callable`, `get_refcount`, `str`, `repr`, `py_tuple::size()` and `py_dict::size()`: these are single host queries with no logic of their own.
- `operator<<`, every `cout` line and `describe_array`: output only.
- `sum_array`, `_sum` and `print_float`: floating-point arithmetic.
- NumPy, `py_array` and the `rs_array` class: the array library's behaviour is reduced to two oracles, `allocOk` and `ncontig`.
- GreatestModule.MakeArray: the element count is taken to be the product of the shape (0 if negative). The conversion of the finished array back to a host object is not modelled.
- `py_weakref`, `PyObject_GetAttrString` and the `extension_type` registry: these are reduced to the `Referent` oracle and to the `XInstance` wrapper.
- GreatestModule.PyBaseF: assumes that building the argument tuple `(n)` succeeds; a failed allocation there is not modelled.
- GreatestModule.SharedXFromPython: does not model the type check that rejects a host object that is not an `X`, because `XInstance` is typed.
- GreatestModule.XFromPython: for the same reason, does not model the type-check error path that throws for a host object that is not an `X`.
- GreatestModule.PyBaseF: the `Referent` oracle lets any live object lack `f`. The class `Base` registers its own `f` wrapper (the_greatest_module.cpp:294), so a host subclass that does not override `f` most likely finds that wrapper and re-enters `PyBase::f` rather than reaching the missing-`f` error; `extension_type` is not part of this model.
- Core.PyObject.ViewFrom: constructing a view from an object of the same struct uses the implicitly declared copy or move constructor, which runs no `_check` (and the move one takes the handle instead of sharing it); only the converting constructors from `py_object` are modelled.
- GreatestModule.GlobalBase.Set: `set_global_Base` with a null `shared_ptr` is not modelled.
- `strdup`, `malloc` and the C entry point built by `make_kwargs_cfunction`: the method table is modelled as values, and the entry point is an opaque number.
- `toy_wrap`, `toy_wrap_constructor` and the registration body of `initthe_greatest_module`: load-time glue.
- The global interpreter lock and threads: the code assumes a single thread.
- ExtensionModules.ExtensionModule.Create: the initial value of `finalized` is declared in a header that is not part of this model; it is taken to be false.

## Findings

| source | as written | input that shows it | evidently intended | confidence | as-written member | corrected member |
|---|---|---|---|---|---|---|
| pyclops/core.hpp:178-183 | move-assignment overwrites `ptr` without `Py_XDECREF` of the old handle (also in `py_tuple` and `py_dict`, 237-243 and 331-337) | `a = std::move(b)` with `a` and `b` holding different objects: after both are destroyed, `a`'s old object still has the reference `a` held | release the old handle, as copy-assignment does | not executed | Core.PyObject.MoveAssign, Core.MoveAssignmentBalance, Core.MoveThenDestroy | Core.PyObject.MoveAssignReleasing, Core.MoveReleasingThenDestroy |
| pyclops/core.hpp:256-266 | `PyTuple_SetItem` steals the reference to `x` even when it fails, and the failure path throws without giving it back | `set_item(1, x)` on a tuple from `make_empty(1)`, with `x` the int 1000 (not one of the cached small ints) held only by the caller: the int is deallocated while `x` still holds it | take the extra reference before the call, so that a failure changes no count | not executed | Core.PyObject.SetItem, Core.SetItemOutOfRangeExample | Core.PyObject.SetItemSafe, Core.SetItemFailureCounts |

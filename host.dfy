/**
 * The host runtime (CPython 2) as the binding layer sees it: a heap of
 * reference-counted objects, each with a type tag and, for tuples, its item
 * slots.  Only the C-API entry points the binding layer calls are modelled,
 * and only through their documented effect on counts and slots.
 */
module Host {

  type Handle = nat

  /** A `PyObject *`: null, or the address of a heap object. */
  datatype Ptr = Null | Ref(h: Handle)

  /** The type of a host object, with the payload of the scalar types. */
  datatype Tag = NoneType | TupleType | DictType | IntType(value: int) | StrType(text: string) | OtherType

  /** A heap object: its reference count, its type, and its item slots (tuples only). */
  datatype HostObject = HostObject(refcnt: int, tag: Tag, items: seq<Ptr>)

  type Heap = map<Handle, HostObject>

  /** The slots of a fresh tuple of size `n`: all null. */
  function Nulls(n: nat): (s: seq<Ptr>)
    ensures |s| == n && forall i :: 0 <= i < n ==> s[i] == Null
  {
    if n == 0 then [] else Nulls(n - 1) + [Null]
  }

  /** The object `PyTuple_New(n)` creates: a tuple of n null slots, with count 1. */
  function EmptyTuple(n: nat): HostObject
  {
    HostObject(1, TupleType, Nulls(n))
  }

  /** `p` is null or names an object of the heap. */
  predicate Holds(heap: Heap, p: Ptr) {
    p.Null? || p.h in heap
  }

  /** `h` is allocated and not yet deallocated (its count has not dropped to zero). */
  predicate Live(heap: Heap, h: Handle) {
    h in heap && heap[h].refcnt > 0
  }

  /** Every item slot of every object names an object of the heap (or is null). */
  predicate Closed(heap: Heap) {
    forall h, i :: h in heap && 0 <= i < |heap[h].items| ==> Holds(heap, heap[h].items[i])
  }

  /** `Py_INCREF`. */
  function IncRef(heap: Heap, h: Handle): (r: Heap)
    requires h in heap
    ensures r.Keys == heap.Keys
    ensures r[h].refcnt == heap[h].refcnt + 1 && r[h].tag == heap[h].tag && r[h].items == heap[h].items
    ensures forall k :: k in heap && k != h ==> r[k] == heap[k]
    ensures Closed(heap) ==> Closed(r)
  {
    heap[h := heap[h].(refcnt := heap[h].refcnt + 1)]
  }

  /** `Py_DECREF`; a count that reaches zero means the object is deallocated. */
  function DecRef(heap: Heap, h: Handle): (r: Heap)
    requires h in heap
    ensures r.Keys == heap.Keys
    ensures r[h].refcnt == heap[h].refcnt - 1 && r[h].tag == heap[h].tag && r[h].items == heap[h].items
    ensures forall k :: k in heap && k != h ==> r[k] == heap[k]
    ensures Closed(heap) ==> Closed(r)
  {
    heap[h := heap[h].(refcnt := heap[h].refcnt - 1)]
  }

  /** `Py_XINCREF`: as `Py_INCREF`, but a null pointer is ignored. */
  function XIncRef(heap: Heap, p: Ptr): (r: Heap)
    requires Holds(heap, p)
    ensures r.Keys == heap.Keys
    ensures forall k :: k in heap ==> r[k].tag == heap[k].tag && r[k].items == heap[k].items
    ensures Closed(heap) ==> Closed(r)
  {
    if p.Null? then heap else IncRef(heap, p.h)
  }

  /** `Py_XDECREF`: as `Py_DECREF`, but a null pointer is ignored. */
  function XDecRef(heap: Heap, p: Ptr): (r: Heap)
    requires Holds(heap, p)
    ensures r.Keys == heap.Keys
    ensures forall k :: k in heap ==> r[k].tag == heap[k].tag && r[k].items == heap[k].items
    ensures Closed(heap) ==> Closed(r)
  {
    if p.Null? then heap else DecRef(heap, p.h)
  }

  /** A decrement undoes an increment, whatever the order. */
  lemma IncDecCancel(heap: Heap, p: Ptr)
    requires Holds(heap, p)
    ensures XDecRef(XIncRef(heap, p), p) == heap
  {
    if p.Ref? {
      assert XDecRef(XIncRef(heap, p), p) == heap[p.h := heap[p.h]];
    }
  }

  /** How many of the slots `items` point at `k`. */
  function Occurrences(items: seq<Ptr>, k: Handle): nat
  {
    if items == [] then 0 else (if items[0] == Ref(k) then 1 else 0) + Occurrences(items[1..], k)
  }

  /** Concatenated slots: the occurrences add up. */
  lemma {:induction false} OccurrencesAppend(a: seq<Ptr>, b: seq<Ptr>, k: Handle)
    ensures Occurrences(a + b, k) == Occurrences(a, k) + Occurrences(b, k)
    decreases |a|
  {
    if a == [] {
      assert a + b == b;
    } else {
      assert (a + b)[0] == a[0] && (a + b)[1..] == a[1..] + b;
      OccurrencesAppend(a[1..], b, k);
    }
  }

  /** Empty slots point at nothing. */
  lemma {:induction false} OccurrencesNulls(n: nat, k: Handle)
    ensures Occurrences(Nulls(n), k) == 0
  {
    if n > 0 {
      OccurrencesNulls(n - 1, k);
      OccurrencesAppend(Nulls(n - 1), [Null], k);
    }
  }

  /**
   * What deallocating a tuple whose slots are `items` does to the other
   * objects: every non-null slot is released (`Py_XDECREF`), from the last
   * slot to the first.
   */
  function ReleaseItems(heap: Heap, items: seq<Ptr>): (r: Heap)
    ensures r.Keys == heap.Keys
    decreases |items|
  {
    if items == [] then heap
    else
      var rest := ReleaseItems(heap, items[1..]);
      if items[0].Ref? && items[0].h in rest then DecRef(rest, items[0].h) else rest
  }

  /** Releasing the slots lowers each object's count by the number of slots that point at it, and changes nothing else. */
  lemma {:induction false} ReleasedAt(heap: Heap, items: seq<Ptr>, k: Handle)
    requires k in heap
    ensures var r := ReleaseItems(heap, items);
            k in r && r[k] == heap[k].(refcnt := heap[k].refcnt - Occurrences(items, k))
    decreases |items|
  {
    if items != [] {
      ReleasedAt(heap, items[1..], k);
    }
  }

  /** The cases in which CPython 2's `PyTuple_SetItem` refuses to store. */
  predicate SetItemRefused(heap: Heap, t: Handle, pos: int)
    requires t in heap
  {
    !heap[t].tag.TupleType? || heap[t].refcnt != 1 || pos < 0 || pos >= |heap[t].items|
  }

  /**
   * `PyTuple_SetItem(t, pos, x)` of CPython 2.  The first component tells
   * whether it failed (returned -1).  It steals the caller's reference to
   * `x` in every case: on success that reference moves into the slot and the
   * item it replaces is released; on failure `x` is released.
   */
  function TupleSetItem(heap: Heap, t: Handle, pos: int, x: Ptr): (r: (bool, Heap))
    requires t in heap && Holds(heap, x) && Closed(heap)
    ensures r.1.Keys == heap.Keys && Closed(r.1)
    ensures r.0 == SetItemRefused(heap, t, pos)
    ensures r.0 ==> r.1 == XDecRef(heap, x)
    ensures !r.0 ==> var prev := heap[t].items[pos];
              && r.1[t] == heap[t].(items := heap[t].items[pos := x],
                                    refcnt := heap[t].refcnt - (if prev == Ref(t) then 1 else 0))
              && forall k :: k in heap && k != t ==>
                   r.1[k] == heap[k].(refcnt := heap[k].refcnt - (if prev == Ref(k) then 1 else 0))
  {
    if SetItemRefused(heap, t, pos) then
      (true, XDecRef(heap, x))
    else
      var prev := heap[t].items[pos];
      var stored := heap[t := heap[t].(items := heap[t].items[pos := x])];
      assert Closed(stored);
      (false, XDecRef(stored, prev))
  }

  /**
   * `PyTuple_GetItem(t, pos)`: the item as a borrowed pointer (no count
   * changes), or null when `t` is not a tuple or `pos` is out of range.
   */
  function TupleGetItem(heap: Heap, t: Handle, pos: int): (r: Ptr)
    requires t in heap && Closed(heap)
    ensures Holds(heap, r)
    ensures heap[t].tag.TupleType? && 0 <= pos < |heap[t].items| ==> r == heap[t].items[pos]
    ensures !heap[t].tag.TupleType? || pos < 0 || pos >= |heap[t].items| ==> r == Null
  {
    if heap[t].tag.TupleType? && 0 <= pos < |heap[t].items| then heap[t].items[pos] else Null
  }

  /**
   * What a host conversion call answers: it fails (null), creates a fresh
   * object of the given type, or hands out an object that already exists.
   */
  datatype Conversion = Failed | Fresh(tag: Tag) | Cached(h: Handle)

  /**
   * The interpreter: its heap, the next address it will hand out, `Py_None`,
   * and the one empty tuple that every `PyTuple_New(0)` hands out.
   */
  class Interp {
    var heap: Heap
    var next: Handle
    const none: Handle
    const emptyTuple: Handle

    ghost predicate Valid()
      reads this
    {
      && none in heap && heap[none].tag == NoneType
      && emptyTuple in heap && heap[emptyTuple].tag == TupleType && heap[emptyTuple].items == []
      && Closed(heap)
      && forall h :: h in heap ==> h < next
    }

    /**
     * A freshly initialised interpreter: `Py_None` and the shared empty
     * tuple, each held by the interpreter itself.
     */
    constructor ()
      ensures Valid() && none == 0 && emptyTuple == 1 && next == 2
      ensures heap == map[0 := HostObject(1, NoneType, []), 1 := EmptyTuple(0)]
    {
      none := 0;
      emptyTuple := 1;
      heap := map[0 := HostObject(1, NoneType, []), 1 := EmptyTuple(0)];
      next := 2;
    }

    /** Places `o` at the next free address. */
    method Alloc(o: HostObject) returns (h: Handle)
      requires Valid()
      requires forall i :: 0 <= i < |o.items| ==> Holds(heap, o.items[i])
      modifies this
      ensures Valid()
      ensures h == old(next) && next == old(next) + 1
      ensures h !in old(heap) && heap == old(heap)[h := o]
    {
      h := next;
      heap := heap[h := o];
      next := next + 1;
    }

    /**
     * `PyTuple_New(n)`: for `n == 0` a new reference to the shared empty
     * tuple, which never fails; for `n > 0` a new reference to a fresh tuple
     * of `n` null slots, or null when the allocation fails (`ok` is false);
     * null when `n` is negative.
     */
    method TupleNew(n: int, ok: bool) returns (p: Ptr)
      requires Valid()
      modifies this
      ensures Valid()
      ensures n < 0 || (n > 0 && !ok) ==> p == Null && heap == old(heap) && next == old(next)
      ensures n == 0 ==> p == Ref(emptyTuple) && next == old(next) && heap == IncRef(old(heap), emptyTuple)
      ensures n > 0 && ok ==> p == Ref(old(next)) && next == old(next) + 1
      ensures n > 0 && ok ==> heap == old(heap)[old(next) := EmptyTuple(n)]
    {
      if n < 0 || (n > 0 && !ok) {
        return Null;
      }
      if n == 0 {
        heap := IncRef(heap, emptyTuple);
        return Ref(emptyTuple);
      }
      var h := Alloc(EmptyTuple(n));
      p := Ref(h);
    }

    /**
     * The deallocation of tuple `h` once its count has dropped to 0
     * (`tupledealloc`): its slots are released from the last to the first.
     * The tuple's own record stays, as a dead object.
     */
    method TupleDealloc(h: Handle)
      requires Valid() && h in heap && heap[h].tag == TupleType && heap[h].refcnt == 0
      modifies this
      ensures Valid() && next == old(next)
      ensures heap == ReleaseItems(old(heap), old(heap)[h].items)
    {
      var items := heap[h].items;
      var i := |items|;
      while i > 0
        invariant 0 <= i <= |items|
        invariant heap == ReleaseItems(old(heap), items[i..])
        invariant Valid() && next == old(next)
      {
        i := i - 1;
        assert items[i..][1..] == items[i + 1..];
        assert Holds(old(heap), items[i]);
        heap := XDecRef(heap, items[i]);
      }
    }

    /** `PyDict_New()`: a new reference to a fresh empty dict, or null when the allocation fails. */
    method DictNew(ok: bool) returns (p: Ptr)
      requires Valid()
      modifies this
      ensures Valid()
      ensures !ok ==> p == Null && heap == old(heap) && next == old(next)
      ensures ok ==> p == Ref(old(next)) && next == old(next) + 1
      ensures ok ==> heap == old(heap)[old(next) := HostObject(1, DictType, [])]
    {
      if !ok {
        return Null;
      }
      var h := Alloc(HostObject(1, DictType, []));
      p := Ref(h);
    }

    /**
     * The host call a `converter<T>::to_python` makes (`PyInt_FromSsize_t`,
     * `PyString_FromString`, ...), as answered by the oracle `c`: null, a new
     * reference to a fresh object (count 1), or a new reference to an object
     * that already exists, such as a cached small integer (+1).
     */
    method Convert(c: Conversion) returns (p: Ptr)
      requires Valid() && (c.Cached? ==> c.h in heap)
      modifies this
      ensures Valid()
      ensures c.Failed? ==> p == Null && heap == old(heap) && next == old(next)
      ensures c.Fresh? ==> && p == Ref(old(next)) && next == old(next) + 1
                           && heap == old(heap)[old(next) := HostObject(1, c.tag, [])]
      ensures c.Cached? ==> p == Ref(c.h) && next == old(next) && heap == IncRef(old(heap), c.h)
    {
      match c
      case Failed =>
        p := Null;
      case Fresh(tag) =>
        var h := Alloc(HostObject(1, tag, []));
        p := Ref(h);
      case Cached(h) =>
        heap := IncRef(heap, h);
        p := Ref(h);
    }
  }
}

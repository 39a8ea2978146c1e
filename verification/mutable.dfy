/**
 Mutable vectors: ALTREP wrappers around one integer or real data vector
 that answer length, element, region and data-pointer requests straight from
 that vector, so that a store through the writable data pointer is seen by
 every later read.
 */
module Mutable {
  import opened Kinds
  import opened RHeap

  /** A successful `make_mutable`: the heap after allocation and the new
      wrapper. */
  datatype Made<T> = Made(heap: Heap<T>, wrapper: Ref)

  /** The `data1` of a new wrapper: a duplicate of `x` when `x` may be
      referenced elsewhere, `x` itself otherwise. */
  function Storage<T>(h: Heap<T>, x: Ref, maybeReferenced: bool): (r: (Heap<T>, Ref))
    requires Wf(h) && x < |h|
    ensures Wf(r.0) && Extends(h, r.0) && r.1 < |r.0|
    ensures TypeOf(r.0, r.1) == TypeOf(h, x)
    ensures Contents(r.0, r.1) == Contents(h, x)
    ensures maybeReferenced ==> r.1 == |h| && Buffer(r.0, r.1) == |h|
    ensures !maybeReferenced ==> r.0 == h && r.1 == x
  {
    if maybeReferenced then Duplicate(h, x) else (h, x)
  }

  /** `make_mutable`: wraps `x` in a new object of the mutable class for
      its type, or fails for a type without one. `maybeReferenced` is the
      runtime's `MAYBE_REFERENCED(x)`. */
  function MakeMutable<T>(h: Heap<T>, x: Ref, maybeReferenced: bool): (r: Result<Made<T>, KindError>)
    requires Wf(h) && x < |h|
    ensures r.Failure? <==> ClassFor(TypeOf(h, x)).None?
    ensures r.Failure? ==> r.error == UnsupportedKind(TypeName(TypeOf(h, x)))
    ensures r.Success? ==>
      var h', w := r.value.heap, r.value.wrapper;
      && Wf(h') && Extends(h, h') && |h| <= w < |h'|
      && h'[w].Alt? && Some(h'[w].cls) == ClassFor(TypeOf(h, x))
      && Contents(h', w) == Contents(h, x)
    ensures r.Success? && maybeReferenced ==>
      Buffer(r.value.heap, r.value.wrapper) >= |h|
    ensures r.Success? && !maybeReferenced ==>
      var h', w := r.value.heap, r.value.wrapper;
      h'[w].data1 == x && Buffer(h', w) == Buffer(h, x)
  {
    match CheckKind(TypeOf(h, x))
    case Failure(e) => Failure(e)
    case Success(cls) =>
      var (h1, data) := Storage(h, x, maybeReferenced);
      var (h2, w) := Alloc(h1, Alt(cls, data));
      BufferStable(h1, h2, data);
      BufferStable(h, h2, x);
      Success(Made(h2, w))
  }

  /** `mutable_Length`: the length of the data vector, read afresh. */
  function Length<T>(h: Heap<T>, x: Ref): (n: nat)
    requires Wf(h) && x < |h| && h[x].Alt?
    ensures n == |Contents(h, x)|
  {
    |Contents(h, h[x].data1)|
  }

  /** `mutable_Dataptr`: the data vector's own pointer, for writing and for
      reading alike. A pointer is modelled by the buffer it addresses. */
  function Dataptr<T>(h: Heap<T>, x: Ref, writeable: bool): (p: Ref)
    requires Wf(h) && x < |h| && h[x].Alt?
    ensures p < x && h[p].Vec?
    ensures h[p].contents == Contents(h, x) && |h[p].contents| == Length(h, x)
  {
    if writeable then Buffer(h, h[x].data1) else Buffer(h, h[x].data1)
  }

  /** `mutable_Dataptr_or_null`: never null here, since every wrapper's data
      vector ends in an ordinary vector with a buffer. */
  function DataptrOrNull<T>(h: Heap<T>, x: Ref): (p: Option<Ref>)
    requires Wf(h) && x < |h| && h[x].Alt?
    ensures p.Some? && p.value < |h| && h[p.value].Vec? && h[p.value].contents == Contents(h, x)
  {
    Some(Buffer(h, h[x].data1))
  }

  /** `mutable_integer_Elt` and `mutable_real_Elt`: element `i` of the data
      vector. Bounds are the caller's duty, as in the runtime. */
  function Elt<T>(h: Heap<T>, x: Ref, i: nat): (e: T)
    requires Wf(h) && x < |h| && h[x].Alt? && i < Length(h, x)
    ensures e == Contents(h, x)[i]
  {
    h[Buffer(h, h[x].data1)].contents[i]
  }

  /** `mutable_integer_Get_region` and `mutable_real_Get_region` for a region
      inside the vector: `n` elements from index `i`. */
  function GetRegion<T>(h: Heap<T>, x: Ref, i: nat, n: nat): (buf: seq<T>)
    requires Wf(h) && x < |h| && h[x].Alt? && i + n <= Length(h, x)
    ensures |buf| == n
    ensures forall k :: 0 <= k < n ==> buf[k] == Elt(h, x, i + k)
  {
    Contents(h, h[x].data1)[i..i + n]
  }

  /** `R_altrep_inherits`: whether `x` is an instance of class `c`. */
  predicate Inherits<T>(h: Heap<T>, x: Ref, c: MutableClass)
    requires x < |h|
  {
    h[x].Alt? && h[x].cls == c
  }

  /** `is_mutable`: whether `x` is a wrapper of the mutable class for its
      own type; false, not an error, for every other type. */
  predicate IsMutable<T>(h: Heap<T>, x: Ref)
    requires x < |h|
  {
    match TypeOf(h, x)
    case IntSxp => Inherits(h, x, MutableInteger)
    case RealSxp => Inherits(h, x, MutableReal)
    case Other(_) => false
  }

  /** `is_mutable` holds exactly of wrappers, an object of an unsupported
      type is never one, and a wrapper is an instance of exactly the class
      that belongs to its type. */
  lemma IsMutableExactly<T>(h: Heap<T>, x: Ref, c: MutableClass)
    requires x < |h|
    ensures IsMutable(h, x) <==> h[x].Alt?
    ensures TypeOf(h, x).Other? ==> !IsMutable(h, x)
    ensures h[x].Alt? ==> (Inherits(h, x, c) <==> ClassFor(TypeOf(h, x)) == Some(c))
  {
  }

  /** A successful `make_mutable` yields a value `is_mutable` accepts, of
      the input's type, whose class is the one bound to that type, while an
      ordinary input vector is not accepted. */
  lemma MadeIsMutable<T>(h: Heap<T>, x: Ref, maybeReferenced: bool, c: MutableClass)
    requires Wf(h) && x < |h|
    requires MakeMutable(h, x, maybeReferenced).Success?
    ensures var m := MakeMutable(h, x, maybeReferenced).value;
      && IsMutable(m.heap, m.wrapper)
      && TypeOf(m.heap, m.wrapper) == TypeOf(h, x)
      && (Inherits(m.heap, m.wrapper, c) <==> ClassType(c) == TypeOf(h, x))
    ensures h[x].Vec? ==> !IsMutable(h, x)
  {
  }

  /** Right after `make_mutable` the wrapper has the input's length and
      elements, and its region reads are slices of the input. */
  lemma MadePresentsInput<T>(h: Heap<T>, x: Ref, maybeReferenced: bool)
    requires Wf(h) && x < |h|
    requires MakeMutable(h, x, maybeReferenced).Success?
    ensures var m := MakeMutable(h, x, maybeReferenced).value;
      && Length(m.heap, m.wrapper) == |Contents(h, x)|
      && (forall i :: 0 <= i < |Contents(h, x)| ==> Elt(m.heap, m.wrapper, i) == Contents(h, x)[i])
      && (forall i: nat, n: nat :: i + n <= |Contents(h, x)| ==> GetRegion(m.heap, m.wrapper, i, n) == Contents(h, x)[i..i + n])
  {
  }

  /** The writable and the read-only data pointer are the same pointer. */
  lemma DataptrModesAgree<T>(h: Heap<T>, x: Ref)
    requires Wf(h) && x < |h| && h[x].Alt?
    ensures Dataptr(h, x, true) == Dataptr(h, x, false)
    ensures DataptrOrNull(h, x) == Some(Dataptr(h, x, false))
  {
  }

  /** A store of `v` at `i` through the writable data pointer is seen by the
      next element read at `i`; every other element, the length, the type
      and the class stay as they were. */
  lemma WriteVisible<T>(h: Heap<T>, x: Ref, i: nat, v: T)
    requires Wf(h) && x < |h| && h[x].Alt? && i < Length(h, x)
    ensures var h' := Store(h, Dataptr(h, x, true), i, v);
      && Wf(h') && h'[x] == h[x]
      && Length(h', x) == Length(h, x)
      && Elt(h', x, i) == v
      && (forall j :: 0 <= j < Length(h, x) && j != i ==> Elt(h', x, j) == Elt(h, x, j))
      && IsMutable(h', x)
  {
    var p := Dataptr(h, x, true);
    StoreContents(h, p, i, v, x);
  }

  /** Copy branch: after `make_mutable` of a possibly referenced `x`, any
      series of stores through the wrapper's writable pointer leaves `x`,
      and every other object that existed before, presenting exactly what
      it presented before. */
  lemma CopyIsolates<T>(h: Heap<T>, x: Ref, ws: seq<(nat, T)>)
    requires Wf(h) && x < |h|
    requires MakeMutable(h, x, true).Success?
    requires InRange(ws, |Contents(h, x)|)
    ensures var m := MakeMutable(h, x, true).value;
      var h' := StoreAll(m.heap, Dataptr(m.heap, m.wrapper, true), ws);
      && Wf(h')
      && forall y :: 0 <= y < |h| ==> Contents(h', y) == Contents(h, y)
  {
    var m := MakeMutable(h, x, true).value;
    var p := Dataptr(m.heap, m.wrapper, true);
    var h' := StoreAll(m.heap, p, ws);
    forall y | 0 <= y < |h|
      ensures Wf(h') && Contents(h', y) == Contents(h, y)
    {
      ShapeKeepsBuffers(m.heap, h', y);
      BufferStable(h, m.heap, y);
      assert Buffer(h, y) <= y < |h| <= p;
    }
  }

  /** Adopt branch: after `make_mutable` of an unreferenced `x`, the wrapper
      and `x` share one buffer, so a store through the wrapper is seen
      through `x` too. */
  lemma AdoptShares<T>(h: Heap<T>, x: Ref, m: Made<T>, i: nat, v: T)
    requires Wf(h) && x < |h|
    requires MakeMutable(h, x, false) == Success(m)
    requires i < |Contents(h, x)|
    ensures Wf(m.heap) && m.wrapper < |m.heap| && m.heap[m.wrapper].Alt?
    ensures Dataptr(m.heap, m.wrapper, true) == Buffer(h, x)
    ensures var h' := Store(m.heap, Dataptr(m.heap, m.wrapper, true), i, v);
      Wf(h') && Contents(h', x) == Contents(h, x)[i := v]
  {
    var p := Dataptr(m.heap, m.wrapper, true);
    BufferStable(h, m.heap, x);
    StoreContents(m.heap, p, i, v, x);
  }
}

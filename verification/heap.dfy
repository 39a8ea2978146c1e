/**
 The part of R's memory that mutable vectors touch: ordinary vectors that own
 a buffer of elements, and mutable-vector wrappers whose only data field
 (`data1`) refers to another object. Objects live in a heap indexed by
 references; allocation appends, so a newly allocated reference is never
 held by an older object.
 */
module RHeap {
  import opened Kinds

  type Ref = nat

  /** An R object. `Vec` is an ordinary vector of the given type that owns
      its elements; `Alt` is an ALTREP object of one of the mutable classes,
      holding its data vector in `data1` (its `data2` is unused). Element
      values are opaque: nothing here does arithmetic on them. */
  datatype Obj<T> =
    | Vec(sexpType: SexpType, contents: seq<T>)
    | Alt(cls: MutableClass, data1: Ref)

  type Heap<T> = seq<Obj<T>>

  /** The `TYPEOF` of an object: a wrapper reports the type of its class. */
  function TypeOf<T>(h: Heap<T>, x: Ref): SexpType
    requires x < |h|
  {
    match h[x]
    case Vec(t, _) => t
    case Alt(c, _) => ClassType(c)
  }

  /** Heap well-formedness: every wrapper refers to an object allocated
      before it whose type is the type of the wrapper's class. */
  predicate Wf<T>(h: Heap<T>)
  {
    forall x :: 0 <= x < |h| && h[x].Alt? ==>
      h[x].data1 < x && TypeOf(h, h[x].data1) == ClassType(h[x].cls)
  }

  /** The buffer an object's data pointer reaches: an ordinary vector is its
      own buffer, a wrapper forwards to the buffer of its `data1`. */
  function Buffer<T>(h: Heap<T>, x: Ref): (b: Ref)
    requires Wf(h) && x < |h|
    ensures b <= x && h[b].Vec?
    ensures TypeOf(h, b) == TypeOf(h, x)
    decreases x
  {
    match h[x]
    case Vec(_, _) => x
    case Alt(_, d) => Buffer(h, d)
  }

  /** The elements an object currently presents. */
  function Contents<T>(h: Heap<T>, x: Ref): seq<T>
    requires Wf(h) && x < |h|
  {
    h[Buffer(h, x)].contents
  }

  /** `h'` is `h` with zero or more objects allocated after it. */
  ghost predicate Extends<T>(h: Heap<T>, h': Heap<T>)
  {
    |h| <= |h'| && h'[..|h|] == h
  }

  /** Allocating more objects changes neither the buffer nor the type of
      any object that already existed. */
  lemma {:induction false} BufferStable<T>(h: Heap<T>, h': Heap<T>, x: Ref)
    requires Wf(h) && Wf(h') && Extends(h, h') && x < |h|
    ensures Buffer(h', x) == Buffer(h, x)
    ensures Contents(h', x) == Contents(h, x)
    ensures TypeOf(h', x) == TypeOf(h, x)
    decreases x
  {
    assert h'[x] == h[x];
    match h[x]
    case Vec(_, _) =>
    case Alt(_, d) =>
      BufferStable(h, h', d);
  }

  /** Appends an object whose references, if any, point into `h`. */
  function Alloc<T>(h: Heap<T>, o: Obj<T>): (r: (Heap<T>, Ref))
    requires Wf(h)
    requires o.Alt? ==> o.data1 < |h| && TypeOf(h, o.data1) == ClassType(o.cls)
    ensures Wf(r.0) && Extends(h, r.0)
    ensures r.1 == |h| && r.1 < |r.0| && r.0[r.1] == o
  {
    var h' := h + [o];
    assert h'[..|h|] == h;
    assert forall y :: 0 <= y < |h| ==> h'[y] == h[y];
    (h', |h|)
  }

  /** R's `duplicate`: a fresh ordinary vector of the same type with the
      same elements as `x` presents. */
  function Duplicate<T>(h: Heap<T>, x: Ref): (r: (Heap<T>, Ref))
    requires Wf(h) && x < |h|
    ensures Wf(r.0) && Extends(h, r.0)
    ensures r.1 == |h| && r.1 < |r.0| && r.0[r.1].Vec?
    ensures TypeOf(r.0, r.1) == TypeOf(h, x)
    ensures Contents(r.0, r.1) == Contents(h, x)
  {
    Alloc(h, Vec(TypeOf(h, x), Contents(h, x)))
  }

  /** `h'` differs from `h` at most in the elements held by ordinary
      vectors: same objects, same types, same wrapper links. */
  ghost predicate SameShape<T>(h: Heap<T>, h': Heap<T>)
  {
    && |h'| == |h|
    && forall y :: 0 <= y < |h| ==>
         && h'[y].Alt? == h[y].Alt?
         && (h[y].Alt? ==> h'[y] == h[y])
         && (h[y].Vec? ==> h'[y].sexpType == h[y].sexpType)
  }

  /** Changing elements keeps the heap well formed and changes no object's
      type nor the buffer any object reaches. */
  lemma {:induction false} ShapeKeepsBuffers<T>(h: Heap<T>, h': Heap<T>, x: Ref)
    requires Wf(h) && SameShape(h, h') && x < |h|
    ensures Wf(h')
    ensures TypeOf(h', x) == TypeOf(h, x)
    ensures Buffer(h', x) == Buffer(h, x)
    decreases x
  {
    assert forall y :: 0 <= y < |h| ==> TypeOf(h', y) == TypeOf(h, y);
    match h[x]
    case Vec(_, _) =>
    case Alt(_, d) =>
      ShapeKeepsBuffers(h, h', d);
  }

  /** A store of `v` at index `i` through a raw pointer to buffer `p`. */
  function Store<T>(h: Heap<T>, p: Ref, i: nat, v: T): (h': Heap<T>)
    requires p < |h| && h[p].Vec? && i < |h[p].contents|
    ensures SameShape(h, h')
    ensures h'[p].contents == h[p].contents[i := v]
    ensures forall y :: 0 <= y < |h| && y != p ==> h'[y] == h[y]
  {
    h[p := Vec(h[p].sexpType, h[p].contents[i := v])]
  }

  /** What every object presents after a store through a pointer to buffer
      `p`: the objects that reach `p` see the new element, all others are
      unchanged. */
  lemma StoreContents<T>(h: Heap<T>, p: Ref, i: nat, v: T, x: Ref)
    requires Wf(h) && p < |h| && h[p].Vec? && i < |h[p].contents| && x < |h|
    ensures Wf(Store(h, p, i, v))
    ensures Buffer(h, x) == p ==> Contents(Store(h, p, i, v), x) == Contents(h, x)[i := v]
    ensures Buffer(h, x) != p ==> Contents(Store(h, p, i, v), x) == Contents(h, x)
  {
    ShapeKeepsBuffers(h, Store(h, p, i, v), x);
  }

  /** Whether every index of a series of stores is inside a buffer of `n`
      elements. */
  predicate InRange<T>(ws: seq<(nat, T)>, n: nat)
  {
    forall k :: 0 <= k < |ws| ==> ws[k].0 < n
  }

  /** A series of stores through the same pointer, first to last. */
  function StoreAll<T>(h: Heap<T>, p: Ref, ws: seq<(nat, T)>): (h': Heap<T>)
    requires p < |h| && h[p].Vec? && InRange(ws, |h[p].contents|)
    ensures SameShape(h, h')
    ensures |h'[p].contents| == |h[p].contents|
    ensures forall y :: 0 <= y < |h| && y != p ==> h'[y] == h[y]
    decreases |ws|
  {
    if ws == [] then h
    else StoreAll(Store(h, p, ws[0].0, ws[0].1), p, ws[1..])
  }
}

/**
 The same wrappers over Dafny's own heap: a wrapper object holds its class
 and one array, and the copy-or-adopt rule, the sharing of the buffer and
 the isolation of a copied input are stated with `fresh` and frames.
 */
module MutableObjects {
  import opened Kinds

  /** A vector handed to `make_mutable`: its type, its buffer, and the
      runtime's `MAYBE_REFERENCED` answer for it. */
  datatype Input<T> = Input(sexpType: SexpType, data: array<T>, maybeReferenced: bool)

  /** A mutable-vector ALTREP object: its class and its data vector
      (`data1`). Neither field changes after construction. */
  class MutableVector<T> {
    const cls: MutableClass
    const data1: array<T>

    constructor (cls: MutableClass, data1: array<T>)
      ensures this.cls == cls && this.data1 == data1
    {
      this.cls := cls;
      this.data1 := data1;
    }

    /** `mutable_Length`. */
    function Length(): nat
    {
      data1.Length
    }

    /** `mutable_integer_Elt` and `mutable_real_Elt`. */
    function Elt(i: nat): T
      reads data1
      requires i < Length()
    {
      data1[i]
    }

    /** `mutable_Dataptr`: the data vector itself, whether or not the
        caller asks to write. */
    method Dataptr(writeable: bool) returns (p: array<T>)
      ensures p == data1
    {
      p := data1;
    }

    /** A store through the writable data pointer: the next read at `i`
        sees `v` and no other element changes. */
    method StoreThrough(i: nat, v: T)
      requires i < Length()
      modifies data1
      ensures Elt(i) == v
      ensures data1[..] == old(data1[..])[i := v]
    {
      var p := Dataptr(true);
      p[i] := v;
    }
  }

  /** R's `duplicate` of a buffer: a new array with the same elements. */
  method Duplicate<T>(a: array<T>) returns (b: array<T>)
    ensures fresh(b)
    ensures b[..] == a[..]
  {
    b := new T[a.Length](k requires 0 <= k < a.Length reads a => a[k]);
  }

  /** `make_mutable`: the class for the input's type, or the unsupported-kind
      error; a copy of the buffer when it may be referenced elsewhere, the
      buffer itself otherwise. The input is never changed. */
  method MakeMutable<T>(x: Input<T>) returns (r: Result<MutableVector<T>, KindError>)
    ensures r.Failure? <==> ClassFor(x.sexpType).None?
    ensures r.Failure? ==> r.error == UnsupportedKind(TypeName(x.sexpType))
    ensures r.Success? ==> fresh(r.value) && Some(r.value.cls) == ClassFor(x.sexpType)
    ensures r.Success? ==> r.value.data1[..] == x.data[..]
    ensures r.Success? && x.maybeReferenced ==> fresh(r.value.data1)
    ensures r.Success? && !x.maybeReferenced ==> r.value.data1 == x.data
  {
    var cls;
    match CheckKind(x.sexpType) {
      case Failure(e) =>
        return Failure(e);
      case Success(c) =>
        cls := c;
    }
    var data := x.data;
    if x.maybeReferenced {
      data := Duplicate(x.data);
    }
    var w := new MutableVector(cls, data);
    return Success(w);
  }

  /** Copy branch, as a caller sees it: wrapping a referenced vector and
      storing through the wrapper leaves the caller's vector as it was. */
  method WrapReferencedAndStore<T>(x: Input<T>, i: nat, v: T) returns (r: Result<MutableVector<T>, KindError>)
    requires x.maybeReferenced && i < x.data.Length
    ensures x.data[..] == old(x.data[..])
    ensures r.Success? ==> r.value.Length() == x.data.Length && r.value.Elt(i) == v
    ensures r.Success? ==> forall j :: 0 <= j < x.data.Length && j != i ==> r.value.Elt(j) == x.data[j]
  {
    r := MakeMutable(x);
    if r.Success? {
      r.value.StoreThrough(i, v);
    }
  }

  /** Adopt branch, as a caller sees it: wrapping an unreferenced vector and
      storing through the wrapper is seen through the caller's vector. */
  method WrapUnreferencedAndStore<T>(x: Input<T>, i: nat, v: T) returns (r: Result<MutableVector<T>, KindError>)
    requires !x.maybeReferenced && i < x.data.Length
    modifies x.data
    ensures r.Success? ==> x.data[i] == v
    ensures r.Success? ==> forall j :: 0 <= j < x.data.Length && j != i ==> x.data[j] == old(x.data[j])
    ensures r.Failure? ==> x.data[..] == old(x.data[..])
  {
    r := MakeMutable(x);
    if r.Success? {
      r.value.StoreThrough(i, v);
    }
  }
}

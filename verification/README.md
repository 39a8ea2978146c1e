# Mutable vectors for R, modelled in Dafny

The `mutable` R package defines two ALTREP classes, `mutable_integer` and
`mutable_real`. An instance of either class is an integer or real vector
whose single data field, `data1`, holds an ordinary vector. Every length,
element and data-pointer request is answered from that vector, and nothing
is cached. So a store through the writable data pointer changes the
vector in place, and every later read sees the change.

`make_mutable` dispatches on the input's type. It accepts integer and real
vectors and rejects every other type with an error that names the type.
It duplicates the input when the input may be referenced elsewhere, and
otherwise adopts the input's own buffer. `is_mutable` answers, without
raising an error, whether a value is an instance of the mutable class for
its own type.

The model has four modules:

- `Kinds` (`kinds.dfy`) holds R's type tags, the two classes and their
  names, the binding from type to class, and the unsupported-kind error.
- `RHeap` (`heap.dfy`) holds R objects in a heap indexed by references.
  An object is an ordinary vector that owns its elements, or a wrapper
  whose `data1` refers to an older object. The module also defines the
  buffer that a data pointer reaches, `duplicate`, and stores through a
  raw pointer. Aliasing is explicit here: two objects share storage
  exactly when they reach the same buffer reference.
- `Mutable` (`mutable.dfy`) holds `make_mutable`, the class methods,
  `is_mutable`, and the properties that relate them.
- `MutableObjects` (`mutable_objects.dfy`) states the same construction
  over Dafny's own heap. A wrapper object holds a class and one array. The
  copy-or-adopt rule is stated with `fresh` and with frames on the input
  array.

Inputs from the R runtime are parameters:

- `MAYBE_REFERENCED(x)` is a boolean.
- `duplicate` allocates an ordinary vector with the same type and
  elements.
- `R_altrep_inherits` compares the stored class tag.

Element values are left opaque (a type parameter), because the package
does no arithmetic on them. The integer and real kinds are handled
symmetrically.

Behaviour of the code that the model keeps:

- An input that is not marked as referenced is adopted as it is, so the
  caller's handle to it shares the wrapper's buffer
  (`Mutable.AdoptShares`).
- Element reads do no bounds check in the code. Here an in-range index is
  a precondition.
- `make_mutable` applied to an unreferenced wrapper adopts that wrapper as
  its `data1`, so one wrapper nests inside another. The heap model covers
  this case: the buffer is reached by following `data1` links.

## Model

| member | source | states |
|---|---|---|
| Kinds.CheckKind | src/mutable.c:33-42 | integer and real types get a class whose instances have that type; every other type fails with the error naming the type as `type2char` prints it, in the message "mutable vectors for ... not supported yet" |
| Kinds.ClassBinding | src/mutable.c:34-39 | `ClassFor`, the switch on the type: a class is bound exactly to the integer and real types, and the class bound to a type is the one class whose instances report that type |
| Kinds.ClassNamesDistinct | src/mutable.c:127-152 | both classes are registered in package `mutable`, as `mutable_integer` and `mutable_real`, under distinct (name, package) keys |
| RHeap.Buffer | src/mutable.c:52 | the data pointer of any object reaches an ordinary vector of the same type, allocated no later than the object |
| RHeap.Alloc | src/mutable.c:47 | allocating an object keeps the heap well formed, leaves every older object in place, and yields a reference no older object holds |
| RHeap.BufferStable | src/mutable.c:44-47 | allocating new objects changes neither the buffer, the elements nor the type of any older object |
| RHeap.Duplicate | src/mutable.c:44-45 | `duplicate` yields a new ordinary vector with the input's type and elements, and leaves every older object in place |
| RHeap.Store | src/mutable.c:77-80 | a store through a raw pointer changes only element `i` of the buffer it addresses, and changes no type or wrapper link |
| RHeap.ShapeKeepsBuffers | src/mutable.c:77-80 | storing elements keeps the heap well formed, and keeps every object's type and the buffer every object reaches |
| RHeap.StoreContents | src/mutable.c:77-80 | after a store into buffer `p`, the objects that reach `p` present the updated elements, and all other objects present what they did before |
| RHeap.StoreAll | src/mutable.c:77-80 | a series of stores through one pointer keeps the buffer's length, changes no type or wrapper link, and changes no other object |
| Mutable.Storage | src/mutable.c:44-45 | the wrapper's data is a new duplicate of the input when the input may be referenced, and the input itself otherwise; in both cases it has the input's type and elements |
| Mutable.MakeMutable | src/mutable.c:28-50 | fails exactly for types without a class, with the error naming the type, and allocates nothing then; on success it allocates a new wrapper of the class bound to the input's type, presenting the input's elements; that wrapper's buffer is new when the input may be referenced, and it is the input's own buffer otherwise |
| Mutable.Length | src/mutable.c:67-70 | a wrapper's length is the current length of the elements it presents, read from its data vector |
| Mutable.Dataptr | src/mutable.c:77-83 | the data pointer, writable or not, addresses an existing ordinary vector that holds exactly the wrapper's current elements |
| Mutable.DataptrOrNull | src/mutable.c:85-88 | the data pointer is never null, and it addresses a buffer that holds the wrapper's current elements |
| Mutable.Elt | src/mutable.c:95-98 | element `i` of an integer or real wrapper (`mutable_real_Elt` at lines 111-114 is the same) is element `i` of its current contents |
| Mutable.GetRegion | src/mutable.c:100-104 | a region read inside the vector yields `n` elements, each equal to the element read at the same index |
| Mutable.IsMutableExactly | src/mutable.c:177-187 | `is_mutable` (`Mutable.IsMutable`, with `R_altrep_inherits` as `Mutable.Inherits`) holds exactly for wrappers; it is false for every other type, with no error; a wrapper is an instance of exactly the class bound to its own type |
| Mutable.MadeIsMutable | src/mutable.c:172-187 | what `make_mutable` returns satisfies `is_mutable`, has the input's type, and is an instance of exactly the class for that type; an ordinary input vector does not satisfy `is_mutable` |
| Mutable.MadePresentsInput | src/mutable.c:95-98 | right after construction, the wrapper's length, its elements and its in-range regions are those of the input |
| Mutable.DataptrModesAgree | src/mutable.c:77-88 | the writable pointer, the read-only pointer and the pointer-or-null accessor all address the same buffer |
| Mutable.WriteVisible | src/mutable.c:77-98 | after storing `v` at `i` through the writable pointer, the element read at `i` is `v`; all other elements, the length, the class and the `is_mutable` answer are unchanged |
| Mutable.CopyIsolates | src/mutable.c:44-45 | when a possibly referenced input is wrapped, no series of stores through the wrapper's writable pointer changes what the input, or any other older object, presents |
| Mutable.AdoptShares | src/mutable.c:44-47 | when an unreferenced input is wrapped, the wrapper's writable pointer addresses the input's own buffer, so a store through it is seen through the input |
| MutableObjects.MutableVector.Dataptr | src/mutable.c:77-83 | the data pointer, writable or not, is the wrapper's own data array, the one that `Length` and `Elt` read |
| MutableObjects.MutableVector.StoreThrough | src/mutable.c:77-80 | a store through the writable data pointer is read back by `Elt` at that index, and every other element of the data array is unchanged |
| MutableObjects.Duplicate | src/mutable.c:44-45 | `duplicate` returns a newly allocated array with the same elements |
| MutableObjects.MakeMutable | src/mutable.c:28-50 | fails exactly for types without a class, with the error naming the type; otherwise it returns a new wrapper of the class for the type, presenting the input's elements; its array is newly allocated when the input may be referenced, and is the input's own array otherwise |
| MutableObjects.WrapReferencedAndStore | src/mutable.c:44-45 | wrapping a possibly referenced vector and then storing through the wrapper leaves the caller's array unchanged, while the wrapper reads back the stored value |
| MutableObjects.WrapUnreferencedAndStore | src/mutable.c:44-47 | wrapping an unreferenced vector and then storing through the wrapper changes exactly that element of the caller's array |

## Left out

- `R_init_mutable`, the routine table and `R_registerRoutines` (src/mutable.c:194-206) are left out. They register the library with R's loader, and their effect is modelled only as the fixed binding from type to class (`Kinds.ClassFor`).
- The `R_set_alt*_method` calls (src/mutable.c:136-145, 155-164) are left out. They are R's dispatch wiring; each class method is modelled directly as a function on wrappers.
- `do_make_mutable` (src/mutable.c:172-175) forwards to `make_mutable` and has no member of its own. `do_is_mutable` is `Mutable.IsMutable`, whose properties are stated by `Mutable.IsMutableExactly` and `Mutable.MadeIsMutable`.
- Attributes (`names`, `dim` and the rest) are not modelled. `R_new_altrep` (src/mutable.c:47) makes a new object without attributes, so the wrapper does not carry the input's attributes: they stay on its `data1`. Wrapping a matrix or a named vector therefore yields a plain wrapper with no `dim` and no `names`, and no contract here speaks of attributes.
- `mutable_Inspect` (src/mutable.c:59-65) only prints diagnostics through `Rprintf` and R's own subtree printer.
- `PROTECT`/`UNPROTECT` (src/mutable.c:46-48) root objects against R's garbage collector, which has no counterpart in the model.
- How `MAYBE_REFERENCED` counts references, how `duplicate` copies and how `R_altrep_inherits` looks classes up are R runtime internals. They are modelled as an input flag, as a new vector with equal type and elements, and as a comparison of class tags.
- Mutable.GetRegion: only regions that lie inside the vector are modelled. R's `INTEGER_GET_REGION` and `REAL_GET_REGION`, which clamp near the end, are not part of this model.
- Mutable.DataptrOrNull: is never null here, because every wrapper's data vector ends in an ordinary vector. R's `DATAPTR_OR_NULL` for other ALTREP classes is not part of this model.
- Out-of-range element reads, which are unchecked and undefined in the source, are excluded by the precondition `i < Length(h, x)`.
- ALTREP classes of other packages are not modelled. Every ALTREP object in the heap is a mutable vector, and every other object is an ordinary vector.
- Floating-point behaviour is not modelled. Real elements are opaque values, like integer ones, because nothing computes with them.

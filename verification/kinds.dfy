/**
 R's type tags as far as mutable vectors care about them, the two mutable
 vector classes, the binding between the two, and the error raised for an
 unsupported type.
 */
module Kinds {

  datatype Option<+T> = None | Some(value: T)

  datatype Result<+R, +E> = Success(value: R) | Failure(error: E)

  /** The name of a type other than integer and real, as `type2char`
      prints it; R never gives another type the name of those two. */
  type OtherName = s: string | s != "integer" && s != "double" witness "character"

  /** The `TYPEOF` tag of an R value: integer and real vectors are the two
      supported kinds; every other type is carried with its R name. */
  datatype SexpType = IntSxp | RealSxp | Other(name: OtherName)

  /** The name R's `type2char` prints for a type tag. */
  function TypeName(t: SexpType): string
  {
    match t
    case IntSxp => "integer"
    case RealSxp => "double"
    case Other(name) => name
  }

  /** The two ALTREP classes registered by the package at load time. */
  datatype MutableClass = MutableInteger | MutableReal

  /** Package under which both classes are registered. */
  const PackageName: string := "mutable"

  /** Registered class name of each class. */
  function ClassName(c: MutableClass): string
  {
    match c
    case MutableInteger => "mutable_integer"
    case MutableReal => "mutable_real"
  }

  /** The vector type an instance of the class reports: an ALTINTEGER class
      makes integer vectors, an ALTREAL class makes real ones. */
  function ClassType(c: MutableClass): SexpType
  {
    match c
    case MutableInteger => IntSxp
    case MutableReal => RealSxp
  }

  /** The class `make_mutable` picks for a value of type `t`; `None` for a
      type that has no mutable class. */
  function ClassFor(t: SexpType): Option<MutableClass>
  {
    match t
    case IntSxp => Some(MutableInteger)
    case RealSxp => Some(MutableReal)
    case Other(_) => None
  }

  /** A class is picked exactly for integer and real types, and the class
      picked for `t` is the one class whose instances have type `t`. */
  lemma ClassBinding(t: SexpType, c: MutableClass)
    ensures ClassFor(t).Some? <==> (t == IntSxp || t == RealSxp)
    ensures ClassFor(t) == Some(c) <==> ClassType(c) == t
  {
  }

  /** The key under which a class is registered: its name and the package. */
  function RegistryKey(c: MutableClass): (string, string)
  {
    (ClassName(c), PackageName)
  }

  /** The two classes are registered under distinct keys, told apart by
      their names within the one package. */
  lemma ClassNamesDistinct(c: MutableClass, d: MutableClass)
    ensures RegistryKey(c).1 == RegistryKey(d).1 == "mutable"
    ensures RegistryKey(c) == RegistryKey(d) <==> c == d
    ensures ClassName(c) == ClassName(d) <==> c == d
  {
  }

  /** The error `make_mutable` raises for a type without a mutable class. */
  datatype KindError = UnsupportedKind(typeName: string)
  {
    function Message(): string
    {
      "mutable vectors for " + typeName + " not supported yet"
    }
  }

  /** Checks the type of a value about to be wrapped: the class for its type,
      or the unsupported-kind error naming the type. */
  function CheckKind(t: SexpType): (r: Result<MutableClass, KindError>)
    ensures r.Success? <==> (t == IntSxp || t == RealSxp)
    ensures r.Success? ==> ClassType(r.value) == t
    ensures r.Failure? ==> r.error.typeName == TypeName(t)
    ensures r.Failure? ==> r.error.Message() == "mutable vectors for " + t.name + " not supported yet"
  {
    match ClassFor(t)
    case Some(c) => Success(c)
    case None => Failure(UnsupportedKind(TypeName(t)))
  }
}

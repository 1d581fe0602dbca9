/**
 * The closed set of Go type kinds that the identifier classifier dispatches on
 * (the `GoType` hierarchy of the `ro.redeul.google.go.lang.psi.typing` package).
 * A per-kind visitor becomes a `match` over this datatype.
 */
module GoTypes {

  /** A Go package, identified by its import path. */
  datatype GoPackage = GoPackage(importPath: string)

  /** The pseudo-package `C` of cgo, which has no resolvable members. */
  const CPackage: GoPackage := GoPackage("C")

  /**
   * What `GoTypeName.getUnderlyingType` gives for a named type: either the
   * named type object itself, or the type of its definition.
   */
  datatype NameDefinition =
    | SelfUnderlying
    | Defined(underlying: GoType)

  datatype GoType =
    | Primitive(primitiveName: string)
    | Pointer(target: GoType)
    | Struct(fields: seq<string>)
    | Map(keyType: GoType, elementType: GoType)
    | Name(typeName: string, definition: NameDefinition)
    | Package(pkg: GoPackage)
      // kinds that the classifier's visitors leave to the forwarding visitor's no-op defaults
    | Array(arrayElement: GoType)
    | Slice(sliceElement: GoType)
    | Channel(channelElement: GoType)
    | Interface(methods: seq<string>)
    | Function

  /**
   * The underlying type: a named type's definition, unless the named type is
   * its own underlying type; every other kind is its own underlying type.
   */
  function UnderlyingType(t: GoType): (u: GoType)
    ensures !t.Name? ==> u == t
    ensures t.Name? && t.definition.SelfUnderlying? ==> u == t
    ensures t.Name? && t.definition.Defined? ==> u == t.definition.underlying && u < t
  {
    match t
    case Name(_, Defined(underlying)) => underlying
    case _ => t
  }

  /** `n` pointer constructors wrapped around `t`, as in `**T`. */
  function Pointers(n: nat, t: GoType): (p: GoType)
    decreases n
  {
    if n == 0 then t else Pointer(Pointers(n - 1, t))
  }
}

/**
 * The reference objects that an identifier occurrence can be bound to, and the
 * growable list the classifier's visitors add them to.
 */
module References {
  import opened GoTypes

  /**
   * One resolution strategy bound to the identifier being classified. The
   * identifier itself is the same for every reference it defines, so it is
   * left implicit; each variant keeps the data its strategy is built with.
   */
  datatype Reference =
    | StructFieldReference(structType: GoType)
    | TypedConstReference(constType: GoType)
    | FunctionOrTypeNameReference
    | ShortVarReference
    | PackageSymbolReference(pkg: GoPackage)
    | InterfaceMethodReference(namedType: GoType)
    | MethodReference(receiverType: GoType)
    | VarOrConstReference
    | PackageReference

  /** A mutable list of references, as the `ArrayList<Reference>` a visitor fills. */
  class ReferenceList {
    var items: seq<Reference>

    constructor ()
      ensures items == []
    {
      items := [];
    }

    method Add(r: Reference)
      modifies this
      ensures items == old(items) + [r]
    {
      items := items + [r];
    }
  }
}

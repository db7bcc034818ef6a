/**
  The type-definition attribute: the definition a type reference refers
  to, or none.

  Native types are recognised by a predicate on the name and the Jass flag
  of the node; the scoped lookup of a name is a function of the name.  Both
  belong to the rest of the compiler and are parameters here, as is the
  Jass flag of the node.  The definition type `D` is left open.
*/
module AttrTypeDef {
  import opened Wrappers

  /** The type references; a resolved reference carries the name of its
      resolved type. */
  datatype TypeRef =
    | TypeExprSimple(typeName: string)
    | ExprNewObject(typeName: string)
    | TypeExprThis
    | TypeExprArray
    | TypeExprResolved(resolvedName: string)

  /** The name a reference mentions; `thistype` and array types have none. */
  function GetTypeName(node: TypeRef): Option<string> {
    match node
    case TypeExprSimple(n) => Some(n)
    case ExprNewObject(n) => Some(n)
    case TypeExprThis => None
    case TypeExprArray => None
    case TypeExprResolved(n) => Some(n)
  }

  /** The overload for resolved references: they have no definition. */
  function CalculateResolved<D>(e: TypeRef): Option<D>
    requires e.TypeExprResolved?
  {
    None
  }

  /** The definition of a named, non-native type is what the lookup finds. */
  function Calculate<D>(node: TypeRef, isJassCode: bool, isNativeType: (string, bool) -> bool,
                        lookupType: string -> Option<D>): Option<D>
  {
    match GetTypeName(node)
    case None => None
    case Some(name) => if isNativeType(name, isJassCode) then None else lookupType(name)
  }

  // ---------------------------------------------------------------------
  // Properties

  /** A definition is found exactly for a named, non-native reference whose
      lookup succeeds, and it is the looked-up one. */
  lemma CalculateFound<D>(node: TypeRef, isJassCode: bool, isNativeType: (string, bool) -> bool,
                          lookupType: string -> Option<D>)
    ensures var r := Calculate(node, isJassCode, isNativeType, lookupType);
      && (r.Some? <==> (GetTypeName(node).Some? && !isNativeType(GetTypeName(node).value, isJassCode)
                         && lookupType(GetTypeName(node).value).Some?))
      && (GetTypeName(node).Some? && !isNativeType(GetTypeName(node).value, isJassCode) ==>
            r == lookupType(GetTypeName(node).value))
  {
  }

  /** `thistype` and array types never have a definition. */
  lemma NamelessHasNone<D>(node: TypeRef, isJassCode: bool, isNativeType: (string, bool) -> bool,
                           lookupType: string -> Option<D>)
    requires node.TypeExprThis? || node.TypeExprArray?
    ensures Calculate(node, isJassCode, isNativeType, lookupType) == None
  {
  }

  /** Native types never have a definition. */
  lemma NativeHasNone<D>(node: TypeRef, isJassCode: bool, isNativeType: (string, bool) -> bool,
                         lookupType: string -> Option<D>)
    requires GetTypeName(node).Some? && isNativeType(GetTypeName(node).value, isJassCode)
    ensures Calculate(node, isJassCode, isNativeType, lookupType) == None
  {
  }

  /** The overload for resolved references finds nothing, while the general
      one looks the resolved type's name up like any other name. */
  lemma ResolvedOverloads<D>(e: TypeRef, isJassCode: bool, isNativeType: (string, bool) -> bool,
                             lookupType: string -> Option<D>)
    requires e.TypeExprResolved?
    ensures CalculateResolved<D>(e) == None
    ensures Calculate(e, isJassCode, isNativeType, lookupType)
      == if isNativeType(e.resolvedName, isJassCode) then None else lookupType(e.resolvedName)
  {
  }

  /** The names: simple references and `new` expressions their own, resolved
      references their type's. */
  lemma TypeNames(node: TypeRef)
    ensures node.TypeExprSimple? || node.ExprNewObject? ==> GetTypeName(node) == Some(node.typeName)
    ensures node.TypeExprResolved? ==> GetTypeName(node) == Some(node.resolvedName)
    ensures GetTypeName(node).None? <==> node.TypeExprThis? || node.TypeExprArray?
  {
  }
}

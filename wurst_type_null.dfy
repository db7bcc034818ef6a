/**
  The type of the literal `null` and its subtype rule.

  Only the types the rule inspects are told apart: `null` itself, `int`
  and the integer-literal type; every other type is `OtherType`.  Whether
  another type is nullable is decided by that type, outside this model, so
  it is a parameter.  Whether the location is Jass code is a parameter too.
  A failed match is `None` (the null binding of the source).
*/
module WurstTypes {
  import opened Wrappers
  import opened JassIm
  import opened ImInterp

  datatype WurstType = NullType | IntType | IntLiteralType | OtherType(name: string)

  /** The single instance of the null type. */
  const NullInstance: WurstType := NullType

  function TypeName(t: WurstType): string {
    match t
    case NullType => "null"
    case IntType => "integer"
    case IntLiteralType => "integer-literal"
    case OtherType(n) => n
  }

  /** `null` is nullable; every other type answers for itself. */
  predicate IsNullable(t: WurstType, otherNullable: WurstType -> bool) {
    if t.NullType? then true else otherNullable(t)
  }

  /** Matching `null` against the supertype `other`: the binding unchanged,
      or `None`. */
  function MatchAgainstSupertypeIntern<B>(other: WurstType, isJassCode: bool, mapping: B,
                                          otherNullable: WurstType -> bool): Option<B>
  {
    if IsNullable(other, otherNullable) then Some(mapping)
    else if isJassCode && (other.IntType? || other.IntLiteralType?) then Some(mapping)
    else None
  }

  /** The value a variable of the null type starts with: the integer 0. */
  function DefaultValue(): (r: Expr)
    ensures forall env, fuel :: Eval(r, env, fuel) == Some((VInt(0), env))
  {
    IntVal(0)
  }

  // ---------------------------------------------------------------------
  // Properties

  /** The rule succeeds exactly against nullable types, and against the
      integer types in Jass code; a success keeps the binding. */
  lemma MatchCases<B>(other: WurstType, isJassCode: bool, mapping: B, otherNullable: WurstType -> bool)
    ensures var r := MatchAgainstSupertypeIntern(other, isJassCode, mapping, otherNullable);
      && (r.Some? <==>
           IsNullable(other, otherNullable) || (isJassCode && (other.IntType? || other.IntLiteralType?)))
      && (r.Some? ==> r.value == mapping)
  {
  }

  /** Outside Jass code a non-nullable type never matches. */
  lemma NoMatchOutsideJass<B>(other: WurstType, mapping: B, otherNullable: WurstType -> bool)
    requires !IsNullable(other, otherNullable)
    ensures MatchAgainstSupertypeIntern(other, false, mapping, otherNullable) == None
  {
  }

  /** `null` matches `null`, whatever the other types say and wherever. */
  lemma NullMatchesNull<B>(isJassCode: bool, mapping: B, otherNullable: WurstType -> bool)
    ensures MatchAgainstSupertypeIntern(NullInstance, isJassCode, mapping, otherNullable) == Some(mapping)
    ensures TypeName(NullInstance) == "null"
  {
  }
}

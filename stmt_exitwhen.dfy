/**
  The generated AST node `StmtExitwhen`, a tuple sort with two components:
  the source position (component 0) and the condition (component 1).

  Nodes are values: `replace` never changes its receiver but returns a new
  node, and interning maps equal nodes to one shared object, which for
  values is the identity.  Java's `null` arguments are `None`, the typed
  `Object` accepted by `replace` is a `Term`, and every
  `IllegalArgumentException` is a `Failure` naming its cause.  The node is
  generic in the sorts of its two components.
*/
module WurstAst {
  import opened Wrappers

  datatype StmtExitwhen<P, E> = StmtExitwhen(source: P, cond: E)

  /** A component value, or a value of some other sort (Java's `null`
      included, as it fails both sort tests). */
  datatype Term<P, E> = PosTerm(pos: P) | ExprTerm(expr: E) | OtherSortTerm

  datatype AstError =
    | NullParameter(param: string)
    | NegativeIndex(index: int)
    | IndexTooLarge(index: int)
    | IncorrectSort(expected: string)

  /** The constructor: it refuses a missing source, then a missing
      condition. */
  function New<P, E>(source: Option<P>, cond: Option<E>): (r: Result<StmtExitwhen<P, E>, AstError>)
    ensures r.Success? <==> source.Some? && cond.Some?
    ensures source.None? ==> r == Failure(NullParameter("source"))
    ensures source.Some? && cond.None? ==> r == Failure(NullParameter("cond"))
    ensures r.Success? ==> r.value.source == source.value && r.value.cond == cond.value
  {
    if source.None? then Failure(NullParameter("source"))
    else if cond.None? then Failure(NullParameter("cond"))
    else Success(StmtExitwhen(source.value, cond.value))
  }

  /** The number of components. */
  function Size<P, E>(n: StmtExitwhen<P, E>): nat {
    2
  }

  /** Component `i`; a negative `i` counts from the end. */
  function Get<P, E>(n: StmtExitwhen<P, E>, i: int): (r: Result<Term<P, E>, AstError>)
    ensures r.Success? <==> -(Size(n) as int) <= i < Size(n)
  {
    var ith := if i < 0 then i + 2 else i;
    if ith == 0 then Success(PosTerm(n.source))
    else if ith == 1 then Success(ExprTerm(n.cond))
    else if ith < 0 then Failure(NegativeIndex(i))
    else Failure(IndexTooLarge(i))
  }

  /** The node with component `pos` replaced by `term`, checked for its
      index first and its sort second. */
  function Replace<P, E>(n: StmtExitwhen<P, E>, pos: int, term: Term<P, E>): (r: Result<StmtExitwhen<P, E>, AstError>)
    ensures r.Success? <==> (pos == 0 && term.PosTerm?) || (pos == 1 && term.ExprTerm?)
  {
    if pos < 0 then Failure(NegativeIndex(pos))
    else if pos >= 2 then Failure(IndexTooLarge(pos))
    else if pos == 0 && !term.PosTerm? then Failure(IncorrectSort("WPos"))
    else if pos == 1 && !term.ExprTerm? then Failure(IncorrectSort("Expr"))
    else Success(StmtExitwhen(
      if pos == 0 then term.pos else n.source,
      if pos == 1 then term.expr else n.cond))
  }

  /** `replace(0, source)`: a missing source fails the sort test. */
  function ReplaceSource<P, E>(n: StmtExitwhen<P, E>, source: Option<P>): (r: Result<StmtExitwhen<P, E>, AstError>)
    ensures source.None? ==> r == Failure(IncorrectSort("WPos"))
    ensures source.Some? ==>
      r.Success? && Get(r.value, 0) == Success(PosTerm(source.value)) && Get(r.value, 1) == Get(n, 1)
  {
    Replace(n, 0, if source.Some? then PosTerm(source.value) else OtherSortTerm)
  }

  /** `replace(1, cond)`: a missing condition fails the sort test. */
  function ReplaceCond<P, E>(n: StmtExitwhen<P, E>, cond: Option<E>): (r: Result<StmtExitwhen<P, E>, AstError>)
    ensures cond.None? ==> r == Failure(IncorrectSort("Expr"))
    ensures cond.Some? ==>
      r.Success? && Get(r.value, 1) == Success(ExprTerm(cond.value)) && Get(r.value, 0) == Get(n, 0)
  {
    Replace(n, 1, if cond.Some? then ExprTerm(cond.value) else OtherSortTerm)
  }

  /** The printed form, given the printers of the two components. */
  function ToString<P, E>(n: StmtExitwhen<P, E>, showPos: P -> string, showExpr: E -> string): string {
    "StmtExitwhen( " + showPos(n.source) + ", " + showExpr(n.cond) + " )"
  }

  // ---------------------------------------------------------------------
  // Properties

  /** A built node gives back its arguments, at both the non-negative and
      the negative indices. */
  lemma NewGet<P, E>(source: P, cond: E)
    ensures var n := New(Some(source), Some(cond)).value;
      && Get(n, 0) == Get(n, -2) == Success(PosTerm(source))
      && Get(n, 1) == Get(n, -1) == Success(ExprTerm(cond))
  {
  }

  /** Out-of-range indices fail, naming the index; below -2 as negative,
      from 2 on as too large. */
  lemma GetFails<P, E>(n: StmtExitwhen<P, E>, i: int)
    ensures i < -2 ==> Get(n, i) == Failure(NegativeIndex(i))
    ensures i >= 2 ==> Get(n, i) == Failure(IndexTooLarge(i))
  {
  }

  /** `replace` refuses the negative indices `get` accepts, and a bad index
      is reported before a bad sort. */
  lemma ReplaceRefusesNegative<P, E>(n: StmtExitwhen<P, E>, pos: int, term: Term<P, E>)
    ensures pos < 0 ==> Replace(n, pos, term) == Failure(NegativeIndex(pos))
    ensures pos >= 2 ==> Replace(n, pos, term) == Failure(IndexTooLarge(pos))
    ensures -2 <= pos < 0 ==> Get(n, pos).Success? && Replace(n, pos, term).Failure?
  {
  }

  /** A slot given a term of the other sort fails with the expected sort. */
  lemma ReplaceWrongSort<P, E>(n: StmtExitwhen<P, E>, term: Term<P, E>)
    ensures !term.PosTerm? ==> Replace(n, 0, term) == Failure(IncorrectSort("WPos"))
    ensures !term.ExprTerm? ==> Replace(n, 1, term) == Failure(IncorrectSort("Expr"))
  {
  }

  /** A successful replace holds the term at `pos` and keeps the other
      component; the receiver, being a value, is unchanged. */
  lemma ReplaceGet<P, E>(n: StmtExitwhen<P, E>, pos: int, term: Term<P, E>)
    requires Replace(n, pos, term).Success?
    ensures Get(Replace(n, pos, term).value, pos) == Success(term)
    ensures Get(Replace(n, pos, term).value, 1 - pos) == Get(n, 1 - pos)
  {
  }

  /** Putting back a component's own value gives the same node. */
  lemma ReplaceSame<P, E>(n: StmtExitwhen<P, E>, pos: int)
    requires 0 <= pos < Size(n)
    ensures Replace(n, pos, Get(n, pos).value) == Success(n)
  {
  }

  /** Two replaces of the same slot: the second wins. */
  lemma ReplaceTwice<P, E>(n: StmtExitwhen<P, E>, pos: int, t1: Term<P, E>, t2: Term<P, E>)
    requires Replace(n, pos, t1).Success? && Replace(n, pos, t2).Success?
    ensures Replace(Replace(n, pos, t1).value, pos, t2) == Replace(n, pos, t2)
  {
  }

  /** The printed form: the sort name, then both components in order. */
  lemma ToStringShape<P, E>(n: StmtExitwhen<P, E>, showPos: P -> string, showExpr: E -> string)
    ensures var s := ToString(n, showPos, showExpr);
      && "StmtExitwhen( " <= s
      && s[14..14 + |showPos(n.source)|] == showPos(n.source)
      && s[14 + |showPos(n.source)|..16 + |showPos(n.source)|] == ", "
      && s[16 + |showPos(n.source)|..|s| - 2] == showExpr(n.cond)
      && s[|s| - 2..] == " )"
      && |s| == 18 + |showPos(n.source)| + |showExpr(n.cond)|
  {
  }
}

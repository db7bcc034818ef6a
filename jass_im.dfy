/**
  The imperative intermediate representation ("Jass IR") that whole-program
  passes such as the stack-trace injection rewrite.

  In the IR every expression is also a statement (an expression node can stand
  in a statement list), so both are variants of the one datatype `Stmt`; `Expr`
  names the same type where an expression is meant.  A function is referred to
  by its index in the program's function list, a variable by its index in the
  global, parameter or local list it belongs to.
*/
module JassIm {
  import opened Wrappers

  /** Index of a function in `ImProg.functions`. */
  type FuncId = nat

  /** The source position a call or a function reference was translated from.
      The pass only inspects the file name; printing a position is done by a
      function supplied by the caller. */
  datatype WPos = WPos(file: string, line: nat)

  datatype ImType = IntType | StringType | BoolType | StringArrayType | VoidType | NamedType(name: string)

  datatype ImVar = ImVar(name: string, typ: ImType)

  datatype VarRef = Global(index: nat) | Param(index: nat) | Local(index: nat)

  datatype Op = Plus | Minus | Greater | Less | OtherOp(symbol: string)

  datatype FunctionFlag = FunctionFlag(name: string)

  datatype Stmt =
      // statements
    | Return(value: Stmt)                        // value is NoExpr for a bare `return`
    | If(cond: Stmt, thenBlock: seq<Stmt>, elseBlock: seq<Stmt>)
    | Loop(body: seq<Stmt>)
    | Exitwhen(cond: Stmt)
    | Set(left: Stmt, right: Stmt)
      // expressions
    | NoExpr                                     // the absent optional expression
    | Null
    | IntVal(intValue: int)
    | StringVal(stringValue: string)
    | BoolVal(boolValue: bool)
    | VarAccess(v: VarRef)
    | VarArrayAccess(arr: VarRef, indexes: seq<Stmt>)
    | OperatorCall(op: Op, operands: seq<Stmt>)
    | FunctionCall(func: FuncId, args: seq<Stmt>, tailCall: bool, pos: WPos)
    | FuncRef(func: FuncId, source: WPos, traceHasParent: bool)
    | GetStackTrace
    | StatementExpr(stmts: seq<Stmt>, result: Stmt)

  type Expr = Stmt

  /** A function of the program.  `sourceName` is the name of the source-level
      function definition its trace refers to, when there is one. */
  datatype ImFunction = ImFunction(
    name: string,
    sourceName: Option<string>,
    typeVars: seq<string>,
    params: seq<ImVar>,
    returnType: ImType,
    locals: seq<ImVar>,
    body: seq<Stmt>,
    flags: seq<FunctionFlag>)

  /** `v := v + 1` */
  function Increment(v: VarRef): Stmt {
    Set(VarAccess(v), OperatorCall(Plus, [VarAccess(v), IntVal(1)]))
  }

  /** `v := v - 1` */
  function Decrement(v: VarRef): Stmt {
    Set(VarAccess(v), OperatorCall(Minus, [VarAccess(v), IntVal(1)]))
  }

  /** A statement expression without a result value. */
  function StatementExprVoid(stmts: seq<Stmt>): Stmt {
    StatementExpr(stmts, Null)
  }

  /** The program: all functions, global variables and their initialisers,
      updated in place by the whole-program passes. */
  class ImProg {
    var functions: seq<ImFunction>
    var globals: seq<ImVar>
    var globalInits: map<nat, seq<Expr>>

    constructor (functions: seq<ImFunction>, globals: seq<ImVar>, globalInits: map<nat, seq<Expr>>)
      ensures this.functions == functions && this.globals == globals && this.globalInits == globalInits
    {
      this.functions := functions;
      this.globals := globals;
      this.globalInits := globalInits;
    }
  }

  // ---------------------------------------------------------------------
  // Well-formedness of calls: every call names an existing function and
  // passes as many arguments as that function has parameters; every function
  // reference names an existing function.

  /** The parameter count of every function, by index. */
  function ParamCounts(fs: seq<ImFunction>): (pc: seq<nat>)
    ensures |pc| == |fs|
    ensures forall i | 0 <= i < |fs| :: pc[i] == |fs[i].params|
  {
    seq(|fs|, i requires 0 <= i < |fs| => |fs[i].params|)
  }

  predicate CallsOk(s: Stmt, pc: seq<nat>) {
    match s
    case Return(v) => CallsOk(v, pc)
    case If(c, t, e) => CallsOk(c, pc) && CallsOkSeq(t, pc) && CallsOkSeq(e, pc)
    case Loop(b) => CallsOkSeq(b, pc)
    case Exitwhen(c) => CallsOk(c, pc)
    case Set(l, r) => CallsOk(l, pc) && CallsOk(r, pc)
    case VarArrayAccess(_, ix) => CallsOkSeq(ix, pc)
    case OperatorCall(_, xs) => CallsOkSeq(xs, pc)
    case FunctionCall(g, args, _, _) => g < |pc| && |args| == pc[g] && CallsOkSeq(args, pc)
    case FuncRef(g, _, _) => g < |pc|
    case StatementExpr(b, r) => CallsOkSeq(b, pc) && CallsOk(r, pc)
    case _ => true
  }

  predicate CallsOkSeq(ss: seq<Stmt>, pc: seq<nat>) {
    forall i | 0 <= i < |ss| :: CallsOk(ss[i], pc)
  }

  /** Every call and function reference in every body agrees with the program. */
  predicate WellFormed(fs: seq<ImFunction>) {
    forall i | 0 <= i < |fs| :: CallsOkSeq(fs[i].body, ParamCounts(fs))
  }

  /** Adding functions at the end keeps existing calls well formed. */
  lemma {:induction false} CallsOkExtend(s: Stmt, pc: seq<nat>, more: seq<nat>)
    requires CallsOk(s, pc)
    ensures CallsOk(s, pc + more)
  {
    match s
    case Return(v) => CallsOkExtend(v, pc, more);
    case If(c, t, e) => CallsOkExtend(c, pc, more); CallsOkSeqExtend(t, pc, more); CallsOkSeqExtend(e, pc, more);
    case Loop(b) => CallsOkSeqExtend(b, pc, more);
    case Exitwhen(c) => CallsOkExtend(c, pc, more);
    case Set(l, r) => CallsOkExtend(l, pc, more); CallsOkExtend(r, pc, more);
    case VarArrayAccess(_, ix) => CallsOkSeqExtend(ix, pc, more);
    case OperatorCall(_, xs) => CallsOkSeqExtend(xs, pc, more);
    case FunctionCall(g, args, _, _) => CallsOkSeqExtend(args, pc, more);
    case StatementExpr(b, r) => CallsOkSeqExtend(b, pc, more); CallsOkExtend(r, pc, more);
    case _ =>
  }

  lemma {:induction false} CallsOkSeqExtend(ss: seq<Stmt>, pc: seq<nat>, more: seq<nat>)
    requires CallsOkSeq(ss, pc)
    ensures CallsOkSeq(ss, pc + more)
  {
    forall i | 0 <= i < |ss| ensures CallsOk(ss[i], pc + more) {
      CallsOkExtend(ss[i], pc, more);
    }
  }
}

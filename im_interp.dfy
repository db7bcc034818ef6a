/**
  A small evaluator for the part of the IR that the generated trace loop
  uses: integer and string literals, variable and one-index array reads, the
  operators `+`, `-`, `>` and `<`, assignments to variables, `if`, loops with
  `exitwhen`, and statement expressions.  Every other node, a read of an
  absent variable or entry, and running out of loop fuel leave the evaluator
  stuck.  `+` on two strings is concatenation.
*/
module ImInterp {
  import opened Wrappers
  import opened JassIm

  datatype Value = VInt(i: int) | VStr(s: string) | VBool(b: bool)

  /** Scalar variables, and array variables as maps from index to value. */
  datatype Env = Env(vars: map<VarRef, Value>, arrays: map<VarRef, map<int, Value>>)

  /** The outcome of a statement: it falls through, an `exitwhen` leaves the
      enclosing loop, or evaluation is stuck. */
  datatype Outcome = Done(env: Env) | Exit(env: Env) | Stuck

  function Apply(op: Op, a: Value, b: Value): Option<Value> {
    match (op, a, b)
    case (Plus, VInt(x), VInt(y)) => Some(VInt(x + y))
    case (Plus, VStr(x), VStr(y)) => Some(VStr(x + y))
    case (Minus, VInt(x), VInt(y)) => Some(VInt(x - y))
    case (Greater, VInt(x), VInt(y)) => Some(VBool(x > y))
    case (Less, VInt(x), VInt(y)) => Some(VBool(x < y))
    case _ => None
  }

  /** Evaluates an expression; statement expressions may change variables.
      `fuel` bounds the number of iterations of every loop. */
  function Eval(e: Expr, env: Env, fuel: nat): Option<(Value, Env)>
    decreases fuel, e, 0
  {
    match e
    case IntVal(n) => Some((VInt(n), env))
    case StringVal(s) => Some((VStr(s), env))
    case BoolVal(b) => Some((VBool(b), env))
    case VarAccess(v) => if v in env.vars then Some((env.vars[v], env)) else None
    case VarArrayAccess(a, ix) =>
      if |ix| != 1 then None
      else
        (match Eval(ix[0], env, fuel)
         case Some((VInt(k), env1)) =>
           if a in env1.arrays && k in env1.arrays[a] then Some((env1.arrays[a][k], env1)) else None
         case _ => None)
    case OperatorCall(op, xs) =>
      if |xs| != 2 then None
      else
        (match Eval(xs[0], env, fuel)
         case None => None
         case Some((a, env1)) =>
           (match Eval(xs[1], env1, fuel)
            case None => None
            case Some((b, env2)) =>
              (match Apply(op, a, b)
               case None => None
               case Some(r) => Some((r, env2)))))
    case StatementExpr(ss, r) =>
      (match ExecSeq(ss, env, fuel)
       case Done(env1) => Eval(r, env1, fuel)
       case _ => None)
    case _ => None
  }

  function Exec(s: Stmt, env: Env, fuel: nat): Outcome
    decreases fuel, s, 2
  {
    match s
    case Set(VarAccess(v), x) =>
      (match Eval(x, env, fuel)
       case Some((val, env1)) => Done(env1.(vars := env1.vars[v := val]))
       case None => Stuck)
    case Exitwhen(c) =>
      (match Eval(c, env, fuel)
       case Some((VBool(b), env1)) => if b then Exit(env1) else Done(env1)
       case _ => Stuck)
    case If(c, t, e) =>
      (match Eval(c, env, fuel)
       case Some((VBool(b), env1)) => if b then ExecSeq(t, env1, fuel) else ExecSeq(e, env1, fuel)
       case _ => Stuck)
    case Loop(b) => RunLoop(b, env, fuel)
    case StatementExpr(ss, r) =>
      (match ExecSeq(ss, env, fuel)
       case Done(env1) =>
         if r == Null then Done(env1)
         else (match Eval(r, env1, fuel) case Some((_, env2)) => Done(env2) case None => Stuck)
       case o => o)
    case _ => Stuck
  }

  function ExecSeq(ss: seq<Stmt>, env: Env, fuel: nat): Outcome
    decreases fuel, ss, 3
  {
    if ss == [] then Done(env)
    else
      match Exec(ss[0], env, fuel)
      case Done(env1) => ExecSeq(ss[1..], env1, fuel)
      case o => o
  }

  /** Runs the body until an `exitwhen` leaves it, at most `fuel` times. */
  function RunLoop(body: seq<Stmt>, env: Env, fuel: nat): Outcome
    decreases fuel, body, 4
  {
    if fuel == 0 then Stuck
    else
      match ExecSeq(body, env, fuel)
      case Done(env1) => RunLoop(body, env1, fuel - 1)
      case Exit(env1) => Done(env1)
      case Stuck => Stuck
  }
}

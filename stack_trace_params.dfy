/**
  Threading the stack position through signatures: every affected function
  (except the entry points `main` and `config`) gets one extra string
  parameter `stackPos`, appended last, and every direct call of such a
  function gets one extra argument, appended last: the literal
  "when calling <name><position of the call>".
*/
module StackTraceParams {
  import opened Wrappers
  import opened JassIm

  /** The two entry points that are never instrumented. */
  predicate IsMainOrConfig(f: ImFunction) {
    f.name == "main" || f.name == "config"
  }

  /** The name shown in a stack trace: the name of the source-level function
      definition when the function has one, otherwise the IR name. */
  function Name(f: ImFunction): string {
    match f.sourceName
    case Some(n) => n
    case None => f.name
  }

  /** The parameter appended to every instrumented function. */
  const StackPosParam := ImVar("stackPos", StringType)

  /** The position suffix of a call-site label: empty for positions in
      generated code (file names starting with "<"), otherwise " in " followed
      by the printed position. */
  function GetCallPos(source: WPos, printShort: WPos -> string): (callPos: string)
    ensures "<" <= source.file ==> callPos == ""
    ensures !("<" <= source.file) ==> callPos == " in " + printShort(source)
  {
    if "<" <= source.file then "" else " in " + printShort(source)
  }

  /** The argument passed at a call of the function shown as `calleeName`. */
  function CallLabel(calleeName: string, pos: WPos, printShort: WPos -> string): string {
    "when calling " + calleeName + GetCallPos(pos, printShort)
  }

  /** The label names the callee and, outside generated code, the printed call position. */
  lemma CallLabelShape(calleeName: string, pos: WPos, printShort: WPos -> string)
    ensures "<" <= pos.file ==> CallLabel(calleeName, pos, printShort) == "when calling " + calleeName
    ensures !("<" <= pos.file) ==>
      CallLabel(calleeName, pos, printShort) == "when calling " + calleeName + " in " + printShort(pos)
    ensures "when calling " + calleeName <= CallLabel(calleeName, pos, printShort)
  {
  }

  // ---------------------------------------------------------------------
  // The call-site rewrite.  `targets` maps every threaded function to the
  // name its call-site labels show.

  function ThreadCalls(s: Stmt, targets: map<FuncId, string>, printShort: WPos -> string): Stmt {
    match s
    case Return(v) => Return(ThreadCalls(v, targets, printShort))
    case If(c, t, e) => If(ThreadCalls(c, targets, printShort), ThreadCallsSeq(t, targets, printShort), ThreadCallsSeq(e, targets, printShort))
    case Loop(b) => Loop(ThreadCallsSeq(b, targets, printShort))
    case Exitwhen(c) => Exitwhen(ThreadCalls(c, targets, printShort))
    case Set(l, r) => Set(ThreadCalls(l, targets, printShort), ThreadCalls(r, targets, printShort))
    case VarArrayAccess(a, ix) => VarArrayAccess(a, ThreadCallsSeq(ix, targets, printShort))
    case OperatorCall(op, xs) => OperatorCall(op, ThreadCallsSeq(xs, targets, printShort))
    case FunctionCall(g, args, tail, pos) =>
      var args' := ThreadCallsSeq(args, targets, printShort);
      if g in targets then FunctionCall(g, args' + [StringVal(CallLabel(targets[g], pos, printShort))], tail, pos)
      else FunctionCall(g, args', tail, pos)
    case StatementExpr(b, r) => StatementExpr(ThreadCallsSeq(b, targets, printShort), ThreadCalls(r, targets, printShort))
    case _ => s
  }

  function ThreadCallsSeq(ss: seq<Stmt>, targets: map<FuncId, string>, printShort: WPos -> string): (r: seq<Stmt>)
    ensures |r| == |ss|
  {
    seq(|ss|, i requires 0 <= i < |ss| => ThreadCalls(ss[i], targets, printShort))
  }

  /** Removes the last argument of every call of a threaded function: the
      inverse of `ThreadCalls`. */
  function DropThreadedArgs(s: Stmt, targets: set<FuncId>): Stmt {
    match s
    case Return(v) => Return(DropThreadedArgs(v, targets))
    case If(c, t, e) => If(DropThreadedArgs(c, targets), DropThreadedArgsSeq(t, targets), DropThreadedArgsSeq(e, targets))
    case Loop(b) => Loop(DropThreadedArgsSeq(b, targets))
    case Exitwhen(c) => Exitwhen(DropThreadedArgs(c, targets))
    case Set(l, r) => Set(DropThreadedArgs(l, targets), DropThreadedArgs(r, targets))
    case VarArrayAccess(a, ix) => VarArrayAccess(a, DropThreadedArgsSeq(ix, targets))
    case OperatorCall(op, xs) => OperatorCall(op, DropThreadedArgsSeq(xs, targets))
    case FunctionCall(g, args, tail, pos) =>
      if g in targets && |args| > 0 then FunctionCall(g, DropThreadedArgsSeq(args[..|args| - 1], targets), tail, pos)
      else FunctionCall(g, DropThreadedArgsSeq(args, targets), tail, pos)
    case StatementExpr(b, r) => StatementExpr(DropThreadedArgsSeq(b, targets), DropThreadedArgs(r, targets))
    case _ => s
  }

  function DropThreadedArgsSeq(ss: seq<Stmt>, targets: set<FuncId>): (r: seq<Stmt>)
    ensures |r| == |ss|
  {
    seq(|ss|, i requires 0 <= i < |ss| => DropThreadedArgs(ss[i], targets))
  }

  /** Threading changes nothing but the appended arguments. */
  lemma {:induction false} ThreadCallsRoundTrip(s: Stmt, targets: map<FuncId, string>, printShort: WPos -> string)
    ensures DropThreadedArgs(ThreadCalls(s, targets, printShort), targets.Keys) == s
  {
    match s
    case Return(v) => ThreadCallsRoundTrip(v, targets, printShort);
    case If(c, t, e) =>
      ThreadCallsRoundTrip(c, targets, printShort);
      ThreadCallsSeqRoundTrip(t, targets, printShort);
      ThreadCallsSeqRoundTrip(e, targets, printShort);
    case Loop(b) => ThreadCallsSeqRoundTrip(b, targets, printShort);
    case Exitwhen(c) => ThreadCallsRoundTrip(c, targets, printShort);
    case Set(l, r) => ThreadCallsRoundTrip(l, targets, printShort); ThreadCallsRoundTrip(r, targets, printShort);
    case VarArrayAccess(a, ix) => ThreadCallsSeqRoundTrip(ix, targets, printShort);
    case OperatorCall(op, xs) => ThreadCallsSeqRoundTrip(xs, targets, printShort);
    case FunctionCall(g, args, tail, pos) =>
      ThreadCallsSeqRoundTrip(args, targets, printShort);
      var args' := ThreadCallsSeq(args, targets, printShort);
      if g in targets {
        var withLabel := args' + [StringVal(CallLabel(targets[g], pos, printShort))];
        assert withLabel[..|withLabel| - 1] == args';
      }
    case StatementExpr(b, r) => ThreadCallsSeqRoundTrip(b, targets, printShort); ThreadCallsRoundTrip(r, targets, printShort);
    case _ =>
  }

  lemma {:induction false} ThreadCallsSeqRoundTrip(ss: seq<Stmt>, targets: map<FuncId, string>, printShort: WPos -> string)
    ensures DropThreadedArgsSeq(ThreadCallsSeq(ss, targets, printShort), targets.Keys) == ss
  {
    forall i | 0 <= i < |ss|
      ensures DropThreadedArgsSeq(ThreadCallsSeq(ss, targets, printShort), targets.Keys)[i] == ss[i]
    {
      ThreadCallsRoundTrip(ss[i], targets, printShort);
    }
  }

  /** Every call of a threaded function ends with its call-site label. */
  predicate CallsLabelled(s: Stmt, targets: map<FuncId, string>, printShort: WPos -> string) {
    match s
    case Return(v) => CallsLabelled(v, targets, printShort)
    case If(c, t, e) => CallsLabelled(c, targets, printShort) && CallsLabelledSeq(t, targets, printShort) && CallsLabelledSeq(e, targets, printShort)
    case Loop(b) => CallsLabelledSeq(b, targets, printShort)
    case Exitwhen(c) => CallsLabelled(c, targets, printShort)
    case Set(l, r) => CallsLabelled(l, targets, printShort) && CallsLabelled(r, targets, printShort)
    case VarArrayAccess(_, ix) => CallsLabelledSeq(ix, targets, printShort)
    case OperatorCall(_, xs) => CallsLabelledSeq(xs, targets, printShort)
    case FunctionCall(g, args, _, pos) =>
      && (g in targets ==> |args| > 0 && args[|args| - 1] == StringVal(CallLabel(targets[g], pos, printShort)))
      && CallsLabelledSeq(args, targets, printShort)
    case StatementExpr(b, r) => CallsLabelledSeq(b, targets, printShort) && CallsLabelled(r, targets, printShort)
    case _ => true
  }

  predicate CallsLabelledSeq(ss: seq<Stmt>, targets: map<FuncId, string>, printShort: WPos -> string) {
    forall i | 0 <= i < |ss| :: CallsLabelled(ss[i], targets, printShort)
  }

  lemma {:induction false} ThreadCallsLabels(s: Stmt, targets: map<FuncId, string>, printShort: WPos -> string)
    ensures CallsLabelled(ThreadCalls(s, targets, printShort), targets, printShort)
  {
    match s
    case Return(v) => ThreadCallsLabels(v, targets, printShort);
    case If(c, t, e) =>
      ThreadCallsLabels(c, targets, printShort);
      ThreadCallsSeqLabels(t, targets, printShort);
      ThreadCallsSeqLabels(e, targets, printShort);
    case Loop(b) => ThreadCallsSeqLabels(b, targets, printShort);
    case Exitwhen(c) => ThreadCallsLabels(c, targets, printShort);
    case Set(l, r) => ThreadCallsLabels(l, targets, printShort); ThreadCallsLabels(r, targets, printShort);
    case VarArrayAccess(a, ix) => ThreadCallsSeqLabels(ix, targets, printShort);
    case OperatorCall(op, xs) => ThreadCallsSeqLabels(xs, targets, printShort);
    case FunctionCall(g, args, tail, pos) =>
      ThreadCallsSeqLabels(args, targets, printShort);
      var args' := ThreadCallsSeq(args, targets, printShort);
      if g in targets {
        var labelArg := StringVal(CallLabel(targets[g], pos, printShort));
        forall i | 0 <= i < |args' + [labelArg]| ensures CallsLabelled((args' + [labelArg])[i], targets, printShort) {
          if i < |args'| {
            assert (args' + [labelArg])[i] == args'[i];
          }
        }
      }
    case StatementExpr(b, r) => ThreadCallsSeqLabels(b, targets, printShort); ThreadCallsLabels(r, targets, printShort);
    case _ =>
  }

  lemma {:induction false} ThreadCallsSeqLabels(ss: seq<Stmt>, targets: map<FuncId, string>, printShort: WPos -> string)
    ensures CallsLabelledSeq(ThreadCallsSeq(ss, targets, printShort), targets, printShort)
  {
    forall i | 0 <= i < |ss| ensures CallsLabelled(ThreadCallsSeq(ss, targets, printShort)[i], targets, printShort) {
      ThreadCallsLabels(ss[i], targets, printShort);
    }
  }

  /** Threading for one set of functions and then for another, disjoint one is
      threading for both at once: the order in which functions are processed
      does not matter. */
  lemma {:induction false} ThreadCallsCompose(s: Stmt, a: map<FuncId, string>, b: map<FuncId, string>, printShort: WPos -> string)
    requires a.Keys !! b.Keys
    ensures ThreadCalls(ThreadCalls(s, a, printShort), b, printShort) == ThreadCalls(s, a + b, printShort)
    decreases s, 1
  {
    match s
    case Return(v) => ThreadCallsCompose(v, a, b, printShort);
    case If(c, t, e) =>
      ThreadCallsCompose(c, a, b, printShort);
      ThreadCallsSeqCompose(t, a, b, printShort);
      ThreadCallsSeqCompose(e, a, b, printShort);
    case Loop(body) => ThreadCallsSeqCompose(body, a, b, printShort);
    case Exitwhen(c) => ThreadCallsCompose(c, a, b, printShort);
    case Set(l, r) => ThreadCallsCompose(l, a, b, printShort); ThreadCallsCompose(r, a, b, printShort);
    case VarArrayAccess(arr, ix) => ThreadCallsSeqCompose(ix, a, b, printShort);
    case OperatorCall(op, xs) => ThreadCallsSeqCompose(xs, a, b, printShort);
    case FunctionCall(g, args, tail, pos) => CallCompose(g, args, tail, pos, a, b, printShort);
    case StatementExpr(body, r) => ThreadCallsSeqCompose(body, a, b, printShort); ThreadCallsCompose(r, a, b, printShort);
    case _ =>
  }

  /** A call gains at most one label, from whichever map names its callee. */
  lemma {:induction false} CallCompose(g: FuncId, args: seq<Expr>, tail: bool, pos: WPos, a: map<FuncId, string>,
                                       b: map<FuncId, string>, printShort: WPos -> string)
    requires a.Keys !! b.Keys
    ensures ThreadCalls(ThreadCalls(FunctionCall(g, args, tail, pos), a, printShort), b, printShort)
      == ThreadCalls(FunctionCall(g, args, tail, pos), a + b, printShort)
    decreases FunctionCall(g, args, tail, pos), 0
  {
    ThreadCallsSeqCompose(args, a, b, printShort);
    var args' := ThreadCallsSeq(args, a, printShort);
    if g in a {
      var labelArg := StringVal(CallLabel(a[g], pos, printShort));
      assert ThreadCallsSeq(args' + [labelArg], b, printShort) == ThreadCallsSeq(args', b, printShort) + [labelArg];
    }
  }

  lemma {:induction false} ThreadCallsSeqCompose(ss: seq<Stmt>, a: map<FuncId, string>, b: map<FuncId, string>, printShort: WPos -> string)
    requires a.Keys !! b.Keys
    ensures ThreadCallsSeq(ThreadCallsSeq(ss, a, printShort), b, printShort) == ThreadCallsSeq(ss, a + b, printShort)
  {
    forall i | 0 <= i < |ss|
      ensures ThreadCallsSeq(ThreadCallsSeq(ss, a, printShort), b, printShort)[i] == ThreadCallsSeq(ss, a + b, printShort)[i]
    {
      ThreadCallsCompose(ss[i], a, b, printShort);
    }
  }

  // ---------------------------------------------------------------------
  // Arity: a call of a threaded function gains exactly one argument, just as
  // the function gains exactly one parameter.

  /** Parameter counts after threading. */
  function Bumped(pc: seq<nat>, targets: set<FuncId>): (r: seq<nat>)
    ensures |r| == |pc|
  {
    seq(|pc|, g requires 0 <= g < |pc| => if g in targets then pc[g] + 1 else pc[g])
  }

  lemma {:induction false} ThreadCallsArity(s: Stmt, targets: map<FuncId, string>, printShort: WPos -> string, pc: seq<nat>)
    requires CallsOk(s, pc)
    ensures CallsOk(ThreadCalls(s, targets, printShort), Bumped(pc, targets.Keys))
  {
    match s
    case Return(v) => ThreadCallsArity(v, targets, printShort, pc);
    case If(c, t, e) =>
      ThreadCallsArity(c, targets, printShort, pc);
      ThreadCallsSeqArity(t, targets, printShort, pc);
      ThreadCallsSeqArity(e, targets, printShort, pc);
    case Loop(b) => ThreadCallsSeqArity(b, targets, printShort, pc);
    case Exitwhen(c) => ThreadCallsArity(c, targets, printShort, pc);
    case Set(l, r) => ThreadCallsArity(l, targets, printShort, pc); ThreadCallsArity(r, targets, printShort, pc);
    case VarArrayAccess(a, ix) => ThreadCallsSeqArity(ix, targets, printShort, pc);
    case OperatorCall(op, xs) => ThreadCallsSeqArity(xs, targets, printShort, pc);
    case FunctionCall(g, args, tail, pos) =>
      ThreadCallsSeqArity(args, targets, printShort, pc);
      var args' := ThreadCallsSeq(args, targets, printShort);
      var pc' := Bumped(pc, targets.Keys);
      if g in targets {
        var labelArg := StringVal(CallLabel(targets[g], pos, printShort));
        forall i | 0 <= i < |args' + [labelArg]| ensures CallsOk((args' + [labelArg])[i], pc') {
          if i < |args'| {
            assert (args' + [labelArg])[i] == args'[i];
          }
        }
      }
    case StatementExpr(b, r) => ThreadCallsSeqArity(b, targets, printShort, pc); ThreadCallsArity(r, targets, printShort, pc);
    case _ =>
  }

  lemma {:induction false} ThreadCallsSeqArity(ss: seq<Stmt>, targets: map<FuncId, string>, printShort: WPos -> string, pc: seq<nat>)
    requires CallsOkSeq(ss, pc)
    ensures CallsOkSeq(ThreadCallsSeq(ss, targets, printShort), Bumped(pc, targets.Keys))
  {
    forall i | 0 <= i < |ss| ensures CallsOk(ThreadCallsSeq(ss, targets, printShort)[i], Bumped(pc, targets.Keys)) {
      ThreadCallsArity(ss[i], targets, printShort, pc);
    }
  }

  // ---------------------------------------------------------------------
  // The whole-program effect.

  /** The threaded functions of `fs`: the affected ones other than main and
      config, each with the name its call-site labels show. */
  function ThreadedNames(fs: seq<ImFunction>, affected: set<FuncId>): (targets: map<FuncId, string>)
    ensures forall f :: f in targets <==> f in affected && f < |fs| && !IsMainOrConfig(fs[f])
  {
    map f | f in affected && f < |fs| && !IsMainOrConfig(fs[f]) :: Name(fs[f])
  }

  /** One function after threading: its own extra parameter if it is threaded,
      and the extra argument at every call of a threaded function. */
  function ThreadFunction(f: ImFunction, id: FuncId, targets: map<FuncId, string>, printShort: WPos -> string): ImFunction {
    f.(params := if id in targets then f.params + [StackPosParam] else f.params,
       body := ThreadCallsSeq(f.body, targets, printShort))
  }

  function ThreadProgram(fs: seq<ImFunction>, targets: map<FuncId, string>, printShort: WPos -> string): (r: seq<ImFunction>)
    ensures |r| == |fs|
  {
    seq(|fs|, i requires 0 <= i < |fs| => ThreadFunction(fs[i], i, targets, printShort))
  }

  /** Threading keeps every call's argument count equal to its callee's
      parameter count. */
  lemma ThreadProgramWellFormed(fs: seq<ImFunction>, targets: map<FuncId, string>, printShort: WPos -> string)
    requires WellFormed(fs)
    ensures WellFormed(ThreadProgram(fs, targets, printShort))
  {
    var fs' := ThreadProgram(fs, targets, printShort);
    assert ParamCounts(fs') == Bumped(ParamCounts(fs), targets.Keys);
    forall i | 0 <= i < |fs'| ensures CallsOkSeq(fs'[i].body, ParamCounts(fs')) {
      ThreadCallsSeqArity(fs[i].body, targets, printShort, ParamCounts(fs));
    }
  }

  /** A threaded function gains exactly one parameter, `stackPos`, appended
      last; every other function keeps its parameters.  Nothing but parameters
      and call arguments changes. */
  lemma ThreadFunctionParams(fs: seq<ImFunction>, affected: set<FuncId>, printShort: WPos -> string, i: FuncId)
    requires i < |fs|
    ensures var f' := ThreadProgram(fs, ThreadedNames(fs, affected), printShort)[i];
      && (i in affected && !IsMainOrConfig(fs[i]) ==> f'.params == fs[i].params + [StackPosParam])
      && (i !in affected || IsMainOrConfig(fs[i]) ==> f'.params == fs[i].params)
      && f'.(params := fs[i].params, body := fs[i].body) == fs[i]
      && DropThreadedArgsSeq(f'.body, ThreadedNames(fs, affected).Keys) == fs[i].body
  {
    ThreadCallsSeqRoundTrip(fs[i].body, ThreadedNames(fs, affected), printShort);
  }

  /** Threading the functions one after another, in any order, is threading
      them all at once. */
  lemma ThreadProgramCompose(fs: seq<ImFunction>, a: map<FuncId, string>, b: map<FuncId, string>, printShort: WPos -> string)
    requires a.Keys !! b.Keys
    ensures ThreadProgram(ThreadProgram(fs, a, printShort), b, printShort) == ThreadProgram(fs, a + b, printShort)
  {
    var r1 := ThreadProgram(ThreadProgram(fs, a, printShort), b, printShort);
    var r2 := ThreadProgram(fs, a + b, printShort);
    forall i | 0 <= i < |fs| ensures r1[i] == r2[i] {
      ThreadCallsSeqCompose(fs[i].body, a, b, printShort);
    }
  }

  /** With nothing to thread, threading changes nothing. */
  lemma {:induction false} ThreadCallsNone(s: Stmt, printShort: WPos -> string)
    ensures ThreadCalls(s, map[], printShort) == s
  {
    match s
    case Return(v) => ThreadCallsNone(v, printShort);
    case If(c, t, e) => ThreadCallsNone(c, printShort); ThreadCallsSeqNone(t, printShort); ThreadCallsSeqNone(e, printShort);
    case Loop(b) => ThreadCallsSeqNone(b, printShort);
    case Exitwhen(c) => ThreadCallsNone(c, printShort);
    case Set(l, r) => ThreadCallsNone(l, printShort); ThreadCallsNone(r, printShort);
    case VarArrayAccess(a, ix) => ThreadCallsSeqNone(ix, printShort);
    case OperatorCall(op, xs) => ThreadCallsSeqNone(xs, printShort);
    case FunctionCall(g, args, tail, pos) => ThreadCallsSeqNone(args, printShort);
    case StatementExpr(b, r) => ThreadCallsSeqNone(b, printShort); ThreadCallsNone(r, printShort);
    case _ =>
  }

  lemma {:induction false} ThreadCallsSeqNone(ss: seq<Stmt>, printShort: WPos -> string)
    ensures ThreadCallsSeq(ss, map[], printShort) == ss
  {
    forall i | 0 <= i < |ss| ensures ThreadCallsSeq(ss, map[], printShort)[i] == ss[i] {
      ThreadCallsNone(ss[i], printShort);
    }
  }

  lemma ThreadProgramNone(fs: seq<ImFunction>, printShort: WPos -> string)
    ensures ThreadProgram(fs, map[], printShort) == fs
  {
    forall i | 0 <= i < |fs| ensures ThreadProgram(fs, map[], printShort)[i] == fs[i] {
      ThreadCallsSeqNone(fs[i].body, printShort);
    }
  }
}

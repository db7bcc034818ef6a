/**
  The trigger rewrite of the stack-trace pass.

  Every explicit stack-trace read is replaced by a statement expression that
  walks the global stack downwards from the current depth and concatenates at
  most `MaxStackTraceSize` entries, each preceded by a line break and three
  spaces; its value is the concatenated text.  Each replacement uses three
  new locals of the enclosing function: the text, the index and the counter.
  Accesses to variable arrays with more than one index are trigger sites of
  the scan only and are left as they are.
*/
module StackTraceErrors {
  import opened Wrappers
  import opened JassIm
  import opened ImInterp

  const MaxStackTraceSize: nat := 20

  /** `idx := idx - 1; limit := limit + 1; exitwhen limit > 20;
      exitwhen idx < 0; str := str + ("\n   " + stack[idx])` */
  function TraceLoopBody(str: VarRef, idx: VarRef, limit: VarRef, stack: VarRef): seq<Stmt> {
    [ Decrement(idx),
      Increment(limit),
      Exitwhen(OperatorCall(Greater, [VarAccess(limit), IntVal(MaxStackTraceSize)])),
      Exitwhen(OperatorCall(Less, [VarAccess(idx), IntVal(0)])),
      Set(VarAccess(str), OperatorCall(Plus, [VarAccess(str),
        OperatorCall(Plus, [StringVal("\n   "), VarArrayAccess(stack, [VarAccess(idx)])])])) ]
  }

  /** The expression that replaces one stack-trace read. */
  function TraceSnippet(str: VarRef, idx: VarRef, limit: VarRef, stackSize: VarRef, stack: VarRef): Expr {
    StatementExpr(
      [ Set(VarAccess(str), StringVal("")),
        Set(VarAccess(idx), VarAccess(stackSize)),
        Set(VarAccess(limit), IntVal(0)),
        Loop(TraceLoopBody(str, idx, limit, stack)) ],
      VarAccess(str))
  }

  // ---------------------------------------------------------------------
  // What the snippet computes

  /** How many entries the loop appends when the depth is `n`. */
  function FrameCount(n: int): nat {
    if n <= 0 then 0 else if n > MaxStackTraceSize then MaxStackTraceSize else n
  }

  /** The entries the loop reads are present and are strings. */
  predicate FramesPresent(arr: map<int, Value>, n: int) {
    forall p | n - FrameCount(n) <= p < n :: p in arr && arr[p].VStr?
  }

  /** The entries of the trace, innermost call first. */
  function Frames(arr: map<int, Value>, n: int): (r: seq<string>)
    requires FramesPresent(arr, n)
    ensures |r| == FrameCount(n)
    ensures forall k | 0 <= k < |r| :: r[k] == arr[n - 1 - k].s
  {
    seq(FrameCount(n), k requires 0 <= k < FrameCount(n) => arr[n - 1 - k].s)
  }

  /** The text of a trace: every entry on a line of its own. */
  function TraceText(frames: seq<string>): string {
    if frames == [] then "" else TraceText(frames[..|frames| - 1]) + ("\n   " + frames[|frames| - 1])
  }

  /** At most `MaxStackTraceSize` entries, from the top of the stack
      downwards, and none below the bottom. */
  lemma FramesBounded(arr: map<int, Value>, n: int)
    requires FramesPresent(arr, n)
    ensures |Frames(arr, n)| <= MaxStackTraceSize
    ensures n <= MaxStackTraceSize ==> |Frames(arr, n)| == if n < 0 then 0 else n
  {
  }

  /** Each entry adds one line to the text. */
  lemma {:induction false} TraceTextLength(frames: seq<string>)
    ensures |TraceText(frames)| == 4 * |frames| + SumLengths(frames)
  {
    if frames != [] {
      TraceTextLength(frames[..|frames| - 1]);
      assert SumLengths(frames) == SumLengths(frames[..|frames| - 1]) + |frames[|frames| - 1]|;
    }
  }

  function SumLengths(frames: seq<string>): nat {
    if frames == [] then 0 else SumLengths(frames[..|frames| - 1]) + |frames[|frames| - 1]|
  }

  /** The variables of one snippet are four different variables. */
  predicate SnippetVars(str: VarRef, idx: VarRef, limit: VarRef, stackSize: VarRef) {
    str != idx && str != limit && str != stackSize && idx != limit && idx != stackSize && limit != stackSize
  }

  /** The loop variables before iteration `j + 1`: `j` entries appended. */
  predicate LoopState(env: Env, str: VarRef, idx: VarRef, limit: VarRef, stack: VarRef, n: int, j: nat)
  {
    && stack in env.arrays && FramesPresent(env.arrays[stack], n) && j <= FrameCount(n)
    && idx in env.vars && env.vars[idx] == VInt(n - j)
    && limit in env.vars && env.vars[limit] == VInt(j)
    && str in env.vars && env.vars[str] == VStr(TraceText(Frames(env.arrays[stack], n)[..j]))
  }

  lemma EvalVarOpConst(op: Op, v: VarRef, c: int, env: Env, fuel: nat)
    requires v in env.vars && Apply(op, env.vars[v], VInt(c)).Some?
    ensures Eval(OperatorCall(op, [VarAccess(v), IntVal(c)]), env, fuel) == Some((Apply(op, env.vars[v], VInt(c)).value, env))
  {
    var xs := [VarAccess(v), IntVal(c)];
    assert Eval(xs[0], env, fuel) == Some((env.vars[v], env));
    assert Eval(xs[1], env, fuel) == Some((VInt(c), env));
  }

  /** An assignment of a side-effect-free value updates just its variable. */
  lemma ExecAssign(v: VarRef, x: Expr, val: Value, env: Env, fuel: nat)
    requires Eval(x, env, fuel) == Some((val, env))
    ensures Exec(Set(VarAccess(v), x), env, fuel) == Done(env.(vars := env.vars[v := val]))
  {
  }

  lemma ExecSeqCons(s: Stmt, rest: seq<Stmt>, env: Env, fuel: nat)
    requires Exec(s, env, fuel).Done?
    ensures ExecSeq([s] + rest, env, fuel) == ExecSeq(rest, Exec(s, env, fuel).env, fuel)
  {
    assert ([s] + rest)[1..] == rest;
  }

  /** The first two statements of an iteration: `idx` goes down, `limit` up. */
  lemma IterationCounters(env: Env, str: VarRef, idx: VarRef, limit: VarRef, stack: VarRef, n: int, j: nat, fuel: nat)
    requires LoopState(env, str, idx, limit, stack, n, j) && idx != limit
    ensures var env2 := env.(vars := env.vars[idx := VInt(n - j - 1)][limit := VInt(j + 1)]);
      ExecSeq(TraceLoopBody(str, idx, limit, stack), env, fuel)
        == ExecSeq(TraceLoopBody(str, idx, limit, stack)[2..], env2, fuel)
  {
    var body := TraceLoopBody(str, idx, limit, stack);
    EvalVarOpConst(Minus, idx, 1, env, fuel);
    var env1 := env.(vars := env.vars[idx := VInt(n - j - 1)]);
    assert Exec(body[0], env, fuel) == Done(env1);
    ExecSeqCons(body[0], body[1..], env, fuel);
    assert body == [body[0]] + body[1..];
    EvalVarOpConst(Plus, limit, 1, env1, fuel);
    var env2 := env1.(vars := env1.vars[limit := VInt(j + 1)]);
    assert Exec(body[1], env1, fuel) == Done(env2);
    ExecSeqCons(body[1], body[2..], env1, fuel);
    assert body[1..] == [body[1]] + body[2..];
  }

  /** The value appended in iteration `j + 1`. */
  lemma AppendValue(env2: Env, str: VarRef, idx: VarRef, stack: VarRef, n: int, j: nat, text: string, fuel: nat)
    requires stack in env2.arrays && FramesPresent(env2.arrays[stack], n) && j < FrameCount(n)
    requires idx in env2.vars && env2.vars[idx] == VInt(n - j - 1)
    requires str in env2.vars && env2.vars[str] == VStr(text)
    ensures var entry := VarArrayAccess(stack, [VarAccess(idx)]);
      var appended := OperatorCall(Plus, [VarAccess(str), OperatorCall(Plus, [StringVal("\n   "), entry])]);
      Eval(appended, env2, fuel) == Some((VStr(text + ("\n   " + Frames(env2.arrays[stack], n)[j])), env2))
  {
    var frames := Frames(env2.arrays[stack], n);
    var arr := env2.arrays[stack];
    var entry := VarArrayAccess(stack, [VarAccess(idx)]);
    assert n - FrameCount(n) <= n - 1 - j < n;
    assert n - 1 - j in arr && arr[n - 1 - j] == VStr(frames[j]);
    assert Eval([VarAccess(idx)][0], env2, fuel) == Some((VInt(n - j - 1), env2));
    assert Eval(entry, env2, fuel) == Some((VStr(frames[j]), env2));
    var suffix := OperatorCall(Plus, [StringVal("\n   "), entry]);
    assert Eval([StringVal("\n   "), entry][0], env2, fuel) == Some((VStr("\n   "), env2));
    assert Eval(suffix, env2, fuel) == Some((VStr("\n   " + frames[j]), env2));
    assert Eval([VarAccess(str), suffix][0], env2, fuel) == Some((VStr(text), env2));
  }

  /** In an iteration before the last neither `exitwhen` leaves the loop. */
  lemma IterationStays(env2: Env, str: VarRef, idx: VarRef, limit: VarRef, stack: VarRef, n: int, j: nat, fuel: nat)
    requires j < FrameCount(n)
    requires idx in env2.vars && env2.vars[idx] == VInt(n - j - 1)
    requires limit in env2.vars && env2.vars[limit] == VInt(j + 1)
    ensures var rest := TraceLoopBody(str, idx, limit, stack)[2..];
      ExecSeq(rest, env2, fuel) == ExecSeq(rest[2..], env2, fuel)
  {
    var rest := TraceLoopBody(str, idx, limit, stack)[2..];
    EvalVarOpConst(Greater, limit, MaxStackTraceSize, env2, fuel);
    assert Exec(rest[0], env2, fuel) == Done(env2);
    ExecSeqCons(rest[0], rest[1..], env2, fuel);
    assert rest == [rest[0]] + rest[1..];
    EvalVarOpConst(Less, idx, 0, env2, fuel);
    assert Exec(rest[1], env2, fuel) == Done(env2);
    ExecSeqCons(rest[1], rest[2..], env2, fuel);
    assert rest[1..] == [rest[1]] + rest[2..];
  }

  /** An iteration before the last appends the next entry. */
  lemma IterationAppends(env: Env, str: VarRef, idx: VarRef, limit: VarRef, stack: VarRef, n: int, j: nat, fuel: nat)
    requires LoopState(env, str, idx, limit, stack, n, j) && j < FrameCount(n)
    requires str != idx && str != limit && idx != limit
    ensures var frames := Frames(env.arrays[stack], n);
      var env3 := env.(vars := env.vars[idx := VInt(n - j - 1)][limit := VInt(j + 1)][str := VStr(TraceText(frames[..j + 1]))]);
      && ExecSeq(TraceLoopBody(str, idx, limit, stack), env, fuel) == Done(env3)
      && LoopState(env3, str, idx, limit, stack, n, j + 1)
  {
    var body := TraceLoopBody(str, idx, limit, stack);
    var frames := Frames(env.arrays[stack], n);
    IterationCounters(env, str, idx, limit, stack, n, j, fuel);
    var env2 := env.(vars := env.vars[idx := VInt(n - j - 1)][limit := VInt(j + 1)]);
    IterationStays(env2, str, idx, limit, stack, n, j, fuel);
    var text := TraceText(frames[..j]);
    AppendValue(env2, str, idx, stack, n, j, text, fuel);
    assert frames[..j + 1][..j] == frames[..j];
    assert TraceText(frames[..j + 1]) == text + ("\n   " + frames[j]);
    var env3 := env2.(vars := env2.vars[str := VStr(TraceText(frames[..j + 1]))]);
    var last := body[2..][2..];
    assert last == [body[4]];
    assert Exec(body[4], env2, fuel) == Done(env3);
    ExecSeqCons(body[4], [], env2, fuel);
  }

  /** The last iteration leaves the loop without appending. */
  lemma IterationExits(env: Env, str: VarRef, idx: VarRef, limit: VarRef, stack: VarRef, n: int, j: nat, fuel: nat)
    requires LoopState(env, str, idx, limit, stack, n, j) && j == FrameCount(n)
    requires idx != limit
    ensures var env2 := env.(vars := env.vars[idx := VInt(n - j - 1)][limit := VInt(j + 1)]);
      ExecSeq(TraceLoopBody(str, idx, limit, stack), env, fuel) == Exit(env2)
  {
    var body := TraceLoopBody(str, idx, limit, stack);
    IterationCounters(env, str, idx, limit, stack, n, j, fuel);
    var env2 := env.(vars := env.vars[idx := VInt(n - j - 1)][limit := VInt(j + 1)]);
    var rest := body[2..];
    EvalVarOpConst(Greater, limit, MaxStackTraceSize, env2, fuel);
    if j + 1 > MaxStackTraceSize {
      assert Exec(rest[0], env2, fuel) == Exit(env2);
    } else {
      assert Exec(rest[0], env2, fuel) == Done(env2);
      ExecSeqCons(rest[0], rest[1..], env2, fuel);
      assert rest == [rest[0]] + rest[1..];
      EvalVarOpConst(Less, idx, 0, env2, fuel);
      assert Exec(rest[1], env2, fuel) == Exit(env2);
    }
  }

  /** From iteration `j + 1` on, the loop ends with every entry appended. */
  lemma {:induction false} LoopFrom(env: Env, str: VarRef, idx: VarRef, limit: VarRef, stack: VarRef, n: int, j: nat, fuel: nat)
    requires LoopState(env, str, idx, limit, stack, n, j)
    requires str != idx && str != limit && idx != limit
    requires fuel > FrameCount(n) - j
    ensures var out := RunLoop(TraceLoopBody(str, idx, limit, stack), env, fuel);
      && out.Done? && out.env.arrays == env.arrays && str in out.env.vars
      && out.env.vars[str] == VStr(TraceText(Frames(env.arrays[stack], n)))
    decreases FrameCount(n) - j
  {
    var body := TraceLoopBody(str, idx, limit, stack);
    var frames := Frames(env.arrays[stack], n);
    if j < FrameCount(n) {
      IterationAppends(env, str, idx, limit, stack, n, j, fuel);
      var env3 := env.(vars := env.vars[idx := VInt(n - j - 1)][limit := VInt(j + 1)][str := VStr(TraceText(frames[..j + 1]))]);
      LoopFrom(env3, str, idx, limit, stack, n, j + 1, fuel - 1);
    } else {
      IterationExits(env, str, idx, limit, stack, n, j, fuel);
      assert frames[..j] == frames;
    }
  }

  /** The three assignments in front of the loop start it in its first state. */
  lemma SnippetPrologue(env: Env, str: VarRef, idx: VarRef, limit: VarRef, stackSize: VarRef, stack: VarRef, n: int, fuel: nat)
    requires SnippetVars(str, idx, limit, stackSize)
    requires stackSize in env.vars && env.vars[stackSize] == VInt(n)
    requires stack in env.arrays && FramesPresent(env.arrays[stack], n)
    ensures var env3 := env.(vars := env.vars[str := VStr("")][idx := VInt(n)][limit := VInt(0)]);
      && ExecSeq(TraceSnippet(str, idx, limit, stackSize, stack).stmts, env, fuel)
           == ExecSeq([Loop(TraceLoopBody(str, idx, limit, stack))], env3, fuel)
      && LoopState(env3, str, idx, limit, stack, n, 0)
  {
    var loop := Loop(TraceLoopBody(str, idx, limit, stack));
    var s0 := Set(VarAccess(str), StringVal(""));
    var s1 := Set(VarAccess(idx), VarAccess(stackSize));
    var s2 := Set(VarAccess(limit), IntVal(0));
    assert TraceSnippet(str, idx, limit, stackSize, stack).stmts == [s0] + ([s1] + ([s2] + [loop]));
    var env1 := env.(vars := env.vars[str := VStr("")]);
    ExecAssign(str, StringVal(""), VStr(""), env, fuel);
    ExecSeqCons(s0, [s1] + ([s2] + [loop]), env, fuel);
    var env2 := env1.(vars := env1.vars[idx := VInt(n)]);
    ExecAssign(idx, VarAccess(stackSize), VInt(n), env1, fuel);
    ExecSeqCons(s1, [s2] + [loop], env1, fuel);
    ExecAssign(limit, IntVal(0), VInt(0), env2, fuel);
    ExecSeqCons(s2, [loop], env2, fuel);
    assert Frames(env.arrays[stack], n)[..0] == [];
  }

  /** Evaluating the snippet with depth `n` yields the trace text of the
      entries `stack[n-1]`, `stack[n-2]`, ..., at most `MaxStackTraceSize` of
      them (see `FramesBounded`). */
  lemma TraceSnippetValue(env: Env, str: VarRef, idx: VarRef, limit: VarRef, stackSize: VarRef, stack: VarRef, n: int, fuel: nat)
    requires SnippetVars(str, idx, limit, stackSize)
    requires stackSize in env.vars && env.vars[stackSize] == VInt(n)
    requires stack in env.arrays && FramesPresent(env.arrays[stack], n)
    requires fuel > MaxStackTraceSize
    ensures var r := Eval(TraceSnippet(str, idx, limit, stackSize, stack), env, fuel);
      r.Some? && r.value.0 == VStr(TraceText(Frames(env.arrays[stack], n)))
  {
    var snippet := TraceSnippet(str, idx, limit, stackSize, stack);
    SnippetPrologue(env, str, idx, limit, stackSize, stack, n, fuel);
    var env3 := env.(vars := env.vars[str := VStr("")][idx := VInt(n)][limit := VInt(0)]);
    LoopFrom(env3, str, idx, limit, stack, n, 0, fuel);
    var loop := Loop(TraceLoopBody(str, idx, limit, stack));
    var out := RunLoop(TraceLoopBody(str, idx, limit, stack), env3, fuel);
    assert Exec(loop, env3, fuel) == out;
    ExecSeqCons(loop, [], env3, fuel);
    assert [loop] + [] == [loop];
    assert ExecSeq(snippet.stmts, env, fuel) == out;
  }

  // ---------------------------------------------------------------------
  // The rewrite of the stack-trace reads

  /** The number of stack-trace reads inside the node. */
  function CountTraces(s: Stmt): nat {
    match s
    case GetStackTrace => 1
    case Return(v) => CountTraces(v)
    case If(c, t, e) => CountTraces(c) + CountTracesSeq(t) + CountTracesSeq(e)
    case Loop(b) => CountTracesSeq(b)
    case Exitwhen(c) => CountTraces(c)
    case Set(l, x) => CountTraces(l) + CountTraces(x)
    case VarArrayAccess(_, ix) => CountTracesSeq(ix)
    case OperatorCall(_, xs) => CountTracesSeq(xs)
    case FunctionCall(_, args, _, _) => CountTracesSeq(args)
    case StatementExpr(b, x) => CountTracesSeq(b) + CountTraces(x)
    case _ => 0
  }

  function CountTracesSeq(ss: seq<Stmt>): nat {
    if ss == [] then 0 else CountTraces(ss[0]) + CountTracesSeq(ss[1..])
  }

  lemma CountTracesSeqAppend(a: seq<Stmt>, b: seq<Stmt>)
    ensures CountTracesSeq(a + b) == CountTracesSeq(a) + CountTracesSeq(b)
  {
    if a == [] {
      assert a + b == b;
    } else {
      assert (a + b)[0] == a[0];
      assert (a + b)[1..] == a[1..] + b;
      CountTracesSeqAppend(a[1..], b);
    }
  }

  lemma CountTracesPair(x: Stmt, y: Stmt)
    ensures CountTracesSeq([x, y]) == CountTraces(x) + CountTraces(y)
  {
    var xy := [x, y];
    assert xy[0] == x && xy[1..] == [y];
    assert [y][0] == y && [y][1..] == [];
    assert CountTracesSeq([y]) == CountTraces(y);
  }

  lemma CountTracesSeqZero(ss: seq<Stmt>)
    requires forall k | 0 <= k < |ss| :: CountTraces(ss[k]) == 0
    ensures CountTracesSeq(ss) == 0
  {
    if ss != [] {
      assert forall k | 0 <= k < |ss[1..]| :: ss[1..][k] == ss[k + 1];
      CountTracesSeqZero(ss[1..]);
    }
  }

  lemma VarOpConstNoTrace(op: Op, v: VarRef, c: int)
    ensures CountTraces(OperatorCall(op, [VarAccess(v), IntVal(c)])) == 0
  {
    CountTracesPair(VarAccess(v), IntVal(c));
  }

  lemma AppendNoTrace(str: VarRef, idx: VarRef, stack: VarRef)
    ensures CountTraces(TraceLoopBody(str, idx, idx, stack)[4]) == 0
    ensures CountTraces(OperatorCall(Plus, [VarAccess(str),
      OperatorCall(Plus, [StringVal("\n   "), VarArrayAccess(stack, [VarAccess(idx)])])])) == 0
  {
    var entry := VarArrayAccess(stack, [VarAccess(idx)]);
    CountTracesSeqZero([VarAccess(idx)]);
    assert CountTraces(entry) == 0;
    CountTracesPair(StringVal("\n   "), entry);
    CountTracesPair(VarAccess(str), OperatorCall(Plus, [StringVal("\n   "), entry]));
  }

  lemma LoopBodyNoTrace(str: VarRef, idx: VarRef, limit: VarRef, stack: VarRef)
    ensures CountTracesSeq(TraceLoopBody(str, idx, limit, stack)) == 0
  {
    var body := TraceLoopBody(str, idx, limit, stack);
    VarOpConstNoTrace(Minus, idx, 1);
    VarOpConstNoTrace(Plus, limit, 1);
    VarOpConstNoTrace(Greater, limit, MaxStackTraceSize);
    VarOpConstNoTrace(Less, idx, 0);
    AppendNoTrace(str, idx, stack);
    CountTracesSeqZero(body);
  }

  lemma SnippetHasNoTrace(str: VarRef, idx: VarRef, limit: VarRef, stackSize: VarRef, stack: VarRef)
    ensures CountTraces(TraceSnippet(str, idx, limit, stackSize, stack)) == 0
  {
    LoopBodyNoTrace(str, idx, limit, stack);
    CountTracesSeqZero(TraceSnippet(str, idx, limit, stackSize, stack).stmts);
  }

  /** Replaces every stack-trace read inside `s` by a snippet over the locals
      numbered `next`, `next + 1`, `next + 2` (and on for later reads); the
      second component is the next unused local number. */
  function RewriteTraces(s: Stmt, next: nat, stackSize: VarRef, stack: VarRef): (r: (Stmt, nat))
    ensures r.1 == next + 3 * CountTraces(s)
  {
    match s
    case GetStackTrace =>
      (TraceSnippet(Local(next), Local(next + 1), Local(next + 2), stackSize, stack), next + 3)
    case Return(v) =>
      var (v', n1) := RewriteTraces(v, next, stackSize, stack);
      (Return(v'), n1)
    case If(c, t, e) =>
      var (c', n1) := RewriteTraces(c, next, stackSize, stack);
      var (t', n2) := RewriteTracesSeq(t, n1, stackSize, stack);
      var (e', n3) := RewriteTracesSeq(e, n2, stackSize, stack);
      (If(c', t', e'), n3)
    case Loop(b) =>
      var (b', n1) := RewriteTracesSeq(b, next, stackSize, stack);
      (Loop(b'), n1)
    case Exitwhen(c) =>
      var (c', n1) := RewriteTraces(c, next, stackSize, stack);
      (Exitwhen(c'), n1)
    case Set(l, x) =>
      var (l', n1) := RewriteTraces(l, next, stackSize, stack);
      var (x', n2) := RewriteTraces(x, n1, stackSize, stack);
      (Set(l', x'), n2)
    case VarArrayAccess(a, ix) =>
      var (ix', n1) := RewriteTracesSeq(ix, next, stackSize, stack);
      (VarArrayAccess(a, ix'), n1)
    case OperatorCall(op, xs) =>
      var (xs', n1) := RewriteTracesSeq(xs, next, stackSize, stack);
      (OperatorCall(op, xs'), n1)
    case FunctionCall(g, args, tail, pos) =>
      var (args', n1) := RewriteTracesSeq(args, next, stackSize, stack);
      (FunctionCall(g, args', tail, pos), n1)
    case StatementExpr(b, x) =>
      var (b', n1) := RewriteTracesSeq(b, next, stackSize, stack);
      var (x', n2) := RewriteTraces(x, n1, stackSize, stack);
      (StatementExpr(b', x'), n2)
    case _ => (s, next)
  }

  function RewriteTracesSeq(ss: seq<Stmt>, next: nat, stackSize: VarRef, stack: VarRef): (r: (seq<Stmt>, nat))
    ensures |r.0| == |ss|
    ensures r.1 == next + 3 * CountTracesSeq(ss)
  {
    if ss == [] then ([], next)
    else
      var (h, n1) := RewriteTraces(ss[0], next, stackSize, stack);
      var (t, n2) := RewriteTracesSeq(ss[1..], n1, stackSize, stack);
      ([h] + t, n2)
  }

  /** No stack-trace read is left after the rewrite. */
  lemma {:induction false} RewriteTracesClears(s: Stmt, next: nat, stackSize: VarRef, stack: VarRef)
    ensures CountTraces(RewriteTraces(s, next, stackSize, stack).0) == 0
    decreases s, 1
  {
    match s
    case GetStackTrace => SnippetHasNoTrace(Local(next), Local(next + 1), Local(next + 2), stackSize, stack);
    case Return(v) => RewriteTracesClears(v, next, stackSize, stack);
    case If(c, t, e) => IfClears(c, t, e, next, stackSize, stack);
    case Loop(b) => RewriteTracesSeqClears(b, next, stackSize, stack);
    case Exitwhen(c) => RewriteTracesClears(c, next, stackSize, stack);
    case Set(l, x) => PairClears(s, next, stackSize, stack);
    case VarArrayAccess(a, ix) => RewriteTracesSeqClears(ix, next, stackSize, stack);
    case OperatorCall(op, xs) => RewriteTracesSeqClears(xs, next, stackSize, stack);
    case FunctionCall(g, args, tail, pos) => RewriteTracesSeqClears(args, next, stackSize, stack);
    case StatementExpr(b, x) => PairClears(s, next, stackSize, stack);
    case _ =>
  }

  lemma {:induction false} IfClears(c: Stmt, t: seq<Stmt>, e: seq<Stmt>, next: nat, stackSize: VarRef, stack: VarRef)
    ensures CountTraces(RewriteTraces(If(c, t, e), next, stackSize, stack).0) == 0
    decreases If(c, t, e), 0
  {
    var (c', n1) := RewriteTraces(c, next, stackSize, stack);
    var (t', n2) := RewriteTracesSeq(t, n1, stackSize, stack);
    var e' := RewriteTracesSeq(e, n2, stackSize, stack).0;
    assert RewriteTraces(If(c, t, e), next, stackSize, stack).0 == If(c', t', e');
    RewriteTracesClears(c, next, stackSize, stack);
    RewriteTracesSeqClears(t, n1, stackSize, stack);
    RewriteTracesSeqClears(e, n2, stackSize, stack);
  }

  /** The two-child cases, `Set` and `StatementExpr`. */
  lemma {:induction false} PairClears(s: Stmt, next: nat, stackSize: VarRef, stack: VarRef)
    requires s.Set? || s.StatementExpr?
    ensures CountTraces(RewriteTraces(s, next, stackSize, stack).0) == 0
    decreases s, 0
  {
    if s.Set? {
      var (l', n1) := RewriteTraces(s.left, next, stackSize, stack);
      RewriteTracesClears(s.left, next, stackSize, stack);
      RewriteTracesClears(s.right, n1, stackSize, stack);
    } else {
      var (b', n1) := RewriteTracesSeq(s.stmts, next, stackSize, stack);
      RewriteTracesSeqClears(s.stmts, next, stackSize, stack);
      RewriteTracesClears(s.result, n1, stackSize, stack);
    }
  }

  lemma {:induction false} RewriteTracesSeqClears(ss: seq<Stmt>, next: nat, stackSize: VarRef, stack: VarRef)
    ensures CountTracesSeq(RewriteTracesSeq(ss, next, stackSize, stack).0) == 0
    decreases ss, 0
  {
    if ss != [] {
      var (h, n1) := RewriteTraces(ss[0], next, stackSize, stack);
      var (t, n2) := RewriteTracesSeq(ss[1..], n1, stackSize, stack);
      RewriteTracesClears(ss[0], next, stackSize, stack);
      RewriteTracesSeqClears(ss[1..], n1, stackSize, stack);
      assert ([h] + t)[1..] == t;
    }
  }

  /** Element `i` of a rewritten list is element `i` rewritten with the locals
      left after the reads in front of it. */
  lemma {:induction false} RewriteTracesSeqAt(ss: seq<Stmt>, next: nat, stackSize: VarRef, stack: VarRef, i: nat)
    requires i < |ss|
    ensures RewriteTracesSeq(ss, next, stackSize, stack).0[i]
      == RewriteTraces(ss[i], next + 3 * CountTracesSeq(ss[..i]), stackSize, stack).0
  {
    var (h, n1) := RewriteTraces(ss[0], next, stackSize, stack);
    var (t, n2) := RewriteTracesSeq(ss[1..], n1, stackSize, stack);
    assert RewriteTracesSeq(ss, next, stackSize, stack).0 == [h] + t;
    if i == 0 {
      assert ss[..0] == [];
    } else {
      var k := i - 1;
      var front := ss[1..][..k];
      RewriteTracesSeqAt(ss[1..], n1, stackSize, stack, k);
      assert ss[..i] == [ss[0]] + front;
      CountTracesSeqAppend([ss[0]], front);
      assert [ss[0]][1..] == [];
      assert CountTracesSeq(ss[..i]) == CountTraces(ss[0]) + CountTracesSeq(front);
      assert next + 3 * CountTracesSeq(ss[..i]) == n1 + 3 * CountTracesSeq(front);
      assert ss[1..][k] == ss[i];
      assert ([h] + t)[i] == t[k];
    }
  }

  /** The node contains an assignment whose right-hand side is a read of `v`. */
  predicate CopiesVar(s: Stmt, v: VarRef) {
    match s
    case Set(l, x) => x == VarAccess(v) || CopiesVar(l, v) || CopiesVar(x, v)
    case Return(x) => CopiesVar(x, v)
    case If(c, t, e) => CopiesVar(c, v) || CopiesVarSeq(t, v) || CopiesVarSeq(e, v)
    case Loop(b) => CopiesVarSeq(b, v)
    case Exitwhen(c) => CopiesVar(c, v)
    case VarArrayAccess(_, ix) => CopiesVarSeq(ix, v)
    case OperatorCall(_, xs) => CopiesVarSeq(xs, v)
    case FunctionCall(_, args, _, _) => CopiesVarSeq(args, v)
    case StatementExpr(b, x) => CopiesVarSeq(b, v) || CopiesVar(x, v)
    case _ => false
  }

  predicate CopiesVarSeq(ss: seq<Stmt>, v: VarRef) {
    exists i | 0 <= i < |ss| :: CopiesVar(ss[i], v)
  }

  /** `s` is a trace snippet for these globals. */
  predicate IsSnippet(s: Stmt, stackSize: VarRef, stack: VarRef) {
    && s.StatementExpr? && |s.stmts| == 4
    && s.stmts[0].Set? && s.stmts[0].left.VarAccess?
    && s.stmts[1].Set? && s.stmts[1].left.VarAccess?
    && s.stmts[2].Set? && s.stmts[2].left.VarAccess?
    && s == TraceSnippet(s.stmts[0].left.v, s.stmts[1].left.v, s.stmts[2].left.v, stackSize, stack)
  }

  /** Turns every snippet back into a stack-trace read. */
  function Unrewrite(s: Stmt, stackSize: VarRef, stack: VarRef): Stmt {
    match s
    case Return(v) => Return(Unrewrite(v, stackSize, stack))
    case If(c, t, e) => If(Unrewrite(c, stackSize, stack), UnrewriteSeq(t, stackSize, stack), UnrewriteSeq(e, stackSize, stack))
    case Loop(b) => Loop(UnrewriteSeq(b, stackSize, stack))
    case Exitwhen(c) => Exitwhen(Unrewrite(c, stackSize, stack))
    case Set(l, x) => Set(Unrewrite(l, stackSize, stack), Unrewrite(x, stackSize, stack))
    case VarArrayAccess(a, ix) => VarArrayAccess(a, UnrewriteSeq(ix, stackSize, stack))
    case OperatorCall(op, xs) => OperatorCall(op, UnrewriteSeq(xs, stackSize, stack))
    case FunctionCall(g, args, tail, pos) => FunctionCall(g, UnrewriteSeq(args, stackSize, stack), tail, pos)
    case StatementExpr(b, x) =>
      if IsSnippet(s, stackSize, stack) then GetStackTrace
      else StatementExpr(UnrewriteSeq(b, stackSize, stack), Unrewrite(x, stackSize, stack))
    case _ => s
  }

  function UnrewriteSeq(ss: seq<Stmt>, stackSize: VarRef, stack: VarRef): (r: seq<Stmt>)
    ensures |r| == |ss|
  {
    seq(|ss|, i requires 0 <= i < |ss| => Unrewrite(ss[i], stackSize, stack))
  }

  /** The rewrite keeps the kind of every node but a stack-trace read, and
      leaves variable reads alone. */
  lemma RewriteShape(t: Stmt, next: nat, stackSize: VarRef, stack: VarRef)
    ensures var t' := RewriteTraces(t, next, stackSize, stack).0;
      && (t.VarAccess? ==> t' == t)
      && (t'.VarAccess? ==> t.VarAccess?)
      && (t'.Set? <==> t.Set?)
  {
  }

  /** A rewritten node that does not copy the depth is not an assignment
      copying the depth. */
  lemma RewriteNoCopy(t: Stmt, next: nat, stackSize: VarRef, stack: VarRef)
    requires !CopiesVar(t, stackSize)
    ensures var t' := RewriteTraces(t, next, stackSize, stack).0;
      !(t'.Set? && t'.right == VarAccess(stackSize))
  {
    RewriteShape(t, next, stackSize, stack);
    if t.Set? {
      var n1 := RewriteTraces(t.left, next, stackSize, stack).1;
      assert RewriteTraces(t, next, stackSize, stack).0.right == RewriteTraces(t.right, n1, stackSize, stack).0;
      RewriteShape(t.right, n1, stackSize, stack);
    }
  }

  lemma SnippetCopiesDepth(s: Stmt, stackSize: VarRef, stack: VarRef)
    ensures IsSnippet(s, stackSize, stack) ==>
      |s.stmts| == 4 && s.stmts[1].Set? && s.stmts[1].right == VarAccess(stackSize)
  {
  }

  /** In a rewritten statement list of a code that does not copy the depth,
      the second statement does not copy it either. */
  lemma RewrittenBlockNoCopy(b: seq<Stmt>, next: nat, stackSize: VarRef, stack: VarRef)
    requires !CopiesVarSeq(b, stackSize)
    ensures var b' := RewriteTracesSeq(b, next, stackSize, stack).0;
      !(|b'| == 4 && b'[1].Set? && b'[1].right == VarAccess(stackSize))
  {
    if |b| == 4 {
      assert !CopiesVar(b[1], stackSize);
      var n := next + 3 * CountTracesSeq(b[..1]);
      RewriteTracesSeqAt(b, next, stackSize, stack, 1);
      RewriteNoCopy(b[1], n, stackSize, stack);
    }
  }

  /** The rewrite changes nothing but the stack-trace reads, as long as the
      code itself never copies the depth into a variable. */
  lemma {:induction false} RewriteTracesRoundTrip(s: Stmt, next: nat, stackSize: VarRef, stack: VarRef)
    requires !CopiesVar(s, stackSize)
    ensures Unrewrite(RewriteTraces(s, next, stackSize, stack).0, stackSize, stack) == s
    decreases s, 1
  {
    match s
    case GetStackTrace => SnippetUnrewrites(next, stackSize, stack);
    case If(c, t, e) => IfRoundTrip(c, t, e, next, stackSize, stack);
    case Set(l, x) =>
      var (l', n1) := RewriteTraces(l, next, stackSize, stack);
      RewriteTracesRoundTrip(l, next, stackSize, stack);
      RewriteTracesRoundTrip(x, n1, stackSize, stack);
    case StatementExpr(b, x) => StatementExprRoundTrip(b, x, next, stackSize, stack);
    case Return(v) => ReturnRoundTrip(v, next, stackSize, stack);
    case Loop(b) => LoopRoundTrip(b, next, stackSize, stack);
    case Exitwhen(c) => ExitwhenRoundTrip(c, next, stackSize, stack);
    case VarArrayAccess(a, ix) => ArrayAccessRoundTrip(a, ix, next, stackSize, stack);
    case OperatorCall(op, xs) => OperatorRoundTrip(op, xs, next, stackSize, stack);
    case FunctionCall(g, args, tail, pos) => CallRoundTrip(g, args, tail, pos, next, stackSize, stack);
    case _ =>
  }

  // The single-child cases, one lemma each.

  lemma {:induction false} ReturnRoundTrip(v: Expr, next: nat, stackSize: VarRef, stack: VarRef)
    requires !CopiesVar(Return(v), stackSize)
    ensures Unrewrite(RewriteTraces(Return(v), next, stackSize, stack).0, stackSize, stack) == Return(v)
    decreases Return(v), 0
  {
    RewriteTracesRoundTrip(v, next, stackSize, stack);
  }

  lemma {:induction false} LoopRoundTrip(b: seq<Stmt>, next: nat, stackSize: VarRef, stack: VarRef)
    requires !CopiesVar(Loop(b), stackSize)
    ensures Unrewrite(RewriteTraces(Loop(b), next, stackSize, stack).0, stackSize, stack) == Loop(b)
    decreases Loop(b), 0
  {
    RewriteTracesSeqRoundTrip(b, next, stackSize, stack);
  }

  lemma {:induction false} ExitwhenRoundTrip(c: Expr, next: nat, stackSize: VarRef, stack: VarRef)
    requires !CopiesVar(Exitwhen(c), stackSize)
    ensures Unrewrite(RewriteTraces(Exitwhen(c), next, stackSize, stack).0, stackSize, stack) == Exitwhen(c)
    decreases Exitwhen(c), 0
  {
    RewriteTracesRoundTrip(c, next, stackSize, stack);
  }

  lemma {:induction false} ArrayAccessRoundTrip(a: VarRef, ix: seq<Expr>, next: nat, stackSize: VarRef, stack: VarRef)
    requires !CopiesVar(VarArrayAccess(a, ix), stackSize)
    ensures Unrewrite(RewriteTraces(VarArrayAccess(a, ix), next, stackSize, stack).0, stackSize, stack) == VarArrayAccess(a, ix)
    decreases VarArrayAccess(a, ix), 0
  {
    RewriteTracesSeqRoundTrip(ix, next, stackSize, stack);
  }

  lemma {:induction false} OperatorRoundTrip(op: Op, xs: seq<Expr>, next: nat, stackSize: VarRef, stack: VarRef)
    requires !CopiesVar(OperatorCall(op, xs), stackSize)
    ensures Unrewrite(RewriteTraces(OperatorCall(op, xs), next, stackSize, stack).0, stackSize, stack) == OperatorCall(op, xs)
    decreases OperatorCall(op, xs), 0
  {
    RewriteTracesSeqRoundTrip(xs, next, stackSize, stack);
  }

  lemma {:induction false} CallRoundTrip(g: FuncId, args: seq<Expr>, tail: bool, pos: WPos, next: nat, stackSize: VarRef, stack: VarRef)
    requires !CopiesVar(FunctionCall(g, args, tail, pos), stackSize)
    ensures Unrewrite(RewriteTraces(FunctionCall(g, args, tail, pos), next, stackSize, stack).0, stackSize, stack)
      == FunctionCall(g, args, tail, pos)
    decreases FunctionCall(g, args, tail, pos), 0
  {
    RewriteTracesSeqRoundTrip(args, next, stackSize, stack);
  }

  lemma SnippetUnrewrites(next: nat, stackSize: VarRef, stack: VarRef)
    ensures Unrewrite(TraceSnippet(Local(next), Local(next + 1), Local(next + 2), stackSize, stack), stackSize, stack)
      == GetStackTrace
  {
    var sn := TraceSnippet(Local(next), Local(next + 1), Local(next + 2), stackSize, stack);
    assert IsSnippet(sn, stackSize, stack);
  }

  lemma {:induction false} IfRoundTrip(c: Stmt, t: seq<Stmt>, e: seq<Stmt>, next: nat, stackSize: VarRef, stack: VarRef)
    requires !CopiesVar(If(c, t, e), stackSize)
    ensures Unrewrite(RewriteTraces(If(c, t, e), next, stackSize, stack).0, stackSize, stack) == If(c, t, e)
    decreases If(c, t, e), 0
  {
    var (c', n1) := RewriteTraces(c, next, stackSize, stack);
    var (t', n2) := RewriteTracesSeq(t, n1, stackSize, stack);
    var e' := RewriteTracesSeq(e, n2, stackSize, stack).0;
    RewriteTracesRoundTrip(c, next, stackSize, stack);
    RewriteTracesSeqRoundTrip(t, n1, stackSize, stack);
    RewriteTracesSeqRoundTrip(e, n2, stackSize, stack);
    assert RewriteTraces(If(c, t, e), next, stackSize, stack).0 == If(c', t', e');
  }

  lemma {:induction false} StatementExprRoundTrip(b: seq<Stmt>, x: Stmt, next: nat, stackSize: VarRef, stack: VarRef)
    requires !CopiesVar(StatementExpr(b, x), stackSize)
    ensures Unrewrite(RewriteTraces(StatementExpr(b, x), next, stackSize, stack).0, stackSize, stack) == StatementExpr(b, x)
    decreases StatementExpr(b, x), 0
  {
    var (b', n1) := RewriteTracesSeq(b, next, stackSize, stack);
    var x' := RewriteTraces(x, n1, stackSize, stack).0;
    assert RewriteTraces(StatementExpr(b, x), next, stackSize, stack).0 == StatementExpr(b', x');
    RewrittenBlockNoCopy(b, next, stackSize, stack);
    NotSnippetUnrewrites(b', x', stackSize, stack);
    RewriteTracesSeqRoundTrip(b, next, stackSize, stack);
    RewriteTracesRoundTrip(x, n1, stackSize, stack);
  }

  /** A block whose second statement does not copy the depth is no snippet,
      so undoing the rewrite descends into it. */
  lemma NotSnippetUnrewrites(b: seq<Stmt>, x: Stmt, stackSize: VarRef, stack: VarRef)
    requires !(|b| == 4 && b[1].Set? && b[1].right == VarAccess(stackSize))
    ensures Unrewrite(StatementExpr(b, x), stackSize, stack)
      == StatementExpr(UnrewriteSeq(b, stackSize, stack), Unrewrite(x, stackSize, stack))
  {
    SnippetCopiesDepth(StatementExpr(b, x), stackSize, stack);
  }

  lemma {:induction false} RewriteTracesSeqRoundTrip(ss: seq<Stmt>, next: nat, stackSize: VarRef, stack: VarRef)
    requires !CopiesVarSeq(ss, stackSize)
    ensures UnrewriteSeq(RewriteTracesSeq(ss, next, stackSize, stack).0, stackSize, stack) == ss
    decreases ss, 0
  {
    if ss != [] {
      var (h, n1) := RewriteTraces(ss[0], next, stackSize, stack);
      var (t, n2) := RewriteTracesSeq(ss[1..], n1, stackSize, stack);
      assert !CopiesVar(ss[0], stackSize);
      assert !CopiesVarSeq(ss[1..], stackSize) by {
        forall i | 0 <= i < |ss[1..]| ensures !CopiesVar(ss[1..][i], stackSize) {
          assert ss[1..][i] == ss[i + 1];
        }
      }
      RewriteTracesRoundTrip(ss[0], next, stackSize, stack);
      RewriteTracesSeqRoundTrip(ss[1..], n1, stackSize, stack);
      assert UnrewriteSeq([h] + t, stackSize, stack) == [Unrewrite(h, stackSize, stack)] + UnrewriteSeq(t, stackSize, stack);
      assert ss == [ss[0]] + ss[1..];
    }
  }

  // ---------------------------------------------------------------------
  // The snippet calls nothing, so calls stay well formed

  lemma VarOpConstCallsOk(op: Op, v: VarRef, c: int, pc: seq<nat>)
    ensures CallsOk(OperatorCall(op, [VarAccess(v), IntVal(c)]), pc)
  {
    var xs := [VarAccess(v), IntVal(c)];
    assert CallsOk(xs[0], pc) && CallsOk(xs[1], pc);
  }

  lemma AppendCallsOk(str: VarRef, idx: VarRef, stack: VarRef, pc: seq<nat>)
    ensures CallsOk(TraceLoopBody(str, idx, idx, stack)[4], pc)
    ensures CallsOk(Set(VarAccess(str), OperatorCall(Plus, [VarAccess(str),
      OperatorCall(Plus, [StringVal("\n   "), VarArrayAccess(stack, [VarAccess(idx)])])])), pc)
  {
    var entry := VarArrayAccess(stack, [VarAccess(idx)]);
    assert CallsOk(entry, pc) by { assert CallsOkSeq([VarAccess(idx)], pc); }
    var sum := [StringVal("\n   "), entry];
    assert CallsOk(sum[0], pc) && CallsOk(sum[1], pc);
    var appended := [VarAccess(str), OperatorCall(Plus, sum)];
    assert CallsOk(appended[0], pc) && CallsOk(appended[1], pc);
  }

  lemma LoopBodyCallsOk(str: VarRef, idx: VarRef, limit: VarRef, stack: VarRef, pc: seq<nat>)
    ensures CallsOkSeq(TraceLoopBody(str, idx, limit, stack), pc)
  {
    VarOpConstCallsOk(Minus, idx, 1, pc);
    VarOpConstCallsOk(Plus, limit, 1, pc);
    VarOpConstCallsOk(Greater, limit, MaxStackTraceSize, pc);
    VarOpConstCallsOk(Less, idx, 0, pc);
    AppendCallsOk(str, idx, stack, pc);
  }

  lemma SnippetCallsOk(str: VarRef, idx: VarRef, limit: VarRef, stackSize: VarRef, stack: VarRef, pc: seq<nat>)
    ensures CallsOk(TraceSnippet(str, idx, limit, stackSize, stack), pc)
  {
    LoopBodyCallsOk(str, idx, limit, stack, pc);
    var ss := TraceSnippet(str, idx, limit, stackSize, stack).stmts;
    assert CallsOk(VarAccess(str), pc) && CallsOk(StringVal(""), pc);
    assert CallsOk(VarAccess(idx), pc) && CallsOk(VarAccess(stackSize), pc);
    assert CallsOk(VarAccess(limit), pc) && CallsOk(IntVal(0), pc);
    assert CallsOk(ss[0], pc) && CallsOk(ss[1], pc) && CallsOk(ss[2], pc) && CallsOk(ss[3], pc);
  }

  /** The rewrite keeps every call and function reference as it is. */
  lemma {:induction false} RewriteTracesCallsOk(s: Stmt, next: nat, stackSize: VarRef, stack: VarRef, pc: seq<nat>)
    ensures CallsOk(RewriteTraces(s, next, stackSize, stack).0, pc) <==> CallsOk(s, pc)
    decreases s, 1
  {
    match s
    case GetStackTrace => SnippetCallsOk(Local(next), Local(next + 1), Local(next + 2), stackSize, stack, pc);
    case Return(v) => RewriteTracesCallsOk(v, next, stackSize, stack, pc);
    case If(c, t, e) => RewriteIfCallsOk(c, t, e, next, stackSize, stack, pc);
    case Loop(b) => RewriteTracesSeqCallsOk(b, next, stackSize, stack, pc);
    case Exitwhen(c) => RewriteTracesCallsOk(c, next, stackSize, stack, pc);
    case Set(l, x) => RewritePairCallsOk(s, next, stackSize, stack, pc);
    case VarArrayAccess(a, ix) => RewriteTracesSeqCallsOk(ix, next, stackSize, stack, pc);
    case OperatorCall(op, xs) => RewriteTracesSeqCallsOk(xs, next, stackSize, stack, pc);
    case FunctionCall(g, args, tail, pos) => RewriteTracesSeqCallsOk(args, next, stackSize, stack, pc);
    case StatementExpr(b, x) => RewritePairCallsOk(s, next, stackSize, stack, pc);
    case _ =>
  }

  lemma {:induction false} RewriteIfCallsOk(c: Stmt, t: seq<Stmt>, e: seq<Stmt>, next: nat, stackSize: VarRef, stack: VarRef, pc: seq<nat>)
    ensures CallsOk(RewriteTraces(If(c, t, e), next, stackSize, stack).0, pc) <==> CallsOk(If(c, t, e), pc)
    decreases If(c, t, e), 0
  {
    var (c', n1) := RewriteTraces(c, next, stackSize, stack);
    var (t', n2) := RewriteTracesSeq(t, n1, stackSize, stack);
    var (e', n3) := RewriteTracesSeq(e, n2, stackSize, stack);
    assert RewriteTraces(If(c, t, e), next, stackSize, stack) == (If(c', t', e'), n3);
    RewriteTracesCallsOk(c, next, stackSize, stack, pc);
    RewriteTracesSeqCallsOk(t, n1, stackSize, stack, pc);
    RewriteTracesSeqCallsOk(e, n2, stackSize, stack, pc);
  }

  /** The two-child cases, `Set` and `StatementExpr`. */
  lemma {:induction false} RewritePairCallsOk(s: Stmt, next: nat, stackSize: VarRef, stack: VarRef, pc: seq<nat>)
    requires s.Set? || s.StatementExpr?
    ensures CallsOk(RewriteTraces(s, next, stackSize, stack).0, pc) <==> CallsOk(s, pc)
    decreases s, 0
  {
    if s.Set? {
      var (l', n1) := RewriteTraces(s.left, next, stackSize, stack);
      var (x', n2) := RewriteTraces(s.right, n1, stackSize, stack);
      assert RewriteTraces(s, next, stackSize, stack) == (Set(l', x'), n2);
      RewriteTracesCallsOk(s.left, next, stackSize, stack, pc);
      RewriteTracesCallsOk(s.right, n1, stackSize, stack, pc);
    } else {
      var (b', n1) := RewriteTracesSeq(s.stmts, next, stackSize, stack);
      var (x', n2) := RewriteTraces(s.result, n1, stackSize, stack);
      assert RewriteTraces(s, next, stackSize, stack) == (StatementExpr(b', x'), n2);
      RewriteTracesSeqCallsOk(s.stmts, next, stackSize, stack, pc);
      RewriteTracesCallsOk(s.result, n1, stackSize, stack, pc);
    }
  }

  lemma {:induction false} RewriteTracesSeqCallsOk(ss: seq<Stmt>, next: nat, stackSize: VarRef, stack: VarRef, pc: seq<nat>)
    ensures CallsOkSeq(RewriteTracesSeq(ss, next, stackSize, stack).0, pc) <==> CallsOkSeq(ss, pc)
    decreases ss, 0
  {
    var r := RewriteTracesSeq(ss, next, stackSize, stack).0;
    forall i | 0 <= i < |ss| ensures CallsOk(r[i], pc) <==> CallsOk(ss[i], pc) {
      RewriteTracesSeqAt(ss, next, stackSize, stack, i);
      RewriteTracesCallsOk(ss[i], next + 3 * CountTracesSeq(ss[..i]), stackSize, stack, pc);
    }
  }

  // ---------------------------------------------------------------------
  // The rewrite of a function

  /** The three locals of each snippet, in the order they are added. */
  function TraceLocals(count: nat): (r: seq<ImVar>)
    ensures |r| == 3 * count
  {
    if count == 0 then []
    else
      TraceLocals(count - 1)
      + [ImVar("stacktraceStr", StringType), ImVar("stacktraceIndex", IntType), ImVar("stacktraceLimit", IntType)]
  }

  /** Snippet `k` gets the locals `3k`, `3k + 1` and `3k + 2`: a string and
      two integers. */
  lemma {:induction false} TraceLocalsAt(count: nat, k: nat)
    requires k < count
    ensures TraceLocals(count)[3 * k] == ImVar("stacktraceStr", StringType)
    ensures TraceLocals(count)[3 * k + 1] == ImVar("stacktraceIndex", IntType)
    ensures TraceLocals(count)[3 * k + 2] == ImVar("stacktraceLimit", IntType)
  {
    if k < count - 1 {
      TraceLocalsAt(count - 1, k);
    }
  }

  /** Rewrites every stack-trace read of `f` and adds the snippets' locals
      after the existing ones. */
  function RewriteErrorsFunction(f: ImFunction, stackSize: VarRef, stack: VarRef): ImFunction {
    var (body', _) := RewriteTracesSeq(f.body, |f.locals|, stackSize, stack);
    f.(locals := f.locals + TraceLocals(CountTracesSeq(f.body)), body := body')
  }

  /** After the rewrite no read is left; the new locals are exactly the ones
      the snippets use; everything but the body and the locals stays; and
      undoing the snippets gives back the original body. */
  lemma RewriteErrorsFunctionShape(f: ImFunction, stackSize: VarRef, stack: VarRef)
    ensures var g := RewriteErrorsFunction(f, stackSize, stack);
      && CountTracesSeq(g.body) == 0
      && |g.body| == |f.body|
      && g.locals[..|f.locals|] == f.locals
      && |g.locals| == |f.locals| + 3 * CountTracesSeq(f.body)
      && g.(locals := f.locals, body := f.body) == f
    ensures !CopiesVarSeq(f.body, stackSize) ==>
      UnrewriteSeq(RewriteErrorsFunction(f, stackSize, stack).body, stackSize, stack) == f.body
  {
    RewriteTracesSeqClears(f.body, |f.locals|, stackSize, stack);
    if !CopiesVarSeq(f.body, stackSize) {
      RewriteTracesSeqRoundTrip(f.body, |f.locals|, stackSize, stack);
    }
  }

  /** Rewrites the stack-trace reads of every function. */
  function RewriteErrorsProgram(fs: seq<ImFunction>, stackSize: VarRef, stack: VarRef): (r: seq<ImFunction>)
    ensures |r| == |fs|
    ensures forall i | 0 <= i < |fs| :: r[i] == RewriteErrorsFunction(fs[i], stackSize, stack)
  {
    seq(|fs|, i requires 0 <= i < |fs| => RewriteErrorsFunction(fs[i], stackSize, stack))
  }

  /** The parameters are untouched and the calls kept, so a well-formed
      program stays well formed, and no stack-trace read is left. */
  lemma RewriteErrorsProgramWellFormed(fs: seq<ImFunction>, stackSize: VarRef, stack: VarRef)
    ensures WellFormed(RewriteErrorsProgram(fs, stackSize, stack)) <==> WellFormed(fs)
    ensures forall i | 0 <= i < |fs| :: CountTracesSeq(RewriteErrorsProgram(fs, stackSize, stack)[i].body) == 0
  {
    var r := RewriteErrorsProgram(fs, stackSize, stack);
    assert ParamCounts(r) == ParamCounts(fs);
    forall i | 0 <= i < |fs|
      ensures CallsOkSeq(r[i].body, ParamCounts(r)) <==> CallsOkSeq(fs[i].body, ParamCounts(fs))
      ensures CountTracesSeq(r[i].body) == 0
    {
      RewriteTracesSeqCallsOk(fs[i].body, |fs[i].locals|, stackSize, stack, ParamCounts(fs));
      RewriteErrorsFunctionShape(fs[i], stackSize, stack);
    }
  }

  /** Code without stack-trace reads is left exactly as it is. */
  lemma {:induction false} RewriteTracesNoTrace(s: Stmt, next: nat, stackSize: VarRef, stack: VarRef)
    requires CountTraces(s) == 0
    ensures RewriteTraces(s, next, stackSize, stack).0 == s
    decreases s, 1
  {
    match s
    case Return(v) => RewriteTracesNoTrace(v, next, stackSize, stack);
    case If(c, t, e) =>
      var (c', n1) := RewriteTraces(c, next, stackSize, stack);
      var (t', n2) := RewriteTracesSeq(t, n1, stackSize, stack);
      RewriteTracesNoTrace(c, next, stackSize, stack);
      RewriteTracesSeqNoTrace(t, n1, stackSize, stack);
      RewriteTracesSeqNoTrace(e, n2, stackSize, stack);
    case Loop(b) => RewriteTracesSeqNoTrace(b, next, stackSize, stack);
    case Exitwhen(c) => RewriteTracesNoTrace(c, next, stackSize, stack);
    case Set(l, x) =>
      var (l', n1) := RewriteTraces(l, next, stackSize, stack);
      RewriteTracesNoTrace(l, next, stackSize, stack);
      RewriteTracesNoTrace(x, n1, stackSize, stack);
    case VarArrayAccess(a, ix) => RewriteTracesSeqNoTrace(ix, next, stackSize, stack);
    case OperatorCall(op, xs) => RewriteTracesSeqNoTrace(xs, next, stackSize, stack);
    case FunctionCall(g, args, tail, pos) => RewriteTracesSeqNoTrace(args, next, stackSize, stack);
    case StatementExpr(b, x) =>
      var (b', n1) := RewriteTracesSeq(b, next, stackSize, stack);
      RewriteTracesSeqNoTrace(b, next, stackSize, stack);
      RewriteTracesNoTrace(x, n1, stackSize, stack);
    case _ =>
  }

  lemma {:induction false} RewriteTracesSeqNoTrace(ss: seq<Stmt>, next: nat, stackSize: VarRef, stack: VarRef)
    requires CountTracesSeq(ss) == 0
    ensures RewriteTracesSeq(ss, next, stackSize, stack).0 == ss
    decreases ss, 0
  {
    if ss != [] {
      var (h, n1) := RewriteTraces(ss[0], next, stackSize, stack);
      RewriteTracesNoTrace(ss[0], next, stackSize, stack);
      RewriteTracesSeqNoTrace(ss[1..], n1, stackSize, stack);
      assert ss == [ss[0]] + ss[1..];
    }
  }

  /** A function without stack-trace reads is not changed at all. */
  lemma RewriteErrorsNoTrace(f: ImFunction, stackSize: VarRef, stack: VarRef)
    requires CountTracesSeq(f.body) == 0
    ensures RewriteErrorsFunction(f, stackSize, stack) == f
  {
    RewriteTracesSeqNoTrace(f.body, |f.locals|, stackSize, stack);
    assert f.locals + TraceLocals(0) == f.locals;
  }
}

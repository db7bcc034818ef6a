/**
  The push prologue and the pops of the stack-trace pass.

  An instrumented function starts by storing its `stackPos` parameter at the
  current depth of the global stack and incrementing the depth.  Every
  `return` inside it becomes a block that decrements the depth and then
  returns; when the returned value holds a call (or a stack-trace read) it is
  first saved into a fresh temporary, so that it is evaluated before the
  decrement.  When the body does not return on all paths a decrement is also
  appended at its end.
*/
module StackTracePushPop {
  import opened JassIm

  // ---------------------------------------------------------------------
  // Push

  /** `stack[stackSize] := <last parameter>; stackSize := stackSize + 1` */
  function PushPrologue(stackSize: VarRef, stack: VarRef, stackPos: VarRef): seq<Stmt> {
    [Set(VarArrayAccess(stack, [VarAccess(stackSize)]), VarAccess(stackPos)), Increment(stackSize)]
  }

  /** The function with the prologue in front of its unchanged body. */
  function PushFunction(f: ImFunction, stackSize: VarRef, stack: VarRef): (r: ImFunction)
    requires |f.params| > 0
    ensures |r.body| == |f.body| + 2
    ensures r.body[..2] == PushPrologue(stackSize, stack, Param(|f.params| - 1))
    ensures r.body[2..] == f.body
    ensures r.(body := f.body) == f
  {
    f.(body := PushPrologue(stackSize, stack, Param(|f.params| - 1)) + f.body)
  }

  // ---------------------------------------------------------------------
  // Returns on all paths

  /** The statement ends every execution that reaches it with a return. */
  predicate StmtReturns(s: Stmt) {
    match s
    case Return(_) => true
    case If(_, t, e) => ReturnsOnAllPaths(t) && ReturnsOnAllPaths(e)
    case StatementExpr(b, _) => ReturnsOnAllPaths(b)
    case _ => false
  }

  /** Some statement of the list is a return, an `if` both of whose branches
      return on all paths, or a statement expression whose statements do. */
  predicate ReturnsOnAllPaths(ss: seq<Stmt>): (r: bool)
    ensures r <==> exists i | 0 <= i < |ss| :: StmtReturns(ss[i])
  {
    if ss == [] then false
    else if StmtReturns(ss[0]) then true
    else
      var rest := ReturnsOnAllPaths(ss[1..]);
      assert forall i | 1 <= i < |ss| :: ss[i] == ss[1..][i - 1];
      rest
  }

  /** How control can leave a statement: by falling through, by an
      `exitwhen` leaving the enclosing loop, or by a return. */
  datatype Completion = Normal | Exited | Returned

  /** The completions a statement can have, over all values of its
      conditions.  A loop falls through only when its body can exit it. */
  function Completions(s: Stmt): set<Completion> {
    match s
    case Return(_) => {Returned}
    case If(_, t, e) => CompletionsSeq(t) + CompletionsSeq(e)
    case Loop(b) =>
      var k := CompletionsSeq(b);
      (if Exited in k then {Normal} else {}) + (if Returned in k then {Returned} else {})
    case Exitwhen(_) => {Normal, Exited}
    case StatementExpr(b, _) => CompletionsSeq(b)
    case _ => {Normal}
  }

  function CompletionsSeq(ss: seq<Stmt>): set<Completion> {
    if ss == [] then {Normal}
    else
      var k := Completions(ss[0]);
      (k - {Normal}) + (if Normal in k then CompletionsSeq(ss[1..]) else {})
  }

  /** The statement holds no loop and no exitwhen at statement level. */
  predicate LoopFree(s: Stmt) {
    match s
    case Loop(_) => false
    case Exitwhen(_) => false
    case If(_, t, e) => LoopFreeSeq(t) && LoopFreeSeq(e)
    case StatementExpr(b, _) => LoopFreeSeq(b)
    case _ => true
  }

  predicate LoopFreeSeq(ss: seq<Stmt>) {
    forall i | 0 <= i < |ss| :: LoopFree(ss[i])
  }

  /** When `ReturnsOnAllPaths` holds no execution falls off the end of the
      list; without loops the converse holds too. */
  lemma {:induction false} ReturnsOnAllPathsSound(ss: seq<Stmt>)
    ensures ReturnsOnAllPaths(ss) ==> Normal !in CompletionsSeq(ss)
    ensures LoopFreeSeq(ss) ==> (ReturnsOnAllPaths(ss) <==> Normal !in CompletionsSeq(ss))
    decreases ss, 1
  {
    if ss != [] {
      StmtReturnsSound(ss[0]);
      ReturnsOnAllPathsSound(ss[1..]);
      assert LoopFreeSeq(ss) ==> LoopFree(ss[0]) && LoopFreeSeq(ss[1..]);
      assert ReturnsOnAllPaths(ss) == (StmtReturns(ss[0]) || ReturnsOnAllPaths(ss[1..]));
    }
  }

  lemma {:induction false} StmtReturnsSound(s: Stmt)
    ensures StmtReturns(s) ==> Normal !in Completions(s)
    ensures LoopFree(s) ==> (StmtReturns(s) <==> Normal !in Completions(s))
    decreases s, 0
  {
    match s
    case If(_, t, e) => ReturnsOnAllPathsSound(t); ReturnsOnAllPathsSound(e);
    case StatementExpr(b, _) => ReturnsOnAllPathsSound(b);
    case _ =>
  }

  // ---------------------------------------------------------------------
  // Pop

  /** The expression holds a function call or a stack-trace read. */
  predicate ContainsCall(s: Stmt) {
    match s
    case FunctionCall(_, _, _, _) => true
    case GetStackTrace => true
    case Return(v) => ContainsCall(v)
    case If(c, t, e) => ContainsCall(c) || ContainsCallSeq(t) || ContainsCallSeq(e)
    case Loop(b) => ContainsCallSeq(b)
    case Exitwhen(c) => ContainsCall(c)
    case Set(l, r) => ContainsCall(l) || ContainsCall(r)
    case VarArrayAccess(_, ix) => ContainsCallSeq(ix)
    case OperatorCall(_, xs) => ContainsCallSeq(xs)
    case StatementExpr(b, r) => ContainsCallSeq(b) || ContainsCall(r)
    case _ => false
  }

  predicate ContainsCallSeq(ss: seq<Stmt>) {
    exists i | 0 <= i < |ss| :: ContainsCall(ss[i])
  }

  /** The block that replaces `return v`: `[depth := depth - 1, return v]`. */
  function PopBlock(v: Expr, depth: VarRef): Stmt {
    StatementExprVoid([Decrement(depth), Return(v)])
  }

  /** The block that replaces `return v` when `v` holds a call:
      `[temp := v, depth := depth - 1, return temp]`. */
  function PopBlockWithTemp(v: Expr, temp: VarRef, depth: VarRef): Stmt {
    StatementExprVoid([Set(VarAccess(temp), v), Decrement(depth), Return(VarAccess(temp))])
  }

  /** Replaces every return inside `s`; temporaries are the locals numbered
      from `next` on, and the second component is the next unused number. */
  function PopReturns(s: Stmt, next: nat, depth: VarRef): (r: (Stmt, nat))
    ensures !r.0.Return?
    ensures r.1 >= next
  {
    match s
    case Return(v) =>
      var (v', n1) := PopReturns(v, next, depth);
      if ContainsCall(v) then (PopBlockWithTemp(v', Local(n1), depth), n1 + 1)
      else (PopBlock(v', depth), n1)
    case If(c, t, e) =>
      var (c', n1) := PopReturns(c, next, depth);
      var (t', n2) := PopReturnsSeq(t, n1, depth);
      var (e', n3) := PopReturnsSeq(e, n2, depth);
      (If(c', t', e'), n3)
    case Loop(b) =>
      var (b', n1) := PopReturnsSeq(b, next, depth);
      (Loop(b'), n1)
    case Exitwhen(c) =>
      var (c', n1) := PopReturns(c, next, depth);
      (Exitwhen(c'), n1)
    case Set(l, x) =>
      var (l', n1) := PopReturns(l, next, depth);
      var (x', n2) := PopReturns(x, n1, depth);
      (Set(l', x'), n2)
    case VarArrayAccess(a, ix) =>
      var (ix', n1) := PopReturnsSeq(ix, next, depth);
      (VarArrayAccess(a, ix'), n1)
    case OperatorCall(op, xs) =>
      var (xs', n1) := PopReturnsSeq(xs, next, depth);
      (OperatorCall(op, xs'), n1)
    case FunctionCall(g, args, tail, pos) =>
      var (args', n1) := PopReturnsSeq(args, next, depth);
      (FunctionCall(g, args', tail, pos), n1)
    case StatementExpr(b, x) =>
      var (b', n1) := PopReturnsSeq(b, next, depth);
      var (x', n2) := PopReturns(x, n1, depth);
      (StatementExpr(b', x'), n2)
    case _ => (s, next)
  }

  function PopReturnsSeq(ss: seq<Stmt>, next: nat, depth: VarRef): (r: (seq<Stmt>, nat))
    ensures |r.0| == |ss|
    ensures forall i | 0 <= i < |ss| :: !r.0[i].Return?
    ensures r.1 >= next
  {
    if ss == [] then ([], next)
    else
      var (h, n1) := PopReturns(ss[0], next, depth);
      var (t, n2) := PopReturnsSeq(ss[1..], n1, depth);
      ([h] + t, n2)
  }

  /** Undoes `PopReturns`: turns every pop block back into the return it
      replaced. */
  function Unpop(s: Stmt, depth: VarRef): Stmt {
    match s
    case StatementExpr(b, x) =>
      if x == Null && |b| == 2 && b[0] == Decrement(depth) && b[1].Return? then
        Return(Unpop(b[1].value, depth))
      else if x == Null && |b| == 3 && b[0].Set? && b[0].left.VarAccess? && b[1] == Decrement(depth)
              && b[2] == Return(b[0].left) then
        Return(Unpop(b[0].right, depth))
      else StatementExpr(UnpopSeq(b, depth), Unpop(x, depth))
    case Return(v) => Return(Unpop(v, depth))
    case If(c, t, e) => If(Unpop(c, depth), UnpopSeq(t, depth), UnpopSeq(e, depth))
    case Loop(b) => Loop(UnpopSeq(b, depth))
    case Exitwhen(c) => Exitwhen(Unpop(c, depth))
    case Set(l, x) => Set(Unpop(l, depth), Unpop(x, depth))
    case VarArrayAccess(a, ix) => VarArrayAccess(a, UnpopSeq(ix, depth))
    case OperatorCall(op, xs) => OperatorCall(op, UnpopSeq(xs, depth))
    case FunctionCall(g, args, tail, pos) => FunctionCall(g, UnpopSeq(args, depth), tail, pos)
    case _ => s
  }

  function UnpopSeq(ss: seq<Stmt>, depth: VarRef): (r: seq<Stmt>)
    ensures |r| == |ss|
  {
    seq(|ss|, i requires 0 <= i < |ss| => Unpop(ss[i], depth))
  }

  lemma UnpopPopBlocks(v: Expr, temp: VarRef, depth: VarRef)
    ensures Unpop(PopBlock(v, depth), depth) == Return(Unpop(v, depth))
    ensures Unpop(PopBlockWithTemp(v, temp, depth), depth) == Return(Unpop(v, depth))
  {
  }

  lemma UnpopOtherBlock(b: seq<Stmt>, x: Expr, depth: VarRef)
    requires forall i | 0 <= i < |b| :: !b[i].Return?
    ensures Unpop(StatementExpr(b, x), depth) == StatementExpr(UnpopSeq(b, depth), Unpop(x, depth))
  {
    assert |b| == 2 ==> !b[1].Return?;
    assert |b| == 3 ==> !b[2].Return?;
  }

  /** The pop rewrite changes nothing but the returns. */
  lemma {:induction false} PopReturnsRoundTrip(s: Stmt, next: nat, depth: VarRef)
    ensures Unpop(PopReturns(s, next, depth).0, depth) == s
    decreases s, 1
  {
    match s
    case Return(v) => PopReturnRoundTrip(v, next, depth);
    case If(c, t, e) => PopIfRoundTrip(c, t, e, next, depth);
    case Loop(b) =>
      assert PopReturns(s, next, depth).0 == Loop(PopReturnsSeq(b, next, depth).0);
      PopReturnsSeqRoundTrip(b, next, depth);
    case Exitwhen(c) =>
      assert PopReturns(s, next, depth).0 == Exitwhen(PopReturns(c, next, depth).0);
      PopReturnsRoundTrip(c, next, depth);
    case Set(l, x) => PopPairRoundTrip(s, next, depth);
    case VarArrayAccess(a, ix) =>
      assert PopReturns(s, next, depth).0 == VarArrayAccess(a, PopReturnsSeq(ix, next, depth).0);
      PopReturnsSeqRoundTrip(ix, next, depth);
    case OperatorCall(op, xs) =>
      assert PopReturns(s, next, depth).0 == OperatorCall(op, PopReturnsSeq(xs, next, depth).0);
      PopReturnsSeqRoundTrip(xs, next, depth);
    case FunctionCall(g, args, tail, pos) =>
      assert PopReturns(s, next, depth).0 == FunctionCall(g, PopReturnsSeq(args, next, depth).0, tail, pos);
      PopReturnsSeqRoundTrip(args, next, depth);
    case StatementExpr(b, x) => PopPairRoundTrip(s, next, depth);
    case _ =>
      assert PopReturns(s, next, depth).0 == s;
  }

  lemma {:induction false} PopReturnRoundTrip(v: Expr, next: nat, depth: VarRef)
    ensures Unpop(PopReturns(Return(v), next, depth).0, depth) == Return(v)
    decreases Return(v), 0
  {
    var (v', n1) := PopReturns(v, next, depth);
    PopReturnsRoundTrip(v, next, depth);
    UnpopPopBlocks(v', Local(n1), depth);
    if ContainsCall(v) {
      assert PopReturns(Return(v), next, depth).0 == PopBlockWithTemp(v', Local(n1), depth);
    } else {
      assert PopReturns(Return(v), next, depth).0 == PopBlock(v', depth);
    }
  }

  lemma {:induction false} PopIfRoundTrip(c: Stmt, t: seq<Stmt>, e: seq<Stmt>, next: nat, depth: VarRef)
    ensures Unpop(PopReturns(If(c, t, e), next, depth).0, depth) == If(c, t, e)
    decreases If(c, t, e), 0
  {
    var (c', n1) := PopReturns(c, next, depth);
    var (t', n2) := PopReturnsSeq(t, n1, depth);
    var (e', n3) := PopReturnsSeq(e, n2, depth);
    assert PopReturns(If(c, t, e), next, depth).0 == If(c', t', e');
    PopReturnsRoundTrip(c, next, depth);
    PopReturnsSeqRoundTrip(t, n1, depth);
    PopReturnsSeqRoundTrip(e, n2, depth);
  }

  /** The two-child cases, `Set` and `StatementExpr`. */
  lemma {:induction false} PopPairRoundTrip(s: Stmt, next: nat, depth: VarRef)
    requires s.Set? || s.StatementExpr?
    ensures Unpop(PopReturns(s, next, depth).0, depth) == s
    decreases s, 0
  {
    if s.Set? {
      var (l', n1) := PopReturns(s.left, next, depth);
      var (x', n2) := PopReturns(s.right, n1, depth);
      assert PopReturns(s, next, depth).0 == Set(l', x');
      PopReturnsRoundTrip(s.left, next, depth);
      PopReturnsRoundTrip(s.right, n1, depth);
    } else {
      var (b', n1) := PopReturnsSeq(s.stmts, next, depth);
      var (x', n2) := PopReturns(s.result, n1, depth);
      assert PopReturns(s, next, depth).0 == StatementExpr(b', x');
      PopReturnsSeqRoundTrip(s.stmts, next, depth);
      PopReturnsRoundTrip(s.result, n1, depth);
      UnpopOtherBlock(b', x', depth);
    }
  }

  lemma {:induction false} PopReturnsSeqRoundTrip(ss: seq<Stmt>, next: nat, depth: VarRef)
    ensures UnpopSeq(PopReturnsSeq(ss, next, depth).0, depth) == ss
    decreases ss, 0
  {
    if ss != [] {
      var (h, n1) := PopReturns(ss[0], next, depth);
      var (t, n2) := PopReturnsSeq(ss[1..], n1, depth);
      PopReturnsRoundTrip(ss[0], next, depth);
      PopReturnsSeqRoundTrip(ss[1..], n1, depth);
      assert UnpopSeq([h] + t, depth) == [Unpop(h, depth)] + UnpopSeq(t, depth);
      assert ss == [ss[0]] + ss[1..];
    }
  }

  /** The rewrite moves calls but neither adds nor removes any. */
  lemma {:induction false} PopReturnsKeepsCalls(s: Stmt, next: nat, depth: VarRef)
    ensures ContainsCall(PopReturns(s, next, depth).0) == ContainsCall(s)
    decreases s, 1
  {
    match s
    case Return(v) => PopReturnKeepsCalls(v, next, depth);
    case If(c, t, e) => PopIfKeepsCalls(c, t, e, next, depth);
    case Loop(b) =>
      assert PopReturns(s, next, depth).0 == Loop(PopReturnsSeq(b, next, depth).0);
      PopReturnsSeqKeepsCalls(b, next, depth);
    case Exitwhen(c) =>
      assert PopReturns(s, next, depth).0 == Exitwhen(PopReturns(c, next, depth).0);
      PopReturnsKeepsCalls(c, next, depth);
    case Set(l, x) => PopPairKeepsCalls(s, next, depth);
    case VarArrayAccess(a, ix) =>
      assert PopReturns(s, next, depth).0 == VarArrayAccess(a, PopReturnsSeq(ix, next, depth).0);
      PopReturnsSeqKeepsCalls(ix, next, depth);
    case OperatorCall(op, xs) =>
      assert PopReturns(s, next, depth).0 == OperatorCall(op, PopReturnsSeq(xs, next, depth).0);
      PopReturnsSeqKeepsCalls(xs, next, depth);
    case FunctionCall(g, args, tail, pos) =>
      assert PopReturns(s, next, depth).0.FunctionCall?;
    case StatementExpr(b, x) => PopPairKeepsCalls(s, next, depth);
    case _ =>
      assert PopReturns(s, next, depth).0 == s;
  }

  lemma {:induction false} PopReturnKeepsCalls(v: Expr, next: nat, depth: VarRef)
    ensures ContainsCall(PopReturns(Return(v), next, depth).0) == ContainsCall(Return(v))
    decreases Return(v), 0
  {
    var (v', n1) := PopReturns(v, next, depth);
    PopReturnsKeepsCalls(v, next, depth);
    PopBlocksKeepCalls(v', Local(n1), depth);
  }

  /** A pop block holds a call exactly when the returned value does. */
  lemma PopBlocksKeepCalls(v: Expr, temp: VarRef, depth: VarRef)
    ensures ContainsCall(PopBlock(v, depth)) == ContainsCall(v)
    ensures ContainsCall(PopBlockWithTemp(v, temp, depth)) == ContainsCall(v)
  {
    CounterUpdatesPlain(depth, []);
    var b := [Decrement(depth), Return(v)];
    assert !ContainsCall(b[0]) && ContainsCall(b[1]) == ContainsCall(v);
    assert ContainsCallSeq(b) == ContainsCall(v);
    var bt := [Set(VarAccess(temp), v), Decrement(depth), Return(VarAccess(temp))];
    assert ContainsCall(bt[0]) == ContainsCall(v) && !ContainsCall(bt[1]) && !ContainsCall(bt[2]);
    assert ContainsCallSeq(bt) == ContainsCall(v);
  }

  lemma {:induction false} PopIfKeepsCalls(c: Stmt, t: seq<Stmt>, e: seq<Stmt>, next: nat, depth: VarRef)
    ensures ContainsCall(PopReturns(If(c, t, e), next, depth).0) == ContainsCall(If(c, t, e))
    decreases If(c, t, e), 0
  {
    var (c', n1) := PopReturns(c, next, depth);
    var (t', n2) := PopReturnsSeq(t, n1, depth);
    var (e', n3) := PopReturnsSeq(e, n2, depth);
    assert PopReturns(If(c, t, e), next, depth).0 == If(c', t', e');
    PopReturnsKeepsCalls(c, next, depth);
    PopReturnsSeqKeepsCalls(t, n1, depth);
    PopReturnsSeqKeepsCalls(e, n2, depth);
  }

  /** The two-child cases, `Set` and `StatementExpr`. */
  lemma {:induction false} PopPairKeepsCalls(s: Stmt, next: nat, depth: VarRef)
    requires s.Set? || s.StatementExpr?
    ensures ContainsCall(PopReturns(s, next, depth).0) == ContainsCall(s)
    decreases s, 0
  {
    if s.Set? {
      var (l', n1) := PopReturns(s.left, next, depth);
      var (x', n2) := PopReturns(s.right, n1, depth);
      assert PopReturns(s, next, depth).0 == Set(l', x');
      PopReturnsKeepsCalls(s.left, next, depth);
      PopReturnsKeepsCalls(s.right, n1, depth);
    } else {
      var (b', n1) := PopReturnsSeq(s.stmts, next, depth);
      var (x', n2) := PopReturns(s.result, n1, depth);
      assert PopReturns(s, next, depth).0 == StatementExpr(b', x');
      PopReturnsSeqKeepsCalls(s.stmts, next, depth);
      PopReturnsKeepsCalls(s.result, n1, depth);
    }
  }

  lemma {:induction false} PopReturnsSeqKeepsCalls(ss: seq<Stmt>, next: nat, depth: VarRef)
    ensures ContainsCallSeq(PopReturnsSeq(ss, next, depth).0) == ContainsCallSeq(ss)
    decreases ss, 0
  {
    if ss != [] {
      var (h, n1) := PopReturns(ss[0], next, depth);
      var (t, n2) := PopReturnsSeq(ss[1..], n1, depth);
      PopReturnsKeepsCalls(ss[0], next, depth);
      PopReturnsSeqKeepsCalls(ss[1..], n1, depth);
      ContainsCallSeqCons([h] + t);
      ContainsCallSeqCons(ss);
      assert ([h] + t)[1..] == t;
    }
  }

  /** The depth counter updates hold no call. */
  lemma CounterUpdatesPlain(v: VarRef, pc: seq<nat>)
    ensures !ContainsCall(Decrement(v)) && !ContainsCall(Increment(v))
    ensures CallsOk(Decrement(v), pc) && CallsOk(Increment(v), pc)
  {
    var xs := [VarAccess(v), IntVal(1)];
    assert !ContainsCall(xs[0]) && !ContainsCall(xs[1]);
    assert CallsOk(xs[0], pc) && CallsOk(xs[1], pc);
    assert !ContainsCallSeq(xs);
  }

  lemma ContainsCallSeqCons(ss: seq<Stmt>)
    requires ss != []
    ensures ContainsCallSeq(ss) == (ContainsCall(ss[0]) || ContainsCallSeq(ss[1..]))
  {
    if ContainsCallSeq(ss[1..]) {
      var j :| 0 <= j < |ss[1..]| && ContainsCall(ss[1..][j]);
      assert ContainsCall(ss[j + 1]);
    }
    if ContainsCallSeq(ss) && !ContainsCall(ss[0]) {
      var j :| 0 <= j < |ss| && ContainsCall(ss[j]);
      assert ContainsCall(ss[1..][j - 1]);
    }
  }

  /** Every return in `s` is the last statement of a pop block: directly
      preceded by exactly one decrement of `depth`, and preceded by the
      assignment to a temporary exactly when its value holds a call. */
  predicate ReturnsPopped(s: Stmt, depth: VarRef) {
    match s
    case Return(_) => false
    case StatementExpr(b, x) =>
      if x == Null && |b| == 2 && b[0] == Decrement(depth) && b[1].Return? then
        !ContainsCall(b[1].value) && ReturnsPopped(b[1].value, depth)
      else if x == Null && |b| == 3 && b[0].Set? && b[0].left.VarAccess? && b[1] == Decrement(depth)
              && b[2] == Return(b[0].left) then
        ContainsCall(b[0].right) && ReturnsPopped(b[0].right, depth)
      else ReturnsPoppedSeq(b, depth) && ReturnsPopped(x, depth)
    case If(c, t, e) => ReturnsPopped(c, depth) && ReturnsPoppedSeq(t, depth) && ReturnsPoppedSeq(e, depth)
    case Loop(b) => ReturnsPoppedSeq(b, depth)
    case Exitwhen(c) => ReturnsPopped(c, depth)
    case Set(l, x) => ReturnsPopped(l, depth) && ReturnsPopped(x, depth)
    case VarArrayAccess(_, ix) => ReturnsPoppedSeq(ix, depth)
    case OperatorCall(_, xs) => ReturnsPoppedSeq(xs, depth)
    case FunctionCall(_, args, _, _) => ReturnsPoppedSeq(args, depth)
    case _ => true
  }

  predicate ReturnsPoppedSeq(ss: seq<Stmt>, depth: VarRef) {
    forall i | 0 <= i < |ss| :: ReturnsPopped(ss[i], depth)
  }

  lemma {:induction false} PopReturnsPops(s: Stmt, next: nat, depth: VarRef)
    ensures ReturnsPopped(PopReturns(s, next, depth).0, depth)
    decreases s, 1
  {
    match s
    case Return(v) => PopReturnPops(v, next, depth);
    case If(c, t, e) => PopIfPops(c, t, e, next, depth);
    case Loop(b) =>
      assert PopReturns(s, next, depth).0 == Loop(PopReturnsSeq(b, next, depth).0);
      PopReturnsSeqPops(b, next, depth);
    case Exitwhen(c) =>
      assert PopReturns(s, next, depth).0 == Exitwhen(PopReturns(c, next, depth).0);
      PopReturnsPops(c, next, depth);
    case Set(l, x) => PopPairPops(s, next, depth);
    case VarArrayAccess(a, ix) =>
      assert PopReturns(s, next, depth).0 == VarArrayAccess(a, PopReturnsSeq(ix, next, depth).0);
      PopReturnsSeqPops(ix, next, depth);
    case OperatorCall(op, xs) =>
      assert PopReturns(s, next, depth).0 == OperatorCall(op, PopReturnsSeq(xs, next, depth).0);
      PopReturnsSeqPops(xs, next, depth);
    case FunctionCall(g, args, tail, pos) =>
      assert PopReturns(s, next, depth).0 == FunctionCall(g, PopReturnsSeq(args, next, depth).0, tail, pos);
      PopReturnsSeqPops(args, next, depth);
    case StatementExpr(b, x) => PopPairPops(s, next, depth);
    case _ =>
      assert PopReturns(s, next, depth).0 == s;
  }

  lemma {:induction false} PopReturnPops(v: Expr, next: nat, depth: VarRef)
    ensures ReturnsPopped(PopReturns(Return(v), next, depth).0, depth)
    decreases Return(v), 0
  {
    var (v', n1) := PopReturns(v, next, depth);
    PopReturnsPops(v, next, depth);
    PopReturnsKeepsCalls(v, next, depth);
    if ContainsCall(v) {
      assert PopReturns(Return(v), next, depth).0 == PopBlockWithTemp(v', Local(n1), depth);
    } else {
      assert PopReturns(Return(v), next, depth).0 == PopBlock(v', depth);
    }
  }

  lemma {:induction false} PopIfPops(c: Stmt, t: seq<Stmt>, e: seq<Stmt>, next: nat, depth: VarRef)
    ensures ReturnsPopped(PopReturns(If(c, t, e), next, depth).0, depth)
    decreases If(c, t, e), 0
  {
    var (c', n1) := PopReturns(c, next, depth);
    var (t', n2) := PopReturnsSeq(t, n1, depth);
    var (e', n3) := PopReturnsSeq(e, n2, depth);
    assert PopReturns(If(c, t, e), next, depth).0 == If(c', t', e');
    PopReturnsPops(c, next, depth);
    PopReturnsSeqPops(t, n1, depth);
    PopReturnsSeqPops(e, n2, depth);
  }

  /** The two-child cases, `Set` and `StatementExpr`. */
  lemma {:induction false} PopPairPops(s: Stmt, next: nat, depth: VarRef)
    requires s.Set? || s.StatementExpr?
    ensures ReturnsPopped(PopReturns(s, next, depth).0, depth)
    decreases s, 0
  {
    if s.Set? {
      var (l', n1) := PopReturns(s.left, next, depth);
      var (x', n2) := PopReturns(s.right, n1, depth);
      assert PopReturns(s, next, depth).0 == Set(l', x');
      PopReturnsPops(s.left, next, depth);
      PopReturnsPops(s.right, n1, depth);
    } else {
      var (b', n1) := PopReturnsSeq(s.stmts, next, depth);
      var (x', n2) := PopReturns(s.result, n1, depth);
      assert PopReturns(s, next, depth).0 == StatementExpr(b', x');
      PopReturnsSeqPops(s.stmts, next, depth);
      PopReturnsPops(s.result, n1, depth);
      assert |b'| == 2 ==> !b'[1].Return?;
      assert |b'| == 3 ==> !b'[2].Return?;
    }
  }

  lemma {:induction false} PopReturnsSeqPops(ss: seq<Stmt>, next: nat, depth: VarRef)
    ensures ReturnsPoppedSeq(PopReturnsSeq(ss, next, depth).0, depth)
    decreases ss, 0
  {
    if ss != [] {
      var (h, n1) := PopReturns(ss[0], next, depth);
      var (t, n2) := PopReturnsSeq(ss[1..], n1, depth);
      PopReturnsPops(ss[0], next, depth);
      PopReturnsSeqPops(ss[1..], n1, depth);
      var r := [h] + t;
      assert forall i | 1 <= i < |r| :: r[i] == t[i - 1];
    }
  }

  /** Replacing returns by pop blocks keeps `ReturnsOnAllPaths`. */
  lemma {:induction false} PopReturnsKeepsReturning(s: Stmt, next: nat, depth: VarRef)
    ensures StmtReturns(PopReturns(s, next, depth).0) == StmtReturns(s)
    decreases s, 1
  {
    match s
    case Return(v) =>
      var (v', n1) := PopReturns(v, next, depth);
      PopBlocksReturn(v', Local(n1), depth);
      if ContainsCall(v) {
        assert PopReturns(s, next, depth).0 == PopBlockWithTemp(v', Local(n1), depth);
      } else {
        assert PopReturns(s, next, depth).0 == PopBlock(v', depth);
      }
    case If(c, t, e) =>
      var (c', n1) := PopReturns(c, next, depth);
      var (t', n2) := PopReturnsSeq(t, n1, depth);
      var (e', n3) := PopReturnsSeq(e, n2, depth);
      assert PopReturns(s, next, depth).0 == If(c', t', e');
      PopReturnsSeqKeepsReturning(t, n1, depth);
      PopReturnsSeqKeepsReturning(e, n2, depth);
    case StatementExpr(b, x) =>
      var (b', n1) := PopReturnsSeq(b, next, depth);
      assert PopReturns(s, next, depth).0 == StatementExpr(b', PopReturns(x, n1, depth).0);
      PopReturnsSeqKeepsReturning(b, next, depth);
    case _ =>
      assert !PopReturns(s, next, depth).0.If? && !PopReturns(s, next, depth).0.StatementExpr?;
  }

  /** Both pop blocks return on all paths. */
  lemma PopBlocksReturn(v: Expr, temp: VarRef, depth: VarRef)
    ensures StmtReturns(PopBlock(v, depth)) && StmtReturns(PopBlockWithTemp(v, temp, depth))
  {
    assert StmtReturns([Decrement(depth), Return(v)][1]);
    assert StmtReturns([Set(VarAccess(temp), v), Decrement(depth), Return(VarAccess(temp))][2]);
  }

  lemma {:induction false} PopReturnsSeqKeepsReturning(ss: seq<Stmt>, next: nat, depth: VarRef)
    ensures ReturnsOnAllPaths(PopReturnsSeq(ss, next, depth).0) == ReturnsOnAllPaths(ss)
    decreases ss, 0
  {
    if ss != [] {
      var (h, n1) := PopReturns(ss[0], next, depth);
      var (t, n2) := PopReturnsSeq(ss[1..], n1, depth);
      PopReturnsKeepsReturning(ss[0], next, depth);
      PopReturnsSeqKeepsReturning(ss[1..], n1, depth);
      var r := [h] + t;
      assert r[1..] == t;
    }
  }

  /** The rewrite adds no call and no function reference. */
  lemma {:induction false} PopReturnsCallsOk(s: Stmt, next: nat, depth: VarRef, pc: seq<nat>)
    requires CallsOk(s, pc)
    ensures CallsOk(PopReturns(s, next, depth).0, pc)
    decreases s, 1
  {
    match s
    case Return(v) =>
      var (v', n1) := PopReturns(v, next, depth);
      PopReturnsCallsOk(v, next, depth, pc);
      CounterUpdatesPlain(depth, pc);
      assert CallsOkSeq([Set(VarAccess(Local(n1)), v'), Decrement(depth), Return(VarAccess(Local(n1)))], pc);
      assert CallsOkSeq([Decrement(depth), Return(v')], pc);
    case If(c, t, e) =>
      var (c', n1) := PopReturns(c, next, depth);
      var (t', n2) := PopReturnsSeq(t, n1, depth);
      PopReturnsCallsOk(c, next, depth, pc);
      PopReturnsSeqCallsOk(t, n1, depth, pc);
      PopReturnsSeqCallsOk(e, n2, depth, pc);
    case Loop(b) => PopReturnsSeqCallsOk(b, next, depth, pc);
    case Exitwhen(c) => PopReturnsCallsOk(c, next, depth, pc);
    case Set(l, x) =>
      var (l', n1) := PopReturns(l, next, depth);
      PopReturnsCallsOk(l, next, depth, pc);
      PopReturnsCallsOk(x, n1, depth, pc);
    case VarArrayAccess(a, ix) => PopReturnsSeqCallsOk(ix, next, depth, pc);
    case OperatorCall(op, xs) => PopReturnsSeqCallsOk(xs, next, depth, pc);
    case FunctionCall(g, args, tail, pos) => PopReturnsSeqCallsOk(args, next, depth, pc);
    case StatementExpr(b, x) =>
      var (b', n1) := PopReturnsSeq(b, next, depth);
      PopReturnsSeqCallsOk(b, next, depth, pc);
      PopReturnsCallsOk(x, n1, depth, pc);
    case _ =>
  }

  lemma {:induction false} PopReturnsSeqCallsOk(ss: seq<Stmt>, next: nat, depth: VarRef, pc: seq<nat>)
    requires CallsOkSeq(ss, pc)
    ensures CallsOkSeq(PopReturnsSeq(ss, next, depth).0, pc)
    decreases ss, 0
  {
    if ss != [] {
      var (h, n1) := PopReturns(ss[0], next, depth);
      var (t, n2) := PopReturnsSeq(ss[1..], n1, depth);
      PopReturnsCallsOk(ss[0], next, depth, pc);
      PopReturnsSeqCallsOk(ss[1..], n1, depth, pc);
      var r := [h] + t;
      assert forall i | 1 <= i < |r| :: r[i] == t[i - 1];
    }
  }

  // ---------------------------------------------------------------------
  // The temporaries

  /** The number of returns in `s` whose value holds a call: each of them
      needs a temporary. */
  function CallReturns(s: Stmt): nat {
    match s
    case Return(v) => CallReturns(v) + if ContainsCall(v) then 1 else 0
    case If(c, t, e) => CallReturns(c) + CallReturnsSeq(t) + CallReturnsSeq(e)
    case Loop(b) => CallReturnsSeq(b)
    case Exitwhen(c) => CallReturns(c)
    case Set(l, x) => CallReturns(l) + CallReturns(x)
    case VarArrayAccess(_, ix) => CallReturnsSeq(ix)
    case OperatorCall(_, xs) => CallReturnsSeq(xs)
    case FunctionCall(_, args, _, _) => CallReturnsSeq(args)
    case StatementExpr(b, x) => CallReturnsSeq(b) + CallReturns(x)
    case _ => 0
  }

  function CallReturnsSeq(ss: seq<Stmt>): nat {
    if ss == [] then 0 else CallReturns(ss[0]) + CallReturnsSeq(ss[1..])
  }

  /** The temporaries of the pop blocks in `s`, in the order the rewrite
      meets them (a block's own temporary after those inside its value). */
  function Temps(s: Stmt, depth: VarRef): seq<VarRef> {
    match s
    case StatementExpr(b, x) =>
      if x == Null && |b| == 2 && b[0] == Decrement(depth) && b[1].Return? then
        Temps(b[1].value, depth)
      else if x == Null && |b| == 3 && b[0].Set? && b[0].left.VarAccess? && b[1] == Decrement(depth)
              && b[2] == Return(b[0].left) then
        Temps(b[0].right, depth) + [b[0].left.v]
      else TempsSeq(b, depth) + Temps(x, depth)
    case Return(v) => Temps(v, depth)
    case If(c, t, e) => Temps(c, depth) + TempsSeq(t, depth) + TempsSeq(e, depth)
    case Loop(b) => TempsSeq(b, depth)
    case Exitwhen(c) => Temps(c, depth)
    case Set(l, x) => Temps(l, depth) + Temps(x, depth)
    case VarArrayAccess(_, ix) => TempsSeq(ix, depth)
    case OperatorCall(_, xs) => TempsSeq(xs, depth)
    case FunctionCall(_, args, _, _) => TempsSeq(args, depth)
    case _ => []
  }

  function TempsSeq(ss: seq<Stmt>, depth: VarRef): seq<VarRef> {
    if ss == [] then [] else Temps(ss[0], depth) + TempsSeq(ss[1..], depth)
  }

  /** The locals numbered `lo`, `lo + 1`, ..., `lo + n - 1`. */
  function LocalRun(lo: nat, n: nat): (r: seq<VarRef>)
    ensures |r| == n
    ensures forall i | 0 <= i < n :: r[i] == Local(lo + i)
  {
    seq(n, i requires 0 <= i < n => Local(lo + i))
  }

  lemma LocalRunJoin(lo: nat, m: nat, k: nat)
    ensures LocalRun(lo, m) + LocalRun(lo + m, k) == LocalRun(lo, m + k)
  {
    var a := LocalRun(lo, m) + LocalRun(lo + m, k);
    assert forall i | m <= i < m + k :: a[i] == LocalRun(lo + m, k)[i - m];
  }

  lemma TempsOtherBlock(b: seq<Stmt>, x: Expr, depth: VarRef)
    requires forall i | 0 <= i < |b| :: !b[i].Return?
    ensures Temps(StatementExpr(b, x), depth) == TempsSeq(b, depth) + Temps(x, depth)
  {
    assert |b| == 2 ==> !b[1].Return?;
    assert |b| == 3 ==> !b[2].Return?;
  }

  lemma TempsIf(c: Stmt, t: seq<Stmt>, e: seq<Stmt>, depth: VarRef)
    ensures Temps(If(c, t, e), depth) == Temps(c, depth) + TempsSeq(t, depth) + TempsSeq(e, depth)
  {
  }

  lemma LocalRunJoin2(a: seq<VarRef>, b: seq<VarRef>, lo: nat, m: nat, k: nat)
    requires a == LocalRun(lo, m) && b == LocalRun(lo + m, k)
    ensures a + b == LocalRun(lo, m + k)
  {
    LocalRunJoin(lo, m, k);
  }

  lemma LocalRunJoin3(a: seq<VarRef>, b: seq<VarRef>, c: seq<VarRef>, lo: nat, m: nat, k: nat, j: nat)
    requires a == LocalRun(lo, m) && b == LocalRun(lo + m, k) && c == LocalRun(lo + m + k, j)
    ensures a + b + c == LocalRun(lo, m + k + j)
  {
    LocalRunJoin(lo, m, k);
    LocalRunJoin(lo, m + k, j);
  }

  lemma TempsPopBlocks(v: Expr, temp: VarRef, depth: VarRef)
    ensures Temps(PopBlock(v, depth), depth) == Temps(v, depth)
    ensures Temps(PopBlockWithTemp(v, temp, depth), depth) == Temps(v, depth) + [temp]
  {
  }

  /** The rewrite uses exactly one fresh temporary per return whose value
      holds a call, numbered consecutively from `next` in walk order. */
  lemma {:induction false} PopReturnsTemps(s: Stmt, next: nat, depth: VarRef)
    ensures PopReturns(s, next, depth).1 == next + CallReturns(s)
    ensures Temps(PopReturns(s, next, depth).0, depth) == LocalRun(next, CallReturns(s))
    decreases s, 1
  {
    match s
    case Return(v) => PopReturnTemps(v, next, depth);
    case If(c, t, e) => PopIfTemps(c, t, e, next, depth);
    case Loop(b) =>
      assert PopReturns(s, next, depth).0 == Loop(PopReturnsSeq(b, next, depth).0);
      PopReturnsSeqTemps(b, next, depth);
    case Exitwhen(c) =>
      assert PopReturns(s, next, depth).0 == Exitwhen(PopReturns(c, next, depth).0);
      PopReturnsTemps(c, next, depth);
    case Set(l, x) => PopPairTemps(s, next, depth);
    case VarArrayAccess(a, ix) =>
      assert PopReturns(s, next, depth).0 == VarArrayAccess(a, PopReturnsSeq(ix, next, depth).0);
      PopReturnsSeqTemps(ix, next, depth);
    case OperatorCall(op, xs) =>
      assert PopReturns(s, next, depth).0 == OperatorCall(op, PopReturnsSeq(xs, next, depth).0);
      PopReturnsSeqTemps(xs, next, depth);
    case FunctionCall(g, args, tail, pos) =>
      assert PopReturns(s, next, depth).0 == FunctionCall(g, PopReturnsSeq(args, next, depth).0, tail, pos);
      PopReturnsSeqTemps(args, next, depth);
    case StatementExpr(b, x) => PopPairTemps(s, next, depth);
    case _ =>
      assert PopReturns(s, next, depth).0 == s;
  }

  lemma {:induction false} PopReturnTemps(v: Expr, next: nat, depth: VarRef)
    ensures PopReturns(Return(v), next, depth).1 == next + CallReturns(Return(v))
    ensures Temps(PopReturns(Return(v), next, depth).0, depth) == LocalRun(next, CallReturns(Return(v)))
    decreases Return(v), 0
  {
    var (v', n1) := PopReturns(v, next, depth);
    PopReturnsTemps(v, next, depth);
    TempsPopBlocks(v', Local(n1), depth);
    if ContainsCall(v) {
      assert PopReturns(Return(v), next, depth).0 == PopBlockWithTemp(v', Local(n1), depth);
      LocalRunJoin2(Temps(v', depth), [Local(n1)], next, CallReturns(v), 1);
    } else {
      assert PopReturns(Return(v), next, depth).0 == PopBlock(v', depth);
    }
  }

  lemma {:induction false} PopIfTemps(c: Stmt, t: seq<Stmt>, e: seq<Stmt>, next: nat, depth: VarRef)
    ensures PopReturns(If(c, t, e), next, depth).1 == next + CallReturns(If(c, t, e))
    ensures Temps(PopReturns(If(c, t, e), next, depth).0, depth) == LocalRun(next, CallReturns(If(c, t, e)))
    decreases If(c, t, e), 0
  {
    var (c', n1) := PopReturns(c, next, depth);
    var (t', n2) := PopReturnsSeq(t, n1, depth);
    var (e', n3) := PopReturnsSeq(e, n2, depth);
    assert PopReturns(If(c, t, e), next, depth) == (If(c', t', e'), n3);
    PopReturnsTemps(c, next, depth);
    PopReturnsSeqTemps(t, n1, depth);
    PopReturnsSeqTemps(e, n2, depth);
    TempsIf(c', t', e', depth);
    LocalRunJoin3(Temps(c', depth), TempsSeq(t', depth), TempsSeq(e', depth),
                  next, CallReturns(c), CallReturnsSeq(t), CallReturnsSeq(e));
  }

  /** The two-child cases, `Set` and `StatementExpr`. */
  lemma {:induction false} PopPairTemps(s: Stmt, next: nat, depth: VarRef)
    requires s.Set? || s.StatementExpr?
    ensures PopReturns(s, next, depth).1 == next + CallReturns(s)
    ensures Temps(PopReturns(s, next, depth).0, depth) == LocalRun(next, CallReturns(s))
    decreases s, 0
  {
    if s.Set? {
      var (l', n1) := PopReturns(s.left, next, depth);
      var (x', n2) := PopReturns(s.right, n1, depth);
      assert PopReturns(s, next, depth) == (Set(l', x'), n2);
      PopReturnsTemps(s.left, next, depth);
      PopReturnsTemps(s.right, n1, depth);
      assert Temps(Set(l', x'), depth) == Temps(l', depth) + Temps(x', depth);
      LocalRunJoin2(Temps(l', depth), Temps(x', depth), next, CallReturns(s.left), CallReturns(s.right));
    } else {
      var (b', n1) := PopReturnsSeq(s.stmts, next, depth);
      var (x', n2) := PopReturns(s.result, n1, depth);
      assert PopReturns(s, next, depth) == (StatementExpr(b', x'), n2);
      PopReturnsSeqTemps(s.stmts, next, depth);
      PopReturnsTemps(s.result, n1, depth);
      TempsOtherBlock(b', x', depth);
      LocalRunJoin2(TempsSeq(b', depth), Temps(x', depth), next, CallReturnsSeq(s.stmts), CallReturns(s.result));
    }
  }

  lemma {:induction false} PopReturnsSeqTemps(ss: seq<Stmt>, next: nat, depth: VarRef)
    ensures PopReturnsSeq(ss, next, depth).1 == next + CallReturnsSeq(ss)
    ensures TempsSeq(PopReturnsSeq(ss, next, depth).0, depth) == LocalRun(next, CallReturnsSeq(ss))
    decreases ss, 0
  {
    if ss != [] {
      var (h, n1) := PopReturns(ss[0], next, depth);
      var (t, n2) := PopReturnsSeq(ss[1..], n1, depth);
      PopReturnsTemps(ss[0], next, depth);
      PopReturnsSeqTemps(ss[1..], n1, depth);
      var r := [h] + t;
      assert r[0] == h && r[1..] == t;
      LocalRunJoin2(Temps(h, depth), TempsSeq(t, depth), next, CallReturns(ss[0]), CallReturnsSeq(ss[1..]));
    }
  }

  // ---------------------------------------------------------------------
  // Whole functions

  /** The temporaries added for `count` returns of a function returning `t`. */
  function TempLocals(count: nat, t: ImType): (r: seq<ImVar>)
    ensures |r| == count
    ensures forall i | 0 <= i < count :: r[i] == ImVar("stackTrace_tempReturn", t)
  {
    seq(count, i => ImVar("stackTrace_tempReturn", t))
  }

  /** The function with every return popped, its temporaries added to its
      locals, and a final decrement when it does not return on all paths. */
  function PopFunction(f: ImFunction, depth: VarRef): ImFunction {
    var (body', n) := PopReturnsSeq(f.body, |f.locals|, depth);
    f.(locals := f.locals + TempLocals(n - |f.locals|, f.returnType),
       body := if ReturnsOnAllPaths(body') then body' else body' + [Decrement(depth)])
  }

  /** Popping a function: its returns become pop blocks, nothing else in its
      body changes, one fresh local per return whose value holds a call
      is appended to its locals and used by exactly that return, and the final decrement is there
      exactly when the original body does not return on all paths. */
  lemma PopFunctionShape(f: ImFunction, depth: VarRef)
    ensures var f' := PopFunction(f, depth);
      var popped := PopReturnsSeq(f.body, |f.locals|, depth).0;
      && f'.(locals := f.locals, body := f.body) == f
      && f'.locals == f.locals + TempLocals(CallReturnsSeq(f.body), f.returnType)
      && (var temps := TempsSeq(popped, depth);
          |temps| == CallReturnsSeq(f.body) && forall k | 0 <= k < |temps| :: temps[k] == Local(|f.locals| + k))
      && (ReturnsOnAllPaths(f.body) ==> f'.body == popped)
      && (!ReturnsOnAllPaths(f.body) ==> f'.body == popped + [Decrement(depth)])
      && UnpopSeq(popped, depth) == f.body
      && ReturnsPoppedSeq(popped, depth)
  {
    PopReturnsSeqKeepsReturning(f.body, |f.locals|, depth);
    PopReturnsSeqRoundTrip(f.body, |f.locals|, depth);
    PopReturnsSeqPops(f.body, |f.locals|, depth);
    PopReturnsSeqTemps(f.body, |f.locals|, depth);
  }

  // ---------------------------------------------------------------------
  // Whole programs

  /** Pushes every function whose number is in `targets`. */
  function PushProgram(fs: seq<ImFunction>, targets: set<FuncId>, stackSize: VarRef, stack: VarRef): (r: seq<ImFunction>)
    requires forall i | 0 <= i < |fs| && i in targets :: |fs[i].params| > 0
    ensures |r| == |fs|
  {
    seq(|fs|, i requires 0 <= i < |fs| =>
      if i in targets then PushFunction(fs[i], stackSize, stack) else fs[i])
  }

  /** Pops every function whose number is in `targets`. */
  function PopProgram(fs: seq<ImFunction>, targets: set<FuncId>, depth: VarRef): (r: seq<ImFunction>)
    ensures |r| == |fs|
  {
    seq(|fs|, i requires 0 <= i < |fs| => if i in targets then PopFunction(fs[i], depth) else fs[i])
  }

  /** Only the targets change: each gets the prologue in front of its old
      body, reading its last parameter; no parameter list changes. */
  lemma PushProgramShape(fs: seq<ImFunction>, targets: set<FuncId>, stackSize: VarRef, stack: VarRef, i: nat)
    requires forall j | 0 <= j < |fs| && j in targets :: |fs[j].params| > 0
    requires i < |fs|
    ensures var r := PushProgram(fs, targets, stackSize, stack);
      && r[i].params == fs[i].params
      && (i !in targets ==> r[i] == fs[i])
      && (i in targets ==> r[i].body == PushPrologue(stackSize, stack, Param(|fs[i].params| - 1)) + fs[i].body
                            && r[i].(body := fs[i].body) == fs[i])
  {
    var r := PushProgram(fs, targets, stackSize, stack);
    if i in targets {
      assert r[i].body == r[i].body[..2] + r[i].body[2..];
    }
  }

  /** The prologue calls nothing. */
  lemma PrologueCallsOk(stackSize: VarRef, stack: VarRef, stackPos: VarRef, pc: seq<nat>)
    ensures CallsOkSeq(PushPrologue(stackSize, stack, stackPos), pc)
  {
    CounterUpdatesPlain(stackSize, pc);
    assert CallsOkSeq([VarAccess(stackSize)], pc);
    assert CallsOk(VarArrayAccess(stack, [VarAccess(stackSize)]), pc) && CallsOk(VarAccess(stackPos), pc);
  }

  lemma PushProgramWellFormed(fs: seq<ImFunction>, targets: set<FuncId>, stackSize: VarRef, stack: VarRef)
    requires forall i | 0 <= i < |fs| && i in targets :: |fs[i].params| > 0
    requires WellFormed(fs)
    ensures WellFormed(PushProgram(fs, targets, stackSize, stack))
  {
    var r := PushProgram(fs, targets, stackSize, stack);
    assert ParamCounts(r) == ParamCounts(fs);
    forall i | 0 <= i < |r| ensures CallsOkSeq(r[i].body, ParamCounts(r)) {
      if i in targets {
        PrologueCallsOk(stackSize, stack, Param(|fs[i].params| - 1), ParamCounts(r));
        assert r[i].body == PushPrologue(stackSize, stack, Param(|fs[i].params| - 1)) + fs[i].body;
      }
    }
  }

  /** Only the targets change, each as `PopFunction` says; no parameter list
      changes. */
  lemma PopProgramShape(fs: seq<ImFunction>, targets: set<FuncId>, depth: VarRef, i: nat)
    requires i < |fs|
    ensures var r := PopProgram(fs, targets, depth);
      && r[i].params == fs[i].params
      && (i !in targets ==> r[i] == fs[i])
      && (i in targets ==> UnpopSeq(PopReturnsSeq(fs[i].body, |fs[i].locals|, depth).0, depth) == fs[i].body)
  {
    if i in targets {
      PopFunctionShape(fs[i], depth);
    }
  }

  lemma PopProgramWellFormed(fs: seq<ImFunction>, targets: set<FuncId>, depth: VarRef)
    requires WellFormed(fs)
    ensures WellFormed(PopProgram(fs, targets, depth))
  {
    var r := PopProgram(fs, targets, depth);
    var pc := ParamCounts(fs);
    assert ParamCounts(r) == pc by {
      forall i | 0 <= i < |fs| ensures r[i].params == fs[i].params {
        PopProgramShape(fs, targets, depth, i);
      }
    }
    forall i | 0 <= i < |r| && i in targets ensures CallsOkSeq(r[i].body, pc) {
      var popped := PopReturnsSeq(fs[i].body, |fs[i].locals|, depth).0;
      PopReturnsSeqCallsOk(fs[i].body, |fs[i].locals|, depth, pc);
      PopFunctionShape(fs[i], depth);
      CounterUpdatesPlain(depth, pc);
      assert CallsOkSeq(popped + [Decrement(depth)], pc);
    }
  }
}

/**
  The stack-trace pass as a whole: the injector object updates the program in
  place, phase by phase, in the order the pass runs them.

  1. Scan: trigger functions and the called -> caller relation.
  2. The two globals: the depth `wurst_stack_depth` (initialised to 0) and the
     string array `wurst_stack`.
  3. The affected set.
  4. Threading: every affected function other than `main` and `config` gets
     the `stackPos` parameter, and every call of it the label argument.
  5. Push and pop in the same functions.
  6. Bridges for references to affected functions.
  7. The rewrite of the stack-trace reads.

  Every phase is a method over the program object, proved equal to the pure
  function of the phase's module; `Inject` composes those functions, and the
  lemmas below state what the whole pass does to parameters and arities.
*/
module StackTraceInjection {
  import opened Wrappers
  import opened JassIm
  import opened CallGraph
  import opened StackTraceParams
  import opened StackTracePushPop
  import opened StackTraceBridges
  import opened StackTraceErrors

  // ---------------------------------------------------------------------
  // The pass as a function of the function list

  /** The functions that get the parameter, the push and the pop. */
  function Targets(fs: seq<ImFunction>, affected: set<FuncId>): (r: set<FuncId>)
    ensures forall f :: f in r <==> f in affected && f < |fs| && !IsMainOrConfig(fs[f])
  {
    ThreadedNames(fs, affected).Keys
  }

  function Threaded(fs: seq<ImFunction>, affected: set<FuncId>, printShort: WPos -> string): (r: seq<ImFunction>)
    ensures |r| == |fs|
    ensures forall i | 0 <= i < |fs| :: i in Targets(fs, affected) ==> |r[i].params| > 0
  {
    ThreadProgram(fs, ThreadedNames(fs, affected), printShort)
  }

  function Pushed(fs: seq<ImFunction>, affected: set<FuncId>, stackSize: VarRef, stack: VarRef, printShort: WPos -> string): (r: seq<ImFunction>)
    ensures |r| == |fs|
  {
    PushProgram(Threaded(fs, affected, printShort), Targets(fs, affected), stackSize, stack)
  }

  function Popped(fs: seq<ImFunction>, affected: set<FuncId>, stackSize: VarRef, stack: VarRef, printShort: WPos -> string): (r: seq<ImFunction>)
    ensures |r| == |fs|
  {
    PopProgram(Pushed(fs, affected, stackSize, stack, printShort), Targets(fs, affected), stackSize)
  }

  /** The function list after the pass, or `None` when a bridge cannot be
      built. */
  function Inject(fs: seq<ImFunction>, affected: set<FuncId>, stackSize: VarRef, stack: VarRef, printShort: WPos -> string): Option<seq<ImFunction>>
    requires forall g | g in affected :: g < |fs|
  {
    match RedirectProgram(Popped(fs, affected, stackSize, stack, printShort), affected, stackSize, printShort)
    case None => None
    case Some(fs4) => Some(RewriteErrorsProgram(fs4, stackSize, stack))
  }

  /** The references the bridge phase finds, in order. */
  function RefSites(fs: seq<ImFunction>, affected: set<FuncId>, stackSize: VarRef, stack: VarRef, printShort: WPos -> string): seq<RefSite> {
    RedirectBodies(Popped(fs, affected, stackSize, stack, printShort), affected, |fs|).1
  }

  // ---------------------------------------------------------------------
  // What the pass does

  /** Parameters after the first three phases: a target has gained exactly
      `stackPos`; `main`, `config` and unaffected functions keep theirs. */
  lemma PoppedParams(fs: seq<ImFunction>, affected: set<FuncId>, stackSize: VarRef, stack: VarRef, printShort: WPos -> string, i: nat)
    requires i < |fs|
    ensures var p := Popped(fs, affected, stackSize, stack, printShort)[i];
      && (i in Targets(fs, affected) ==> p.params == fs[i].params + [StackPosParam])
      && (i !in Targets(fs, affected) ==> p.params == fs[i].params)
      && p.name == fs[i].name
  {
    var t := Threaded(fs, affected, printShort);
    var targets := Targets(fs, affected);
    ThreadFunctionParams(fs, affected, printShort, i);
    PushProgramShape(t, targets, stackSize, stack, i);
    PopProgramShape(PushProgram(t, targets, stackSize, stack), targets, stackSize, i);
  }

  /** `main`, `config` and unaffected functions are neither pushed nor
      popped: after the first three phases they differ from the input only in
      the extra arguments of their calls. */
  lemma UntargetedOnlyThreaded(fs: seq<ImFunction>, affected: set<FuncId>, stackSize: VarRef, stack: VarRef, printShort: WPos -> string, i: nat)
    requires i < |fs|
    requires i !in affected || IsMainOrConfig(fs[i])
    ensures var p := Popped(fs, affected, stackSize, stack, printShort)[i];
      && p.(body := fs[i].body) == fs[i]
      && DropThreadedArgsSeq(p.body, Targets(fs, affected)) == fs[i].body
  {
    var t := Threaded(fs, affected, printShort);
    var targets := Targets(fs, affected);
    ThreadFunctionParams(fs, affected, printShort, i);
    PushProgramShape(t, targets, stackSize, stack, i);
    PopProgramShape(PushProgram(t, targets, stackSize, stack), targets, stackSize, i);
  }

  /** The entry points are exempt by name: an affected function is a target
      exactly when it is called neither `main` nor `config`, and an affected
      `main` or `config` keeps its parameters and is neither pushed nor
      popped. */
  lemma EntryPointsExempt(fs: seq<ImFunction>, affected: set<FuncId>, stackSize: VarRef, stack: VarRef, printShort: WPos -> string, i: nat)
    requires i < |fs| && i in affected
    ensures i in Targets(fs, affected) <==> fs[i].name != "main" && fs[i].name != "config"
    ensures fs[i].name == "main" || fs[i].name == "config" ==>
      var p := Popped(fs, affected, stackSize, stack, printShort)[i];
      p.(body := fs[i].body) == fs[i] && DropThreadedArgsSeq(p.body, Targets(fs, affected)) == fs[i].body
  {
    if IsMainOrConfig(fs[i]) {
      UntargetedOnlyThreaded(fs, affected, stackSize, stack, printShort, i);
    }
  }

  /** What makes a return need a temporary: its value holds a call exactly
      when it calls some function or reads the stack trace. */
  lemma {:induction false} ContainsCallMeaning(s: Stmt)
    ensures ContainsCall(s) <==> Callees(s) != {} || CountTraces(s) > 0
    decreases s, 1
  {
    match s
    case Return(v) => ContainsCallMeaning(v);
    case If(c, t, e) =>
      ContainsCallMeaning(c);
      ContainsCallSeqMeaning(t);
      ContainsCallSeqMeaning(e);
    case Loop(b) => ContainsCallSeqMeaning(b);
    case Exitwhen(c) => ContainsCallMeaning(c);
    case Set(l, x) =>
      ContainsCallMeaning(l);
      ContainsCallMeaning(x);
    case VarArrayAccess(_, ix) => ContainsCallSeqMeaning(ix);
    case OperatorCall(_, xs) => ContainsCallSeqMeaning(xs);
    case FunctionCall(g, args, _, _) => assert g in Callees(s);
    case StatementExpr(b, x) =>
      ContainsCallSeqMeaning(b);
      ContainsCallMeaning(x);
    case _ =>
  }

  lemma {:induction false} ContainsCallSeqMeaning(ss: seq<Stmt>)
    ensures ContainsCallSeq(ss) <==> CalleesSeq(ss) != {} || CountTracesSeq(ss) > 0
    decreases ss, 0
  {
    if ss != [] {
      ContainsCallSeqCons(ss);
      ContainsCallMeaning(ss[0]);
      ContainsCallSeqMeaning(ss[1..]);
    }
  }

  /** A target starts by pushing its own `stackPos` parameter. */
  lemma TargetPushes(fs: seq<ImFunction>, affected: set<FuncId>, stackSize: VarRef, stack: VarRef, printShort: WPos -> string, i: nat)
    requires i < |fs| && i in Targets(fs, affected)
    ensures var p := Pushed(fs, affected, stackSize, stack, printShort)[i];
      p.body[..2] == PushPrologue(stackSize, stack, Param(|fs[i].params|))
      && p.params[|fs[i].params|] == StackPosParam
  {
    var t := Threaded(fs, affected, printShort);
    ThreadFunctionParams(fs, affected, printShort, i);
    PushProgramShape(t, Targets(fs, affected), stackSize, stack, i);
  }

  /** The pass fails exactly when some reference to an affected function
      finds that function without parameters (only possible for `main` or
      `config`) or has no trace. */
  lemma InjectFails(fs: seq<ImFunction>, affected: set<FuncId>, stackSize: VarRef, stack: VarRef, printShort: WPos -> string)
    requires forall g | g in affected :: g < |fs|
    requires WellFormed(fs)
    ensures var sites := RefSites(fs, affected, stackSize, stack, printShort);
      Inject(fs, affected, stackSize, stack, printShort).Some? <==>
        forall k | 0 <= k < |sites| ::
          sites[k].traceHasParent && (IsMainOrConfig(fs[sites[k].func]) ==> |fs[sites[k].func].params| > 0)
  {
    var p := Popped(fs, affected, stackSize, stack, printShort);
    var sites := RefSites(fs, affected, stackSize, stack, printShort);
    PoppedWellFormed(fs, affected, stackSize, stack, printShort);
    RedirectProgramShape(p, affected, stackSize, printShort);
    forall k | 0 <= k < |sites|
      ensures (|p[sites[k].func].params| > 0) <==> (IsMainOrConfig(fs[sites[k].func]) ==> |fs[sites[k].func].params| > 0)
    {
      PoppedParams(fs, affected, stackSize, stack, printShort, sites[k].func);
    }
  }

  /** The first three phases keep a well-formed program well formed. */
  lemma PoppedWellFormed(fs: seq<ImFunction>, affected: set<FuncId>, stackSize: VarRef, stack: VarRef, printShort: WPos -> string)
    requires WellFormed(fs)
    ensures WellFormed(Popped(fs, affected, stackSize, stack, printShort))
  {
    var t := Threaded(fs, affected, printShort);
    ThreadProgramWellFormed(fs, ThreadedNames(fs, affected), printShort);
    PushProgramWellFormed(t, Targets(fs, affected), stackSize, stack);
    PopProgramWellFormed(PushProgram(t, Targets(fs, affected), stackSize, stack), Targets(fs, affected), stackSize);
  }

  /** End to end: from a well-formed program the pass yields a well-formed
      one exactly when every function referenced as a callback had no
      parameters of its own (`main` and `config` one). */
  lemma InjectWellFormed(fs: seq<ImFunction>, affected: set<FuncId>, stackSize: VarRef, stack: VarRef, printShort: WPos -> string)
    requires forall g | g in affected :: g < |fs|
    requires WellFormed(fs)
    requires Inject(fs, affected, stackSize, stack, printShort).Some?
    ensures var sites := RefSites(fs, affected, stackSize, stack, printShort);
      var ok := forall k | 0 <= k < |sites| ::
        |fs[sites[k].func].params| == if IsMainOrConfig(fs[sites[k].func]) then 1 else 0;
      WellFormed(Inject(fs, affected, stackSize, stack, printShort).value) <==> ok
  {
    var p := Popped(fs, affected, stackSize, stack, printShort);
    var sites := RefSites(fs, affected, stackSize, stack, printShort);
    assert sites == RedirectBodies(p, affected, |p|).1;
    var fs4 := RedirectProgram(p, affected, stackSize, printShort).value;
    assert Inject(fs, affected, stackSize, stack, printShort).value == RewriteErrorsProgram(fs4, stackSize, stack);
    PoppedWellFormed(fs, affected, stackSize, stack, printShort);
    RedirectProgramWellFormed(p, affected, stackSize, printShort);
    assert WellFormed(fs4) <==> forall k | 0 <= k < |sites| :: |p[sites[k].func].params| == 1;
    SiteArity(fs, affected, stackSize, stack, printShort);
    RewriteErrorsProgramWellFormed(fs4, stackSize, stack);
  }

  /** A referenced function has one parameter after the first three phases
      exactly when it had none before, or one if it is `main` or `config`. */
  lemma SiteArity(fs: seq<ImFunction>, affected: set<FuncId>, stackSize: VarRef, stack: VarRef, printShort: WPos -> string)
    requires forall g | g in affected :: g < |fs|
    ensures var p := Popped(fs, affected, stackSize, stack, printShort);
      var sites := RefSites(fs, affected, stackSize, stack, printShort);
      (forall k | 0 <= k < |sites| :: |p[sites[k].func].params| == 1) <==>
      (forall k | 0 <= k < |sites| ::
        |fs[sites[k].func].params| == if IsMainOrConfig(fs[sites[k].func]) then 1 else 0)
  {
    var p := Popped(fs, affected, stackSize, stack, printShort);
    var sites := RefSites(fs, affected, stackSize, stack, printShort);
    forall k | 0 <= k < |sites|
      ensures (|p[sites[k].func].params| == 1) <==>
        (|fs[sites[k].func].params| == if IsMainOrConfig(fs[sites[k].func]) then 1 else 0)
    {
      PoppedParams(fs, affected, stackSize, stack, printShort, sites[k].func);
    }
  }

  /** No stack-trace read is left after the pass. */
  lemma InjectNoTraces(fs: seq<ImFunction>, affected: set<FuncId>, stackSize: VarRef, stack: VarRef, printShort: WPos -> string)
    requires forall g | g in affected :: g < |fs|
    requires Inject(fs, affected, stackSize, stack, printShort).Some?
    ensures var r := Inject(fs, affected, stackSize, stack, printShort).value;
      forall i | 0 <= i < |r| :: CountTracesSeq(r[i].body) == 0
  {
    var p := Popped(fs, affected, stackSize, stack, printShort);
    RewriteErrorsProgramWellFormed(RedirectProgram(p, affected, stackSize, printShort).value, stackSize, stack);
  }

  /** The phases keep every name, so they agree on the targets. */
  lemma TargetsAfterThread(fs: seq<ImFunction>, affected: set<FuncId>, printShort: WPos -> string)
    ensures Targets(Threaded(fs, affected, printShort), affected) == Targets(fs, affected)
  {
    var t := Threaded(fs, affected, printShort);
    assert forall i | 0 <= i < |fs| :: t[i].name == fs[i].name;
  }

  lemma TargetsAfterPush(fs: seq<ImFunction>, affected: set<FuncId>, stackSize: VarRef, stack: VarRef, printShort: WPos -> string)
    ensures Targets(Pushed(fs, affected, stackSize, stack, printShort), affected) == Targets(fs, affected)
  {
    var p := Pushed(fs, affected, stackSize, stack, printShort);
    forall i | 0 <= i < |fs| ensures p[i].name == fs[i].name {
      PushProgramShape(Threaded(fs, affected, printShort), Targets(fs, affected), stackSize, stack, i);
    }
    TargetsAfterThread(fs, affected, printShort);
  }

  // ---------------------------------------------------------------------
  // The injector object

  class StackTraceInjector2 {
    var prog: ImProg
    var stackSize: VarRef
    var stack: VarRef

    constructor (prog: ImProg)
      ensures this.prog == prog
    {
      this.prog := prog;
      stackSize := Global(0);
      stack := Global(1);
    }

    /** Runs the whole pass; `ok` is false when a bridge cannot be built, and
        then the function list is left unspecified. */
    method Transform(printShort: WPos -> string) returns (ok: bool)
      modifies this, prog
      ensures prog == old(prog)
      ensures var g := |old(prog.globals)|;
        && stackSize == Global(g) && stack == Global(g + 1)
        && prog.globals == old(prog.globals) + [ImVar("wurst_stack_depth", IntType), ImVar("wurst_stack", StringArrayType)]
        && prog.globalInits == old(prog.globalInits)[g := [IntVal(0)]]
      ensures var fs := old(prog.functions);
        var r := InjectOf(fs, stackSize, stack, printShort);
        && (ok <==> r.Some?)
        && (ok ==> prog.functions == r.value)
    {
      var fs := prog.functions;
      var triggers, callRelation := Scan(fs);
      var g := |prog.globals|;
      stackSize := Global(g);
      stack := Global(g + 1);
      prog.globals := prog.globals + [ImVar("wurst_stack_depth", IntType), ImVar("wurst_stack", StringArrayType)];
      prog.globalInits := prog.globalInits[g := [IntVal(0)]];

      assert triggers == TriggerFuncs(fs);
      assert callRelation == CallEdges(fs);
      var affected := FindAffected(triggers, callRelation);
      assert affected == AffectedFuncs(fs);
      forall f | f in affected ensures f < |fs| {
        AffectedBounded(fs, f);
      }

      PassStacktraceParams(affected, printShort);
      TargetsAfterThread(fs, affected, printShort);
      AddStackTracePush(affected);
      assert prog.functions == Pushed(fs, affected, stackSize, stack, printShort);
      TargetsAfterPush(fs, affected, stackSize, stack, printShort);
      AddStackTracePop(affected);
      assert prog.functions == Popped(fs, affected, stackSize, stack, printShort);
      ok := RewriteFuncRefs(affected, printShort);
      if ok {
        ghost var fs4 := prog.functions;
        RewriteErrorStatements();
        assert prog.functions == RewriteErrorsProgram(fs4, stackSize, stack);
      }
    }

    /** Threads every affected function other than `main` and `config`, one
        at a time and in no particular order. */
    method PassStacktraceParams(affected: set<FuncId>, printShort: WPos -> string)
      requires forall g | g in affected :: g < |prog.functions|
      modifies prog
      ensures prog.functions == Threaded(old(prog.functions), affected, printShort)
      ensures prog.globals == old(prog.globals) && prog.globalInits == old(prog.globalInits)
    {
      ghost var fs := prog.functions;
      var todo := affected;
      ghost var done: map<FuncId, string> := map[];
      ThreadProgramNone(fs, printShort);
      while todo != {}
        invariant todo <= affected
        invariant prog.functions == ThreadProgram(fs, done, printShort)
        invariant forall f :: f in done <==> f in affected && f !in todo && !IsMainOrConfig(fs[f])
        invariant forall f | f in done :: done[f] == Name(fs[f])
        invariant prog.globals == old(prog.globals) && prog.globalInits == old(prog.globalInits)
        decreases todo
      {
        var f :| f in todo;
        if !IsMainOrConfig(prog.functions[f]) {
          var one := map[f := Name(prog.functions[f])];
          ThreadProgramCompose(fs, done, one, printShort);
          prog.functions := ThreadProgram(prog.functions, one, printShort);
          done := done + one;
        }
        todo := todo - {f};
      }
      assert done == ThreadedNames(fs, affected);
    }

    /** Pushes a frame on entry of every target. */
    method AddStackTracePush(affected: set<FuncId>)
      requires forall g | g in affected :: g < |prog.functions|
      requires forall i | 0 <= i < |prog.functions| && i in Targets(prog.functions, affected) :: |prog.functions[i].params| > 0
      modifies prog
      ensures prog.functions == PushProgram(old(prog.functions), Targets(old(prog.functions), affected), stackSize, stack)
      ensures prog.globals == old(prog.globals) && prog.globalInits == old(prog.globalInits)
    {
      ghost var fs := prog.functions;
      var todo := affected;
      ghost var done: set<FuncId> := {};
      while todo != {}
        invariant todo <= affected
        invariant forall f :: f in done <==> f in affected && f !in todo && !IsMainOrConfig(fs[f])
        invariant prog.functions == PushProgram(fs, done, stackSize, stack)
        invariant prog.globals == old(prog.globals) && prog.globalInits == old(prog.globalInits)
        decreases todo
      {
        var f :| f in todo;
        if !IsMainOrConfig(prog.functions[f]) {
          prog.functions := prog.functions[f := PushFunction(prog.functions[f], stackSize, stack)];
          done := done + {f};
          assert prog.functions == PushProgram(fs, done, stackSize, stack);
        }
        todo := todo - {f};
      }
      assert done == Targets(fs, affected);
    }

    /** Pops the frame at every return of every target. */
    method AddStackTracePop(affected: set<FuncId>)
      requires forall g | g in affected :: g < |prog.functions|
      modifies prog
      ensures prog.functions == PopProgram(old(prog.functions), Targets(old(prog.functions), affected), stackSize)
      ensures prog.globals == old(prog.globals) && prog.globalInits == old(prog.globalInits)
    {
      ghost var fs := prog.functions;
      var todo := affected;
      ghost var done: set<FuncId> := {};
      while todo != {}
        invariant todo <= affected
        invariant prog.functions == PopProgram(fs, done, stackSize)
        invariant forall f :: f in done <==> f in affected && f !in todo && !IsMainOrConfig(fs[f])
        invariant prog.globals == old(prog.globals) && prog.globalInits == old(prog.globalInits)
        decreases todo
      {
        var f :| f in todo;
        if !IsMainOrConfig(prog.functions[f]) {
          prog.functions := prog.functions[f := PopFunction(prog.functions[f], stackSize)];
          done := done + {f};
          assert prog.functions == PopProgram(fs, done, stackSize);
        }
        todo := todo - {f};
      }
      assert done == Targets(fs, affected);
    }

    /** Redirects the references to affected functions and appends one
        bridge per reference; false when a bridge cannot be built. */
    method RewriteFuncRefs(affected: set<FuncId>, printShort: WPos -> string) returns (ok: bool)
      requires forall g | g in affected :: g < |prog.functions|
      modifies prog
      ensures ok <==> RedirectProgram(old(prog.functions), affected, stackSize, printShort).Some?
      ensures ok ==> prog.functions == RedirectProgram(old(prog.functions), affected, stackSize, printShort).value
      ensures prog.globals == old(prog.globals) && prog.globalInits == old(prog.globalInits)
    {
      var fs := prog.functions;
      var (redirected, sites) := RedirectBodies(fs, affected, |fs|);
      var bridges: seq<ImFunction> := [];
      for k := 0 to |sites|
        invariant |bridges| == k
        invariant forall j | 0 <= j < k :: MakeBridge(fs[sites[j].func], sites[j], stackSize, printShort) == Some(bridges[j])
        invariant prog.functions == fs
      {
        var b := MakeBridge(fs[sites[k].func], sites[k], stackSize, printShort);
        if b.None? {
          ok := false;
          return;
        }
        bridges := bridges + [b.value];
      }
      prog.functions := redirected + bridges;
      ok := true;
    }

    /** Replaces every stack-trace read by its snippet. */
    method RewriteErrorStatements()
      modifies prog
      ensures prog.functions == RewriteErrorsProgram(old(prog.functions), stackSize, stack)
      ensures prog.globals == old(prog.globals) && prog.globalInits == old(prog.globalInits)
    {
      ghost var fs := prog.functions;
      var n := |prog.functions|;
      for i := 0 to n
        invariant |prog.functions| == |fs| == n
        invariant forall j | 0 <= j < |fs| ::
          prog.functions[j] == if j < i then RewriteErrorsFunction(fs[j], stackSize, stack) else fs[j]
        invariant prog.globals == old(prog.globals) && prog.globalInits == old(prog.globalInits)
      {
        prog.functions := prog.functions[i := RewriteErrorsFunction(prog.functions[i], stackSize, stack)];
      }
    }
  }

  /** The pass on `fs` with its own affected set. */
  ghost function InjectOf(fs: seq<ImFunction>, stackSize: VarRef, stack: VarRef, printShort: WPos -> string): Option<seq<ImFunction>> {
    assert forall g | g in AffectedFuncs(fs) :: g < |fs| by {
      forall g | g in AffectedFuncs(fs) ensures g < |fs| {
        AffectedBounded(fs, g);
      }
    }
    Inject(fs, AffectedFuncs(fs), stackSize, stack, printShort)
  }
}

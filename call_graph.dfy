/**
  The scan of the stack-trace pass and the affected set.

  The scan walks every function body once and records which functions hold a
  stack-trace use (the trigger sites) and the relation "called function ->
  calling function".  The affected set is the set of trigger functions together
  with every function that reaches one of them along that relation, i.e. every
  function that can transitively call a trigger function.
*/
module CallGraph {
  import opened JassIm

  /** An edge (callee, caller): `caller` contains a direct call of `callee`. */
  type Edge = (FuncId, FuncId)

  /** The node is, or contains, a trigger site: an explicit stack-trace read, or
      an access to a variable array with more than one index. */
  predicate HasStackTraceUse(s: Stmt) {
    match s
    case GetStackTrace => true
    case VarArrayAccess(_, ix) => |ix| > 1 || HasStackTraceUseSeq(ix)
    case Return(v) => HasStackTraceUse(v)
    case If(c, t, e) => HasStackTraceUse(c) || HasStackTraceUseSeq(t) || HasStackTraceUseSeq(e)
    case Loop(b) => HasStackTraceUseSeq(b)
    case Exitwhen(c) => HasStackTraceUse(c)
    case Set(l, r) => HasStackTraceUse(l) || HasStackTraceUse(r)
    case OperatorCall(_, xs) => HasStackTraceUseSeq(xs)
    case FunctionCall(_, args, _, _) => HasStackTraceUseSeq(args)
    case StatementExpr(b, r) => HasStackTraceUseSeq(b) || HasStackTraceUse(r)
    case _ => false
  }

  predicate HasStackTraceUseSeq(ss: seq<Stmt>) {
    exists i | 0 <= i < |ss| :: HasStackTraceUse(ss[i])
  }

  /** The functions called directly somewhere inside the node. */
  function Callees(s: Stmt): set<FuncId> {
    match s
    case Return(v) => Callees(v)
    case If(c, t, e) => Callees(c) + CalleesSeq(t) + CalleesSeq(e)
    case Loop(b) => CalleesSeq(b)
    case Exitwhen(c) => Callees(c)
    case Set(l, r) => Callees(l) + Callees(r)
    case VarArrayAccess(_, ix) => CalleesSeq(ix)
    case OperatorCall(_, xs) => CalleesSeq(xs)
    case FunctionCall(g, args, _, _) => {g} + CalleesSeq(args)
    case StatementExpr(b, r) => CalleesSeq(b) + Callees(r)
    case _ => {}
  }

  function CalleesSeq(ss: seq<Stmt>): set<FuncId> {
    if ss == [] then {} else Callees(ss[0]) + CalleesSeq(ss[1..])
  }

  /** The functions that hold a trigger site. */
  ghost function TriggerFuncs(fs: seq<ImFunction>): set<FuncId> {
    set f | 0 <= f < |fs| && HasStackTraceUseSeq(fs[f].body)
  }

  /** Every (callee, caller) pair of the program. */
  ghost predicate InCallRelation(fs: seq<ImFunction>, e: Edge) {
    e.1 < |fs| && e.0 in CalleesSeq(fs[e.1].body)
  }

  /** The scan: one walk over every function body, collecting the trigger
      functions and the called -> caller relation. */
  method Scan(fs: seq<ImFunction>) returns (triggers: set<FuncId>, callRelation: set<Edge>)
    ensures forall f: FuncId :: f in triggers <==> f < |fs| && HasStackTraceUseSeq(fs[f].body)
    ensures forall e :: e in callRelation <==> InCallRelation(fs, e)
  {
    triggers, callRelation := {}, {};
    for i := 0 to |fs|
      invariant forall f: FuncId :: f in triggers <==> f < i && HasStackTraceUseSeq(fs[f].body)
      invariant forall e :: e in callRelation <==> e.1 < i && e.0 in CalleesSeq(fs[e.1].body)
    {
      var body := fs[i].body;
      if HasStackTraceUseSeq(body) {
        triggers := triggers + {i};
      }
      callRelation := callRelation + set g | g in CalleesSeq(body) :: (g, i);
    }
  }

  // ---------------------------------------------------------------------
  // The closure of the called -> caller relation, by its definition.

  /** `p` is a non-empty chain f0, f1, ... in which every f(k+1) calls f(k). */
  ghost predicate IsCallerPath(rel: set<Edge>, p: seq<FuncId>) {
    |p| > 0 && forall k | 0 <= k < |p| - 1 :: (p[k], p[k + 1]) in rel
  }

  /** `f` is a trigger function or reaches one through zero or more calls. */
  ghost predicate IsAffected(triggers: set<FuncId>, rel: set<Edge>, f: FuncId) {
    exists p :: IsCallerPath(rel, p) && p[0] in triggers && p[|p| - 1] == f
  }

  /** A set that holds the triggers and every caller of its members holds every
      affected function. */
  lemma {:induction false} ClosedSetHoldsAffected(triggers: set<FuncId>, rel: set<Edge>, s: set<FuncId>, f: FuncId)
    requires triggers <= s
    requires forall e | e in rel && e.0 in s :: e.1 in s
    requires IsAffected(triggers, rel, f)
    ensures f in s
  {
    var p :| IsCallerPath(rel, p) && p[0] in triggers && p[|p| - 1] == f;
    var k := 0;
    while k < |p| - 1
      invariant 0 <= k < |p|
      invariant p[k] in s
    {
      assert (p[k], p[k + 1]) in rel;
      k := k + 1;
    }
  }

  /** A caller of an affected function is affected. */
  lemma CallerOfAffected(triggers: set<FuncId>, rel: set<Edge>, x: FuncId, c: FuncId)
    requires IsAffected(triggers, rel, x)
    requires (x, c) in rel
    ensures IsAffected(triggers, rel, c)
  {
    var p :| IsCallerPath(rel, p) && p[0] in triggers && p[|p| - 1] == x;
    var q := p + [c];
    assert IsCallerPath(rel, q) && q[0] in triggers && q[|q| - 1] == c;
  }

  /** The affected set: the triggers plus their transitive callers, computed by
      a work list over the called -> caller relation. */
  method FindAffected(triggers: set<FuncId>, rel: set<Edge>) returns (affected: set<FuncId>)
    ensures forall f :: f in affected <==> IsAffected(triggers, rel, f)
  {
    ghost var nodes := triggers + set e | e in rel :: e.1;
    affected := triggers;
    var work := triggers;
    forall f | f in triggers ensures IsAffected(triggers, rel, f) {
      assert IsCallerPath(rel, [f]);
    }
    while work != {}
      invariant work <= affected <= nodes
      invariant triggers <= affected
      invariant forall f | f in affected :: IsAffected(triggers, rel, f)
      invariant forall e | e in rel && e.0 in affected && e.0 !in work :: e.1 in affected
      decreases nodes - affected, work
    {
      var x :| x in work;
      var callers := set e | e in rel && e.0 == x :: e.1;
      var added := callers - affected;
      forall c | c in added ensures IsAffected(triggers, rel, c) {
        var e :| e in rel && e.0 == x && e.1 == c;
        CallerOfAffected(triggers, rel, x, c);
      }
      affected := affected + added;
      work := work - {x} + added;
    }
    forall f | IsAffected(triggers, rel, f) ensures f in affected {
      ClosedSetHoldsAffected(triggers, rel, affected, f);
    }
  }

  // ---------------------------------------------------------------------
  // The affected set of a program

  /** The called -> caller relation of the program. */
  function CallEdges(fs: seq<ImFunction>): (r: set<Edge>)
    ensures forall e :: e in r <==> InCallRelation(fs, e)
  {
    set i, g | 0 <= i < |fs| && g in CalleesSeq(fs[i].body) :: (g, i)
  }

  /** Affected functions are callers or triggers, so they are functions of
      the program. */
  lemma AffectedBounded(fs: seq<ImFunction>, f: FuncId)
    requires IsAffected(TriggerFuncs(fs), CallEdges(fs), f)
    ensures f < |fs|
  {
    var p :| IsCallerPath(CallEdges(fs), p) && p[0] in TriggerFuncs(fs) && p[|p| - 1] == f;
    if |p| > 1 {
      assert (p[|p| - 2], p[|p| - 1]) in CallEdges(fs);
    }
  }

  /** The functions the pass instruments: the trigger functions and their
      transitive callers. */
  ghost function AffectedFuncs(fs: seq<ImFunction>): (r: set<FuncId>)
    ensures forall f :: f in r <==> IsAffected(TriggerFuncs(fs), CallEdges(fs), f)
  {
    assert forall f: FuncId | IsAffected(TriggerFuncs(fs), CallEdges(fs), f) :: f < |fs| by {
      forall f: FuncId | IsAffected(TriggerFuncs(fs), CallEdges(fs), f) ensures f < |fs| {
        AffectedBounded(fs, f);
      }
    }
    set f | 0 <= f < |fs| && IsAffected(TriggerFuncs(fs), CallEdges(fs), f)
  }
}

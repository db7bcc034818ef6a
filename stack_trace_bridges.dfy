/**
  Bridges for function references.

  A reference to an affected function used as a value (a callback) cannot
  pass the extra `stackPos` argument, so each such reference is redirected to
  a new function `bridge_<name>` that resets the stack depth to 0 and calls
  the referenced function with one string argument, the printed position of
  the reference.  Bridges are numbered in the order in which the references
  occur and are appended after the existing functions.
*/
module StackTraceBridges {
  import opened Wrappers
  import opened JassIm

  /** One reference to an affected function, in the order of the walk. */
  datatype RefSite = RefSite(func: FuncId, source: WPos, traceHasParent: bool)

  /** Redirects every reference to an affected function to the next bridge
      number, from `next` on; the sites are returned in the order met. */
  function RedirectRefs(s: Stmt, affected: set<FuncId>, next: nat): (r: (Stmt, seq<RefSite>))
    ensures forall k | 0 <= k < |r.1| :: r.1[k].func in affected
  {
    match s
    case FuncRef(g, src, p) =>
      if g in affected then (FuncRef(next, src, p), [RefSite(g, src, p)]) else (s, [])
    case Return(v) =>
      var (v', s1) := RedirectRefs(v, affected, next);
      (Return(v'), s1)
    case If(c, t, e) =>
      var (c', s1) := RedirectRefs(c, affected, next);
      var (t', s2) := RedirectRefsSeq(t, affected, next + |s1|);
      var (e', s3) := RedirectRefsSeq(e, affected, next + |s1| + |s2|);
      (If(c', t', e'), s1 + s2 + s3)
    case Loop(b) =>
      var (b', s1) := RedirectRefsSeq(b, affected, next);
      (Loop(b'), s1)
    case Exitwhen(c) =>
      var (c', s1) := RedirectRefs(c, affected, next);
      (Exitwhen(c'), s1)
    case Set(l, x) =>
      var (l', s1) := RedirectRefs(l, affected, next);
      var (x', s2) := RedirectRefs(x, affected, next + |s1|);
      (Set(l', x'), s1 + s2)
    case VarArrayAccess(a, ix) =>
      var (ix', s1) := RedirectRefsSeq(ix, affected, next);
      (VarArrayAccess(a, ix'), s1)
    case OperatorCall(op, xs) =>
      var (xs', s1) := RedirectRefsSeq(xs, affected, next);
      (OperatorCall(op, xs'), s1)
    case FunctionCall(g, args, tail, pos) =>
      var (args', s1) := RedirectRefsSeq(args, affected, next);
      (FunctionCall(g, args', tail, pos), s1)
    case StatementExpr(b, x) =>
      var (b', s1) := RedirectRefsSeq(b, affected, next);
      var (x', s2) := RedirectRefs(x, affected, next + |s1|);
      (StatementExpr(b', x'), s1 + s2)
    case _ => (s, [])
  }

  function RedirectRefsSeq(ss: seq<Stmt>, affected: set<FuncId>, next: nat): (r: (seq<Stmt>, seq<RefSite>))
    ensures |r.0| == |ss|
    ensures forall k | 0 <= k < |r.1| :: r.1[k].func in affected
  {
    if ss == [] then ([], [])
    else
      var (h, s1) := RedirectRefs(ss[0], affected, next);
      var (t, s2) := RedirectRefsSeq(ss[1..], affected, next + |s1|);
      ([h] + t, s1 + s2)
  }

  /** Sends every reference to a bridge numbered from `base` back to the
      function the bridge stands for. */
  function Unredirect(s: Stmt, base: nat, sites: seq<RefSite>): Stmt {
    match s
    case FuncRef(h, src, p) =>
      if base <= h < base + |sites| then FuncRef(sites[h - base].func, src, p) else s
    case Return(v) => Return(Unredirect(v, base, sites))
    case If(c, t, e) => If(Unredirect(c, base, sites), UnredirectSeq(t, base, sites), UnredirectSeq(e, base, sites))
    case Loop(b) => Loop(UnredirectSeq(b, base, sites))
    case Exitwhen(c) => Exitwhen(Unredirect(c, base, sites))
    case Set(l, x) => Set(Unredirect(l, base, sites), Unredirect(x, base, sites))
    case VarArrayAccess(a, ix) => VarArrayAccess(a, UnredirectSeq(ix, base, sites))
    case OperatorCall(op, xs) => OperatorCall(op, UnredirectSeq(xs, base, sites))
    case FunctionCall(g, args, tail, pos) => FunctionCall(g, UnredirectSeq(args, base, sites), tail, pos)
    case StatementExpr(b, x) => StatementExpr(UnredirectSeq(b, base, sites), Unredirect(x, base, sites))
    case _ => s
  }

  function UnredirectSeq(ss: seq<Stmt>, base: nat, sites: seq<RefSite>): (r: seq<Stmt>)
    ensures |r| == |ss|
  {
    seq(|ss|, i requires 0 <= i < |ss| => Unredirect(ss[i], base, sites))
  }

  /** `part` sits in `all` at the position of bridge number `next`. */
  predicate SitesAt(all: seq<RefSite>, part: seq<RefSite>, base: nat, next: nat) {
    base <= next && next - base + |part| <= |all| && all[next - base..next - base + |part|] == part
  }

  lemma SitesAtSplit(all: seq<RefSite>, a: seq<RefSite>, b: seq<RefSite>, base: nat, next: nat)
    requires SitesAt(all, a + b, base, next)
    ensures SitesAt(all, a, base, next) && SitesAt(all, b, base, next + |a|)
  {
    var lo := next - base;
    assert all[lo..lo + |a|] == (a + b)[..|a|];
    assert all[lo + |a|..lo + |a| + |b|] == (a + b)[|a|..];
  }

  lemma SitesAtSplit3(all: seq<RefSite>, a: seq<RefSite>, b: seq<RefSite>, c: seq<RefSite>, base: nat, next: nat)
    requires SitesAt(all, a + b + c, base, next)
    ensures SitesAt(all, a, base, next) && SitesAt(all, b, base, next + |a|)
    ensures SitesAt(all, c, base, next + |a| + |b|)
  {
    SitesAtSplit(all, a + b, c, base, next);
    SitesAtSplit(all, a, b, base, next);
  }

  /** When the references in `s` all name existing functions (numbered below
      `base`) and the recorded sites are kept at their bridge numbers,
      sending the bridges back gives `s` again: the redirection changes the
      affected references and nothing else. */
  lemma {:induction false} RedirectRoundTrip(s: Stmt, affected: set<FuncId>, next: nat, pc: seq<nat>, base: nat, all: seq<RefSite>)
    requires CallsOk(s, pc) && |pc| <= base
    requires SitesAt(all, RedirectRefs(s, affected, next).1, base, next)
    ensures Unredirect(RedirectRefs(s, affected, next).0, base, all) == s
    decreases s, 1
  {
    match s
    case FuncRef(g, src, p) =>
    case Return(v) => RedirectRoundTrip(v, affected, next, pc, base, all);
    case If(c, t, e) => RedirectIfRoundTrip(c, t, e, affected, next, pc, base, all);
    case Loop(b) => RedirectSeqRoundTrip(b, affected, next, pc, base, all);
    case Exitwhen(c) => RedirectRoundTrip(c, affected, next, pc, base, all);
    case Set(l, x) => RedirectPairRoundTrip(s, affected, next, pc, base, all);
    case VarArrayAccess(a, ix) => RedirectSeqRoundTrip(ix, affected, next, pc, base, all);
    case OperatorCall(op, xs) => RedirectSeqRoundTrip(xs, affected, next, pc, base, all);
    case FunctionCall(g, args, tail, pos) => RedirectSeqRoundTrip(args, affected, next, pc, base, all);
    case StatementExpr(b, x) => RedirectPairRoundTrip(s, affected, next, pc, base, all);
    case _ =>
  }

  lemma {:induction false} RedirectIfRoundTrip(c: Stmt, t: seq<Stmt>, e: seq<Stmt>, affected: set<FuncId>, next: nat,
                                               pc: seq<nat>, base: nat, all: seq<RefSite>)
    requires CallsOk(If(c, t, e), pc) && |pc| <= base
    requires SitesAt(all, RedirectRefs(If(c, t, e), affected, next).1, base, next)
    ensures Unredirect(RedirectRefs(If(c, t, e), affected, next).0, base, all) == If(c, t, e)
    decreases If(c, t, e), 0
  {
    var (c', s1) := RedirectRefs(c, affected, next);
    var (t', s2) := RedirectRefsSeq(t, affected, next + |s1|);
    var (e', s3) := RedirectRefsSeq(e, affected, next + |s1| + |s2|);
    assert RedirectRefs(If(c, t, e), affected, next) == (If(c', t', e'), s1 + s2 + s3);
    SitesAtSplit3(all, s1, s2, s3, base, next);
    RedirectRoundTrip(c, affected, next, pc, base, all);
    RedirectSeqRoundTrip(t, affected, next + |s1|, pc, base, all);
    RedirectSeqRoundTrip(e, affected, next + |s1| + |s2|, pc, base, all);
  }

  /** The two-child cases, `Set` and `StatementExpr`. */
  lemma {:induction false} RedirectPairRoundTrip(s: Stmt, affected: set<FuncId>, next: nat, pc: seq<nat>, base: nat, all: seq<RefSite>)
    requires s.Set? || s.StatementExpr?
    requires CallsOk(s, pc) && |pc| <= base
    requires SitesAt(all, RedirectRefs(s, affected, next).1, base, next)
    ensures Unredirect(RedirectRefs(s, affected, next).0, base, all) == s
    decreases s, 0
  {
    if s.Set? {
      var (l', s1) := RedirectRefs(s.left, affected, next);
      var (x', s2) := RedirectRefs(s.right, affected, next + |s1|);
      assert RedirectRefs(s, affected, next) == (Set(l', x'), s1 + s2);
      SitesAtSplit(all, s1, s2, base, next);
      RedirectRoundTrip(s.left, affected, next, pc, base, all);
      RedirectRoundTrip(s.right, affected, next + |s1|, pc, base, all);
    } else {
      var (b', s1) := RedirectRefsSeq(s.stmts, affected, next);
      var (x', s2) := RedirectRefs(s.result, affected, next + |s1|);
      assert RedirectRefs(s, affected, next) == (StatementExpr(b', x'), s1 + s2);
      SitesAtSplit(all, s1, s2, base, next);
      RedirectSeqRoundTrip(s.stmts, affected, next, pc, base, all);
      RedirectRoundTrip(s.result, affected, next + |s1|, pc, base, all);
    }
  }

  lemma {:induction false} RedirectSeqRoundTrip(ss: seq<Stmt>, affected: set<FuncId>, next: nat, pc: seq<nat>, base: nat, all: seq<RefSite>)
    requires CallsOkSeq(ss, pc) && |pc| <= base
    requires SitesAt(all, RedirectRefsSeq(ss, affected, next).1, base, next)
    ensures UnredirectSeq(RedirectRefsSeq(ss, affected, next).0, base, all) == ss
    decreases ss, 0
  {
    if ss != [] {
      var (h, s1) := RedirectRefs(ss[0], affected, next);
      var (t, s2) := RedirectRefsSeq(ss[1..], affected, next + |s1|);
      SitesAtSplit(all, s1, s2, base, next);
      RedirectRoundTrip(ss[0], affected, next, pc, base, all);
      RedirectSeqRoundTrip(ss[1..], affected, next + |s1|, pc, base, all);
      assert UnredirectSeq([h] + t, base, all) == [Unredirect(h, base, all)] + UnredirectSeq(t, base, all);
      assert ss == [ss[0]] + ss[1..];
    }
  }

  /** The functions referenced as values anywhere inside the node. */
  function RefTargets(s: Stmt): set<FuncId> {
    match s
    case FuncRef(g, _, _) => {g}
    case Return(v) => RefTargets(v)
    case If(c, t, e) => RefTargets(c) + RefTargetsSeq(t) + RefTargetsSeq(e)
    case Loop(b) => RefTargetsSeq(b)
    case Exitwhen(c) => RefTargets(c)
    case Set(l, x) => RefTargets(l) + RefTargets(x)
    case VarArrayAccess(_, ix) => RefTargetsSeq(ix)
    case OperatorCall(_, xs) => RefTargetsSeq(xs)
    case FunctionCall(_, args, _, _) => RefTargetsSeq(args)
    case StatementExpr(b, x) => RefTargetsSeq(b) + RefTargets(x)
    case _ => {}
  }

  function RefTargetsSeq(ss: seq<Stmt>): set<FuncId> {
    if ss == [] then {} else RefTargets(ss[0]) + RefTargetsSeq(ss[1..])
  }

  /** After the redirection every reference names either an unaffected
      function it named before or one of the new bridges. */
  lemma {:induction false} RedirectTargets(s: Stmt, affected: set<FuncId>, next: nat)
    ensures var (s', sites) := RedirectRefs(s, affected, next);
      forall g | g in RefTargets(s') :: (g in RefTargets(s) && g !in affected) || next <= g < next + |sites|
    decreases s, 1
  {
    match s
    case FuncRef(g, src, p) =>
    case Return(v) => RedirectTargets(v, affected, next);
    case If(c, t, e) => RedirectIfTargets(c, t, e, affected, next);
    case Loop(b) => RedirectSeqTargets(b, affected, next);
    case Exitwhen(c) => RedirectTargets(c, affected, next);
    case Set(l, x) => RedirectPairTargets(s, affected, next);
    case VarArrayAccess(a, ix) => RedirectSeqTargets(ix, affected, next);
    case OperatorCall(op, xs) => RedirectSeqTargets(xs, affected, next);
    case FunctionCall(g, args, tail, pos) => RedirectSeqTargets(args, affected, next);
    case StatementExpr(b, x) => RedirectPairTargets(s, affected, next);
    case _ =>
  }

  lemma {:induction false} RedirectIfTargets(c: Stmt, t: seq<Stmt>, e: seq<Stmt>, affected: set<FuncId>, next: nat)
    ensures var (s', sites) := RedirectRefs(If(c, t, e), affected, next);
      forall g | g in RefTargets(s') :: (g in RefTargets(If(c, t, e)) && g !in affected) || next <= g < next + |sites|
    decreases If(c, t, e), 0
  {
    var (c', s1) := RedirectRefs(c, affected, next);
    var (t', s2) := RedirectRefsSeq(t, affected, next + |s1|);
    var (e', s3) := RedirectRefsSeq(e, affected, next + |s1| + |s2|);
    assert RedirectRefs(If(c, t, e), affected, next) == (If(c', t', e'), s1 + s2 + s3);
    RedirectTargets(c, affected, next);
    RedirectSeqTargets(t, affected, next + |s1|);
    RedirectSeqTargets(e, affected, next + |s1| + |s2|);
  }

  /** The two-child cases, `Set` and `StatementExpr`. */
  lemma {:induction false} RedirectPairTargets(s: Stmt, affected: set<FuncId>, next: nat)
    requires s.Set? || s.StatementExpr?
    ensures var (s', sites) := RedirectRefs(s, affected, next);
      forall g | g in RefTargets(s') :: (g in RefTargets(s) && g !in affected) || next <= g < next + |sites|
    decreases s, 0
  {
    if s.Set? {
      var (l', s1) := RedirectRefs(s.left, affected, next);
      var (x', s2) := RedirectRefs(s.right, affected, next + |s1|);
      assert RedirectRefs(s, affected, next) == (Set(l', x'), s1 + s2);
      RedirectTargets(s.left, affected, next);
      RedirectTargets(s.right, affected, next + |s1|);
    } else {
      var (b', s1) := RedirectRefsSeq(s.stmts, affected, next);
      var (x', s2) := RedirectRefs(s.result, affected, next + |s1|);
      assert RedirectRefs(s, affected, next) == (StatementExpr(b', x'), s1 + s2);
      RedirectSeqTargets(s.stmts, affected, next);
      RedirectTargets(s.result, affected, next + |s1|);
    }
  }

  lemma {:induction false} RedirectSeqTargets(ss: seq<Stmt>, affected: set<FuncId>, next: nat)
    ensures var (ss', sites) := RedirectRefsSeq(ss, affected, next);
      forall g | g in RefTargetsSeq(ss') :: (g in RefTargetsSeq(ss) && g !in affected) || next <= g < next + |sites|
    decreases ss, 0
  {
    if ss != [] {
      var (h, s1) := RedirectRefs(ss[0], affected, next);
      var (t, s2) := RedirectRefsSeq(ss[1..], affected, next + |s1|);
      RedirectTargets(ss[0], affected, next);
      RedirectSeqTargets(ss[1..], affected, next + |s1|);
      assert ([h] + t)[1..] == t;
    }
  }

  /** The references stay well formed once the bridges exist. */
  lemma {:induction false} RedirectCallsOk(s: Stmt, affected: set<FuncId>, next: nat, pc: seq<nat>)
    requires CallsOk(s, pc)
    requires next + |RedirectRefs(s, affected, next).1| <= |pc|
    ensures CallsOk(RedirectRefs(s, affected, next).0, pc)
    decreases s, 1
  {
    match s
    case FuncRef(g, src, p) =>
    case Return(v) => RedirectCallsOk(v, affected, next, pc);
    case If(c, t, e) => RedirectIfCallsOk(c, t, e, affected, next, pc);
    case Loop(b) => RedirectSeqCallsOk(b, affected, next, pc);
    case Exitwhen(c) => RedirectCallsOk(c, affected, next, pc);
    case Set(l, x) => RedirectPairCallsOk(s, affected, next, pc);
    case VarArrayAccess(a, ix) => RedirectSeqCallsOk(ix, affected, next, pc);
    case OperatorCall(op, xs) => RedirectSeqCallsOk(xs, affected, next, pc);
    case FunctionCall(g, args, tail, pos) => RedirectSeqCallsOk(args, affected, next, pc);
    case StatementExpr(b, x) => RedirectPairCallsOk(s, affected, next, pc);
    case _ =>
  }

  lemma {:induction false} RedirectIfCallsOk(c: Stmt, t: seq<Stmt>, e: seq<Stmt>, affected: set<FuncId>, next: nat, pc: seq<nat>)
    requires CallsOk(If(c, t, e), pc)
    requires next + |RedirectRefs(If(c, t, e), affected, next).1| <= |pc|
    ensures CallsOk(RedirectRefs(If(c, t, e), affected, next).0, pc)
    decreases If(c, t, e), 0
  {
    var (c', s1) := RedirectRefs(c, affected, next);
    var (t', s2) := RedirectRefsSeq(t, affected, next + |s1|);
    var (e', s3) := RedirectRefsSeq(e, affected, next + |s1| + |s2|);
    assert RedirectRefs(If(c, t, e), affected, next) == (If(c', t', e'), s1 + s2 + s3);
    RedirectCallsOk(c, affected, next, pc);
    RedirectSeqCallsOk(t, affected, next + |s1|, pc);
    RedirectSeqCallsOk(e, affected, next + |s1| + |s2|, pc);
  }

  /** The two-child cases, `Set` and `StatementExpr`. */
  lemma {:induction false} RedirectPairCallsOk(s: Stmt, affected: set<FuncId>, next: nat, pc: seq<nat>)
    requires s.Set? || s.StatementExpr?
    requires CallsOk(s, pc)
    requires next + |RedirectRefs(s, affected, next).1| <= |pc|
    ensures CallsOk(RedirectRefs(s, affected, next).0, pc)
    decreases s, 0
  {
    if s.Set? {
      var (l', s1) := RedirectRefs(s.left, affected, next);
      var (x', s2) := RedirectRefs(s.right, affected, next + |s1|);
      assert RedirectRefs(s, affected, next) == (Set(l', x'), s1 + s2);
      RedirectCallsOk(s.left, affected, next, pc);
      RedirectCallsOk(s.right, affected, next + |s1|, pc);
    } else {
      var (b', s1) := RedirectRefsSeq(s.stmts, affected, next);
      var (x', s2) := RedirectRefs(s.result, affected, next + |s1|);
      assert RedirectRefs(s, affected, next) == (StatementExpr(b', x'), s1 + s2);
      RedirectSeqCallsOk(s.stmts, affected, next, pc);
      RedirectCallsOk(s.result, affected, next + |s1|, pc);
    }
  }

  lemma {:induction false} RedirectSeqCallsOk(ss: seq<Stmt>, affected: set<FuncId>, next: nat, pc: seq<nat>)
    requires CallsOkSeq(ss, pc)
    requires next + |RedirectRefsSeq(ss, affected, next).1| <= |pc|
    ensures CallsOkSeq(RedirectRefsSeq(ss, affected, next).0, pc)
    decreases ss, 0
  {
    if ss != [] {
      var (h, s1) := RedirectRefs(ss[0], affected, next);
      var (t, s2) := RedirectRefsSeq(ss[1..], affected, next + |s1|);
      RedirectCallsOk(ss[0], affected, next, pc);
      RedirectSeqCallsOk(ss[1..], affected, next + |s1|, pc);
      var r := [h] + t;
      assert forall i | 1 <= i < |r| :: r[i] == t[i - 1];
    }
  }

  // ---------------------------------------------------------------------
  // The bridge functions

  /** The bridge for one reference to `f` (function number `site.func`), or
      `None` when building it fails: `f` has no parameter to drop, or the
      reference has no trace. */
  function MakeBridge(f: ImFunction, site: RefSite, stackSize: VarRef, printShort: WPos -> string): Option<ImFunction> {
    if |f.params| == 0 || !site.traceHasParent then None
    else
      var call := FunctionCall(site.func, [StringVal(printShort(site.source))], true, site.source);
      Some(ImFunction("bridge_" + f.name, f.sourceName, [], f.params[..|f.params| - 1], f.returnType, [],
        [Set(VarAccess(stackSize), IntVal(0)), if f.returnType == VoidType then call else Return(call)],
        f.flags))
  }

  /** A bridge exists exactly when the referenced function has a parameter
      and the reference a trace; it has the parameters of the function
      without the last one, returns what the function returns, resets the
      depth, and makes a tail call passing the printed position. */
  lemma BridgeShape(f: ImFunction, site: RefSite, stackSize: VarRef, printShort: WPos -> string)
    ensures MakeBridge(f, site, stackSize, printShort).Some? <==> |f.params| > 0 && site.traceHasParent
    ensures MakeBridge(f, site, stackSize, printShort).Some? ==>
      var b := MakeBridge(f, site, stackSize, printShort).value;
      && b.params + [f.params[|f.params| - 1]] == f.params
      && b.returnType == f.returnType && b.flags == f.flags && b.typeVars == [] && b.locals == []
      && |b.body| == 2 && b.body[0] == Set(VarAccess(stackSize), IntVal(0))
      && var call := if f.returnType == VoidType then b.body[1] else b.body[1].value;
         (f.returnType != VoidType ==> b.body[1].Return?)
         && call == FunctionCall(site.func, [StringVal(printShort(site.source))], true, site.source)
  {
  }

  /** The bridge's call agrees with the referenced function's arity exactly
      when that function has a single parameter, the `stackPos` one. */
  lemma BridgeArity(f: ImFunction, site: RefSite, stackSize: VarRef, printShort: WPos -> string, pc: seq<nat>)
    requires site.func < |pc| && pc[site.func] == |f.params|
    requires MakeBridge(f, site, stackSize, printShort).Some?
    ensures CallsOkSeq(MakeBridge(f, site, stackSize, printShort).value.body, pc) <==> |f.params| == 1
  {
    var b := MakeBridge(f, site, stackSize, printShort).value;
    var call := FunctionCall(site.func, [StringVal(printShort(site.source))], true, site.source);
    assert CallsOkSeq([StringVal(printShort(site.source))], pc);
    assert CallsOk(VarAccess(stackSize), pc) && CallsOk(IntVal(0), pc);
    assert CallsOk(b.body[0], pc);
    assert CallsOk(b.body[1], pc) <==> CallsOk(call, pc);
  }

  /** The bridges for all sites in order, or `None` when one cannot be built. */
  function Bridges(fs: seq<ImFunction>, sites: seq<RefSite>, stackSize: VarRef, printShort: WPos -> string): (r: Option<seq<ImFunction>>)
    requires forall k | 0 <= k < |sites| :: sites[k].func < |fs|
    ensures r.Some? <==> forall k | 0 <= k < |sites| :: MakeBridge(fs[sites[k].func], sites[k], stackSize, printShort).Some?
    ensures r.Some? ==> (|r.value| == |sites| &&
      forall k | 0 <= k < |sites| :: r.value[k] == MakeBridge(fs[sites[k].func], sites[k], stackSize, printShort).value)
  {
    if sites == [] then Some([])
    else
      match MakeBridge(fs[sites[0].func], sites[0], stackSize, printShort)
      case None => None
      case Some(b) =>
        match Bridges(fs, sites[1..], stackSize, printShort)
        case None =>
          assert !forall k | 0 <= k < |sites| :: MakeBridge(fs[sites[k].func], sites[k], stackSize, printShort).Some? by {
            var j :| 0 <= j < |sites[1..]| && MakeBridge(fs[sites[1..][j].func], sites[1..][j], stackSize, printShort).None?;
            assert sites[1..][j] == sites[j + 1];
          }
          None
        case Some(bs) => Some([b] + bs)
  }

  /** Redirects the references in every body, numbering bridges from `next`. */
  function RedirectBodies(fs: seq<ImFunction>, affected: set<FuncId>, next: nat): (r: (seq<ImFunction>, seq<RefSite>))
    ensures |r.0| == |fs|
    ensures forall i | 0 <= i < |fs| :: r.0[i].(body := fs[i].body) == fs[i]
    ensures forall k | 0 <= k < |r.1| :: r.1[k].func in affected
  {
    if fs == [] then ([], [])
    else
      var (b, s1) := RedirectRefsSeq(fs[0].body, affected, next);
      var (rest, s2) := RedirectBodies(fs[1..], affected, next + |s1|);
      var r0 := [fs[0].(body := b)] + rest;
      assert forall i | 1 <= i < |fs| :: r0[i] == rest[i - 1] && fs[i] == fs[1..][i - 1];
      (r0, s1 + s2)
  }

  /** The whole step: the functions with their references redirected and one
      bridge per reference to an affected function appended, or `None` when a
      bridge cannot be built. */
  function RedirectProgram(fs: seq<ImFunction>, affected: set<FuncId>, stackSize: VarRef, printShort: WPos -> string): Option<seq<ImFunction>>
    requires forall g | g in affected :: g < |fs|
  {
    var (fs', sites) := RedirectBodies(fs, affected, |fs|);
    match Bridges(fs, sites, stackSize, printShort)
    case None => None
    case Some(bs) => Some(fs' + bs)
  }

  /** Per function: sending the bridges back gives every original body. */
  lemma {:induction false} RedirectBodiesRoundTrip(fs: seq<ImFunction>, affected: set<FuncId>, next: nat, pc: seq<nat>, base: nat, all: seq<RefSite>)
    requires |pc| <= base
    requires forall i | 0 <= i < |fs| :: CallsOkSeq(fs[i].body, pc)
    requires SitesAt(all, RedirectBodies(fs, affected, next).1, base, next)
    ensures forall i | 0 <= i < |fs| :: UnredirectSeq(RedirectBodies(fs, affected, next).0[i].body, base, all) == fs[i].body
    decreases fs
  {
    if fs != [] {
      var (b, s1) := RedirectRefsSeq(fs[0].body, affected, next);
      var (rest, s2) := RedirectBodies(fs[1..], affected, next + |s1|);
      SitesAtSplit(all, s1, s2, base, next);
      RedirectSeqRoundTrip(fs[0].body, affected, next, pc, base, all);
      RedirectBodiesRoundTrip(fs[1..], affected, next + |s1|, pc, base, all);
      var r0 := [fs[0].(body := b)] + rest;
      assert RedirectBodies(fs, affected, next) == (r0, s1 + s2);
      forall i | 0 <= i < |fs| ensures UnredirectSeq(r0[i].body, base, all) == fs[i].body {
        if i > 0 {
          assert r0[i] == rest[i - 1] && fs[i] == fs[1..][i - 1];
        }
      }
    }
  }

  /** Per function: the redirected bodies stay well formed against `pc`. */
  lemma {:induction false} RedirectBodiesCallsOk(fs: seq<ImFunction>, affected: set<FuncId>, next: nat, pc: seq<nat>)
    requires forall i | 0 <= i < |fs| :: CallsOkSeq(fs[i].body, pc)
    requires next + |RedirectBodies(fs, affected, next).1| <= |pc|
    ensures forall i | 0 <= i < |fs| :: CallsOkSeq(RedirectBodies(fs, affected, next).0[i].body, pc)
    decreases fs
  {
    if fs != [] {
      var (b, s1) := RedirectRefsSeq(fs[0].body, affected, next);
      var (rest, s2) := RedirectBodies(fs[1..], affected, next + |s1|);
      RedirectSeqCallsOk(fs[0].body, affected, next, pc);
      RedirectBodiesCallsOk(fs[1..], affected, next + |s1|, pc);
      var r0 := [fs[0].(body := b)] + rest;
      assert RedirectBodies(fs, affected, next) == (r0, s1 + s2);
      forall i | 0 <= i < |fs| ensures CallsOkSeq(r0[i].body, pc) {
        if i > 0 {
          assert r0[i] == rest[i - 1] && fs[i] == fs[1..][i - 1];
        }
      }
    }
  }

  /** The step succeeds exactly when every site gets its bridge; the result is
      the old functions, changed only in their references, followed by the
      bridges in site order. */
  lemma RedirectProgramShape(fs: seq<ImFunction>, affected: set<FuncId>, stackSize: VarRef, printShort: WPos -> string)
    requires forall g | g in affected :: g < |fs|
    requires WellFormed(fs)
    ensures var sites := RedirectBodies(fs, affected, |fs|).1;
      var r := RedirectProgram(fs, affected, stackSize, printShort);
      && (r.Some? <==> forall k | 0 <= k < |sites| :: |fs[sites[k].func].params| > 0 && sites[k].traceHasParent)
      && (r.Some? ==>
           && |r.value| == |fs| + |sites|
           && (forall i | 0 <= i < |fs| :: r.value[i].(body := fs[i].body) == fs[i])
           && (forall i | 0 <= i < |fs| :: UnredirectSeq(r.value[i].body, |fs|, sites) == fs[i].body)
           && (forall k | 0 <= k < |sites| ::
                 Some(r.value[|fs| + k]) == MakeBridge(fs[sites[k].func], sites[k], stackSize, printShort)))
  {
    var (fs', sites) := RedirectBodies(fs, affected, |fs|);
    assert SitesAt(sites, sites, |fs|, |fs|);
    RedirectBodiesRoundTrip(fs, affected, |fs|, ParamCounts(fs), |fs|, sites);
  }

  /** Arity after the step: with well-formed functions before it, the result
      is well formed exactly when every referenced affected function has a
      single parameter, the one its bridge passes. */
  lemma RedirectProgramWellFormed(fs: seq<ImFunction>, affected: set<FuncId>, stackSize: VarRef, printShort: WPos -> string)
    requires forall g | g in affected :: g < |fs|
    requires WellFormed(fs)
    requires RedirectProgram(fs, affected, stackSize, printShort).Some?
    ensures var sites := RedirectBodies(fs, affected, |fs|).1;
      var ok := forall k | 0 <= k < |sites| :: |fs[sites[k].func].params| == 1;
      WellFormed(RedirectProgram(fs, affected, stackSize, printShort).value) <==> ok
  {
    var (fs', sites) := RedirectBodies(fs, affected, |fs|);
    var bs := Bridges(fs, sites, stackSize, printShort).value;
    var r := fs' + bs;
    assert RedirectProgram(fs, affected, stackSize, printShort).value == r;
    OldBodiesStayWellFormed(fs, affected, bs);
    assert r[|fs|..] == bs;
    assert forall i | 0 <= i < |fs| :: r[i].params == fs[i].params;
    BridgeBodiesWellFormed(fs, sites, bs, r, stackSize, printShort);
  }

  /** The appended bridges are well formed exactly when every function they
      call has the single parameter they pass. */
  lemma BridgeBodiesWellFormed(fs: seq<ImFunction>, sites: seq<RefSite>, bs: seq<ImFunction>, r: seq<ImFunction>,
                               stackSize: VarRef, printShort: WPos -> string)
    requires forall k | 0 <= k < |sites| :: sites[k].func < |fs|
    requires Bridges(fs, sites, stackSize, printShort) == Some(bs)
    requires |r| == |fs| + |bs| && r[|fs|..] == bs
    requires forall i | 0 <= i < |fs| :: r[i].params == fs[i].params
    ensures (forall i | |fs| <= i < |r| :: CallsOkSeq(r[i].body, ParamCounts(r)))
      <==> forall k | 0 <= k < |sites| :: |fs[sites[k].func].params| == 1
  {
    var pc := ParamCounts(r);
    forall i | |fs| <= i < |r|
      ensures CallsOkSeq(r[i].body, pc) <==> |fs[sites[i - |fs|].func].params| == 1
    {
      var k := i - |fs|;
      assert r[i] == bs[k];
      assert pc[sites[k].func] == |fs[sites[k].func].params|;
      BridgeArity(fs[sites[k].func], sites[k], stackSize, printShort, pc);
    }
    if forall k | 0 <= k < |sites| :: |fs[sites[k].func].params| == 1 {
      assert forall i | |fs| <= i < |r| :: CallsOkSeq(r[i].body, pc);
    } else {
      var k :| 0 <= k < |sites| && |fs[sites[k].func].params| != 1;
      assert !CallsOkSeq(r[|fs| + k].body, pc);
    }
  }

  /** The redirected old bodies are well formed in the program with the
      bridges appended. */
  lemma OldBodiesStayWellFormed(fs: seq<ImFunction>, affected: set<FuncId>, bs: seq<ImFunction>)
    requires WellFormed(fs)
    requires |RedirectBodies(fs, affected, |fs|).1| == |bs|
    ensures var r := RedirectBodies(fs, affected, |fs|).0 + bs;
      forall i | 0 <= i < |fs| :: CallsOkSeq(r[i].body, ParamCounts(r))
  {
    var (fs', sites) := RedirectBodies(fs, affected, |fs|);
    var r := fs' + bs;
    var pc := ParamCounts(r);
    assert pc == ParamCounts(fs) + ParamCounts(bs) by {
      assert forall i | 0 <= i < |fs| :: r[i].params == fs[i].params;
    }
    forall i | 0 <= i < |fs| ensures CallsOkSeq(fs[i].body, pc) {
      CallsOkSeqExtend(fs[i].body, ParamCounts(fs), ParamCounts(bs));
    }
    RedirectBodiesCallsOk(fs, affected, |fs|, pc);
    assert forall i | 0 <= i < |fs| :: r[i] == fs'[i];
  }
}

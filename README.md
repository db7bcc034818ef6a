# Stack-trace injection in the Wurst compiler, modelled in Dafny

This project models the stack-trace pass of the Wurst-to-Jass compiler.
It also models three small pieces of the front end.

The stack-trace pass works on the imperative intermediate representation (the Jass IR, `JassIm`). It finds every function that reads the stack trace, directly or through calls. For those functions it does five things:

- It threads a string argument `stackPos` through their signatures and calls.
- It pushes that argument onto a global string array `wurst_stack` on entry, and increments the global depth `wurst_stack_depth`.
- It decrements the depth at every exit.
- It redirects references to them (callbacks) to generated `bridge_<name>` functions.
- It replaces every stack-trace read by a loop that joins at most 20 stack entries into a string.

The three front-end pieces are:

- the generated AST node `StmtExitwhen`: construction, indexed `get`, `replace` and printing;
- the subtype rule of the `null` type;
- the type-definition attribute of type references.

Modules and files:

| file | module | contents |
|---|---|---|
| `wrappers.dfy` | `Wrappers` | `Option`, `Result` |
| `jass_im.dfy` | `JassIm` | the IR as one datatype `Stmt` (an IR expression is also a statement); the program as the class `ImProg`, whose fields the pass updates; call arity (`WellFormed`) |
| `im_interp.dfy` | `ImInterp` | an evaluator for the IR constructs the generated trace loop uses |
| `call_graph.dfy` | `CallGraph` | the scan and the affected set (a work-list method against a path definition) |
| `stack_trace_params.dfy` | `StackTraceParams` | the extra parameter and the call-site labels |
| `stack_trace_push_pop.dfy` | `StackTracePushPop` | the push prologue, the pop blocks and `returnsOnAllPaths` |
| `stack_trace_bridges.dfy` | `StackTraceBridges` | the redirection of function references and the bridges |
| `stack_trace_errors.dfy` | `StackTraceErrors` | the trace snippet, what it evaluates to, and the rewrite of the reads |
| `stack_trace_injector2.dfy` | `StackTraceInjection` | the injector class, with one method per phase, each proved equal to its phase function; the end-to-end lemmas |
| `stmt_exitwhen.dfy` | `WurstAst` | `StmtExitwhen` |
| `wurst_type_null.dfy` | `WurstTypes` | the `null` type |
| `attr_type_def.dfy` | `AttrTypeDef` | the type-definition attribute |

How Java concepts are represented:

- A function is its index in the program's function list. Bridges are appended at the end.
- A variable is a `Global`, `Param` or `Local` index. The two new globals come right after the existing ones.
- The fresh locals of a rewrite are numbered from the function's current local count, in the order of the walk.
- Java mutates nodes in place, by object identity (`call.getArguments().add`, `ret.replaceBy`, `fr.setFunc`, `s.replaceBy`). Here each of these is one rewrite function over a body.
- Each rewrite has an inverse, or an invariant it is proved to keep.
- The phase methods in the class apply these rewrites to `ImProg.functions`:
  - `PassStacktraceParams`, `AddStackTracePush` and `AddStackTracePop` rewrite one affected function at a time, in any order.
  - `RewriteErrorStatements` goes through the functions in index order. The source goes through the (function, stack-trace read) entries of a multimap instead (lines 290-297); the result is the same.
  - `RewriteFuncRefs` redirects every body in one step, then builds the bridges one reference at a time, in walk order. The source adds each bridge and redirects its reference together (lines 254-288).
  - Their loop invariants tie each intermediate state to the phase function.

Two behaviours of the source that its names do not suggest:

- `containsAffectedFunctioncall` (lines 185-202) answers true for ANY call or stack-trace read in the returned value, not only for calls of affected functions. The model does the same (`ContainsCall`).
- The bridge declares the referenced function's parameters without the last one. Its call passes only the position string (lines 260-278). Lemma `InjectWellFormed` makes the consequence exact: the resulting program is well formed exactly when every affected function referenced as a value has no parameters of its own, or, for `main` and `config`, which are not threaded, exactly one.

## Model

| member | source | states |
|---|---|---|
| CallGraph.Scan | de.peeeq.wurstscript/src/main/java/de/peeeq/wurstscript/translation/imtranslation/StackTraceInjector2.java:44-73 | The trigger functions are exactly those whose body holds a stack-trace read or a variable-array access with more than one index. The relation holds exactly the (callee, caller) pairs of direct calls. |
| CallGraph.FindAffected | de.peeeq.wurstscript/src/main/java/de/peeeq/wurstscript/translation/imtranslation/StackTraceInjector2.java:83-89 | The work list returns exactly the trigger functions and every function that reaches one through a chain of calls (a path in the called -> caller relation). |
| CallGraph.ClosedSetHoldsAffected | de.peeeq.wurstscript/src/main/java/de/peeeq/wurstscript/translation/imtranslation/StackTraceInjector2.java:83-89 | Any set that holds the triggers and is closed under "caller of" holds every affected function, so the affected set is the least such set. |
| CallGraph.AffectedBounded | de.peeeq.wurstscript/src/main/java/de/peeeq/wurstscript/translation/imtranslation/StackTraceInjector2.java:86-89 | Every affected function is a function of the program. |
| StackTraceParams.CallLabelShape | de.peeeq.wurstscript/src/main/java/de/peeeq/wurstscript/translation/imtranslation/StackTraceInjector2.java:220-242 | The label is "when calling " followed by the callee's name. Nothing follows for a position whose file name starts with "<"; otherwise " in " and the printed position follow. |
| StackTraceParams.ThreadCallsRoundTrip | de.peeeq.wurstscript/src/main/java/de/peeeq/wurstscript/translation/imtranslation/StackTraceInjector2.java:219-222 | Dropping the last argument of every call of a threaded function gives back the original code, so threading changes nothing else. |
| StackTraceParams.ThreadCallsLabels | de.peeeq.wurstscript/src/main/java/de/peeeq/wurstscript/translation/imtranslation/StackTraceInjector2.java:219-222 | After threading, every call of a threaded function ends with its label. |
| StackTraceParams.ThreadCallsCompose | de.peeeq.wurstscript/src/main/java/de/peeeq/wurstscript/translation/imtranslation/StackTraceInjector2.java:211-223 | Threading for two disjoint sets one after the other equals threading for their union. |
| StackTraceParams.ThreadProgramCompose | de.peeeq.wurstscript/src/main/java/de/peeeq/wurstscript/translation/imtranslation/StackTraceInjector2.java:211-223 | The same for whole programs, so the order in which the source's loop visits the affected functions does not matter. |
| StackTraceParams.ThreadCallsArity | de.peeeq.wurstscript/src/main/java/de/peeeq/wurstscript/translation/imtranslation/StackTraceInjector2.java:217-222 | A call whose argument count matched its callee's parameter count still matches once every threaded callee has one more parameter. |
| StackTraceParams.ThreadProgramWellFormed | de.peeeq.wurstscript/src/main/java/de/peeeq/wurstscript/translation/imtranslation/StackTraceInjector2.java:209-224 | Threading keeps a well-formed program well formed. |
| StackTraceParams.ThreadFunctionParams | de.peeeq.wurstscript/src/main/java/de/peeeq/wurstscript/translation/imtranslation/StackTraceInjector2.java:211-217 | A threaded function gains exactly `stackPos`, appended last. Every other function keeps its parameters. Nothing but parameters and call arguments changes. |
| StackTraceParams.ThreadProgramNone | de.peeeq.wurstscript/src/main/java/de/peeeq/wurstscript/translation/imtranslation/StackTraceInjector2.java:209-224 | With nothing to thread, the program is unchanged. |
| StackTracePushPop.PushFunction | de.peeeq.wurstscript/src/main/java/de/peeeq/wurstscript/translation/imtranslation/StackTraceInjector2.java:107-110 | The body is the two-statement prologue in front of the unchanged old body. The prologue reads the last parameter. |
| StackTracePushPop.PushProgramShape | de.peeeq.wurstscript/src/main/java/de/peeeq/wurstscript/translation/imtranslation/StackTraceInjector2.java:102-116 | Only the targets change, each as `PushFunction` says. No parameter list changes. |
| StackTracePushPop.PushProgramWellFormed | de.peeeq.wurstscript/src/main/java/de/peeeq/wurstscript/translation/imtranslation/StackTraceInjector2.java:102-112 | The push keeps a well-formed program well formed. |
| StackTracePushPop.ReturnsOnAllPaths | de.peeeq.wurstscript/src/main/java/de/peeeq/wurstscript/translation/imtranslation/StackTraceInjector2.java:166-183 | True exactly when some statement of the list is a return, an `if` both of whose blocks return on all paths, or a statement expression whose statements do. |
| StackTracePushPop.ReturnsOnAllPathsSound | de.peeeq.wurstscript/src/main/java/de/peeeq/wurstscript/translation/imtranslation/StackTraceInjector2.java:166-183 | When the check holds, no execution falls off the end of the list. For loop-free code the converse holds too. |
| StackTracePushPop.PopReturnsRoundTrip | de.peeeq.wurstscript/src/main/java/de/peeeq/wurstscript/translation/imtranslation/StackTraceInjector2.java:136-156 | Turning every pop block back into its return gives the original code, so the pop changes nothing but the returns. |
| StackTracePushPop.PopReturnsPops | de.peeeq.wurstscript/src/main/java/de/peeeq/wurstscript/translation/imtranslation/StackTraceInjector2.java:136-156 | Every return ends a pop block, directly after one decrement of the depth. It is preceded by a store into a temporary exactly when its value holds a call. |
| StackTracePushPop.PopReturnsTemps | de.peeeq.wurstscript/src/main/java/de/peeeq/wurstscript/translation/imtranslation/StackTraceInjector2.java:136-149 | The rewrite uses one fresh temporary per return whose value holds a call. The temporaries are the locals numbered consecutively from the first free number, in walk order, and the next free number moves past them. |
| StackTracePushPop.PopReturnsKeepsCalls | de.peeeq.wurstscript/src/main/java/de/peeeq/wurstscript/translation/imtranslation/StackTraceInjector2.java:142-150 | The pop neither adds nor removes calls. |
| StackTracePushPop.PopReturnsKeepsReturning | de.peeeq.wurstscript/src/main/java/de/peeeq/wurstscript/translation/imtranslation/StackTraceInjector2.java:155-161 | The pop keeps `ReturnsOnAllPaths`, so checking it before or after the pop is the same; the source checks it after. |
| StackTracePushPop.PopReturnsCallsOk | de.peeeq.wurstscript/src/main/java/de/peeeq/wurstscript/translation/imtranslation/StackTraceInjector2.java:136-156 | The pop keeps every call's arity. |
| StackTracePushPop.PopFunctionShape | de.peeeq.wurstscript/src/main/java/de/peeeq/wurstscript/translation/imtranslation/StackTraceInjector2.java:121-164 | The locals gain one `stackTrace_tempReturn` local of the return type per return whose value holds a call, and nothing else. The temporaries of the pop blocks, in walk order, are exactly these new locals, each used once. The body is the popped body, with one decrement at the end exactly when the original body does not return on all paths. |
| StackTracePushPop.PopProgramShape | de.peeeq.wurstscript/src/main/java/de/peeeq/wurstscript/translation/imtranslation/StackTraceInjector2.java:121-164 | Only the targets change, each as `PopFunction` says. No parameter list changes. |
| StackTracePushPop.PopProgramWellFormed | de.peeeq.wurstscript/src/main/java/de/peeeq/wurstscript/translation/imtranslation/StackTraceInjector2.java:121-164 | The pop keeps a well-formed program well formed. |
| StackTraceBridges.BridgeShape | de.peeeq.wurstscript/src/main/java/de/peeeq/wurstscript/translation/imtranslation/StackTraceInjector2.java:260-286 | A bridge exists exactly when the referenced function has a parameter and the reference has a trace. It is named `bridge_<name>` and has the parameters without the last one. It resets the depth to 0, then tail-calls the function with the printed position, returning its value unless the function returns nothing. |
| StackTraceBridges.BridgeArity | de.peeeq.wurstscript/src/main/java/de/peeeq/wurstscript/translation/imtranslation/StackTraceInjector2.java:260-284 | The bridge's call agrees with the referenced function exactly when that function has one parameter. |
| StackTraceBridges.Bridges | de.peeeq.wurstscript/src/main/java/de/peeeq/wurstscript/translation/imtranslation/StackTraceInjector2.java:254-288 | The bridges exist exactly when every site gets one. They come in site order. |
| StackTraceBridges.RedirectRoundTrip | de.peeeq.wurstscript/src/main/java/de/peeeq/wurstscript/translation/imtranslation/StackTraceInjector2.java:286 | Sending every bridge reference back to its function gives the original code, so only references to affected functions change. |
| StackTraceBridges.RedirectTargets | de.peeeq.wurstscript/src/main/java/de/peeeq/wurstscript/translation/imtranslation/StackTraceInjector2.java:254-288 | After redirection, every reference names an unaffected function it named before, or one of the new bridges. |
| StackTraceBridges.RedirectCallsOk | de.peeeq.wurstscript/src/main/java/de/peeeq/wurstscript/translation/imtranslation/StackTraceInjector2.java:252-288 | Redirected references stay valid once the bridges exist. |
| StackTraceBridges.RedirectProgramShape | de.peeeq.wurstscript/src/main/java/de/peeeq/wurstscript/translation/imtranslation/StackTraceInjector2.java:252-288 | The phase succeeds exactly when every site gets its bridge. The result is the old functions, changed only in their references, followed by the bridges in site order. |
| StackTraceBridges.RedirectProgramWellFormed | de.peeeq.wurstscript/src/main/java/de/peeeq/wurstscript/translation/imtranslation/StackTraceInjector2.java:252-288 | A well-formed program stays well formed exactly when every referenced affected function has one parameter. |
| StackTraceErrors.FramesBounded | de.peeeq.wurstscript/src/main/java/de/peeeq/wurstscript/translation/imtranslation/StackTraceInjector2.java:312-321 | The trace has at most MAX_STACKTRACE_SIZE (20) entries. When the depth n is at most 20 it has all n of them, or none when n is negative. |
| StackTraceErrors.TraceTextLength | de.peeeq.wurstscript/src/main/java/de/peeeq/wurstscript/translation/imtranslation/StackTraceInjector2.java:322-326 | Every entry adds itself plus four characters (a line break and three spaces) to the text. |
| StackTraceErrors.TraceSnippetValue | de.peeeq.wurstscript/src/main/java/de/peeeq/wurstscript/translation/imtranslation/StackTraceInjector2.java:306-328 | The snippet evaluates to the stack entries from depth-1 downwards, at most 20 of them, each after a line break and three spaces. |
| StackTraceErrors.RewriteTracesClears | de.peeeq.wurstscript/src/main/java/de/peeeq/wurstscript/translation/imtranslation/StackTraceInjector2.java:290-330 | No stack-trace read is left after the rewrite. |
| StackTraceErrors.RewriteTracesRoundTrip | de.peeeq.wurstscript/src/main/java/de/peeeq/wurstscript/translation/imtranslation/StackTraceInjector2.java:328 | Turning the snippets back into reads gives the original code, provided the code itself never copies the depth variable. So only the reads change. |
| StackTraceErrors.RewriteTracesCallsOk | de.peeeq.wurstscript/src/main/java/de/peeeq/wurstscript/translation/imtranslation/StackTraceInjector2.java:290-330 | The rewrite keeps every call's arity. |
| StackTraceErrors.RewriteTracesSeqAt | de.peeeq.wurstscript/src/main/java/de/peeeq/wurstscript/translation/imtranslation/StackTraceInjector2.java:299-305 | Read `i` of a list gets the three locals numbered after those of the reads in front of it. |
| StackTraceErrors.TraceLocalsAt | de.peeeq.wurstscript/src/main/java/de/peeeq/wurstscript/translation/imtranslation/StackTraceInjector2.java:300-305 | Snippet `k` adds `stacktraceStr` (string), `stacktraceIndex` and `stacktraceLimit` (integers), as locals `3k`, `3k+1` and `3k+2`. |
| StackTraceErrors.RewriteErrorsFunctionShape | de.peeeq.wurstscript/src/main/java/de/peeeq/wurstscript/translation/imtranslation/StackTraceInjector2.java:292-305 | No read is left. Three locals per read are appended after the old ones. Nothing but the body and the locals changes, and undoing the snippets gives back the old body. |
| StackTraceErrors.RewriteErrorsProgramWellFormed | de.peeeq.wurstscript/src/main/java/de/peeeq/wurstscript/translation/imtranslation/StackTraceInjector2.java:290-330 | The rewrite keeps a program well formed, in both directions, and leaves no read. |
| StackTraceErrors.RewriteErrorsNoTrace | de.peeeq.wurstscript/src/main/java/de/peeeq/wurstscript/translation/imtranslation/StackTraceInjector2.java:292-297 | A function without stack-trace reads is not changed at all (a multi-index array access alone adds nothing). |
| StackTraceInjection.PoppedParams | de.peeeq.wurstscript/src/main/java/de/peeeq/wurstscript/translation/imtranslation/StackTraceInjector2.java:209-224 | After the first three phases, a target has gained exactly `stackPos`. Every other function keeps its parameters and name. |
| StackTraceInjection.UntargetedOnlyThreaded | de.peeeq.wurstscript/src/main/java/de/peeeq/wurstscript/translation/imtranslation/StackTraceInjector2.java:103-106 | `main`, `config` and unaffected functions differ from the input only in the extra arguments of their calls. |
| StackTraceInjection.EntryPointsExempt | de.peeeq.wurstscript/src/main/java/de/peeeq/wurstscript/translation/imtranslation/StackTraceInjector2.java:204-207 | An affected function is instrumented exactly when its name is neither `main` nor `config`. An affected `main` or `config` keeps its parameters and only gains call arguments. |
| StackTraceInjection.ContainsCallMeaning | de.peeeq.wurstscript/src/main/java/de/peeeq/wurstscript/translation/imtranslation/StackTraceInjector2.java:185-202 | A returned value needs a temporary exactly when it calls some function (affected or not) or reads the stack trace. |
| StackTraceInjection.TargetPushes | de.peeeq.wurstscript/src/main/java/de/peeeq/wurstscript/translation/imtranslation/StackTraceInjector2.java:107-110 | A target starts by pushing its own `stackPos` parameter. |
| StackTraceInjection.InjectFails | de.peeeq.wurstscript/src/main/java/de/peeeq/wurstscript/translation/imtranslation/StackTraceInjector2.java:260-274 | The pass fails exactly when some reference to an affected function has no trace, or names `main` or `config` without parameters. |
| StackTraceInjection.PoppedWellFormed | de.peeeq.wurstscript/src/main/java/de/peeeq/wurstscript/translation/imtranslation/StackTraceInjector2.java:91-93 | The first three phases keep a well-formed program well formed. |
| StackTraceInjection.InjectWellFormed | de.peeeq.wurstscript/src/main/java/de/peeeq/wurstscript/translation/imtranslation/StackTraceInjector2.java:38-97 | End to end: from a well-formed program, the result is well formed exactly when every affected function referenced as a value had no parameters (one for `main` and `config`). |
| StackTraceInjection.SiteArity | de.peeeq.wurstscript/src/main/java/de/peeeq/wurstscript/translation/imtranslation/StackTraceInjector2.java:252-288 | A referenced function has one parameter after threading exactly when it had none before, or one if it is `main` or `config`. |
| StackTraceInjection.InjectNoTraces | de.peeeq.wurstscript/src/main/java/de/peeeq/wurstscript/translation/imtranslation/StackTraceInjector2.java:95 | No stack-trace read is left after the pass. |
| StackTraceInjection.TargetsAfterThread | de.peeeq.wurstscript/src/main/java/de/peeeq/wurstscript/translation/imtranslation/StackTraceInjector2.java:91-92 | Threading keeps names, so the push phase has the same targets. |
| StackTraceInjection.TargetsAfterPush | de.peeeq.wurstscript/src/main/java/de/peeeq/wurstscript/translation/imtranslation/StackTraceInjector2.java:92-93 | The push keeps names, so the pop phase has the same targets. |
| StackTraceInjection.StackTraceInjector2.constructor | de.peeeq.wurstscript/src/main/java/de/peeeq/wurstscript/translation/imtranslation/StackTraceInjector2.java:34-36 | The injector holds the given program. |
| StackTraceInjection.StackTraceInjector2.Transform | de.peeeq.wurstscript/src/main/java/de/peeeq/wurstscript/translation/imtranslation/StackTraceInjector2.java:38-97 | Two globals are appended: `wurst_stack_depth` (integer, initialised to 0) and `wurst_stack` (string array). The function list becomes the composed pass over the program's own affected set. The result is false exactly when a bridge cannot be built. |
| StackTraceInjection.StackTraceInjector2.PassStacktraceParams | de.peeeq.wurstscript/src/main/java/de/peeeq/wurstscript/translation/imtranslation/StackTraceInjector2.java:209-224 | Visiting the affected functions one at a time, in any order, yields the threaded program. |
| StackTraceInjection.StackTraceInjector2.AddStackTracePush | de.peeeq.wurstscript/src/main/java/de/peeeq/wurstscript/translation/imtranslation/StackTraceInjector2.java:102-112 | The function list becomes the pushed program. Globals are untouched. |
| StackTraceInjection.StackTraceInjector2.AddStackTracePop | de.peeeq.wurstscript/src/main/java/de/peeeq/wurstscript/translation/imtranslation/StackTraceInjector2.java:121-164 | The function list becomes the popped program. Globals are untouched. |
| StackTraceInjection.StackTraceInjector2.RewriteFuncRefs | de.peeeq.wurstscript/src/main/java/de/peeeq/wurstscript/translation/imtranslation/StackTraceInjector2.java:252-288 | The result is true exactly when every bridge can be built, and the function list is then the redirected program with the bridges appended. |
| StackTraceInjection.StackTraceInjector2.RewriteErrorStatements | de.peeeq.wurstscript/src/main/java/de/peeeq/wurstscript/translation/imtranslation/StackTraceInjector2.java:290-330 | Every function is rewritten as `RewriteErrorsFunction` says. Globals are untouched. |
| WurstAst.New | de.peeeq.wurstscript/src-gen/de/peeeq/wurstscript/ast/StmtExitwhen.java:134-142 | Construction succeeds exactly when both components are present, and then holds them. A missing source fails with the "source" null-parameter error, even when the condition is missing too. A missing condition with a source present fails with the "cond" error. |
| WurstAst.Get | de.peeeq.wurstscript/src-gen/de/peeeq/wurstscript/ast/StmtExitwhen.java:144-158 | `get` succeeds exactly for indices -2 to 1. |
| WurstAst.GetFails | de.peeeq.wurstscript/src-gen/de/peeeq/wurstscript/ast/StmtExitwhen.java:152-157 | Indices below -2 fail as negative, indices from 2 on as too large, each naming the index. |
| WurstAst.NewGet | de.peeeq.wurstscript/src-gen/de/peeeq/wurstscript/ast/StmtExitwhen.java:118-158 | A built node gives back its source at 0 and -2, and its condition at 1 and -1. |
| WurstAst.Replace | de.peeeq.wurstscript/src-gen/de/peeeq/wurstscript/ast/StmtExitwhen.java:165-180 | `replace` succeeds exactly for a position term at 0 or an expression at 1. |
| WurstAst.ReplaceRefusesNegative | de.peeeq.wurstscript/src-gen/de/peeeq/wurstscript/ast/StmtExitwhen.java:165-169 | `replace` refuses negative indices, even those `get` accepts. A bad index is reported before a bad sort. |
| WurstAst.ReplaceWrongSort | de.peeeq.wurstscript/src-gen/de/peeeq/wurstscript/ast/StmtExitwhen.java:171-174 | The wrong sort fails, naming the expected sort (WPos, Expr). |
| WurstAst.ReplaceGet | de.peeeq.wurstscript/src-gen/de/peeeq/wurstscript/ast/StmtExitwhen.java:176-179 | After a successful replace, `get` returns the new term at that position and the old component at the other. |
| WurstAst.ReplaceSame | de.peeeq.wurstscript/src-gen/de/peeeq/wurstscript/ast/StmtExitwhen.java:165-180 | Replacing a component by itself gives the same node. |
| WurstAst.ReplaceTwice | de.peeeq.wurstscript/src-gen/de/peeeq/wurstscript/ast/StmtExitwhen.java:165-180 | Of two replaces at one position, the second wins. |
| WurstAst.ReplaceSource | de.peeeq.wurstscript/src-gen/de/peeeq/wurstscript/ast/StmtExitwhen.java:122-124 | A missing source fails with the "WPos expected" sort error. A present one gives a node holding the new source and the old condition. |
| WurstAst.ReplaceCond | de.peeeq.wurstscript/src-gen/de/peeeq/wurstscript/ast/StmtExitwhen.java:130-132 | A missing condition fails with the "Expr expected" sort error. A present one gives a node holding the new condition and the old source. |
| WurstAst.ToStringShape | de.peeeq.wurstscript/src-gen/de/peeeq/wurstscript/ast/StmtExitwhen.java:197-206 | The text is "StmtExitwhen( ", then the printed source, ", ", the printed condition and " )". Each piece sits at its exact offset. |
| WurstTypes.MatchCases | de.peeeq.wurstscript/src/main/java/de/peeeq/wurstscript/types/WurstTypeNull.java:21-43 | `null` matches exactly nullable supertypes, plus `integer` and the integer-literal type in Jass code. A match returns the binding unchanged. |
| WurstTypes.NoMatchOutsideJass | de.peeeq.wurstscript/src/main/java/de/peeeq/wurstscript/types/WurstTypeNull.java:21-27 | Outside Jass code a non-nullable type never matches. |
| WurstTypes.NullMatchesNull | de.peeeq.wurstscript/src/main/java/de/peeeq/wurstscript/types/WurstTypeNull.java:13-18 | The single instance, named "null", is nullable, so it matches itself everywhere. |
| WurstTypes.DefaultValue | de.peeeq.wurstscript/src/main/java/de/peeeq/wurstscript/types/WurstTypeNull.java:50-53 | The default value evaluates to the integer 0 and changes nothing. |
| AttrTypeDef.CalculateFound | de.peeeq.wurstscript/src/main/java/de/peeeq/wurstscript/attributes/AttrTypeDef.java:20-33 | A definition is found exactly for a named, non-native reference whose lookup succeeds, and it is the one looked up. |
| AttrTypeDef.NamelessHasNone | de.peeeq.wurstscript/src/main/java/de/peeeq/wurstscript/attributes/AttrTypeDef.java:24-26 | `thistype` and array types have no definition. |
| AttrTypeDef.NativeHasNone | de.peeeq.wurstscript/src/main/java/de/peeeq/wurstscript/attributes/AttrTypeDef.java:28-31 | Native types have no definition. |
| AttrTypeDef.ResolvedOverloads | de.peeeq.wurstscript/src/main/java/de/peeeq/wurstscript/attributes/AttrTypeDef.java:15-17 | The overload for resolved references has no definition. The general overload looks up the resolved type's name. |
| AttrTypeDef.TypeNames | de.peeeq.wurstscript/src/main/java/de/peeeq/wurstscript/attributes/AttrTypeDef.java:35-64 | Simple and `new` references give their own name, resolved references their type's name, `thistype` and arrays none. |

## Left out

- Depth balance on every path (one increment on entry and one decrement on every exit) is not one path-level lemma over executions. It is stated in pieces: `PushFunction` puts the increment first, `PopReturnsPops` puts exactly one decrement before every return, `PopFunctionShape` adds the final decrement exactly when `ReturnsOnAllPaths` fails, and `ReturnsOnAllPathsSound` says that then no path falls off the end.
- Global initialisers: the scan walks only function bodies. In the source, a trigger or call inside a global initialiser would have no enclosing function.
- Order of the affected set (a `HashSet`): the model visits functions in unspecified order. `ThreadProgramCompose` shows that the order does not change the result.
- Order of the returns (also a `HashSet`): temporaries are numbered in the order of the walk.
- Object identity: fresh variables and bridges are identified by their index, not by object identity.
- Aborted pass: after the exception that aborts `rewriteFuncRefs` (no parameter to remove, or a reference without a trace), the program state is left unspecified. `Transform` returns false there.
- Bridge references:
  - `RewriteFuncRefs` collects the references to redirect during its own walk of the function bodies, after push and pop. The source collects them in the first scan.
  - The earlier phases add no function reference, but that they keep the references and their order is not proved here.
  - References inside global initialisers are not redirected.
- Position printing: `printShort` of a source position is a parameter.
- Source-level names: the source-level name a function's trace refers to is a field (`sourceName`), standing in for `tryGetNameDef`.
- Element traces are not modelled.
- `TimeTaker` is not modelled.
- The interpreter `ImInterp` covers only the constructs the trace loop uses. Function calls, returns and the other nodes are not given a meaning. Jass strings are unbounded, and arrays have no capacity limit.
- Jass code, native types, lookup: whether a location is Jass code, `NativeTypes.nativeType`, `lookupType` and the other types' `isNullable` belong to the rest of the compiler. They are parameters.
- Wurst types: only the types the null rule inspects are told apart.
- `StmtExitwhen` boilerplate: the visitor and switch boilerplate, `toJavaCode` and `sortName` are not modelled. `AST.unique` interning is the identity on values.
- `DefaultValue`: the translator argument of `getDefaultValue` is not used in the source and is left out.

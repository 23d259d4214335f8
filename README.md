# Verilator scheduling, modelled in Dafny

This project models the scheduling pass of Verilator, the SystemVerilog
compiler (`src/V3Sched.cpp` and `src/V3SchedTiming.cpp`). The pass does the
following:

- It sorts every `AstActive` of the netlist into logic classes: static,
  initial, final, combinational, postponed, clocked, observed and reactive.
- It emits the simply ordered entry points `_eval_static`, `_eval_initial`,
  `_eval_final` and `_eval_postponed`. Each gets one sub-function per scope and
  one coroutine per suspendable process. Any function past the
  `--output-split-cfuncs` threshold is split into numbered pieces.
- It assigns trigger bits to the clocked and hybrid sensitivities (a
  `TRIGGERVEC`). It emits the trigger computation function. It remaps the
  actives onto single-bit trigger sensitivities and inverts that map.
- It builds the convergence loops of `_eval_settle` and `_eval`: the ico, act,
  NBA, observed and reactive regions, each aborting with
  "<region> region did not converge." past the converge limit.
- It integrates timing. `prepareTiming` makes one `resume()` active per await
  sensitivity and records the domains of variables written by suspendable
  processes. `createResume` builds `_timing_resume` and `createCommit` builds
  `_timing_commit`. `remapDomains` maps those domains onto trigger
  sensitivities. `transformForks` turns every forked process that can suspend
  into a private coroutine and passes it the locals it uses.

Modules:

- `common.dfy` holds the module `Wrappers` (`Option`, `Result`), the netlist
  vocabulary `SchedTypes` (sensitivities, scopes, statements, `AstCFunc`) and
  `SeqUtil` (duplicate-free first-occurrence filtering, filtering).
- `classify.dfy` is `gatherLogicClasses`.
- `split.dfy` is `splitCheck`, with the node counts it goes by.
- `sequential.dfy` is `orderSequentially` and
  `createStatic`/`createInitial`/`createFinal`/`createPostponed`.
- `triggers.dfy` is `getSenTreesUsedBy`, `remapSensitivities`,
  `invertAndMergeSenTreeMap`, `ExtraTriggers`, `createTriggerSenTree`,
  `createTriggers` and the `TriggerKit` helpers.
- `evalloop.dfy` holds the trigger-vector operations, `buildLoop` and
  `makeEvalLoop` as an interpreter of the generated loop, `createSettle`,
  the ico loop and `createEval`.
- `timing.dfy` holds `TimingKit` (`remapDomains`, `createResume`,
  `createCommit`) and `prepareTiming` with its `AwaitVisitor`.
- `forks.dfy` is `transformForks`: the `ForkVisitor` and `remapLocals`.

Each loop of the source is a `method` proved equal to a prefix-recursive
specification function. The properties are proved about those functions.
The two visitors that keep state in fields (`AwaitVisitor`, `TimingKit`) are
classes. Their methods are tied to a state function.

Design decisions:

- A fatal `UASSERT`/`VL_FATAL` becomes an `Err` carrying the source's
  message.
- Tree identity (`AstSenTree*`) is value identity. A netlist tree carries an
  `id` so that distinct objects stay distinct. Trigger trees all have id 0
  and are identified by their single item, so two trees made by
  `createTriggerSenTree` for the same bit are the same value.
- A `std::set<AstSenTree*>` becomes a duplicate-free sequence in insertion
  order. The source iterates it in pointer order.
- A `std::map` becomes a Dafny `map`.
- Integers are unbounded.
- The generated code's behaviour is given by interpreters parameterised over
  the design state. The trigger functions and region functions are function
  parameters.
- Three cases are not defined by the code, and the model returns `Err` or a
  fixed value there:
  - `createCommit` reads the first item of a timing active's sensitivity
    without a check, which would dereference null for a sensitivity with no
    items. The model returns `Err`.
  - `invertAndMergeSenTreeMap` tests `sensesp()->nextp()`, which would
    dereference null for a trigger sensitivity with no items. The model
    returns `Err`, as for more than one item.
  - An `AstBegin` with an empty body and no awaits would dereference a null
    statement list. The model inlines it as nothing.
- `AstBegin` only occurs inside a fork in the model, so "Begin outside of a
  fork" cannot be expressed.

## Model

| member | source | states |
|---|---|---|
| Classify.ClassifyPrecedence | src/V3Sched.cpp:168-202 | Decision table of gatherLogicClasses. For each class it states the exact condition (iff) for an active to land there: static, then initial, then final, then combinational, then clocked. The first four must have exactly one sensitivity item. A combinational active is postponed when it starts with `always_postponed`. A clocked one is observed or reactive by its first statement. Anything else is fatal. |
| Classify.GatherOk | src/V3Sched.cpp:162-209 | Classification fails exactly when some non-empty active cannot be classified. |
| Classify.GatherIsFilter | src/V3Sched.cpp:165-203 | Each class list is exactly the non-empty actives classified into it, in traversal order. |
| Classify.GatherPartition | src/V3Sched.cpp:165-203 | The class lists partition the non-empty actives: their total size is the number of non-empty actives. |
| Classify.GatherErrSticks | src/V3Sched.cpp:173-194 | After a fatal active, later actives change nothing. |
| Classify.GatherScope | src/V3Sched.cpp:168-205 | The per-scope loop equals the specification on the scope's pairs. It keeps exactly the non-empty actives of the scope, which is what deleting the empty ones leaves. |
| Classify.GatherLogicClasses | src/V3Sched.cpp:162-209 | The whole walk fails iff the specification fails, and then with the specification's message. Otherwise it returns the specified classes and every scope with its empty actives deleted. |
| Split.SplitCheck | src/V3Sched.cpp:122-157 | The function is unchanged when splitting is off, it is empty, or its node count is below the threshold. Otherwise the top function's body is one call per piece. The pieces are a greedy split: numbered `name__k`, same scope and slowness, and concatenated they give the original statements. Each piece is within the threshold or holds a single item. Each piece plus the next item exceeds the threshold. |
| Split.SplitStart | src/V3Sched.cpp:138-153 | The loop invariant is kept when a new piece is started for an item that does not fit. |
| Split.SplitJoin | src/V3Sched.cpp:153-154 | The loop invariant is kept when an item joins the current piece. |
| Split.SplitDone | src/V3Sched.cpp:135-155 | After the last item, the pieces form a greedy split of the whole function. |
| Sequential.NewSub | src/V3Sched.cpp:216-230 | createNewSubFuncp adds exactly one function and leaves the scope cache alone. |
| Sequential.EnsureSub | src/V3Sched.cpp:236 | After the step the scope has a cached sub-function, and the cache stays in range. |
| Sequential.EmitStmt | src/V3Sched.cpp:240-263 | Moving one statement keeps the cache in range and unchanged. |
| Sequential.EmitActive | src/V3Sched.cpp:238-264 | The statement loop over one active equals the specification. The scope's sub-function gains, at its end and in order, the plain statements and the bodies of non-suspendable procedures. Every other cached function is unchanged. The coroutines gained are those of the suspendable procedures with a body, in order. |
| Sequential.OrderSequentially | src/V3Sched.cpp:214-270 | The method equals the specification OrderSpec over the pairs, in order. It places the statements as OrderSpecPlaced states and keeps the invariant of OrderSpecGood. |
| Sequential.OnlyEmptyDropped | src/V3Sched.cpp:240-263 | A statement neither stays in the sub-function nor makes a coroutine iff it is a procedure with an empty body. |
| Sequential.EmitStmtPlaced | src/V3Sched.cpp:240-263 | One statement lands as the source places it. A suspendable procedure with a body becomes a new coroutine after all functions, holding `while (true)` around its body for `always` and the body otherwise. A non-suspendable procedure's body, or a plain statement, is appended to its scope's sub-function. No other function changes. |
| Sequential.EmitStmtsPlaced | src/V3Sched.cpp:238-264 | The same for a whole active, statement after statement and in order. |
| Sequential.EnsureSubPlaced | src/V3Sched.cpp:236 | A scope seen for the first time gets an empty sub-function. Nothing else changes its contents. |
| Sequential.OrderSpecPlaced | src/V3Sched.cpp:214-270 | Every scope of the pairs has exactly one cached sub-function. It holds, pair after pair, the plain statements and non-suspendable procedure bodies of that scope's actives. The coroutines are, in pair order, the suspendable procedures with a body, each wrapped in `while (true)` when it is an `always`. |
| Sequential.OrderSpecLayout | src/V3Sched.cpp:214-270 | The placement of OrderSpecPlaced, and every function that is not a coroutine is the cached sub-function of its scope. So nothing is created besides those, and only empty procedures are dropped. |
| Sequential.EmitCoroutineGood | src/V3Sched.cpp:245-256 | A suspendable procedure becomes the scope's next coroutine `<top>__<scope>__<n>`. That coroutine is not slow, it is called from the top function, and it makes the top function non-slow. |
| Sequential.EmitAppendGood | src/V3Sched.cpp:257-262 | Statements appended to the scope's function change no name, flag or call. |
| Sequential.EnsureSubGood | src/V3Sched.cpp:236 | The sub-function created on first use is the plain `<top>__<scope>` one and is called from the top function. |
| Sequential.OrderSpecGood | src/V3Sched.cpp:214-270 | orderSequentially keeps its invariant for any input. The top function calls every created function once, in creation order. There is one plain function per scope, named `<top>__<scope>`. The n-th coroutine of a scope is named `__<n>`. The per-scope counter equals the number of coroutines. The top function stays slow only if no coroutine was made. |
| Sequential.CreateOrdered | src/V3Sched.cpp:272-276 | A new slow entry point is ordered sequentially and then split as SplitCheck states. |
| Sequential.CreateStatic | src/V3Sched.cpp:272-276 | `_eval_static` is the static class ordered sequentially. It is left whole when splitCheck skips it. Otherwise it is greedily split, and its body becomes one call per piece. |
| Sequential.CreateInitial | src/V3Sched.cpp:278-282 | `_eval_initial` is the initial class ordered sequentially and not split. It keeps the orderSequentially invariant and placement. |
| Sequential.CreatePostponed | src/V3Sched.cpp:284-290 | There is no function iff there is no postponed logic. Otherwise it is `_eval_postponed` with the ordered sub-functions, left whole or greedily split as for the static class. |
| Sequential.CreateFinal | src/V3Sched.cpp:292-296 | `_eval_final` is the final class ordered sequentially. It is left whole when splitCheck skips it. Otherwise it is greedily split, and its body becomes one call per piece. |
| Triggers.GetSenTreesUsedBy | src/V3Sched.cpp:78-90 | The result holds every clocked or hybrid sensitivity of the lists once, in first-encounter order. It has no duplicates, and its elements are exactly those sensitivities. |
| Triggers.ScanUsedBy | src/V3Sched.cpp:82-87 | The inner loop over one list keeps `user1` equal to the set of sensitivities seen and the result equal to the specification. |
| Triggers.UsedByFacts | src/V3Sched.cpp:78-90 | First-occurrence filtering gives no duplicates, exactly the clocked or hybrid members, and their order of first appearance. |
| Triggers.RemapSensitivities | src/V3Sched.cpp:100-108 | Succeeds iff every non-combinational active has an entry (`at` throws otherwise). Combinational actives keep their sensitivity and every other active gets its mapped one. Nothing else changes. |
| Triggers.InvertAndMergeSenTreeMap | src/V3Sched.cpp:110-117 | Fails iff some trigger sensitivity does not have exactly one item. For more than one item this is the source's assertion; for none the source would dereference null. Existing entries are never overwritten (`emplace`). Every new key is the item of some entry. A key owned by one entry only maps back to that entry's sensitivity. |
| Triggers.TriggerMapInvertible | src/V3Sched.cpp:479-488 | The map createTriggers builds has single-item values whose items are pairwise distinct, so inverting it loses nothing. |
| Triggers.CreateTriggerSenTree | src/V3Sched.cpp:355-372 | Fatal iff the index is the `unsigned` maximum. Otherwise it is a single ET_TRUE item whose expression decodes back to the index. |
| Triggers.TrigExprRoundTrip | src/V3Sched.cpp:444-454 | The word index `i / 64` with mask `1 << (i % 64)` decodes back to `i`, and the mask fits in 64 bits. |
| Triggers.TrigSenTreeInjective | src/V3Sched.cpp:483-488 | Different trigger indices give different trigger items. |
| Triggers.ExtraTriggers.constructor | src/V3Sched.cpp:381 | A new allocator holds no descriptions. |
| Triggers.ExtraTriggers.Allocate | src/V3Sched.cpp:383-387 | Returns the previous size as the index and appends the description. |
| Triggers.SettleExtras | src/V3Sched.cpp:671-673 | The settle loop's "first iteration" trigger is bit 0. |
| Triggers.InputCombExtras | src/V3Sched.cpp:743-747 | In the ico loop, "first iteration" is bit 0. The DPI export trigger is bit 1 when there is a DPI export flag, and the `unsigned` maximum otherwise. |
| Triggers.ActExtras | src/V3Sched.cpp:1064-1068 | In the act triggers, the DPI export trigger is bit 0 when there is a DPI export flag, and the `unsigned` maximum otherwise. |
| Triggers.DpiExportTreeBuilt | src/V3Sched.cpp:770-772 | The index the extras hand out can be built into a trigger sensitivity iff the design has a DPI export flag. The guarded `dpiExportTriggered` construction never fails. It gives a sensitivity iff there is the flag, and that sensitivity tests bit 1 in the ico loop and bit 0 in the act triggers. |
| Triggers.EmitTriggersOk | src/V3Sched.cpp:479-481 | The per-sensitivity loop fails exactly on a sensitivity that is neither clocked nor hybrid. |
| Triggers.EmitTriggersErrSticks | src/V3Sched.cpp:479-481 | After that failure, later sensitivities change nothing. |
| Triggers.EmitTriggersMap | src/V3Sched.cpp:483-488 | The k-th sensitivity is mapped to the trigger sensitivity of bit E + k, where E is the number of extra triggers. |
| Triggers.EmitTriggersBuilds | src/V3Sched.cpp:490-498 | One `set(E + k, expr_k)` per built expression, in order. The initial-time sets are as InitSets states, and the builder state is threaded through. |
| Triggers.InitSetsExactly | src/V3Sched.cpp:494-498 | A bit gets an initial-time `set(i, 1)` exactly when the builder reports an initial dependency or `--x-initial-edge` is on. |
| Triggers.TrigMapSnoc | src/V3Sched.cpp:483-488 | Adding the next sensitivity at the next bit keeps the trigger map specification. |
| Triggers.BuildTriggers | src/V3Sched.cpp:476-507 | The loop with its `triggerNumber` counter equals the specification EmitTriggers. |
| Triggers.PrependInReverse | src/V3Sched.cpp:515-530 | Inserting each element in front, last one first, puts the list in front in its original order. |
| Triggers.AssembleCompute | src/V3Sched.cpp:508-541 | Fatal iff there are pre-updates or locals but no statement to insert before. Otherwise the body is: locals, pre-updates, the sets, the post-updates, then the `__V<name>DidInit`-guarded initial sets if there are any. |
| Triggers.CreateTriggers | src/V3Sched.cpp:395-561 | The TRIGGERVEC `__V<name>Triggered` is as wide as the sensitivities plus the extras, with bit E + k for the k-th sensitivity. The computation body is as AssembleCompute states. The builder's lists are handed over and cleared. It is fatal exactly in the two cases above. |
| Triggers.AddFirstIterationTrigger | src/V3Sched.cpp:314-323 | Puts `set(index, counter == 0)` in front of the computation and changes nothing else. |
| Triggers.AddDpiExportTrigger | src/V3Sched.cpp:326-337 | Puts `set(index, flag); flag = 0` in front of the computation and changes nothing else. |
| EvalLoop.Clear | src/V3Sched.cpp:810-815 | `clear()` keeps the width and sets no bit. |
| EvalLoop.ThisOr | src/V3Sched.cpp:817-824 | `thisOr` keeps the receiver's width and bits. It holds the operand's bits (same width), and nothing else. |
| EvalLoop.AndNot | src/V3Sched.cpp:826-835 | `andNot(a, b)` holds exactly the bits of `a` not set in `b`. |
| EvalLoop.SetBit | src/V3Sched.cpp:433-441 | `set(i, b)` changes bit i only. |
| EvalLoop.ThisOrAny | src/V3Sched.cpp:817-824 | The OR fires iff either operand fires. |
| EvalLoop.LatchSplit | src/V3Sched.cpp:880-885 | The `pre` bits are disjoint from the NBA bits. Latching them is the same as latching all act bits. |
| EvalLoop.RunLoop | src/V3Sched.cpp:566-654 | The generated `counter = 0; continue = 1; while (continue) ...` loop equals the recursive specification RunFrom. On normal exit no trigger is set and the counter is at most limit + 1. |
| EvalLoop.RunFromCount | src/V3Sched.cpp:614-646 | The counter never decreases, and it passes the limit only by the final increment. |
| EvalLoop.RunFromQuiet | src/V3Sched.cpp:602-612 | A loop that ends normally ends on a trigger computation that set no trigger. |
| EvalLoop.RunFromInvariant | src/V3Sched.cpp:602-650 | Whatever the computation and the body preserve holds at the end. |
| EvalLoop.RunFromDiverges | src/V3Sched.cpp:614-637 | A region that always retriggers ends in "<name> region did not converge.". |
| EvalLoop.FirstIterationRuns | src/V3Sched.cpp:698-712 | With the first-iteration trigger, the settle body (and likewise the ico body) runs at least once before the loop can end. |
| EvalLoop.ActCompute | src/V3Sched.cpp:862-878 | The act trigger step computes the act vector and then commits, with the commit seeing the vector just computed. Nothing else in the environment changes. |
| EvalLoop.ActBody | src/V3Sched.cpp:879-898 | `pre = act andNot nba`, then `nba thisOr act`. So `pre` is disjoint from the old NBA bits, and NBA keeps its bits and gains the act bits. Resume, then the act function. |
| EvalLoop.NbaBody | src/V3Sched.cpp:912-923 | After the NBA function, the NBA bits are latched under the observed vector if there is one, else under the reactive vector if there is one, else nowhere. |
| EvalLoop.ObsBody | src/V3Sched.cpp:938-948 | After the observed function, the observed bits are latched under the reactive vector if there is one. |
| EvalLoop.RunEval | src/V3Sched.cpp:840-978 | `_eval` executed statement by statement equals its specification. |
| EvalLoop.RunSettle | src/V3Sched.cpp:659-716 | `_eval_settle` executed statement by statement equals its specification. It does nothing without combinational or hybrid logic. |
| EvalLoop.ActLoopFacts | src/V3Sched.cpp:858-899 | The act loop ends with no act trigger set. It leaves the settle, ico, observed and reactive vectors alone and never drops an NBA bit. |
| EvalLoop.ActLoopDiverges | src/V3Sched.cpp:858-899 | A design whose act triggers always fire aborts with "Active region did not converge.". |
| EvalLoop.NbaLoopFacts | src/V3Sched.cpp:901-924 | The NBA loop ends with act and NBA vectors clear. |
| EvalLoop.ObsLoopFacts | src/V3Sched.cpp:926-950 | The observed loop ends with act, NBA and observed vectors clear. |
| EvalLoop.InnerLoopFacts | src/V3Sched.cpp:926-950 | The loop nested inside the reactive one ends quiet. |
| EvalLoop.OuterLoopFacts | src/V3Sched.cpp:952-970 | The outermost loop (reactive, else observed, else NBA) ends with every region it runs quiet. |
| EvalLoop.EvalQuiescent | src/V3Sched.cpp:855-977 | `_eval` returns normally only with no ico, act, NBA, observed or reactive trigger pending. |
| Timing.InsertAllFacts | src/V3SchedTiming.cpp:192 | `std::set::insert` of a range: the members are the union, no duplicates, and existing elements keep their places. |
| Timing.AddDomainsFacts | src/V3SchedTiming.cpp:191-194 | Every written variable gains every process domain. Variables not written keep their entry. Every element comes from the old entry or the domains. |
| Timing.MarkAllFacts | src/V3SchedTiming.cpp:193 | `setWrittenBySuspendable` marks exactly the written variables in addition. |
| Timing.ResumeCall | src/V3SchedTiming.cpp:160-169 | `resume()` on the same scheduler. A trigger scheduler's pins are copied; other schedulers get none. |
| Timing.AwaitStep | src/V3SchedTiming.cpp:206-211 | The first await on a sensitivity adds its resume active, and a dynamic trigger scheduler also adds a `doPostUpdates` call. Later awaits add nothing. The sensitivity is marked seen. Inside a process it joins the process domains. |
| Timing.VisitAllErrSticks | src/V3SchedTiming.cpp:182-185 | After "Process in process?", later nodes change nothing. |
| Timing.AwaitResumes | src/V3SchedTiming.cpp:206-211 | One await keeps "one resume active per seen sensitivity". |
| Timing.VisitResumes | src/V3SchedTiming.cpp:182-222 | Visiting a node keeps earlier resume actives and adds one per new await sensitivity in it. |
| Timing.VisitAllResumes | src/V3SchedTiming.cpp:182-222 | The same for a list of nodes. |
| Timing.VisitInProcess | src/V3SchedTiming.cpp:200-218 | Inside a process, the domains gain exactly the node's await sensitivities. The written list gains exactly what the node writes while gathering, with gathering switched on under a fork. |
| Timing.VisitAllInProcess | src/V3SchedTiming.cpp:200-218 | The same for a list of nodes. |
| Timing.ProcessDomains | src/V3SchedTiming.cpp:182-199 | After a procedure, every variable it writes while gathering has every await sensitivity of the body in its external domains and is marked. Unwritten variables are untouched. Every domain element comes from before or from the body. The visitor is quiet again. |
| Timing.VisitQuiet | src/V3SchedTiming.cpp:182-199 | Outside a procedure the visitor stays quiet. |
| Timing.VisitAllQuiet | src/V3SchedTiming.cpp:182-199 | The same for a list of nodes. |
| Timing.VisitSeen | src/V3SchedTiming.cpp:206-211 | `user1` only gains await sensitivities of the node. |
| Timing.VisitAllSeen | src/V3SchedTiming.cpp:206-211 | The same for a list of nodes. |
| Timing.PrepareFacts | src/V3SchedTiming.cpp:137-241 | Over the whole netlist there is exactly one resume active per await sensitivity, `user1` marks exactly those, and the visitor ends quiet. |
| Timing.AwaitVisitor.constructor | src/V3SchedTiming.cpp:226-233 | The visitor starts with no process, no gathering, nothing seen and empty outputs. |
| Timing.AwaitVisitor.CreateResumeActive | src/V3SchedTiming.cpp:159-179 | The fields become the createResumeActive step of the state function. |
| Timing.AwaitVisitor.FinishProcess | src/V3SchedTiming.cpp:191-198 | The fields become the end-of-process step of the state function. |
| Timing.AwaitVisitor.VisitNode | src/V3SchedTiming.cpp:182-222 | The visit changes the fields as Visit specifies, or fails with its message. |
| Timing.AwaitVisitor.VisitChildren | src/V3SchedTiming.cpp:190 | `iterateChildren` changes the fields as VisitAll specifies, or fails with its message. |
| Timing.Negated | src/V3SchedTiming.cpp:109-116 | The copy has the first item's expression wrapped in a logical not, and all else the same. Fails iff the sensitivity has no items. |
| Timing.CommitFor | src/V3SchedTiming.cpp:117-124 | `commit()` on the same scheduler with the resume call's pins, under the negated sensitivity. |
| Timing.CommitEntriesSpec | src/V3SchedTiming.cpp:88-125 | Fails iff some timing active is not a delay, trigger or dynamic trigger scheduler, or a trigger-scheduler active has no sensitivity item. Otherwise the commit entries are those of the trigger-scheduler actives, in order. |
| Timing.CommitErrSticks | src/V3SchedTiming.cpp:93-96 | After "Unexpected type", later actives change nothing. |
| Timing.TimingKit.constructor | src/V3SchedTiming.cpp:236-240 | The kit holds the visitor's outputs and no function yet. |
| Timing.TimingKit.RemapDomains | src/V3SchedTiming.cpp:43-56 | Succeeds iff every domain has a trigger (`at` throws otherwise). Each variable keeps its key and gets its domains' triggers element by element, in order. The kit is unchanged. |
| Timing.TimingKit.CreateResume | src/V3SchedTiming.cpp:61-81 | Gives null iff no function exists yet and there are no timing actives. Otherwise it gives a call to `_timing_resume`, which holds all the timing actives and is built only once. |
| Timing.TimingKit.CreateCommit | src/V3SchedTiming.cpp:86-132 | Once built, a call to `_timing_commit`. Otherwise it fails as CommitEntriesSpec states. With no trigger schedulers it gives null and builds nothing. Otherwise it builds `_timing_commit` with the commit entries and calls it. |
| Timing.PrepareTiming | src/V3SchedTiming.cpp:137-241 | Without timing the kit is empty. Otherwise it fails iff the visit does, and holds the visit's timing actives, post-updates and external domains. |
| Forks.RedirectRefs | src/V3SchedTiming.cpp:309-311 | Redirection renames exactly the references found by the traversal, and keeps the size. |
| Forks.RedirectAllRefs | src/V3SchedTiming.cpp:309-311 | The same for a statement list. |
| Forks.RemapStepKeeps | src/V3SchedTiming.cpp:269-311 | One reference keeps the remapping invariant. |
| Forks.RemapFacts | src/V3SchedTiming.cpp:267-312 | The call arguments are the passed references, each once, in first-use order. Each parameter is the function's clone of its argument: input for fork-sync and `__Vintra` variables, ref otherwise. Each argument is a read for by-value and a read-write otherwise. The cache holds exactly the passed variables, each mapped to its clone. |
| Forks.RemapWarnings | src/V3SchedTiming.cpp:283-291 | The unsupported-variable warnings are exactly the references to function locals declared before a non-`join` fork, in order. |
| Forks.RemapLocals | src/V3SchedTiming.cpp:267-312 | The `foreach` loop equals the specification RemapSpec. |
| Forks.Coroutine | src/V3SchedTiming.cpp:348-369 | The coroutine has the begin's name and the forking function's scope, and is private. Looseness, slowness and constness are copied. It has `VL_KEEP_THIS` and the syms parameter iff in a class. Its parameters come from remapLocals and its references are redirected. |
| Forks.LowerBegin | src/V3SchedTiming.cpp:341-375 | A process without awaits is inlined. Otherwise it fails iff the begin has no name, and becomes a call (passing `vlSymsp` in a class) plus the coroutine, with the remapping's warnings. |
| Forks.LowerFork | src/V3SchedTiming.cpp:329-340 | Lowering the processes never grows the tree, and every function it makes is a private coroutine. |
| Forks.LowerForkFuncs | src/V3SchedTiming.cpp:341-375 | The functions made are one per suspending process, in process order, with that process's name. |
| Forks.TransformBody | src/V3SchedTiming.cpp:326-340 | Walking a body leaves no fork, never grows the tree, and makes only private coroutines. |
| Forks.TransformFuncs | src/V3SchedTiming.cpp:321-325 | Walking a module's functions leaves none with a fork. There are at least as many functions as before, and the first one is the first input function with only its body changed. |
| Forks.TransformFuncsKeeps | src/V3SchedTiming.cpp:321-352 | Every input function comes back, in input order, with only its body changed. The created functions are inserted between them. |
| Forks.TransformModules | src/V3SchedTiming.cpp:316-320 | The same modules come back in order, each with only its functions changed, and no function is left with a fork. |
| Forks.TransformModulesKeeps | src/V3SchedTiming.cpp:316-325 | Within each module, every input function comes back, in input order, with only its body changed. |
| Forks.TransformForks | src/V3SchedTiming.cpp:246-392 | Without timing nothing changes. Otherwise the same modules come back in order, each with only its functions changed, and no fork is left. |
| Forks.ForkFreeBodyUnchanged | src/V3SchedTiming.cpp:326-340 | A body without forks is left as it is, with no functions and no warnings. |
| Forks.ForkFreeFuncsUnchanged | src/V3SchedTiming.cpp:321-325 | Functions without forks are left as they are. |
| Forks.ForkFreeModulesUnchanged | src/V3SchedTiming.cpp:316-320 | Modules without forks are left as they are. |
| Forks.TransformForksIdempotent | src/V3SchedTiming.cpp:246-392 | Running the pass twice is the same as running it once. |
| Forks.LowerTwoProcesses | src/V3SchedTiming.cpp:329-375 | A `fork begin:a ... end begin:b ... end join` with awaits gives two calls, a then b, and two coroutines. |
| Forks.LaterCreatedFirst | src/V3SchedTiming.cpp:352 | Because of `addNextHere`, the functions then run f, b, a: the later-created coroutine comes first. |

## Left out

- Trigger expressions (`SenExprBuilder`), `V3Order::order` and the region
  functions it makes are not part of this model. They appear as function
  parameters: the builder as a `build` function threading its state, and
  the trigger and region functions of the loops.
- The `schedule` driver (`src/V3Sched.cpp:985-1225`), replication
  (`V3SchedReplicate`), region partitioning and acyclic logic are not part of
  this model. So is the `m_hybrid` class they fill.
- The debug dump functions and `--protect-ids` deletion are left out: they
  only add text behind `VL_DEBUG`.
- SystemC `scSensitive` marking in the ico loop is left out. It only sets a
  flag for the SystemC output.
- `makeSubFunction` flags (`dontCombine`, `isStatic`) are left out, as are
  file lines and the `VL_FATAL_MT` file and line text. The model keeps the
  message only.
- EvalLoop.RunLoop: the iteration counter is unbounded. The generated 32-bit
  counter could only wrap with a converge limit of `0xFFFFFFFF`.
- The `AwaitVisitor` and the `ForkVisitor` do not descend into expressions
  (`visit(AstNodeExpr*)`), and neither does the model. The model sees a
  statement only through the variable references it holds, in traversal
  order, and an await through its sensitivity, its scheduler call and, for
  the fork rewrite, its references.
- Timing.AwaitVisitor.VisitNode: `nodep->clearSensesp()` is not modelled.
  The trees remain in the value model, and only `user1` is tracked.
- Timing.Negated: `cloneTree` gives a new tree. The negated copy keeps the
  original's id, and it is not added to the netlist's tree list.
- Forks.RemapLocals: variables are conflated with their variable scopes (one
  scope per variable). The parameter is identified by the function's name and
  the original variable.
- Forks.TransformForks: the rewriting is modelled on values, not in place.
  Statements spliced in place of a fork are revisited, as `iterateAndNext`
  follows the edit. `EmitCBase::symClassVar()` and `"vlSymsp"` are booleans on
  the function and the call.
- Forks.TransformFuncs: does not state in general where the created
  functions go among the input ones, nor what a walked body holds beyond
  having no fork. Only the two-process example (LaterCreatedFirst) pins the
  insertion order of created functions down.

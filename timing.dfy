/** Integration of timing with static scheduling (src/V3SchedTiming.cpp):
    the AwaitVisitor that prepareTiming runs to build the TimingKit, and the
    kit's remapDomains, createResume and createCommit. */
module Timing {
  import opened Wrappers
  import opened SchedTypes
  import opened SeqUtil

  /** The basic type of a timing scheduler variable. */
  datatype SchedKind = DelayScheduler | TriggerScheduler | DynamicTriggerScheduler | OtherKind

  /** A method call on a scheduler variable: `scheduler.callee(pins)`. */
  datatype SchedCall = SchedCall(scheduler: nat, kind: SchedKind, callee: string, pins: seq<Expr>)

  /** A `_timing` active: one scheduler call under a sensitivity. */
  datatype TimingActive = TimingActive(sen: SenTree, call: SchedCall)

  /** What the AwaitVisitor sees of the netlist: statement-level awaits and
      variable references, forks, procedures, and any other statement through
      its children. Expressions are not descended into, so a reference or
      await nested inside an expression is not part of the tree. */
  datatype TNode =
    | Await(sen: Option<SenTree>, call: SchedCall)
    | Ref(v: nat, write: bool)
    | Fork(body: seq<TNode>)
    | Procedure(suspendable: bool, body: seq<TNode>)
    | Other(children: seq<TNode>)

  //--------------------------------------------------------------------------
  // Set insertion on duplicate-free sequences

  /** `std::set::insert` of a range, with the set held as a duplicate-free
      sequence in insertion order. */
  function InsertAll<T(==)>(xs: seq<T>, ys: seq<T>): seq<T>
  {
    if ys == [] then xs
    else
      var r := InsertAll(xs, ys[..|ys| - 1]);
      if ys[|ys| - 1] in r then r else r + [ys[|ys| - 1]]
  }

  lemma {:induction false} InsertAllFacts<T>(xs: seq<T>, ys: seq<T>)
    ensures forall x :: x in InsertAll(xs, ys) <==> x in xs || x in ys
    ensures NoDup(xs) ==> NoDup(InsertAll(xs, ys))
    ensures |xs| <= |InsertAll(xs, ys)| && InsertAll(xs, ys)[..|xs|] == xs
  {
    if ys != [] {
      var init := ys[..|ys| - 1];
      InsertAllFacts(xs, init);
      assert ys == init + [ys[|ys| - 1]];
    }
  }

  /** `m_externalDomains[v]`, default-constructed when absent. */
  function Get(ext: map<nat, seq<SenTree>>, v: nat): seq<SenTree>
  {
    if v in ext then ext[v] else []
  }

  /** The end-of-process loop: every variable in `vs` gets `doms` added. */
  function AddDomains(ext: map<nat, seq<SenTree>>, vs: seq<nat>, doms: seq<SenTree>): map<nat, seq<SenTree>>
  {
    if vs == [] then ext
    else
      var e := AddDomains(ext, vs[..|vs| - 1], doms);
      var v := vs[|vs| - 1];
      e[v := InsertAll(Get(e, v), doms)]
  }

  /** The listed variables gain exactly `doms`; every other entry is untouched. */
  lemma {:induction false} AddDomainsFacts(ext: map<nat, seq<SenTree>>, vs: seq<nat>, doms: seq<SenTree>)
    ensures forall v :: v in AddDomains(ext, vs, doms) <==> v in ext || v in vs
    ensures forall v, t :: v in vs && t in doms ==> t in AddDomains(ext, vs, doms)[v]
    ensures forall v :: v in ext && v !in vs ==> AddDomains(ext, vs, doms)[v] == ext[v]
    ensures forall v, t :: v in AddDomains(ext, vs, doms) && t in AddDomains(ext, vs, doms)[v] ==>
              t in Get(ext, v) || t in doms
  {
    if vs != [] {
      var init := vs[..|vs| - 1];
      var v := vs[|vs| - 1];
      AddDomainsFacts(ext, init, doms);
      var e := AddDomains(ext, init, doms);
      InsertAllFacts(Get(e, v), doms);
      assert vs == init + [v];
    }
  }

  /** The end-of-process loop's marking of written variables. */
  function MarkAll(marked: set<nat>, vs: seq<nat>): set<nat>
  {
    if vs == [] then marked else MarkAll(marked, vs[..|vs| - 1]) + {vs[|vs| - 1]}
  }

  lemma {:induction false} MarkAllFacts(marked: set<nat>, vs: seq<nat>)
    ensures forall v :: v in MarkAll(marked, vs) <==> v in marked || v in vs
  {
    if vs != [] {
      MarkAllFacts(marked, vs[..|vs| - 1]);
      assert vs == vs[..|vs| - 1] + [vs[|vs| - 1]];
    }
  }

  //--------------------------------------------------------------------------
  // AwaitVisitor specification

  /** The AwaitVisitor's fields and the outputs it fills. `seen` is the user1
      flag of sensitivity trees; `suspendableWritten` the variables marked
      written-by-suspendable. */
  datatype VState = VState(
    inProcess: bool,
    gatherVars: bool,
    seen: set<SenTree>,
    processDomains: seq<SenTree>,
    written: seq<nat>,
    lbs: seq<TimingActive>,
    postUpdates: seq<SchedCall>,
    externalDomains: map<nat, seq<SenTree>>,
    suspendableWritten: set<nat>)

  const Start := VState(false, false, {}, [], [], [], [], map[], {})

  /** The `resume()` call made for an await: trigger schedulers take the
      await's pins, the others none. */
  function ResumeCall(call: SchedCall): (r: SchedCall)
    ensures r.scheduler == call.scheduler && r.kind == call.kind && r.callee == "resume"
    ensures call.kind.TriggerScheduler? ==> r.pins == call.pins
    ensures !call.kind.TriggerScheduler? ==> r.pins == []
  {
    SchedCall(call.scheduler, call.kind, "resume", if call.kind.TriggerScheduler? then call.pins else [])
  }

  /** createResumeActive: the resume active goes to the timing actives; a
      dynamic trigger scheduler also gets a `doPostUpdates` post-update. */
  function NewResume(st: VState, sen: SenTree, call: SchedCall): VState
  {
    var resume := ResumeCall(call);
    st.(lbs := st.lbs + [TimingActive(sen, resume)],
        postUpdates := if call.kind.DynamicTriggerScheduler? then st.postUpdates + [resume.(callee := "doPostUpdates")]
                       else st.postUpdates)
  }

  /** Visiting an await with a sensitivity: a resume active the first time the
      tree is seen, and the tree joins the process's domains. */
  function AwaitStep(st: VState, sen: SenTree, call: SchedCall): (r: VState)
    ensures sen !in st.seen ==> r.lbs == st.lbs + [TimingActive(sen, ResumeCall(call))]
    ensures sen !in st.seen && call.kind.DynamicTriggerScheduler? ==>
              r.postUpdates == st.postUpdates + [ResumeCall(call).(callee := "doPostUpdates")]
    ensures sen in st.seen || !call.kind.DynamicTriggerScheduler? ==> r.postUpdates == st.postUpdates
    ensures sen in st.seen ==> r.lbs == st.lbs
    ensures r.seen == st.seen + {sen}
    ensures st.inProcess ==> sen in r.processDomains
    ensures !st.inProcess ==> r.processDomains == st.processDomains
  {
    var st1 := if sen in st.seen then st else NewResume(st.(seen := st.seen + {sen}), sen, call);
    if st.inProcess && sen !in st1.processDomains then st1.(processDomains := st1.processDomains + [sen])
    else st1
  }

  /** The end of a procedure: each written variable gets the process's
      domains and is marked; the per-process state is reset. */
  function EndProcess(st: VState): VState
  {
    st.(externalDomains := AddDomains(st.externalDomains, st.written, st.processDomains),
        suspendableWritten := MarkAll(st.suspendableWritten, st.written),
        processDomains := [], written := [], inProcess := false, gatherVars := false)
  }

  function Visit(st: VState, n: TNode): Result<VState>
    decreases n
  {
    match n
    case Await(sen, call) => Ok(if sen.Some? then AwaitStep(st, sen.value, call) else st)
    case Ref(v, write) =>
      Ok(if st.gatherVars && write && v !in st.written then st.(written := st.written + [v]) else st)
    case Other(children) => VisitAll(st, children)
    case Fork(body) =>
      (match VisitAll(st.(gatherVars := st.inProcess || st.gatherVars), body)
       case Err(m) => Err(m)
       case Ok(st1) => Ok(st1.(gatherVars := st.gatherVars)))
    case Procedure(suspendable, body) =>
      if st.inProcess || st.gatherVars || st.processDomains != [] || st.written != [] then Err("Process in process?")
      else
        match VisitAll(st.(inProcess := true, gatherVars := suspendable), body)
        case Err(m) => Err(m)
        case Ok(st1) => Ok(EndProcess(st1))
  }

  function VisitAll(st: VState, ns: seq<TNode>): Result<VState>
    decreases ns
  {
    if ns == [] then Ok(st)
    else
      match VisitAll(st, ns[..|ns| - 1])
      case Err(m) => Err(m)
      case Ok(st1) => Visit(st1, ns[|ns| - 1])
  }

  lemma {:induction false} VisitAllErrSticks(st: VState, ns: seq<TNode>, k: nat)
    requires k <= |ns| && VisitAll(st, ns[..k]).Err?
    ensures VisitAll(st, ns) == VisitAll(st, ns[..k])
  {
    if k < |ns| {
      var init := ns[..|ns| - 1];
      assert init[..k] == ns[..k];
      VisitAllErrSticks(st, init, k);
    } else {
      assert ns[..k] == ns;
    }
  }

  //--------------------------------------------------------------------------
  // What the visitor computes

  /** Sensitivity trees of the awaits in a subtree. */
  function Sens(n: TNode): set<SenTree>
  {
    match n
    case Await(sen, _) => if sen.Some? then {sen.value} else {}
    case Ref(_, _) => {}
    case Other(children) => SensAll(children)
    case Fork(body) => SensAll(body)
    case Procedure(_, body) => SensAll(body)
  }

  function SensAll(ns: seq<TNode>): set<SenTree>
  {
    if ns == [] then {} else SensAll(ns[..|ns| - 1]) + Sens(ns[|ns| - 1])
  }

  /** Variables written inside a process while gathering: gathering is on in a
      suspendable process and anywhere inside a fork. */
  function Writes(n: TNode, gather: bool): set<nat>
  {
    match n
    case Await(_, _) => {}
    case Ref(v, write) => if gather && write then {v} else {}
    case Other(children) => WritesAll(children, gather)
    case Fork(body) => WritesAll(body, true)
    case Procedure(_, _) => {}
  }

  function WritesAll(ns: seq<TNode>, gather: bool): set<nat>
  {
    if ns == [] then {} else WritesAll(ns[..|ns| - 1], gather) + Writes(ns[|ns| - 1], gather)
  }

  /** One resume active per sensitivity tree, and `seen` marks exactly those. */
  ghost predicate ResumeInv(st: VState)
  {
    (forall i, j :: 0 <= i < j < |st.lbs| ==> st.lbs[i].sen != st.lbs[j].sen) &&
    (forall t :: t in st.seen <==> exists i :: 0 <= i < |st.lbs| && st.lbs[i].sen == t)
  }

  /** What visiting does to the resume actives: earlier ones are kept, every
      await's tree gets one, and never a second. */
  ghost predicate ResumesGrow(st: VState, st': VState, sens: set<SenTree>)
  {
    ResumeInv(st') && st.seen + sens <= st'.seen && |st.lbs| <= |st'.lbs| && st'.lbs[..|st.lbs|] == st.lbs
  }

  lemma AwaitResumes(st: VState, sen: SenTree, call: SchedCall)
    requires ResumeInv(st)
    ensures ResumesGrow(st, AwaitStep(st, sen, call), {sen})
  {
    var r := AwaitStep(st, sen, call);
    if sen !in st.seen {
      assert r.lbs[|st.lbs|].sen == sen;
      forall t | t in r.seen
        ensures exists i :: 0 <= i < |r.lbs| && r.lbs[i].sen == t
      {
        if t != sen {
          var i :| 0 <= i < |st.lbs| && st.lbs[i].sen == t;
          assert r.lbs[i].sen == t;
        }
      }
    }
  }

  lemma {:induction false} VisitResumes(st: VState, n: TNode)
    requires ResumeInv(st) && Visit(st, n).Ok?
    ensures ResumesGrow(st, Visit(st, n).value, Sens(n))
    decreases n, 1
  {
    match n
    case Await(sen, call) =>
      if sen.Some? {
        AwaitResumes(st, sen.value, call);
      }
    case Ref(_, _) =>
    case Other(children) => VisitAllResumes(st, children);
    case Fork(body) => VisitAllResumes(st.(gatherVars := st.inProcess || st.gatherVars), body);
    case Procedure(suspendable, body) => VisitAllResumes(st.(inProcess := true, gatherVars := suspendable), body);
  }

  lemma {:induction false} VisitAllResumes(st: VState, ns: seq<TNode>)
    requires ResumeInv(st) && VisitAll(st, ns).Ok?
    ensures ResumesGrow(st, VisitAll(st, ns).value, SensAll(ns))
    decreases ns, 0
  {
    if ns != [] {
      var init := ns[..|ns| - 1];
      VisitAllResumes(st, init);
      var st1 := VisitAll(st, init).value;
      VisitResumes(st1, ns[|ns| - 1]);
      var st2 := VisitAll(st, ns).value;
      assert st2.lbs[..|st1.lbs|][..|st.lbs|] == st2.lbs[..|st.lbs|];
    }
  }

  /** Inside a process the visitor only accumulates: its domains gain every
      await's tree and its written list every variable written while
      gathering; the outputs of earlier processes are untouched. */
  ghost predicate Accumulated(st: VState, st': VState, sens: set<SenTree>, writes: set<nat>)
  {
    st'.inProcess && st'.gatherVars == st.gatherVars &&
    st'.externalDomains == st.externalDomains && st'.suspendableWritten == st.suspendableWritten &&
    (forall t :: t in st'.processDomains <==> t in st.processDomains || t in sens) &&
    (forall v :: v in st'.written <==> v in st.written || v in writes) &&
    (NoDup(st.written) ==> NoDup(st'.written))
  }

  lemma {:induction false} VisitInProcess(st: VState, n: TNode)
    requires st.inProcess && Visit(st, n).Ok?
    ensures Accumulated(st, Visit(st, n).value, Sens(n), Writes(n, st.gatherVars))
    decreases n, 1
  {
    match n
    case Await(sen, call) =>
    case Ref(_, _) =>
    case Other(children) => VisitAllInProcess(st, children);
    case Fork(body) => VisitAllInProcess(st.(gatherVars := true), body);
    case Procedure(_, _) =>
  }

  lemma {:induction false} VisitAllInProcess(st: VState, ns: seq<TNode>)
    requires st.inProcess && VisitAll(st, ns).Ok?
    ensures Accumulated(st, VisitAll(st, ns).value, SensAll(ns), WritesAll(ns, st.gatherVars))
    decreases ns, 0
  {
    if ns != [] {
      var init := ns[..|ns| - 1];
      VisitAllInProcess(st, init);
      VisitInProcess(VisitAll(st, init).value, ns[|ns| - 1]);
    }
  }

  /** No process is under way and nothing is gathered. */
  predicate Quiet(st: VState)
  {
    !st.inProcess && !st.gatherVars && st.processDomains == [] && st.written == []
  }

  /** One procedure: every variable it writes while gathering is marked and
      gets every await tree of the procedure added to its domains, nothing
      else gains a domain, and the per-process state is empty again. */
  lemma ProcessDomains(st: VState, suspendable: bool, body: seq<TNode>)
    requires Quiet(st) && Visit(st, Procedure(suspendable, body)).Ok?
    ensures Quiet(Visit(st, Procedure(suspendable, body)).value)
    ensures var st' := Visit(st, Procedure(suspendable, body)).value;
      forall v :: v in WritesAll(body, suspendable) ==>
        v in st'.suspendableWritten && v in st'.externalDomains &&
        forall t :: t in SensAll(body) ==> t in st'.externalDomains[v]
    ensures var st' := Visit(st, Procedure(suspendable, body)).value;
      forall v :: v in st'.externalDomains ==> forall t :: t in st'.externalDomains[v] ==>
        t in Get(st.externalDomains, v) || t in SensAll(body)
    ensures var st' := Visit(st, Procedure(suspendable, body)).value;
      forall v :: v !in WritesAll(body, suspendable) ==>
        (v in st'.externalDomains <==> v in st.externalDomains) &&
        (v in st.externalDomains ==> st'.externalDomains[v] == st.externalDomains[v]) &&
        (v in st'.suspendableWritten <==> v in st.suspendableWritten)
  {
    var st0 := st.(inProcess := true, gatherVars := suspendable);
    VisitAllInProcess(st0, body);
    var st1 := VisitAll(st0, body).value;
    AddDomainsFacts(st1.externalDomains, st1.written, st1.processDomains);
    MarkAllFacts(st1.suspendableWritten, st1.written);
  }

  /** Outside procedures nothing is gathered: visiting from a quiet state
      leaves it quiet. */
  lemma {:induction false} VisitQuiet(st: VState, n: TNode)
    requires Quiet(st) && Visit(st, n).Ok?
    ensures Quiet(Visit(st, n).value)
    decreases n, 1
  {
    match n
    case Await(_, _) =>
    case Ref(_, _) =>
    case Other(children) => VisitAllQuiet(st, children);
    case Fork(body) => VisitAllQuiet(st, body);
    case Procedure(suspendable, body) => ProcessDomains(st, suspendable, body);
  }

  lemma {:induction false} VisitAllQuiet(st: VState, ns: seq<TNode>)
    requires Quiet(st) && VisitAll(st, ns).Ok?
    ensures Quiet(VisitAll(st, ns).value)
    decreases ns, 0
  {
    if ns != [] {
      VisitAllQuiet(st, ns[..|ns| - 1]);
      VisitQuiet(VisitAll(st, ns[..|ns| - 1]).value, ns[|ns| - 1]);
    }
  }

  /** The whole netlist: one resume active per await tree, and the visitor
      ends with no process under way. */
  lemma PrepareFacts(netlist: seq<TNode>)
    requires VisitAll(Start, netlist).Ok?
    ensures Quiet(VisitAll(Start, netlist).value)
    ensures ResumeInv(VisitAll(Start, netlist).value)
    ensures SensAll(netlist) == VisitAll(Start, netlist).value.seen
  {
    VisitAllQuiet(Start, netlist);
    VisitAllResumes(Start, netlist);
    VisitAllSeen(Start, netlist);
  }

  /** `seen` only ever gains await trees. */
  lemma {:induction false} VisitSeen(st: VState, n: TNode)
    requires Visit(st, n).Ok?
    ensures Visit(st, n).value.seen <= st.seen + Sens(n)
    decreases n, 1
  {
    match n
    case Await(_, _) =>
    case Ref(_, _) =>
    case Other(children) => VisitAllSeen(st, children);
    case Fork(body) => VisitAllSeen(st.(gatherVars := st.inProcess || st.gatherVars), body);
    case Procedure(suspendable, body) => VisitAllSeen(st.(inProcess := true, gatherVars := suspendable), body);
  }

  lemma {:induction false} VisitAllSeen(st: VState, ns: seq<TNode>)
    requires VisitAll(st, ns).Ok?
    ensures VisitAll(st, ns).value.seen <= st.seen + SensAll(ns)
    decreases ns, 0
  {
    if ns != [] {
      VisitAllSeen(st, ns[..|ns| - 1]);
      VisitSeen(VisitAll(st, ns[..|ns| - 1]).value, ns[|ns| - 1]);
    }
  }

  //--------------------------------------------------------------------------
  // The AwaitVisitor

  class AwaitVisitor {
    var inProcess: bool
    var gatherVars: bool
    var seen: set<SenTree>
    var processDomains: seq<SenTree>
    var writtenBySuspendable: seq<nat>
    var lbs: seq<TimingActive>
    var postUpdates: seq<SchedCall>
    var externalDomains: map<nat, seq<SenTree>>
    var suspendableWritten: set<nat>

    function State(): VState
      reads this
    {
      VState(inProcess, gatherVars, seen, processDomains, writtenBySuspendable,
             lbs, postUpdates, externalDomains, suspendableWritten)
    }

    constructor ()
      ensures State() == Start
    {
      inProcess, gatherVars, seen := false, false, {};
      processDomains, writtenBySuspendable := [], [];
      lbs, postUpdates, externalDomains, suspendableWritten := [], [], map[], {};
    }

    method CreateResumeActive(sen: SenTree, call: SchedCall)
      modifies this
      ensures State() == NewResume(old(State()), sen, call)
    {
      var resume := SchedCall(call.scheduler, call.kind, "resume", []);
      if call.kind.TriggerScheduler? {
        resume := resume.(pins := call.pins);
      } else if call.kind.DynamicTriggerScheduler? {
        postUpdates := postUpdates + [resume.(callee := "doPostUpdates")];
      }
      lbs := lbs + [TimingActive(sen, resume)];
    }

    /** The end of visit(AstNodeProcedure). */
    method FinishProcess()
      modifies this
      ensures State() == EndProcess(old(State()))
    {
      var ws, doms := writtenBySuspendable, processDomains;
      var ext, marked := externalDomains, suspendableWritten;
      var i := 0;
      while i < |ws|
        invariant 0 <= i <= |ws|
        invariant unchanged(this)
        invariant ext == AddDomains(externalDomains, ws[..i], doms)
        invariant marked == MarkAll(suspendableWritten, ws[..i])
      {
        var v := ws[i];
        TakeSnoc(ws, i);
        ext := ext[v := InsertAll(Get(ext, v), doms)];
        marked := marked + {v};
        i := i + 1;
      }
      assert ws[..i] == ws;
      externalDomains, suspendableWritten := ext, marked;
      processDomains, writtenBySuspendable := [], [];
      inProcess, gatherVars := false, false;
    }

    method VisitNode(n: TNode) returns (r: Result<()>)
      modifies this
      ensures Visit(old(State()), n).Err? ==> r == Err(Visit(old(State()), n).msg)
      ensures Visit(old(State()), n).Ok? ==> r == Ok(()) && State() == Visit(old(State()), n).value
      decreases n, 1
    {
      match n
      case Await(sen, call) =>
        if sen.Some? {
          if sen.value !in seen {
            seen := seen + {sen.value};
            CreateResumeActive(sen.value, call);
          }
          if inProcess && sen.value !in processDomains {
            processDomains := processDomains + [sen.value];
          }
        }
        r := Ok(());
      case Ref(v, write) =>
        if gatherVars && write && v !in writtenBySuspendable {
          writtenBySuspendable := writtenBySuspendable + [v];
        }
        r := Ok(());
      case Other(children) =>
        r := VisitChildren(children);
      case Fork(body) =>
        var saved := gatherVars;
        if inProcess {
          gatherVars := true;
        }
        r := VisitChildren(body);
        gatherVars := saved;
      case Procedure(suspendable, body) =>
        if inProcess || gatherVars || processDomains != [] || writtenBySuspendable != [] {
          return Err("Process in process?");
        }
        inProcess := true;
        gatherVars := suspendable;
        r := VisitChildren(body);
        if r.Ok? {
          FinishProcess();
        }
    }

    method VisitChildren(ns: seq<TNode>) returns (r: Result<()>)
      modifies this
      ensures VisitAll(old(State()), ns).Err? ==> r == Err(VisitAll(old(State()), ns).msg)
      ensures VisitAll(old(State()), ns).Ok? ==> r == Ok(()) && State() == VisitAll(old(State()), ns).value
      decreases ns, 0
    {
      ghost var st0 := State();
      var i := 0;
      while i < |ns|
        invariant 0 <= i <= |ns|
        invariant VisitAll(st0, ns[..i]) == Ok(State())
      {
        ghost var upTo := ns[..i + 1];
        assert upTo[..|upTo| - 1] == ns[..i] && upTo[|upTo| - 1] == ns[i];
        var ri := VisitNode(ns[i]);
        if ri.Err? {
          VisitAllErrSticks(st0, ns, i + 1);
          return ri;
        }
        i := i + 1;
      }
      assert ns[..i] == ns;
      r := Ok(());
    }
  }

  //--------------------------------------------------------------------------
  // TimingKit

  const ResumeName := "_timing_resume"
  const CommitName := "_timing_commit"

  /** A commit active: `commit(pins)` on a trigger scheduler under the negated
      sensitivity of its resume active. */
  datatype CommitActive = CommitActive(sen: SenTree, call: SchedCall)

  /** The resume active's sensitivity with its first item's expression negated;
      a sensitivity without items has nothing to negate. */
  function Negated(sen: SenTree): (r: Result<SenTree>)
    ensures r.Ok? <==> sen.items != []
    ensures r.Ok? ==> |r.value.items| == |sen.items| && r.value.items[1..] == sen.items[1..] &&
                      r.value.items[0] == sen.items[0].(expr := LogNot(sen.items[0].expr))
  {
    if sen.items == [] then Err("sensitivity without items")
    else Ok(sen.(items := [sen.items[0].(expr := LogNot(sen.items[0].expr))] + sen.items[1..]))
  }

  predicate IsTriggerActive(a: TimingActive)
  {
    a.call.kind.TriggerScheduler?
  }

  /** createCommit's check on one timing active. */
  predicate CommitAllowed(a: TimingActive)
  {
    !a.call.kind.OtherKind? && (IsTriggerActive(a) ==> a.sen.items != [])
  }

  /** The commit entry for a trigger scheduler's resume active. */
  function CommitFor(a: TimingActive): (c: CommitActive)
    requires a.sen.items != []
    ensures c.call == SchedCall(a.call.scheduler, a.call.kind, "commit", a.call.pins)
    ensures Ok(c.sen) == Negated(a.sen)
  {
    CommitActive(Negated(a.sen).value, SchedCall(a.call.scheduler, a.call.kind, "commit", a.call.pins))
  }

  /** The body of `_timing_commit`, built in the order of the timing actives. */
  function CommitEntries(lbs: seq<TimingActive>): Result<seq<CommitActive>>
  {
    if lbs == [] then Ok([])
    else
      match CommitEntries(lbs[..|lbs| - 1])
      case Err(m) => Err(m)
      case Ok(es) =>
        var a := lbs[|lbs| - 1];
        if a.call.kind.OtherKind? then Err("Unexpected type")
        else if !IsTriggerActive(a) then Ok(es)
        else if a.sen.items == [] then Err("sensitivity without items")
        else Ok(es + [CommitFor(a)])
  }

  /** The commit entries of a list of trigger actives. */
  function CommitsOf(ts: seq<TimingActive>): seq<CommitActive>
    requires forall i :: 0 <= i < |ts| ==> ts[i].sen.items != []
  {
    if ts == [] then [] else CommitsOf(ts[..|ts| - 1]) + [CommitFor(ts[|ts| - 1])]
  }

  /** createCommit fails exactly on an active it cannot handle, and otherwise
      makes one entry per trigger-scheduler active, in order, skipping delay
      and dynamic-trigger ones. */
  lemma {:induction false} CommitEntriesSpec(lbs: seq<TimingActive>)
    ensures CommitEntries(lbs).Ok? <==> forall i :: 0 <= i < |lbs| ==> CommitAllowed(lbs[i])
    ensures CommitEntries(lbs).Ok? ==>
      (forall i :: 0 <= i < |Filter(lbs, IsTriggerActive)| ==> Filter(lbs, IsTriggerActive)[i].sen.items != []) &&
      CommitEntries(lbs).value == CommitsOf(Filter(lbs, IsTriggerActive))
  {
    if lbs != [] {
      var init := lbs[..|lbs| - 1];
      var a := lbs[|lbs| - 1];
      CommitEntriesSpec(init);
      assert lbs == init + [a];
      FilterMembers(lbs, IsTriggerActive);
      if CommitEntries(lbs).Ok? {
        var ts := Filter(lbs, IsTriggerActive);
        if IsTriggerActive(a) {
          assert ts == Filter(init, IsTriggerActive) + [a];
          assert ts[..|ts| - 1] == Filter(init, IsTriggerActive) && ts[|ts| - 1] == a;
        } else {
          assert ts == Filter(init, IsTriggerActive);
        }
      }
    }
  }

  lemma {:induction false} CommitErrSticks(lbs: seq<TimingActive>, k: nat)
    requires k <= |lbs| && CommitEntries(lbs[..k]).Err?
    ensures CommitEntries(lbs) == CommitEntries(lbs[..k])
  {
    if k < |lbs| {
      var init := lbs[..|lbs| - 1];
      assert init[..k] == lbs[..k];
      CommitErrSticks(init, k);
    } else {
      assert lbs[..k] == lbs;
    }
  }

  /** Element-wise image of a domain list under the trigger map. */
  predicate RemappedList(ds: seq<SenTree>, trigMap: map<SenTree, SenTree>, out: seq<SenTree>)
  {
    |out| == |ds| && forall i :: 0 <= i < |ds| ==> ds[i] in trigMap && out[i] == trigMap[ds[i]]
  }

  class TimingKit {
    var lbs: seq<TimingActive>
    var postUpdates: seq<SchedCall>
    var externalDomains: map<nat, seq<SenTree>>
    /** The body of `_timing_resume` once it has been built. */
    var resumeFunc: Option<seq<TimingActive>>
    /** The body of `_timing_commit` once it has been built. */
    var commitFunc: Option<seq<CommitActive>>

    /** A built function holds what its creator put in it, and is never empty. */
    predicate Valid()
      reads this
    {
      (resumeFunc.Some? ==> resumeFunc.value == lbs && lbs != []) &&
      (commitFunc.Some? ==> CommitEntries(lbs) == Ok(commitFunc.value) && commitFunc.value != [])
    }

    constructor (lbs: seq<TimingActive>, postUpdates: seq<SchedCall>, externalDomains: map<nat, seq<SenTree>>)
      ensures this.lbs == lbs && this.postUpdates == postUpdates && this.externalDomains == externalDomains
      ensures resumeFunc.None? && commitFunc.None? && Valid()
    {
      this.lbs := lbs;
      this.postUpdates := postUpdates;
      this.externalDomains := externalDomains;
      resumeFunc := None;
      commitFunc := None;
    }

    /** remapDomains: every variable keeps its key, and its domain list is
        mapped element by element; a tree missing from the map is an error
        (`at`). */
    method RemapDomains(trigMap: map<SenTree, SenTree>) returns (r: Result<map<nat, seq<SenTree>>>)
      ensures r.Ok? <==> forall v, t :: v in externalDomains && t in externalDomains[v] ==> t in trigMap
      ensures r.Ok? ==> r.value.Keys == externalDomains.Keys &&
                        forall v :: v in r.value ==> RemappedList(externalDomains[v], trigMap, r.value[v])
    {
      var result: map<nat, seq<SenTree>> := map[];
      var keys := externalDomains.Keys;
      while keys != {}
        invariant keys <= externalDomains.Keys
        invariant result.Keys == externalDomains.Keys - keys
        invariant forall v :: v in result ==> RemappedList(externalDomains[v], trigMap, result[v])
        decreases keys
      {
        var v :| v in keys;
        var ds := externalDomains[v];
        var out: seq<SenTree> := [];
        var i := 0;
        while i < |ds|
          invariant 0 <= i <= |ds|
          invariant RemappedList(ds[..i], trigMap, out)
        {
          if ds[i] !in trigMap {
            return Err("map::at");
          }
          out := out + [trigMap[ds[i]]];
          i := i + 1;
        }
        assert ds[..i] == ds;
        result := result[v := out];
        keys := keys - {v};
      }
      r := Ok(result);
    }

    /** createResume: null without timing actives; otherwise `_timing_resume`
        is built on the first call, holding all timing actives, and every call
        targets it. */
    method CreateResume() returns (call: Option<string>)
      requires Valid()
      modifies this
      ensures Valid()
      ensures lbs == old(lbs) && postUpdates == old(postUpdates) && externalDomains == old(externalDomains)
      ensures commitFunc == old(commitFunc)
      ensures old(resumeFunc).None? && lbs == [] ==> call.None? && resumeFunc.None?
      ensures old(resumeFunc).Some? || lbs != [] ==> call == Some(ResumeName) && resumeFunc == Some(lbs)
    {
      if resumeFunc.None? {
        if lbs == [] {
          return None;
        }
        resumeFunc := Some(lbs);
      }
      call := Some(ResumeName);
    }

    /** createCommit: `_timing_commit` is built on the first call that finds a
        trigger scheduler; without one the result is null, and a scheduler of
        unexpected type is fatal. */
    method CreateCommit() returns (r: Result<Option<string>>)
      requires Valid()
      modifies this
      ensures Valid()
      ensures lbs == old(lbs) && postUpdates == old(postUpdates) && externalDomains == old(externalDomains)
      ensures resumeFunc == old(resumeFunc)
      ensures old(commitFunc).Some? ==> r == Ok(Some(CommitName)) && commitFunc == old(commitFunc)
      ensures old(commitFunc).None? && CommitEntries(lbs).Err? ==> r == Err(CommitEntries(lbs).msg)
      ensures old(commitFunc).None? && CommitEntries(lbs) == Ok([]) ==> r == Ok(None) && commitFunc.None?
      ensures old(commitFunc).None? && CommitEntries(lbs).Ok? && CommitEntries(lbs).value != [] ==>
                r == Ok(Some(CommitName)) && commitFunc == Some(CommitEntries(lbs).value)
    {
      if commitFunc.None? {
        var actives := lbs;
        var entries: seq<CommitActive> := [];
        var i := 0;
        while i < |actives|
          invariant 0 <= i <= |actives|
          invariant unchanged(this)
          invariant CommitEntries(actives[..i]) == Ok(entries)
        {
          var a := actives[i];
          ghost var upTo := actives[..i + 1];
          assert upTo[..|upTo| - 1] == actives[..i] && upTo[|upTo| - 1] == a;
          if a.call.kind.OtherKind? {
            CommitErrSticks(actives, i + 1);
            return Err("Unexpected type");
          }
          if a.call.kind.TriggerScheduler? {
            if a.sen.items == [] {
              CommitErrSticks(actives, i + 1);
              return Err("sensitivity without items");
            }
            entries := entries + [CommitFor(a)];
          }
          i := i + 1;
        }
        assert actives[..i] == actives;
        if entries == [] {
          return Ok(None);
        }
        commitFunc := Some(entries);
      }
      r := Ok(Some(CommitName));
    }
  }

  /** prepareTiming: without timing the kit is empty; otherwise the
      AwaitVisitor walks the netlist and hands over its outputs. */
  method PrepareTiming(usesTiming: bool, netlist: seq<TNode>) returns (r: Result<TimingKit>)
    ensures !usesTiming ==> r.Ok? && r.value.lbs == [] && r.value.postUpdates == [] && r.value.externalDomains == map[]
    ensures usesTiming ==> (r.Err? <==> VisitAll(Start, netlist).Err?)
    ensures usesTiming && r.Ok? ==>
      var st := VisitAll(Start, netlist).value;
      r.value.lbs == st.lbs && r.value.postUpdates == st.postUpdates && r.value.externalDomains == st.externalDomains
    ensures r.Ok? ==> fresh(r.value) && r.value.Valid() && r.value.resumeFunc.None? && r.value.commitFunc.None?
  {
    if !usesTiming {
      var kit := new TimingKit([], [], map[]);
      return Ok(kit);
    }
    var visitor := new AwaitVisitor();
    var res := visitor.VisitChildren(netlist);
    if res.Err? {
      return Err(res.msg);
    }
    var kit := new TimingKit(visitor.lbs, visitor.postUpdates, visitor.externalDomains);
    r := Ok(kit);
  }
}

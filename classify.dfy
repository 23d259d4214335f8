/** gatherLogicClasses: every non-empty AstActive of every scope is put in the
    one logic class its sensitivity (and, for some, its first statement)
    selects; empty actives are deleted. */
module Classify {
  import opened Wrappers
  import opened SchedTypes
  import opened SeqUtil

  datatype LogicClass =
    | StaticClass | InitialClass | FinalClass | CombClass
    | PostponedClass | ObservedClass | ReactiveClass | ClockedClass

  /** The LogicClasses lists that this pass fills (`m_hybrid` is filled later
      by cycle breaking). */
  datatype LogicClasses = LogicClasses(
    staticLogic: LogicByScope, initialLogic: LogicByScope, finalLogic: LogicByScope, combLogic: LogicByScope,
    postponedLogic: LogicByScope, observedLogic: LogicByScope, reactiveLogic: LogicByScope, clockedLogic: LogicByScope)

  const NoClasses := LogicClasses([], [], [], [], [], [], [], [])

  /** A scope of the netlist with the actives under it, in traversal order. */
  datatype ScopeNode = ScopeNode(scope: Scope, actives: seq<Active>)

  /** VN_IS(activep->stmtsp(), <kind>): the first statement is a procedure of that kind. */
  predicate FirstIs(a: Active, kind: ProcKind)
  {
    a.stmts != [] && a.stmts[0].Proc? && a.stmts[0].kind == kind
  }

  /** Sensitivities that select a class regardless of clocking. */
  predicate Special(t: SenTree)
  {
    t.HasStatic() || t.HasInitial() || t.HasFinal() || t.HasCombo()
  }

  /** The class of one non-empty active, tested in the source's order. */
  function Classify(a: Active): Result<LogicClass>
    requires a.stmts != []
  {
    var t := a.sen;
    if t.HasStatic() then
      if |t.items| != 1 then Err("static initializer with additional sensitivities") else Ok(StaticClass)
    else if t.HasInitial() then
      if |t.items| != 1 then Err("'initial' logic with additional sensitivities") else Ok(InitialClass)
    else if t.HasFinal() then
      if |t.items| != 1 then Err("'final' logic with additional sensitivities") else Ok(FinalClass)
    else if t.HasCombo() then
      if |t.items| != 1 then Err("combinational logic with additional sensitivities")
      else if FirstIs(a, AlwaysPostponed) then Ok(PostponedClass)
      else Ok(CombClass)
    else if !t.HasClocked() then Err("What else could it be?")
    else if FirstIs(a, AlwaysObserved) then Ok(ObservedClass)
    else if FirstIs(a, AlwaysReactive) then Ok(ReactiveClass)
    else Ok(ClockedClass)
  }

  /** The decision table of gatherLogicClasses: static beats initial beats
      final beats combinational; those four must be alone in their sensitivity;
      anything else must be clocked, and is then split by its first statement. */
  lemma ClassifyPrecedence(a: Active)
    requires a.stmts != []
    ensures Classify(a).Err? <==> (Special(a.sen) && |a.sen.items| != 1) || (!Special(a.sen) && !a.sen.HasClocked())
    ensures Classify(a) == Ok(StaticClass) <==> a.sen.HasStatic() && |a.sen.items| == 1
    ensures Classify(a) == Ok(InitialClass) <==> !a.sen.HasStatic() && a.sen.HasInitial() && |a.sen.items| == 1
    ensures Classify(a) == Ok(FinalClass) <==>
              !a.sen.HasStatic() && !a.sen.HasInitial() && a.sen.HasFinal() && |a.sen.items| == 1
    ensures Classify(a) == Ok(PostponedClass) <==>
              !a.sen.HasStatic() && !a.sen.HasInitial() && !a.sen.HasFinal() && a.sen.HasCombo() &&
              |a.sen.items| == 1 && FirstIs(a, AlwaysPostponed)
    ensures Classify(a) == Ok(CombClass) <==>
              !a.sen.HasStatic() && !a.sen.HasInitial() && !a.sen.HasFinal() && a.sen.HasCombo() &&
              |a.sen.items| == 1 && !FirstIs(a, AlwaysPostponed)
    ensures Classify(a) == Ok(ObservedClass) <==> !Special(a.sen) && a.sen.HasClocked() && FirstIs(a, AlwaysObserved)
    ensures Classify(a) == Ok(ReactiveClass) <==> !Special(a.sen) && a.sen.HasClocked() && FirstIs(a, AlwaysReactive)
    ensures Classify(a) == Ok(ClockedClass) <==>
              !Special(a.sen) && a.sen.HasClocked() && !FirstIs(a, AlwaysObserved) && !FirstIs(a, AlwaysReactive)
  {
  }

  function ClassList(lc: LogicClasses, c: LogicClass): LogicByScope
  {
    match c
    case StaticClass => lc.staticLogic
    case InitialClass => lc.initialLogic
    case FinalClass => lc.finalLogic
    case CombClass => lc.combLogic
    case PostponedClass => lc.postponedLogic
    case ObservedClass => lc.observedLogic
    case ReactiveClass => lc.reactiveLogic
    case ClockedClass => lc.clockedLogic
  }

  /** `emplace_back` onto the list of class `c`. */
  function Add(lc: LogicClasses, c: LogicClass, x: ScopedActive): (r: LogicClasses)
    ensures forall d :: ClassList(r, d) == ClassList(lc, d) + (if d == c then [x] else [])
  {
    match c
    case StaticClass => lc.(staticLogic := lc.staticLogic + [x])
    case InitialClass => lc.(initialLogic := lc.initialLogic + [x])
    case FinalClass => lc.(finalLogic := lc.finalLogic + [x])
    case CombClass => lc.(combLogic := lc.combLogic + [x])
    case PostponedClass => lc.(postponedLogic := lc.postponedLogic + [x])
    case ObservedClass => lc.(observedLogic := lc.observedLogic + [x])
    case ReactiveClass => lc.(reactiveLogic := lc.reactiveLogic + [x])
    case ClockedClass => lc.(clockedLogic := lc.clockedLogic + [x])
  }

  function TotalSize(lc: LogicClasses): nat
  {
    |lc.staticLogic| + |lc.initialLogic| + |lc.finalLogic| + |lc.combLogic| +
    |lc.postponedLogic| + |lc.observedLogic| + |lc.reactiveLogic| + |lc.clockedLogic|
  }

  predicate NonEmpty(x: ScopedActive) { x.active.stmts != [] }

  /** An active that has statements (empty ones are deleted). */
  predicate HasStmts(a: Active) { a.stmts != [] }

  /** The (scope, active) pairs of one scope, in order. */
  function ScopeEntries(n: ScopeNode): (r: seq<ScopedActive>)
    ensures |r| == |n.actives|
    decreases |n.actives|
  {
    if n.actives == [] then []
    else
      var init := n.(actives := n.actives[..|n.actives| - 1]);
      ScopeEntries(init) + [ScopedActive(n.scope, n.actives[|n.actives| - 1])]
  }

  /** The (scope, active) pairs of the whole netlist, scope after scope. */
  function Entries(netlist: seq<ScopeNode>): seq<ScopedActive>
  {
    if netlist == [] then [] else Entries(netlist[..|netlist| - 1]) + ScopeEntries(netlist[|netlist| - 1])
  }

  /** The classes after visiting the pairs `xs` in order; the first fatal one stops compilation. */
  function GatherSpec(xs: seq<ScopedActive>): Result<LogicClasses>
  {
    if xs == [] then Ok(NoClasses)
    else
      var prev := GatherSpec(xs[..|xs| - 1]);
      var x := xs[|xs| - 1];
      if prev.Err? || x.active.stmts == [] then prev
      else
        match Classify(x.active)
        case Err(m) => Err(m)
        case Ok(c) => Ok(Add(prev.value, c, x))
  }

  /** A scope with its empty actives deleted. */
  function Pruned(n: ScopeNode): ScopeNode
  {
    n.(actives := Filter(n.actives, HasStmts))
  }

  lemma {:induction false} GatherErrSticks(xs: seq<ScopedActive>, n: nat)
    requires n <= |xs| && GatherSpec(xs[..n]).Err?
    ensures GatherSpec(xs) == GatherSpec(xs[..n])
    decreases |xs|
  {
    if n < |xs| {
      var init := xs[..|xs| - 1];
      assert init[..n] == xs[..n];
      GatherErrSticks(init, n);
    } else {
      assert xs[..n] == xs;
    }
  }

  /** Classification fails exactly when some non-empty active cannot be classified. */
  lemma {:induction false} GatherOk(xs: seq<ScopedActive>)
    ensures GatherSpec(xs).Ok? <==>
            forall k :: 0 <= k < |xs| && xs[k].active.stmts != [] ==> Classify(xs[k].active).Ok?
  {
    if xs != [] {
      var init := xs[..|xs| - 1];
      GatherOk(init);
      assert forall k :: 0 <= k < |init| ==> init[k] == xs[k];
    }
  }

  /** Each class receives exactly the non-empty actives classified into it, in
      traversal order. */
  lemma {:induction false} GatherIsFilter(xs: seq<ScopedActive>, c: LogicClass)
    requires GatherSpec(xs).Ok?
    ensures ClassList(GatherSpec(xs).value, c) ==
            Filter(xs, (x: ScopedActive) => x.active.stmts != [] && Classify(x.active) == Ok(c))
  {
    if xs != [] {
      GatherIsFilter(xs[..|xs| - 1], c);
    }
  }

  /** Each `emplace_back` adds one to the total. */
  lemma AddTotal(lc: LogicClasses, c: LogicClass, x: ScopedActive)
    ensures TotalSize(Add(lc, c, x)) == TotalSize(lc) + 1
  {
    match c
    case StaticClass =>
    case InitialClass =>
    case FinalClass =>
    case CombClass =>
    case PostponedClass =>
    case ObservedClass =>
    case ReactiveClass =>
    case ClockedClass =>
  }

  /** The classes partition the non-empty actives: nothing is lost or duplicated. */
  lemma {:induction false} GatherPartition(xs: seq<ScopedActive>)
    requires GatherSpec(xs).Ok?
    ensures TotalSize(GatherSpec(xs).value) == |Filter(xs, NonEmpty)|
  {
    if xs != [] {
      var init := xs[..|xs| - 1];
      GatherPartition(init);
      var x := xs[|xs| - 1];
      if x.active.stmts != [] {
        AddTotal(GatherSpec(init).value, Classify(x.active).value, x);
      }
    }
  }

  /** The inner `scopep->foreach` over one scope's actives: non-empty ones are
      classified, empty ones are collected for deletion. */
  method GatherScope(n: ScopeNode, ghost before: seq<ScopedActive>, acc: LogicClasses)
    returns (r: Result<LogicClasses>, kept: seq<Active>)
    requires GatherSpec(before) == Ok(acc)
    ensures r == GatherSpec(before + ScopeEntries(n))
    ensures r.Ok? ==> kept == Filter(n.actives, HasStmts)
  {
    var lc := acc;
    kept := [];
    assert n.(actives := n.actives[..0]).actives == [];
    assert before + [] == before;
    for j := 0 to |n.actives|
      invariant GatherSpec(before + ScopeEntries(n.(actives := n.actives[..j]))) == Ok(lc)
      invariant kept == Filter(n.actives[..j], HasStmts)
    {
      var a := n.actives[j];
      GatherScopeStep(n, before, j);
      if a.stmts == [] {
        // deleted once the scope has been visited
      } else {
        var c := Classify(a);
        if c.Err? {
          ScopeErrSticks(n, before, j);
          return Err(c.msg), kept;
        }
        lc := Add(lc, c.value, ScopedActive(n.scope, a));
        kept := kept + [a];
      }
    }
    assert n.(actives := n.actives[..|n.actives|]) == n;
    r := Ok(lc);
  }

  /** One more active of the scope: one more pair for the specification, and
      one more element for the kept list when it is non-empty. */
  lemma GatherScopeStep(n: ScopeNode, before: seq<ScopedActive>, j: nat)
    requires j < |n.actives|
    ensures var s := before + ScopeEntries(n.(actives := n.actives[..j]));
            var x := ScopedActive(n.scope, n.actives[j]);
            var prev := GatherSpec(s);
            GatherSpec(before + ScopeEntries(n.(actives := n.actives[..j + 1]))) ==
              if prev.Err? || x.active.stmts == [] then prev
              else match Classify(x.active)
                case Err(m) => Err(m)
                case Ok(c) => Ok(Add(prev.value, c, x))
    ensures Filter(n.actives[..j + 1], HasStmts) ==
            Filter(n.actives[..j], HasStmts) + (if n.actives[j].stmts != [] then [n.actives[j]] else [])
  {
    var s := before + ScopeEntries(n.(actives := n.actives[..j]));
    var x := ScopedActive(n.scope, n.actives[j]);
    assert n.actives[..j + 1][..j] == n.actives[..j];
    assert before + ScopeEntries(n.(actives := n.actives[..j + 1])) == s + [x];
    assert (s + [x])[..|s|] == s;
  }

  /** A failure within a scope is the failure of the whole scope. */
  lemma ScopeErrSticks(n: ScopeNode, before: seq<ScopedActive>, j: nat)
    requires j < |n.actives|
    requires GatherSpec(before + ScopeEntries(n.(actives := n.actives[..j + 1]))).Err?
    ensures GatherSpec(before + ScopeEntries(n)) == GatherSpec(before + ScopeEntries(n.(actives := n.actives[..j + 1])))
  {
    var seen := before + ScopeEntries(n.(actives := n.actives[..j + 1]));
    assert n.actives == n.actives[..j + 1] + n.actives[j + 1..];
    ScopeEntriesAppend(n.(actives := n.actives[..j + 1]), n.actives[j + 1..]);
    assert (before + ScopeEntries(n))[..|seen|] == seen;
    GatherErrSticks(before + ScopeEntries(n), |seen|);
  }

  lemma {:induction false} ScopeEntriesAppend(n: ScopeNode, more: seq<Active>)
    ensures ScopeEntries(n.(actives := n.actives + more)) == ScopeEntries(n) + ScopeEntries(n.(actives := more))
    decreases |more|
  {
    if more == [] {
      assert n.actives + more == n.actives;
      assert n.(actives := n.actives + more) == n;
    } else {
      var m' := more[..|more| - 1];
      ScopeEntriesAppend(n, m');
      assert (n.actives + more)[..|n.actives + more| - 1] == n.actives + m';
      assert (n.actives + more)[|n.actives + more| - 1] == more[|more| - 1];
    }
  }

  /** gatherLogicClasses: visits every scope, then every active under it. */
  method GatherLogicClasses(netlist: seq<ScopeNode>) returns (r: Result<(LogicClasses, seq<ScopeNode>)>)
    ensures r.Err? <==> GatherSpec(Entries(netlist)).Err?
    ensures r.Err? ==> r.msg == GatherSpec(Entries(netlist)).msg
    ensures r.Ok? ==> r.value.0 == GatherSpec(Entries(netlist)).value
    ensures r.Ok? ==> |r.value.1| == |netlist| && forall i :: 0 <= i < |netlist| ==> r.value.1[i] == Pruned(netlist[i])
  {
    var lc := NoClasses;
    var pruned: seq<ScopeNode> := [];
    for i := 0 to |netlist|
      invariant GatherSpec(Entries(netlist[..i])) == Ok(lc)
      invariant |pruned| == i && forall k :: 0 <= k < i ==> pruned[k] == Pruned(netlist[k])
    {
      assert netlist[..i + 1][..i] == netlist[..i];
      assert Entries(netlist[..i + 1]) == Entries(netlist[..i]) + ScopeEntries(netlist[i]);
      var res, kept := GatherScope(netlist[i], Entries(netlist[..i]), lc);
      if res.Err? {
        EntriesPrefix(netlist, i + 1);
        GatherErrSticks(Entries(netlist), |Entries(netlist[..i + 1])|);
        return Err(res.msg);
      }
      lc := res.value;
      pruned := pruned + [netlist[i].(actives := kept)];
    }
    assert netlist[..|netlist|] == netlist;
    r := Ok((lc, pruned));
  }

  lemma {:induction false} EntriesPrefix(netlist: seq<ScopeNode>, n: nat)
    requires n <= |netlist|
    ensures |Entries(netlist[..n])| <= |Entries(netlist)|
    ensures Entries(netlist)[..|Entries(netlist[..n])|] == Entries(netlist[..n])
    decreases |netlist|
  {
    if n < |netlist| {
      var init := netlist[..|netlist| - 1];
      assert init[..n] == netlist[..n];
      EntriesPrefix(init, n);
    } else {
      assert netlist[..n] == netlist;
    }
  }
}

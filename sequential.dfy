/** Source-order emission of the static, initial, final and postponed logic
    (orderSequentially) and the entry points made from it. */
module Sequential {
  import opened Wrappers
  import opened SchedTypes
  import opened Classify
  import opened SeqUtil
  import opened Split

  //--------------------------------------------------------------------------
  // Entry points

  /** makeTopFunction: an empty, non-coroutine function in the top scope. */
  function MakeTopFunction(topScope: Scope, name: string, slow: bool): CFunc
  {
    CFunc(name, topScope, [], slow, false)
  }

  //--------------------------------------------------------------------------
  // orderSequentially

  /** The state orderSequentially updates: the top function, the functions it
      created (in creation order), the per-scope sub-function cache (`user1p`,
      as an index into `subs`) and the per-scope coroutine counter (`user2`). */
  datatype OrderState = OrderState(top: CFunc, subs: seq<CFunc>, subOf: map<Scope, nat>, counter: map<Scope, nat>)

  predicate Valid(st: OrderState)
  {
    forall s :: s in st.subOf ==> st.subOf[s] < |st.subs|
  }

  /** `<top>__<scope name>`, the name of a scope's sub-function. */
  function SubName(top: CFunc, scope: Scope): string
  {
    top.name + "__" + scope.nameDotless
  }

  function Counter(st: OrderState, scope: Scope): nat
  {
    if scope in st.counter then st.counter[scope] else 0
  }

  /** createNewSubFuncp: a function for `scope`, called from the top function. */
  function NewSub(st: OrderState, scope: Scope, name: string, coroutine: bool, stmts: seq<Stmt>): (r: OrderState)
    ensures r.subOf == st.subOf && |r.subs| == |st.subs| + 1
  {
    var f := CFunc(name, scope, stmts, st.top.slow, coroutine);
    st.(top := st.top.(stmts := st.top.stmts + [Call(name)]), subs := st.subs + [f])
  }

  function AppendTo(subs: seq<CFunc>, k: nat, ss: seq<Stmt>): (r: seq<CFunc>)
    requires k < |subs|
    ensures |r| == |subs|
  {
    subs[k := subs[k].(stmts := subs[k].stmts + ss)]
  }

  /** One statement of an active under `scope`. A procedure gives up its body:
      a suspendable one to a new coroutine `<sub>__<n>` (its body looped forever
      when it is an `always`), making the top function non-slow; any other to
      the scope's sub-function, as do all statements that are not procedures. */
  function EmitStmt(st: OrderState, scope: Scope, s: Stmt): (r: OrderState)
    requires Valid(st) && scope in st.subOf
    ensures Valid(r) && r.subOf == st.subOf
  {
    match s
    case Proc(kind, suspendable, body) =>
      if body == [] then st
      else if suspendable then
        var n := Counter(st, scope);
        var st1 := st.(top := st.top.(slow := false), counter := st.counter[scope := n + 1]);
        NewSub(st1, scope, Numbered(SubName(st.top, scope), n), true,
               if kind == Always then [WhileTrue(body)] else body)
      else st.(subs := AppendTo(st.subs, st.subOf[scope], body))
    case _ => st.(subs := AppendTo(st.subs, st.subOf[scope], [s]))
  }

  function EmitStmts(st: OrderState, scope: Scope, ss: seq<Stmt>): (r: OrderState)
    requires Valid(st) && scope in st.subOf
    ensures Valid(r) && r.subOf == st.subOf
  {
    if ss == [] then st else EmitStmt(EmitStmts(st, scope, ss[..|ss| - 1]), scope, ss[|ss| - 1])
  }

  /** The sub-function of the scope, created on first use. */
  function EnsureSub(st: OrderState, scope: Scope): (r: OrderState)
    requires Valid(st)
    ensures Valid(r) && scope in r.subOf
  {
    if scope in st.subOf then st
    else
      var st1 := NewSub(st, scope, SubName(st.top, scope), false, []);
      st1.(subOf := st.subOf[scope := |st.subs|])
  }

  /** orderSequentially after the pairs `lbs`, in order. */
  function OrderSpec(top: CFunc, lbs: LogicByScope): (r: OrderState)
    ensures Valid(r)
  {
    if lbs == [] then OrderState(top, [], map[], map[])
    else
      var prev := OrderSpec(top, lbs[..|lbs| - 1]);
      var x := lbs[|lbs| - 1];
      EmitStmts(EnsureSub(prev, x.scope), x.scope, x.active.stmts)
  }

  /** orderSequentially: the inner loop over one active's statements, with the
      scope's sub-function re-read from the cache for every statement. */
  method EmitActive(st0: OrderState, scope: Scope, stmts: seq<Stmt>) returns (st: OrderState)
    requires Valid(st0) && scope in st0.subOf
    ensures st == EmitStmts(st0, scope, stmts)
    ensures CacheScoped(st0) ==>
      CacheScoped(st) &&
      (forall s :: s in st.subOf ==>
         st.subs[st.subOf[s]].stmts == st0.subs[st0.subOf[s]].stmts + (if s == scope then PlacedAll(stmts) else [])) &&
      CoParts(st.subs) == CoParts(st0.subs) + CoMadeAll(scope, stmts)
  {
    var top, subs, subOf, counter := st0.top, st0.subs, st0.subOf, st0.counter;
    for j := 0 to |stmts|
      invariant OrderState(top, subs, subOf, counter) == EmitStmts(st0, scope, stmts[..j])
    {
      assert stmts[..j + 1][..j] == stmts[..j];
      var sub := subOf[scope];
      match stmts[j]
      case Proc(kind, suspendable, body) =>
        if body != [] {
          if suspendable {
            top := top.(slow := false);
            var n := if scope in counter then counter[scope] else 0;
            counter := counter[scope := n + 1];
            var name := Numbered(top.name + "__" + scope.nameDotless, n);
            var coBody := body;
            if kind == Always {
              coBody := [WhileTrue(body)];
            }
            subs := subs + [CFunc(name, scope, coBody, top.slow, true)];
            top := top.(stmts := top.stmts + [Call(name)]);
          } else {
            subs := subs[sub := subs[sub].(stmts := subs[sub].stmts + body)];
          }
        }
      case _ =>
        subs := subs[sub := subs[sub].(stmts := subs[sub].stmts + [stmts[j]])];
    }
    assert stmts[..|stmts|] == stmts;
    st := OrderState(top, subs, subOf, counter);
    if CacheScoped(st0) {
      EmitStmtsPlaced(st0, scope, stmts);
    }
  }

  /** orderSequentially: the actives are visited in order; a scope's sub-function
      is created (and called from the top function) the first time the scope is seen. */
  method OrderSequentially(top: CFunc, lbs: LogicByScope) returns (st: OrderState)
    ensures st == OrderSpec(top, lbs)
    ensures PlacedBy(lbs, st) && Good(top, st)
  {
    st := OrderState(top, [], map[], map[]);
    for i := 0 to |lbs|
      invariant st == OrderSpec(top, lbs[..i])
    {
      assert lbs[..i + 1][..i] == lbs[..i];
      var scope := lbs[i].scope;
      if scope !in st.subOf {
        var name := st.top.name + "__" + scope.nameDotless;
        var f := CFunc(name, scope, [], st.top.slow, false);
        st := OrderState(st.top.(stmts := st.top.stmts + [Call(name)]), st.subs + [f],
                         st.subOf[scope := |st.subs|], st.counter);
      }
      st := EmitActive(st, scope, lbs[i].active.stmts);
    }
    assert lbs[..|lbs|] == lbs;
    OrderSpecPlaced(top, lbs);
    OrderSpecGood(top, lbs);
  }

  //--------------------------------------------------------------------------
  // Invariants of orderSequentially

  /** How many coroutines `subs` holds for `scope`. */
  function CoCount(subs: seq<CFunc>, scope: Scope): nat
  {
    if subs == [] then 0
    else CoCount(subs[..|subs| - 1], scope) + (if subs[|subs| - 1].coroutine && subs[|subs| - 1].scope == scope then 1 else 0)
  }

  predicate AnyCoroutine(subs: seq<CFunc>)
  {
    exists k :: 0 <= k < |subs| && subs[k].coroutine
  }

  /** The top function calls every created function once, in creation order,
      and is slow only if it started slow and no coroutine was made. */
  predicate TopCallsAll(top0: CFunc, st: OrderState)
  {
    st.top == top0.(stmts := top0.stmts + CallsTo(st.subs), slow := top0.slow && !AnyCoroutine(st.subs))
  }

  /** Each cached scope's function is the plain `<top>__<scope>` one. */
  predicate CacheNamed(top0: CFunc, st: OrderState)
    requires Valid(st)
  {
    forall s :: s in st.subOf ==>
      st.subs[st.subOf[s]].name == SubName(top0, s) && st.subs[st.subOf[s]].scope == s && !st.subs[st.subOf[s]].coroutine
  }

  /** Every plain function is the cached one of its scope: one per scope. */
  predicate PlainCached(st: OrderState)
  {
    forall k :: 0 <= k < |st.subs| && !st.subs[k].coroutine ==>
      st.subs[k].scope in st.subOf && st.subOf[st.subs[k].scope] == k
  }

  /** The n-th coroutine of a scope is `<top>__<scope>__<n>` and not slow. */
  ghost predicate CoroutinesNamed(top0: CFunc, subs: seq<CFunc>)
  {
    forall k :: 0 <= k < |subs| && subs[k].coroutine ==>
      !subs[k].slow && subs[k].name == Numbered(SubName(top0, subs[k].scope), CoCount(subs[..k], subs[k].scope))
  }

  /** A scope's counter is the number of its coroutines. */
  ghost predicate CountersMatch(st: OrderState)
  {
    forall s :: Counter(st, s) == CoCount(st.subs, s)
  }

  /** What orderSequentially keeps true, starting from the top function `top0`. */
  ghost predicate Good(top0: CFunc, st: OrderState)
  {
    Valid(st) && TopCallsAll(top0, st) && CacheNamed(top0, st) && PlainCached(st) &&
    CoroutinesNamed(top0, st.subs) && CountersMatch(st)
  }

  lemma CoCountSnoc(subs: seq<CFunc>, f: CFunc, scope: Scope)
    ensures CoCount(subs + [f], scope) == CoCount(subs, scope) + (if f.coroutine && f.scope == scope then 1 else 0)
  {
    assert (subs + [f])[..|subs|] == subs;
  }

  /** Same function apart from its statements. */
  predicate SameShape(f: CFunc, g: CFunc)
  {
    f.name == g.name && f.scope == g.scope && f.slow == g.slow && f.coroutine == g.coroutine
  }

  lemma {:induction false} CoCountSame(fs: seq<CFunc>, gs: seq<CFunc>, s: Scope)
    requires |fs| == |gs| && forall i :: 0 <= i < |fs| ==> SameShape(fs[i], gs[i])
    ensures CoCount(fs, s) == CoCount(gs, s)
  {
    if fs != [] {
      CoCountSame(fs[..|fs| - 1], gs[..|gs| - 1], s);
    }
  }

  /** Appending statements to a function changes no name, scope or flag. */
  lemma AppendToKeeps(subs: seq<CFunc>, k: nat, ss: seq<Stmt>)
    requires k < |subs|
    ensures forall i :: 0 <= i < |subs| ==> SameShape(AppendTo(subs, k, ss)[i], subs[i])
    ensures CallsTo(AppendTo(subs, k, ss)) == CallsTo(subs)
    ensures forall s :: CoCount(AppendTo(subs, k, ss), s) == CoCount(subs, s)
    ensures AnyCoroutine(AppendTo(subs, k, ss)) == AnyCoroutine(subs)
  {
    var r := AppendTo(subs, k, ss);
    assert forall i :: 0 <= i < |subs| ==> SameShape(r[i], subs[i]);
    CallsToSameNames(r, subs);
    forall s
      ensures CoCount(r, s) == CoCount(subs, s)
    {
      CoCountSame(r, subs, s);
    }
    if AnyCoroutine(subs) {
      var i :| 0 <= i < |subs| && subs[i].coroutine;
      assert r[i].coroutine;
    }
  }

  lemma CallsToSnoc(fs: seq<CFunc>, f: CFunc)
    ensures CallsTo(fs + [f]) == CallsTo(fs) + [Call(f.name)]
  {
    assert (fs + [f])[..|fs|] == fs;
  }

  lemma AnyCoroutineSnoc(subs: seq<CFunc>, f: CFunc)
    ensures AnyCoroutine(subs + [f]) == (AnyCoroutine(subs) || f.coroutine)
  {
    if AnyCoroutine(subs) {
      var k :| 0 <= k < |subs| && subs[k].coroutine;
      assert (subs + [f])[k].coroutine;
    }
    if f.coroutine {
      assert (subs + [f])[|subs|].coroutine;
    }
    if AnyCoroutine(subs + [f]) && !f.coroutine {
      var k :| 0 <= k < |subs| + 1 && (subs + [f])[k].coroutine;
      assert subs[k].coroutine;
    }
  }

  /** A new function keeps the coroutines named when it is plain, or is the next coroutine of its scope. */
  lemma CoroutinesNamedSnoc(top0: CFunc, subs: seq<CFunc>, f: CFunc)
    requires CoroutinesNamed(top0, subs)
    requires f.coroutine ==> !f.slow && f.name == Numbered(SubName(top0, f.scope), CoCount(subs, f.scope))
    ensures CoroutinesNamed(top0, subs + [f])
  {
    var r := subs + [f];
    forall k | 0 <= k < |r| && r[k].coroutine
      ensures !r[k].slow && r[k].name == Numbered(SubName(top0, r[k].scope), CoCount(r[..k], r[k].scope))
    {
      if k < |subs| {
        assert r[..k] == subs[..k];
      } else {
        assert r[..k] == subs;
      }
    }
  }

  /** Same shapes keep the coroutines named. */
  lemma CoroutinesNamedSame(top0: CFunc, subs: seq<CFunc>, r: seq<CFunc>)
    requires CoroutinesNamed(top0, subs)
    requires |r| == |subs| && forall i :: 0 <= i < |subs| ==> SameShape(r[i], subs[i])
    ensures CoroutinesNamed(top0, r)
  {
    forall k | 0 <= k < |r| && r[k].coroutine
      ensures !r[k].slow && r[k].name == Numbered(SubName(top0, r[k].scope), CoCount(r[..k], r[k].scope))
    {
      CoCountSame(r[..k], subs[..k], r[k].scope);
    }
  }

  /** A suspendable procedure with a body: a new coroutine. */
  lemma EmitCoroutineGood(top0: CFunc, st: OrderState, scope: Scope, s: Stmt)
    requires Good(top0, st) && scope in st.subOf
    requires s.Proc? && s.body != [] && s.suspendable
    ensures Good(top0, EmitStmt(st, scope, s))
  {
    var r := EmitStmt(st, scope, s);
    var f := r.subs[|st.subs|];
    assert r.subs == st.subs + [f];
    assert f.coroutine && f.scope == scope && !f.slow;
    CallsToSnoc(st.subs, f);
    AnyCoroutineSnoc(st.subs, f);
    CoroutinesNamedSnoc(top0, st.subs, f);
    forall t
      ensures Counter(r, t) == CoCount(r.subs, t)
    {
      CoCountSnoc(st.subs, f, t);
    }
    assert TopCallsAll(top0, r);
  }

  /** Any other statement: appended to the scope's function. */
  lemma EmitAppendGood(top0: CFunc, st: OrderState, scope: Scope, ss: seq<Stmt>)
    requires Good(top0, st) && scope in st.subOf
    ensures Good(top0, st.(subs := AppendTo(st.subs, st.subOf[scope], ss)))
  {
    var r := st.(subs := AppendTo(st.subs, st.subOf[scope], ss));
    AppendToKeeps(st.subs, st.subOf[scope], ss);
    CoroutinesNamedSame(top0, st.subs, r.subs);
    assert TopCallsAll(top0, r);
    assert CacheNamed(top0, r) by {
      forall t | t in r.subOf
        ensures r.subs[r.subOf[t]].name == SubName(top0, t) && r.subs[r.subOf[t]].scope == t
        ensures !r.subs[r.subOf[t]].coroutine
      {
        assert SameShape(r.subs[r.subOf[t]], st.subs[st.subOf[t]]);
      }
    }
    assert PlainCached(r) by {
      forall k | 0 <= k < |r.subs| && !r.subs[k].coroutine
        ensures r.subs[k].scope in r.subOf && r.subOf[r.subs[k].scope] == k
      {
        assert SameShape(r.subs[k], st.subs[k]);
      }
    }
  }

  lemma EmitStmtGood(top0: CFunc, st: OrderState, scope: Scope, s: Stmt)
    requires Good(top0, st) && scope in st.subOf
    ensures Good(top0, EmitStmt(st, scope, s))
  {
    if s.Proc? && s.body != [] && s.suspendable {
      EmitCoroutineGood(top0, st, scope, s);
    } else if s.Proc? && s.body != [] {
      EmitAppendGood(top0, st, scope, s.body);
    } else if !s.Proc? {
      EmitAppendGood(top0, st, scope, [s]);
    }
  }

  lemma {:induction false} EmitStmtsGood(top0: CFunc, st: OrderState, scope: Scope, ss: seq<Stmt>)
    requires Good(top0, st) && scope in st.subOf
    ensures Good(top0, EmitStmts(st, scope, ss))
  {
    if ss != [] {
      EmitStmtsGood(top0, st, scope, ss[..|ss| - 1]);
      EmitStmtGood(top0, EmitStmts(st, scope, ss[..|ss| - 1]), scope, ss[|ss| - 1]);
    }
  }

  /** The state after a new plain sub-function `f` for `scope`: called from
      the top function, appended, and cached. */
  function WithPlainSub(st: OrderState, scope: Scope, f: CFunc): OrderState
  {
    OrderState(st.top.(stmts := st.top.stmts + [Call(f.name)]), st.subs + [f], st.subOf[scope := |st.subs|], st.counter)
  }

  lemma PlainSubTop(top0: CFunc, st: OrderState, scope: Scope, f: CFunc)
    requires TopCallsAll(top0, st) && !f.coroutine && f.slow == st.top.slow
    ensures TopCallsAll(top0, WithPlainSub(st, scope, f))
  {
    CallsToSnoc(st.subs, f);
    AnyCoroutineSnoc(st.subs, f);
  }

  lemma PlainSubCache(top0: CFunc, st: OrderState, scope: Scope, f: CFunc)
    requires Valid(st) && CacheNamed(top0, st) && PlainCached(st) && scope !in st.subOf
    requires f.name == SubName(top0, scope) && f.scope == scope && !f.coroutine
    ensures Valid(WithPlainSub(st, scope, f))
    ensures CacheNamed(top0, WithPlainSub(st, scope, f)) && PlainCached(WithPlainSub(st, scope, f))
  {
    var r := WithPlainSub(st, scope, f);
    forall s | s in r.subOf
      ensures r.subs[r.subOf[s]].name == SubName(top0, s) && r.subs[r.subOf[s]].scope == s &&
              !r.subs[r.subOf[s]].coroutine
    {
      if s != scope {
        assert r.subs[r.subOf[s]] == st.subs[st.subOf[s]];
      }
    }
  }

  lemma PlainSubCounters(top0: CFunc, st: OrderState, scope: Scope, f: CFunc)
    requires CoroutinesNamed(top0, st.subs) && CountersMatch(st) && !f.coroutine
    ensures CoroutinesNamed(top0, WithPlainSub(st, scope, f).subs) && CountersMatch(WithPlainSub(st, scope, f))
  {
    var r := WithPlainSub(st, scope, f);
    CoroutinesNamedSnoc(top0, st.subs, f);
    forall t
      ensures Counter(r, t) == CoCount(r.subs, t)
    {
      CoCountSnoc(st.subs, f, t);
    }
  }

  lemma EnsureSubGood(top0: CFunc, st: OrderState, scope: Scope)
    requires Good(top0, st)
    ensures Good(top0, EnsureSub(st, scope))
  {
    if scope !in st.subOf {
      var f := CFunc(SubName(top0, scope), scope, [], st.top.slow, false);
      assert EnsureSub(st, scope) == WithPlainSub(st, scope, f);
      PlainSubTop(top0, st, scope, f);
      PlainSubCache(top0, st, scope, f);
      PlainSubCounters(top0, st, scope, f);
    }
  }

  /** orderSequentially keeps its invariant whatever the actives. */
  lemma {:induction false} OrderSpecGood(top: CFunc, lbs: LogicByScope)
    ensures Good(top, OrderSpec(top, lbs))
  {
    if lbs == [] {
      assert top.stmts + [] == top.stmts;
      assert !AnyCoroutine([]);
    } else {
      var prev := OrderSpec(top, lbs[..|lbs| - 1]);
      var x := lbs[|lbs| - 1];
      OrderSpecGood(top, lbs[..|lbs| - 1]);
      EnsureSubGood(top, prev, x.scope);
      EmitStmtsGood(top, EnsureSub(prev, x.scope), x.scope, x.active.stmts);
    }
  }

  //--------------------------------------------------------------------------
  // Where orderSequentially puts the statements

  /** What a statement leaves in its scope's sub-function: a procedure's body
      unless the procedure is suspendable, any other statement itself. */
  function Placed(s: Stmt): seq<Stmt>
  {
    match s
    case Proc(_, suspendable, body) => if suspendable then [] else body
    case _ => [s]
  }

  /** The coroutine a statement makes, as its scope and statements: one for a
      suspendable procedure with a body, looped forever when it is an `always`. */
  function CoMade(scope: Scope, s: Stmt): seq<(Scope, seq<Stmt>)>
  {
    match s
    case Proc(kind, suspendable, body) =>
      if suspendable && body != [] then [(scope, if kind == Always then [WhileTrue(body)] else body)] else []
    case _ => []
  }

  /** A statement is lost only when it is a procedure with an empty body. */
  lemma OnlyEmptyDropped(scope: Scope, s: Stmt)
    ensures Placed(s) == [] && CoMade(scope, s) == [] <==> s.Proc? && s.body == []
  {
  }

  function PlacedAll(ss: seq<Stmt>): seq<Stmt>
  {
    if ss == [] then [] else PlacedAll(ss[..|ss| - 1]) + Placed(ss[|ss| - 1])
  }

  function CoMadeAll(scope: Scope, ss: seq<Stmt>): seq<(Scope, seq<Stmt>)>
  {
    if ss == [] then [] else CoMadeAll(scope, ss[..|ss| - 1]) + CoMade(scope, ss[|ss| - 1])
  }

  /** The scopes of the pairs. */
  function ScopesOf(lbs: LogicByScope): set<Scope>
  {
    if lbs == [] then {} else ScopesOf(lbs[..|lbs| - 1]) + {lbs[|lbs| - 1].scope}
  }

  /** What the sub-function of `scope` should hold: what the statements of the
      pairs under `scope` leave there, pair after pair. */
  function SubSpec(lbs: LogicByScope, scope: Scope): seq<Stmt>
  {
    if lbs == [] then []
    else
      var x := lbs[|lbs| - 1];
      SubSpec(lbs[..|lbs| - 1], scope) + (if x.scope == scope then PlacedAll(x.active.stmts) else [])
  }

  /** The coroutines the pairs should make, in order. */
  function CoSpec(lbs: LogicByScope): seq<(Scope, seq<Stmt>)>
  {
    if lbs == [] then []
    else
      var x := lbs[|lbs| - 1];
      CoSpec(lbs[..|lbs| - 1]) + CoMadeAll(x.scope, x.active.stmts)
  }

  /** The coroutines among the functions, as scope and statements, in order. */
  function CoParts(subs: seq<CFunc>): seq<(Scope, seq<Stmt>)>
  {
    if subs == [] then []
    else
      var f := subs[|subs| - 1];
      CoParts(subs[..|subs| - 1]) + (if f.coroutine then [(f.scope, f.stmts)] else [])
  }

  lemma CoPartsSnoc(subs: seq<CFunc>, f: CFunc)
    ensures CoParts(subs + [f]) == CoParts(subs) + (if f.coroutine then [(f.scope, f.stmts)] else [])
  {
    assert (subs + [f])[..|subs|] == subs;
  }

  /** Changing a plain function into another plain one keeps the coroutines. */
  lemma {:induction false} CoPartsUpdatePlain(subs: seq<CFunc>, k: nat, g: CFunc)
    requires k < |subs| && !subs[k].coroutine && !g.coroutine
    ensures CoParts(subs[k := g]) == CoParts(subs)
  {
    var r := subs[k := g];
    if k < |subs| - 1 {
      assert r[..|r| - 1] == subs[..|subs| - 1][k := g];
      CoPartsUpdatePlain(subs[..|subs| - 1], k, g);
    } else {
      assert r[..|r| - 1] == subs[..|subs| - 1];
    }
  }

  /** The cached function of each scope is a plain function of that scope. */
  ghost predicate CacheScoped(st: OrderState)
    requires Valid(st)
  {
    forall s :: s in st.subOf ==> st.subs[st.subOf[s]].scope == s && !st.subs[st.subOf[s]].coroutine
  }

  /** Appending to the scope's own function. */
  lemma AppendPlaced(st: OrderState, scope: Scope, ss: seq<Stmt>)
    requires Valid(st) && scope in st.subOf && CacheScoped(st)
    ensures var r := st.(subs := AppendTo(st.subs, st.subOf[scope], ss));
            Valid(r) && CacheScoped(r) &&
            (forall s :: s in r.subOf ==>
               r.subs[r.subOf[s]].stmts == st.subs[st.subOf[s]].stmts + (if s == scope then ss else [])) &&
            CoParts(r.subs) == CoParts(st.subs)
  {
    var k := st.subOf[scope];
    CoPartsUpdatePlain(st.subs, k, st.subs[k].(stmts := st.subs[k].stmts + ss));
  }

  /** A new coroutine goes after all existing functions. */
  lemma CoroutinePlaced(st: OrderState, r: OrderState, f: CFunc)
    requires Valid(st) && CacheScoped(st) && f.coroutine
    requires r.subOf == st.subOf && r.subs == st.subs + [f]
    ensures Valid(r) && CacheScoped(r)
    ensures forall s :: s in r.subOf ==> r.subs[r.subOf[s]].stmts == st.subs[st.subOf[s]].stmts
    ensures CoParts(r.subs) == CoParts(st.subs) + [(f.scope, f.stmts)]
  {
    CoPartsSnoc(st.subs, f);
  }

  /** One statement lands where Placed and CoMade say. */
  lemma EmitStmtPlaced(st: OrderState, scope: Scope, x: Stmt)
    requires Valid(st) && scope in st.subOf && CacheScoped(st)
    ensures var r := EmitStmt(st, scope, x);
            CacheScoped(r) &&
            (forall s :: s in r.subOf ==>
               r.subs[r.subOf[s]].stmts == st.subs[st.subOf[s]].stmts + (if s == scope then Placed(x) else [])) &&
            CoParts(r.subs) == CoParts(st.subs) + CoMade(scope, x)
  {
    var r := EmitStmt(st, scope, x);
    match x
    case Proc(kind, suspendable, body) =>
      if body == [] {
        assert r == st;
      } else if suspendable {
        var f := r.subs[|st.subs|];
        assert r.subs == st.subs + [f];
        CoroutinePlaced(st, r, f);
      } else {
        AppendPlaced(st, scope, body);
      }
    case _ =>
      AppendPlaced(st, scope, [x]);
  }

  /** An active's statements land in order: what stays goes to the end of
      the scope's function, the coroutines to the end of the functions. */
  lemma {:induction false} EmitStmtsPlaced(st: OrderState, scope: Scope, ss: seq<Stmt>)
    requires Valid(st) && scope in st.subOf && CacheScoped(st)
    ensures var r := EmitStmts(st, scope, ss);
            CacheScoped(r) &&
            (forall s :: s in r.subOf ==>
               r.subs[r.subOf[s]].stmts == st.subs[st.subOf[s]].stmts + (if s == scope then PlacedAll(ss) else [])) &&
            CoParts(r.subs) == CoParts(st.subs) + CoMadeAll(scope, ss)
  {
    if ss != [] {
      var init := ss[..|ss| - 1];
      var mid := EmitStmts(st, scope, init);
      EmitStmtsPlaced(st, scope, init);
      EmitStmtPlaced(mid, scope, ss[|ss| - 1]);
      var r := EmitStmts(st, scope, ss);
      forall s | s in r.subOf
        ensures r.subs[r.subOf[s]].stmts == st.subs[st.subOf[s]].stmts + (if s == scope then PlacedAll(ss) else [])
      {
        if s == scope {
          AppendAssoc(st.subs[st.subOf[s]].stmts, PlacedAll(init), Placed(ss[|ss| - 1]));
        }
      }
      AppendAssoc(CoParts(st.subs), CoMadeAll(scope, init), CoMade(scope, ss[|ss| - 1]));
    }
  }

  lemma AppendAssoc<T>(a: seq<T>, b: seq<T>, c: seq<T>)
    ensures (a + b) + c == a + (b + c)
  {
  }

  lemma {:induction false} SubSpecAbsent(lbs: LogicByScope, scope: Scope)
    requires scope !in ScopesOf(lbs)
    ensures SubSpec(lbs, scope) == []
  {
    if lbs != [] {
      SubSpecAbsent(lbs[..|lbs| - 1], scope);
    }
  }

  /** What orderSequentially keeps true about placement after the pairs `lbs`:
      one sub-function per scope seen, holding that scope's statements, and
      the coroutines in order. */
  ghost predicate PlacedBy(lbs: LogicByScope, st: OrderState)
    requires Valid(st)
  {
    && CacheScoped(st)
    && st.subOf.Keys == ScopesOf(lbs)
    && (forall s :: s in st.subOf ==> st.subs[st.subOf[s]].stmts == SubSpec(lbs, s))
    && CoParts(st.subs) == CoSpec(lbs)
  }

  /** The first sight of a scope makes its empty sub-function. */
  lemma EnsureSubPlaced(lbs: LogicByScope, st: OrderState, scope: Scope)
    requires Valid(st) && PlacedBy(lbs, st)
    ensures var r := EnsureSub(st, scope);
            CacheScoped(r) && r.subOf.Keys == ScopesOf(lbs) + {scope} &&
            (forall s :: s in r.subOf ==> r.subs[r.subOf[s]].stmts == SubSpec(lbs, s)) &&
            CoParts(r.subs) == CoSpec(lbs)
  {
    if scope !in st.subOf {
      var r := EnsureSub(st, scope);
      var f := CFunc(SubName(st.top, scope), scope, [], st.top.slow, false);
      assert r.subs == st.subs + [f];
      CoPartsSnoc(st.subs, f);
      SubSpecAbsent(lbs, scope);
      forall s | s in r.subOf
        ensures r.subs[r.subOf[s]].stmts == SubSpec(lbs, s)
      {
        if s != scope {
          assert r.subs[r.subOf[s]] == st.subs[st.subOf[s]];
        }
      }
    }
  }

  /** orderSequentially's placement: every scope seen has one sub-function
      holding, pair after pair, the statements and non-suspendable procedure
      bodies of its actives; the coroutines are, in order, the bodies of the
      suspendable procedures (wrapped in `while (true)` for `always`); every
      other function is the sub-function of its scope. */
  lemma {:induction false} OrderSpecPlaced(top: CFunc, lbs: LogicByScope)
    ensures PlacedBy(lbs, OrderSpec(top, lbs))
  {
    if lbs != [] {
      var init := lbs[..|lbs| - 1];
      var x := lbs[|lbs| - 1];
      var prev := OrderSpec(top, init);
      var st1 := EnsureSub(prev, x.scope);
      OrderSpecPlaced(top, init);
      EnsureSubPlaced(init, prev, x.scope);
      EmitStmtsPlaced(st1, x.scope, x.active.stmts);
      var r := OrderSpec(top, lbs);
      forall s | s in r.subOf
        ensures r.subs[r.subOf[s]].stmts == SubSpec(lbs, s)
      {
      }
    }
  }

  /** The whole layout: placement, and no function other than the scopes'
      sub-functions and the coroutines. */
  lemma OrderSpecLayout(top: CFunc, lbs: LogicByScope)
    ensures var st := OrderSpec(top, lbs);
            st.subOf.Keys == ScopesOf(lbs) &&
            (forall s :: s in st.subOf ==> st.subs[st.subOf[s]].stmts == SubSpec(lbs, s)) &&
            CoParts(st.subs) == CoSpec(lbs) &&
            (forall k :: 0 <= k < |st.subs| && !st.subs[k].coroutine ==>
               st.subs[k].scope in st.subOf && st.subOf[st.subs[k].scope] == k)
  {
    OrderSpecPlaced(top, lbs);
    OrderSpecGood(top, lbs);
  }

  //--------------------------------------------------------------------------
  // createStatic, createInitial, createPostponed, createFinal

  /** The top function of a simply ordered class, its ordered sub-functions and
      the pieces a split produced. */
  datatype Ordered = Ordered(top: CFunc, subs: seq<CFunc>, splits: seq<CFunc>)

  /** createStatic / createFinal: order the class sequentially into a new slow
      entry point, then split it. */
  method CreateOrdered(topScope: Scope, name: string, lbs: LogicByScope, threshold: nat) returns (r: Ordered)
    ensures var st := OrderSpec(MakeTopFunction(topScope, name, true), lbs);
            r.subs == st.subs &&
            (SplitSkipped(st.top, threshold) ==> r.top == st.top && r.splits == []) &&
            (!SplitSkipped(st.top, threshold) ==>
               r.splits != [] && IsGreedySplit(st.top, threshold, r.splits) && r.top == st.top.(stmts := CallsTo(r.splits)))
  {
    var funcp := MakeTopFunction(topScope, name, true);
    var st := OrderSequentially(funcp, lbs);
    var top, splits := SplitCheck(st.top, threshold);
    r := Ordered(top, st.subs, splits);
  }

  method CreateStatic(topScope: Scope, lc: LogicClasses, threshold: nat) returns (r: Ordered)
    ensures var st := OrderSpec(MakeTopFunction(topScope, "_eval_static", true), lc.staticLogic);
            r.subs == st.subs &&
            (SplitSkipped(st.top, threshold) ==> r.top == st.top && r.splits == []) &&
            (!SplitSkipped(st.top, threshold) ==>
               r.splits != [] && IsGreedySplit(st.top, threshold, r.splits) && r.top == st.top.(stmts := CallsTo(r.splits)))
    ensures r.top.name == "_eval_static"
  {
    r := CreateOrdered(topScope, "_eval_static", lc.staticLogic, threshold);
    OrderSpecGood(MakeTopFunction(topScope, "_eval_static", true), lc.staticLogic);
  }

  method CreateFinal(topScope: Scope, lc: LogicClasses, threshold: nat) returns (r: Ordered)
    ensures var st := OrderSpec(MakeTopFunction(topScope, "_eval_final", true), lc.finalLogic);
            r.subs == st.subs &&
            (SplitSkipped(st.top, threshold) ==> r.top == st.top && r.splits == []) &&
            (!SplitSkipped(st.top, threshold) ==>
               r.splits != [] && IsGreedySplit(st.top, threshold, r.splits) && r.top == st.top.(stmts := CallsTo(r.splits)))
    ensures r.top.name == "_eval_final"
  {
    r := CreateOrdered(topScope, "_eval_final", lc.finalLogic, threshold);
    OrderSpecGood(MakeTopFunction(topScope, "_eval_final", true), lc.finalLogic);
  }

  /** createInitial: ordered, but not split yet, as more is added to it later. */
  method CreateInitial(topScope: Scope, lc: LogicClasses) returns (st: OrderState)
    ensures st == OrderSpec(MakeTopFunction(topScope, "_eval_initial", true), lc.initialLogic)
    ensures Good(MakeTopFunction(topScope, "_eval_initial", true), st) && PlacedBy(lc.initialLogic, st)
  {
    st := OrderSequentially(MakeTopFunction(topScope, "_eval_initial", true), lc.initialLogic);
  }

  /** createPostponed: no function at all without postponed logic. */
  method CreatePostponed(topScope: Scope, lc: LogicClasses, threshold: nat) returns (r: Option<Ordered>)
    ensures r.None? <==> lc.postponedLogic == []
    ensures r.Some? ==> r.value.top.name == "_eval_postponed"
    ensures r.Some? ==>
      var st := OrderSpec(MakeTopFunction(topScope, "_eval_postponed", true), lc.postponedLogic);
      r.value.subs == st.subs &&
      (SplitSkipped(st.top, threshold) ==> r.value.top == st.top && r.value.splits == []) &&
      (!SplitSkipped(st.top, threshold) ==>
         r.value.splits != [] && IsGreedySplit(st.top, threshold, r.value.splits) &&
         r.value.top == st.top.(stmts := CallsTo(r.value.splits)))
  {
    if lc.postponedLogic == [] {
      return None;
    }
    var o := CreateOrdered(topScope, "_eval_postponed", lc.postponedLogic, threshold);
    OrderSpecGood(MakeTopFunction(topScope, "_eval_postponed", true), lc.postponedLogic);
    r := Some(o);
  }
}

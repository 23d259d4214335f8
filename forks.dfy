/** transformForks (src/V3SchedTiming.cpp): every forked process that can
    suspend becomes a coroutine function called in place of the process; the
    others are inlined; locals of the forking process are passed in. */
module Forks {
  import opened Wrappers
  import opened SchedTypes
  import opened SeqUtil

  /** Variable identity; a variable that remapLocals adds to function `func`
      for `of` is a new object. */
  datatype VarId = Named(n: nat) | Clone(func: string, of: VarId)

  /** A variable with the attributes remapLocals looks at; each variable has a
      single variable scope here, so references point at the variable. */
  datatype Var = Var(id: VarId, name: string, forkSync: bool, funcLocal: bool)

  datatype JoinType = Join | JoinAny | JoinNone
  datatype Direction = Input | RefDir
  datatype Access = Read | ReadWrite

  /** A parameter of a generated coroutine, and the matching call argument. */
  datatype Param = Param(v: Var, dir: Direction)
  datatype Arg = Arg(v: Var, access: Access)

  /** Statements as the ForkVisitor sees them: a statement is given by the
      variable references in it (in traversal order), an await statement
      likewise, declarations, compound statements, forks of named processes
      (AstBegin) and void calls. */
  datatype FStmt =
    | Use(refs: seq<Var>)
    | AwaitUse(refs: seq<Var>)
    | Decl(v: Var)
    | Block(body: seq<FStmt>)
    | ForkS(join: JoinType, procs: seq<Process>)
    | CallS(callee: string, args: seq<Arg>, passSyms: bool)

  datatype Process = Process(name: string, body: seq<FStmt>)

  /** An AstCFunc: `keepThis` is the VL_KEEP_THIS init statement and
      `symsParam` the symbol-table argument type of class methods. */
  datatype Func = Func(
    name: string, scope: Scope, params: seq<Param>, body: seq<FStmt>,
    coroutine: bool, slow: bool, isLoose: bool, isConst: bool, private: bool,
    keepThis: bool, symsParam: bool)

  //--------------------------------------------------------------------------
  // Sizes (termination of the splicing traversal and of the function walk)

  function Size(s: FStmt): (n: nat)
    ensures n >= 1
  {
    match s
    case Use(_) => 1
    case AwaitUse(_) => 1
    case Decl(_) => 1
    case CallS(_, _, _) => 1
    case Block(body) => 1 + SizeAll(body)
    case ForkS(_, procs) => 1 + ProcsSize(procs)
  }

  function SizeAll(ss: seq<FStmt>): nat
  {
    if ss == [] then 0 else Size(ss[0]) + SizeAll(ss[1..])
  }

  function ProcsSize(ps: seq<Process>): nat
  {
    if ps == [] then 0 else 2 + SizeAll(ps[0].body) + ProcsSize(ps[1..])
  }

  function FuncsSize(fs: seq<Func>): nat
  {
    if fs == [] then 0 else 1 + SizeAll(fs[0].body) + FuncsSize(fs[1..])
  }

  lemma {:induction false} SizeAllAppend(a: seq<FStmt>, b: seq<FStmt>)
    ensures SizeAll(a + b) == SizeAll(a) + SizeAll(b)
  {
    if a != [] {
      assert (a + b)[0] == a[0] && (a + b)[1..] == a[1..] + b;
      SizeAllAppend(a[1..], b);
    } else {
      assert a + b == b;
    }
  }

  lemma {:induction false} FuncsSizeAppend(a: seq<Func>, b: seq<Func>)
    ensures FuncsSize(a + b) == FuncsSize(a) + FuncsSize(b)
  {
    if a != [] {
      assert (a + b)[0] == a[0] && (a + b)[1..] == a[1..] + b;
      FuncsSizeAppend(a[1..], b);
    } else {
      assert a + b == b;
    }
  }

  function Reverse<T>(s: seq<T>): (r: seq<T>)
    ensures |r| == |s|
  {
    if s == [] then [] else Reverse(s[1..]) + [s[0]]
  }

  lemma {:induction false} FuncsSizeReverse(fs: seq<Func>)
    ensures FuncsSize(Reverse(fs)) == FuncsSize(fs)
  {
    if fs != [] {
      FuncsSizeReverse(fs[1..]);
      FuncsSizeAppend(Reverse(fs[1..]), [fs[0]]);
    }
  }

  //--------------------------------------------------------------------------
  // References and their redirection

  function ArgVars(args: seq<Arg>): seq<Var>
  {
    if args == [] then [] else [args[0].v] + ArgVars(args[1..])
  }

  /** Every variable reference under a statement, in traversal order. */
  function Refs(s: FStmt): seq<Var>
  {
    match s
    case Use(rs) => rs
    case AwaitUse(rs) => rs
    case Decl(_) => []
    case CallS(_, args, _) => ArgVars(args)
    case Block(body) => RefsAll(body)
    case ForkS(_, procs) => RefsProcs(procs)
  }

  function RefsAll(ss: seq<FStmt>): seq<Var>
  {
    if ss == [] then [] else Refs(ss[0]) + RefsAll(ss[1..])
  }

  function RefsProcs(ps: seq<Process>): seq<Var>
  {
    if ps == [] then [] else RefsAll(ps[0].body) + RefsProcs(ps[1..])
  }

  function Rd(v: Var, m: map<Var, Var>): Var
  {
    if v in m then m[v] else v
  }

  function RdVars(rs: seq<Var>, m: map<Var, Var>): (r: seq<Var>)
    ensures |r| == |rs| && forall i :: 0 <= i < |rs| ==> r[i] == Rd(rs[i], m)
  {
    if rs == [] then [] else [Rd(rs[0], m)] + RdVars(rs[1..], m)
  }

  lemma RdVarsAppend(a: seq<Var>, b: seq<Var>, m: map<Var, Var>)
    ensures RdVars(a + b, m) == RdVars(a, m) + RdVars(b, m)
  {
  }

  function RdArgs(args: seq<Arg>, m: map<Var, Var>): (r: seq<Arg>)
    ensures ArgVars(r) == RdVars(ArgVars(args), m)
  {
    if args == [] then [] else [Arg(Rd(args[0].v, m), args[0].access)] + RdArgs(args[1..], m)
  }

  /** Points every reference to a variable in `m` at its replacement; the
      statement's shape is unchanged. */
  function Redirect(s: FStmt, m: map<Var, Var>): (r: FStmt)
    ensures Size(r) == Size(s)
  {
    match s
    case Use(rs) => Use(RdVars(rs, m))
    case AwaitUse(rs) => AwaitUse(RdVars(rs, m))
    case Decl(v) => Decl(v)
    case CallS(callee, args, syms) => CallS(callee, RdArgs(args, m), syms)
    case Block(body) => Block(RedirectAll(body, m))
    case ForkS(join, procs) => ForkS(join, RedirectProcs(procs, m))
  }

  function RedirectAll(ss: seq<FStmt>, m: map<Var, Var>): (r: seq<FStmt>)
    ensures |r| == |ss| && SizeAll(r) == SizeAll(ss)
  {
    if ss == [] then [] else [Redirect(ss[0], m)] + RedirectAll(ss[1..], m)
  }

  function RedirectProcs(ps: seq<Process>, m: map<Var, Var>): (r: seq<Process>)
    ensures ProcsSize(r) == ProcsSize(ps)
  {
    if ps == [] then [] else [Process(ps[0].name, RedirectAll(ps[0].body, m))] + RedirectProcs(ps[1..], m)
  }

  /** Redirection renames exactly the references found by the traversal. */
  lemma {:induction false} RedirectRefs(s: FStmt, m: map<Var, Var>)
    ensures Refs(Redirect(s, m)) == RdVars(Refs(s), m)
    decreases s, 1
  {
    match s
    case Use(_) =>
    case AwaitUse(_) =>
    case Decl(_) =>
    case CallS(_, _, _) =>
    case Block(body) => RedirectAllRefs(body, m);
    case ForkS(_, procs) => RedirectProcsRefs(procs, m);
  }

  lemma {:induction false} RedirectAllRefs(ss: seq<FStmt>, m: map<Var, Var>)
    ensures RefsAll(RedirectAll(ss, m)) == RdVars(RefsAll(ss), m)
    decreases ss, 0
  {
    if ss != [] {
      RedirectRefs(ss[0], m);
      RedirectAllRefs(ss[1..], m);
      RdVarsAppend(Refs(ss[0]), RefsAll(ss[1..]), m);
      var r := RedirectAll(ss, m);
      assert r[0] == Redirect(ss[0], m) && r[1..] == RedirectAll(ss[1..], m);
    }
  }

  lemma {:induction false} RedirectProcsRefs(ps: seq<Process>, m: map<Var, Var>)
    ensures RefsProcs(RedirectProcs(ps, m)) == RdVars(RefsProcs(ps), m)
    decreases ps, 0
  {
    if ps != [] {
      RedirectAllRefs(ps[0].body, m);
      RedirectProcsRefs(ps[1..], m);
      RdVarsAppend(RefsAll(ps[0].body), RefsProcs(ps[1..]), m);
      var r := RedirectProcs(ps, m);
      assert r[0].body == RedirectAll(ps[0].body, m) && r[1..] == RedirectProcs(ps[1..], m);
    }
  }

  //--------------------------------------------------------------------------
  // remapLocals

  const IntraPrefix := "__Vintra"

  predicate StartsWith(s: string, prefix: string)
  {
    |prefix| <= |s| && s[..|prefix|] == prefix
  }

  /** Fork-sync variables and intra-assignment temporaries are copied in. */
  predicate PassByValue(v: Var)
  {
    v.forkSync || StartsWith(v.name, IntraPrefix)
  }

  datatype Decision = ByValue | ByRef | Skip | Unsupported

  /** What remapLocals does with a reference: `declared` holds the variables
      declared before the current fork (user1). */
  function Decide(v: Var, declared: set<VarId>, join: JoinType): Decision
  {
    if PassByValue(v) then ByValue
    else if v.id !in declared || !v.funcLocal then Skip
    else if join.Join? then ByRef
    else Unsupported
  }

  function PassedBy(declared: set<VarId>, join: JoinType): Var -> bool
  {
    v => Decide(v, declared, join) in {ByValue, ByRef}
  }

  function UnsupportedBy(declared: set<VarId>, join: JoinType): Var -> bool
  {
    v => Decide(v, declared, join).Unsupported?
  }

  /** The BLOCKTEMP copy of `v` made in function `func`. */
  function CloneVar(func: string, v: Var): Var
  {
    Var(Clone(func, v.id), v.name, v.forkSync, true)
  }

  function ParamFor(func: string, v: Var, declared: set<VarId>, join: JoinType): Param
  {
    Param(CloneVar(func, v), if Decide(v, declared, join).ByValue? then Input else RefDir)
  }

  function ArgFor(v: Var, declared: set<VarId>, join: JoinType): Arg
  {
    Arg(v, if Decide(v, declared, join).ByValue? then Read else ReadWrite)
  }

  /** The user2 cache, the parameters and call arguments added, and the
      references reported as unsupported. */
  datatype Remapping = Remapping(cache: map<Var, Var>, params: seq<Param>, args: seq<Arg>, warnings: seq<Var>)

  function RemapStep(st: Remapping, func: string, v: Var, declared: set<VarId>, join: JoinType): Remapping
  {
    match Decide(v, declared, join)
    case Skip => st
    case Unsupported => st.(warnings := st.warnings + [v])
    case _ =>
      if v in st.cache then st
      else st.(cache := st.cache[v := CloneVar(func, v)],
               params := st.params + [ParamFor(func, v, declared, join)],
               args := st.args + [ArgFor(v, declared, join)])
  }

  function RemapSpec(func: string, refs: seq<Var>, declared: set<VarId>, join: JoinType): Remapping
  {
    if refs == [] then Remapping(map[], [], [], [])
    else RemapStep(RemapSpec(func, refs[..|refs| - 1], declared, join), func, refs[|refs| - 1], declared, join)
  }

  /** What remapLocals has built after a prefix `refs` of the references:
      each variable that needs it is passed exactly once, in order of first
      reference, by value as an input read, otherwise by reference as a
      read-write argument, and the cache sends it to its copy. */
  ghost predicate RemapInv(func: string, refs: seq<Var>, declared: set<VarId>, join: JoinType, st: Remapping)
  {
    ArgVars(st.args) == Distinct(refs, PassedBy(declared, join)) &&
    |st.params| == |st.args| &&
    (forall i :: 0 <= i < |st.args| ==>
       st.args[i] == ArgFor(st.args[i].v, declared, join) &&
       st.params[i] == ParamFor(func, st.args[i].v, declared, join)) &&
    (forall v :: v in st.cache <==> v in refs && PassedBy(declared, join)(v)) &&
    (forall v :: v in st.cache ==> st.cache[v] == CloneVar(func, v))
  }

  lemma RemapStepKeeps(func: string, refs: seq<Var>, v: Var, declared: set<VarId>, join: JoinType, st: Remapping)
    requires RemapInv(func, refs, declared, join, st)
    ensures RemapInv(func, refs + [v], declared, join, RemapStep(st, func, v, declared, join))
  {
    var keep := PassedBy(declared, join);
    DistinctSnoc(refs, v, keep);
    DistinctMembers(refs, keep);
    if keep(v) && v !in st.cache {
      ArgVarsSnoc(st.args, ArgFor(v, declared, join));
    }
  }

  lemma {:induction false} RemapFacts(func: string, refs: seq<Var>, declared: set<VarId>, join: JoinType)
    ensures RemapInv(func, refs, declared, join, RemapSpec(func, refs, declared, join))
  {
    if refs != [] {
      var init := refs[..|refs| - 1];
      RemapFacts(func, init, declared, join);
      assert refs == init + [refs[|refs| - 1]];
      RemapStepKeeps(func, init, refs[|refs| - 1], declared, join, RemapSpec(func, init, declared, join));
    }
  }

  /** Each unsupported reference is reported once, in order. */
  lemma {:induction false} RemapWarnings(func: string, refs: seq<Var>, declared: set<VarId>, join: JoinType)
    ensures RemapSpec(func, refs, declared, join).warnings == Filter(refs, UnsupportedBy(declared, join))
  {
    if refs != [] {
      RemapWarnings(func, refs[..|refs| - 1], declared, join);
    }
  }

  lemma {:induction false} ArgVarsSnoc(args: seq<Arg>, a: Arg)
    ensures ArgVars(args + [a]) == ArgVars(args) + [a.v]
  {
    if args != [] {
      assert (args + [a])[1..] == args[1..] + [a];
      ArgVarsSnoc(args[1..], a);
    }
  }

  /** remapLocals: walks the references of the new function once, filling
      the cache. */
  method RemapLocals(func: string, refs: seq<Var>, declared: set<VarId>, join: JoinType)
    returns (cache: map<Var, Var>, params: seq<Param>, args: seq<Arg>, warnings: seq<Var>)
    ensures Remapping(cache, params, args, warnings) == RemapSpec(func, refs, declared, join)
  {
    cache, params, args, warnings := map[], [], [], [];
    var i := 0;
    while i < |refs|
      invariant 0 <= i <= |refs|
      invariant Remapping(cache, params, args, warnings) == RemapSpec(func, refs[..i], declared, join)
    {
      var v := refs[i];
      assert refs[..i + 1][..i] == refs[..i];
      var d := Decide(v, declared, join);
      if d.Unsupported? {
        warnings := warnings + [v];
      } else if d != Skip && v !in cache {
        var newVar := CloneVar(func, v);
        params := params + [Param(newVar, if d.ByValue? then Input else RefDir)];
        cache := cache[v := newVar];
        args := args + [Arg(v, if d.ByValue? then Read else ReadWrite)];
      }
      i := i + 1;
    }
    assert refs[..i] == refs;
  }

  //--------------------------------------------------------------------------
  // Lowering a fork

  /** An await in the process itself; forks nested in it are left alone. */
  function HasAwaits(s: FStmt): bool
  {
    match s
    case AwaitUse(_) => true
    case Block(body) => HasAwaitsAll(body)
    case _ => false
  }

  function HasAwaitsAll(ss: seq<FStmt>): bool
  {
    ss != [] && (HasAwaits(ss[0]) || HasAwaitsAll(ss[1..]))
  }

  /** What lowering produces: statements that replace the construct, the
      functions created (in creation order) and the unsupported references. */
  datatype Lowered = Lowered(stmts: seq<FStmt>, funcs: seq<Func>, warnings: seq<Var>)

  /** The coroutine made for process `p` of function `cur`: private, in the
      same scope, named after the process, with the parameters remapLocals
      added and the references it redirected. */
  function Coroutine(cur: Func, inClass: bool, p: Process, st: Remapping): (f: Func)
    ensures f.name == p.name && f.scope == cur.scope && f.coroutine && f.private
    ensures f.slow == cur.slow && f.isLoose == cur.isLoose && f.isConst == cur.isConst
    ensures f.keepThis == inClass && f.symsParam == inClass && f.params == st.params
    ensures RefsAll(f.body) == RdVars(RefsAll(p.body), st.cache)
    ensures SizeAll(f.body) == SizeAll(p.body)
  {
    RedirectAllRefs(p.body, st.cache);
    Func(p.name, cur.scope, st.params, RedirectAll(p.body, st.cache), true, cur.slow, cur.isLoose, cur.isConst, true, inClass, inClass)
  }

  /** A process with awaits becomes a private coroutine of the same scope,
      named after the process and called in its place; one without awaits is
      inlined. */
  function LowerBegin(cur: Func, inClass: bool, declared: set<VarId>, join: JoinType, p: Process): (r: Result<Lowered>)
    ensures !HasAwaitsAll(p.body) ==> r == Ok(Lowered(p.body, [], []))
    ensures HasAwaitsAll(p.body) ==> (r.Err? <==> p.name == "")
    ensures HasAwaitsAll(p.body) && r.Ok? ==>
      r.value == Lowered([CallS(p.name, RemapSpec(p.name, RefsAll(p.body), declared, join).args, inClass)],
                         [Coroutine(cur, inClass, p, RemapSpec(p.name, RefsAll(p.body), declared, join))],
                         RemapSpec(p.name, RefsAll(p.body), declared, join).warnings)
    ensures r.Ok? ==> SizeAll(r.value.stmts) + FuncsSize(r.value.funcs) <= 2 + SizeAll(p.body)
  {
    if !HasAwaitsAll(p.body) then Ok(Lowered(p.body, [], []))
    else if p.name == "" then Err("Begin needs a name")
    else
      var st := RemapSpec(p.name, RefsAll(p.body), declared, join);
      var call := CallS(p.name, st.args, inClass);
      var c := Coroutine(cur, inClass, p, st);
      assert SizeAll([call]) == 1 by { assert [call][1..] == []; }
      assert FuncsSize([c]) == 1 + SizeAll(p.body) by { assert [c][1..] == []; }
      Ok(Lowered([call], [c], st.warnings))
  }

  /** The fork's processes in order; the fork is replaced by what they become. */
  function LowerFork(cur: Func, inClass: bool, declared: set<VarId>, join: JoinType, ps: seq<Process>): (r: Result<Lowered>)
    ensures r.Ok? ==> SizeAll(r.value.stmts) + FuncsSize(r.value.funcs) <= ProcsSize(ps)
    ensures r.Ok? ==> forall i :: 0 <= i < |r.value.funcs| ==> r.value.funcs[i].coroutine && r.value.funcs[i].private
  {
    if ps == [] then Ok(Lowered([], [], []))
    else
      match LowerBegin(cur, inClass, declared, join, ps[0])
      case Err(m) => Err(m)
      case Ok(first) =>
        match LowerFork(cur, inClass, declared, join, ps[1..])
        case Err(m) => Err(m)
        case Ok(rest) =>
          SizeAllAppend(first.stmts, rest.stmts);
          FuncsSizeAppend(first.funcs, rest.funcs);
          Ok(Lowered(first.stmts + rest.stmts, first.funcs + rest.funcs, first.warnings + rest.warnings))
  }

  lemma LowerForkCons(cur: Func, inClass: bool, declared: set<VarId>, join: JoinType, p: Process, ps: seq<Process>)
    requires LowerBegin(cur, inClass, declared, join, p).Ok? && LowerFork(cur, inClass, declared, join, ps).Ok?
    ensures var first := LowerBegin(cur, inClass, declared, join, p).value;
      var rest := LowerFork(cur, inClass, declared, join, ps).value;
      LowerFork(cur, inClass, declared, join, [p] + ps) ==
        Ok(Lowered(first.stmts + rest.stmts, first.funcs + rest.funcs, first.warnings + rest.warnings))
  {
    assert ([p] + ps)[0] == p && ([p] + ps)[1..] == ps;
  }

  /** Whether a process of the fork becomes a coroutine. */
  predicate Suspends(p: Process)
  {
    HasAwaitsAll(p.body)
  }

  /** The functions are coroutines named after the processes, one each, in order. */
  predicate NamedAfter(fs: seq<Func>, ps: seq<Process>)
  {
    |fs| == |ps| && forall i :: 0 <= i < |fs| ==> fs[i].name == ps[i].name && fs[i].coroutine
  }

  lemma NamedAfterAppend(fs: seq<Func>, ps: seq<Process>, gs: seq<Func>, qs: seq<Process>)
    requires NamedAfter(fs, ps) && NamedAfter(gs, qs)
    ensures NamedAfter(fs + gs, ps + qs)
  {
    forall i | 0 <= i < |fs + gs|
      ensures (fs + gs)[i].name == (ps + qs)[i].name && (fs + gs)[i].coroutine
    {
      if i >= |fs| {
        assert (fs + gs)[i] == gs[i - |fs|] && (ps + qs)[i] == qs[i - |fs|];
      }
    }
  }

  /** Each suspending process of the fork gets one function, in order. */
  lemma {:induction false} LowerForkFuncs(cur: Func, inClass: bool, declared: set<VarId>, join: JoinType, ps: seq<Process>)
    requires LowerFork(cur, inClass, declared, join, ps).Ok?
    ensures NamedAfter(LowerFork(cur, inClass, declared, join, ps).value.funcs, Filter(ps, Suspends))
  {
    if ps != [] {
      var first := LowerBegin(cur, inClass, declared, join, ps[0]).value;
      var rest := LowerFork(cur, inClass, declared, join, ps[1..]).value;
      LowerForkFuncs(cur, inClass, declared, join, ps[1..]);
      FilterCons(ps, Suspends);
      var mine: seq<Process> := if Suspends(ps[0]) then [ps[0]] else [];
      assert NamedAfter(first.funcs, mine);
      NamedAfterAppend(first.funcs, mine, rest.funcs, Filter(ps[1..], Suspends));
    }
  }

  lemma {:induction false} FilterCons<T>(xs: seq<T>, keep: T -> bool)
    requires xs != []
    ensures Filter(xs, keep) == (if keep(xs[0]) then [xs[0]] else []) + Filter(xs[1..], keep)
  {
    if |xs| > 1 {
      var init := xs[..|xs| - 1];
      FilterCons(init, keep);
      assert init[1..] == xs[1..][..|xs[1..]| - 1];
    } else {
      assert xs[..|xs| - 1] == [] && xs[1..] == [];
    }
  }

  //--------------------------------------------------------------------------
  // The visitor over a function body and over the function list

  predicate NoForks(s: FStmt)
  {
    match s
    case ForkS(_, _) => false
    case Block(body) => NoForksAll(body)
    case _ => true
  }

  predicate NoForksAll(ss: seq<FStmt>)
  {
    ss == [] || (NoForks(ss[0]) && NoForksAll(ss[1..]))
  }

  /** The statements after the visit, the functions created (in creation
      order), the unsupported references and the declared-variable flags. */
  datatype BodyOut = BodyOut(stmts: seq<FStmt>, funcs: seq<Func>, warnings: seq<Var>, declared: set<VarId>)

  /** Every function is a private coroutine. */
  predicate AllCoroutines(fs: seq<Func>)
  {
    forall i :: 0 <= i < |fs| ==> fs[i].coroutine && fs[i].private
  }

  /** A statement kept in front of the visited rest. */
  function Prepend(s: FStmt, r: BodyOut): (o: BodyOut)
    ensures SizeAll(o.stmts) == Size(s) + SizeAll(r.stmts)
    ensures NoForks(s) && NoForksAll(r.stmts) ==> NoForksAll(o.stmts)
    ensures o.funcs == r.funcs && o.warnings == r.warnings && o.declared == r.declared
  {
    assert ([s] + r.stmts)[0] == s && ([s] + r.stmts)[1..] == r.stmts;
    r.(stmts := [s] + r.stmts)
  }

  /** A visited block in front of the visited rest. */
  function BlockOut(inner: BodyOut, rest: BodyOut): (o: BodyOut)
    ensures SizeAll(o.stmts) + FuncsSize(o.funcs) ==
            1 + SizeAll(inner.stmts) + FuncsSize(inner.funcs) + SizeAll(rest.stmts) + FuncsSize(rest.funcs)
    ensures NoForksAll(inner.stmts) && NoForksAll(rest.stmts) ==> NoForksAll(o.stmts)
    ensures AllCoroutines(inner.funcs) && AllCoroutines(rest.funcs) ==> AllCoroutines(o.funcs)
  {
    FuncsSizeAppend(inner.funcs, rest.funcs);
    var o := Prepend(Block(inner.stmts), rest);
    o.(funcs := inner.funcs + rest.funcs, warnings := inner.warnings + rest.warnings)
  }

  /** The rest visited after a lowered fork, with the fork's functions first. */
  function ForkOut(l: Lowered, rest: BodyOut): (o: BodyOut)
    ensures FuncsSize(o.funcs) == FuncsSize(l.funcs) + FuncsSize(rest.funcs)
    ensures o.stmts == rest.stmts
    ensures AllCoroutines(l.funcs) && AllCoroutines(rest.funcs) ==> AllCoroutines(o.funcs)
  {
    FuncsSizeAppend(l.funcs, rest.funcs);
    BodyOut(rest.stmts, l.funcs + rest.funcs, l.warnings + rest.warnings, rest.declared)
  }

  /** The visit of a statement list. A declaration outside a fork sets its
      flag; a fork is replaced by its lowered statements, which the iteration
      then visits in turn, so forks in inlined processes are lowered too. The
      result holds no fork. */
  function TransformBody(cur: Func, inClass: bool, declared: set<VarId>, ss: seq<FStmt>): (r: Result<BodyOut>)
    ensures r.Ok? ==> SizeAll(r.value.stmts) + FuncsSize(r.value.funcs) <= SizeAll(ss)
    ensures r.Ok? ==> NoForksAll(r.value.stmts)
    ensures r.Ok? ==> AllCoroutines(r.value.funcs)
    decreases SizeAll(ss)
  {
    if ss == [] then Ok(BodyOut([], [], [], declared))
    else
      assert SizeAll(ss) == Size(ss[0]) + SizeAll(ss[1..]);
      if ss[0].ForkS? then
        assert Size(ss[0]) == 1 + ProcsSize(ss[0].procs);
        (match LowerFork(cur, inClass, declared, ss[0].join, ss[0].procs)
         case Err(m) => Err(m)
         case Ok(l) =>
           SizeAllAppend(l.stmts, ss[1..]);
           match TransformBody(cur, inClass, declared, l.stmts + ss[1..])
           case Err(m) => Err(m)
           case Ok(rest) => Ok(ForkOut(l, rest)))
      else if ss[0].Block? then
        assert Size(ss[0]) == 1 + SizeAll(ss[0].body);
        (match TransformBody(cur, inClass, declared, ss[0].body)
         case Err(m) => Err(m)
         case Ok(inner) =>
           match TransformBody(cur, inClass, inner.declared, ss[1..])
           case Err(m) => Err(m)
           case Ok(rest) => Ok(BlockOut(inner, rest)))
      else
        var declared' := if ss[0].Decl? then declared + {ss[0].v.id} else declared;
        match TransformBody(cur, inClass, declared', ss[1..])
        case Err(m) => Err(m)
        case Ok(rest) => Ok(Prepend(ss[0], rest))
  }

  function ParamIds(ps: seq<Param>): set<VarId>
  {
    set i | 0 <= i < |ps| :: ps[i].v.id
  }

  /** No function of the list has a fork left. */
  predicate ForkFreeFuncs(fs: seq<Func>)
  {
    forall i :: 0 <= i < |fs| ==> NoForksAll(fs[i].body)
  }

  /** The functions after the walk, the unsupported references and the flags. */
  datatype FuncsOut = FuncsOut(funcs: seq<Func>, warnings: seq<Var>, declared: set<VarId>)

  /** The walk over a module's functions: a function's parameters are visited
      before its body; each function created is inserted right after the
      current one, so the ones created later come first, and they are visited
      next. No function is left with a fork. */
  function TransformFuncs(inClass: bool, declared: set<VarId>, fs: seq<Func>): (r: Result<FuncsOut>)
    ensures r.Ok? ==> |r.value.funcs| >= |fs|
    ensures r.Ok? && fs != [] ==> r.value.funcs[0] == fs[0].(body := r.value.funcs[0].body)
    ensures r.Ok? ==> ForkFreeFuncs(r.value.funcs)
    decreases FuncsSize(fs)
  {
    if fs == [] then Ok(FuncsOut([], [], declared))
    else
      var f := fs[0];
      match TransformBody(f, inClass, declared + ParamIds(f.params), f.body)
      case Err(m) => Err(m)
      case Ok(b) =>
        FuncsSizeReverse(b.funcs);
        FuncsSizeAppend(Reverse(b.funcs), fs[1..]);
        match TransformFuncs(inClass, b.declared, Reverse(b.funcs) + fs[1..])
        case Err(m) => Err(m)
        case Ok(rest) =>
          Ok(FuncsOut([f.(body := b.stmts)] + rest.funcs, b.warnings + rest.warnings, rest.declared))
  }

  /** One step of the walk: the first function's body, then the functions it
      created, then the rest. */
  lemma TransformFuncsCons(inClass: bool, declared: set<VarId>, f: Func, fs: seq<Func>)
    requires TransformBody(f, inClass, declared + ParamIds(f.params), f.body).Ok?
    ensures var b := TransformBody(f, inClass, declared + ParamIds(f.params), f.body).value;
      TransformFuncs(inClass, declared, [f] + fs) ==
        match TransformFuncs(inClass, b.declared, Reverse(b.funcs) + fs)
        case Err(m) => Err(m)
        case Ok(rest) => Ok(FuncsOut([f.(body := b.stmts)] + rest.funcs, b.warnings + rest.warnings, rest.declared))
  {
    assert ([f] + fs)[0] == f && ([f] + fs)[1..] == fs;
  }

  /** The functions `fs` reappear in `out` at the increasing positions `idx`,
      each with only its body changed. */
  ghost predicate KeptAt(out: seq<Func>, fs: seq<Func>, idx: seq<nat>)
  {
    && |idx| == |fs|
    && (forall k :: 0 <= k < |idx| ==> idx[k] < |out| && out[idx[k]] == fs[k].(body := out[idx[k]].body))
    && (forall k, l :: 0 <= k < l < |idx| ==> idx[k] < idx[l])
  }

  /** Every function of the module comes back, in its place relative to the
      others, with only its body changed; the created functions go in between. */
  lemma {:induction false} TransformFuncsKeeps(inClass: bool, declared: set<VarId>, fs: seq<Func>) returns (idx: seq<nat>)
    requires TransformFuncs(inClass, declared, fs).Ok?
    ensures KeptAt(TransformFuncs(inClass, declared, fs).value.funcs, fs, idx)
    decreases FuncsSize(fs)
  {
    if fs == [] {
      return [];
    }
    var f := fs[0];
    var b := TransformBody(f, inClass, declared + ParamIds(f.params), f.body).value;
    var made := Reverse(b.funcs);
    FuncsSizeReverse(b.funcs);
    FuncsSizeAppend(made, fs[1..]);
    var out := TransformFuncs(inClass, declared, fs).value.funcs;
    var rest := TransformFuncs(inClass, b.declared, made + fs[1..]).value.funcs;
    assert out == [f.(body := b.stmts)] + rest;
    var ridx := TransformFuncsKeeps(inClass, b.declared, made + fs[1..]);
    idx := KeptCons(f.(body := b.stmts), fs, made, rest, ridx);
  }

  /** The first function in front of the walk over the created ones and the
      rest keeps its place, and the rest keep theirs after the created ones. */
  lemma KeptCons(g: Func, fs: seq<Func>, made: seq<Func>, rest: seq<Func>, ridx: seq<nat>) returns (idx: seq<nat>)
    requires fs != [] && g == fs[0].(body := g.body)
    requires KeptAt(rest, made + fs[1..], ridx)
    ensures KeptAt([g] + rest, fs, idx)
  {
    var out := [g] + rest;
    var n := |made|;
    idx := [0] + seq(|fs| - 1, k requires 0 <= k < |fs| - 1 => 1 + ridx[n + k]);
    forall k | 0 <= k < |idx|
      ensures idx[k] < |out| && out[idx[k]] == fs[k].(body := out[idx[k]].body)
    {
      if k > 0 {
        assert (made + fs[1..])[n + k - 1] == fs[k];
        assert out[idx[k]] == rest[ridx[n + k - 1]];
      }
    }
  }

  /** A module: whether it is a class, the variables declared in it, its functions. */
  datatype Module = Module(isClass: bool, vars: seq<Var>, funcs: seq<Func>)

  /** No function of any module of the list has a fork left. */
  predicate ForkFreeModules(ms: seq<Module>)
  {
    forall i :: 0 <= i < |ms| ==> ForkFreeFuncs(ms[i].funcs)
  }

  function VarIds(vs: seq<Var>): set<VarId>
  {
    set i | 0 <= i < |vs| :: vs[i].id
  }

  /** The same modules, in order, with only their functions changed. */
  predicate ModulesKept(out: seq<Module>, ms: seq<Module>)
  {
    |out| == |ms| && forall i :: 0 <= i < |ms| ==> out[i] == ms[i].(funcs := out[i].funcs)
  }

  function TransformModules(declared: set<VarId>, ms: seq<Module>): (r: Result<(seq<Module>, seq<Var>)>)
    ensures r.Ok? ==> |r.value.0| == |ms|
    ensures r.Ok? ==> ModulesKept(r.value.0, ms)
    ensures r.Ok? ==> ForkFreeModules(r.value.0)
    decreases ms
  {
    if ms == [] then Ok(([], []))
    else
      var m := ms[0];
      match TransformFuncs(m.isClass, declared + VarIds(m.vars), m.funcs)
      case Err(e) => Err(e)
      case Ok(fo) =>
        match TransformModules(fo.declared, ms[1..])
        case Err(e) => Err(e)
        case Ok(rest) => Ok(([m.(funcs := fo.funcs)] + rest.0, fo.warnings + rest.1))
  }

  /** One step of the walk over the modules. */
  lemma TransformModulesCons(declared: set<VarId>, m: Module, ms: seq<Module>)
    requires TransformFuncs(m.isClass, declared + VarIds(m.vars), m.funcs).Ok?
    ensures var fo := TransformFuncs(m.isClass, declared + VarIds(m.vars), m.funcs).value;
      TransformModules(declared, [m] + ms) ==
        match TransformModules(fo.declared, ms)
        case Err(e) => Err(e)
        case Ok(rest) => Ok(([m.(funcs := fo.funcs)] + rest.0, fo.warnings + rest.1))
  {
    assert ([m] + ms)[0] == m && ([m] + ms)[1..] == ms;
  }

  /** Within each module, every function comes back in order with only its
      body changed. */
  lemma {:induction false} TransformModulesKeeps(declared: set<VarId>, ms: seq<Module>, i: nat) returns (idx: seq<nat>)
    requires TransformModules(declared, ms).Ok? && i < |ms|
    ensures KeptAt(TransformModules(declared, ms).value.0[i].funcs, ms[i].funcs, idx)
    decreases ms
  {
    var m := ms[0];
    var fo := TransformFuncs(m.isClass, declared + VarIds(m.vars), m.funcs).value;
    var rest := TransformModules(fo.declared, ms[1..]).value.0;
    var out := TransformModules(declared, ms).value.0;
    assert out == [m.(funcs := fo.funcs)] + rest;
    if i == 0 {
      idx := TransformFuncsKeeps(m.isClass, declared + VarIds(m.vars), m.funcs);
    } else {
      idx := TransformModulesKeeps(fo.declared, ms[1..], i - 1);
      assert out[i] == rest[i - 1];
    }
  }

  /** transformForks: nothing to do without timing; otherwise every module's
      functions are walked, and afterwards no fork remains. */
  function TransformForks(usesTiming: bool, ms: seq<Module>): (r: Result<(seq<Module>, seq<Var>)>)
    ensures !usesTiming ==> r == Ok((ms, []))
    ensures usesTiming && r.Ok? ==> |r.value.0| == |ms|
    ensures usesTiming && r.Ok? ==> ModulesKept(r.value.0, ms)
    ensures usesTiming && r.Ok? ==>
      ForkFreeModules(r.value.0)
  {
    if !usesTiming then Ok((ms, [])) else TransformModules({}, ms)
  }

  /** A body without forks is left as it is. */
  lemma {:induction false} ForkFreeBodyUnchanged(cur: Func, inClass: bool, declared: set<VarId>, ss: seq<FStmt>)
    requires NoForksAll(ss)
    ensures TransformBody(cur, inClass, declared, ss).Ok?
    ensures TransformBody(cur, inClass, declared, ss).value.stmts == ss
    ensures TransformBody(cur, inClass, declared, ss).value.funcs == []
    ensures TransformBody(cur, inClass, declared, ss).value.warnings == []
    decreases SizeAll(ss)
  {
    if ss != [] {
      assert SizeAll(ss) == Size(ss[0]) + SizeAll(ss[1..]);
      assert ss == [ss[0]] + ss[1..];
      match ss[0]
      case Decl(v) => ForkFreeBodyUnchanged(cur, inClass, declared + {v.id}, ss[1..]);
      case Block(body) =>
        assert Size(ss[0]) == 1 + SizeAll(body);
        ForkFreeBodyUnchanged(cur, inClass, declared, body);
        var inner := TransformBody(cur, inClass, declared, body).value;
        ForkFreeBodyUnchanged(cur, inClass, inner.declared, ss[1..]);
      case Use(_) => ForkFreeBodyUnchanged(cur, inClass, declared, ss[1..]);
      case AwaitUse(_) => ForkFreeBodyUnchanged(cur, inClass, declared, ss[1..]);
      case CallS(_, _, _) => ForkFreeBodyUnchanged(cur, inClass, declared, ss[1..]);
    }
  }

  /** A function whose body comes back unchanged with nothing created,
      followed by functions that come back unchanged, comes back unchanged. */
  lemma FuncConsUnchanged(inClass: bool, declared: set<VarId>, f: Func, fs: seq<Func>, b: BodyOut)
    requires TransformBody(f, inClass, declared + ParamIds(f.params), f.body) == Ok(b)
    requires b.stmts == f.body && b.funcs == [] && b.warnings == []
    requires TransformFuncs(inClass, b.declared, fs).Ok?
    requires TransformFuncs(inClass, b.declared, fs).value.funcs == fs
    requires TransformFuncs(inClass, b.declared, fs).value.warnings == []
    ensures TransformFuncs(inClass, declared, [f] + fs).Ok?
    ensures TransformFuncs(inClass, declared, [f] + fs).value.funcs == [f] + fs
    ensures TransformFuncs(inClass, declared, [f] + fs).value.warnings == []
  {
    assert Reverse(b.funcs) + fs == fs;
    TransformFuncsCons(inClass, declared, f, fs);
    assert f.(body := b.stmts) == f;
  }

  /** Functions without forks are left as they are. */
  lemma {:induction false} ForkFreeFuncsUnchanged(inClass: bool, declared: set<VarId>, fs: seq<Func>)
    requires ForkFreeFuncs(fs)
    ensures TransformFuncs(inClass, declared, fs).Ok?
    ensures TransformFuncs(inClass, declared, fs).value.funcs == fs
    ensures TransformFuncs(inClass, declared, fs).value.warnings == []
    decreases |fs|
  {
    if fs != [] {
      var f := fs[0];
      ForkFreeBodyUnchanged(f, inClass, declared + ParamIds(f.params), f.body);
      var b := TransformBody(f, inClass, declared + ParamIds(f.params), f.body).value;
      ForkFreeFuncsUnchanged(inClass, b.declared, fs[1..]);
      FuncConsUnchanged(inClass, declared, f, fs[1..], b);
      assert fs == [f] + fs[1..];
    }
  }

  /** A module whose functions come back unchanged, followed by modules that
      come back unchanged, comes back unchanged. */
  lemma ModuleConsUnchanged(declared: set<VarId>, m: Module, ms: seq<Module>)
    requires TransformFuncs(m.isClass, declared + VarIds(m.vars), m.funcs).Ok?
    requires TransformFuncs(m.isClass, declared + VarIds(m.vars), m.funcs).value.funcs == m.funcs
    requires TransformFuncs(m.isClass, declared + VarIds(m.vars), m.funcs).value.warnings == []
    requires TransformModules(TransformFuncs(m.isClass, declared + VarIds(m.vars), m.funcs).value.declared, ms) == Ok((ms, []))
    ensures TransformModules(declared, [m] + ms) == Ok(([m] + ms, []))
  {
    TransformModulesCons(declared, m, ms);
    assert m.(funcs := m.funcs) == m;
    var noWarnings: seq<Var> := [];
    assert noWarnings + noWarnings == [];
  }

  lemma {:induction false} ForkFreeModulesUnchanged(declared: set<VarId>, ms: seq<Module>)
    requires ForkFreeModules(ms)
    ensures TransformModules(declared, ms) == Ok((ms, []))
    decreases ms
  {
    if ms != [] {
      var m := ms[0];
      ForkFreeFuncsUnchanged(m.isClass, declared + VarIds(m.vars), m.funcs);
      assert ForkFreeModules(ms[1..]) by {
        assert forall i :: 0 <= i < |ms[1..]| ==> ms[1..][i] == ms[i + 1];
      }
      ForkFreeModulesUnchanged(TransformFuncs(m.isClass, declared + VarIds(m.vars), m.funcs).value.declared, ms[1..]);
      ModuleConsUnchanged(declared, m, ms[1..]);
      assert ms == [m] + ms[1..];
    }
  }

  /** transformForks is idempotent: its output has nothing left to lower. */
  lemma TransformForksIdempotent(ms: seq<Module>)
    requires TransformForks(true, ms).Ok?
    ensures TransformForks(true, TransformForks(true, ms).value.0) == Ok((TransformForks(true, ms).value.0, []))
  {
    ForkFreeModulesUnchanged({}, TransformForks(true, ms).value.0);
  }

  /** A process that only awaits becomes one call and one coroutine with nothing to remap. */
  lemma LowerAwaitOnly(f: Func, p: Process)
    requires p.name != "" && p.body == [AwaitUse([])]
    ensures LowerBegin(f, false, {}, Join, p) ==
      Ok(Lowered([CallS(p.name, [], false)], [Coroutine(f, false, p, Remapping(map[], [], [], []))], []))
  {
    assert HasAwaitsAll(p.body);
    assert RefsAll(p.body) == [];
    assert RemapSpec(p.name, [], {}, Join) == Remapping(map[], [], [], []);
  }

  /** A fork of two processes lowers each in turn and concatenates the results. */
  lemma LowerPair(f: Func, pa: Process, pb: Process, la: Lowered, lb: Lowered)
    requires LowerBegin(f, false, {}, Join, pa) == Ok(la) && LowerBegin(f, false, {}, Join, pb) == Ok(lb)
    ensures LowerFork(f, false, {}, Join, [pa, pb]) ==
      Ok(Lowered(la.stmts + lb.stmts, la.funcs + lb.funcs, la.warnings + lb.warnings))
  {
    assert LowerFork(f, false, {}, Join, []) == Ok(Lowered([], [], []));
    LowerForkCons(f, false, {}, Join, pb, []);
    assert [pb] + [] == [pb];
    assert lb.stmts + [] == lb.stmts && lb.funcs + [] == lb.funcs && lb.warnings + [] == lb.warnings;
    LowerForkCons(f, false, {}, Join, pa, [pb]);
    assert [pa] + [pb] == [pa, pb];
  }

  /** The fork of the example below: two calls, two coroutines in creation order. */
  lemma LowerTwoProcesses(f: Func, pa: Process, pb: Process)
    requires pa == Process("a", [AwaitUse([])]) && pb == Process("b", [AwaitUse([])])
    ensures LowerFork(f, false, {}, Join, [pa, pb]) ==
      Ok(Lowered([CallS("a", [], false), CallS("b", [], false)],
                 [Coroutine(f, false, pa, Remapping(map[], [], [], [])), Coroutine(f, false, pb, Remapping(map[], [], [], []))],
                 []))
  {
    var ca := Coroutine(f, false, pa, Remapping(map[], [], [], []));
    var cb := Coroutine(f, false, pb, Remapping(map[], [], [], []));
    var noWarnings: seq<Var> := [];
    LowerAwaitOnly(f, pa);
    LowerAwaitOnly(f, pb);
    LowerPair(f, pa, pb, Lowered([CallS("a", [], false)], [ca], noWarnings), Lowered([CallS("b", [], false)], [cb], noWarnings));
    assert [CallS("a", [], false)] + [CallS("b", [], false)] == [CallS("a", [], false), CallS("b", [], false)];
    assert [ca] + [cb] == [ca, cb] && noWarnings + noWarnings == [];
  }

  lemma BodyOfTwoProcesses(f: Func, pa: Process, pb: Process)
    requires pa == Process("a", [AwaitUse([])]) && pb == Process("b", [AwaitUse([])])
    requires f.body == [ForkS(Join, [pa, pb])]
    ensures TransformBody(f, false, {}, f.body).Ok?
    ensures TransformBody(f, false, {}, f.body).value.funcs ==
      [Coroutine(f, false, pa, Remapping(map[], [], [], [])), Coroutine(f, false, pb, Remapping(map[], [], [], []))]
  {
    var calls := [CallS("a", [], false), CallS("b", [], false)];
    LowerTwoProcesses(f, pa, pb);
    assert NoForksAll(calls) by {
      assert calls[1..] == [CallS("b", [], false)];
    }
    ForkFreeBodyUnchanged(f, false, {}, calls);
    assert f.body[1..] == [] && calls + [] == calls;
  }

  /** A coroutine made from a single await has no fork. */
  lemma AwaitCoroutineForkFree(cur: Func, p: Process, st: Remapping)
    requires p.body == [AwaitUse([])]
    ensures NoForksAll(Coroutine(cur, false, p, st).body)
  {
    var r := RedirectAll(p.body, st.cache);
    assert p.body[0] == AwaitUse([]) && p.body[1..] == [];
    assert r == [Redirect(AwaitUse([]), st.cache)] + RedirectAll([], st.cache);
    assert NoForks(r[0]) && r[1..] == [];
  }

  /** The walk over a single function whose body creates two fork-free
      functions: the function, then the created ones in reverse order. */
  lemma WalkOneFunc(f: Func, ca: Func, cb: Func)
    requires f.params == []
    requires TransformBody(f, false, {}, f.body).Ok?
    requires TransformBody(f, false, {}, f.body).value.funcs == [ca, cb]
    requires NoForksAll(ca.body) && NoForksAll(cb.body)
    ensures TransformFuncs(false, {}, [f]).Ok?
    ensures TransformFuncs(false, {}, [f]).value.funcs ==
      [f.(body := TransformBody(f, false, {}, f.body).value.stmts), cb, ca]
  {
    var b := TransformBody(f, false, {}, f.body).value;
    assert {} + ParamIds(f.params) == {};
    assert Reverse([ca, cb]) == [cb, ca] by {
      assert [ca, cb][1..] == [cb];
      assert [cb][1..] == [];
    }
    ForkFreeFuncsUnchanged(false, b.declared, [cb, ca]);
    assert Reverse(b.funcs) + [] == [cb, ca];
    assert [f] + [] == [f];
    TransformFuncsCons(false, {}, f, []);
  }

  /** Insertion right after the current function: a fork of two suspending
      processes `a` then `b` in `f` leaves the function list as f, b, a. */
  lemma LaterCreatedFirst(f: Func)
    requires f.params == [] && f.name == "f"
    requires f.body == [ForkS(Join, [Process("a", [AwaitUse([])]), Process("b", [AwaitUse([])])])]
    ensures TransformFuncs(false, {}, [f]).Ok?
    ensures var out := TransformFuncs(false, {}, [f]).value.funcs;
      |out| == 3 && out[0].name == "f" && out[1].name == "b" && out[2].name == "a"
  {
    var pa := Process("a", [AwaitUse([])]);
    var pb := Process("b", [AwaitUse([])]);
    var ca := Coroutine(f, false, pa, Remapping(map[], [], [], []));
    var cb := Coroutine(f, false, pb, Remapping(map[], [], [], []));
    BodyOfTwoProcesses(f, pa, pb);
    AwaitCoroutineForkFree(f, pa, Remapping(map[], [], [], []));
    AwaitCoroutineForkFree(f, pb, Remapping(map[], [], [], []));
    WalkOneFunc(f, ca, cb);
  }
}

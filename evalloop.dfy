/** The evaluation loops the scheduler generates (src/V3Sched.cpp, buildLoop,
    makeEvalLoop, createSettle, createInputCombLoop, createEval), given their
    run-time meaning: an interpreter over trigger vectors in which the trigger
    computation and region functions are parameters. */
module EvalLoop {
  import opened Wrappers

  //--------------------------------------------------------------------------
  // Trigger vectors (VlTriggerVec): any, clear, thisOr, andNot

  type TrigVec = seq<bool>

  /** `any()`: at least one bit is set. */
  predicate Any(v: TrigVec)
  {
    exists i :: 0 <= i < |v| && v[i]
  }

  /** Bit `i`, reading bits past the end as clear. */
  function Bit(v: TrigVec, i: nat): bool
  {
    i < |v| && v[i]
  }

  /** Every bit set in `small` is set in `big`. */
  predicate Includes(big: TrigVec, small: TrigVec)
  {
    forall i :: 0 <= i < |small| && small[i] ==> Bit(big, i)
  }

  /** No bit is set in both. */
  predicate Disjoint(a: TrigVec, b: TrigVec)
  {
    forall i :: 0 <= i < |a| && a[i] ==> !Bit(b, i)
  }

  /** `clear()`: all bits of the vector reset, width kept. */
  function Clear(v: TrigVec): (r: TrigVec)
    ensures |r| == |v| && !Any(r)
    ensures forall i: nat :: !Bit(r, i)
  {
    seq(|v|, _ => false)
  }

  /** `to.thisOr(from)`: the smallest vector of `to`'s width holding the bits of
      both; the generated code only combines vectors of one type, so `from` is
      never wider (a wider `from` would lose its extra bits). */
  function ThisOr(to: TrigVec, from: TrigVec): (r: TrigVec)
    ensures |r| == |to|
    ensures Includes(r, to)
    ensures |from| <= |to| ==> Includes(r, from)
    ensures forall i: nat :: Bit(r, i) ==> Bit(to, i) || Bit(from, i)
  {
    seq(|to|, i requires 0 <= i < |to| => to[i] || Bit(from, i))
  }

  /** `lhs.andNot(a, b)`: the bits of `a` that are not set in `b`. */
  function AndNot(a: TrigVec, b: TrigVec): (r: TrigVec)
    ensures |r| == |a|
    ensures Includes(a, r) && Disjoint(r, b)
    ensures forall i: nat :: Bit(a, i) && !Bit(b, i) ==> Bit(r, i)
  {
    seq(|a|, i requires 0 <= i < |a| => a[i] && !Bit(b, i))
  }

  /** `set(i, b)`; an index past the end changes nothing. */
  function SetBit(v: TrigVec, i: nat, b: bool): (r: TrigVec)
    ensures |r| == |v|
    ensures i < |v| ==> r[i] == b
    ensures forall j: nat :: j != i ==> Bit(r, j) == Bit(v, j)
  {
    if i < |v| then v[i := b] else v
  }

  lemma IncludesTrans(a: TrigVec, b: TrigVec, c: TrigVec)
    requires Includes(a, b) && Includes(b, c)
    ensures Includes(a, c)
  {
    forall i | 0 <= i < |c| && c[i]
      ensures Bit(a, i)
    {
      assert Bit(b, i);
    }
  }

  /** OR-ing two vectors of one width fires exactly when either operand does. */
  lemma ThisOrAny(to: TrigVec, from: TrigVec)
    requires |from| <= |to|
    ensures Any(ThisOr(to, from)) <==> Any(to) || Any(from)
  {
    var r := ThisOr(to, from);
    if Any(from) {
      var i :| 0 <= i < |from| && from[i];
      assert r[i];
    }
    if Any(to) {
      var i :| 0 <= i < |to| && to[i];
      assert r[i];
    }
    if Any(r) {
      var i :| 0 <= i < |r| && r[i];
      assert Bit(to, i) || Bit(from, i);
    }
  }

  /** The act body's `pre` bits are exactly the act bits the NBA vector did not
      already hold: latching `pre` instead of `act` gives the same NBA vector. */
  lemma LatchSplit(act: TrigVec, nba: TrigVec)
    ensures Disjoint(AndNot(act, nba), nba)
    ensures ThisOr(nba, AndNot(act, nba)) == ThisOr(nba, act)
  {
    var pre := AndNot(act, nba);
    var x := ThisOr(nba, pre);
    var y := ThisOr(nba, act);
    assert |x| == |y|;
    forall i | 0 <= i < |x|
      ensures x[i] == y[i]
    {
      assert Bit(pre, i) == (Bit(act, i) && !Bit(nba, i));
    }
  }

  //--------------------------------------------------------------------------
  // makeEvalLoop / buildLoop

  /** A run ends normally with the new state, or with VL_FATAL_MT's message. */
  datatype Outcome<S> = Done(state: S) | Fatal(msg: string)

  function NotConverged(name: string): string
  {
    name + " region did not converge."
  }

  /** What makeEvalLoop is given: the region's name, the converge limit, the
      trigger computation (which sees the iteration counter, as the
      first-iteration trigger does), the vector that decides whether to go on,
      and the body. */
  datatype EvalLoop<!S> = EvalLoop(
    name: string,
    limit: nat,
    compute: (nat, S) -> Outcome<S>,
    trig: S -> TrigVec,
    body: S -> Outcome<S>)

  /** The generated loop from iteration `counter` on: compute the triggers; stop
      when none is set; otherwise die when the counter is past the limit, else
      count the iteration and run the body. The result carries the final state
      and the final counter, which is the number of bodies run. */
  function RunFrom<S>(l: EvalLoop<S>, counter: nat, s: S): Outcome<(S, nat)>
    decreases l.limit + 1 - counter
  {
    match l.compute(counter, s)
    case Fatal(m) => Fatal(m)
    case Done(s1) =>
      if !Any(l.trig(s1)) then Done((s1, counter))
      else if counter > l.limit then Fatal(NotConverged(l.name))
      else
        match l.body(s1)
        case Fatal(m) => Fatal(m)
        case Done(s2) => RunFrom(l, counter + 1, s2)
  }

  /** The loop statement makeEvalLoop returns: the counter starts at 0. */
  function Run<S>(l: EvalLoop<S>, s: S): Outcome<S>
  {
    match RunFrom(l, 0, s)
    case Fatal(m) => Fatal(m)
    case Done(p) => Done(p.0)
  }

  /** The loop as generated: `counter = 0; continue = 1; while (continue) {
      continue = 0; <compute>; if (vec.any()) { continue = 1; if (counter >
      limit) fatal; ++counter; <body> } }`. */
  method RunLoop<S>(l: EvalLoop<S>, s0: S) returns (r: Outcome<(S, nat)>)
    ensures r == RunFrom(l, 0, s0)
    ensures r.Done? ==> !Any(l.trig(r.state.0)) && r.state.1 <= l.limit + 1
  {
    var counter: nat := 0;
    var cont := true;
    var s := s0;
    while cont
      invariant counter <= l.limit + 1
      invariant cont ==> RunFrom(l, 0, s0) == RunFrom(l, counter, s)
      invariant !cont ==> RunFrom(l, 0, s0) == Done((s, counter)) && !Any(l.trig(s))
      decreases if cont then l.limit + 2 - counter else 0
    {
      cont := false;
      var c := l.compute(counter, s);
      if c.Fatal? {
        return Fatal(c.msg);
      }
      s := c.state;
      if Any(l.trig(s)) {
        cont := true;
        if counter > l.limit {
          return Fatal(NotConverged(l.name));
        }
        counter := counter + 1;
        var b := l.body(s);
        if b.Fatal? {
          return Fatal(b.msg);
        }
        s := b.state;
      }
    }
    r := Done((s, counter));
  }

  /** The counter only grows, and never past the limit plus one. */
  lemma {:induction false} RunFromCount<S>(l: EvalLoop<S>, counter: nat, s: S)
    requires RunFrom(l, counter, s).Done?
    ensures counter <= RunFrom(l, counter, s).state.1
    ensures RunFrom(l, counter, s).state.1 == counter || RunFrom(l, counter, s).state.1 <= l.limit + 1
    decreases l.limit + 1 - counter
  {
    match l.compute(counter, s)
    case Fatal(_) =>
    case Done(s1) =>
      if Any(l.trig(s1)) && counter <= l.limit {
        match l.body(s1)
        case Fatal(_) =>
        case Done(s2) => RunFromCount(l, counter + 1, s2);
      }
  }

  /** A loop that ends normally ends on a computation that set no trigger, so
      it ends in a state every computation establishes. */
  lemma {:induction false} RunFromQuiet<S>(l: EvalLoop<S>, counter: nat, s: S, q: S -> bool)
    requires forall c, x :: l.compute(c, x).Done? ==> q(l.compute(c, x).state)
    requires RunFrom(l, counter, s).Done?
    ensures !Any(l.trig(RunFrom(l, counter, s).state.0))
    ensures q(RunFrom(l, counter, s).state.0)
    decreases l.limit + 1 - counter
  {
    match l.compute(counter, s)
    case Fatal(_) =>
    case Done(s1) =>
      if Any(l.trig(s1)) && counter <= l.limit {
        match l.body(s1)
        case Fatal(_) =>
        case Done(s2) => RunFromQuiet(l, counter + 1, s2, q);
      }
  }

  /** What both the computation and the body preserve holds at the end. */
  lemma {:induction false} RunFromInvariant<S>(l: EvalLoop<S>, counter: nat, s: S, p: S -> bool)
    requires p(s)
    requires forall c, x :: p(x) && l.compute(c, x).Done? ==> p(l.compute(c, x).state)
    requires forall x :: p(x) && l.body(x).Done? ==> p(l.body(x).state)
    requires RunFrom(l, counter, s).Done?
    ensures p(RunFrom(l, counter, s).state.0)
    decreases l.limit + 1 - counter
  {
    match l.compute(counter, s)
    case Fatal(_) =>
    case Done(s1) =>
      if Any(l.trig(s1)) && counter <= l.limit {
        match l.body(s1)
        case Fatal(_) =>
        case Done(s2) => RunFromInvariant(l, counter + 1, s2, p);
      }
  }

  /** A region whose triggers fire on every computation, and whose body always
      completes, does not converge. */
  lemma {:induction false} RunFromDiverges<S>(l: EvalLoop<S>, counter: nat, s: S)
    requires forall c, x :: l.compute(c, x).Done? && Any(l.trig(l.compute(c, x).state)) &&
                            l.body(l.compute(c, x).state).Done?
    ensures RunFrom(l, counter, s) == Fatal(NotConverged(l.name))
    decreases l.limit + 1 - counter
  {
    if counter <= l.limit {
      RunFromDiverges(l, counter + 1, l.body(l.compute(counter, s).state).state);
    }
  }

  //--------------------------------------------------------------------------
  // The regions

  /** The trigger vectors of `_eval` and `_eval_settle` and the rest of the
      design's state. */
  datatype Env<D> = Env(
    stl: TrigVec, ico: TrigVec, act: TrigVec, pre: TrigVec,
    nba: TrigVec, obs: TrigVec, react: TrigVec, design: D)

  /** A trigger computation function: the sensitivity bits it computes from the
      design, and the design after the expression builder's updates. */
  type TrigFn<!D> = D -> (TrigVec, D)

  /** A region function (or the resume function): it reads the vectors and the
      design and changes only the design. */
  type RegionFn<!D> = Env<D> -> D

  /** A region driven by a "first iteration" extra trigger (settle, ico). */
  datatype FirstIterKit<!D> = FirstIterKit(first: nat, trigs: TrigFn<D>, func: RegionFn<D>)

  /** The trigger function with addFirstIterationTriggerAssignment in front:
      the first-iteration bit is set exactly on iteration 0. */
  function FirstIterTrigs<D>(k: FirstIterKit<D>, counter: nat, d: D): (TrigVec, D)
  {
    var (v, d') := k.trigs(d);
    (SetBit(v, k.first, counter == 0), d')
  }

  function SettleRegion<D>(limit: nat, k: FirstIterKit<D>): EvalLoop<Env<D>>
  {
    EvalLoop("Settle", limit,
      (c, x: Env<D>) => var p := FirstIterTrigs(k, c, x.design); Done(x.(stl := p.0, design := p.1)),
      (x: Env<D>) => x.stl,
      (x: Env<D>) => Done(x.(design := k.func(x))))
  }

  function IcoRegion<D>(limit: nat, k: FirstIterKit<D>): EvalLoop<Env<D>>
  {
    EvalLoop("Input combinational", limit,
      (c, x: Env<D>) => var p := FirstIterTrigs(k, c, x.design); Done(x.(ico := p.0, design := p.1)),
      (x: Env<D>) => x.ico,
      (x: Env<D>) => Done(x.(design := k.func(x))))
  }

  /** createSettle: `_eval_settle` runs the settle loop, or nothing at all when
      there is neither combinational nor hybrid logic. */
  function Settle<D>(hasComb: bool, hasHybrid: bool, limit: nat, k: FirstIterKit<D>, e: Env<D>): Outcome<Env<D>>
  {
    if !hasComb && !hasHybrid then Done(e) else Run(SettleRegion(limit, k), e)
  }

  /** The first-iteration trigger makes the settle and ico bodies run at least
      once, and either loop ends with its vector clear. */
  lemma FirstIterationRuns<D>(limit: nat, k: FirstIterKit<D>, e: Env<D>)
    requires k.first < |k.trigs(e.design).0|
    ensures RunFrom(SettleRegion(limit, k), 0, e).Done? ==>
      RunFrom(SettleRegion(limit, k), 0, e).state.1 >= 1 && !Any(RunFrom(SettleRegion(limit, k), 0, e).state.0.stl)
    ensures RunFrom(IcoRegion(limit, k), 0, e).Done? ==>
      RunFrom(IcoRegion(limit, k), 0, e).state.1 >= 1 && !Any(RunFrom(IcoRegion(limit, k), 0, e).state.0.ico)
  {
    var v := FirstIterTrigs(k, 0, e.design).0;
    assert v[k.first];
    var stl := SettleRegion(limit, k);
    assert Any(stl.compute(0, e).state.stl);
    if RunFrom(stl, 0, e).Done? {
      RunFromCount(stl, 1, stl.body(stl.compute(0, e).state).state);
      RunFromQuiet(stl, 0, e, _ => true);
    }
    var ico := IcoRegion(limit, k);
    assert Any(ico.compute(0, e).state.ico);
    if RunFrom(ico, 0, e).Done? {
      RunFromCount(ico, 1, ico.body(ico.compute(0, e).state).state);
      RunFromQuiet(ico, 0, e, _ => true);
    }
  }

  /** What createEval bolts together: the converge limit, the ico loop if
      there is combinational logic fed by inputs, the act trigger computation
      and functions, the optional observed/reactive functions, the timing
      kit's resume and commit calls if any, and the postponed function. */
  datatype EvalKits<!D> = EvalKits(
    limit: nat,
    ico: Option<FirstIterKit<D>>,
    actTrigs: TrigFn<D>,
    actFunc: RegionFn<D>,
    nbaFunc: RegionFn<D>,
    obsFunc: Option<RegionFn<D>>,
    reactFunc: Option<RegionFn<D>>,
    resume: Option<RegionFn<D>>,
    commit: Option<RegionFn<D>>,
    postponed: Option<D -> D>)

  /** The act loop's trigger step: compute the act triggers, then commit the
      trigger awaits of the previous iteration. The commit entries are guarded
      by act trigger bits, so the commit sees the vector just computed. */
  function ActCompute<D>(k: EvalKits<D>, x: Env<D>): (r: Env<D>)
    ensures r.act == k.actTrigs(x.design).0
    ensures r.(act := x.act, design := x.design) == x
  {
    var (v, d) := k.actTrigs(x.design);
    var x1 := x.(act := v, design := d);
    if k.commit.Some? then x1.(design := k.commit.value(x1)) else x1
  }

  /** The act loop's body: `pre = act andNot nba`, then `nba |= act`, then
      resume, then the act function. NBA bits are latched, never overwritten,
      and `pre` holds just the newly latched ones. */
  function ActBody<D>(k: EvalKits<D>, x: Env<D>): (r: Env<D>)
    ensures Disjoint(r.pre, x.nba) && Includes(x.act, r.pre)
    ensures Includes(r.nba, x.nba) && |r.nba| == |x.nba|
    ensures |x.act| <= |x.nba| ==> Includes(r.nba, x.act)
    ensures r.nba == ThisOr(x.nba, r.pre)
    ensures r.(pre := x.pre, nba := x.nba, design := x.design) == x
  {
    LatchSplit(x.act, x.nba);
    var x1 := x.(pre := AndNot(x.act, x.nba), nba := ThisOr(x.nba, x.act));
    var x2 := if k.resume.Some? then x1.(design := k.resume.value(x1)) else x1;
    x2.(design := k.actFunc(x2))
  }

  function ActRegion<D>(k: EvalKits<D>): EvalLoop<Env<D>>
  {
    EvalLoop("Active", k.limit,
      (c, x: Env<D>) => Done(ActCompute(k, x)),
      (x: Env<D>) => x.act,
      (x: Env<D>) => Done(ActBody(k, x)))
  }

  /** The NBA body: the NBA function, then the NBA bits latched under the
      observed vector, or the reactive one when there is no observed region. */
  function NbaBody<D>(k: EvalKits<D>, x: Env<D>): (r: Env<D>)
    ensures k.obsFunc.Some? ==> r.obs == ThisOr(x.obs, x.nba) && r.react == x.react
    ensures k.obsFunc.None? && k.reactFunc.Some? ==> r.react == ThisOr(x.react, x.nba) && r.obs == x.obs
    ensures k.obsFunc.None? && k.reactFunc.None? ==> r.obs == x.obs && r.react == x.react
    ensures r.(obs := x.obs, react := x.react, design := x.design) == x
  {
    var d := k.nbaFunc(x);
    if k.obsFunc.Some? then x.(design := d, obs := ThisOr(x.obs, x.nba))
    else if k.reactFunc.Some? then x.(design := d, react := ThisOr(x.react, x.nba))
    else x.(design := d)
  }

  /** The NBA loop's trigger step clears the NBA vector and runs the whole act loop. */
  function NbaRegion<D>(k: EvalKits<D>): EvalLoop<Env<D>>
  {
    EvalLoop("NBA", k.limit,
      (c, x: Env<D>) => Run(ActRegion(k), x.(nba := Clear(x.nba))),
      (x: Env<D>) => x.nba,
      (x: Env<D>) => Done(NbaBody(k, x)))
  }

  /** The observed body: its function, then the observed bits latched under
      the reactive vector when there is a reactive region. */
  function ObsBody<D>(k: EvalKits<D>, f: RegionFn<D>, x: Env<D>): (r: Env<D>)
    ensures k.reactFunc.Some? ==> r.react == ThisOr(x.react, x.obs)
    ensures k.reactFunc.None? ==> r.react == x.react
    ensures r.(react := x.react, design := x.design) == x
  {
    var d := f(x);
    if k.reactFunc.Some? then x.(design := d, react := ThisOr(x.react, x.obs)) else x.(design := d)
  }

  function ObsRegion<D>(k: EvalKits<D>, f: RegionFn<D>): EvalLoop<Env<D>>
  {
    EvalLoop("Observed", k.limit,
      (c, x: Env<D>) => Run(NbaRegion(k), x.(obs := Clear(x.obs))),
      (x: Env<D>) => x.obs,
      (x: Env<D>) => Done(ObsBody(k, f, x)))
  }

  /** The observed loop when there is one, else the NBA loop. */
  function Inner<D>(k: EvalKits<D>): EvalLoop<Env<D>>
  {
    match k.obsFunc
    case Some(f) => ObsRegion(k, f)
    case None => NbaRegion(k)
  }

  function ReactRegion<D>(k: EvalKits<D>, f: RegionFn<D>): EvalLoop<Env<D>>
  {
    EvalLoop("Reactive", k.limit,
      (c, x: Env<D>) => Run(Inner(k), x.(react := Clear(x.react))),
      (x: Env<D>) => x.react,
      (x: Env<D>) => Done(x.(design := f(x))))
  }

  /** The outermost loop of `_eval`: reactive, else observed, else NBA. */
  function Outer<D>(k: EvalKits<D>): EvalLoop<Env<D>>
  {
    match k.reactFunc
    case Some(f) => ReactRegion(k, f)
    case None => Inner(k)
  }

  /** `_eval`: the ico loop if any, then the outermost loop, then the
      postponed function if any. */
  function Eval<D>(k: EvalKits<D>, e: Env<D>): Outcome<Env<D>>
  {
    var start := match k.ico case None => Done(e) case Some(ik) => Run(IcoRegion(k.limit, ik), e);
    match start
    case Fatal(m) => Fatal(m)
    case Done(e1) =>
      match Run(Outer(k), e1)
      case Fatal(m) => Fatal(m)
      case Done(e2) => Done(match k.postponed case None => e2 case Some(p) => e2.(design := p(e2.design)))
  }

  /** `_eval` run statement by statement. */
  method RunEval<D>(k: EvalKits<D>, e: Env<D>) returns (r: Outcome<Env<D>>)
    ensures r == Eval(k, e)
  {
    var cur := e;
    if k.ico.Some? {
      var ico := RunLoop(IcoRegion(k.limit, k.ico.value), e);
      if ico.Fatal? {
        return Fatal(ico.msg);
      }
      cur := ico.state.0;
    }
    var top := RunLoop(Outer(k), cur);
    if top.Fatal? {
      return Fatal(top.msg);
    }
    cur := top.state.0;
    if k.postponed.Some? {
      cur := cur.(design := k.postponed.value(cur.design));
    }
    r := Done(cur);
  }

  /** `_eval_settle` run statement by statement. */
  method RunSettle<D>(hasComb: bool, hasHybrid: bool, limit: nat, k: FirstIterKit<D>, e: Env<D>)
    returns (r: Outcome<Env<D>>)
    ensures r == Settle(hasComb, hasHybrid, limit, k, e)
  {
    if !hasComb && !hasHybrid {
      return Done(e);
    }
    var stl := RunLoop(SettleRegion(limit, k), e);
    if stl.Fatal? {
      return Fatal(stl.msg);
    }
    r := Done(stl.state.0);
  }

  //--------------------------------------------------------------------------
  // Properties of the nested loops

  /** The act loop ends with no act trigger set, leaves the settle, ico,
      observed and reactive vectors alone, and never drops an NBA bit. */
  lemma ActLoopFacts<D>(k: EvalKits<D>, e: Env<D>)
    requires Run(ActRegion(k), e).Done?
    ensures !Any(Run(ActRegion(k), e).state.act)
    ensures var e' := Run(ActRegion(k), e).state;
      e'.stl == e.stl && e'.ico == e.ico && e'.obs == e.obs && e'.react == e.react && Includes(e'.nba, e.nba)
  {
    var l := ActRegion(k);
    RunFromQuiet(l, 0, e, _ => true);
    var p := (x: Env<D>) =>
      x.stl == e.stl && x.ico == e.ico && x.obs == e.obs && x.react == e.react && Includes(x.nba, e.nba);
    forall x: Env<D> | p(x) && l.body(x).Done?
      ensures p(l.body(x).state)
    {
      IncludesTrans(ActBody(k, x).nba, x.nba, e.nba);
    }
    RunFromInvariant(l, 0, e, p);
  }

  /** A design whose act triggers fire on every computation makes the act
      loop die with "Active region did not converge.". */
  lemma ActLoopDiverges<D>(k: EvalKits<D>, e: Env<D>)
    requires forall d :: Any(k.actTrigs(d).0)
    ensures Run(ActRegion(k), e) == Fatal("Active region did not converge.")
  {
    var l := ActRegion(k);
    forall c: nat, x: Env<D>
      ensures l.compute(c, x).Done? && Any(l.trig(l.compute(c, x).state)) && l.body(l.compute(c, x).state).Done?
    {
      assert l.compute(c, x).state.act == k.actTrigs(x.design).0;
    }
    RunFromDiverges(l, 0, e);
    ActiveMessage();
  }

  lemma ActiveMessage()
    ensures NotConverged("Active") == "Active region did not converge."
  {
  }

  /** The NBA loop ends with the act and NBA vectors clear and the settle and
      ico vectors untouched. */
  lemma NbaLoopFacts<D>(k: EvalKits<D>, e: Env<D>)
    requires Run(NbaRegion(k), e).Done?
    ensures var e' := Run(NbaRegion(k), e).state;
      !Any(e'.act) && !Any(e'.nba) && e'.stl == e.stl && e'.ico == e.ico
  {
    var l := NbaRegion(k);
    var q := (x: Env<D>) => !Any(x.act);
    forall c: nat, x: Env<D> | l.compute(c, x).Done?
      ensures q(l.compute(c, x).state)
    {
      var y := x.(nba := Clear(x.nba));
      ActLoopFacts(k, y);
    }
    RunFromQuiet(l, 0, e, q);
    var p := (x: Env<D>) => x.stl == e.stl && x.ico == e.ico;
    forall c: nat, x: Env<D> | p(x) && l.compute(c, x).Done?
      ensures p(l.compute(c, x).state)
    {
      var y := x.(nba := Clear(x.nba));
      ActLoopFacts(k, y);
    }
    RunFromInvariant(l, 0, e, p);
  }

  /** The observed loop ends with act, NBA and observed vectors clear. */
  lemma ObsLoopFacts<D>(k: EvalKits<D>, f: RegionFn<D>, e: Env<D>)
    requires Run(ObsRegion(k, f), e).Done?
    ensures var e' := Run(ObsRegion(k, f), e).state;
      !Any(e'.act) && !Any(e'.nba) && !Any(e'.obs) && e'.stl == e.stl && e'.ico == e.ico
  {
    var l := ObsRegion(k, f);
    var q := (x: Env<D>) => !Any(x.act) && !Any(x.nba);
    forall c: nat, x: Env<D> | l.compute(c, x).Done?
      ensures q(l.compute(c, x).state)
    {
      var y := x.(obs := Clear(x.obs));
      NbaLoopFacts(k, y);
    }
    RunFromQuiet(l, 0, e, q);
    var p := (x: Env<D>) => x.stl == e.stl && x.ico == e.ico;
    forall c: nat, x: Env<D> | p(x) && l.compute(c, x).Done?
      ensures p(l.compute(c, x).state)
    {
      var y := x.(obs := Clear(x.obs));
      NbaLoopFacts(k, y);
    }
    RunFromInvariant(l, 0, e, p);
  }

  /** Quiescence of the loop nested inside the reactive one. */
  predicate InnerQuiet<D>(k: EvalKits<D>, x: Env<D>)
  {
    !Any(x.act) && !Any(x.nba) && (k.obsFunc.Some? ==> !Any(x.obs))
  }

  lemma InnerLoopFacts<D>(k: EvalKits<D>, e: Env<D>)
    requires Run(Inner(k), e).Done?
    ensures var e' := Run(Inner(k), e).state;
      InnerQuiet(k, e') && e'.stl == e.stl && e'.ico == e.ico
  {
    match k.obsFunc
    case Some(f) => ObsLoopFacts(k, f, e);
    case None => NbaLoopFacts(k, e);
  }

  /** The outermost loop ends with every region it runs quiet and the settle
      and ico vectors untouched. */
  lemma OuterLoopFacts<D>(k: EvalKits<D>, e: Env<D>)
    requires Run(Outer(k), e).Done?
    ensures var e' := Run(Outer(k), e).state;
      InnerQuiet(k, e') && (k.reactFunc.Some? ==> !Any(e'.react)) && e'.stl == e.stl && e'.ico == e.ico
  {
    match k.reactFunc
    case None => InnerLoopFacts(k, e);
    case Some(f) =>
      var l := ReactRegion(k, f);
      var q := (x: Env<D>) => InnerQuiet(k, x);
      forall c: nat, x: Env<D> | l.compute(c, x).Done?
        ensures q(l.compute(c, x).state)
      {
        var y := x.(react := Clear(x.react));
      InnerLoopFacts(k, y);
      }
      RunFromQuiet(l, 0, e, q);
      var p := (x: Env<D>) => x.stl == e.stl && x.ico == e.ico;
      forall c: nat, x: Env<D> | p(x) && l.compute(c, x).Done?
        ensures p(l.compute(c, x).state)
      {
        var y := x.(react := Clear(x.react));
      InnerLoopFacts(k, y);
      }
      RunFromInvariant(l, 0, e, p);
  }

  /** `_eval` returns only when every region it runs is quiet: no ico, act,
      NBA, observed or reactive trigger is left set. */
  lemma EvalQuiescent<D>(k: EvalKits<D>, e: Env<D>)
    requires Eval(k, e).Done?
    ensures var e' := Eval(k, e).state;
      InnerQuiet(k, e') && (k.reactFunc.Some? ==> !Any(e'.react)) && (k.ico.Some? ==> !Any(e'.ico))
  {
    var e1 := e;
    if k.ico.Some? {
      var l := IcoRegion(k.limit, k.ico.value);
      RunFromQuiet(l, 0, e, _ => true);
      e1 := Run(l, e).state;
    }
    OuterLoopFacts(k, e1);
  }
}

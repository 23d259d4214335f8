/** Trigger synthesis: which sensitivities get trigger bits, at which index,
    how a bit is addressed in the TRIGGERVEC, and the trigger computation
    function `createTriggers` emits (src/V3Sched.cpp). */
module Triggers {
  import opened Wrappers
  import opened SchedTypes
  import opened SeqUtil

  /** std::numeric_limits<unsigned>::max(): the "no such trigger" sentinel. */
  const InvalidIndex: nat := 0xFFFF_FFFF

  //--------------------------------------------------------------------------
  // Addressing one trigger bit: word index / 64, mask 1 << (index % 64)

  function Pow2(n: nat): (r: nat)
    ensures r >= 1
  {
    if n == 0 then 1 else 2 * Pow2(n - 1)
  }

  function Log2(m: nat): nat
    requires m >= 1
  {
    if m == 1 then 0 else 1 + Log2(m / 2)
  }

  /** The expression getTrig and createTriggerSenTree build for a bit. */
  function TrigExpr(vec: string, index: nat): Expr
  {
    TrigWord(vec, index / 64, Pow2(index % 64))
  }

  /** The single-item ET_TRUE sensitivity on one trigger bit. */
  function TrigSenTree(vec: string, index: nat): SenTree
  {
    SenTree(0, [SenItem(True, TrigExpr(vec, index))])
  }

  /** Reads back the bit index a trigger expression tests. */
  function DecodeTrig(e: Expr): Option<nat>
  {
    match e
    case TrigWord(_, word, mask) => if mask >= 1 then Some(word * 64 + Log2(mask)) else None
    case _ => None
  }

  lemma {:induction false} Log2Pow2(n: nat)
    ensures Log2(Pow2(n)) == n
  {
    if n > 0 {
      Log2Pow2(n - 1);
      assert Pow2(n) / 2 == Pow2(n - 1);
    }
  }

  lemma {:induction false} Pow2Increasing(a: nat, b: nat)
    requires a < b
    ensures Pow2(a) < Pow2(b)
  {
    if b - 1 > a {
      Pow2Increasing(a, b - 1);
    }
  }

  /** Decoding the word/mask pair gives back the index: distinct bits are
      addressed by distinct expressions, and the mask fits a 64-bit word. */
  lemma TrigExprRoundTrip(vec: string, index: nat)
    ensures DecodeTrig(TrigExpr(vec, index)) == Some(index)
    ensures Pow2(index % 64) < Pow2(64)
  {
    Log2Pow2(index % 64);
    Pow2Increasing(index % 64, 64);
  }

  lemma TrigSenTreeInjective(vec: string, i: nat, j: nat)
    ensures TrigSenTree(vec, i).items[0] == TrigSenTree(vec, j).items[0] ==> i == j
  {
    TrigExprRoundTrip(vec, i);
    TrigExprRoundTrip(vec, j);
  }

  /** createTriggerSenTree: a fresh sensitivity on one bit; the sentinel index is fatal. */
  function CreateTriggerSenTree(vec: string, index: nat): (r: Result<SenTree>)
    ensures r.Err? <==> index == InvalidIndex
    ensures r.Ok? ==> |r.value.items| == 1 && r.value.items[0].edge == True
    ensures r.Ok? ==> DecodeTrig(r.value.items[0].expr) == Some(index)
  {
    if index == InvalidIndex then Err("Invalid trigger index")
    else
      TrigExprRoundTrip(vec, index);
      Ok(TrigSenTree(vec, index))
  }

  //--------------------------------------------------------------------------
  // ExtraTriggers

  /** Synthetic trigger bits, numbered in allocation order. */
  class ExtraTriggers {
    var descriptions: seq<string>

    constructor ()
      ensures descriptions == []
    {
      descriptions := [];
    }

    method Allocate(description: string) returns (index: nat)
      modifies this
      ensures index == |old(descriptions)|
      ensures descriptions == old(descriptions) + [description]
    {
      index := |descriptions|;
      descriptions := descriptions + [description];
    }

    function Size(): nat
      reads this
    {
      |descriptions|
    }
  }

  /** The settle loop's extras: one "first iteration" bit at index 0. */
  method SettleExtras() returns (firstIteration: nat, descriptions: seq<string>)
    ensures firstIteration == 0
    ensures descriptions == ["first iteration"]
  {
    var extras := new ExtraTriggers();
    firstIteration := extras.Allocate("first iteration");
    descriptions := extras.descriptions;
  }

  /** The DPI export bit of the ico loop: after "first iteration" when the
      design has a DPI export trigger, else the sentinel. */
  function IcoDpiExportIndex(hasDpiExport: bool): nat
  {
    if hasDpiExport then 1 else InvalidIndex
  }

  /** The DPI export bit of the act triggers: the only extra, else the sentinel. */
  function ActDpiExportIndex(hasDpiExport: bool): nat
  {
    if hasDpiExport then 0 else InvalidIndex
  }

  /** The ico loop's extras: "first iteration" at 0, then the DPI export bit
      at 1 when the design has a DPI export trigger, else the sentinel. */
  method InputCombExtras(hasDpiExport: bool) returns (firstIteration: nat, dpiExport: nat, descriptions: seq<string>)
    ensures firstIteration == 0
    ensures dpiExport == IcoDpiExportIndex(hasDpiExport)
    ensures hasDpiExport ==> dpiExport == 1 && descriptions == ["first iteration", "DPI export trigger"]
    ensures !hasDpiExport ==> dpiExport == InvalidIndex && descriptions == ["first iteration"]
  {
    var extras := new ExtraTriggers();
    firstIteration := extras.Allocate("first iteration");
    if hasDpiExport {
      dpiExport := extras.Allocate("DPI export trigger");
    } else {
      dpiExport := InvalidIndex;
    }
    descriptions := extras.descriptions;
  }

  /** The act triggers' extras: only the optional DPI export bit, at 0. */
  method ActExtras(hasDpiExport: bool) returns (dpiExport: nat, descriptions: seq<string>)
    ensures dpiExport == ActDpiExportIndex(hasDpiExport)
    ensures hasDpiExport ==> dpiExport == 0 && descriptions == ["DPI export trigger"]
    ensures !hasDpiExport ==> dpiExport == InvalidIndex && descriptions == []
  {
    var extras := new ExtraTriggers();
    if hasDpiExport {
      dpiExport := extras.Allocate("DPI export trigger");
    } else {
      dpiExport := InvalidIndex;
    }
    descriptions := extras.descriptions;
  }

  /** `dpiExportTriggered`: the sensitivity on the DPI export bit when the
      design has a DPI export trigger, else none. */
  function DpiExportTriggered(vec: string, hasDpiExport: bool, index: nat): Result<Option<SenTree>>
  {
    if !hasDpiExport then Ok(None)
    else
      match CreateTriggerSenTree(vec, index)
      case Err(m) => Err(m)
      case Ok(t) => Ok(Some(t))
  }

  /** The index the extras hand out is valid exactly when the design has a DPI
      export trigger, and the guarded construction then builds the sensitivity
      on that bit; without the trigger nothing is built and nothing fails. */
  lemma DpiExportTreeBuilt(vec: string, hasDpiExport: bool)
    ensures CreateTriggerSenTree(vec, IcoDpiExportIndex(hasDpiExport)).Ok? <==> hasDpiExport
    ensures CreateTriggerSenTree(vec, ActDpiExportIndex(hasDpiExport)).Ok? <==> hasDpiExport
    ensures var r := DpiExportTriggered(vec, hasDpiExport, IcoDpiExportIndex(hasDpiExport));
            r.Ok? && (r.value.Some? <==> hasDpiExport) &&
            (r.value.Some? ==> DecodeTrig(r.value.value.items[0].expr) == Some(1))
    ensures var r := DpiExportTriggered(vec, hasDpiExport, ActDpiExportIndex(hasDpiExport));
            r.Ok? && (r.value.Some? <==> hasDpiExport) &&
            (r.value.Some? ==> DecodeTrig(r.value.value.items[0].expr) == Some(0))
  {
  }

  //--------------------------------------------------------------------------
  // getSenTreesUsedBy

  function SensesOf(lbs: LogicByScope): (r: seq<SenTree>)
    ensures |r| == |lbs|
  {
    seq(|lbs|, k requires 0 <= k < |lbs| => lbs[k].active.sen)
  }

  /** The sensitivities of all actives, list after list. */
  function AllSenses(lbss: seq<LogicByScope>): seq<SenTree>
  {
    if lbss == [] then [] else AllSenses(lbss[..|lbss| - 1]) + SensesOf(lbss[|lbss| - 1])
  }

  lemma UsedByFacts(xs: seq<SenTree>)
    ensures NoDup(Distinct(xs, ClockedOrHybrid))
    ensures forall t :: t in Distinct(xs, ClockedOrHybrid) <==> t in xs && ClockedOrHybrid(t)
    ensures forall i, j :: 0 <= i < j < |Distinct(xs, ClockedOrHybrid)| ==>
              IndexOf(xs, Distinct(xs, ClockedOrHybrid)[i]) < IndexOf(xs, Distinct(xs, ClockedOrHybrid)[j])
  {
    DistinctNoDup(xs, ClockedOrHybrid);
    DistinctMembers(xs, ClockedOrHybrid);
    DistinctOrder(xs, ClockedOrHybrid);
  }

  /** The state of the inner loop after `j` actives: `seen` holds exactly the
      sensitivities visited so far, `result` their clocked or hybrid ones,
      once each, in order. */
  ghost predicate ScanInv(lbs: LogicByScope, before: seq<SenTree>, j: nat, seen: set<SenTree>, result: seq<SenTree>)
    requires j <= |lbs|
  {
    && (forall t :: t in seen <==> t in before + SensesOf(lbs[..j]))
    && result == Distinct(before + SensesOf(lbs[..j]), ClockedOrHybrid)
  }

  /** One active more: its sensitivity is marked, and kept when it is new and
      clocked or hybrid. */
  lemma ScanStep(lbs: LogicByScope, before: seq<SenTree>, j: nat, seen: set<SenTree>, result: seq<SenTree>,
                 seen': set<SenTree>, result': seq<SenTree>)
    requires j < |lbs| && ScanInv(lbs, before, j, seen, result)
    requires var t := lbs[j].active.sen;
             seen' == seen + {t} && result' == (if t in seen || !ClockedOrHybrid(t) then result else result + [t])
    ensures ScanInv(lbs, before, j + 1, seen', result')
  {
    var t := lbs[j].active.sen;
    var visited := before + SensesOf(lbs[..j]);
    assert before + SensesOf(lbs[..j + 1]) == visited + [t];
    assert (visited + [t])[..|visited|] == visited;
    DistinctMembers(visited, ClockedOrHybrid);
  }

  /** The inner loop of getSenTreesUsedBy over one LogicByScope: the `user1`
      flag is `seen`, set on every sensitivity visited. */
  method ScanUsedBy(lbs: LogicByScope, ghost before: seq<SenTree>, seen0: set<SenTree>, result0: seq<SenTree>)
    returns (seen: set<SenTree>, result: seq<SenTree>)
    requires forall t :: t in seen0 <==> t in before
    requires result0 == Distinct(before, ClockedOrHybrid)
    ensures forall t :: t in seen <==> t in before + SensesOf(lbs)
    ensures result == Distinct(before + SensesOf(lbs), ClockedOrHybrid)
  {
    seen, result := seen0, result0;
    assert before + SensesOf(lbs[..0]) == before;
    for j := 0 to |lbs|
      invariant ScanInv(lbs, before, j, seen, result)
    {
      var t := lbs[j].active.sen;
      ghost var seen1, result1 := seen, result;
      if t in seen {
        assert seen == seen1 + {t};
        ScanStep(lbs, before, j, seen1, result1, seen, result);
        continue;
      }
      seen := seen + {t};
      if ClockedOrHybrid(t) {
        result := result + [t];
      }
      ScanStep(lbs, before, j, seen1, result1, seen, result);
    }
    assert lbs[..|lbs|] == lbs;
  }

  /** Every clocked or hybrid sensitivity once, in first-encounter order. */
  method GetSenTreesUsedBy(lbss: seq<LogicByScope>) returns (result: seq<SenTree>)
    ensures result == Distinct(AllSenses(lbss), ClockedOrHybrid)
    ensures NoDup(result)
    ensures forall t :: t in result <==> t in AllSenses(lbss) && ClockedOrHybrid(t)
    ensures forall i, j :: 0 <= i < j < |result| ==>
              IndexOf(AllSenses(lbss), result[i]) < IndexOf(AllSenses(lbss), result[j])
  {
    var seen: set<SenTree> := {};
    result := [];
    for i := 0 to |lbss|
      invariant forall t :: t in seen <==> t in AllSenses(lbss[..i])
      invariant result == Distinct(AllSenses(lbss[..i]), ClockedOrHybrid)
    {
      assert lbss[..i + 1][..i] == lbss[..i];
      seen, result := ScanUsedBy(lbss[i], AllSenses(lbss[..i]), seen, result);
    }
    assert lbss[..|lbss|] == lbss;
    UsedByFacts(AllSenses(lbss));
  }

  //--------------------------------------------------------------------------
  // remapSensitivities / invertAndMergeSenTreeMap

  /** Redirects every non-combinational active to its trigger sensitivity;
      a sensitivity missing from the map is an error (`map.at`). */
  method RemapSensitivities(lbs: LogicByScope, senTreeMap: map<SenTree, SenTree>) returns (r: Result<LogicByScope>)
    ensures r.Ok? <==> forall k :: 0 <= k < |lbs| ==> lbs[k].active.sen.HasCombo() || lbs[k].active.sen in senTreeMap
    ensures r.Ok? ==> |r.value| == |lbs|
    ensures r.Ok? ==> forall k :: 0 <= k < |lbs| ==>
              r.value[k].scope == lbs[k].scope && r.value[k].active.stmts == lbs[k].active.stmts &&
              r.value[k].active.sen == (if lbs[k].active.sen.HasCombo() then lbs[k].active.sen
                                        else senTreeMap[lbs[k].active.sen])
  {
    var out: LogicByScope := [];
    for k := 0 to |lbs|
      invariant |out| == k
      invariant forall i :: 0 <= i < k ==> lbs[i].active.sen.HasCombo() || lbs[i].active.sen in senTreeMap
      invariant forall i :: 0 <= i < k ==>
                  out[i].scope == lbs[i].scope && out[i].active.stmts == lbs[i].active.stmts &&
                  out[i].active.sen == (if lbs[i].active.sen.HasCombo() then lbs[i].active.sen
                                        else senTreeMap[lbs[i].active.sen])
    {
      var sa := lbs[k];
      if sa.active.sen.HasCombo() {
        out := out + [sa];
      } else if sa.active.sen in senTreeMap {
        out := out + [sa.(active := sa.active.(sen := senTreeMap[sa.active.sen]))];
      } else {
        return Err("unordered_map::at: key not found");
      }
    }
    r := Ok(out);
  }

  /** The items of a map's trigger sensitivities, when each has exactly one. */
  function TriggerItems(senTreeMap: map<SenTree, SenTree>): set<SenItem>
  {
    set t | t in senTreeMap && |senTreeMap[t].items| == 1 :: senTreeMap[t].items[0]
  }

  /** `t`'s trigger sensitivity has one item, and no other key's starts with it. */
  predicate OnlyKeyFor(senTreeMap: map<SenTree, SenTree>, t: SenTree)
  {
    t in senTreeMap && |senTreeMap[t].items| >= 1 &&
    forall u :: u in senTreeMap && |senTreeMap[u].items| >= 1 && senTreeMap[u].items[0] == senTreeMap[t].items[0] ==> u == t
  }

  /** Adds item -> original sensitivity for every entry, never overwriting an
      existing key (`emplace`); a trigger sensitivity with more than one item is fatal. */
  method InvertAndMergeSenTreeMap(result: map<SenItem, SenTree>, senTreeMap: map<SenTree, SenTree>)
    returns (r: Result<map<SenItem, SenTree>>)
    ensures r.Ok? <==> forall t :: t in senTreeMap ==> |senTreeMap[t].items| == 1
    ensures r.Ok? ==> r.value.Keys == result.Keys + TriggerItems(senTreeMap)
    ensures r.Ok? ==> forall i :: i in result ==> r.value[i] == result[i]
    ensures r.Ok? ==> forall i :: i in r.value && i !in result ==>
              exists t :: t in senTreeMap && senTreeMap[t].items[0] == i && r.value[i] == t
    ensures r.Ok? ==> forall t :: OnlyKeyFor(senTreeMap, t) && senTreeMap[t].items[0] !in result ==>
              r.value[senTreeMap[t].items[0]] == t
  {
    var todo := senTreeMap.Keys;
    var acc := result;
    while todo != {}
      invariant todo <= senTreeMap.Keys
      invariant forall t :: t in senTreeMap.Keys - todo ==> |senTreeMap[t].items| == 1
      invariant acc.Keys == result.Keys +
                  set t | t in senTreeMap.Keys - todo && |senTreeMap[t].items| == 1 :: senTreeMap[t].items[0]
      invariant forall i :: i in result ==> acc[i] == result[i]
      invariant forall i :: i in acc && i !in result ==>
                  exists t :: t in senTreeMap.Keys - todo && senTreeMap[t].items[0] == i && acc[i] == t
      decreases todo
    {
      var t :| t in todo;
      if |senTreeMap[t].items| != 1 {
        return Err("Should be single AstSenIem");
      }
      var item := senTreeMap[t].items[0];
      if item !in acc {
        acc := acc[item := t];
      }
      todo := todo - {t};
    }
    r := Ok(acc);
  }

  //--------------------------------------------------------------------------
  // createTriggers

  /** The external SenExprBuilder's state: statements it has accumulated for the
      caller, and its private memo of 'prev' variables (shared across calls). */
  datatype BuilderState = BuilderState(
    inits: seq<nat>, preUpdates: seq<nat>, postUpdates: seq<nat>, locals: seq<nat>, memo: seq<nat>)

  /** What one `senExprBuilder.build(senTree)` call returns. */
  datatype Built = Built(expr: Expr, initDep: bool, next: BuilderState)

  /** Statements of a generated trigger computation function. */
  datatype TrigStmt =
    | SetTrig(index: nat, value: Expr)                // vec.set(index, value)
    | SetTrigOn(index: nat)                           // vec.set(index, 1)
    | Update(code: nat)                               // a pre- or post-update from the builder
    | LocalDecl(code: nat)                            // a local variable from the builder
    | InitOnce(didInit: string, sets: seq<TrigStmt>)  // if (!didInit) { didInit = 1; sets }
    | SetTrigFirst(index: nat, counter: string)       // vec.set(index, counter == 0)
    | SetTrigFromFlag(index: nat, flag: string)       // vec.set(index, flag)
    | ClearFlag(flag: string)                         // flag = 0

  /** The TriggerKit: vector variable, its width, the computation function's body
      and the map from original sensitivity to trigger sensitivity. */
  datatype TriggerKit = TriggerKit(vec: string, width: nat, compute: seq<TrigStmt>, senMap: map<SenTree, SenTree>)

  /** A createTriggers result: the kit, the builder with its lists handed over,
      and the statements added to the initial function. */
  datatype Created = Created(kit: TriggerKit, builder: BuilderState, initStmts: seq<nat>)

  function VecName(name: string): string { "__V" + name + "Triggered" }

  function DidInitName(name: string): string { "__V" + name + "DidInit" }

  /** The results of building the trees one after the other, threading the builder state. */
  function Builds(b: BuilderState, ts: seq<SenTree>, build: (BuilderState, SenTree) -> Built): (r: seq<Built>)
    ensures |r| == |ts|
  {
    if ts == [] then []
    else
      var r := Builds(b, ts[..|ts| - 1], build);
      r + [build(if r == [] then b else r[|r| - 1].next, ts[|ts| - 1])]
  }

  /** The builder state after building all the trees. */
  function BuilderAfter(b: BuilderState, ts: seq<SenTree>, build: (BuilderState, SenTree) -> Built): BuilderState
  {
    if ts == [] then b else Builds(b, ts, build)[|ts| - 1].next
  }

  function Updates(codes: seq<nat>): (r: seq<TrigStmt>)
    ensures |r| == |codes| && forall i :: 0 <= i < |codes| ==> r[i] == Update(codes[i])
  {
    seq(|codes|, i requires 0 <= i < |codes| => Update(codes[i]))
  }

  function Locals(codes: seq<nat>): (r: seq<TrigStmt>)
    ensures |r| == |codes| && forall i :: 0 <= i < |codes| ==> r[i] == LocalDecl(codes[i])
  {
    seq(|codes|, i requires 0 <= i < |codes| => LocalDecl(codes[i]))
  }

  /** The `set(i, 1)` statements scheduled at initialization time, in bit order. */
  function InitSets(bs: seq<Built>, extraCount: nat, xInitialEdge: bool): seq<TrigStmt>
  {
    if bs == [] then []
    else
      InitSets(bs[..|bs| - 1], extraCount, xInitialEdge) +
      (if bs[|bs| - 1].initDep || xInitialEdge then [SetTrigOn(extraCount + |bs| - 1)] else [])
  }

  /** A bit gets an initial-time set exactly when the builder reports the
      expression depends on initial values, or every initial value counts as an edge. */
  lemma {:induction false} InitSetsExactly(bs: seq<Built>, extraCount: nat, xInitialEdge: bool)
    ensures forall k :: 0 <= k < |bs| ==>
              (SetTrigOn(extraCount + k) in InitSets(bs, extraCount, xInitialEdge) <==> bs[k].initDep || xInitialEdge)
    ensures forall s :: s in InitSets(bs, extraCount, xInitialEdge) ==>
              s.SetTrigOn? && extraCount <= s.index < extraCount + |bs|
  {
    if bs != [] {
      var init := bs[..|bs| - 1];
      InitSetsExactly(init, extraCount, xInitialEdge);
      forall k | 0 <= k < |bs|
        ensures SetTrigOn(extraCount + k) in InitSets(bs, extraCount, xInitialEdge) <==> bs[k].initDep || xInitialEdge
      {
        if k < |bs| - 1 {
          assert bs[k] == init[k];
        }
      }
    }
  }

  /** The trigger-setting statements, one per sensitivity, at indices E, E+1, ... */
  function SetTrigs(bs: seq<Built>, extraCount: nat): (r: seq<TrigStmt>)
    ensures |r| == |bs|
  {
    if bs == [] then []
    else SetTrigs(bs[..|bs| - 1], extraCount) + [SetTrig(extraCount + |bs| - 1, bs[|bs| - 1].expr)]
  }

  /** `senMap` maps every sensitivity of `ts` to the trigger sensitivity of
      its position (of its last position when it is repeated). */
  predicate TrigMapOf(vec: string, ts: seq<SenTree>, extraCount: nat, senMap: map<SenTree, SenTree>)
  {
    TrigKeys(ts, senMap) && TrigValues(vec, ts, extraCount, senMap) && TrigPositions(vec, ts, extraCount, senMap)
  }

  /** The map's keys are the sensitivities of `ts`. */
  predicate TrigKeys(ts: seq<SenTree>, senMap: map<SenTree, SenTree>)
  {
    senMap.Keys == (set i | 0 <= i < |ts| :: ts[i])
  }

  /** Every key goes to the trigger sensitivity of one of its positions. */
  predicate TrigValues(vec: string, ts: seq<SenTree>, extraCount: nat, senMap: map<SenTree, SenTree>)
  {
    forall t :: t in senMap ==>
      exists i :: 0 <= i < |ts| && ts[i] == t && senMap[t] == TrigSenTree(vec, extraCount + i)
  }

  /** Without repetitions, every position is mapped to its own trigger sensitivity. */
  predicate TrigPositions(vec: string, ts: seq<SenTree>, extraCount: nat, senMap: map<SenTree, SenTree>)
  {
    NoDup(ts) ==> forall i :: 0 <= i < |ts| ==> ts[i] in senMap && senMap[ts[i]] == TrigSenTree(vec, extraCount + i)
  }

  lemma TrigKeysSnoc(ts: seq<SenTree>, t: SenTree, v: SenTree, senMap: map<SenTree, SenTree>)
    requires TrigKeys(ts, senMap)
    ensures TrigKeys(ts + [t], senMap[t := v])
  {
    var ts' := ts + [t];
    assert (set i | 0 <= i < |ts'| :: ts'[i]) == (set i | 0 <= i < |ts| :: ts[i]) + {t} by {
      forall i | 0 <= i < |ts| ensures ts'[i] == ts[i] { }
      assert ts'[|ts|] == t;
    }
  }

  lemma TrigValuesSnoc(vec: string, ts: seq<SenTree>, t: SenTree, extraCount: nat, senMap: map<SenTree, SenTree>)
    requires TrigValues(vec, ts, extraCount, senMap)
    ensures TrigValues(vec, ts + [t], extraCount, senMap[t := TrigSenTree(vec, extraCount + |ts|)])
  {
    var ts' := ts + [t];
    var m := senMap[t := TrigSenTree(vec, extraCount + |ts|)];
    forall u | u in m
      ensures exists i :: 0 <= i < |ts'| && ts'[i] == u && m[u] == TrigSenTree(vec, extraCount + i)
    {
      if u == t {
        assert ts'[|ts|] == u;
      } else {
        var i :| 0 <= i < |ts| && ts[i] == u && senMap[u] == TrigSenTree(vec, extraCount + i);
        assert ts'[i] == u;
      }
    }
  }

  lemma TrigPositionsSnoc(vec: string, ts: seq<SenTree>, t: SenTree, extraCount: nat, senMap: map<SenTree, SenTree>)
    requires TrigKeys(ts, senMap) && TrigPositions(vec, ts, extraCount, senMap)
    ensures TrigPositions(vec, ts + [t], extraCount, senMap[t := TrigSenTree(vec, extraCount + |ts|)])
  {
    var ts' := ts + [t];
    var m := senMap[t := TrigSenTree(vec, extraCount + |ts|)];
    if NoDup(ts') {
      assert ts'[..|ts|] == ts;
      assert NoDup(ts);
      forall i | 0 <= i < |ts'|
        ensures ts'[i] in m && m[ts'[i]] == TrigSenTree(vec, extraCount + i)
      {
        if i < |ts| {
          assert ts'[i] == ts[i] && ts'[i] != ts'[|ts|];
        }
      }
    }
  }

  lemma TrigMapSnoc(vec: string, ts: seq<SenTree>, t: SenTree, extraCount: nat, senMap: map<SenTree, SenTree>,
                     ts': seq<SenTree>, m: map<SenTree, SenTree>)
    requires TrigMapOf(vec, ts, extraCount, senMap)
    requires ts' == ts + [t] && m == senMap[t := TrigSenTree(vec, extraCount + |ts|)]
    ensures TrigMapOf(vec, ts', extraCount, m)
  {
    TrigKeysSnoc(ts, t, TrigSenTree(vec, extraCount + |ts|), senMap);
    TrigValuesSnoc(vec, ts, t, extraCount, senMap);
    TrigPositionsSnoc(vec, ts, t, extraCount, senMap);
  }

  lemma EmitStep(bs: seq<Built>, built: Built, extraCount: nat, xInitialEdge: bool)
    ensures SetTrigs(bs + [built], extraCount) == SetTrigs(bs, extraCount) + [SetTrig(extraCount + |bs|, built.expr)]
    ensures InitSets(bs + [built], extraCount, xInitialEdge) ==
              InitSets(bs, extraCount, xInitialEdge) +
              (if built.initDep || xInitialEdge then [SetTrigOn(extraCount + |bs|)] else [])
  {
    assert (bs + [built])[..|bs|] == bs;
  }

  /** What createTriggers' per-sensitivity loop has accumulated. */
  datatype Acc = Acc(senMap: map<SenTree, SenTree>, sets: seq<TrigStmt>, inits: seq<TrigStmt>, builder: BuilderState)

  /** The loop of createTriggers after the sensitivities `ts`: the k-th one is
      built at trigger index E + k, mapped to its trigger sensitivity and given
      a `set` statement, plus an initial-time `set(E + k, 1)` when the builder
      reports a dependency on initial values (or every initial value counts as
      an edge); a non-clocked sensitivity is fatal. */
  function EmitTriggers(vec: string, ts: seq<SenTree>, extraCount: nat, b: BuilderState,
                        build: (BuilderState, SenTree) -> Built, xInitialEdge: bool): Result<Acc>
  {
    if ts == [] then Ok(Acc(map[], [], [], b))
    else
      var prev := EmitTriggers(vec, ts[..|ts| - 1], extraCount, b, build, xInitialEdge);
      var t := ts[|ts| - 1];
      var i := extraCount + |ts| - 1;
      if prev.Err? then prev
      else if !ClockedOrHybrid(t) then Err("Cannot create trigger expression for non-clocked sensitivity")
      else
        var built := build(prev.value.builder, t);
        Ok(Acc(prev.value.senMap[t := TrigSenTree(vec, i)],
               prev.value.sets + [SetTrig(i, built.expr)],
               prev.value.inits + (if built.initDep || xInitialEdge then [SetTrigOn(i)] else []),
               built.next))
  }

  /** The loop fails exactly on a non-clocked sensitivity. */
  lemma {:induction false} EmitTriggersOk(vec: string, ts: seq<SenTree>, extraCount: nat, b: BuilderState,
                                          build: (BuilderState, SenTree) -> Built, xInitialEdge: bool)
    ensures EmitTriggers(vec, ts, extraCount, b, build, xInitialEdge).Ok? <==>
            forall k :: 0 <= k < |ts| ==> ClockedOrHybrid(ts[k])
  {
    if ts != [] {
      var init := ts[..|ts| - 1];
      EmitTriggersOk(vec, init, extraCount, b, build, xInitialEdge);
      assert forall k :: 0 <= k < |init| ==> init[k] == ts[k];
    }
  }

  /** The last sensitivity of a successful loop is added to the map of the
      loop over the others. */
  lemma EmitTriggersSnoc(vec: string, ts: seq<SenTree>, extraCount: nat, b: BuilderState,
                         build: (BuilderState, SenTree) -> Built, xInitialEdge: bool)
    requires ts != [] && EmitTriggers(vec, ts, extraCount, b, build, xInitialEdge).Ok?
    ensures EmitTriggers(vec, ts[..|ts| - 1], extraCount, b, build, xInitialEdge).Ok?
    ensures EmitTriggers(vec, ts, extraCount, b, build, xInitialEdge).value.senMap ==
            EmitTriggers(vec, ts[..|ts| - 1], extraCount, b, build, xInitialEdge).value.senMap[
              ts[|ts| - 1] := TrigSenTree(vec, extraCount + |ts[..|ts| - 1]|)]
  {
  }

  /** A successful loop maps every sensitivity to the trigger sensitivity of its own position. */
  lemma {:induction false} EmitTriggersMap(vec: string, ts: seq<SenTree>, extraCount: nat, b: BuilderState,
                                           build: (BuilderState, SenTree) -> Built, xInitialEdge: bool)
    requires EmitTriggers(vec, ts, extraCount, b, build, xInitialEdge).Ok?
    ensures TrigMapOf(vec, ts, extraCount, EmitTriggers(vec, ts, extraCount, b, build, xInitialEdge).value.senMap)
  {
    if ts != [] {
      var init := ts[..|ts| - 1];
      var t := ts[|ts| - 1];
      EmitTriggersSnoc(vec, ts, extraCount, b, build, xInitialEdge);
      SplitLast(ts);
      EmitTriggersMap(vec, init, extraCount, b, build, xInitialEdge);
      TrigMapSnoc(vec, init, t, extraCount, EmitTriggers(vec, init, extraCount, b, build, xInitialEdge).value.senMap,
                  ts, EmitTriggers(vec, ts, extraCount, b, build, xInitialEdge).value.senMap);
    }
  }

  /** A successful loop emits one `set` per built expression, in order, the
      initial-time sets of the builds that need them, and hands on the builder
      state after all the builds. */
  lemma {:induction false} EmitTriggersBuilds(vec: string, ts: seq<SenTree>, extraCount: nat, b: BuilderState,
                                              build: (BuilderState, SenTree) -> Built, xInitialEdge: bool)
    requires EmitTriggers(vec, ts, extraCount, b, build, xInitialEdge).Ok?
    ensures var acc := EmitTriggers(vec, ts, extraCount, b, build, xInitialEdge).value;
            && acc.sets == SetTrigs(Builds(b, ts, build), extraCount)
            && acc.inits == InitSets(Builds(b, ts, build), extraCount, xInitialEdge)
            && acc.builder == BuilderAfter(b, ts, build)
  {
    if ts != [] {
      var init := ts[..|ts| - 1];
      var t := ts[|ts| - 1];
      EmitTriggersBuilds(vec, init, extraCount, b, build, xInitialEdge);
      var prev := EmitTriggers(vec, init, extraCount, b, build, xInitialEdge).value;
      var bs := Builds(b, init, build);
      assert Builds(b, ts, build) == bs + [build(prev.builder, t)];
      EmitStep(bs, build(prev.builder, t), extraCount, xInitialEdge);
    }
  }

  /** Once the loop has failed, later sensitivities change nothing. */
  lemma {:induction false} EmitTriggersErrSticks(vec: string, ts: seq<SenTree>, n: nat, extraCount: nat, b: BuilderState,
                                                 build: (BuilderState, SenTree) -> Built, xInitialEdge: bool)
    requires n <= |ts| && EmitTriggers(vec, ts[..n], extraCount, b, build, xInitialEdge).Err?
    ensures EmitTriggers(vec, ts, extraCount, b, build, xInitialEdge) ==
            EmitTriggers(vec, ts[..n], extraCount, b, build, xInitialEdge)
    decreases |ts|
  {
    if n < |ts| {
      var init := ts[..|ts| - 1];
      assert init[..n] == ts[..n];
      EmitTriggersErrSticks(vec, init, n, extraCount, b, build, xInitialEdge);
    } else {
      assert ts[..n] == ts;
    }
  }

  /** The per-sensitivity loop of createTriggers, with the `triggerNumber`
      counter walking E, E+1, ... */
  method BuildTriggers(vec: string, senTrees: seq<SenTree>, extraCount: nat, b: BuilderState,
                       build: (BuilderState, SenTree) -> Built, xInitialEdge: bool)
    returns (r: Result<Acc>)
    ensures r == EmitTriggers(vec, senTrees, extraCount, b, build, xInitialEdge)
  {
    var senMap: map<SenTree, SenTree> := map[];
    var sets: seq<TrigStmt> := [];
    var initialTrigs: seq<TrigStmt> := [];
    var builder := b;
    var triggerNumber := extraCount;
    for k := 0 to |senTrees|
      invariant triggerNumber == extraCount + k
      invariant EmitTriggers(vec, senTrees[..k], extraCount, b, build, xInitialEdge) ==
                Ok(Acc(senMap, sets, initialTrigs, builder))
    {
      var t := senTrees[k];
      ghost var upTo := senTrees[..k + 1];
      assert upTo[..|upTo| - 1] == senTrees[..k] && upTo[|upTo| - 1] == t;
      if !ClockedOrHybrid(t) {
        EmitTriggersErrSticks(vec, senTrees, k + 1, extraCount, b, build, xInitialEdge);
        return Err("Cannot create trigger expression for non-clocked sensitivity");
      }
      var built := build(builder, t);
      ghost var inits' := initialTrigs + (if built.initDep || xInitialEdge then [SetTrigOn(triggerNumber)] else []);
      senMap := senMap[t := TrigSenTree(vec, triggerNumber)];
      sets := sets + [SetTrig(triggerNumber, built.expr)];
      if built.initDep || xInitialEdge {
        initialTrigs := initialTrigs + [SetTrigOn(triggerNumber)];
      }
      assert initialTrigs == inits';
      builder := built.next;
      triggerNumber := triggerNumber + 1;
    }
    assert senTrees[..|senTrees|] == senTrees;
    r := Ok(Acc(senMap, sets, initialTrigs, builder));
  }

  /** Inserting each of `front` before the first statement, last one first
      (`addHereThisAsNext` over a reversed view), keeps their relative order. */
  method PrependInReverse(front: seq<TrigStmt>, stmts: seq<TrigStmt>) returns (r: seq<TrigStmt>)
    ensures r == front + stmts
  {
    r := stmts;
    var i := |front|;
    while i > 0
      invariant 0 <= i <= |front|
      invariant r == front[i..] + stmts
    {
      assert front[i - 1..] == [front[i - 1]] + front[i..];
      r := [front[i - 1]] + r;
      i := i - 1;
    }
    assert front[0..] == front;
  }

  /** The body of the trigger computation function: the builder's locals and
      pre-updates in front (in their original order), the `set` statements,
      the post-updates, then the once-only initial-time sets, if any. A function
      with no statements cannot carry pre-updates or locals. */
  method AssembleCompute(name: string, sets: seq<TrigStmt>, builder: BuilderState, initialTrigs: seq<TrigStmt>)
    returns (r: Result<seq<TrigStmt>>)
    ensures r.Err? <==> |sets| + |builder.postUpdates| == 0 && (|builder.preUpdates| > 0 || |builder.locals| > 0)
    ensures r.Ok? ==>
              r.value == Locals(builder.locals) + Updates(builder.preUpdates) + sets + Updates(builder.postUpdates) +
                         (if initialTrigs == [] then [] else [InitOnce(DidInitName(name), initialTrigs)])
  {
    var stmts := sets + Updates(builder.postUpdates);
    if |builder.preUpdates| > 0 && stmts == [] {
      return Err("No statements in trigger eval function, but there are pre updates");
    }
    stmts := PrependInReverse(Updates(builder.preUpdates), stmts);
    if |builder.locals| > 0 && stmts == [] {
      return Err("No statements in trigger eval function, but there are locals");
    }
    stmts := PrependInReverse(Locals(builder.locals), stmts);
    ghost var core := Locals(builder.locals) + Updates(builder.preUpdates) + sets + Updates(builder.postUpdates);
    assert stmts == core;
    if initialTrigs != [] {
      stmts := stmts + [InitOnce(DidInitName(name), initialTrigs)];
    } else {
      assert stmts == core + [];
    }
    r := Ok(stmts);
  }

  /** createTriggers: allocates the extras at [0, E) and the k-th sensitivity at
      E + k, emits `set(E + k, expr_k)` for each, the builder's locals and
      pre-updates in front (in their original order), its post-updates behind,
      and the guarded once-only initial-time sets; fatal for a non-clocked
      sensitivity and for pre-updates or locals with an empty function. */
  method CreateTriggers(name: string, senTrees: seq<SenTree>, extraCount: nat, b: BuilderState,
                        build: (BuilderState, SenTree) -> Built, xInitialEdge: bool)
    returns (r: Result<Created>)
    ensures var last := BuilderAfter(b, senTrees, build);
            r.Err? <==> (exists k :: 0 <= k < |senTrees| && !ClockedOrHybrid(senTrees[k])) ||
                        (|senTrees| + |last.postUpdates| == 0 && (|last.preUpdates| > 0 || |last.locals| > 0))
    ensures r.Ok? ==> r.value.kit.vec == VecName(name) && r.value.kit.width == |senTrees| + extraCount
    ensures r.Ok? ==> TrigMapOf(VecName(name), senTrees, extraCount, r.value.kit.senMap)
    ensures r.Ok? ==>
              var bs := Builds(b, senTrees, build);
              var last := BuilderAfter(b, senTrees, build);
              var inits := InitSets(bs, extraCount, xInitialEdge);
              r.value.kit.compute ==
                Locals(last.locals) + Updates(last.preUpdates) + SetTrigs(bs, extraCount) +
                Updates(last.postUpdates) + (if inits == [] then [] else [InitOnce(DidInitName(name), inits)])
    ensures r.Ok? ==>
              var last := BuilderAfter(b, senTrees, build);
              r.value.initStmts == last.inits &&
              r.value.builder == last.(inits := [], preUpdates := [], postUpdates := [], locals := [])
  {
    var vec := VecName(name);
    var built := BuildTriggers(vec, senTrees, extraCount, b, build, xInitialEdge);
    EmitTriggersOk(vec, senTrees, extraCount, b, build, xInitialEdge);
    if built.Err? {
      return Err(built.msg);
    }
    EmitTriggersMap(vec, senTrees, extraCount, b, build, xInitialEdge);
    EmitTriggersBuilds(vec, senTrees, extraCount, b, build, xInitialEdge);
    var Acc(senMap, sets, initialTrigs, builder) := built.value;
    var compute := AssembleCompute(name, sets, builder, initialTrigs);
    if compute.Err? {
      return Err(compute.msg);
    }
    var stmts := compute.value;
    var kit := TriggerKit(vec, |senTrees| + extraCount, stmts, senMap);
    r := Ok(Created(kit, builder.(inits := [], preUpdates := [], postUpdates := [], locals := []), builder.inits));
  }

  /** addFirstIterationTriggerAssignment: `set(index, counter == 0)` in front. */
  function AddFirstIterationTrigger(kit: TriggerKit, counter: string, index: nat): (k: TriggerKit)
    ensures |k.compute| == |kit.compute| + 1
    ensures k.compute[0] == SetTrigFirst(index, counter) && k.compute[1..] == kit.compute
    ensures k.vec == kit.vec && k.width == kit.width && k.senMap == kit.senMap
  {
    kit.(compute := [SetTrigFirst(index, counter)] + kit.compute)
  }

  /** addDpiExportTriggerAssignment: `set(index, flag); flag = 0` in front. */
  function AddDpiExportTrigger(kit: TriggerKit, flag: string, index: nat): (k: TriggerKit)
    ensures |k.compute| == |kit.compute| + 2
    ensures k.compute[..2] == [SetTrigFromFlag(index, flag), ClearFlag(flag)] && k.compute[2..] == kit.compute
    ensures k.vec == kit.vec && k.width == kit.width && k.senMap == kit.senMap
  {
    kit.(compute := [SetTrigFromFlag(index, flag), ClearFlag(flag)] + kit.compute)
  }

  /** Inverting the map createTriggers builds loses nothing: every trigger item
      leads back to the one sensitivity it was made for. */
  lemma TriggerMapInvertible(vec: string, senTrees: seq<SenTree>, extraCount: nat, senMap: map<SenTree, SenTree>)
    requires NoDup(senTrees)
    requires senMap.Keys == set k | 0 <= k < |senTrees| :: senTrees[k]
    requires forall k :: 0 <= k < |senTrees| ==> senMap[senTrees[k]] == TrigSenTree(vec, extraCount + k)
    ensures forall t :: t in senMap ==> |senMap[t].items| == 1
    ensures forall t, u :: t in senMap && u in senMap && senMap[t].items[0] == senMap[u].items[0] ==> t == u
  {
    forall t, u | t in senMap && u in senMap && senMap[t].items[0] == senMap[u].items[0]
      ensures t == u
    {
      var i :| 0 <= i < |senTrees| && senTrees[i] == t;
      var j :| 0 <= j < |senTrees| && senTrees[j] == u;
      TrigSenTreeInjective(vec, extraCount + i, extraCount + j);
    }
  }
}

/** The splitting of large functions by `--output-split-cfuncs` (splitCheck),
    with the node counts it goes by. */
module Split {
  import opened SchedTypes
  import opened SeqUtil

  //--------------------------------------------------------------------------
  // Node counts

  /** AstNode::nodeCount of one statement: a leaf stands for itself plus the
      nodes beneath it; a call statement is an AstStmtExpr around an AstCCall;
      `while (true)` is the AstWhile and its constant condition. */
  function NodeCount(s: Stmt): nat
  {
    match s
    case Leaf(_, nodes) => 1 + nodes
    case Proc(_, _, body) => 1 + SumNodes(body)
    case WhileTrue(body) => 2 + SumNodes(body)
    case Call(_) => 2
  }

  function SumNodes(ss: seq<Stmt>): nat
  {
    if ss == [] then 0 else SumNodes(ss[..|ss| - 1]) + NodeCount(ss[|ss| - 1])
  }

  lemma SumNodesSnoc(ss: seq<Stmt>, s: Stmt)
    ensures SumNodes(ss + [s]) == SumNodes(ss) + NodeCount(s)
  {
    assert (ss + [s])[..|ss|] == ss;
  }

  /** The node count of a function: the AstCFunc node and its statements. */
  function FuncNodeCount(f: CFunc): nat
  {
    1 + SumNodes(f.stmts)
  }

  //--------------------------------------------------------------------------
  // Calls

  /** One void call statement per function, in order. */
  function CallsTo(fs: seq<CFunc>): (r: seq<Stmt>)
    ensures |r| == |fs|
  {
    if fs == [] then [] else CallsTo(fs[..|fs| - 1]) + [Call(fs[|fs| - 1].name)]
  }

  lemma {:induction false} CallsToNames(fs: seq<CFunc>)
    ensures forall k :: 0 <= k < |fs| ==> CallsTo(fs)[k] == Call(fs[k].name)
  {
    if fs != [] {
      CallsToNames(fs[..|fs| - 1]);
    }
  }

  /** Calls depend on the names only. */
  lemma {:induction false} CallsToSameNames(fs: seq<CFunc>, gs: seq<CFunc>)
    requires |fs| == |gs| && forall k :: 0 <= k < |fs| ==> fs[k].name == gs[k].name
    ensures CallsTo(fs) == CallsTo(gs)
  {
    if fs != [] {
      CallsToSameNames(fs[..|fs| - 1], gs[..|gs| - 1]);
    }
  }

  /** All statements of the functions, one function after the other. */
  function Flatten(fs: seq<CFunc>): seq<Stmt>
  {
    if fs == [] then [] else Flatten(fs[..|fs| - 1]) + fs[|fs| - 1].stmts
  }

  //--------------------------------------------------------------------------
  // splitCheck

  /** Whether splitCheck leaves the function alone: splitting is off, the
      function is empty, or it is below the threshold. */
  predicate SplitSkipped(f: CFunc, threshold: nat)
  {
    threshold == 0 || f.stmts == [] || FuncNodeCount(f) < threshold
  }

  /** The k-th piece of a split of `f`: `<name>__<k>`, same scope and slowness,
      not a coroutine, not empty. */
  predicate SplitPiece(f: CFunc, k: nat, g: CFunc)
  {
    g.name == Numbered(f.name, k) && g.scope == f.scope && g.slow == f.slow && !g.coroutine && g.stmts != []
  }

  /** The sub-functions of a split: consecutive, numbered name__0, name__1, ...,
      none empty; each holds one statement or fits the threshold, and each
      was started because the next statement would not fit the one before. */
  predicate IsGreedySplit(f: CFunc, threshold: nat, subs: seq<CFunc>)
  {
    && Flatten(subs) == f.stmts
    && (forall k :: 0 <= k < |subs| ==> SplitPiece(f, k, subs[k]))
    && (forall k :: 0 <= k < |subs| ==> |subs[k].stmts| == 1 || SumNodes(subs[k].stmts) <= threshold)
    && (forall k :: 0 <= k < |subs| - 1 ==> SumNodes(subs[k].stmts) + NodeCount(subs[k + 1].stmts[0]) > threshold)
  }

  lemma FlattenAppendLast(subs: seq<CFunc>, x: Stmt)
    requires subs != []
    ensures var l := subs[|subs| - 1];
            Flatten(subs[|subs| - 1 := l.(stmts := l.stmts + [x])]) == Flatten(subs) + [x]
  {
    var l := subs[|subs| - 1];
    var subs' := subs[|subs| - 1 := l.(stmts := l.stmts + [x])];
    assert subs'[..|subs'| - 1] == subs[..|subs| - 1];
  }

  lemma FlattenSnoc(subs: seq<CFunc>, f: CFunc)
    ensures Flatten(subs + [f]) == Flatten(subs) + f.stmts
  {
    assert (subs + [f])[..|subs|] == subs;
  }

  /** The state of splitCheck's loop after `i` items: the items so far are
      spread over the pieces, the last of which has `funcStmts` nodes. */
  predicate SplitInv(f: CFunc, threshold: nat, i: nat, subs: seq<CFunc>, funcStmts: nat)
  {
    && i <= |f.stmts|
    && Flatten(subs) == f.stmts[..i]
    && (i == 0 <==> subs == [])
    && (subs != [] ==> funcStmts == SumNodes(subs[|subs| - 1].stmts))
    && (forall k :: 0 <= k < |subs| ==> SplitPiece(f, k, subs[k]))
    && (forall k :: 0 <= k < |subs| ==> |subs[k].stmts| == 1 || SumNodes(subs[k].stmts) <= threshold)
    && (forall k :: 0 <= k < |subs| - 1 ==> SumNodes(subs[k].stmts) + NodeCount(subs[k + 1].stmts[0]) > threshold)
  }

  /** The next item fits: it joins the current piece. */
  lemma SplitJoin(f: CFunc, threshold: nat, i: nat, subs: seq<CFunc>, funcStmts: nat, subs': seq<CFunc>)
    requires SplitInv(f, threshold, i, subs, funcStmts) && i < |f.stmts|
    requires subs != [] && funcStmts + NodeCount(f.stmts[i]) <= threshold
    requires subs' == subs[|subs| - 1 := subs[|subs| - 1].(stmts := subs[|subs| - 1].stmts + [f.stmts[i]])]
    ensures SplitInv(f, threshold, i + 1, subs', funcStmts + NodeCount(f.stmts[i]))
  {
    var last := subs[|subs| - 1];
    FlattenAppendLast(subs, f.stmts[i]);
    SumNodesSnoc(last.stmts, f.stmts[i]);
    TakeSnoc(f.stmts, i);
  }

  /** The next item does not fit (or there is no piece yet): a new piece is
      made and the item goes into it. */
  lemma SplitStart(f: CFunc, threshold: nat, i: nat, subs: seq<CFunc>, funcStmts: nat, subs': seq<CFunc>)
    requires SplitInv(f, threshold, i, subs, funcStmts) && i < |f.stmts|
    requires subs == [] || funcStmts + NodeCount(f.stmts[i]) > threshold
    requires subs' == subs + [CFunc(Numbered(f.name, |subs|), f.scope, [f.stmts[i]], f.slow, false)]
    ensures SplitInv(f, threshold, i + 1, subs', NodeCount(f.stmts[i]))
  {
    var g := CFunc(Numbered(f.name, |subs|), f.scope, [f.stmts[i]], f.slow, false);
    FlattenSnoc(subs, g);
    SumNodesSnoc([], f.stmts[i]);
    assert [] + [f.stmts[i]] == [f.stmts[i]];
    TakeSnoc(f.stmts, i);
  }

  /** After the last item, the pieces are a greedy split of the whole function. */
  lemma SplitDone(f: CFunc, threshold: nat, subs: seq<CFunc>, funcStmts: nat)
    requires SplitInv(f, threshold, |f.stmts|, subs, funcStmts) && f.stmts != []
    ensures subs != [] && IsGreedySplit(f, threshold, subs)
  {
    assert f.stmts[..|f.stmts|] == f.stmts;
  }

  /** splitCheck: unless skipped, moves the statements item by item into new
      sub-functions, starting a new one whenever the next item would take the
      current one past the threshold, and leaves one call per sub-function. */
  method SplitCheck(f: CFunc, threshold: nat) returns (top: CFunc, subs: seq<CFunc>)
    ensures SplitSkipped(f, threshold) ==> top == f && subs == []
    ensures !SplitSkipped(f, threshold) ==>
              subs != [] && IsGreedySplit(f, threshold, subs) && top == f.(stmts := CallsTo(subs))
  {
    if threshold == 0 || f.stmts == [] {
      return f, [];
    }
    if FuncNodeCount(f) < threshold {
      return f, [];
    }
    var funcnum := 0;
    var funcStmts: nat := 0;
    subs := [];
    for i := 0 to |f.stmts|
      invariant SplitInv(f, threshold, i, subs, funcStmts) && funcnum == |subs|
    {
      var item := f.stmts[i];
      var stmts := NodeCount(item);
      ghost var before, beforeStmts := subs, funcStmts;
      if subs == [] || funcStmts + stmts > threshold {
        // A new piece, which the item then goes into
        subs := subs + [CFunc(Numbered(f.name, funcnum), f.scope, [item], f.slow, false)];
        funcnum := funcnum + 1;
        funcStmts := stmts;
        SplitStart(f, threshold, i, before, beforeStmts, subs);
      } else {
        var last := subs[|subs| - 1];
        subs := subs[|subs| - 1 := last.(stmts := last.stmts + [item])];
        funcStmts := funcStmts + stmts;
        SplitJoin(f, threshold, i, before, beforeStmts, subs);
      }
    }
    SplitDone(f, threshold, subs, funcStmts);
    top := f.(stmts := CallsTo(subs));
  }
}

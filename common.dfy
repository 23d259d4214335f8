/** Failure-compatible wrappers used for the scheduler's fatal internal errors. */
module Wrappers {

  datatype Option<+T> = None | Some(value: T)

  /** The scheduler's internal-consistency failures (UASSERT_OBJ, VL_FATAL_MT,
      std::out_of_range from `at`) all end compilation; `Err` carries the message. */
  datatype Result<+T> = Ok(value: T) | Err(msg: string)
}

/** The abstract program representation the scheduling pass works on. */
module SchedTypes {

  /** VEdgeType of one sensitivity item. */
  datatype Edge =
    | Changed | BothEdge | PosEdge | NegEdge | Event | True
    | Combo | Hybrid | Static | Initial | Final | Never

  /** Edges that make an item "clocked" (they have a clocked statement). */
  predicate IsClockedEdge(e: Edge)
  {
    e.Changed? || e.BothEdge? || e.PosEdge? || e.NegEdge? || e.Event? || e.True?
  }

  /** Expressions are opaque except for the forms the pass itself builds. */
  datatype Expr =
    | Signal(id: nat)
    | TrigWord(vec: string, word: nat, mask: nat)   // (1ULL << bit) & vec.word(word)
    | LogNot(arg: Expr)

  datatype SenItem = SenItem(edge: Edge, expr: Expr)

  /** An AstSenTree: `id` stands for the object's identity, `items` for its list of AstSenItem. */
  datatype SenTree = SenTree(id: nat, items: seq<SenItem>)
  {
    predicate HasClocked() { exists i :: 0 <= i < |items| && IsClockedEdge(items[i].edge) }
    predicate HasHybrid() { exists i :: 0 <= i < |items| && items[i].edge.Hybrid? }
    predicate HasCombo() { exists i :: 0 <= i < |items| && items[i].edge.Combo? }
    predicate HasStatic() { exists i :: 0 <= i < |items| && items[i].edge.Static? }
    predicate HasInitial() { exists i :: 0 <= i < |items| && items[i].edge.Initial? }
    predicate HasFinal() { exists i :: 0 <= i < |items| && items[i].edge.Final? }
  }

  /** Only clocked and hybrid sensitivities get trigger bits. */
  predicate ClockedOrHybrid(t: SenTree)
  {
    t.HasClocked() || t.HasHybrid()
  }

  datatype Scope = Scope(id: nat, nameDotless: string)

  /** The AstNodeProcedure subclasses the pass distinguishes. */
  datatype ProcKind = Always | AlwaysPostponed | AlwaysObserved | AlwaysReactive | InitialProc | FinalProc

  /** Statements: opaque leaves with their node count, procedures, the
      `while (true)` wrapper and void calls the pass generates. */
  datatype Stmt =
    | Leaf(id: nat, nodes: nat)
    | Proc(kind: ProcKind, suspendable: bool, body: seq<Stmt>)
    | WhileTrue(body: seq<Stmt>)
    | Call(callee: string)

  /** An AstActive: a sensitivity and the logic it guards. */
  datatype Active = Active(sen: SenTree, stmts: seq<Stmt>)

  /** One entry of a LogicByScope vector. */
  datatype ScopedActive = ScopedActive(scope: Scope, active: Active)

  type LogicByScope = seq<ScopedActive>

  /** A generated C++ function (AstCFunc); `coroutine` is rtnType "VlCoroutine". */
  datatype CFunc = CFunc(name: string, scope: Scope, stmts: seq<Stmt>, slow: bool, coroutine: bool)

  function DigitChar(d: nat): (c: char)
    requires d < 10
    ensures '0' <= c <= '9'
  {
    ['0', '1', '2', '3', '4', '5', '6', '7', '8', '9'][d]
  }

  /** cvtToStr of a non-negative number: its decimal digits. */
  function NatToString(n: nat): (s: string)
    ensures |s| >= 1
    ensures forall i :: 0 <= i < |s| ==> '0' <= s[i] <= '9'
    decreases n
  {
    if n < 10 then [DigitChar(n)] else NatToString(n / 10) + [DigitChar(n % 10)]
  }

  /** The `<name>__<n>` naming scheme of generated sub-functions. */
  function Numbered(base: string, n: nat): string
  {
    base + "__" + NatToString(n)
  }
}

/** Sequence helpers shared by the trigger and fork components. */
module SeqUtil {

  predicate NoDup<T(==)>(s: seq<T>)
  {
    forall i, j :: 0 <= i < j < |s| ==> s[i] != s[j]
  }

  /** Position of the first occurrence of `x` in `s`. */
  function IndexOf<T(==)>(s: seq<T>, x: T): (k: nat)
    requires x in s
    ensures k < |s| && s[k] == x
    ensures forall j :: 0 <= j < k ==> s[j] != x
  {
    if s[0] == x then 0 else 1 + IndexOf(s[1..], x)
  }

  /** The elements of `xs` that satisfy `keep`, each once, in the order of their
      first occurrence: what a "seen" flag plus push_back computes. */
  function Distinct<T(==)>(xs: seq<T>, keep: T -> bool): seq<T>
  {
    if xs == [] then []
    else
      var r := Distinct(xs[..|xs| - 1], keep);
      var x := xs[|xs| - 1];
      if x in r || !keep(x) then r else r + [x]
  }

  lemma DistinctSnoc<T>(xs: seq<T>, x: T, keep: T -> bool)
    ensures Distinct(xs + [x], keep) ==
            if x in Distinct(xs, keep) || !keep(x) then Distinct(xs, keep) else Distinct(xs, keep) + [x]
  {
    assert (xs + [x])[..|xs|] == xs;
  }

  lemma {:induction false} DistinctMembers<T>(xs: seq<T>, keep: T -> bool)
    ensures forall x :: x in Distinct(xs, keep) <==> x in xs && keep(x)
  {
    if xs != [] {
      var init := xs[..|xs| - 1];
      DistinctMembers(init, keep);
      assert xs == init + [xs[|xs| - 1]];
    }
  }

  lemma {:induction false} DistinctNoDup<T>(xs: seq<T>, keep: T -> bool)
    ensures NoDup(Distinct(xs, keep))
  {
    if xs != [] {
      DistinctNoDup(xs[..|xs| - 1], keep);
    }
  }

  lemma IndexOfPrefix<T>(xs: seq<T>, x: T, y: T)
    requires y in xs
    ensures IndexOf(xs + [x], y) == IndexOf(xs, y)
  {
    var k := IndexOf(xs, y);
    assert (xs + [x])[k] == y;
  }

  lemma IndexOfLast<T>(xs: seq<T>, x: T)
    requires x !in xs
    ensures IndexOf(xs + [x], x) == |xs|
  {
    assert (xs + [x])[|xs|] == x;
  }

  /** The kept elements appear in the order in which they are first encountered. */
  lemma {:induction false} DistinctOrder<T>(xs: seq<T>, keep: T -> bool)
    ensures forall y :: y in Distinct(xs, keep) ==> y in xs
    ensures forall i, j :: 0 <= i < j < |Distinct(xs, keep)| ==>
              IndexOf(xs, Distinct(xs, keep)[i]) < IndexOf(xs, Distinct(xs, keep)[j])
  {
    DistinctMembers(xs, keep);
    if xs != [] {
      var init := xs[..|xs| - 1];
      var x := xs[|xs| - 1];
      var r := Distinct(init, keep);
      var d := Distinct(xs, keep);
      DistinctOrder(init, keep);
      DistinctMembers(init, keep);
      assert xs == init + [x];
      assert d == r || (d == r + [x] && x !in init);
      forall i, j | 0 <= i < j < |d|
        ensures IndexOf(xs, d[i]) < IndexOf(xs, d[j])
      {
        assert d[i] == r[i] && r[i] in init;
        IndexOfPrefix(init, x, r[i]);
        if j < |r| {
          assert d[j] == r[j] && r[j] in init;
          IndexOfPrefix(init, x, r[j]);
        } else {
          IndexOfLast(init, x);
        }
      }
    }
  }

  /** The elements of `xs` that satisfy `keep`, in order. */
  function Filter<T>(xs: seq<T>, keep: T -> bool): (r: seq<T>)
    ensures |r| <= |xs|
  {
    if xs == [] then []
    else Filter(xs[..|xs| - 1], keep) + (if keep(xs[|xs| - 1]) then [xs[|xs| - 1]] else [])
  }

  lemma {:induction false} FilterMembers<T>(xs: seq<T>, keep: T -> bool)
    ensures forall x :: x in Filter(xs, keep) <==> x in xs && keep(x)
  {
    if xs != [] {
      var init := xs[..|xs| - 1];
      FilterMembers(init, keep);
      assert xs == init + [xs[|xs| - 1]];
    }
  }

  lemma TakeSnoc<T>(xs: seq<T>, i: nat)
    requires i < |xs|
    ensures xs[..i + 1] == xs[..i] + [xs[i]]
  {
  }

  lemma SplitLast<T>(xs: seq<T>)
    requires xs != []
    ensures xs == xs[..|xs| - 1] + [xs[|xs| - 1]]
  {
  }
}

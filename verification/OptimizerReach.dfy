/** What the optimizer rewrites, and into what: exactly the orderings by the distance of an indexed column
    and a constant, and exactly the projections that nothing refers to. */
module OptimizerReach {
  import opened Plans
  import opened ScanOptimizer

  // ---------------------------------------------------------------- one operator

  /** `distance(column, constant)` or `distance(constant, column)`, where the column is the `j`-th of the
      scan. */
  predicate IsDistanceCall(e: Expr, distance: nat, j: nat, query: Value) {
    e == Call(distance, [Ref(j), Constant(query)]) || e == Call(distance, [Constant(query), Ref(j)])
  }

  /** The plan takes the first rows in the ascending order of the `i`-th expression over a table scan, and
      that is the distance of an indexed column and `query`. */
  predicate OrdersByDistance(cat: Catalog, plan: Plan, i: nat, j: nat, index: Index, query: Value) {
    && plan.TopN? && plan.orders == [Order(true, Ref(i))]
    && plan.child.Projection? && i < |plan.child.exprs|
    && plan.child.child.SeqScan? && !plan.child.child.dynamicFilters
    && IsDistanceCall(plan.child.exprs[i], index.distance, j, query)
    && j < |plan.child.child.columns| && plan.child.child.columns[j] == Stored(index.column)
    && index in cat.indexes(plan.child.child.table)
  }

  ghost predicate IsCandidate(cat: Catalog, plan: Plan) {
    exists i, j, index, query :: OrdersByDistance(cat, plan, i, j, index, query)
  }

  lemma MatchesCall(e: Expr, columns: seq<Column>, index: Index, j: nat, query: Value)
    requires IsDistanceCall(e, index.distance, j, query) && j < |columns| && columns[j] == Stored(index.column)
    ensures MatchIndex(e, columns, index) == Match(index, query)
  {
  }

  lemma CallOfMatch(e: Expr, columns: seq<Column>, index: Index) returns (j: nat, query: Value)
    requires MatchIndex(e, columns, index).Match?
    ensures MatchIndex(e, columns, index) == Match(index, query)
    ensures IsDistanceCall(e, index.distance, j, query) && j < |columns| && columns[j] == Stored(index.column)
  {
    if e.args[0].Constant? && IsIndexed(e.args[1], columns, index) {
      j, query := e.args[1].i, e.args[0].value;
      assert e.args == [Constant(query), Ref(j)];
    } else {
      j, query := e.args[0].i, e.args[1].value;
      assert e.args == [Ref(j), Constant(query)];
    }
  }

  /** Whatever index is found serves the same column and distance function. */
  lemma {:induction false} FindsServing(e: Expr, columns: seq<Column>, indexes: seq<Index>, index: Index, j: nat,
                                        query: Value)
    requires IsDistanceCall(e, index.distance, j, query) && j < |columns| && columns[j] == Stored(index.column)
    requires index in indexes
    ensures FindIndex(e, columns, indexes) == Match(index, query)
    decreases indexes
  {
    MatchesCall(e, columns, index, j, query);
    if MatchIndex(e, columns, indexes[0]).Match? {
      var k, q := CallOfMatch(e, columns, indexes[0]);
      assert e.args == [Ref(j), Constant(query)] || e.args == [Constant(query), Ref(j)];
      assert indexes[0] == index;
    } else {
      assert index in indexes[1..];
      FindsServing(e, columns, indexes[1..], index, j, query);
    }
  }

  lemma {:induction false} FoundIsThere(e: Expr, columns: seq<Column>, indexes: seq<Index>)
    requires FindIndex(e, columns, indexes).Match?
    ensures FindIndex(e, columns, indexes).index in indexes
    decreases indexes
  {
    if !MatchIndex(e, columns, indexes[0]).Match? {
      FoundIsThere(e, columns, indexes[1..]);
    }
  }

  /** Such an ordering becomes an index scan for the query and the limit, without filters directly, with
      filters fed by a scan for the ids of the rows that pass them. */
  lemma DistanceOrderIsRewritten(cat: Catalog, plan: Plan, i: nat, j: nat, index: Index, query: Value)
    requires OrdersByDistance(cat, plan, i, j, index, query)
    ensures var scan := plan.child.child;
            TryOptimize(cat, plan) == Projection(plan.child.exprs,
              if scan.filters == [] then
                IndexScan(scan.table, scan.columns, index.column, index.distance, query, plan.limit, cat.global)
              else
                FilteredIndexScan(scan.table, scan.columns, index.column, index.distance, query, plan.limit,
                                  SeqScan(scan.table, [RowId], scan.filters, false)))
  {
    var scan := plan.child.child;
    assert plan.orders[0] == Order(true, Ref(i));
    FindsServing(plan.child.exprs[i], scan.columns, cat.indexes(scan.table), index, j, query);
  }

  /** Everything else is left as it is. */
  lemma RewritesExactlyThese(cat: Catalog, plan: Plan)
    ensures TryOptimize(cat, plan) != plan <==> IsCandidate(cat, plan)
    ensures MatchPlan(cat, plan).Match? <==> IsCandidate(cat, plan)
  {
    if MatchPlan(cat, plan).Match? {
      var scan, i := plan.child.child, plan.orders[0].expr.i;
      var e, indexes := plan.child.exprs[i], cat.indexes(scan.table);
      FoundIsThere(e, scan.columns, indexes);
      var m := FindIndex(e, scan.columns, indexes);
      var j, query := CallOfMatch(e, scan.columns, m.index);
      assert plan.orders == [Order(true, Ref(i))];
      assert OrdersByDistance(cat, plan, i, j, m.index, query);
    }
    if i, j, index, query :| OrdersByDistance(cat, plan, i, j, index, query) {
      DistanceOrderIsRewritten(cat, plan, i, j, index, query);
    }
  }

  // ---------------------------------------------------------------- whole plans

  /** `p` is the plan or one of the plans below it. */
  ghost predicate Contains(plan: Plan, p: Plan)
    decreases plan
  {
    || p == plan
    || match plan
       case FilteredIndexScan(_, _, _, _, _, _, child) => Contains(child, p)
       case Projection(_, child) => Contains(child, p)
       case TopN(_, _, _, child) => Contains(child, p)
       case Other(_, children) => exists i :: 0 <= i < |children| && Contains(children[i], p)
       case _ => false
  }

  lemma ScanStaysScan(cat: Catalog, plan: Plan)
    requires OptimizeChildren(cat, plan).SeqScan?
    ensures OptimizeChildren(cat, plan) == plan
  {
  }

  lemma ProjectedScanStays(cat: Catalog, plan: Plan)
    requires var r := OptimizeChildren(cat, plan); r.Projection? && r.child.SeqScan?
    ensures OptimizeChildren(cat, plan) == plan
  {
    if !MatchPlan(cat, plan).Match? {
      ScanStaysScan(cat, plan.child);
    }
  }

  lemma RewrittenHasNoCandidate(cat: Catalog, plan: Plan, p: Plan)
    requires MatchPlan(cat, plan).Match? && Contains(TryOptimize(cat, plan), p)
    ensures !p.TopN?
  {
    var r := TryOptimize(cat, plan);
    if p != r {
      ReplacementHasNoTopN(cat, plan.child.child, MatchPlan(cat, plan), plan.limit, p);
    }
  }

  lemma ReplacementHasNoTopN(cat: Catalog, scan: Plan, m: Match, limit: nat, p: Plan)
    requires scan.SeqScan? && m.Match? && Contains(Replacement(cat, scan, m, limit), p)
    ensures !p.TopN?
  {
    var r := Replacement(cat, scan, m, limit);
    if p != r {
      assert r.FilteredIndexScan? && Contains(r.child, p) && r.child.SeqScan?;
    }
  }

  lemma NewTopNIsOld(cat: Catalog, plan: Plan)
    requires plan.TopN? && IsCandidate(cat, OptimizeChildren(cat, plan))
    ensures IsCandidate(cat, plan)
  {
    RewritesExactlyThese(cat, plan);
    if !MatchPlan(cat, plan).Match? {
      ProjectedScanStays(cat, plan.child);
    }
  }

  /** After optimizing a plan no ordering by the distance of an indexed column is left anywhere in it. */
  lemma {:induction false} NoCandidateIsLeft(cat: Catalog, plan: Plan, p: Plan)
    requires Contains(OptimizeChildren(cat, plan), p)
    ensures !IsCandidate(cat, p)
    decreases plan
  {
    RewritesExactlyThese(cat, plan);
    var r := OptimizeChildren(cat, plan);
    if MatchPlan(cat, plan).Match? {
      RewrittenHasNoCandidate(cat, plan, p);
    } else if p == r {
      if plan.TopN? && IsCandidate(cat, r) {
        NewTopNIsOld(cat, plan);
      }
    } else {
      match plan
      case FilteredIndexScan(_, _, _, _, _, _, child) => NoCandidateIsLeft(cat, child, p);
      case Projection(_, child) => NoCandidateIsLeft(cat, child, p);
      case TopN(_, _, _, child) => NoCandidateIsLeft(cat, child, p);
      case Other(_, children) =>
        var i :| 0 <= i < |children| && Contains(r.children[i], p);
        NoCandidateIsLeft(cat, children[i], p);
      case _ =>
    }
  }

  /** A plan without such an ordering is not changed at all. */
  lemma {:induction false} OthersAreKept(cat: Catalog, plan: Plan)
    requires forall p :: Contains(plan, p) ==> !IsCandidate(cat, p)
    ensures OptimizeChildren(cat, plan) == plan && !DidOptimize(cat, plan)
    decreases plan
  {
    RewritesExactlyThese(cat, plan);
    assert Contains(plan, plan);
    match plan
    case FilteredIndexScan(_, _, _, _, _, _, child) =>
      forall p | Contains(child, p) ensures Contains(plan, p) {}
      OthersAreKept(cat, child);
    case Projection(_, child) =>
      forall p | Contains(child, p) ensures Contains(plan, p) {}
      OthersAreKept(cat, child);
    case TopN(_, _, _, child) =>
      forall p | Contains(child, p) ensures Contains(plan, p) {}
      OthersAreKept(cat, child);
    case Other(_, children) =>
      forall i | 0 <= i < |children|
        ensures OptimizeChildren(cat, children[i]) == children[i] && !DidOptimize(cat, children[i])
      {
        forall p | Contains(children[i], p) ensures Contains(plan, p) {}
        OthersAreKept(cat, children[i]);
      }
      assert OptimizeChildren(cat, plan).children == children;
    case _ =>
  }

  // ---------------------------------------------------------------- columns that matter

  function Number(v: Value): int {
    if v.Null? then 0 else v.v
  }

  function Total(vs: seq<Value>): int {
    if vs == [] then 0 else Total(vs[..|vs| - 1]) + Number(vs[|vs| - 1])
  }

  /** Functions add up their arguments. */
  function Adding(): Env {
    Env(t => [], (f, args) => Value(Total(args)), (f, row) => true, (t, id) => true, v => 0, (op, inputs, out) => false)
  }

  /** A row of zeros but for the last column, `i`. */
  function EndingIn(i: nat, v: int): (row: Row)
    ensures |row| == i + 1 && forall k :: 0 <= k <= i ==> row[k] == Value(if k == i then v else 0)
  {
    seq(i + 1, k => Value(if k == i then v else 0))
  }

  lemma {:induction false} TotalGrows(xs: seq<Value>, ys: seq<Value>, some: bool)
    requires |xs| == |ys| && forall k :: 0 <= k < |xs| ==> Number(xs[k]) <= Number(ys[k])
    requires some ==> exists k :: 0 <= k < |xs| && Number(xs[k]) < Number(ys[k])
    ensures Total(xs) <= Total(ys) && (some ==> Total(xs) < Total(ys))
    decreases |xs|
  {
    if xs != [] {
      var n := |xs| - 1;
      TotalGrows(xs[..n], ys[..n], some && exists k :: 0 <= k < n && Number(xs[k]) < Number(ys[k]));
    }
  }

  lemma {:induction false} EvalGrows(e: Expr, i: nat)
    ensures var x, y := Eval(Adding(), e, EndingIn(i, 0)), Eval(Adding(), e, EndingIn(i, 1));
            Number(x) <= Number(y) && (i in References(e) ==> Number(x) < Number(y))
    decreases e
  {
    if e.Call? {
      var n := |e.args|;
      var xs := seq(n, k requires 0 <= k < n => Eval(Adding(), e.args[k], EndingIn(i, 0)));
      var ys := seq(n, k requires 0 <= k < n => Eval(Adding(), e.args[k], EndingIn(i, 1)));
      forall k | 0 <= k < n
        ensures Number(xs[k]) <= Number(ys[k]) && (i in References(e.args[k]) ==> Number(xs[k]) < Number(ys[k]))
      {
        EvalGrows(e.args[k], i);
      }
      TotalGrows(xs, ys, i in References(e));
    }
  }

  predicate DifferOnlyAt(a: Row, b: Row, i: nat) {
    |a| == |b| && forall k :: 0 <= k < |a| && k != i ==> a[k] == b[k]
  }

  ghost predicate Matters(e: Expr, i: nat) {
    exists env, a, b :: DifferOnlyAt(a, b, i) && Eval(env, e, a) != Eval(env, e, b)
  }

  /** The columns counted as referenced are exactly those on which the value can depend. */
  lemma ReferencesMatter(e: Expr, i: nat)
    ensures i in References(e) <==> Matters(e, i)
  {
    if i in References(e) {
      EvalGrows(e, i);
      var a, b := EndingIn(i, 0), EndingIn(i, 1);
      assert DifferOnlyAt(a, b, i) && Eval(Adding(), e, a) != Eval(Adding(), e, b);
    }
    if env, a, b :| DifferOnlyAt(a, b, i) && Eval(env, e, a) != Eval(env, e, b) {
      if i !in References(e) {
        EvalDependsOnReferences(env, e, a, b);
      }
    }
  }

  // ---------------------------------------------------------------- blanked projections

  /** `blanked` are the expressions `exprs` with a null in place of every one that no expression above
      depends on. */
  ghost predicate IsBlanked(above: seq<Expr>, exprs: seq<Expr>, blanked: seq<Expr>) {
    && |blanked| == |exprs|
    && forall i :: 0 <= i < |exprs| ==>
         blanked[i] == if exists k :: 0 <= k < |above| && Matters(above[k], i) then exprs[i] else Constant(Null)
  }

  lemma ReferencedByAll(above: seq<Expr>, i: nat)
    ensures i in ReferencesOfAll(above) <==> exists k :: 0 <= k < |above| && Matters(above[k], i)
  {
    forall k | 0 <= k < |above| ensures i in References(above[k]) <==> Matters(above[k], i) {
      ReferencesMatter(above[k], i);
    }
  }

  lemma BlankedIs(above: seq<Expr>, exprs: seq<Expr>)
    ensures IsBlanked(above, exprs, Blanked(exprs, ReferencesOfAll(above)))
  {
    forall i | 0 <= i < |exprs|
      ensures Blanked(exprs, ReferencesOfAll(above))[i]
              == if exists k :: 0 <= k < |above| && Matters(above[k], i) then exprs[i] else Constant(Null)
    {
      ReferencedByAll(above, i);
    }
  }

  /** A projection over a projection over the filtered scan or the global one. */
  predicate IsStacked(plan: Plan) {
    && plan.Projection? && plan.child.Projection?
    && var scan := plan.child.child; scan.FilteredIndexScan? || (scan.IndexScan? && scan.global)
  }

  /** Merging blanks the projection below, and changes nothing else of the three. */
  lemma StackedIsBlanked(plan: Plan)
    requires IsStacked(plan)
    ensures var r := MergeProjections(plan);
            && r.Projection? && r.exprs == plan.exprs
            && r.child.Projection? && r.child.child == plan.child.child
            && IsBlanked(plan.exprs, plan.child.exprs, r.child.exprs)
  {
    BlankedIs(plan.exprs, plan.child.exprs);
  }

  /** A plan without such a stack is not changed at all. */
  lemma {:induction false} UnstackedIsKept(plan: Plan)
    requires forall p :: Contains(plan, p) ==> !IsStacked(p)
    ensures MergeProjections(plan) == plan
    decreases plan
  {
    assert Contains(plan, plan);
    match plan
    case FilteredIndexScan(_, _, _, _, _, _, child) =>
      forall p | Contains(child, p) ensures Contains(plan, p) {}
      UnstackedIsKept(child);
    case Projection(_, child) =>
      forall p | Contains(child, p) ensures Contains(plan, p) {}
      UnstackedIsKept(child);
    case TopN(_, _, _, child) =>
      forall p | Contains(child, p) ensures Contains(plan, p) {}
      UnstackedIsKept(child);
    case Other(_, children) =>
      forall i | 0 <= i < |children| ensures MergeProjections(children[i]) == children[i] {
        forall p | Contains(children[i], p) ensures Contains(plan, p) {}
        UnstackedIsKept(children[i]);
      }
      assert MergeProjections(plan).children == children;
    case _ =>
  }

  /** Filtered index scans are fed by table scans, as the optimizer leaves them. */
  ghost predicate FedByScans(plan: Plan)
    decreases plan
  {
    match plan
    case FilteredIndexScan(_, _, _, _, _, _, child) => child.SeqScan?
    case Projection(_, child) => FedByScans(child)
    case TopN(_, _, _, child) => FedByScans(child)
    case Other(_, children) => forall i :: 0 <= i < |children| ==> FedByScans(children[i])
    case _ => true
  }

  ghost predicate IsTidy(p: Plan) {
    IsStacked(p) ==> IsBlanked(p.exprs, p.child.exprs, p.child.exprs)
  }

  lemma BlankedTwice(above: seq<Expr>, exprs: seq<Expr>, blanked: seq<Expr>)
    requires IsBlanked(above, exprs, blanked)
    ensures IsBlanked(above, blanked, blanked)
  {
  }

  lemma ScanIsAlone(scan: Plan, p: Plan)
    requires Contains(scan, p) && (scan.IndexScan? || (scan.FilteredIndexScan? && scan.child.SeqScan?))
    ensures !p.Projection?
  {
  }

  lemma MergedStackIsTidy(plan: Plan, p: Plan)
    requires IsStacked(plan) && FedByScans(plan) && Contains(MergeProjections(plan), p)
    ensures IsTidy(p)
  {
    StackedIsBlanked(plan);
    var r := MergeProjections(plan);
    assert plan.child == Projection(plan.child.exprs, plan.child.child);
    assert FedByScans(plan.child.child);
    if p == r {
      BlankedTwice(plan.exprs, plan.child.exprs, r.child.exprs);
    } else if p != r.child {
      assert Contains(r.child, p) && Contains(r.child.child, p);
      ScanIsAlone(r.child.child, p);
    }
  }

  lemma MergingKeepsShape(plan: Plan)
    ensures var r := MergeProjections(plan);
            && (r.Projection? <==> plan.Projection?) && (r.FilteredIndexScan? <==> plan.FilteredIndexScan?)
            && (r.IndexScan? ==> r == plan)
  {
  }

  lemma StackComesFromStack(exprs: seq<Expr>, child: Plan)
    requires IsStacked(Projection(exprs, MergeProjections(child)))
    ensures IsStacked(Projection(exprs, child))
  {
    MergingKeepsShape(child);
    if !IsStacked(child) {
      MergingKeepsShape(child.child);
    }
  }

  /** After merging, every projection below another one over such a scan is blanked as far as nothing
      depends on it. */
  lemma {:induction false} EveryStackIsTidy(plan: Plan, p: Plan)
    requires FedByScans(plan) && Contains(MergeProjections(plan), p)
    ensures IsTidy(p)
    decreases plan
  {
    var r := MergeProjections(plan);
    if IsStacked(plan) {
      MergedStackIsTidy(plan, p);
    } else if p == r {
      if plan.Projection? && IsStacked(r) {
        StackComesFromStack(plan.exprs, plan.child);
      }
    } else {
      match plan
      case FilteredIndexScan(_, _, _, _, _, _, child) => assert MergeProjections(child) == child;
      case Projection(_, child) => EveryStackIsTidy(child, p);
      case TopN(_, _, _, child) => EveryStackIsTidy(child, p);
      case Other(_, children) =>
        var i :| 0 <= i < |children| && Contains(r.children[i], p);
        EveryStackIsTidy(children[i], p);
      case _ =>
    }
  }

  // ---------------------------------------------------------------- the optimizer

  lemma MergedScanIsScan(plan: Plan)
    requires var r := MergeProjections(plan); r.Projection? && r.child.SeqScan?
    ensures MergeProjections(plan) == plan
  {
  }

  lemma MergedTopNIsOld(cat: Catalog, plan: Plan)
    requires plan.TopN? && IsCandidate(cat, MergeProjections(plan))
    ensures IsCandidate(cat, plan)
  {
    MergedScanIsScan(plan.child);
  }

  /** Merging brings no ordering by distance back. */
  lemma {:induction false} MergingAddsNone(cat: Catalog, plan: Plan, p: Plan)
    requires FedByScans(plan) && Contains(MergeProjections(plan), p) && IsCandidate(cat, p)
    ensures exists q :: Contains(plan, q) && IsCandidate(cat, q)
    decreases plan
  {
    var r := MergeProjections(plan);
    if p == r {
      MergedTopNIsOld(cat, plan);
      assert Contains(plan, plan);
    } else if IsStacked(plan) {
      StackedIsBlanked(plan);
      assert Contains(r.child, p) && Contains(r.child.child, p);
      assert Contains(plan.child, p) && Contains(plan, p);
    } else {
      var child := plan;
      match plan {
        case FilteredIndexScan(_, _, _, _, _, _, c) => child := c;
        case Projection(_, c) => child := c;
        case TopN(_, _, _, c) => child := c;
        case Other(_, children) =>
          var i :| 0 <= i < |children| && Contains(r.children[i], p);
          child := children[i];
      }
      MergingAddsNone(cat, child, p);
      var q :| Contains(child, q) && IsCandidate(cat, q);
      assert Contains(plan, q);
    }
  }

  lemma {:induction false} OptimizedIsFed(cat: Catalog, plan: Plan)
    requires FedByScans(plan)
    ensures FedByScans(OptimizeChildren(cat, plan))
    decreases plan
  {
    if MatchPlan(cat, plan).Match? {
      var r := TryOptimize(cat, plan);
      assert FedByScans(r.child);
    } else {
      match plan
      case Projection(_, child) => OptimizedIsFed(cat, child);
      case TopN(_, _, _, child) => OptimizedIsFed(cat, child);
      case Other(_, children) =>
        forall i | 0 <= i < |children| ensures FedByScans(OptimizeChildren(cat, children[i])) {
          OptimizedIsFed(cat, children[i]);
        }
      case _ =>
    }
  }

  /** An optimized plan contains no ordering by the distance of an indexed column; if there was one, its
      projections over index scans are blanked; if there was none, the plan is unchanged. */
  lemma OptimizedPlan(cat: Catalog, plan: Plan)
    requires FedByScans(plan)
    ensures forall p :: Contains(Optimize(cat, plan), p) ==> !IsCandidate(cat, p)
    ensures (exists p :: Contains(plan, p) && IsCandidate(cat, p))
            ==> forall p :: Contains(Optimize(cat, plan), p) ==> IsTidy(p)
    ensures (forall p :: Contains(plan, p) ==> !IsCandidate(cat, p)) ==> Optimize(cat, plan) == plan
  {
    var r := OptimizeChildren(cat, plan);
    OptimizedIsFed(cat, plan);
    forall p | Contains(r, p) ensures !IsCandidate(cat, p) {
      NoCandidateIsLeft(cat, plan, p);
    }
    forall p | Contains(MergeProjections(r), p) ensures !IsCandidate(cat, p) && IsTidy(p) {
      if IsCandidate(cat, p) {
        MergingAddsNone(cat, r, p);
      }
      EveryStackIsTidy(r, p);
    }
    if forall p :: Contains(plan, p) ==> !IsCandidate(cat, p) {
      OthersAreKept(cat, plan);
    }
    if p :| Contains(plan, p) && IsCandidate(cat, p) {
      FoundIsOptimized(cat, plan, p);
    }
  }

  lemma {:induction false} FoundIsOptimized(cat: Catalog, plan: Plan, p: Plan)
    requires Contains(plan, p) && IsCandidate(cat, p)
    ensures DidOptimize(cat, plan)
    decreases plan
  {
    if p == plan {
      RewritesExactlyThese(cat, plan);
    } else {
      match plan
      case FilteredIndexScan(_, _, _, _, _, _, child) => FoundIsOptimized(cat, child, p);
      case Projection(_, child) => FoundIsOptimized(cat, child, p);
      case TopN(_, _, _, child) => FoundIsOptimized(cat, child, p);
      case Other(_, children) =>
        var i :| 0 <= i < |children| && Contains(children[i], p);
        FoundIsOptimized(cat, children[i], p);
      case _ =>
    }
  }
}

/** The rewriting of a TopN over a projected table scan into an index scan, and the blanking of
    unreferenced projections, as transformations of plans that keep the rows they produce. */
module ScanOptimizer {
  import opened Multisets
  import opened Plans

  /** An index on a column of a table, for a distance function. */
  datatype Index = Index(column: nat, distance: nat)

  /** The indexes of each table, and whether the global variant is built. */
  datatype Catalog = Catalog(indexes: nat -> seq<Index>, global: bool)

  datatype Match = NoMatch | Match(index: Index, query: Value)

  // ---------------------------------------------------------------- matching

  /** The expression refers to the indexed column among the columns of the scan. */
  predicate IsIndexed(e: Expr, columns: seq<Column>, index: Index) {
    e.Ref? && e.i < |columns| && columns[e.i] == Stored(index.column)
  }

  /** The expression is the distance of the indexed column and a constant, in either order. */
  function MatchIndex(e: Expr, columns: seq<Column>, index: Index): Match {
    if e.Call? && e.f == index.distance && |e.args| == 2 then
      if e.args[0].Constant? && IsIndexed(e.args[1], columns, index) then Match(index, e.args[0].value)
      else if e.args[1].Constant? && IsIndexed(e.args[0], columns, index) then Match(index, e.args[1].value)
      else NoMatch
    else NoMatch
  }

  /** The first index that matches. */
  function FindIndex(e: Expr, columns: seq<Column>, indexes: seq<Index>): (m: Match)
    ensures m.Match? ==> MatchIndex(e, columns, m.index) == m
  {
    if indexes == [] then NoMatch
    else if MatchIndex(e, columns, indexes[0]).Match? then MatchIndex(e, columns, indexes[0])
    else FindIndex(e, columns, indexes[1..])
  }

  /** One ascending order by a column of a projection over a table scan without dynamic filters. */
  predicate HasShape(plan: Plan) {
    && plan.TopN? && |plan.orders| == 1 && plan.orders[0].ascending && plan.orders[0].expr.Ref?
    && plan.child.Projection? && plan.orders[0].expr.i < |plan.child.exprs|
    && plan.child.child.SeqScan? && !plan.child.child.dynamicFilters
  }

  function MatchPlan(cat: Catalog, plan: Plan): Match {
    if HasShape(plan) then
      var scan := plan.child.child;
      FindIndex(plan.child.exprs[plan.orders[0].expr.i], scan.columns, cat.indexes(scan.table))
    else NoMatch
  }

  /** The index scan that replaces the table scan: fed by a scan for row ids if there are filters. */
  function Replacement(cat: Catalog, scan: Plan, m: Match, limit: nat): Plan
    requires scan.SeqScan? && m.Match?
  {
    if scan.filters == [] then
      IndexScan(scan.table, scan.columns, m.index.column, m.index.distance, m.query, limit, cat.global)
    else
      FilteredIndexScan(scan.table, scan.columns, m.index.column, m.index.distance, m.query, limit,
                        SeqScan(scan.table, [RowId], scan.filters, scan.dynamicFilters))
  }

  /** `TryOptimize`: only the limit of the TopN is read, not its offset. */
  function TryOptimize(cat: Catalog, plan: Plan): Plan {
    var m := MatchPlan(cat, plan);
    if m.Match? then Projection(plan.child.exprs, Replacement(cat, plan.child.child, m, plan.limit)) else plan
  }

  // ---------------------------------------------------------------- tops under maps

  lemma {:induction false} MapOfPermutation<T, U>(f: T -> U, a: seq<T>, b: seq<T>)
    requires multiset(a) == multiset(b)
    ensures multiset(Map(f, a)) == multiset(Map(f, b))
    decreases |a|
  {
    SameLength(a, b);
    if a != [] {
      var n := |a| - 1;
      assert a == a[..n] + [a[n]];
      assert a[n] in multiset(b);
      var i :| 0 <= i < |b| && b[i] == a[n];
      Without(b, i);
      Cancel(multiset(a[..n]), multiset(b[..i] + b[i + 1..]), multiset{a[n]});
      MapOfPermutation(f, a[..n], b[..i] + b[i + 1..]);
      Without(Map(f, b), i);
      assert Map(f, b[..i] + b[i + 1..]) == Map(f, b)[..i] + Map(f, b)[i + 1..];
      assert Map(f, a) == Map(f, a[..n]) + [f(a[n])];
    }
  }

  lemma SameLength<T>(a: seq<T>, b: seq<T>)
    requires multiset(a) == multiset(b)
    ensures |a| == |b|
  {
    assert |multiset(a)| == |multiset(b)|;
  }

  /** A permutation of mapped elements comes from a permutation of the elements. */
  lemma {:induction false} LiftPermutation<T, U>(f: T -> U, a: seq<T>, b: seq<U>) returns (lifted: seq<T>)
    requires multiset(Map(f, a)) == multiset(b)
    ensures multiset(lifted) == multiset(a) && Map(f, lifted) == b
    decreases |b|
  {
    SameLength(Map(f, a), b);
    if b == [] {
      lifted := [];
    } else {
      var n := |b| - 1;
      assert b == b[..n] + [b[n]];
      assert b[n] in multiset(Map(f, a));
      var i :| 0 <= i < |a| && Map(f, a)[i] == b[n];
      var rest := a[..i] + a[i + 1..];
      Without(Map(f, a), i);
      assert Map(f, rest) == Map(f, a)[..i] + Map(f, a)[i + 1..];
      Cancel(multiset(Map(f, rest)), multiset(b[..n]), multiset{b[n]});
      var init := LiftPermutation(f, rest, b[..n]);
      lifted := init + [a[i]];
      Without(a, i);
      assert Map(f, lifted) == Map(f, init) + [f(a[i])];
    }
  }

  /** The two orders agree along `f`. */
  ghost predicate Agree<T(!new), U>(f: T -> U, le: (T, T) -> bool, leU: (U, U) -> bool) {
    forall a, b :: le(a, b) == leU(f(a), f(b))
  }

  lemma TopOfMap<T(!new), U(!new)>(f: T -> U, rows: seq<T>, le: (T, T) -> bool, leU: (U, U) -> bool, n: nat,
                                   top: seq<T>)
    requires Agree(f, le, leU) && IsTop(rows, le, n, top)
    ensures IsTop(Map(f, rows), leU, n, Map(f, top))
  {
    var rest :| Splits(rows, le, n, top, rest);
    assert multiset(top + rest) == multiset(rows);
    MapOfPermutation(f, top + rest, rows);
    assert Map(f, top + rest) == Map(f, top) + Map(f, rest);
    assert Splits(Map(f, rows), leU, n, Map(f, top), Map(f, rest));
  }

  lemma TopFromMap<T(!new), U(!new)>(f: T -> U, rows: seq<T>, le: (T, T) -> bool, leU: (U, U) -> bool, n: nat,
                                     mapped: seq<U>)
      returns (top: seq<T>)
    requires Agree(f, le, leU) && IsTop(Map(f, rows), leU, n, mapped)
    ensures IsTop(rows, le, n, top) && Map(f, top) == mapped
  {
    var restU :| Splits(Map(f, rows), leU, n, mapped, restU);
    assert multiset(mapped + restU) == multiset(Map(f, rows));
    var lifted := LiftPermutation(f, rows, mapped + restU);
    top := lifted[..|mapped|];
    var rest := lifted[|mapped|..];
    assert lifted == top + rest;
    assert Map(f, top) == mapped && Map(f, rest) == restU;
    assert Splits(rows, le, n, top, rest);
  }

  // ---------------------------------------------------------------- one rewriting

  /** Distances do not depend on the order of their arguments. */
  ghost predicate Symmetric(env: Env, distance: nat) {
    forall x, y :: env.call(distance, [x, y]) == env.call(distance, [y, x])
  }

  function RowsOf(env: Env, scan: Plan): (ids: seq<nat>)
    requires scan.SeqScan?
  {
    PassingIds(env, scan.table, scan.filters, scan.dynamicFilters, |env.tables(scan.table)|)
  }

  /** The row ids a scan for row ids produces are those of the rows that pass. */
  lemma IdsAreUnique(env: Env, t: nat, ids: seq<nat>, others: seq<nat>)
    requires AreIds(FetchAll(env, t, [RowId], ids), others)
    ensures others == ids
  {
    forall i | 0 <= i < |ids| ensures others[i] == ids[i] {
      assert Fetch(env, t, [RowId], ids[i])[0] == Value(ids[i]);
      assert FetchAll(env, t, [RowId], ids)[i][0] == [Value(others[i])][0];
    }
  }

  lemma IdsAreIds(env: Env, t: nat, ids: seq<nat>)
    ensures AreIds(FetchAll(env, t, [RowId], ids), ids)
  {
    forall i | 0 <= i < |ids| ensures FetchAll(env, t, [RowId], ids)[i] == [Value(ids[i])] {
      assert Fetch(env, t, [RowId], ids[i])[0] == Value(ids[i]);
    }
  }

  /** With or without filters, the replacement returns the top rows of those that pass. */
  lemma ReplacementReturns(env: Env, cat: Catalog, scan: Plan, m: Match, limit: nat, rows: seq<Row>)
    requires scan.SeqScan? && !scan.dynamicFilters && m.Match?
    ensures Produces(env, Replacement(cat, scan, m, limit), rows)
            <==> IndexReturns(env, scan.table, scan.columns, m.index.column, m.index.distance, m.query, limit,
                              RowsOf(env, scan), rows)
  {
    if scan.filters != [] {
      FilteredReturns(env, scan, m, limit, rows);
    }
  }

  lemma FilteredReturns(env: Env, scan: Plan, m: Match, limit: nat, rows: seq<Row>)
    requires scan.SeqScan? && !scan.dynamicFilters && m.Match?
    ensures Produces(env, FilteredIndexScan(scan.table, scan.columns, m.index.column, m.index.distance, m.query, limit,
                                            SeqScan(scan.table, [RowId], scan.filters, scan.dynamicFilters)), rows)
            <==> IndexReturns(env, scan.table, scan.columns, m.index.column, m.index.distance, m.query, limit,
                              RowsOf(env, scan), rows)
  {
    var ids := RowsOf(env, scan);
    var child := SeqScan(scan.table, [RowId], scan.filters, scan.dynamicFilters);
    var found := FetchAll(env, scan.table, [RowId], ids);
    IdsAreIds(env, scan.table, ids);
    assert Produces(env, child, found);
    forall others | AreIds(found, others) ensures others == ids {
      IdsAreUnique(env, scan.table, ids, others);
    }
  }

  /** The projected row of a row id. */
  function Projected(env: Env, t: nat, columns: seq<Column>, exprs: seq<Expr>): nat -> Row {
    (id: nat) => Project(env, exprs, Fetch(env, t, columns, id))
  }

  lemma ProjectedRows(env: Env, t: nat, columns: seq<Column>, exprs: seq<Expr>, ids: seq<nat>)
    ensures ProjectAll(env, exprs, FetchAll(env, t, columns, ids)) == Map(Projected(env, t, columns, exprs), ids)
  {
  }

  /** The matched expression is the distance the index ranks by. */
  lemma MatchedExpression(env: Env, t: nat, columns: seq<Column>, e: Expr, m: Match, id: nat)
    requires m.Match? && MatchIndex(e, columns, m.index) == m && Symmetric(env, m.index.distance)
    ensures env.rank(Eval(env, e, Fetch(env, t, columns, id)))
            == DistanceRank(env, t, m.index.column, m.index.distance, m.query, id)
  {
    var row := Fetch(env, t, columns, id);
    var x := Stores(env, t, id, Stored(m.index.column));
    var values := seq(|e.args|, i requires 0 <= i < |e.args| => Eval(env, e.args[i], row));
    if e.args[0].Constant? && IsIndexed(e.args[1], columns, m.index) {
      assert values == [m.query, x];
    } else {
      assert values == [x, m.query];
    }
  }

  lemma OrdersAgree(env: Env, t: nat, columns: seq<Column>, exprs: seq<Expr>, order: Order, m: Match)
    requires order.ascending && order.expr.Ref? && order.expr.i < |exprs|
    requires m.Match? && MatchIndex(exprs[order.expr.i], columns, m.index) == m && Symmetric(env, m.index.distance)
    ensures Agree(Projected(env, t, columns, exprs),
                  ByDistance(env, t, m.index.column, m.index.distance, m.query), ByOrders(env, [order]))
  {
    var f, e := Projected(env, t, columns, exprs), exprs[order.expr.i];
    var le, leU := ByDistance(env, t, m.index.column, m.index.distance, m.query), ByOrders(env, [order]);
    forall a: nat, b: nat ensures le(a, b) == leU(f(a), f(b)) {
      MatchedExpression(env, t, columns, e, m, a);
      MatchedExpression(env, t, columns, e, m, b);
      OneOrder(env, order, f(a), f(b));
    }
  }

  lemma OneOrder(env: Env, order: Order, a: Row, b: Row)
    requires order.ascending
    ensures Before(env, [order], a, b) <==> env.rank(Eval(env, order.expr, a)) <= env.rank(Eval(env, order.expr, b))
  {
    assert [order][1..] == [];
  }

  /** What the rewritten plan produces: the projected top rows by distance. */
  ghost predicate ProducesTop(env: Env, plan: Plan, m: Match, n: nat, out: seq<Row>)
    requires HasShape(plan) && m.Match?
  {
    var scan := plan.child.child;
    exists chosen :: IsTop(RowsOf(env, scan), ByDistance(env, scan.table, m.index.column, m.index.distance, m.query), n,
                           chosen)
                     && out == Map(Projected(env, scan.table, scan.columns, plan.child.exprs), chosen)
  }

  lemma RewrittenProduces(env: Env, cat: Catalog, plan: Plan, m: Match, out: seq<Row>)
    requires HasShape(plan) && m.Match?
    ensures Produces(env, Projection(plan.child.exprs, Replacement(cat, plan.child.child, m, plan.limit)), out)
            <==> ProducesTop(env, plan, m, plan.limit, out)
  {
    var scan, exprs := plan.child.child, plan.child.exprs;
    var inner := Replacement(cat, scan, m, plan.limit);
    var ids := RowsOf(env, scan);
    var le := ByDistance(env, scan.table, m.index.column, m.index.distance, m.query);
    if Produces(env, Projection(exprs, inner), out) {
      var rows :| Produces(env, inner, rows) && out == ProjectAll(env, exprs, rows);
      ReplacementReturns(env, cat, scan, m, plan.limit, rows);
      var chosen :| IsTop(ids, le, plan.limit, chosen) && rows == FetchAll(env, scan.table, scan.columns, chosen);
      ProjectedRows(env, scan.table, scan.columns, exprs, chosen);
    }
    if ProducesTop(env, plan, m, plan.limit, out) {
      var chosen :| IsTop(ids, le, plan.limit, chosen)
                    && out == Map(Projected(env, scan.table, scan.columns, exprs), chosen);
      var rows := FetchAll(env, scan.table, scan.columns, chosen);
      ReplacementReturns(env, cat, scan, m, plan.limit, rows);
      ProjectedRows(env, scan.table, scan.columns, exprs, chosen);
      assert Produces(env, inner, rows);
    }
  }

  /** The projected rows of the scan. */
  function ScannedRows(env: Env, plan: Plan): seq<Row>
    requires HasShape(plan)
  {
    var scan := plan.child.child;
    Map(Projected(env, scan.table, scan.columns, plan.child.exprs), RowsOf(env, scan))
  }

  lemma ProjectionProduces(env: Env, plan: Plan, rows: seq<Row>)
    requires HasShape(plan)
    ensures Produces(env, plan.child, rows) <==> rows == ScannedRows(env, plan)
  {
    var scan := plan.child.child;
    var fetched := FetchAll(env, scan.table, scan.columns, RowsOf(env, scan));
    ProjectedRows(env, scan.table, scan.columns, plan.child.exprs, RowsOf(env, scan));
    assert Produces(env, scan, fetched);
    assert forall r :: Produces(env, scan, r) ==> r == fetched;
  }

  /** The tops of the projected rows are the projected tops. */
  lemma TopsCorrespond(env: Env, plan: Plan, m: Match, n: nat, top: seq<Row>)
    requires HasShape(plan) && m.Match? && Symmetric(env, m.index.distance)
    requires MatchIndex(plan.child.exprs[plan.orders[0].expr.i], plan.child.child.columns, m.index) == m
    ensures IsTop(ScannedRows(env, plan), ByOrders(env, plan.orders), n, top) <==> ProducesTop(env, plan, m, n, top)
  {
    var scan, exprs := plan.child.child, plan.child.exprs;
    var f := Projected(env, scan.table, scan.columns, exprs);
    var le := ByDistance(env, scan.table, m.index.column, m.index.distance, m.query);
    OrdersAgree(env, scan.table, scan.columns, exprs, plan.orders[0], m);
    assert plan.orders == [plan.orders[0]];
    if IsTop(ScannedRows(env, plan), ByOrders(env, plan.orders), n, top) {
      var chosen := TopFromMap(f, RowsOf(env, scan), le, ByOrders(env, plan.orders), n, top);
    }
    if ProducesTop(env, plan, m, n, top) {
      var chosen :| IsTop(RowsOf(env, scan), le, n, chosen) && top == Map(f, chosen);
      TopOfMap(f, RowsOf(env, scan), le, ByOrders(env, plan.orders), n, chosen);
    }
  }

  lemma WithoutOffset(env: Env, orders: seq<Order>, limit: nat, rows: seq<Row>, out: seq<Row>)
    ensures TopNReturns(env, orders, limit, 0, rows, out) <==> IsTop(rows, ByOrders(env, orders), limit, out)
  {
    assert out == out[0..];
    assert forall top: seq<Row> :: top[0..] == top;
  }

  lemma TopNReads(env: Env, plan: Plan, out: seq<Row>)
    requires HasShape(plan)
    ensures Produces(env, plan, out)
            <==> TopNReturns(env, plan.orders, plan.limit, plan.offset, ScannedRows(env, plan), out)
  {
    ProjectionProduces(env, plan, ScannedRows(env, plan));
    forall rows | Produces(env, plan.child, rows) ensures rows == ScannedRows(env, plan) {
      ProjectionProduces(env, plan, rows);
    }
  }

  /** The TopN produces the same as long as it has no offset. */
  lemma TopNProduces(env: Env, plan: Plan, m: Match, out: seq<Row>)
    requires HasShape(plan) && m.Match? && Symmetric(env, m.index.distance) && plan.offset == 0
    requires MatchIndex(plan.child.exprs[plan.orders[0].expr.i], plan.child.child.columns, m.index) == m
    ensures Produces(env, plan, out) <==> ProducesTop(env, plan, m, plan.limit, out)
  {
    TopNReads(env, plan, out);
    WithoutOffset(env, plan.orders, plan.limit, ScannedRows(env, plan), out);
    TopsCorrespond(env, plan, m, plan.limit, out);
  }

  /** Without an offset the rewriting keeps exactly the outputs of the plan, for every database, every
      choice among equal distances, and with or without filters. */
  lemma TryOptimizeKeepsOutputs(env: Env, cat: Catalog, plan: Plan)
    requires MatchPlan(cat, plan).Match? ==> plan.offset == 0 && Symmetric(env, MatchPlan(cat, plan).index.distance)
    ensures Equivalent(env, plan, TryOptimize(cat, plan))
  {
    var m := MatchPlan(cat, plan);
    if m.Match? {
      forall out ensures Produces(env, plan, out) <==> Produces(env, TryOptimize(cat, plan), out) {
        TopNProduces(env, plan, m, out);
        RewrittenProduces(env, cat, plan, m, out);
      }
    }
  }

  // ---------------------------------------------------------------- the offset

  /** A database whose tables all have one row, and in which everything passes. */
  function OneRowEach(): Env {
    Env(t => [[Null]], (f, args) => Null, (f, row) => true, (t, id) => true, v => 0, (op, inputs, out) => false)
  }

  lemma OneRowPasses(scan: Plan)
    requires scan.SeqScan?
    ensures RowsOf(OneRowEach(), scan) == [0]
  {
    assert PassingIds(OneRowEach(), scan.table, scan.filters, scan.dynamicFilters, 0) == [];
  }

  lemma OneTop(le: (nat, nat) -> bool, n: nat)
    requires n > 0
    ensures IsTop<nat>([0], le, n, [0])
  {
    assert Splits<nat>([0], le, n, [0], []);
  }

  /** The offset of a matched TopN is dropped: where it would skip the only row, the rewritten plan
      returns it. */
  lemma OffsetIsIgnored(cat: Catalog, plan: Plan)
    requires MatchPlan(cat, plan).Match? && plan.offset > 0 && plan.limit > 0
    ensures Symmetric(OneRowEach(), MatchPlan(cat, plan).index.distance)
    ensures !Equivalent(OneRowEach(), plan, TryOptimize(cat, plan))
  {
    var env, m, scan := OneRowEach(), MatchPlan(cat, plan), plan.child.child;
    var le := ByDistance(env, scan.table, m.index.column, m.index.distance, m.query);
    var one := Map(Projected(env, scan.table, scan.columns, plan.child.exprs), [0]);
    OneRowPasses(scan);
    OneTop(le, plan.limit);
    assert ProducesTop(env, plan, m, plan.limit, one);
    RewrittenProduces(env, cat, plan, m, one);
    if Produces(env, plan, one) {
      NothingIsLeft(env, plan, one);
    }
  }

  lemma NothingIsLeft(env: Env, plan: Plan, out: seq<Row>)
    requires HasShape(plan) && Produces(env, plan, out) && |RowsOf(env, plan.child.child)| <= plan.offset
    ensures out == []
  {
    TopNReads(env, plan, out);
    SkipsAll(env, plan.orders, plan.limit, plan.offset, ScannedRows(env, plan), out);
  }

  lemma SkipsAll(env: Env, orders: seq<Order>, limit: nat, offset: nat, rows: seq<Row>, out: seq<Row>)
    requires TopNReturns(env, orders, limit, offset, rows, out) && |rows| <= offset
    ensures out == []
  {
    var le := ByOrders(env, orders);
    var top :| IsTop(rows, le, offset + limit, top) && out == top[if offset < |top| then offset else |top|..];
    var rest :| Splits(rows, le, offset + limit, top, rest);
  }

  /** The rewriting of a matched TopN is right for every database exactly when it has no offset. */
  lemma OffsetDecides(cat: Catalog, plan: Plan)
    requires MatchPlan(cat, plan).Match? && plan.limit > 0
    ensures plan.offset == 0
            <==> forall env :: Symmetric(env, MatchPlan(cat, plan).index.distance)
                               ==> Equivalent(env, plan, TryOptimize(cat, plan))
  {
    if plan.offset == 0 {
      forall env | Symmetric(env, MatchPlan(cat, plan).index.distance)
        ensures Equivalent(env, plan, TryOptimize(cat, plan))
      {
        TryOptimizeKeepsOutputs(env, cat, plan);
      }
    } else {
      OffsetIsIgnored(cat, plan);
    }
  }

  // ---------------------------------------------------------------- whole plans

  /** `OptimizeChildren`: tries each operator, then its children. What replaces a TopN contains no
      other TopN. */
  function OptimizeChildren(cat: Catalog, plan: Plan): Plan
    decreases plan
  {
    if MatchPlan(cat, plan).Match? then TryOptimize(cat, plan)
    else
      match plan
      case FilteredIndexScan(t, columns, column, distance, query, limit, child) =>
        FilteredIndexScan(t, columns, column, distance, query, limit, OptimizeChildren(cat, child))
      case Projection(exprs, child) => Projection(exprs, OptimizeChildren(cat, child))
      case TopN(orders, limit, offset, child) => TopN(orders, limit, offset, OptimizeChildren(cat, child))
      case Other(op, children) =>
        Other(op, seq(|children|, i requires 0 <= i < |children| => OptimizeChildren(cat, children[i])))
      case _ => plan
  }

  /** No matched TopN has an offset, and the matched distances are symmetric. */
  ghost predicate Harmless(env: Env, cat: Catalog, plan: Plan)
    decreases plan
  {
    && (MatchPlan(cat, plan).Match? ==> plan.offset == 0 && Symmetric(env, MatchPlan(cat, plan).index.distance))
    && match plan
       case FilteredIndexScan(_, _, _, _, _, _, child) => Harmless(env, cat, child)
       case Projection(_, child) => Harmless(env, cat, child)
       case TopN(_, _, _, child) => Harmless(env, cat, child)
       case Other(_, children) => forall i :: 0 <= i < |children| ==> Harmless(env, cat, children[i])
       case _ => true
  }

  /** Replacing the children of an opaque operator by equivalent ones. */
  lemma ReplaceChildren(env: Env, op: nat, children: seq<Plan>, others: seq<Plan>)
    requires |children| == |others| && forall i :: 0 <= i < |children| ==> Equivalent(env, children[i], others[i])
    ensures Equivalent(env, Other(op, children), Other(op, others))
  {
    forall out ensures Produces(env, Other(op, children), out) <==> Produces(env, Other(op, others), out) {
      ReplaceOneWay(env, op, children, others, out);
      ReplaceOneWay(env, op, others, children, out);
    }
  }

  lemma ReplaceOneWay(env: Env, op: nat, children: seq<Plan>, others: seq<Plan>, out: seq<Row>)
    requires |children| == |others| && forall i :: 0 <= i < |children| ==> Equivalent(env, children[i], others[i])
    ensures Produces(env, Other(op, children), out) ==> Produces(env, Other(op, others), out)
  {
    if Produces(env, Other(op, children), out) {
      var inputs: seq<seq<Row>> :| |inputs| == |children| && env.other(op, inputs, out)
                                   && forall i :: 0 <= i < |children| ==> Produces(env, children[i], inputs[i]);
      forall i | 0 <= i < |others| ensures Produces(env, others[i], inputs[i]) {
        assert Equivalent(env, children[i], others[i]);
      }
    }
  }

  lemma ReplaceUnderProjection(env: Env, exprs: seq<Expr>, a: Plan, b: Plan)
    requires Equivalent(env, a, b)
    ensures Equivalent(env, Projection(exprs, a), Projection(exprs, b))
  {
  }

  lemma ReplaceUnderTopN(env: Env, orders: seq<Order>, limit: nat, offset: nat, a: Plan, b: Plan)
    requires Equivalent(env, a, b)
    ensures Equivalent(env, TopN(orders, limit, offset, a), TopN(orders, limit, offset, b))
  {
  }

  lemma ReplaceUnderScan(env: Env, t: nat, columns: seq<Column>, column: nat, distance: nat, query: Value, limit: nat,
                         a: Plan, b: Plan)
    requires Equivalent(env, a, b)
    ensures Equivalent(env, FilteredIndexScan(t, columns, column, distance, query, limit, a),
                       FilteredIndexScan(t, columns, column, distance, query, limit, b))
  {
  }

  /** Optimizing a whole plan keeps its outputs. */
  lemma {:induction false} OptimizeChildrenKeepsOutputs(env: Env, cat: Catalog, plan: Plan)
    requires Harmless(env, cat, plan)
    ensures Equivalent(env, plan, OptimizeChildren(cat, plan))
    decreases plan
  {
    if MatchPlan(cat, plan).Match? {
      TryOptimizeKeepsOutputs(env, cat, plan);
    } else if plan.Projection? {
      OptimizeChildrenKeepsOutputs(env, cat, plan.child);
      ReplaceUnderProjection(env, plan.exprs, plan.child, OptimizeChildren(cat, plan.child));
    } else if plan.TopN? {
      OptimizeChildrenKeepsOutputs(env, cat, plan.child);
      ReplaceUnderTopN(env, plan.orders, plan.limit, plan.offset, plan.child, OptimizeChildren(cat, plan.child));
    } else if plan.FilteredIndexScan? {
      OptimizeChildrenKeepsOutputs(env, cat, plan.child);
      ReplaceUnderScan(env, plan.table, plan.columns, plan.column, plan.distance, plan.query, plan.limit, plan.child,
                       OptimizeChildren(cat, plan.child));
    } else if plan.Other? {
      forall i | 0 <= i < |plan.children|
        ensures Equivalent(env, plan.children[i], OptimizeChildren(cat, plan.children[i]))
      {
        OptimizeChildrenKeepsOutputs(env, cat, plan.children[i]);
      }
      ReplaceChildren(env, plan.op, plan.children, OptimizeChildren(cat, plan).children);
    }
  }

  // ---------------------------------------------------------------- unreferenced projections

  /** The columns an expression refers to. */
  function References(e: Expr): set<nat>
    decreases e
  {
    match e
    case Ref(i) => {i}
    case Constant(_) => {}
    case Call(_, args) => set k, i | 0 <= k < |args| && i in References(args[k]) :: i
  }

  function ReferencesOfAll(exprs: seq<Expr>): set<nat> {
    set k, i | 0 <= k < |exprs| && i in References(exprs[k]) :: i
  }

  /** The scans above which MergeProjections looks: the global index scan and the filtered one, but not
      the unfiltered scan of the parallel variant. */
  predicate IsMergeable(plan: Plan) {
    (plan.IndexScan? && plan.global) || plan.FilteredIndexScan?
  }

  /** Every expression outside `referenced` is replaced by a null constant. */
  function Blanked(exprs: seq<Expr>, referenced: set<nat>): (r: seq<Expr>)
    ensures |r| == |exprs|
    ensures forall i :: 0 <= i < |exprs| ==> r[i] == if i in referenced then exprs[i] else Constant(Null)
  {
    seq(|exprs|, i requires 0 <= i < |exprs| => if i in referenced then exprs[i] else Constant(Null))
  }

  /** `MergeProjections` */
  function MergeProjections(plan: Plan): Plan
    decreases plan
  {
    if plan.Projection? && plan.child.Projection? && IsMergeable(plan.child.child) then
      Projection(plan.exprs, Projection(Blanked(plan.child.exprs, ReferencesOfAll(plan.exprs)), plan.child.child))
    else
      match plan
      case FilteredIndexScan(t, columns, column, distance, query, limit, child) =>
        FilteredIndexScan(t, columns, column, distance, query, limit, MergeProjections(child))
      case Projection(exprs, child) => Projection(exprs, MergeProjections(child))
      case TopN(orders, limit, offset, child) => TopN(orders, limit, offset, MergeProjections(child))
      case Other(op, children) =>
        Other(op, seq(|children|, i requires 0 <= i < |children| => MergeProjections(children[i])))
      case _ => plan
  }

  predicate SameAt(a: Row, b: Row, columns: set<nat>) {
    |a| == |b| && forall i :: i in columns && i < |a| ==> a[i] == b[i]
  }

  /** An expression depends only on the columns it refers to. */
  lemma {:induction false} EvalDependsOnReferences(env: Env, e: Expr, a: Row, b: Row)
    requires SameAt(a, b, References(e))
    ensures Eval(env, e, a) == Eval(env, e, b)
    decreases e
  {
    if e.Call? {
      forall k | 0 <= k < |e.args| ensures Eval(env, e.args[k], a) == Eval(env, e.args[k], b) {
        assert forall i :: i in References(e.args[k]) ==> i in References(e);
        EvalDependsOnReferences(env, e.args[k], a, b);
      }
      var va := seq(|e.args|, i requires 0 <= i < |e.args| => Eval(env, e.args[i], a));
      var vb := seq(|e.args|, i requires 0 <= i < |e.args| => Eval(env, e.args[i], b));
      assert va == vb;
    }
  }

  lemma BlankingIsUnseen(env: Env, outer: seq<Expr>, inner: seq<Expr>, row: Row)
    ensures Project(env, outer, Project(env, Blanked(inner, ReferencesOfAll(outer)), row))
            == Project(env, outer, Project(env, inner, row))
  {
    var a, b := Project(env, Blanked(inner, ReferencesOfAll(outer)), row), Project(env, inner, row);
    forall k | 0 <= k < |outer| ensures Eval(env, outer[k], a) == Eval(env, outer[k], b) {
      assert forall i :: i in References(outer[k]) ==> i in ReferencesOfAll(outer);
      EvalDependsOnReferences(env, outer[k], a, b);
    }
  }

  lemma BlankingAllIsUnseen(env: Env, outer: seq<Expr>, inner: seq<Expr>, rows: seq<Row>)
    ensures ProjectAll(env, outer, ProjectAll(env, Blanked(inner, ReferencesOfAll(outer)), rows))
            == ProjectAll(env, outer, ProjectAll(env, inner, rows))
  {
    forall i | 0 <= i < |rows| {
      BlankingIsUnseen(env, outer, inner, rows[i]);
    }
  }

  lemma TwoProjections(env: Env, outer: seq<Expr>, inner: seq<Expr>, child: Plan, out: seq<Row>)
    ensures Produces(env, Projection(outer, Projection(inner, child)), out)
            <==> exists rows :: Produces(env, child, rows) && out == ProjectAll(env, outer, ProjectAll(env, inner, rows))
  {
    forall rows | Produces(env, child, rows)
      ensures Produces(env, Projection(inner, child), ProjectAll(env, inner, rows))
    {
    }
  }

  lemma BlankingKeepsOutputs(env: Env, outer: seq<Expr>, inner: seq<Expr>, child: Plan)
    ensures Equivalent(env, Projection(outer, Projection(inner, child)),
                       Projection(outer, Projection(Blanked(inner, ReferencesOfAll(outer)), child)))
  {
    forall out
      ensures Produces(env, Projection(outer, Projection(inner, child)), out)
              <==> Produces(env, Projection(outer, Projection(Blanked(inner, ReferencesOfAll(outer)), child)), out)
    {
      TwoProjections(env, outer, inner, child, out);
      TwoProjections(env, outer, Blanked(inner, ReferencesOfAll(outer)), child, out);
      forall rows {
        BlankingAllIsUnseen(env, outer, inner, rows);
      }
    }
  }

  /** Blanking unreferenced projections keeps the outputs of every plan. */
  lemma {:induction false} MergeProjectionsKeepsOutputs(env: Env, plan: Plan)
    ensures Equivalent(env, plan, MergeProjections(plan))
    decreases plan
  {
    if plan.Projection? && plan.child.Projection? && IsMergeable(plan.child.child) {
      BlankingKeepsOutputs(env, plan.exprs, plan.child.exprs, plan.child.child);
    } else if plan.Projection? {
      MergeProjectionsKeepsOutputs(env, plan.child);
      ReplaceUnderProjection(env, plan.exprs, plan.child, MergeProjections(plan.child));
    } else if plan.TopN? {
      MergeProjectionsKeepsOutputs(env, plan.child);
      ReplaceUnderTopN(env, plan.orders, plan.limit, plan.offset, plan.child, MergeProjections(plan.child));
    } else if plan.FilteredIndexScan? {
      MergeProjectionsKeepsOutputs(env, plan.child);
      ReplaceUnderScan(env, plan.table, plan.columns, plan.column, plan.distance, plan.query, plan.limit, plan.child,
                       MergeProjections(plan.child));
    } else if plan.Other? {
      forall i | 0 <= i < |plan.children| ensures Equivalent(env, plan.children[i], MergeProjections(plan.children[i])) {
        MergeProjectionsKeepsOutputs(env, plan.children[i]);
      }
      ReplaceChildren(env, plan.op, plan.children, MergeProjections(plan).children);
    }
  }

  // ---------------------------------------------------------------- the optimizer

  /** Some operator was replaced. */
  predicate DidOptimize(cat: Catalog, plan: Plan)
    decreases plan
  {
    || MatchPlan(cat, plan).Match?
    || (match plan
        case FilteredIndexScan(_, _, _, _, _, _, child) => DidOptimize(cat, child)
        case Projection(_, child) => DidOptimize(cat, child)
        case TopN(_, _, _, child) => DidOptimize(cat, child)
        case Other(_, children) => exists i :: 0 <= i < |children| && DidOptimize(cat, children[i])
        case _ => false)
  }

  /** `Optimize` */
  function Optimize(cat: Catalog, plan: Plan): Plan {
    if DidOptimize(cat, plan) then MergeProjections(OptimizeChildren(cat, plan)) else OptimizeChildren(cat, plan)
  }

  /** The optimizer keeps the rows and their order for every plan and database, unless a matched TopN
      has an offset. */
  lemma OptimizeKeepsOutputs(env: Env, cat: Catalog, plan: Plan)
    requires Harmless(env, cat, plan)
    ensures Equivalent(env, plan, Optimize(cat, plan))
  {
    OptimizeChildrenKeepsOutputs(env, cat, plan);
    MergeProjectionsKeepsOutputs(env, OptimizeChildren(cat, plan));
  }
}

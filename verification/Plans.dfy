/** Logical plans as the scan optimizer sees them, and the rows they can produce. */
module Plans {

  datatype Value = Null | Value(v: int)

  type Row = seq<Value>

  datatype Column = RowId | Stored(i: nat)

  datatype Expr = Ref(i: nat) | Constant(value: Value) | Call(f: nat, args: seq<Expr>)

  datatype Order = Order(ascending: bool, expr: Expr)

  /** A table scan has pushed-down filters and, from joins, dynamic ones; the index scans carry the
      indexed column, the distance function, the query and the limit; any other operator is opaque. */
  datatype Plan =
    | SeqScan(table: nat, columns: seq<Column>, filters: seq<nat>, dynamicFilters: bool)
    | IndexScan(table: nat, columns: seq<Column>, column: nat, distance: nat, query: Value, limit: nat, global: bool)
    | FilteredIndexScan(table: nat, columns: seq<Column>, column: nat, distance: nat, query: Value, limit: nat,
                        child: Plan)
    | Projection(exprs: seq<Expr>, child: Plan)
    | TopN(orders: seq<Order>, limit: nat, offset: nat, child: Plan)
    | Other(op: nat, children: seq<Plan>)

  /** The data and the meaning of functions, filters and opaque operators; `rank` is the order by which
      values are sorted. */
  datatype Env = Env(tables: nat -> seq<Row>, call: (nat, seq<Value>) -> Value, passes: (nat, Row) -> bool,
                     dynamic: (nat, nat) -> bool, rank: Value -> int, other: (nat, seq<seq<Row>>, seq<Row>) -> bool)

  // ---------------------------------------------------------------- expressions

  function Eval(env: Env, e: Expr, row: Row): Value
    decreases e
  {
    match e
    case Ref(i) => if i < |row| then row[i] else Null
    case Constant(value) => value
    case Call(f, args) => env.call(f, seq(|args|, i requires 0 <= i < |args| => Eval(env, args[i], row)))
  }

  function Project(env: Env, exprs: seq<Expr>, row: Row): (r: Row)
    ensures |r| == |exprs| && forall i :: 0 <= i < |exprs| ==> r[i] == Eval(env, exprs[i], row)
  {
    seq(|exprs|, i requires 0 <= i < |exprs| => Eval(env, exprs[i], row))
  }

  // ---------------------------------------------------------------- tops

  /** `top` is a sorted list of the first `n` of `rows` by `le`, with any choice among equals. */
  ghost predicate IsTop<T(!new)>(rows: seq<T>, le: (T, T) -> bool, n: nat, top: seq<T>) {
    exists rest :: Splits(rows, le, n, top, rest)
  }

  ghost predicate Splits<T(!new)>(rows: seq<T>, le: (T, T) -> bool, n: nat, top: seq<T>, rest: seq<T>) {
    && multiset(top) + multiset(rest) == multiset(rows)
    && |top| == (if n < |rows| then n else |rows|)
    && (forall i, j :: 0 <= i < j < |top| ==> le(top[i], top[j]))
    && (forall i, j :: 0 <= i < |top| && 0 <= j < |rest| ==> le(top[i], rest[j]))
  }

  function Map<T, U>(f: T -> U, xs: seq<T>): (r: seq<U>)
    ensures |r| == |xs| && forall i :: 0 <= i < |xs| ==> r[i] == f(xs[i])
  {
    seq(|xs|, i requires 0 <= i < |xs| => f(xs[i]))
  }

  // ---------------------------------------------------------------- rows of a table

  function Stores(env: Env, t: nat, id: nat, column: Column): Value {
    match column
    case RowId => Value(id)
    case Stored(i) => if id < |env.tables(t)| && i < |env.tables(t)[id]| then env.tables(t)[id][i] else Null
  }

  function Fetch(env: Env, t: nat, columns: seq<Column>, id: nat): (r: Row)
    ensures |r| == |columns| && forall j :: 0 <= j < |columns| ==> r[j] == Stores(env, t, id, columns[j])
  {
    seq(|columns|, j requires 0 <= j < |columns| => Stores(env, t, id, columns[j]))
  }

  predicate Passes(env: Env, t: nat, filters: seq<nat>, id: nat)
    requires id < |env.tables(t)|
  {
    forall i :: 0 <= i < |filters| ==> env.passes(filters[i], env.tables(t)[id])
  }

  /** The ids below `n` of the rows that pass. */
  function PassingIds(env: Env, t: nat, filters: seq<nat>, dynamicFilters: bool, n: nat): (r: seq<nat>)
    requires n <= |env.tables(t)|
    ensures forall i :: 0 <= i < |r| ==> r[i] < n
  {
    if n == 0 then []
    else
      var before := PassingIds(env, t, filters, dynamicFilters, n - 1);
      if Passes(env, t, filters, n - 1) && (!dynamicFilters || env.dynamic(t, n - 1)) then before + [n - 1] else before
  }

  /** The rows of a scan are exactly those that pass every filter ... */
  lemma {:induction false} PassingIdsAre(env: Env, t: nat, filters: seq<nat>, dynamicFilters: bool, n: nat, id: nat)
    requires n <= |env.tables(t)|
    ensures id in PassingIds(env, t, filters, dynamicFilters, n) <==>
              id < n && (forall i :: 0 <= i < |filters| ==> env.passes(filters[i], env.tables(t)[id]))
              && (dynamicFilters ==> env.dynamic(t, id))
    decreases n
  {
    if n > 0 {
      PassingIdsAre(env, t, filters, dynamicFilters, n - 1, id);
      if id == n - 1 {
        assert Passes(env, t, filters, id) <==>
               forall i :: 0 <= i < |filters| ==> env.passes(filters[i], env.tables(t)[id]);
      }
    }
  }

  predicate Increases(ids: seq<nat>) {
    forall i, j :: 0 <= i < j < |ids| ==> ids[i] < ids[j]
  }

  /** ... in order. */
  lemma {:induction false} PassingIdsIncrease(env: Env, t: nat, filters: seq<nat>, dynamicFilters: bool, n: nat)
    requires n <= |env.tables(t)|
    ensures Increases(PassingIds(env, t, filters, dynamicFilters, n))
    decreases n
  {
    if n > 0 {
      PassingIdsIncrease(env, t, filters, dynamicFilters, n - 1);
      var before := PassingIds(env, t, filters, dynamicFilters, n - 1);
      assert Increases(before) && Increases(before + [n - 1]);
    }
  }

  function DistanceRank(env: Env, t: nat, column: nat, distance: nat, query: Value, id: nat): int {
    env.rank(env.call(distance, [Stores(env, t, id, Stored(column)), query]))
  }

  function ByDistance(env: Env, t: nat, column: nat, distance: nat, query: Value): (nat, nat) -> bool {
    (a: nat, b: nat) =>
      DistanceRank(env, t, column, distance, query, a) <= DistanceRank(env, t, column, distance, query, b)
  }

  predicate Before(env: Env, orders: seq<Order>, a: Row, b: Row) {
    if orders == [] then true
    else
      var o := orders[0];
      var x, y := env.rank(Eval(env, o.expr, a)), env.rank(Eval(env, o.expr, b));
      if x == y then Before(env, orders[1..], a, b) else if o.ascending then x < y else y < x
  }

  function ByOrders(env: Env, orders: seq<Order>): (Row, Row) -> bool {
    (a, b) => Before(env, orders, a, b)
  }

  // ---------------------------------------------------------------- outputs

  function FetchAll(env: Env, t: nat, columns: seq<Column>, ids: seq<nat>): (r: seq<Row>)
    ensures |r| == |ids| && forall i :: 0 <= i < |ids| ==> r[i] == Fetch(env, t, columns, ids[i])
  {
    Map((id: nat) => Fetch(env, t, columns, id), ids)
  }

  function ProjectAll(env: Env, exprs: seq<Expr>, rows: seq<Row>): (r: seq<Row>)
    ensures |r| == |rows| && forall i :: 0 <= i < |rows| ==> r[i] == Project(env, exprs, rows[i])
  {
    Map((row: Row) => Project(env, exprs, row), rows)
  }

  /** The index returns the top rows by distance among `ids`. */
  ghost predicate IndexReturns(env: Env, t: nat, columns: seq<Column>, column: nat, distance: nat, query: Value,
                               limit: nat, ids: seq<nat>, out: seq<Row>) {
    exists chosen :: IsTop(ids, ByDistance(env, t, column, distance, query), limit, chosen)
                     && out == FetchAll(env, t, columns, chosen)
  }

  ghost predicate TopNReturns(env: Env, orders: seq<Order>, limit: nat, offset: nat, rows: seq<Row>, out: seq<Row>) {
    exists top :: IsTop(rows, ByOrders(env, orders), offset + limit, top)
                  && out == top[if offset < |top| then offset else |top|..]
  }

  /** What a scan for row ids has found. */
  ghost predicate AreIds(rows: seq<Row>, ids: seq<nat>) {
    |rows| == |ids| && forall i :: 0 <= i < |ids| ==> rows[i] == [Value(ids[i])]
  }

  /** The plan can produce `out`. */
  ghost predicate Produces(env: Env, plan: Plan, out: seq<Row>)
    decreases plan
  {
    match plan
    case SeqScan(t, columns, filters, dynamicFilters) =>
      out == FetchAll(env, t, columns, PassingIds(env, t, filters, dynamicFilters, |env.tables(t)|))
    case IndexScan(t, columns, column, distance, query, limit, _) =>
      IndexReturns(env, t, columns, column, distance, query, limit,
                   PassingIds(env, t, [], false, |env.tables(t)|), out)
    case FilteredIndexScan(t, columns, column, distance, query, limit, child) =>
      exists rows, ids :: Produces(env, child, rows) && AreIds(rows, ids)
                          && IndexReturns(env, t, columns, column, distance, query, limit, ids, out)
    case Projection(exprs, child) =>
      exists rows :: Produces(env, child, rows) && out == ProjectAll(env, exprs, rows)
    case TopN(orders, limit, offset, child) =>
      exists rows :: Produces(env, child, rows) && TopNReturns(env, orders, limit, offset, rows, out)
    case Other(op, children) =>
      exists inputs: seq<seq<Row>> :: |inputs| == |children| && env.other(op, inputs, out)
                       && forall i :: 0 <= i < |children| ==> Produces(env, children[i], inputs[i])
  }

  ghost predicate Equivalent(env: Env, p: Plan, q: Plan) {
    forall out :: Produces(env, p, out) <==> Produces(env, q, out)
  }
}

/**
 What a statement means to the backend, for any backend.

 Name resolution, scoping, CTE visibility, filtering, `IN`, wildcards and subqueries are spelled
 out. Everything a MySQL-compatible server may define in its own way — scalar operators, functions,
 every kind of join, set operations, grouping, DISTINCT, ordering and limits — is a function in
 `Dialect`, so a theorem about evaluation holds for every choice of those functions.

 A relation is bound in a FROM clause under its effective name only. Derived tables and CTE bodies
 do not see the enclosing query's columns. A recursive CTE is unrolled `rounds` times from the
 empty relation, for any number of rounds.
 */
module Semantics {
  import opened Common
  import opened SqlAst
  import opened Policies
  import Walk

  datatype Value = Null | Num(n: int) | Str(s: string) | OtherValue(written: string)

  type Row = seq<Value>

  type Matrix = seq<seq<Value>>

  datatype Relation = Relation(columns: seq<string>, rows: seq<Row>)

  datatype Fault = UnknownTable | NoDatabaseSelected | UnknownColumn | AmbiguousColumn | BadName
                 | NotInTheModel | DialectFault

  type Outcome<+T> = Result<T, Fault>

  /** The stored table a spelling of database and table name denotes, or why there is none. */
  type Database = (string, string) -> Outcome<Relation>

  datatype Binding = Binding(name: Option<string>, columns: seq<string>)

  /** The result of a FROM clause: rows are the bindings' columns side by side. */
  datatype Source = Source(bindings: seq<Binding>, rows: seq<Row>)

  /** Where an expression is evaluated: the group `at` among the groups of a SELECT. */
  datatype Frame = Frame(bindings: seq<Binding>, groups: seq<seq<Row>>, at: nat)

  /** Innermost frame first. */
  type Stack = seq<Frame>

  datatype JoinShape = JoinShape(kind: JoinKind, conditional: bool, using: seq<string>, natural: bool)

  datatype CteBinding = CteBinding(name: string, relation: Relation)

  type Env = seq<CteBinding>

  datatype Dialect = Dialect(
    literal: string -> Value,
    equal: (Value, Value) -> Value,
    truthy: Value -> bool,
    sameName: (string, string) -> bool,
    scalar: (Operator, seq<Value>) -> Value,
    call: (CallHead, seq<Value>, Matrix, Matrix) -> Value,
    aggregate: CallHead -> bool,
    scalarOf: Relation -> Outcome<Value>,
    member: (Value, Relation) -> Value,
    join: (JoinShape, Source, Source, Matrix) -> Outcome<Source>,
    combine: (string, Relation, Relation) -> Outcome<Relation>,
    group: (Matrix, seq<Row>) -> seq<seq<Row>>,
    distinct: seq<Row> -> seq<nat>,
    arrange: (string, Matrix, seq<Value>, nat) -> seq<nat>,
    values: (nat, seq<Value>) -> Relation,
    hinted: (set<TableExtra>, Relation) -> Relation,
    rounds: nat)

  datatype World = World(dialect: Dialect, database: Database, current: Option<string>)

  datatype Produced = Produced(relation: Relation, stacks: seq<Stack>)

  // ----- Values, rows and columns --------------------------------------------------------------------

  function ScalarConstant(d: Dialect, literal: Scalar): Value {
    match literal
    case Text(content) => Str(content)
    case Number(amount) => Num(amount)
    case OtherScalar(written) => d.literal(written)
  }

  predicate Truthy(d: Dialect, v: Value) {
    match v
    case Null => false
    case Num(n) => n != 0
    case _ => d.truthy(v)
  }

  /** Three-valued `IN`: true on some match, else NULL if some comparison is NULL, else false. */
  function InValue(d: Dialect, needle: Value, list: seq<Value>): Value {
    if exists i :: 0 <= i < |list| && d.equal(needle, list[i]) == Num(1) then Num(1)
    else if exists i :: 0 <= i < |list| && d.equal(needle, list[i]) == Null then Null
    else Num(0)
  }

  function Negate(negated: bool, v: Value): Value {
    if !negated || v == Null then v else if v == Num(0) then Num(1) else Num(0)
  }

  function ScalarValue(d: Dialect, op: Operator, here: seq<Value>): Value {
    if op.InList? && here != [] then Negate(op.negated, InValue(d, here[0], here[1..]))
    else if op == Unary("-") && |here| == 1 && here[0].Num? then Num(-here[0].n)
    else d.scalar(op, here)
  }

  function At(row: Row, i: nat): Value {
    if i < |row| then row[i] else Null
  }

  function ColumnPositions(d: Dialect, columns: seq<string>, name: string, offset: nat): seq<nat> {
    if columns == [] then []
    else (if d.sameName(columns[0], name) then [offset] else [])
         + ColumnPositions(d, columns[1..], name, offset + 1)
  }

  /** The positions a column reference may denote; a database-qualified one denotes none. */
  function Positions(d: Dialect, parts: seq<string>, bindings: seq<Binding>, offset: nat): seq<nat> {
    if bindings == [] then []
    else
      var matches := |parts| == 1
                  || (|parts| == 2 && bindings[0].name.Some? && d.sameName(bindings[0].name.value, parts[0]));
      (if matches then ColumnPositions(d, bindings[0].columns, parts[|parts| - 1], offset) else [])
      + Positions(d, parts, bindings[1..], offset + |bindings[0].columns|)
  }

  function HeadRow(frame: Frame): Row {
    if frame.at < |frame.groups| && frame.groups[frame.at] != [] then frame.groups[frame.at][0] else []
  }

  function Resolve(d: Dialect, parts: seq<string>, stack: Stack): Outcome<Value> {
    if stack == [] then Err(UnknownColumn)
    else
      var positions := Positions(d, parts, stack[0].bindings, 0);
      if positions == [] then Resolve(d, parts, stack[1..])
      else if |positions| == 1 then Ok(At(HeadRow(stack[0]), positions[0]))
      else Err(AmbiguousColumn)
  }

  function AllColumns(bindings: seq<Binding>): seq<string> {
    if bindings == [] then [] else bindings[0].columns + AllColumns(bindings[1..])
  }

  predicate Named(d: Dialect, binding: Binding, qualifier: string) {
    binding.name.Some? && d.sameName(binding.name.value, qualifier)
  }

  function ColumnsOf(d: Dialect, bindings: seq<Binding>, qualifier: string): seq<string> {
    if bindings == [] then []
    else (if Named(d, bindings[0], qualifier) then bindings[0].columns else [])
         + ColumnsOf(d, bindings[1..], qualifier)
  }

  function ValuesOf(d: Dialect, bindings: seq<Binding>, qualifier: string, row: Row): Row
    decreases |bindings|
  {
    if bindings == [] || |row| < |bindings[0].columns| then []
    else
      var width := |bindings[0].columns|;
      (if Named(d, bindings[0], qualifier) then row[..width] else [])
      + ValuesOf(d, bindings[1..], qualifier, row[width..])
  }

  /** The label of an unaliased computed expression is not modelled; it is the empty string. */
  function Label(expr: Expr): string {
    if expr.Column? && expr.parts != [] then expr.parts[|expr.parts| - 1] else ""
  }

  function ItemColumns(d: Dialect, items: seq<SelectItem>, bindings: seq<Binding>): seq<string> {
    if items == [] then []
    else
      var head :=
        match items[0]
        case ItemExpr(expr, alias) => [if alias.Some? then alias.value else Label(expr)]
        case ItemWildcard(None, _) => AllColumns(bindings)
        case ItemWildcard(Some(qualifier), _) => ColumnsOf(d, bindings, qualifier)
        case OtherItem => [];
      head + ItemColumns(d, items[1..], bindings)
  }

  /** Whether an aggregate is called in the expression itself, not in a subquery of it. */
  predicate Aggregates(d: Dialect, expr: Expr)
    decreases expr, 1
  {
    match expr
    case Apply(op, operands) => (op.Call? && d.aggregate(op.head)) || AnyAggregates(d, operands)
    case InSubquery(needle, _, _) => Aggregates(d, needle)
    case _ => false
  }

  predicate AnyAggregates(d: Dialect, exprs: seq<Expr>)
    decreases exprs, 0
  {
    exprs != [] && (Aggregates(d, exprs[0]) || AnyAggregates(d, exprs[1..]))
  }

  predicate ItemsAggregate(d: Dialect, items: seq<SelectItem>) {
    items != [] && ((items[0].ItemExpr? && Aggregates(d, items[0].expr)) || ItemsAggregate(d, items[1..]))
  }

  function Pick<T>(items: seq<T>, indices: seq<nat>): seq<T> {
    if indices == [] then []
    else (if indices[0] < |items| then [items[indices[0]]] else []) + Pick(items, indices[1..])
  }

  /** Keeps the items whose conditions all hold; `conditions` has one line per item. */
  function KeepTrue<T>(d: Dialect, items: seq<T>, conditions: Matrix): seq<T> {
    if items == [] || conditions == [] then []
    else (if forall i :: 0 <= i < |conditions[0]| ==> Truthy(d, conditions[0][i]) then [items[0]] else [])
         + KeepTrue(d, items[1..], conditions[1..])
  }

  function Singletons(rows: seq<Row>): seq<seq<Row>> {
    seq(|rows|, i requires 0 <= i < |rows| => [rows[i]])
  }

  /** One stack per group, each evaluating in its own group. */
  function GroupStacks(bindings: seq<Binding>, groups: seq<seq<Row>>, outer: Stack): seq<Stack> {
    seq(|groups|, i requires 0 <= i < |groups| => [Frame(bindings, groups, i)] + outer)
  }

  /** One stack per row, each row alone in its frame. */
  function RowStacks(bindings: seq<Binding>, rows: seq<Row>, outer: Stack): seq<Stack> {
    seq(|rows|, i requires 0 <= i < |rows| => [Frame(bindings, [[rows[i]]], 0)] + outer)
  }

  function MemberStacks(stack: Stack): seq<Stack> {
    if stack == [] || stack[0].at >= |stack[0].groups| then []
    else RowStacks(stack[0].bindings, stack[0].groups[stack[0].at], stack[1..])
  }

  function PeerStacks(stack: Stack): seq<Stack> {
    if stack == [] then [] else GroupStacks(stack[0].bindings, stack[0].groups, stack[1..])
  }

  function Pairs(left: seq<Row>, right: seq<Row>): seq<Row> {
    seq(|left| * |right|, k requires 0 <= k < |left| * |right| =>
          assert k / |right| < |left|; left[k / |right|] + right[k % |right|])
  }

  function OrderStacks(produced: Produced): seq<Stack> {
    seq(|produced.relation.rows|, i requires 0 <= i < |produced.relation.rows| =>
          [Frame([Binding(None, produced.relation.columns)], [[produced.relation.rows[i]]], 0)]
          + (if i < |produced.stacks| then produced.stacks[i] else []))
  }

  function FindCte(env: Env, name: string): Option<Relation> {
    if env == [] then None
    else if SameIgnoringCase(env[|env| - 1].name, name) then Some(env[|env| - 1].relation)
    else FindCte(env[..|env| - 1], name)
  }

  function NamesOf(env: Env): (names: seq<string>)
    ensures |names| == |env|
  {
    seq(|env|, i requires 0 <= i < |env| => env[i].name)
  }

  // ----- Evaluation ------------------------------------------------------------------------------------

  function EvalQuery(w: World, query: Query, env: Env, outer: Stack): Outcome<Relation>
    decreases query, 2, 0
  {
    if query.extras != {} then
      Err(NotInTheModel)
    else
      var inner :- EvalCtes(w, query.recursive, query.ctes, env);
      var produced :- EvalBody(w, query.body, inner, outer);
      if query.orderBy == [] && query.limit == [] then
        Ok(produced.relation)
      else
        var keys :- EvalMatrix(w, query.orderBy, inner, OrderStacks(produced));
        var limits :- EvalExprs(w, query.limit, inner, outer);
        var rows := produced.relation.rows;
        Ok(Relation(produced.relation.columns,
                    Pick(rows, w.dialect.arrange(query.ordering, keys, limits, |rows|))))
  }

  function EvalCtes(w: World, recursive: bool, ctes: seq<Cte>, env: Env): Outcome<Env>
    decreases ctes, 0, 0
  {
    if ctes == [] then
      Ok(env)
    else
      var relation :- EvalCte(w, recursive, ctes[0], env);
      EvalCtes(w, recursive, ctes[1..], env + [CteBinding(ctes[0].name, relation)])
  }

  function EvalCte(w: World, recursive: bool, cte: Cte, env: Env): Outcome<Relation>
    decreases cte, 4, 0
  {
    if recursive then Unroll(w, cte.name, cte.query, env, w.dialect.rounds)
    else EvalQuery(w, cte.query, env, [])
  }

  function Unroll(w: World, name: string, query: Query, env: Env, rounds: nat): Outcome<Relation>
    decreases query, 3, rounds
  {
    if rounds == 0 then
      Ok(Relation([], []))
    else
      var previous :- Unroll(w, name, query, env, rounds - 1);
      EvalQuery(w, query, env + [CteBinding(name, previous)], [])
  }

  function EvalBody(w: World, body: SetExpr, env: Env, outer: Stack): Outcome<Produced>
    decreases body, 2, 0
  {
    match body
    case SelectBody(select) => EvalSelect(w, select, env, outer)
    case QueryBody(query) =>
      var relation :- EvalQuery(w, query, env, outer);
      Ok(Produced(relation, []))
    case SetOperation(operator, left, right) =>
      var l :- EvalBody(w, left, env, outer);
      var r :- EvalBody(w, right, env, outer);
      var relation :- w.dialect.combine(operator, l.relation, r.relation);
      Ok(Produced(relation, []))
    case ValuesBody(width, cells) =>
      var values :- EvalExprs(w, cells, env, outer);
      Ok(Produced(w.dialect.values(width, values), []))
    case OtherBody => Err(NotInTheModel)
  }

  /** FROM and WHERE, then the rest. */
  function EvalSelect(w: World, select: Select, env: Env, outer: Stack): Outcome<Produced>
    decreases select, 2, 0
  {
    if select.extras != {} then
      Err(NotInTheModel)
    else
      var source :- EvalFrom(w, select.from, env, outer);
      var conditions :- EvalMatrix(w, select.selection, env, RowStacks(source.bindings, source.rows, outer));
      EvalGroups(w, select, source.bindings, KeepTrue(w.dialect, source.rows, conditions), env, outer)
  }

  /** GROUP BY and HAVING: one stack per surviving group; then the projection. */
  function EvalGroups(w: World, select: Select, bindings: seq<Binding>, kept: seq<Row>, env: Env, outer: Stack)
    : Outcome<Produced>
    decreases select, 1, 1
  {
    var keys :- EvalMatrix(w, select.groupBy, env, RowStacks(bindings, kept, outer));
    var grouped := select.groupBy != [] || ItemsAggregate(w.dialect, select.projection)
                || AnyAggregates(w.dialect, select.having);
    var groups := if grouped then w.dialect.group(keys, kept) else Singletons(kept);
    var having :- EvalMatrix(w, select.having, env, GroupStacks(bindings, groups, outer));
    EvalProjection(w, select, bindings,
                   GroupStacks(bindings, KeepTrue(w.dialect, groups, having), outer), env)
  }

  function EvalProjection(w: World, select: Select, bindings: seq<Binding>, stacks: seq<Stack>, env: Env)
    : Outcome<Produced>
    decreases select, 1, 0
  {
    var rows :- EvalItemMatrix(w, select.projection, env, stacks);
    var columns := ItemColumns(w.dialect, select.projection, bindings);
    if select.distinct then
      var chosen := w.dialect.distinct(rows);
      Ok(Produced(Relation(columns, Pick(rows, chosen)), Pick(stacks, chosen)))
    else
      Ok(Produced(Relation(columns, rows), stacks))
  }

  function EvalItemMatrix(w: World, items: seq<SelectItem>, env: Env, stacks: seq<Stack>): Outcome<Matrix>
    decreases items, 1, |stacks|
  {
    if stacks == [] then
      Ok([])
    else
      var row :- EvalItems(w, items, env, stacks[0]);
      var rest :- EvalItemMatrix(w, items, env, stacks[1..]);
      Ok([row] + rest)
  }

  function EvalItems(w: World, items: seq<SelectItem>, env: Env, stack: Stack): Outcome<Row>
    decreases items, 0, 0
  {
    if items == [] then
      Ok([])
    else
      var head :- EvalItem(w, items[0], env, stack);
      var rest :- EvalItems(w, items[1..], env, stack);
      Ok(head + rest)
  }

  function EvalItem(w: World, item: SelectItem, env: Env, stack: Stack): Outcome<Row>
    decreases item, 2, 0
  {
    match item
    case ItemExpr(expr, _) =>
      var v :- EvalExpr(w, expr, env, stack);
      Ok([v])
    case ItemWildcard(qualifier, modified) =>
      if modified || stack == [] then Err(NotInTheModel)
      else if qualifier.None? then Ok(HeadRow(stack[0]))
      else Ok(ValuesOf(w.dialect, stack[0].bindings, qualifier.value, HeadRow(stack[0])))
    case OtherItem => Err(NotInTheModel)
  }

  /** Comma-separated tables are cross joined; an empty FROM is one row without columns. */
  function EvalFrom(w: World, from: seq<TableWithJoins>, env: Env, outer: Stack): Outcome<Source>
    decreases from, 0, 0
  {
    if from == [] then
      Ok(Source([], [[]]))
    else
      var first :- EvalTableWithJoins(w, from[0], env, outer);
      if |from| == 1 then
        Ok(first)
      else
        var rest :- EvalFrom(w, from[1..], env, outer);
        w.dialect.join(JoinShape(CrossJoin, false, [], false), first, rest, [])
  }

  function EvalTableWithJoins(w: World, table: TableWithJoins, env: Env, outer: Stack): Outcome<Source>
    decreases table, 2, 0
  {
    var source :- EvalFactor(w, table.relation, env, outer);
    EvalJoins(w, source, table.joins, env, outer)
  }

  function EvalJoins(w: World, left: Source, joins: seq<Join>, env: Env, outer: Stack): Outcome<Source>
    decreases joins, 0, 0
  {
    if joins == [] then
      Ok(left)
    else
      var right :- EvalFactor(w, joins[0].relation, env, outer);
      var stacks := RowStacks(left.bindings + right.bindings, Pairs(left.rows, right.rows), outer);
      var on :- EvalMatrix(w, joins[0].on, env, stacks);
      var shape := JoinShape(joins[0].kind, joins[0].on != [], joins[0].using, joins[0].natural);
      var joined :- w.dialect.join(shape, left, right, on);
      EvalJoins(w, joined, joins[1..], env, outer)
  }

  /** A stored table or, for an unqualified name a visible CTE has, that CTE. */
  function ReadTable(w: World, name: Walk.TableName, env: Env): Outcome<Relation> {
    if name.qualifier.None? && FindCte(env, name.leaf).Some? then
      Ok(FindCte(env, name.leaf).value)
    else
      var database := if name.qualifier.Some? then name.qualifier else w.current;
      if database.None? then Err(NoDatabaseSelected) else w.database(database.value, name.leaf)
  }

  function EvalFactor(w: World, factor: TableFactor, env: Env, outer: Stack): Outcome<Source>
    decreases factor, 2, 0
  {
    match factor
    case Table(name, alias, extras) =>
      if Walk.ReadObjectName(name).Err? then Err(BadName)
      else
        var tableName := Walk.ReadObjectName(name).value;
        var stored :- ReadTable(w, tableName, env);
        var relation := if extras == {} then stored else w.dialect.hinted(extras, stored);
        var bound := if alias.Some? then alias.value.name else tableName.leaf;
        Ok(Source([Binding(Some(bound), relation.columns)], relation.rows))
    case Derived(lateral, sampled, subquery, alias) =>
      if lateral || sampled then Err(NotInTheModel)
      else
        var relation :- EvalQuery(w, subquery, env, []);
        var bound := if alias.Some? then Some(alias.value.name) else None;
        Ok(Source([Binding(bound, relation.columns)], relation.rows))
    case NestedJoin(inner, _) => EvalTableWithJoins(w, inner, env, outer)
    case OtherFactor => Err(NotInTheModel)
  }

  function EvalMatrix(w: World, exprs: seq<Expr>, env: Env, stacks: seq<Stack>): (r: Outcome<Matrix>)
    ensures r.Ok? ==> |r.value| == |stacks|
    decreases exprs, 1, |stacks|
  {
    if stacks == [] then
      Ok([])
    else
      var row :- EvalExprs(w, exprs, env, stacks[0]);
      var rest :- EvalMatrix(w, exprs, env, stacks[1..]);
      Ok([row] + rest)
  }

  function EvalExprs(w: World, exprs: seq<Expr>, env: Env, stack: Stack): Outcome<seq<Value>>
    decreases exprs, 0, 0
  {
    if exprs == [] then
      Ok([])
    else
      var head :- EvalExpr(w, exprs[0], env, stack);
      var rest :- EvalExprs(w, exprs[1..], env, stack);
      Ok([head] + rest)
  }

  /** A call also sees its operands on every row of the current group and on every peer group. */
  function EvalExpr(w: World, expr: Expr, env: Env, stack: Stack): Outcome<Value>
    decreases expr, 2, 0
  {
    match expr
    case Column(parts) => Resolve(w.dialect, parts, stack)
    case Literal(value) => Ok(ScalarConstant(w.dialect, value))
    case Star(_) => Ok(Num(1))
    case Apply(op, operands) =>
      var here :- EvalExprs(w, operands, env, stack);
      if op.Call? then
        var members :- EvalMatrix(w, operands, env, MemberStacks(stack));
        var peers :- EvalMatrix(w, operands, env, PeerStacks(stack));
        Ok(w.dialect.call(op.head, here, members, peers))
      else
        Ok(ScalarValue(w.dialect, op, here))
    case InSubquery(needle, subquery, negated) =>
      var v :- EvalExpr(w, needle, env, stack);
      var relation :- EvalQuery(w, subquery, env, stack);
      Ok(Negate(negated, w.dialect.member(v, relation)))
    case Exists(subquery, negated) =>
      var relation :- EvalQuery(w, subquery, env, stack);
      Ok(Num(if (relation.rows != []) != negated then 1 else 0))
    case ScalarSubquery(subquery) =>
      var relation :- EvalQuery(w, subquery, env, stack);
      w.dialect.scalarOf(relation)
    case OtherExpr => Err(NotInTheModel)
  }
}

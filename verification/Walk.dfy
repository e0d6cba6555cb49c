/**
 The allowlist walk as a function of the tree, the visitor and the CTE names in scope.

 The walk is one traversal shared by three visitors: the collector lists reference sites, the
 wrapper replaces policy-bearing relations by guards, the verifier looks for policy-bearing
 relations that no recognised guard encloses. `Walker.dfy` holds the stateful form of the same walk.
 */
module Walk {
  import opened Common
  import opened SqlAst
  import opened Policies

  datatype TableName = TableName(qualifier: Option<string>, leaf: string)

  datatype RefPosition = Relation | WriteTarget | Named

  datatype TableRef = TableRef(name: TableName, alias: Option<string>, isCteReference: bool,
                               position: RefPosition)
  {
    function EffectiveName(): string {
      if alias.Some? then alias.value else name.leaf
    }
  }

  datatype Visitor = Collect | Wrap | Verify

  /** Who is asking, where they are, and the policies to ask. */
  datatype Context = Context(user: string, current: Option<string>, policies: PolicySet)

  /** The visited node, the relation sites in walk order, and whether one is unguarded. */
  datatype Out<+T> = Out(node: T, sites: seq<TableRef>, unguarded: bool) {
    function With<U>(other: U): Out<U> {
      Out(other, sites, unguarded)
    }
  }

  type Walked<+T> = Result<Out<T>, Refusal>

  /** Only the wrapper changes a node and only the verifier flags anything. */
  ghost predicate KeepsRole<T>(visitor: Visitor, node: T, walked: Walked<T>) {
    walked.Ok? ==>
      && (visitor != Wrap ==> walked.value.node == node)
      && (visitor != Verify ==> !walked.value.unguarded)
  }

  function ReadObjectName(name: ObjectName): Result<TableName, Refusal> {
    if exists i :: 0 <= i < |name| && name[i].Computed? then Err(UnsupportedShape)
    else if |name| == 1 then Ok(TableName(None, name[0].text))
    else if |name| == 2 then Ok(TableName(Some(name[0].text), name[1].text))
    else Err(UnsupportedShape)
  }

  function DecideName(cx: Context, name: TableName): Decision {
    Lookup(cx.policies, cx.user, name.qualifier, name.leaf, cx.current)
  }

  /** A CTE reference carries no policy of its own and a named table is not read. */
  function DecideSite(cx: Context, site: TableRef): Decision {
    if site.isCteReference || site.position == Named then Unrestricted else DecideName(cx, site.name)
  }

  predicate Shadowed(scope: seq<string>, name: TableName) {
    name.qualifier.None? && exists i :: 0 <= i < |scope| && SameIgnoringCase(scope[i], name.leaf)
  }

  predicate PlainAlias(alias: Option<Alias>) {
    alias.Some? ==> !alias.value.columns && !alias.value.at
  }

  // ----- Guards ------------------------------------------------------------------------------------

  /** A permitted value as the rewriter puts it into the tree. */
  function BuiltLiteral(value: PermittedValue): Scalar {
    match value
    case PermittedText(text) => Text(EscapeQuotes(text))
    case PermittedInteger(number) => Number(number)
  }

  /** The expression a parser makes of that literal once it has been rendered. */
  function ReadBack(literal: Scalar): Expr {
    match literal
    case Text(content) =>
      var read := ReadLiteral(true, RenderContent(content) + "'");
      Literal(Text(if read.Some? then read.value else content))
    case Number(amount) =>
      if amount < 0 then Apply(Unary("-"), [Literal(Number(-amount))]) else Literal(literal)
    case OtherScalar(_) => Literal(literal)
  }

  function PolicyPredicate(policy: Policy): Expr {
    Apply(InList(false), [Column([policy.column])]
                       + seq(|policy.permitted|, i requires 0 <= i < |policy.permitted| =>
                               ReadBack(BuiltLiteral(policy.permitted[i]))))
  }

  /** `SELECT * FROM <relation> WHERE <column> IN (<permitted values>)` and nothing else. */
  function GuardQuery(relation: TableFactor, policy: Policy): Query {
    Query({}, false, [],
          SelectBody(Select({}, false, [ItemWildcard(None, false)], [TableWithJoins(relation, [])],
                            [PolicyPredicate(policy)], [], [])),
          "", [], [])
  }

  /** The guard for a relation, with its literals as they are read once the guard is rendered. */
  function Guard(factor: TableFactor, site: TableRef, policy: Policy): TableFactor
    requires factor.Table?
  {
    Derived(false, false, GuardQuery(Table(factor.name, None, factor.extras), policy),
            Some(Alias(site.EffectiveName(), false, false)))
  }

  /** The verifier's recognition of a guard: exactly what the wrapper would build for its relation. */
  predicate IsGuard(query: Query, cx: Context) {
    && query.body.SelectBody?
    && var select := query.body.select;
    && |select.from| == 1 && select.from[0].joins == []
    && var relation := select.from[0].relation;
    && relation.Table? && relation.alias.None?
    && ReadObjectName(relation.name).Ok?
    && var decision := DecideName(cx, ReadObjectName(relation.name).value);
    && decision.Restricted?
    && query == GuardQuery(relation, decision.policy)
  }

  // ----- The walk ----------------------------------------------------------------------------------

  function Site(factor: TableFactor, name: TableName, shadowed: bool): TableRef
    requires factor.Table?
  {
    TableRef(name, if factor.alias.Some? then Some(factor.alias.value.name) else None, shadowed, Relation)
  }

  function VisitRelation(visitor: Visitor, cx: Context, factor: TableFactor, site: TableRef)
    : (r: Walked<TableFactor>)
    ensures KeepsRole(visitor, factor, r)
    requires factor.Table?
  {
    match visitor
    case Collect => Ok(Out(factor, [site], false))
    case Wrap =>
      (match DecideSite(cx, site)
       case Restricted(policy) => Ok(Out(Guard(factor, site, policy), [site], false))
       case Unrestricted => Ok(Out(factor, [site], false))
       case Unresolvable => Err(UnresolvableTableReference))
    case Verify => Ok(Out(factor, [site], !DecideSite(cx, site).Unrestricted?))
  }

  function CteNames(ctes: seq<Cte>): (names: seq<string>)
    ensures |names| == |ctes|
  {
    seq(|ctes|, i requires 0 <= i < |ctes| => ctes[i].name)
  }

  function WalkQuery(visitor: Visitor, cx: Context, query: Query, scope: seq<string>)
    : (r: Walked<Query>)
    ensures KeepsRole(visitor, query, r)
    decreases query, 1
  {
    if query.extras != {} then
      Err(UnsupportedShape)
    else
      var ctes :- WalkCtes(visitor, cx, query.recursive, query.ctes, scope);
      var inner := scope + CteNames(query.ctes);
      var body :- WalkSetExpr(visitor, cx, query.body, inner);
      var orderBy :- WalkExprs(visitor, cx, query.orderBy, inner);
      var limit :- WalkExprs(visitor, cx, query.limit, inner);
      Ok(Out(query.(ctes := ctes.node, body := body.node, orderBy := orderBy.node, limit := limit.node),
             ctes.sites + body.sites + orderBy.sites + limit.sites,
             ctes.unguarded || body.unguarded || orderBy.unguarded || limit.unguarded))
  }

  /** The scope a CTE's own body is walked in. */
  function BodyScope(recursive: bool, cte: Cte, scope: seq<string>): seq<string> {
    if recursive then scope + [cte.name] else scope
  }

  /** A recursive CTE sees its own name in its body; otherwise it sees only the CTEs before it. */
  function WalkCtes(visitor: Visitor, cx: Context, recursive: bool, ctes: seq<Cte>, scope: seq<string>)
    : (r: Walked<seq<Cte>>)
    ensures KeepsRole(visitor, ctes, r)
    ensures r.Ok? ==> |r.value.node| == |ctes| && CteNames(r.value.node) == CteNames(ctes)
    decreases ctes, 0
  {
    if ctes == [] then
      Ok(Out([], [], false))
    else if ctes[0].extras != {} then
      Err(UnsupportedShape)
    else
      var named := scope + [ctes[0].name];
      var query :- WalkQuery(visitor, cx, ctes[0].query, BodyScope(recursive, ctes[0], scope));
      var rest :- WalkCtes(visitor, cx, recursive, ctes[1..], named);
      var nodes := [ctes[0].(query := query.node)] + rest.node;
      assert CteNames(nodes) == CteNames(ctes) by {
        forall i | 0 <= i < |ctes|
          ensures nodes[i].name == ctes[i].name
        {
          if i > 0 {
            assert CteNames(rest.node)[i - 1] == CteNames(ctes[1..])[i - 1];
          }
        }
      }
      assert [ctes[0]] + ctes[1..] == ctes;
      Ok(Out(nodes, query.sites + rest.sites, query.unguarded || rest.unguarded))
  }

  function WalkSetExpr(visitor: Visitor, cx: Context, body: SetExpr, scope: seq<string>)
    : (r: Walked<SetExpr>)
    ensures KeepsRole(visitor, body, r)
    decreases body, 1
  {
    match body
    case SelectBody(select) =>
      var walked :- WalkSelect(visitor, cx, select, scope);
      Ok(walked.With(SelectBody(walked.node)))
    case QueryBody(query) =>
      var walked :- WalkQuery(visitor, cx, query, scope);
      Ok(walked.With(QueryBody(walked.node)))
    case SetOperation(operator, left, right) =>
      var l :- WalkSetExpr(visitor, cx, left, scope);
      var r :- WalkSetExpr(visitor, cx, right, scope);
      Ok(Out(SetOperation(operator, l.node, r.node), l.sites + r.sites, l.unguarded || r.unguarded))
    case ValuesBody(width, cells) =>
      var walked :- WalkExprs(visitor, cx, cells, scope);
      Ok(walked.With(ValuesBody(width, walked.node)))
    case OtherBody => Err(UnsupportedShape)
  }

  function WalkSelect(visitor: Visitor, cx: Context, select: Select, scope: seq<string>)
    : (r: Walked<Select>)
    ensures KeepsRole(visitor, select, r)
    decreases select, 1
  {
    if select.extras != {} then
      Err(UnsupportedShape)
    else
      var projection :- WalkItems(visitor, cx, select.projection, scope);
      var from :- WalkFrom(visitor, cx, select.from, scope);
      var selection :- WalkExprs(visitor, cx, select.selection, scope);
      var groupBy :- WalkExprs(visitor, cx, select.groupBy, scope);
      var having :- WalkExprs(visitor, cx, select.having, scope);
      Ok(Out(select.(projection := projection.node, from := from.node, selection := selection.node,
                     groupBy := groupBy.node, having := having.node),
             projection.sites + from.sites + selection.sites + groupBy.sites + having.sites,
             projection.unguarded || from.unguarded || selection.unguarded || groupBy.unguarded
             || having.unguarded))
  }

  function WalkItems(visitor: Visitor, cx: Context, items: seq<SelectItem>, scope: seq<string>)
    : (r: Walked<seq<SelectItem>>)
    ensures KeepsRole(visitor, items, r)
    ensures r.Ok? ==> |r.value.node| == |items|
    decreases items, 0
  {
    if items == [] then
      Ok(Out([], [], false))
    else
      var item :- WalkItem(visitor, cx, items[0], scope);
      var rest :- WalkItems(visitor, cx, items[1..], scope);
      assert [items[0]] + items[1..] == items;
      Ok(Out([item.node] + rest.node, item.sites + rest.sites, item.unguarded || rest.unguarded))
  }

  function WalkItem(visitor: Visitor, cx: Context, item: SelectItem, scope: seq<string>)
    : (r: Walked<SelectItem>)
    ensures KeepsRole(visitor, item, r)
    decreases item, 1
  {
    match item
    case ItemExpr(expr, alias) =>
      var walked :- WalkExpr(visitor, cx, expr, scope);
      Ok(walked.With(ItemExpr(walked.node, alias)))
    case ItemWildcard(_, modified) =>
      if modified then Err(UnsupportedShape) else Ok(Out(item, [], false))
    case OtherItem => Err(UnsupportedShape)
  }

  function WalkFrom(visitor: Visitor, cx: Context, from: seq<TableWithJoins>, scope: seq<string>)
    : (r: Walked<seq<TableWithJoins>>)
    ensures KeepsRole(visitor, from, r)
    ensures r.Ok? ==> |r.value.node| == |from|
    decreases from, 0
  {
    if from == [] then
      Ok(Out([], [], false))
    else
      var table :- WalkTableWithJoins(visitor, cx, from[0], scope);
      var rest :- WalkFrom(visitor, cx, from[1..], scope);
      assert [from[0]] + from[1..] == from;
      Ok(Out([table.node] + rest.node, table.sites + rest.sites, table.unguarded || rest.unguarded))
  }

  function WalkTableWithJoins(visitor: Visitor, cx: Context, table: TableWithJoins, scope: seq<string>)
    : (r: Walked<TableWithJoins>)
    ensures KeepsRole(visitor, table, r)
    decreases table, 1
  {
    var relation :- WalkFactor(visitor, cx, table.relation, scope);
    var joins :- WalkJoins(visitor, cx, table.joins, scope);
    Ok(Out(TableWithJoins(relation.node, joins.node), relation.sites + joins.sites,
           relation.unguarded || joins.unguarded))
  }

  function WalkJoins(visitor: Visitor, cx: Context, joins: seq<Join>, scope: seq<string>)
    : (r: Walked<seq<Join>>)
    ensures KeepsRole(visitor, joins, r)
    ensures r.Ok? ==> |r.value.node| == |joins|
    decreases joins, 0
  {
    if joins == [] then
      Ok(Out([], [], false))
    else
      var join :- WalkJoin(visitor, cx, joins[0], scope);
      var rest :- WalkJoins(visitor, cx, joins[1..], scope);
      assert [joins[0]] + joins[1..] == joins;
      Ok(Out([join.node] + rest.node, join.sites + rest.sites, join.unguarded || rest.unguarded))
  }

  function WalkJoin(visitor: Visitor, cx: Context, join: Join, scope: seq<string>)
    : (r: Walked<Join>)
    ensures KeepsRole(visitor, join, r)
    decreases join, 1
  {
    var relation :- WalkFactor(visitor, cx, join.relation, scope);
    if join.global || join.kind == OtherJoin then
      Err(UnsupportedShape)
    else
      var on :- WalkExprs(visitor, cx, join.on, scope);
      Ok(Out(join.(relation := relation.node, on := on.node), relation.sites + on.sites,
             relation.unguarded || on.unguarded))
  }

  function WalkFactor(visitor: Visitor, cx: Context, factor: TableFactor, scope: seq<string>)
    : (r: Walked<TableFactor>)
    ensures KeepsRole(visitor, factor, r)
    decreases factor, 1
  {
    match factor
    case Table(name, alias, extras) =>
      if extras != {} || !PlainAlias(alias) then
        Err(UnsupportedShape)
      else
        var tableName :- ReadObjectName(name);
        VisitRelation(visitor, cx, factor, Site(factor, tableName, Shadowed(scope, tableName)))
    case Derived(lateral, sampled, subquery, alias) =>
      if lateral || sampled || !PlainAlias(alias) then
        Err(UnsupportedShape)
      else if visitor == Verify && IsGuard(subquery, cx) then
        Ok(Out(factor, [], false))
      else
        var walked :- WalkQuery(visitor, cx, subquery, scope);
        Ok(walked.With(Derived(lateral, sampled, walked.node, alias)))
    case NestedJoin(inner, alias) =>
      if alias.Some? then
        Err(UnsupportedShape)
      else
        var walked :- WalkTableWithJoins(visitor, cx, inner, scope);
        Ok(walked.With(NestedJoin(walked.node, alias)))
    case OtherFactor => Err(UnsupportedShape)
  }

  function WalkExprs(visitor: Visitor, cx: Context, exprs: seq<Expr>, scope: seq<string>)
    : (r: Walked<seq<Expr>>)
    ensures KeepsRole(visitor, exprs, r)
    ensures r.Ok? ==> |r.value.node| == |exprs|
    decreases exprs, 0
  {
    if exprs == [] then
      Ok(Out([], [], false))
    else
      var head :- WalkExpr(visitor, cx, exprs[0], scope);
      var rest :- WalkExprs(visitor, cx, exprs[1..], scope);
      assert [exprs[0]] + exprs[1..] == exprs;
      Ok(Out([head.node] + rest.node, head.sites + rest.sites, head.unguarded || rest.unguarded))
  }

  predicate AllowedOperator(op: Operator) {
    match op
    case Like(_, any) => !any
    case ILike(_, any) => !any
    case Call(head) => head.extras == {}
    case _ => true
  }

  function WalkExpr(visitor: Visitor, cx: Context, expr: Expr, scope: seq<string>)
    : (r: Walked<Expr>)
    ensures KeepsRole(visitor, expr, r)
    decreases expr, 1
  {
    match expr
    case Column(_) => Ok(Out(expr, [], false))
    case Literal(_) => Ok(Out(expr, [], false))
    case Star(_) => Ok(Out(expr, [], false))
    case Apply(op, operands) =>
      if !AllowedOperator(op) then
        Err(UnsupportedShape)
      else
        var walked :- WalkExprs(visitor, cx, operands, scope);
        Ok(walked.With(Apply(op, walked.node)))
    case InSubquery(needle, subquery, negated) =>
      var head :- WalkExpr(visitor, cx, needle, scope);
      var walked :- WalkQuery(visitor, cx, subquery, scope);
      Ok(Out(InSubquery(head.node, walked.node, negated), head.sites + walked.sites,
             head.unguarded || walked.unguarded))
    case Exists(subquery, negated) =>
      var walked :- WalkQuery(visitor, cx, subquery, scope);
      Ok(walked.With(Exists(walked.node, negated)))
    case ScalarSubquery(subquery) =>
      var walked :- WalkQuery(visitor, cx, subquery, scope);
      Ok(walked.With(ScalarSubquery(walked.node)))
    case OtherExpr => Err(UnsupportedShape)
  }
}

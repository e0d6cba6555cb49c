/**
 What wrapping does to any accepted tree: it succeeds exactly when no site is unresolvable, is shown
 exactly the sites the collector lists, changes nothing when no site is restricted, and its output
 passes the allowlist again with every policy-bearing relation inside a recognised guard.
 */
module WrapProofs {
  import opened Common
  import opened SqlAst
  import opened Policies
  import opened Walk
  import opened WalkMeaning

  predicate Resolvable(cx: Context, sites: seq<TableRef>) {
    forall site :: site in sites ==> !DecideSite(cx, site).Unresolvable?
  }

  predicate AllUnrestricted(cx: Context, sites: seq<TableRef>) {
    forall site :: site in sites ==> DecideSite(cx, site).Unrestricted?
  }

  /** How a wrapping walk relates to the collecting walk of the same node. */
  ghost predicate Follows<T(!new)>(cx: Context, node: T, collected: Walked<T>, wrapped: Walked<T>) {
    && (wrapped.Ok? <==> collected.Ok? && Resolvable(cx, collected.value.sites))
    && (wrapped.Ok? ==> wrapped.value.sites == collected.value.sites)
    && (wrapped.Ok? && AllUnrestricted(cx, collected.value.sites) ==> wrapped.value.node == node)
  }

  /** The re-walk of a wrapped node finds nothing unguarded and the allowlist accepts it. */
  predicate Passes<T>(verified: Walked<T>, collected: Walked<T>) {
    Clean(verified) && collected.Ok?
  }

  lemma {:induction false} LiteralsWalk(visitor: Visitor, cx: Context, values: seq<PermittedValue>, literals: seq<Expr>,
                                        scope: seq<string>)
    requires |literals| == |values|
    requires forall i :: 0 <= i < |literals| ==> literals[i] == ReadBack(BuiltLiteral(values[i]))
    ensures WalkExprs(visitor, cx, literals, scope) == Ok(Out(literals, [], false))
  {
    if literals != [] {
      LiteralsWalk(visitor, cx, values[1..], literals[1..], scope);
      LiteralWalks(visitor, cx, values[0], scope);
      assert [literals[0]] + literals[1..] == literals;
      var none: seq<TableRef> := [];
      assert none + none == none;
    }
  }

  lemma {:induction false} LiteralWalks(visitor: Visitor, cx: Context, value: PermittedValue, scope: seq<string>)
    ensures var literal := ReadBack(BuiltLiteral(value));
            WalkExpr(visitor, cx, literal, scope) == Ok(Out(literal, [], false))
  {
    if value.PermittedInteger? && value.number < 0 {
      var minus := [Literal(Number(-value.number))];
      assert minus[1..] == [];
      var none: seq<TableRef> := [];
      assert [minus[0]] + [] == minus && none + none == none;
      assert WalkExprs(visitor, cx, minus[1..], scope) == Ok(Out([], [], false));
      assert WalkExprs(visitor, cx, minus, scope) == Ok(Out(minus, [], false));
    }
  }

  /** The allowlist accepts a guard around a relation it accepts. */
  lemma {:induction false} GuardIsAllowed(cx: Context, relation: TableFactor, policy: Policy, scope: seq<string>)
    requires relation.Table? && WalkFactor(Collect, cx, relation, scope).Ok?
    ensures WalkQuery(Collect, cx, GuardQuery(relation, policy), scope).Ok?
  {
    var guard := GuardQuery(relation, policy);
    var inner := scope + CteNames(guard.ctes);
    assert inner == scope;
    var select := guard.body.select;
    var operands := PolicyPredicate(policy).operands;
    LiteralsWalk(Collect, cx, policy.permitted, operands[1..], scope);
    assert WalkExprs(Collect, cx, operands, scope).Ok?;
    assert WalkExpr(Collect, cx, select.selection[0], scope).Ok?;
    assert select.selection[1..] == [] && select.projection[1..] == [] && select.from[1..] == [];
    assert WalkExprs(Collect, cx, select.selection, scope).Ok?;
    assert WalkItems(Collect, cx, select.projection, scope).Ok?;
    assert WalkTableWithJoins(Collect, cx, select.from[0], scope).Ok?;
    assert WalkFrom(Collect, cx, select.from, scope).Ok?;
    assert WalkSelect(Collect, cx, select, scope).Ok?;
  }

  lemma {:induction false} WrapRelation(cx: Context, factor: TableFactor, scope: seq<string>)
    requires factor.Table?
    ensures Follows(cx, factor, WalkFactor(Collect, cx, factor, scope), WalkFactor(Wrap, cx, factor, scope))
    ensures var wrapped := WalkFactor(Wrap, cx, factor, scope);
            wrapped.Ok? ==> Passes(WalkFactor(Verify, cx, wrapped.value.node, scope),
                                   WalkFactor(Collect, cx, wrapped.value.node, scope))
  {
    if WalkFactor(Wrap, cx, factor, scope).Ok? {
      var name := ReadObjectName(factor.name).value;
      var site := Site(factor, name, Shadowed(scope, name));
      if DecideSite(cx, site).Restricted? {
        var policy := DecideSite(cx, site).policy;
        var inner := Table(factor.name, None, {});
        assert Guard(factor, site, policy).subquery == GuardQuery(inner, policy);
        assert IsGuard(GuardQuery(inner, policy), cx);
        GuardIsAllowed(cx, inner, policy, scope);
      }
    }
  }

  // ----- The induction over the tree -----------------------------------------------------------------

  lemma {:induction false} WrapQuery(cx: Context, query: Query, scope: seq<string>)
    ensures Follows(cx, query, WalkQuery(Collect, cx, query, scope), WalkQuery(Wrap, cx, query, scope))
    ensures var wrapped := WalkQuery(Wrap, cx, query, scope);
            wrapped.Ok? ==> Passes(WalkQuery(Verify, cx, wrapped.value.node, scope),
                                   WalkQuery(Collect, cx, wrapped.value.node, scope))
    decreases query, 1
  {
    var inner := scope + CteNames(query.ctes);
    WrapCtes(cx, query.recursive, query.ctes, scope);
    WrapSetExpr(cx, query.body, inner);
    WrapExprs(cx, query.orderBy, inner);
    WrapExprs(cx, query.limit, inner);
  }

  lemma {:induction false} WrapCtes(cx: Context, recursive: bool, ctes: seq<Cte>, scope: seq<string>)
    ensures Follows(cx, ctes, WalkCtes(Collect, cx, recursive, ctes, scope),
                    WalkCtes(Wrap, cx, recursive, ctes, scope))
    ensures var wrapped := WalkCtes(Wrap, cx, recursive, ctes, scope);
            wrapped.Ok? ==> Passes(WalkCtes(Verify, cx, recursive, wrapped.value.node, scope),
                                   WalkCtes(Collect, cx, recursive, wrapped.value.node, scope))
    decreases ctes, 0
  {
    if ctes != [] {
      var named := scope + [ctes[0].name];
      WrapQuery(cx, ctes[0].query, BodyScope(recursive, ctes[0], scope));
      WrapCtes(cx, recursive, ctes[1..], named);
      var wrapped := WalkCtes(Wrap, cx, recursive, ctes, scope);
      if wrapped.Ok? {
        assert wrapped.value.node[1..] == WalkCtes(Wrap, cx, recursive, ctes[1..], named).value.node;
        assert [ctes[0]] + ctes[1..] == ctes;
      }
    }
  }

  lemma {:induction false} WrapSetExpr(cx: Context, body: SetExpr, scope: seq<string>)
    ensures Follows(cx, body, WalkSetExpr(Collect, cx, body, scope), WalkSetExpr(Wrap, cx, body, scope))
    ensures var wrapped := WalkSetExpr(Wrap, cx, body, scope);
            wrapped.Ok? ==> Passes(WalkSetExpr(Verify, cx, wrapped.value.node, scope),
                                   WalkSetExpr(Collect, cx, wrapped.value.node, scope))
    decreases body, 1
  {
    match body
    case SelectBody(select) => WrapSelect(cx, select, scope);
    case QueryBody(query) => WrapQuery(cx, query, scope);
    case SetOperation(_, left, right) =>
      WrapSetExpr(cx, left, scope);
      WrapSetExpr(cx, right, scope);
    case ValuesBody(_, cells) => WrapExprs(cx, cells, scope);
    case OtherBody =>
  }

  lemma {:induction false} WrapSelect(cx: Context, select: Select, scope: seq<string>)
    ensures Follows(cx, select, WalkSelect(Collect, cx, select, scope), WalkSelect(Wrap, cx, select, scope))
    ensures var wrapped := WalkSelect(Wrap, cx, select, scope);
            wrapped.Ok? ==> Passes(WalkSelect(Verify, cx, wrapped.value.node, scope),
                                   WalkSelect(Collect, cx, wrapped.value.node, scope))
    decreases select, 1
  {
    WrapItems(cx, select.projection, scope);
    WrapFrom(cx, select.from, scope);
    WrapExprs(cx, select.selection, scope);
    WrapExprs(cx, select.groupBy, scope);
    WrapExprs(cx, select.having, scope);
  }

  lemma {:induction false} WrapItems(cx: Context, items: seq<SelectItem>, scope: seq<string>)
    ensures Follows(cx, items, WalkItems(Collect, cx, items, scope), WalkItems(Wrap, cx, items, scope))
    ensures var wrapped := WalkItems(Wrap, cx, items, scope);
            wrapped.Ok? ==> Passes(WalkItems(Verify, cx, wrapped.value.node, scope),
                                   WalkItems(Collect, cx, wrapped.value.node, scope))
    decreases items, 0
  {
    if items != [] {
      WrapItem(cx, items[0], scope);
      WrapItems(cx, items[1..], scope);
      var wrapped := WalkItems(Wrap, cx, items, scope);
      if wrapped.Ok? {
        assert wrapped.value.node[1..] == WalkItems(Wrap, cx, items[1..], scope).value.node;
        assert [items[0]] + items[1..] == items;
      }
    }
  }

  lemma {:induction false} WrapItem(cx: Context, item: SelectItem, scope: seq<string>)
    ensures Follows(cx, item, WalkItem(Collect, cx, item, scope), WalkItem(Wrap, cx, item, scope))
    ensures var wrapped := WalkItem(Wrap, cx, item, scope);
            wrapped.Ok? ==> Passes(WalkItem(Verify, cx, wrapped.value.node, scope),
                                   WalkItem(Collect, cx, wrapped.value.node, scope))
    decreases item, 1
  {
    if item.ItemExpr? {
      WrapExpr(cx, item.expr, scope);
    }
  }

  lemma {:induction false} WrapFrom(cx: Context, from: seq<TableWithJoins>, scope: seq<string>)
    ensures Follows(cx, from, WalkFrom(Collect, cx, from, scope), WalkFrom(Wrap, cx, from, scope))
    ensures var wrapped := WalkFrom(Wrap, cx, from, scope);
            wrapped.Ok? ==> Passes(WalkFrom(Verify, cx, wrapped.value.node, scope),
                                   WalkFrom(Collect, cx, wrapped.value.node, scope))
    decreases from, 0
  {
    if from != [] {
      WrapTable(cx, from[0], scope);
      WrapFrom(cx, from[1..], scope);
      var wrapped := WalkFrom(Wrap, cx, from, scope);
      if wrapped.Ok? {
        assert wrapped.value.node[1..] == WalkFrom(Wrap, cx, from[1..], scope).value.node;
        assert [from[0]] + from[1..] == from;
      }
    }
  }

  lemma {:induction false} WrapTable(cx: Context, table: TableWithJoins, scope: seq<string>)
    ensures Follows(cx, table, WalkTableWithJoins(Collect, cx, table, scope),
                    WalkTableWithJoins(Wrap, cx, table, scope))
    ensures var wrapped := WalkTableWithJoins(Wrap, cx, table, scope);
            wrapped.Ok? ==> Passes(WalkTableWithJoins(Verify, cx, wrapped.value.node, scope),
                                   WalkTableWithJoins(Collect, cx, wrapped.value.node, scope))
    decreases table, 1
  {
    WrapFactor(cx, table.relation, scope);
    WrapJoins(cx, table.joins, scope);
  }

  lemma {:induction false} WrapJoins(cx: Context, joins: seq<Join>, scope: seq<string>)
    ensures Follows(cx, joins, WalkJoins(Collect, cx, joins, scope), WalkJoins(Wrap, cx, joins, scope))
    ensures var wrapped := WalkJoins(Wrap, cx, joins, scope);
            wrapped.Ok? ==> Passes(WalkJoins(Verify, cx, wrapped.value.node, scope),
                                   WalkJoins(Collect, cx, wrapped.value.node, scope))
    decreases joins, 0
  {
    if joins != [] {
      WrapJoin(cx, joins[0], scope);
      WrapJoins(cx, joins[1..], scope);
      var wrapped := WalkJoins(Wrap, cx, joins, scope);
      if wrapped.Ok? {
        assert wrapped.value.node[1..] == WalkJoins(Wrap, cx, joins[1..], scope).value.node;
        assert [joins[0]] + joins[1..] == joins;
      }
    }
  }

  lemma {:induction false} WrapJoin(cx: Context, join: Join, scope: seq<string>)
    ensures Follows(cx, join, WalkJoin(Collect, cx, join, scope), WalkJoin(Wrap, cx, join, scope))
    ensures var wrapped := WalkJoin(Wrap, cx, join, scope);
            wrapped.Ok? ==> Passes(WalkJoin(Verify, cx, wrapped.value.node, scope),
                                   WalkJoin(Collect, cx, wrapped.value.node, scope))
    decreases join, 1
  {
    WrapFactor(cx, join.relation, scope);
    WrapExprs(cx, join.on, scope);
  }

  lemma {:induction false} WrapFactor(cx: Context, factor: TableFactor, scope: seq<string>)
    ensures Follows(cx, factor, WalkFactor(Collect, cx, factor, scope), WalkFactor(Wrap, cx, factor, scope))
    ensures var wrapped := WalkFactor(Wrap, cx, factor, scope);
            wrapped.Ok? ==> Passes(WalkFactor(Verify, cx, wrapped.value.node, scope),
                                   WalkFactor(Collect, cx, wrapped.value.node, scope))
    decreases factor, 1
  {
    match factor
    case Table(_, _, _) => WrapRelation(cx, factor, scope);
    case Derived(_, _, subquery, _) => WrapQuery(cx, subquery, scope);
    case NestedJoin(inner, _) => WrapTable(cx, inner, scope);
    case OtherFactor =>
  }

  lemma {:induction false} WrapExprs(cx: Context, exprs: seq<Expr>, scope: seq<string>)
    ensures Follows(cx, exprs, WalkExprs(Collect, cx, exprs, scope), WalkExprs(Wrap, cx, exprs, scope))
    ensures var wrapped := WalkExprs(Wrap, cx, exprs, scope);
            wrapped.Ok? ==> Passes(WalkExprs(Verify, cx, wrapped.value.node, scope),
                                   WalkExprs(Collect, cx, wrapped.value.node, scope))
    decreases exprs, 0
  {
    if exprs != [] {
      WrapExpr(cx, exprs[0], scope);
      WrapExprs(cx, exprs[1..], scope);
      var wrapped := WalkExprs(Wrap, cx, exprs, scope);
      if wrapped.Ok? {
        assert wrapped.value.node[1..] == WalkExprs(Wrap, cx, exprs[1..], scope).value.node;
        assert [exprs[0]] + exprs[1..] == exprs;
      }
    }
  }

  lemma {:induction false} WrapExpr(cx: Context, expr: Expr, scope: seq<string>)
    ensures Follows(cx, expr, WalkExpr(Collect, cx, expr, scope), WalkExpr(Wrap, cx, expr, scope))
    ensures var wrapped := WalkExpr(Wrap, cx, expr, scope);
            wrapped.Ok? ==> Passes(WalkExpr(Verify, cx, wrapped.value.node, scope),
                                   WalkExpr(Collect, cx, wrapped.value.node, scope))
    decreases expr, 1
  {
    match expr
    case Apply(_, operands) => WrapExprs(cx, operands, scope);
    case InSubquery(needle, subquery, _) =>
      WrapExpr(cx, needle, scope);
      WrapQuery(cx, subquery, scope);
    case Exists(subquery, _) => WrapQuery(cx, subquery, scope);
    case ScalarSubquery(subquery) => WrapQuery(cx, subquery, scope);
    case _ =>
  }
}

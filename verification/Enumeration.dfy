/**
 The enumeration is complete: what a statement contains, stated without a walk, a visitor or a refusal, and
 compared with what the walk collects.
 */
module Enumeration {
  import opened Common
  import opened SqlAst
  import opened Policies
  import opened Walk
  import opened Rewrite
  import opened WrapProofs

  // ----- What the allowlist allows -----------------------------------------------------------------------------

  predicate AllowedName(name: ObjectName) {
    (|name| == 1 || |name| == 2) && forall i :: 0 <= i < |name| ==> name[i].Ident?
  }

  predicate AllowedQuery(query: Query)
    decreases query, 1
  {
    && query.extras == {}
    && (forall i :: 0 <= i < |query.ctes| ==> query.ctes[i].extras == {} && AllowedQuery(query.ctes[i].query))
    && AllowedBody(query.body) && AllowedExprs(query.orderBy) && AllowedExprs(query.limit)
  }

  predicate AllowedBody(body: SetExpr)
    decreases body, 1
  {
    match body
    case SelectBody(select) => AllowedSelect(select)
    case QueryBody(query) => AllowedQuery(query)
    case SetOperation(_, left, right) => AllowedBody(left) && AllowedBody(right)
    case ValuesBody(_, cells) => AllowedExprs(cells)
    case OtherBody => false
  }

  predicate AllowedSelect(select: Select)
    decreases select, 1
  {
    && select.extras == {}
    && (forall i :: 0 <= i < |select.projection| ==> AllowedItem(select.projection[i]))
    && (forall i :: 0 <= i < |select.from| ==> AllowedTable(select.from[i]))
    && AllowedExprs(select.selection) && AllowedExprs(select.groupBy) && AllowedExprs(select.having)
  }

  predicate AllowedItem(item: SelectItem)
    decreases item, 1
  {
    match item
    case ItemExpr(expr, _) => AllowedExpr(expr)
    case ItemWildcard(_, modified) => !modified
    case OtherItem => false
  }

  predicate AllowedTable(table: TableWithJoins)
    decreases table, 1
  {
    && AllowedFactor(table.relation)
    && forall i :: 0 <= i < |table.joins| ==> AllowedJoin(table.joins[i])
  }

  predicate AllowedJoin(join: Join)
    decreases join, 1
  {
    !join.global && join.kind != OtherJoin && AllowedFactor(join.relation) && AllowedExprs(join.on)
  }

  predicate AllowedFactor(factor: TableFactor)
    decreases factor, 1
  {
    match factor
    case Table(name, alias, extras) => extras == {} && PlainAlias(alias) && AllowedName(name)
    case Derived(lateral, sampled, subquery, alias) =>
      !lateral && !sampled && PlainAlias(alias) && AllowedQuery(subquery)
    case NestedJoin(inner, alias) => alias.None? && AllowedTable(inner)
    case OtherFactor => false
  }

  predicate AllowedExprs(exprs: seq<Expr>)
    decreases exprs, 0
  {
    forall i :: 0 <= i < |exprs| ==> AllowedExpr(exprs[i])
  }

  predicate AllowedExpr(expr: Expr)
    decreases expr, 1
  {
    match expr
    case Apply(op, operands) => AllowedOperator(op) && AllowedExprs(operands)
    case InSubquery(needle, subquery, _) => AllowedExpr(needle) && AllowedQuery(subquery)
    case Exists(subquery, _) => AllowedQuery(subquery)
    case ScalarSubquery(subquery) => AllowedQuery(subquery)
    case OtherExpr => false
    case _ => true
  }

  // ----- The table occurrences, in reading order -------------------------------------------------------------------

  function NameOf(name: ObjectName): TableName {
    if |name| == 2 && name[0].Ident? && name[1].Ident? then TableName(Some(name[0].text), name[1].text)
    else if |name| == 1 && name[0].Ident? then TableName(None, name[0].text)
    else TableName(None, "")
  }

  /** An occurrence refers to a CTE exactly when it is unqualified and a visible CTE has its name, in any case. */
  predicate RefersToCte(visible: seq<string>, name: TableName) {
    name.qualifier.None? && exists cte :: cte in visible && SameIgnoringCase(cte, name.leaf)
  }

  function InQuery(query: Query, visible: seq<string>): seq<TableRef>
    decreases query, 1
  {
    var inner := visible + CteNames(query.ctes);
    InCtes(query.ctes, query.recursive, visible) + InBody(query.body, inner) + InExprs(query.orderBy, inner)
    + InExprs(query.limit, inner)
  }

  /** A CTE's body sees the CTEs before it, and itself when the list is recursive. */
  function InCtes(ctes: seq<Cte>, recursive: bool, visible: seq<string>): seq<TableRef>
    decreases ctes, 0
  {
    if ctes == [] then []
    else
      var named := visible + [ctes[0].name];
      InQuery(ctes[0].query, if recursive then named else visible) + InCtes(ctes[1..], recursive, named)
  }

  function InBody(body: SetExpr, visible: seq<string>): seq<TableRef>
    decreases body, 1
  {
    match body
    case SelectBody(select) => InSelect(select, visible)
    case QueryBody(query) => InQuery(query, visible)
    case SetOperation(_, left, right) => InBody(left, visible) + InBody(right, visible)
    case ValuesBody(_, cells) => InExprs(cells, visible)
    case OtherBody => []
  }

  function InSelect(select: Select, visible: seq<string>): seq<TableRef>
    decreases select, 1
  {
    InItems(select.projection, visible) + InFrom(select.from, visible) + InExprs(select.selection, visible)
    + InExprs(select.groupBy, visible) + InExprs(select.having, visible)
  }

  function InItems(items: seq<SelectItem>, visible: seq<string>): seq<TableRef>
    decreases items, 0
  {
    if items == [] then []
    else InItem(items[0], visible) + InItems(items[1..], visible)
  }

  function InItem(item: SelectItem, visible: seq<string>): seq<TableRef>
    decreases item, 1
  {
    if item.ItemExpr? then InExpr(item.expr, visible) else []
  }

  function InFrom(from: seq<TableWithJoins>, visible: seq<string>): seq<TableRef>
    decreases from, 0
  {
    if from == [] then [] else InTable(from[0], visible) + InFrom(from[1..], visible)
  }

  function InTable(table: TableWithJoins, visible: seq<string>): seq<TableRef>
    decreases table, 1
  {
    InFactor(table.relation, visible) + InJoins(table.joins, visible)
  }

  function InJoins(joins: seq<Join>, visible: seq<string>): seq<TableRef>
    decreases joins, 0
  {
    if joins == [] then []
    else InFactor(joins[0].relation, visible) + InExprs(joins[0].on, visible) + InJoins(joins[1..], visible)
  }

  function InFactor(factor: TableFactor, visible: seq<string>): seq<TableRef>
    decreases factor, 1
  {
    match factor
    case Table(name, alias, _) =>
      [TableRef(NameOf(name), if alias.Some? then Some(alias.value.name) else None,
                RefersToCte(visible, NameOf(name)), Relation)]
    case Derived(_, _, subquery, _) => InQuery(subquery, visible)
    case NestedJoin(inner, _) => InTable(inner, visible)
    case OtherFactor => []
  }

  function InExprs(exprs: seq<Expr>, visible: seq<string>): seq<TableRef>
    decreases exprs, 0
  {
    if exprs == [] then [] else InExpr(exprs[0], visible) + InExprs(exprs[1..], visible)
  }

  function InExpr(expr: Expr, visible: seq<string>): seq<TableRef>
    decreases expr, 1
  {
    match expr
    case Apply(_, operands) => InExprs(operands, visible)
    case InSubquery(needle, subquery, _) => InExpr(needle, visible) + InQuery(subquery, visible)
    case Exists(subquery, _) => InQuery(subquery, visible)
    case ScalarSubquery(subquery) => InQuery(subquery, visible)
    case _ => []
  }

  // ----- The walk finds exactly those -----------------------------------------------------------------------------

  /** The walk accepts exactly the allowed, refuses for one reason, and lists exactly the occurrences. */
  ghost predicate Finds<T>(walked: Walked<T>, allowed: bool, occurrences: seq<TableRef>) {
    && (walked.Ok? <==> allowed)
    && (walked.Err? ==> walked.error == UnsupportedShape)
    && (walked.Ok? ==> walked.value.sites == occurrences)
  }

  lemma {:induction false} NameReads(name: ObjectName)
    ensures ReadObjectName(name).Ok? <==> AllowedName(name)
    ensures ReadObjectName(name).Ok? ==> ReadObjectName(name).value == NameOf(name)
    ensures ReadObjectName(name).Err? ==> ReadObjectName(name).error == UnsupportedShape
  {
  }

  lemma {:induction false} ShadowIsReference(visible: seq<string>, name: TableName)
    ensures Shadowed(visible, name) <==> RefersToCte(visible, name)
  {
  }

  lemma {:induction false} FindsInQuery(cx: Context, query: Query, visible: seq<string>)
    ensures Finds(WalkQuery(Collect, cx, query, visible), AllowedQuery(query), InQuery(query, visible))
    decreases query, 1
  {
    if query.extras == {} {
      var inner := visible + CteNames(query.ctes);
      FindsInCtes(cx, query.ctes, query.recursive, visible);
      FindsInBody(cx, query.body, inner);
      FindsInExprs(cx, query.orderBy, inner);
      FindsInExprs(cx, query.limit, inner);
    }
  }

  lemma {:induction false} FindsInCtes(cx: Context, ctes: seq<Cte>, recursive: bool, visible: seq<string>)
    ensures Finds(WalkCtes(Collect, cx, recursive, ctes, visible),
                  forall i :: 0 <= i < |ctes| ==> ctes[i].extras == {} && AllowedQuery(ctes[i].query),
                  InCtes(ctes, recursive, visible))
    decreases ctes, 0
  {
    if ctes != [] {
      FindsInQuery(cx, ctes[0].query, BodyScope(recursive, ctes[0], visible));
      FindsInCtes(cx, ctes[1..], recursive, visible + [ctes[0].name]);
      assert forall i :: 0 < i < |ctes| ==> ctes[i] == ctes[1..][i - 1];
    }
  }

  lemma {:induction false} FindsInBody(cx: Context, body: SetExpr, visible: seq<string>)
    ensures Finds(WalkSetExpr(Collect, cx, body, visible), AllowedBody(body), InBody(body, visible))
    decreases body, 1
  {
    match body
    case SelectBody(select) => FindsInSelect(cx, select, visible);
    case QueryBody(query) => FindsInQuery(cx, query, visible);
    case SetOperation(_, left, right) =>
      FindsInBody(cx, left, visible);
      FindsInBody(cx, right, visible);
    case ValuesBody(_, cells) => FindsInExprs(cx, cells, visible);
    case OtherBody =>
  }

  lemma {:induction false} FindsInSelect(cx: Context, select: Select, visible: seq<string>)
    ensures Finds(WalkSelect(Collect, cx, select, visible), AllowedSelect(select), InSelect(select, visible))
    decreases select, 1
  {
    if select.extras == {} {
      FindsInItems(cx, select.projection, visible);
      FindsInFrom(cx, select.from, visible);
      FindsInExprs(cx, select.selection, visible);
      FindsInExprs(cx, select.groupBy, visible);
      FindsInExprs(cx, select.having, visible);
    }
  }

  lemma {:induction false} FindsInItems(cx: Context, items: seq<SelectItem>, visible: seq<string>)
    ensures Finds(WalkItems(Collect, cx, items, visible),
                  forall i :: 0 <= i < |items| ==> AllowedItem(items[i]), InItems(items, visible))
    decreases items, 0
  {
    if items != [] {
      FindsInItem(cx, items[0], visible);
      FindsInItems(cx, items[1..], visible);
      assert forall i :: 0 < i < |items| ==> items[i] == items[1..][i - 1];
    }
  }

  lemma {:induction false} FindsInItem(cx: Context, item: SelectItem, visible: seq<string>)
    ensures Finds(WalkItem(Collect, cx, item, visible), AllowedItem(item), InItem(item, visible))
    decreases item, 1
  {
    if item.ItemExpr? {
      FindsInExpr(cx, item.expr, visible);
    }
  }

  lemma {:induction false} FindsInFrom(cx: Context, from: seq<TableWithJoins>, visible: seq<string>)
    ensures Finds(WalkFrom(Collect, cx, from, visible),
                  forall i :: 0 <= i < |from| ==> AllowedTable(from[i]), InFrom(from, visible))
    decreases from, 0
  {
    if from != [] {
      FindsInTable(cx, from[0], visible);
      FindsInFrom(cx, from[1..], visible);
      assert forall i :: 0 < i < |from| ==> from[i] == from[1..][i - 1];
    }
  }

  lemma {:induction false} FindsInTable(cx: Context, table: TableWithJoins, visible: seq<string>)
    ensures Finds(WalkTableWithJoins(Collect, cx, table, visible), AllowedTable(table), InTable(table, visible))
    decreases table, 1
  {
    FindsInFactor(cx, table.relation, visible);
    FindsInJoins(cx, table.joins, visible);
  }

  lemma {:induction false} FindsInJoins(cx: Context, joins: seq<Join>, visible: seq<string>)
    ensures Finds(WalkJoins(Collect, cx, joins, visible),
                  forall i :: 0 <= i < |joins| ==> AllowedJoin(joins[i]), InJoins(joins, visible))
    decreases joins, 0
  {
    if joins != [] {
      FindsInFactor(cx, joins[0].relation, visible);
      FindsInExprs(cx, joins[0].on, visible);
      FindsInJoins(cx, joins[1..], visible);
      assert forall i :: 0 < i < |joins| ==> joins[i] == joins[1..][i - 1];
    }
  }

  lemma {:induction false} FindsInFactor(cx: Context, factor: TableFactor, visible: seq<string>)
    ensures Finds(WalkFactor(Collect, cx, factor, visible), AllowedFactor(factor), InFactor(factor, visible))
    decreases factor, 1
  {
    match factor
    case Table(name, _, _) =>
      NameReads(name);
      ShadowIsReference(visible, NameOf(name));
    case Derived(_, _, subquery, _) => FindsInQuery(cx, subquery, visible);
    case NestedJoin(inner, _) => FindsInTable(cx, inner, visible);
    case OtherFactor =>
  }

  lemma {:induction false} FindsInExprs(cx: Context, exprs: seq<Expr>, visible: seq<string>)
    ensures Finds(WalkExprs(Collect, cx, exprs, visible), AllowedExprs(exprs), InExprs(exprs, visible))
    decreases exprs, 0
  {
    if exprs != [] {
      FindsInExpr(cx, exprs[0], visible);
      FindsInExprs(cx, exprs[1..], visible);
      assert forall i :: 0 < i < |exprs| ==> exprs[i] == exprs[1..][i - 1];
    }
  }

  lemma {:induction false} FindsInExpr(cx: Context, expr: Expr, visible: seq<string>)
    ensures Finds(WalkExpr(Collect, cx, expr, visible), AllowedExpr(expr), InExpr(expr, visible))
    decreases expr, 1
  {
    match expr
    case Apply(_, operands) => FindsInExprs(cx, operands, visible);
    case InSubquery(needle, subquery, _) =>
      FindsInExpr(cx, needle, visible);
      FindsInQuery(cx, subquery, visible);
    case Exists(subquery, _) => FindsInQuery(cx, subquery, visible);
    case ScalarSubquery(subquery) => FindsInQuery(cx, subquery, visible);
    case _ =>
  }

  // ----- Statements other than queries -------------------------------------------------------------------------------

  predicate AllowedStatement(statement: Statement) {
    match statement
    case QueryStatement(query) => AllowedQuery(query)
    case WriteStatement(_, extras, targets, tables, values, source) =>
      (&& !extras && (forall i :: 0 <= i < |targets| ==> AllowedName(targets[i]))
       && (forall i :: 0 <= i < |tables| ==> AllowedTable(tables[i])) && AllowedExprs(values)
       && (forall i :: 0 <= i < |source| ==> AllowedQuery(source[i])))
    case SessionStatement(settings) => AllowedExprs(settings)
    case MetadataStatement(named, filters) =>
      (forall i :: 0 <= i < |named| ==> AllowedName(named[i])) && AllowedExprs(filters)
    case OtherStatement => false
  }

  /** Names that are no relations: the targets of a write, or the tables a statement describes. */
  function InNames(names: seq<ObjectName>, position: RefPosition): seq<TableRef> {
    seq(|names|, i requires 0 <= i < |names| => TableRef(NameOf(names[i]), None, false, position))
  }

  function InSources(sources: seq<Query>): seq<TableRef> {
    if sources == [] then [] else InQuery(sources[0], []) + InSources(sources[1..])
  }

  /** The table occurrences of a statement: what it writes, what it describes, and whatever its expressions read. */
  function InStatement(statement: Statement): seq<TableRef> {
    match statement
    case QueryStatement(query) => InQuery(query, [])
    case WriteStatement(_, _, targets, tables, values, source) =>
      InNames(targets, WriteTarget) + InFrom(tables, []) + InExprs(values, []) + InSources(source)
    case SessionStatement(settings) => InExprs(settings, [])
    case MetadataStatement(named, filters) => InNames(named, Walk.Named) + InExprs(filters, [])
    case OtherStatement => []
  }

  lemma {:induction false} FindsNames(names: seq<ObjectName>, position: RefPosition)
    ensures TargetSites(names, position)
         == if forall i :: 0 <= i < |names| ==> AllowedName(names[i]) then Ok(InNames(names, position))
            else Err(UnsupportedShape)
  {
    if names != [] {
      NameReads(names[0]);
      FindsNames(names[1..], position);
      assert forall i :: 0 < i < |names| ==> names[i] == names[1..][i - 1];
      assert InNames(names, position)
          == [TableRef(NameOf(names[0]), None, false, position)] + InNames(names[1..], position);
    }
  }

  lemma {:induction false} FindsInSources(cx: Context, sources: seq<Query>)
    ensures Finds(WalkSources(Collect, cx, sources),
                  forall i :: 0 <= i < |sources| ==> AllowedQuery(sources[i]), InSources(sources))
  {
    if sources != [] {
      FindsInQuery(cx, sources[0], []);
      FindsInSources(cx, sources[1..]);
      assert forall i :: 0 < i < |sources| ==> sources[i] == sources[1..][i - 1];
    }
  }

  /** Every statement's list is its table occurrences, and it is refused exactly when it holds something off the
      allowlist. */
  lemma {:induction false} StatementIsEnumerated(cx: Context, statement: Statement)
    ensures Analyze(cx, statement)
         == if AllowedStatement(statement) then Ok(InStatement(statement)) else Err(UnsupportedShape)
  {
    match statement
    case QueryStatement(query) => FindsInQuery(cx, query, []);
    case WriteStatement(_, _, targets, tables, values, source) =>
      FindsNames(targets, WriteTarget);
      FindsInFrom(cx, tables, []);
      FindsInExprs(cx, values, []);
      FindsInSources(cx, source);
    case SessionStatement(settings) => FindsInExprs(cx, settings, []);
    case MetadataStatement(named, filters) =>
      FindsNames(named, Walk.Named);
      FindsInExprs(cx, filters, []);
    case OtherStatement =>
  }

  /** What the policies say of an occurrence. A CTE carries no policy of its own, and a described table is not read. */
  function DecisionAt(cx: Context, site: TableRef): Decision {
    if site.isCteReference || site.position == Walk.Named then Unrestricted
    else Lookup(cx.policies, cx.user, site.name.qualifier, site.name.leaf, cx.current)
  }

  /** Why a statement that is no query is refused when it touches a restricted table. */
  function RestrictedRefusal(statement: Statement): Refusal {
    match statement
    case WriteStatement(_, _, _, _, _, _) => WriteToRestrictedTable
    case SessionStatement(_) => RestrictedTableIntoSessionState
    case _ => UnsupportedShape
  }

  /**
   Of everything that is not a query, a user with a policy is forwarded only the original text, exactly when the
   statement is allowed and none of its occurrences is restricted or unresolvable. An unresolvable one decides the
   refusal wherever it stands.
   */
  lemma {:induction false} OtherStatementsForwardOnlyUnrestricted(cx: Context, statement: Statement, gated: bool)
    requires HasAnyPolicy(cx) && !statement.QueryStatement?
    ensures RewriteStatement(cx, Parsed(statement, gated))
         == if !AllowedStatement(statement) then Err(UnsupportedShape)
            else if exists site :: site in InStatement(statement) && DecisionAt(cx, site).Unresolvable? then
              Err(UnresolvableTableReference)
            else if exists site :: site in InStatement(statement) && DecisionAt(cx, site).Restricted? then
              Err(RestrictedRefusal(statement))
            else Ok(Original)
    ensures RewriteStatement(cx, NotParsed) == Err(Unparseable) && RewriteStatement(cx, Several) == Err(MultiStatement)
  {
    StatementIsEnumerated(cx, statement);
    var sites := InStatement(statement);
    assert forall site :: DecisionAt(cx, site) == DecideSite(cx, site);
    assert Resolvable(cx, sites) <==> !exists site :: site in sites && DecisionAt(cx, site).Unresolvable?;
    assert AllUnrestricted(cx, sites) <==> forall site :: site in sites ==> DecisionAt(cx, site).Unrestricted?;
  }

  /**
   Enumeration is complete: an accepted query's list is every table occurrence in reading order, each flagged as
   a CTE reference exactly when it is one, and the query is refused exactly when it holds something off the
   allowlist. The wrapper, which replaces nodes as it goes, is shown the same list.
   */
  lemma {:induction false} EnumerationIsComplete(cx: Context, query: Query)
    ensures Analyze(cx, QueryStatement(query))
         == if AllowedQuery(query) then Ok(InQuery(query, [])) else Err(UnsupportedShape)
    ensures WalkQuery(Wrap, cx, query, []).Ok? ==>
              AllowedQuery(query) && WalkQuery(Wrap, cx, query, []).value.sites == InQuery(query, [])
  {
    FindsInQuery(cx, query, []);
    if WalkQuery(Wrap, cx, query, []).Ok? {
      WrapQuery(cx, query, []);
    }
  }
}

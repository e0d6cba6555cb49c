/**
 The walk in its stateful form: one walker carries the CTE names in scope, which it pushes and
 truncates, the reference sites a collector gathers, and the verifier's flag. Every method computes
 what the function of the same node in `Walk` says and leaves the scope as it found it.

 A tree node is a value here; a method returns the node that takes the visited one's place.
 */
module Walker {
  import opened Common
  import opened SqlAst
  import opened Policies
  import opened Walk

  /** The part of a list already walked, set against the walk of the whole list and of the rest. */
  ghost predicate Continues<T>(whole: Walked<seq<T>>, done: Out<seq<T>>, rest: Walked<seq<T>>) {
    if rest.Ok? then
      whole == Ok(Out(done.node + rest.value.node, done.sites + rest.value.sites,
                      done.unguarded || rest.value.unguarded))
    else whole == Err(rest.error)
  }

  lemma {:induction false} Begin<T>(whole: Walked<seq<T>>)
    ensures Continues(whole, Out([], [], false), whole)
  {
    if whole.Ok? {
      assert [] + whole.value.node == whole.value.node && [] + whole.value.sites == whole.value.sites;
    }
  }

  lemma {:induction false} Finish<T>(whole: Walked<seq<T>>, done: Out<seq<T>>)
    requires Continues(whole, done, Ok(Out([], [], false)))
    ensures whole == Ok(done)
  {
    assert done.node + [] == done.node && done.sites + [] == done.sites;
  }

  lemma {:induction false} Advance<T>(whole: Walked<seq<T>>, done: Out<seq<T>>, rest: Walked<seq<T>>, head: Out<T>,
                                      later: Walked<seq<T>>)
    requires Continues(whole, done, rest)
    requires rest == if later.Ok? then Ok(Out([head.node] + later.value.node, head.sites + later.value.sites,
                                              head.unguarded || later.value.unguarded))
                     else Err(later.error)
    ensures Continues(whole, Out(done.node + [head.node], done.sites + head.sites,
                                 done.unguarded || head.unguarded), later)
  {
    if later.Ok? {
      assert done.node + ([head.node] + later.value.node) == (done.node + [head.node]) + later.value.node;
      assert done.sites + (head.sites + later.value.sites) == (done.sites + head.sites) + later.value.sites;
    }
  }

  /** Two visits in a row. */
  function Both<T, U>(first: Out<T>, second: Out<U>): Out<()> {
    Out((), first.sites + second.sites, first.unguarded || second.unguarded)
  }

  /** What is walked of a list of CTEs once one more has been. */
  ghost function CteDone(visitor: Visitor, cx: Context, recursive: bool, cte: Cte, scope: seq<string>, done: Out<seq<Cte>>)
    : Out<seq<Cte>>
    requires WalkQuery(visitor, cx, cte.query, BodyScope(recursive, cte, scope)).Ok?
  {
    var query := WalkQuery(visitor, cx, cte.query, BodyScope(recursive, cte, scope)).value;
    Out(done.node + [cte.(query := query.node)], done.sites + query.sites, done.unguarded || query.unguarded)
  }

  lemma {:induction false} CteAdvances(visitor: Visitor, cx: Context, recursive: bool, ctes: seq<Cte>, at: nat,
                                       scope: seq<string>, whole: Walked<seq<Cte>>, done: Out<seq<Cte>>)
    requires at < |ctes| && Continues(whole, done, WalkCtes(visitor, cx, recursive, ctes[at..], scope))
    ensures var cte := ctes[at];
            var query := WalkQuery(visitor, cx, cte.query, BodyScope(recursive, cte, scope));
            if cte.extras != {} then whole == Err(UnsupportedShape)
            else if query.Err? then whole == Err(query.error)
            else Continues(whole, CteDone(visitor, cx, recursive, cte, scope, done),
                           WalkCtes(visitor, cx, recursive, ctes[at + 1..], scope + [cte.name]))
  {
    var cte := ctes[at];
    var query := WalkQuery(visitor, cx, cte.query, BodyScope(recursive, cte, scope));
    assert ctes[at..][0] == cte && ctes[at..][1..] == ctes[at + 1..];
    if cte.extras == {} && query.Ok? {
      Advance(whole, done, WalkCtes(visitor, cx, recursive, ctes[at..], scope),
              query.value.With(cte.(query := query.value.node)),
              WalkCtes(visitor, cx, recursive, ctes[at + 1..], scope + [cte.name]));
    }
  }

  lemma {:induction false} NameAdds(ctes: seq<Cte>, at: nat, scope: seq<string>)
    requires at < |ctes|
    ensures scope + CteNames(ctes[..at]) + [ctes[at].name] == scope + CteNames(ctes[..at + 1])
  {
    assert CteNames(ctes[..at + 1]) == CteNames(ctes[..at]) + [ctes[at].name];
  }

  datatype State = State(scope: seq<string>, tables: seq<TableRef>, unguarded: bool)

  class Walker {
    const visitor: Visitor
    const cx: Context
    var scope: seq<string>
    var tables: seq<TableRef>
    var unguarded: bool

    constructor (visitor: Visitor, cx: Context)
      ensures this.visitor == visitor && this.cx == cx
      ensures scope == [] && tables == [] && !unguarded
    {
      this.visitor, this.cx := visitor, cx;
      scope, tables, unguarded := [], [], false;
    }

    /** The walker's fields once `visited` has been recorded on top of earlier ones. */
    ghost predicate Recorded<T>(before: State, visited: Out<T>)
      reads this
    {
      && tables == before.tables + (if visitor == Collect then visited.sites else [])
      && unguarded == (before.unguarded || visited.unguarded)
    }

    ghost predicate Matches<T>(r: Result<T, Refusal>, before: State, expected: Walked<T>)
      reads this
    {
      if expected.Ok? then
        r == Ok(expected.value.node) && scope == before.scope && Recorded(before, expected.value)
      else r == Err(expected.error)
    }

    lemma {:induction false} RecordedBoth<T, U>(before: State, middle: State, first: Out<T>, second: Out<U>)
      requires middle.tables == before.tables + (if visitor == Collect then first.sites else [])
      requires middle.unguarded == (before.unguarded || first.unguarded)
      requires Recorded(middle, second)
      ensures Recorded(before, Both(first, second))
    {
    }

    ghost function Now(): State
      reads this
    {
      State(scope, tables, unguarded)
    }

    /** What each visitor does at a relation; the wrapper's guard replaces the relation. */
    method VisitRelation(factor: TableFactor, site: TableRef) returns (r: Result<TableFactor, Refusal>)
      requires factor.Table?
      modifies this
      ensures Matches(r, old(Now()), Walk.VisitRelation(visitor, cx, factor, site))
    {
      match visitor
      case Collect =>
        tables := tables + [site];
        return Ok(factor);
      case Wrap =>
        match DecideSite(cx, site) {
          case Restricted(policy) => return Ok(Guard(factor, site, policy));
          case Unrestricted => return Ok(factor);
          case Unresolvable => return Err(UnresolvableTableReference);
        }
      case Verify =>
        if !DecideSite(cx, site).Unrestricted? {
          unguarded := true;
        }
        return Ok(factor);
    }

    method VisitQuery(query: Query) returns (r: Result<Query, Refusal>)
      modifies this
      ensures Matches(r, old(Now()), WalkQuery(visitor, cx, query, old(scope)))
      decreases query, 1
    {
      if query.extras != {} {
        return Err(UnsupportedShape);
      }
      var entered := |scope|;
      ghost var inner := scope + CteNames(query.ctes);
      ghost var before := Now();
      var ctes := VisitCtes(query.recursive, query.ctes);
      if ctes.Err? { return Err(ctes.error); }
      ghost var first := WalkCtes(visitor, cx, query.recursive, query.ctes, before.scope).value;
      ghost var middle := Now();
      var body := VisitSetExpr(query.body);
      if body.Err? { return Err(body.error); }
      ghost var second := Both(first, WalkSetExpr(visitor, cx, query.body, inner).value);
      RecordedBoth(before, middle, first, WalkSetExpr(visitor, cx, query.body, inner).value);
      middle := Now();
      var orderBy := VisitExprs(query.orderBy);
      if orderBy.Err? { return Err(orderBy.error); }
      ghost var third := Both(second, WalkExprs(visitor, cx, query.orderBy, inner).value);
      RecordedBoth(before, middle, second, WalkExprs(visitor, cx, query.orderBy, inner).value);
      middle := Now();
      var limit := VisitExprs(query.limit);
      if limit.Err? { return Err(limit.error); }
      RecordedBoth(before, middle, third, WalkExprs(visitor, cx, query.limit, inner).value);
      scope := scope[..entered];
      return Ok(query.(ctes := ctes.value, body := body.value, orderBy := orderBy.value,
                       limit := limit.value));
    }

    /** Pushes every CTE name: before its body is walked when recursive, after it otherwise. */
    method VisitCtes(recursive: bool, ctes: seq<Cte>) returns (r: Result<seq<Cte>, Refusal>)
      modifies this
      ensures var expected := WalkCtes(visitor, cx, recursive, ctes, old(scope));
              if expected.Ok? then
                && r == Ok(expected.value.node)
                && scope == old(scope) + CteNames(ctes)
                && Recorded(old(Now()), expected.value)
              else r == Err(expected.error)
      decreases ctes, 0
    {
      ghost var whole := WalkCtes(visitor, cx, recursive, ctes, scope);
      ghost var done: Out<seq<Cte>> := Out([], [], false);
      var nodes := [];
      assert ctes[0..] == ctes && scope + CteNames(ctes[..0]) == scope;
      Begin(whole);
      for at := 0 to |ctes|
        invariant scope == old(scope) + CteNames(ctes[..at])
        invariant nodes == done.node && Recorded(old(Now()), done)
        invariant Continues(whole, done, WalkCtes(visitor, cx, recursive, ctes[at..], scope))
      {
        var node;
        node, done := VisitNextCte(recursive, ctes, at, old(scope), old(Now()), whole, done);
        if node.Err? { return Err(node.error); }
        nodes := nodes + [node.value];
      }
      assert ctes[..|ctes|] == ctes;
      Finish(whole, done);
      return Ok(nodes);
    }

    /** The CTE at an index, on top of those before it. */
    method VisitNextCte(recursive: bool, ctes: seq<Cte>, at: nat, ghost entered: seq<string>, ghost before: State,
                        ghost whole: Walked<seq<Cte>>, ghost done: Out<seq<Cte>>)
      returns (r: Result<Cte, Refusal>, ghost next: Out<seq<Cte>>)
      requires at < |ctes| && scope == entered + CteNames(ctes[..at]) && Recorded(before, done)
      requires Continues(whole, done, WalkCtes(visitor, cx, recursive, ctes[at..], scope))
      modifies this
      ensures r.Err? ==> whole == Err(r.error)
      ensures r.Ok? ==> scope == entered + CteNames(ctes[..at + 1]) && Recorded(before, next)
      ensures r.Ok? ==> next.node == done.node + [r.value]
                        && Continues(whole, next, WalkCtes(visitor, cx, recursive, ctes[at + 1..], scope))
      decreases ctes[at], 3
    {
      ghost var query := WalkQuery(visitor, cx, ctes[at].query, BodyScope(recursive, ctes[at], scope));
      ghost var middle := Now();
      CteAdvances(visitor, cx, recursive, ctes, at, scope, whole, done);
      NameAdds(ctes, at, entered);
      next := done;
      r := VisitCte(recursive, ctes[at]);
      if r.Ok? {
        RecordedBoth(before, middle, done, query.value);
        next := CteDone(visitor, cx, recursive, ctes[at], middle.scope, done);
      }
    }

    method VisitCte(recursive: bool, cte: Cte) returns (r: Result<Cte, Refusal>)
      modifies this
      ensures var expected := WalkQuery(visitor, cx, cte.query, BodyScope(recursive, cte, old(scope)));
              if cte.extras != {} then r == Err(UnsupportedShape)
              else if expected.Ok? then
                && r == Ok(cte.(query := expected.value.node))
                && scope == old(scope) + [cte.name]
                && Recorded(old(Now()), expected.value)
              else r == Err(expected.error)
      decreases cte, 2
    {
      if cte.extras != {} {
        return Err(UnsupportedShape);
      }
      if recursive {
        scope := scope + [cte.name];
      }
      var query := VisitQuery(cte.query);
      if query.Err? { return Err(query.error); }
      if !recursive {
        scope := scope + [cte.name];
      }
      return Ok(cte.(query := query.value));
    }

    method VisitSetExpr(body: SetExpr) returns (r: Result<SetExpr, Refusal>)
      modifies this
      ensures Matches(r, old(Now()), WalkSetExpr(visitor, cx, body, old(scope)))
      decreases body, 1
    {
      match body
      case SelectBody(select) =>
        var node := VisitSelect(select);
        if node.Err? { return Err(node.error); }
        return Ok(SelectBody(node.value));
      case QueryBody(query) =>
        var node := VisitQuery(query);
        if node.Err? { return Err(node.error); }
        return Ok(QueryBody(node.value));
      case SetOperation(operator, left, right) =>
        var l := VisitSetExpr(left);
        if l.Err? { return l; }
        var second := VisitSetExpr(right);
        if second.Err? { return second; }
        return Ok(SetOperation(operator, l.value, second.value));
      case ValuesBody(width, cells) =>
        var nodes := VisitExprs(cells);
        if nodes.Err? { return Err(nodes.error); }
        return Ok(ValuesBody(width, nodes.value));
      case OtherBody =>
        return Err(UnsupportedShape);
    }

    method VisitSelect(select: Select) returns (r: Result<Select, Refusal>)
      modifies this
      ensures Matches(r, old(Now()), WalkSelect(visitor, cx, select, old(scope)))
      decreases select, 1
    {
      if select.extras != {} {
        return Err(UnsupportedShape);
      }
      ghost var before := Now();
      var projection := VisitItems(select.projection);
      if projection.Err? { return Err(projection.error); }
      ghost var first := WalkItems(visitor, cx, select.projection, scope).value;
      ghost var middle := Now();
      var from := VisitFrom(select.from);
      if from.Err? { return Err(from.error); }
      ghost var second := Both(first, WalkFrom(visitor, cx, select.from, scope).value);
      RecordedBoth(before, middle, first, WalkFrom(visitor, cx, select.from, scope).value);
      middle := Now();
      var selection := VisitExprs(select.selection);
      if selection.Err? { return Err(selection.error); }
      ghost var third := Both(second, WalkExprs(visitor, cx, select.selection, scope).value);
      RecordedBoth(before, middle, second, WalkExprs(visitor, cx, select.selection, scope).value);
      middle := Now();
      var groupBy := VisitExprs(select.groupBy);
      if groupBy.Err? { return Err(groupBy.error); }
      ghost var fourth := Both(third, WalkExprs(visitor, cx, select.groupBy, scope).value);
      RecordedBoth(before, middle, third, WalkExprs(visitor, cx, select.groupBy, scope).value);
      middle := Now();
      var having := VisitExprs(select.having);
      if having.Err? { return Err(having.error); }
      RecordedBoth(before, middle, fourth, WalkExprs(visitor, cx, select.having, scope).value);
      return Ok(select.(projection := projection.value, from := from.value, selection := selection.value,
                        groupBy := groupBy.value, having := having.value));
    }

    method VisitItems(items: seq<SelectItem>) returns (r: Result<seq<SelectItem>, Refusal>)
      modifies this
      ensures Matches(r, old(Now()), WalkItems(visitor, cx, items, old(scope)))
      decreases items, 0
    {
      ghost var whole := WalkItems(visitor, cx, items, scope);
      ghost var done: Out<seq<SelectItem>> := Out([], [], false);
      var nodes := [];
      assert items[0..] == items;
      Begin(whole);
      for at := 0 to |items|
        invariant scope == old(scope)
        invariant nodes == done.node && Recorded(old(Now()), done)
        invariant Continues(whole, done, WalkItems(visitor, cx, items[at..], scope))
      {
        ghost var rest := WalkItems(visitor, cx, items[at..], scope);
        ghost var expected := WalkItem(visitor, cx, items[at], scope);
        var node := VisitItem(items[at]);
        if node.Err? { return Err(node.error); }
        nodes := nodes + [node.value];
        ghost var head := expected.value;
        assert items[at..][1..] == items[at + 1..];
        Advance(whole, done, rest, head, WalkItems(visitor, cx, items[at + 1..], scope));
        done := Out(done.node + [head.node], done.sites + head.sites, done.unguarded || head.unguarded);
      }
      Finish(whole, done);
      return Ok(nodes);
    }

    method VisitItem(item: SelectItem) returns (r: Result<SelectItem, Refusal>)
      modifies this
      ensures Matches(r, old(Now()), WalkItem(visitor, cx, item, old(scope)))
      decreases item, 1
    {
      match item
      case ItemExpr(expr, alias) =>
        var node := VisitExpr(expr);
        if node.Err? { return Err(node.error); }
        return Ok(ItemExpr(node.value, alias));
      case ItemWildcard(_, modified) =>
        return if modified then Err(UnsupportedShape) else Ok(item);
      case OtherItem =>
        return Err(UnsupportedShape);
    }

    method VisitFrom(from: seq<TableWithJoins>) returns (r: Result<seq<TableWithJoins>, Refusal>)
      modifies this
      ensures Matches(r, old(Now()), WalkFrom(visitor, cx, from, old(scope)))
      decreases from, 0
    {
      ghost var whole := WalkFrom(visitor, cx, from, scope);
      ghost var done: Out<seq<TableWithJoins>> := Out([], [], false);
      var nodes := [];
      assert from[0..] == from;
      Begin(whole);
      for at := 0 to |from|
        invariant scope == old(scope)
        invariant nodes == done.node && Recorded(old(Now()), done)
        invariant Continues(whole, done, WalkFrom(visitor, cx, from[at..], scope))
      {
        ghost var rest := WalkFrom(visitor, cx, from[at..], scope);
        ghost var expected := WalkTableWithJoins(visitor, cx, from[at], scope);
        var node := VisitTableWithJoins(from[at]);
        if node.Err? { return Err(node.error); }
        nodes := nodes + [node.value];
        ghost var head := expected.value;
        assert from[at..][1..] == from[at + 1..];
        Advance(whole, done, rest, head, WalkFrom(visitor, cx, from[at + 1..], scope));
        done := Out(done.node + [head.node], done.sites + head.sites, done.unguarded || head.unguarded);
      }
      Finish(whole, done);
      return Ok(nodes);
    }

    method VisitTableWithJoins(table: TableWithJoins) returns (r: Result<TableWithJoins, Refusal>)
      modifies this
      ensures Matches(r, old(Now()), WalkTableWithJoins(visitor, cx, table, old(scope)))
      decreases table, 1
    {
      var relation := VisitFactor(table.relation);
      if relation.Err? { return Err(relation.error); }
      var joins := VisitJoins(table.joins);
      if joins.Err? { return Err(joins.error); }
      return Ok(TableWithJoins(relation.value, joins.value));
    }

    method VisitJoins(joins: seq<Join>) returns (r: Result<seq<Join>, Refusal>)
      modifies this
      ensures Matches(r, old(Now()), WalkJoins(visitor, cx, joins, old(scope)))
      decreases joins, 0
    {
      ghost var whole := WalkJoins(visitor, cx, joins, scope);
      ghost var done: Out<seq<Join>> := Out([], [], false);
      var nodes := [];
      assert joins[0..] == joins;
      Begin(whole);
      for at := 0 to |joins|
        invariant scope == old(scope)
        invariant nodes == done.node && Recorded(old(Now()), done)
        invariant Continues(whole, done, WalkJoins(visitor, cx, joins[at..], scope))
      {
        ghost var rest := WalkJoins(visitor, cx, joins[at..], scope);
        ghost var expected := WalkJoin(visitor, cx, joins[at], scope);
        var node := VisitJoin(joins[at]);
        if node.Err? { return Err(node.error); }
        nodes := nodes + [node.value];
        ghost var head := expected.value;
        assert joins[at..][1..] == joins[at + 1..];
        Advance(whole, done, rest, head, WalkJoins(visitor, cx, joins[at + 1..], scope));
        done := Out(done.node + [head.node], done.sites + head.sites, done.unguarded || head.unguarded);
      }
      Finish(whole, done);
      return Ok(nodes);
    }

    method VisitJoin(join: Join) returns (r: Result<Join, Refusal>)
      modifies this
      ensures Matches(r, old(Now()), WalkJoin(visitor, cx, join, old(scope)))
      decreases join, 1
    {
      var relation := VisitFactor(join.relation);
      if relation.Err? { return Err(relation.error); }
      if join.global || join.kind == OtherJoin {
        return Err(UnsupportedShape);
      }
      var on := VisitExprs(join.on);
      if on.Err? { return Err(on.error); }
      return Ok(join.(relation := relation.value, on := on.value));
    }

    /** Validates the factor and walks its children, then hands a relation to the visitor. */
    method VisitFactor(factor: TableFactor) returns (r: Result<TableFactor, Refusal>)
      modifies this
      ensures Matches(r, old(Now()), WalkFactor(visitor, cx, factor, old(scope)))
      decreases factor, 1
    {
      match factor
      case Table(name, alias, extras) =>
        if extras != {} || !PlainAlias(alias) {
          return Err(UnsupportedShape);
        }
        var tableName := ReadObjectName(name);
        if tableName.Err? { return Err(tableName.error); }
        r := VisitRelation(factor, Site(factor, tableName.value, Shadowed(scope, tableName.value)));
      case Derived(lateral, sampled, subquery, alias) =>
        if lateral || sampled || !PlainAlias(alias) {
          return Err(UnsupportedShape);
        }
        if visitor == Verify && IsGuard(subquery, cx) {
          return Ok(factor);
        }
        var node := VisitQuery(subquery);
        if node.Err? { return Err(node.error); }
        return Ok(Derived(lateral, sampled, node.value, alias));
      case NestedJoin(inner, alias) =>
        if alias.Some? {
          return Err(UnsupportedShape);
        }
        var node := VisitTableWithJoins(inner);
        if node.Err? { return Err(node.error); }
        return Ok(NestedJoin(node.value, alias));
      case OtherFactor =>
        return Err(UnsupportedShape);
    }

    method VisitExprs(exprs: seq<Expr>) returns (r: Result<seq<Expr>, Refusal>)
      modifies this
      ensures Matches(r, old(Now()), WalkExprs(visitor, cx, exprs, old(scope)))
      decreases exprs, 0
    {
      ghost var whole := WalkExprs(visitor, cx, exprs, scope);
      ghost var done: Out<seq<Expr>> := Out([], [], false);
      var nodes := [];
      assert exprs[0..] == exprs;
      Begin(whole);
      for at := 0 to |exprs|
        invariant scope == old(scope)
        invariant nodes == done.node && Recorded(old(Now()), done)
        invariant Continues(whole, done, WalkExprs(visitor, cx, exprs[at..], scope))
      {
        ghost var rest := WalkExprs(visitor, cx, exprs[at..], scope);
        ghost var expected := WalkExpr(visitor, cx, exprs[at], scope);
        var node := VisitExpr(exprs[at]);
        if node.Err? { return Err(node.error); }
        nodes := nodes + [node.value];
        ghost var head := expected.value;
        assert exprs[at..][1..] == exprs[at + 1..];
        Advance(whole, done, rest, head, WalkExprs(visitor, cx, exprs[at + 1..], scope));
        done := Out(done.node + [head.node], done.sites + head.sites, done.unguarded || head.unguarded);
      }
      Finish(whole, done);
      return Ok(nodes);
    }

    method VisitExpr(expr: Expr) returns (r: Result<Expr, Refusal>)
      modifies this
      ensures Matches(r, old(Now()), WalkExpr(visitor, cx, expr, old(scope)))
      decreases expr, 1
    {
      match expr
      case Column(_) => return Ok(expr);
      case Literal(_) => return Ok(expr);
      case Star(_) => return Ok(expr);
      case Apply(op, operands) =>
        if !AllowedOperator(op) {
          return Err(UnsupportedShape);
        }
        var nodes := VisitExprs(operands);
        if nodes.Err? { return Err(nodes.error); }
        return Ok(Apply(op, nodes.value));
      case InSubquery(needle, subquery, negated) =>
        var head := VisitExpr(needle);
        if head.Err? { return head; }
        var node := VisitQuery(subquery);
        if node.Err? { return Err(node.error); }
        return Ok(InSubquery(head.value, node.value, negated));
      case Exists(subquery, negated) =>
        var node := VisitQuery(subquery);
        if node.Err? { return Err(node.error); }
        return Ok(Exists(node.value, negated));
      case ScalarSubquery(subquery) =>
        var node := VisitQuery(subquery);
        if node.Err? { return Err(node.error); }
        return Ok(ScalarSubquery(node.value));
      case OtherExpr =>
        return Err(UnsupportedShape);
    }
  }

  /** Whether the verifier finds every policy-bearing reference of an accepted query guarded. */
  method AllPolicyRefsGuarded(cx: Context, query: Query) returns (r: Result<bool, Refusal>)
    ensures var verified := WalkQuery(Verify, cx, query, []);
            r == if verified.Ok? then Ok(!verified.value.unguarded) else Err(verified.error)
  {
    var walker := new Walker(Verify, cx);
    var node := walker.VisitQuery(query);
    return if node.Ok? then Ok(!walker.unguarded) else Err(node.error);
  }

  /** Every relation site of a query, in walk order. */
  method CollectSites(cx: Context, query: Query) returns (r: Result<seq<TableRef>, Refusal>)
    ensures var collected := WalkQuery(Collect, cx, query, []);
            r == if collected.Ok? then Ok(collected.value.sites) else Err(collected.error)
  {
    var walker := new Walker(Collect, cx);
    var node := walker.VisitQuery(query);
    assert forall sites: seq<TableRef> :: [] + sites == sites;
    return if node.Ok? then Ok(walker.tables) else Err(node.error);
  }
}

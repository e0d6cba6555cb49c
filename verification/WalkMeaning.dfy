/**
 The central induction: a visitor that finds nothing unguarded preserves meaning between two
 databases its policies cannot tell apart.

 For the wrapper the second database is the first one filtered to its permitted rows; for the
 verifier the two databases merely agree on the permitted rows, and the walked tree is unchanged.
 */
module WalkMeaning {
  import opened Common
  import opened SqlAst
  import opened Policies
  import opened Semantics
  import opened Walk
  import opened GuardProofs

  function Permitted(d: Dialect, policy: Policy, stored: Outcome<Semantics.Relation>)
    : Outcome<Semantics.Relation>
  {
    if stored.Ok? then PermittedRows(d, policy, stored.value) else stored
  }

  /** Every policy of the user names only values that reach the backend unchanged. */
  ghost predicate SoundPolicies(cx: Context) {
    forall database, table ::
      var decision := Lookup(cx.policies, cx.user, Some(database), table, cx.current);
      decision.Restricted? ==> Transmissible(decision.policy)
  }

  /** How the two worlds relate at one table, by what the policy says of it. */
  predicate TableAgrees(visitor: Visitor, d: Dialect, decision: Decision,
                        first: Outcome<Semantics.Relation>, second: Outcome<Semantics.Relation>)
  {
    match decision
    case Restricted(policy) =>
      if visitor == Wrap then second == Permitted(d, policy, first)
      else Permitted(d, policy, first) == Permitted(d, policy, second)
    case _ => first == second
  }

  ghost predicate Agree(visitor: Visitor, cx: Context, w1: World, w2: World) {
    && visitor != Collect
    && w1.dialect == w2.dialect && w1.current == w2.current == cx.current
    && SoundPolicies(cx)
    && forall database, table ::
         TableAgrees(visitor, w1.dialect, Lookup(cx.policies, cx.user, Some(database), table, cx.current),
                     w1.database(database, table), w2.database(database, table))
  }

  /** The walk accepts the node and finds nothing unguarded. */
  predicate Clean<T>(walked: Walked<T>) {
    walked.Ok? && !walked.value.unguarded
  }

  lemma {:induction false} CteVisible(env: Env, name: string)
    ensures FindCte(env, name).Some?
       <==> exists i :: 0 <= i < |env| && SameIgnoringCase(NamesOf(env)[i], name)
    decreases |env|
  {
    if env != [] {
      var last := |env| - 1;
      var front := env[..last];
      CteVisible(front, name);
      if SameIgnoringCase(env[last].name, name) {
        assert SameIgnoringCase(NamesOf(env)[last], name);
      }
      if i :| 0 <= i < |env| && SameIgnoringCase(NamesOf(env)[i], name) && i < last {
        assert SameIgnoringCase(NamesOf(front)[i], name);
      }
      if i :| 0 <= i < |front| && SameIgnoringCase(NamesOf(front)[i], name) {
        assert SameIgnoringCase(NamesOf(env)[i], name);
      }
    }
  }

  /** The walk's shadowing test and the backend's name resolution agree. */
  lemma {:induction false} ShadowedMeansCte(env: Env, name: TableName)
    ensures Shadowed(NamesOf(env), name) <==> name.qualifier.None? && FindCte(env, name.leaf).Some?
  {
    CteVisible(env, name.leaf);
  }

  lemma {:induction false} ReadsAgree(visitor: Visitor, cx: Context, w1: World, w2: World, name: TableName, env: Env)
    requires Agree(visitor, cx, w1, w2)
    ensures var r1, r2 := ReadTable(w1, name, env), ReadTable(w2, name, env);
            if Shadowed(NamesOf(env), name) then r1 == r2
            else TableAgrees(visitor, w1.dialect, DecideName(cx, name), r1, r2)
  {
    ShadowedMeansCte(env, name);
    if !Shadowed(NamesOf(env), name) {
      var database := if name.qualifier.Some? then name.qualifier else cx.current;
      if database.Some? {
        assert TableAgrees(visitor, w1.dialect,
                           Lookup(cx.policies, cx.user, database, name.leaf, cx.current),
                           w1.database(database.value, name.leaf), w2.database(database.value, name.leaf));
        assert DecideName(cx, name) == Lookup(cx.policies, cx.user, database, name.leaf, cx.current);
      }
    }
  }

  lemma {:induction false} PolicyIsSound(cx: Context, name: TableName)
    requires SoundPolicies(cx) && DecideName(cx, name).Restricted?
    ensures Transmissible(DecideName(cx, name).policy)
  {
    var database := if name.qualifier.Some? then name.qualifier.value else cx.current.value;
    assert DecideName(cx, name) == Lookup(cx.policies, cx.user, Some(database), name.leaf, cx.current);
  }

  lemma {:induction false} SameRelation(visitor: Visitor, cx: Context, w1: World, w2: World, factor: TableFactor,
                                        env: Env, outer: Stack)
    requires Agree(visitor, cx, w1, w2) && factor.Table?
    requires Clean(WalkFactor(visitor, cx, factor, NamesOf(env)))
    ensures EvalFactor(w1, WalkFactor(visitor, cx, factor, NamesOf(env)).value.node, env, outer)
         == EvalFactor(w2, factor, env, outer)
  {
    var name := ReadObjectName(factor.name).value;
    var site := Site(factor, name, Shadowed(NamesOf(env), name));
    ReadsAgree(visitor, cx, w1, w2, name, env);
    if visitor == Wrap && DecideSite(cx, site).Restricted? {
      var policy := DecideSite(cx, site).policy;
      var inner := Table(factor.name, None, {});
      PolicyIsSound(cx, name);
      GuardReadsPermittedRows(w1, inner, policy, name, env);
      assert Guard(factor, site, policy).subquery == GuardQuery(inner, policy);
      assert EvalQuery(w1, GuardQuery(inner, policy), env, [])
          == Permitted(w1.dialect, policy, ReadTable(w1, name, env)) == ReadTable(w2, name, env);
    }
  }

  lemma {:induction false} AcceptedGuardIsPlain(cx: Context, query: Query, scope: seq<string>)
    requires IsGuard(query, cx) && WalkQuery(Collect, cx, query, scope).Ok?
    ensures query.body.select.from[0].relation.extras == {}
  {
    var select := query.body.select;
    var inner := scope + CteNames(query.ctes);
    assert WalkSetExpr(Collect, cx, query.body, inner).Ok?;
    assert WalkSelect(Collect, cx, select, inner).Ok?;
    assert WalkFrom(Collect, cx, select.from, inner).Ok?;
    assert WalkTableWithJoins(Collect, cx, select.from[0], inner).Ok?;
    assert WalkFactor(Collect, cx, select.from[0].relation, inner).Ok?;
  }

  /** A recognised guard reads the same rows in both worlds, whatever its name resolves to. */
  lemma {:induction false} GuardAgrees(cx: Context, w1: World, w2: World, query: Query, env: Env)
    requires Agree(Verify, cx, w1, w2) && IsGuard(query, cx)
    requires WalkQuery(Collect, cx, query, NamesOf(env)).Ok?
    ensures EvalQuery(w1, query, env, []) == EvalQuery(w2, query, env, [])
  {
    var relation := query.body.select.from[0].relation;
    var name := ReadObjectName(relation.name).value;
    var policy := DecideName(cx, name).policy;
    AcceptedGuardIsPlain(cx, query, NamesOf(env));
    PolicyIsSound(cx, name);
    GuardReadsPermittedRows(w1, relation, policy, name, env);
    GuardReadsPermittedRows(w2, relation, policy, name, env);
    ReadsAgree(Verify, cx, w1, w2, name, env);
  }

  // ----- The induction over the tree -----------------------------------------------------------------

  lemma {:induction false} SameQuery(visitor: Visitor, cx: Context, w1: World, w2: World, query: Query, env: Env,
                                     outer: Stack)
    requires Agree(visitor, cx, w1, w2)
    requires Clean(WalkQuery(visitor, cx, query, NamesOf(env)))
    requires WalkQuery(Collect, cx, query, NamesOf(env)).Ok?
    ensures EvalQuery(w1, WalkQuery(visitor, cx, query, NamesOf(env)).value.node, env, outer)
         == EvalQuery(w2, query, env, outer)
    decreases query, 2, 0
  {
    SameCtes(visitor, cx, w1, w2, query.recursive, query.ctes, env);
    var inner := EvalCtes(w2, query.recursive, query.ctes, env);
    if inner.Ok? {
      CtesExtendScope(w2, query.recursive, query.ctes, env);
      SameBody(visitor, cx, w1, w2, query.body, inner.value, outer);
      var produced := EvalBody(w2, query.body, inner.value, outer);
      if produced.Ok? {
        SameMatrix(visitor, cx, w1, w2, query.orderBy, inner.value, OrderStacks(produced.value));
        SameExprs(visitor, cx, w1, w2, query.limit, inner.value, outer);
      }
    }
  }

  lemma {:induction false} SameCtes(visitor: Visitor, cx: Context, w1: World, w2: World, recursive: bool,
                                    ctes: seq<Cte>, env: Env)
    requires Agree(visitor, cx, w1, w2)
    requires Clean(WalkCtes(visitor, cx, recursive, ctes, NamesOf(env)))
    requires WalkCtes(Collect, cx, recursive, ctes, NamesOf(env)).Ok?
    ensures EvalCtes(w1, recursive, WalkCtes(visitor, cx, recursive, ctes, NamesOf(env)).value.node, env)
         == EvalCtes(w2, recursive, ctes, env)
    decreases ctes, 0, 0
  {
    if ctes != [] {
      var named := NamesOf(env) + [ctes[0].name];
      var node := WalkCtes(visitor, cx, recursive, ctes, NamesOf(env)).value.node;
      assert node[1..] == WalkCtes(visitor, cx, recursive, ctes[1..], named).value.node;
      SameCte(visitor, cx, w1, w2, recursive, ctes[0], env);
      var relation := EvalCte(w2, recursive, ctes[0], env);
      if relation.Ok? {
        var grown := env + [CteBinding(ctes[0].name, relation.value)];
        assert NamesOf(grown) == named;
        SameCtes(visitor, cx, w1, w2, recursive, ctes[1..], grown);
      }
    }
  }

  lemma {:induction false} CtesExtendScope(w: World, recursive: bool, ctes: seq<Cte>, env: Env)
    ensures var inner := EvalCtes(w, recursive, ctes, env);
            inner.Ok? ==> NamesOf(inner.value) == NamesOf(env) + CteNames(ctes)
  {
    if ctes == [] {
      assert NamesOf(env) + CteNames(ctes) == NamesOf(env);
    } else {
      var relation := EvalCte(w, recursive, ctes[0], env);
      if relation.Ok? {
        var grown := env + [CteBinding(ctes[0].name, relation.value)];
        CtesExtendScope(w, recursive, ctes[1..], grown);
        assert NamesOf(grown) + CteNames(ctes[1..]) == NamesOf(env) + CteNames(ctes);
      }
    }
  }

  lemma {:induction false} SameCte(visitor: Visitor, cx: Context, w1: World, w2: World, recursive: bool, cte: Cte,
                                   env: Env)
    requires Agree(visitor, cx, w1, w2)
    requires Clean(WalkQuery(visitor, cx, cte.query, BodyScope(recursive, cte, NamesOf(env))))
    requires WalkQuery(Collect, cx, cte.query, BodyScope(recursive, cte, NamesOf(env))).Ok?
    ensures var node := WalkQuery(visitor, cx, cte.query, BodyScope(recursive, cte, NamesOf(env))).value.node;
            EvalCte(w1, recursive, cte.(query := node), env) == EvalCte(w2, recursive, cte, env)
    decreases cte, 4, 0
  {
    if recursive {
      SameUnroll(visitor, cx, w1, w2, cte.name, cte.query, env, w1.dialect.rounds);
    } else {
      SameQuery(visitor, cx, w1, w2, cte.query, env, []);
    }
  }

  lemma {:induction false} SameUnroll(visitor: Visitor, cx: Context, w1: World, w2: World, name: string, query: Query,
                                      env: Env, rounds: nat)
    requires Agree(visitor, cx, w1, w2)
    requires Clean(WalkQuery(visitor, cx, query, NamesOf(env) + [name]))
    requires WalkQuery(Collect, cx, query, NamesOf(env) + [name]).Ok?
    ensures Unroll(w1, name, WalkQuery(visitor, cx, query, NamesOf(env) + [name]).value.node, env, rounds)
         == Unroll(w2, name, query, env, rounds)
    decreases query, 3, rounds
  {
    if rounds > 0 {
      SameUnroll(visitor, cx, w1, w2, name, query, env, rounds - 1);
      var previous := Unroll(w2, name, query, env, rounds - 1);
      if previous.Ok? {
        var grown := env + [CteBinding(name, previous.value)];
        assert NamesOf(grown) == NamesOf(env) + [name];
        SameQuery(visitor, cx, w1, w2, query, grown, []);
      }
    }
  }

  lemma {:induction false} SameBody(visitor: Visitor, cx: Context, w1: World, w2: World, body: SetExpr, env: Env,
                                    outer: Stack)
    requires Agree(visitor, cx, w1, w2)
    requires Clean(WalkSetExpr(visitor, cx, body, NamesOf(env)))
    requires WalkSetExpr(Collect, cx, body, NamesOf(env)).Ok?
    ensures EvalBody(w1, WalkSetExpr(visitor, cx, body, NamesOf(env)).value.node, env, outer)
         == EvalBody(w2, body, env, outer)
    decreases body, 2, 0
  {
    match body
    case SelectBody(select) => SameSelect(visitor, cx, w1, w2, select, env, outer);
    case QueryBody(query) => SameQuery(visitor, cx, w1, w2, query, env, outer);
    case SetOperation(_, left, right) =>
      SameBody(visitor, cx, w1, w2, left, env, outer);
      SameBody(visitor, cx, w1, w2, right, env, outer);
    case ValuesBody(_, cells) => SameExprs(visitor, cx, w1, w2, cells, env, outer);
    case OtherBody =>
  }

  lemma {:induction false} SameSelect(visitor: Visitor, cx: Context, w1: World, w2: World, select: Select, env: Env,
                                      outer: Stack)
    requires Agree(visitor, cx, w1, w2)
    requires Clean(WalkSelect(visitor, cx, select, NamesOf(env)))
    requires WalkSelect(Collect, cx, select, NamesOf(env)).Ok?
    ensures EvalSelect(w1, WalkSelect(visitor, cx, select, NamesOf(env)).value.node, env, outer)
         == EvalSelect(w2, select, env, outer)
    decreases select, 2, 0
  {
    SameFrom(visitor, cx, w1, w2, select.from, env, outer);
    var from := EvalFrom(w2, select.from, env, outer);
    if from.Ok? {
      var stacks := RowStacks(from.value.bindings, from.value.rows, outer);
      SameMatrix(visitor, cx, w1, w2, select.selection, env, stacks);
      var conditions := EvalMatrix(w2, select.selection, env, stacks);
      if conditions.Ok? {
        var kept := KeepTrue(w2.dialect, from.value.rows, conditions.value);
        SameGroups(visitor, cx, w1, w2, select, from.value.bindings, kept, env, outer);
      }
    }
  }

  lemma {:induction false} SameGroups(visitor: Visitor, cx: Context, w1: World, w2: World, select: Select,
                                      bindings: seq<Binding>, kept: seq<Row>, env: Env, outer: Stack)
    requires Agree(visitor, cx, w1, w2)
    requires Clean(WalkSelect(visitor, cx, select, NamesOf(env)))
    requires WalkSelect(Collect, cx, select, NamesOf(env)).Ok?
    ensures EvalGroups(w1, WalkSelect(visitor, cx, select, NamesOf(env)).value.node, bindings, kept, env, outer)
         == EvalGroups(w2, select, bindings, kept, env, outer)
    decreases select, 1, 1
  {
    var d := w2.dialect;
    var rowStacks := RowStacks(bindings, kept, outer);
    SameMatrix(visitor, cx, w1, w2, select.groupBy, env, rowStacks);
    ItemsKeepShape(visitor, cx, d, select.projection, NamesOf(env));
    ExprsKeepShape(visitor, cx, d, select.having, NamesOf(env));
    var keys := EvalMatrix(w2, select.groupBy, env, rowStacks);
    if keys.Ok? {
      var grouped := select.groupBy != [] || ItemsAggregate(d, select.projection)
                  || AnyAggregates(d, select.having);
      var groups := if grouped then d.group(keys.value, kept) else Singletons(kept);
      var stacks := GroupStacks(bindings, groups, outer);
      SameMatrix(visitor, cx, w1, w2, select.having, env, stacks);
      var having := EvalMatrix(w2, select.having, env, stacks);
      if having.Ok? {
        SameProjection(visitor, cx, w1, w2, select, bindings,
                       GroupStacks(bindings, KeepTrue(d, groups, having.value), outer), env);
      }
    }
  }

  lemma {:induction false} SameProjection(visitor: Visitor, cx: Context, w1: World, w2: World, select: Select,
                                          bindings: seq<Binding>, stacks: seq<Stack>, env: Env)
    requires Agree(visitor, cx, w1, w2)
    requires Clean(WalkSelect(visitor, cx, select, NamesOf(env)))
    requires WalkSelect(Collect, cx, select, NamesOf(env)).Ok?
    ensures EvalProjection(w1, WalkSelect(visitor, cx, select, NamesOf(env)).value.node, bindings, stacks, env)
         == EvalProjection(w2, select, bindings, stacks, env)
    decreases select, 1, 0
  {
    SameItemMatrix(visitor, cx, w1, w2, select.projection, env, stacks);
    ItemsKeepColumns(visitor, cx, w2.dialect, select.projection, bindings, NamesOf(env));
  }

  lemma {:induction false} ItemsKeepShape(visitor: Visitor, cx: Context, d: Dialect, items: seq<SelectItem>,
                                          scope: seq<string>)
    requires WalkItems(visitor, cx, items, scope).Ok?
    ensures ItemsAggregate(d, WalkItems(visitor, cx, items, scope).value.node) == ItemsAggregate(d, items)
  {
    if items != [] {
      var node := WalkItems(visitor, cx, items, scope).value.node;
      assert node[1..] == WalkItems(visitor, cx, items[1..], scope).value.node;
      ItemsKeepShape(visitor, cx, d, items[1..], scope);
      if items[0].ItemExpr? {
        ExprKeepsShape(visitor, cx, d, items[0].expr, scope);
      }
    }
  }

  lemma {:induction false} ItemsKeepColumns(visitor: Visitor, cx: Context, d: Dialect, items: seq<SelectItem>,
                                            bindings: seq<Binding>, scope: seq<string>)
    requires WalkItems(visitor, cx, items, scope).Ok?
    ensures ItemColumns(d, WalkItems(visitor, cx, items, scope).value.node, bindings)
         == ItemColumns(d, items, bindings)
  {
    if items != [] {
      var node := WalkItems(visitor, cx, items, scope).value.node;
      assert node[1..] == WalkItems(visitor, cx, items[1..], scope).value.node;
      ItemsKeepColumns(visitor, cx, d, items[1..], bindings, scope);
      if items[0].ItemExpr? {
        assert Label(WalkExpr(visitor, cx, items[0].expr, scope).value.node) == Label(items[0].expr);
      }
    }
  }

  lemma {:induction false} ExprKeepsShape(visitor: Visitor, cx: Context, d: Dialect, expr: Expr, scope: seq<string>)
    requires WalkExpr(visitor, cx, expr, scope).Ok?
    ensures Aggregates(d, WalkExpr(visitor, cx, expr, scope).value.node) == Aggregates(d, expr)
    decreases expr, 1
  {
    match expr
    case Apply(_, operands) => ExprsKeepShape(visitor, cx, d, operands, scope);
    case InSubquery(needle, _, _) => ExprKeepsShape(visitor, cx, d, needle, scope);
    case _ =>
  }

  lemma {:induction false} ExprsKeepShape(visitor: Visitor, cx: Context, d: Dialect, exprs: seq<Expr>,
                                          scope: seq<string>)
    requires WalkExprs(visitor, cx, exprs, scope).Ok?
    ensures AnyAggregates(d, WalkExprs(visitor, cx, exprs, scope).value.node) == AnyAggregates(d, exprs)
    decreases exprs, 0
  {
    if exprs != [] {
      var node := WalkExprs(visitor, cx, exprs, scope).value.node;
      assert node[1..] == WalkExprs(visitor, cx, exprs[1..], scope).value.node;
      ExprKeepsShape(visitor, cx, d, exprs[0], scope);
      ExprsKeepShape(visitor, cx, d, exprs[1..], scope);
    }
  }

  lemma {:induction false} SameItemMatrix(visitor: Visitor, cx: Context, w1: World, w2: World, items: seq<SelectItem>,
                                          env: Env, stacks: seq<Stack>)
    requires Agree(visitor, cx, w1, w2)
    requires Clean(WalkItems(visitor, cx, items, NamesOf(env)))
    requires WalkItems(Collect, cx, items, NamesOf(env)).Ok?
    ensures EvalItemMatrix(w1, WalkItems(visitor, cx, items, NamesOf(env)).value.node, env, stacks)
         == EvalItemMatrix(w2, items, env, stacks)
    decreases items, 1, |stacks|
  {
    if stacks != [] {
      SameItems(visitor, cx, w1, w2, items, env, stacks[0]);
      SameItemMatrix(visitor, cx, w1, w2, items, env, stacks[1..]);
    }
  }

  lemma {:induction false} SameItems(visitor: Visitor, cx: Context, w1: World, w2: World, items: seq<SelectItem>,
                                     env: Env, stack: Stack)
    requires Agree(visitor, cx, w1, w2)
    requires Clean(WalkItems(visitor, cx, items, NamesOf(env)))
    requires WalkItems(Collect, cx, items, NamesOf(env)).Ok?
    ensures EvalItems(w1, WalkItems(visitor, cx, items, NamesOf(env)).value.node, env, stack)
         == EvalItems(w2, items, env, stack)
    decreases items, 0, 0
  {
    if items != [] {
      var node := WalkItems(visitor, cx, items, NamesOf(env)).value.node;
      assert node[1..] == WalkItems(visitor, cx, items[1..], NamesOf(env)).value.node;
      SameItem(visitor, cx, w1, w2, items[0], env, stack);
      SameItems(visitor, cx, w1, w2, items[1..], env, stack);
    }
  }

  lemma {:induction false} SameItem(visitor: Visitor, cx: Context, w1: World, w2: World, item: SelectItem, env: Env,
                                    stack: Stack)
    requires Agree(visitor, cx, w1, w2)
    requires Clean(WalkItem(visitor, cx, item, NamesOf(env)))
    requires WalkItem(Collect, cx, item, NamesOf(env)).Ok?
    ensures EvalItem(w1, WalkItem(visitor, cx, item, NamesOf(env)).value.node, env, stack)
         == EvalItem(w2, item, env, stack)
    decreases item, 2, 0
  {
    if item.ItemExpr? {
      SameExpr(visitor, cx, w1, w2, item.expr, env, stack);
    }
  }

  lemma {:induction false} SameFrom(visitor: Visitor, cx: Context, w1: World, w2: World, from: seq<TableWithJoins>,
                                    env: Env, outer: Stack)
    requires Agree(visitor, cx, w1, w2)
    requires Clean(WalkFrom(visitor, cx, from, NamesOf(env)))
    requires WalkFrom(Collect, cx, from, NamesOf(env)).Ok?
    ensures EvalFrom(w1, WalkFrom(visitor, cx, from, NamesOf(env)).value.node, env, outer)
         == EvalFrom(w2, from, env, outer)
    decreases from, 0, 0
  {
    if from != [] {
      var node := WalkFrom(visitor, cx, from, NamesOf(env)).value.node;
      assert node[1..] == WalkFrom(visitor, cx, from[1..], NamesOf(env)).value.node;
      SameTable(visitor, cx, w1, w2, from[0], env, outer);
      SameFrom(visitor, cx, w1, w2, from[1..], env, outer);
    }
  }

  lemma {:induction false} SameTable(visitor: Visitor, cx: Context, w1: World, w2: World, table: TableWithJoins,
                                     env: Env, outer: Stack)
    requires Agree(visitor, cx, w1, w2)
    requires Clean(WalkTableWithJoins(visitor, cx, table, NamesOf(env)))
    requires WalkTableWithJoins(Collect, cx, table, NamesOf(env)).Ok?
    ensures EvalTableWithJoins(w1, WalkTableWithJoins(visitor, cx, table, NamesOf(env)).value.node, env, outer)
         == EvalTableWithJoins(w2, table, env, outer)
    decreases table, 2, 0
  {
    SameFactor(visitor, cx, w1, w2, table.relation, env, outer);
    var source := EvalFactor(w2, table.relation, env, outer);
    if source.Ok? {
      SameJoins(visitor, cx, w1, w2, source.value, table.joins, env, outer);
    }
  }

  lemma {:induction false} SameJoins(visitor: Visitor, cx: Context, w1: World, w2: World, left: Source,
                                     joins: seq<Join>, env: Env, outer: Stack)
    requires Agree(visitor, cx, w1, w2)
    requires Clean(WalkJoins(visitor, cx, joins, NamesOf(env)))
    requires WalkJoins(Collect, cx, joins, NamesOf(env)).Ok?
    ensures EvalJoins(w1, left, WalkJoins(visitor, cx, joins, NamesOf(env)).value.node, env, outer)
         == EvalJoins(w2, left, joins, env, outer)
    decreases joins, 0, 0
  {
    if joins != [] {
      var node := WalkJoins(visitor, cx, joins, NamesOf(env)).value.node;
      assert node[1..] == WalkJoins(visitor, cx, joins[1..], NamesOf(env)).value.node;
      assert Clean(WalkJoin(visitor, cx, joins[0], NamesOf(env)));
      assert WalkJoin(Collect, cx, joins[0], NamesOf(env)).Ok?;
      SameFactor(visitor, cx, w1, w2, joins[0].relation, env, outer);
      var right := EvalFactor(w2, joins[0].relation, env, outer);
      if right.Ok? {
        var stacks := RowStacks(left.bindings + right.value.bindings, Pairs(left.rows, right.value.rows), outer);
        SameMatrix(visitor, cx, w1, w2, joins[0].on, env, stacks);
        var on := EvalMatrix(w2, joins[0].on, env, stacks);
        if on.Ok? {
          var shape := JoinShape(joins[0].kind, joins[0].on != [], joins[0].using, joins[0].natural);
          var joined := w2.dialect.join(shape, left, right.value, on.value);
          if joined.Ok? {
            SameJoins(visitor, cx, w1, w2, joined.value, joins[1..], env, outer);
          }
        }
      }
    }
  }

  lemma {:induction false} SameFactor(visitor: Visitor, cx: Context, w1: World, w2: World, factor: TableFactor,
                                      env: Env, outer: Stack)
    requires Agree(visitor, cx, w1, w2)
    requires Clean(WalkFactor(visitor, cx, factor, NamesOf(env)))
    requires WalkFactor(Collect, cx, factor, NamesOf(env)).Ok?
    ensures EvalFactor(w1, WalkFactor(visitor, cx, factor, NamesOf(env)).value.node, env, outer)
         == EvalFactor(w2, factor, env, outer)
    decreases factor, 2, 0
  {
    match factor
    case Table(_, _, _) => SameRelation(visitor, cx, w1, w2, factor, env, outer);
    case Derived(_, _, subquery, _) =>
      if visitor == Verify && IsGuard(subquery, cx) {
        GuardAgrees(cx, w1, w2, subquery, env);
      } else {
        SameQuery(visitor, cx, w1, w2, subquery, env, []);
      }
    case NestedJoin(inner, _) => SameTable(visitor, cx, w1, w2, inner, env, outer);
    case OtherFactor =>
  }

  lemma {:induction false} SameMatrix(visitor: Visitor, cx: Context, w1: World, w2: World, exprs: seq<Expr>, env: Env,
                                      stacks: seq<Stack>)
    requires Agree(visitor, cx, w1, w2)
    requires Clean(WalkExprs(visitor, cx, exprs, NamesOf(env)))
    requires WalkExprs(Collect, cx, exprs, NamesOf(env)).Ok?
    ensures EvalMatrix(w1, WalkExprs(visitor, cx, exprs, NamesOf(env)).value.node, env, stacks)
         == EvalMatrix(w2, exprs, env, stacks)
    decreases exprs, 1, |stacks|
  {
    if stacks != [] {
      SameExprs(visitor, cx, w1, w2, exprs, env, stacks[0]);
      SameMatrix(visitor, cx, w1, w2, exprs, env, stacks[1..]);
    }
  }

  lemma {:induction false} SameExprs(visitor: Visitor, cx: Context, w1: World, w2: World, exprs: seq<Expr>, env: Env,
                                     stack: Stack)
    requires Agree(visitor, cx, w1, w2)
    requires Clean(WalkExprs(visitor, cx, exprs, NamesOf(env)))
    requires WalkExprs(Collect, cx, exprs, NamesOf(env)).Ok?
    ensures EvalExprs(w1, WalkExprs(visitor, cx, exprs, NamesOf(env)).value.node, env, stack)
         == EvalExprs(w2, exprs, env, stack)
    decreases exprs, 0, 0
  {
    if exprs != [] {
      var node := WalkExprs(visitor, cx, exprs, NamesOf(env)).value.node;
      assert node[1..] == WalkExprs(visitor, cx, exprs[1..], NamesOf(env)).value.node;
      SameExpr(visitor, cx, w1, w2, exprs[0], env, stack);
      SameExprs(visitor, cx, w1, w2, exprs[1..], env, stack);
    }
  }

  lemma {:induction false} SameExpr(visitor: Visitor, cx: Context, w1: World, w2: World, expr: Expr, env: Env,
                                    stack: Stack)
    requires Agree(visitor, cx, w1, w2)
    requires Clean(WalkExpr(visitor, cx, expr, NamesOf(env)))
    requires WalkExpr(Collect, cx, expr, NamesOf(env)).Ok?
    ensures EvalExpr(w1, WalkExpr(visitor, cx, expr, NamesOf(env)).value.node, env, stack)
         == EvalExpr(w2, expr, env, stack)
    decreases expr, 2, 0
  {
    match expr
    case Apply(_, operands) =>
      SameExprs(visitor, cx, w1, w2, operands, env, stack);
      SameMatrix(visitor, cx, w1, w2, operands, env, MemberStacks(stack));
      SameMatrix(visitor, cx, w1, w2, operands, env, PeerStacks(stack));
    case InSubquery(needle, subquery, _) =>
      SameExpr(visitor, cx, w1, w2, needle, env, stack);
      SameQuery(visitor, cx, w1, w2, subquery, env, stack);
    case Exists(subquery, _) => SameQuery(visitor, cx, w1, w2, subquery, env, stack);
    case ScalarSubquery(subquery) => SameQuery(visitor, cx, w1, w2, subquery, env, stack);
    case _ =>
  }
}

/**
 How far the verifier reaches on its own.

 The verifier compares a candidate guard with a guard rebuilt around the candidate's own relation, so
 a hint on that relation cancels out. On a statement the allowlist never saw it may report
 `SELECT * FROM (SELECT * FROM sales.orders TABLESAMPLE ... WHERE region IN ('APAC')) AS o` as fully
 guarded, although a sampling backend lets hidden rows decide which rows come back. Hints on a
 recognised guard are all it misses: everything else the allowlist refuses, the verifier's walk refuses.
 */
module VerifierAlone {
  import opened Common
  import opened SqlAst
  import opened Policies
  import opened Semantics
  import opened Walk
  import opened GuardProofs
  import opened WalkMeaning
  import opened Rewrite
  import opened Enumeration
  import WrapProofs

  // ----- Queries whose recognised guards carry no hints ----------------------------------------------------

  function GuardedRelation(guard: Query, cx: Context): TableFactor
    requires IsGuard(guard, cx)
  {
    guard.body.select.from[0].relation
  }

  predicate PlainQuery(cx: Context, query: Query)
    decreases query, 1
  {
    && (forall i :: 0 <= i < |query.ctes| ==> PlainQuery(cx, query.ctes[i].query))
    && PlainBody(cx, query.body) && PlainExprs(cx, query.orderBy) && PlainExprs(cx, query.limit)
  }

  predicate PlainBody(cx: Context, body: SetExpr)
    decreases body, 1
  {
    match body
    case SelectBody(select) => PlainSelect(cx, select)
    case QueryBody(query) => PlainQuery(cx, query)
    case SetOperation(_, left, right) => PlainBody(cx, left) && PlainBody(cx, right)
    case ValuesBody(_, cells) => PlainExprs(cx, cells)
    case OtherBody => true
  }

  predicate PlainSelect(cx: Context, select: Select)
    decreases select, 1
  {
    && (forall i :: 0 <= i < |select.projection| ==> PlainItem(cx, select.projection[i]))
    && (forall i :: 0 <= i < |select.from| ==> PlainTable(cx, select.from[i]))
    && PlainExprs(cx, select.selection) && PlainExprs(cx, select.groupBy) && PlainExprs(cx, select.having)
  }

  predicate PlainItem(cx: Context, item: SelectItem)
    decreases item, 1
  {
    item.ItemExpr? ==> PlainExpr(cx, item.expr)
  }

  predicate PlainTable(cx: Context, table: TableWithJoins)
    decreases table, 1
  {
    && PlainFactor(cx, table.relation)
    && forall i :: 0 <= i < |table.joins| ==> PlainJoin(cx, table.joins[i])
  }

  predicate PlainJoin(cx: Context, join: Join)
    decreases join, 1
  {
    PlainFactor(cx, join.relation) && PlainExprs(cx, join.on)
  }

  predicate PlainFactor(cx: Context, factor: TableFactor)
    decreases factor, 1
  {
    match factor
    case Derived(_, _, subquery, _) =>
      if IsGuard(subquery, cx) then GuardedRelation(subquery, cx).extras == {} else PlainQuery(cx, subquery)
    case NestedJoin(inner, _) => PlainTable(cx, inner)
    case _ => true
  }

  predicate PlainExprs(cx: Context, exprs: seq<Expr>)
    decreases exprs, 0
  {
    forall i :: 0 <= i < |exprs| ==> PlainExpr(cx, exprs[i])
  }

  predicate PlainExpr(cx: Context, expr: Expr)
    decreases expr, 1
  {
    match expr
    case Apply(_, operands) => PlainExprs(cx, operands)
    case InSubquery(needle, subquery, _) => PlainExpr(cx, needle) && PlainQuery(cx, subquery)
    case Exists(subquery, _) => PlainQuery(cx, subquery)
    case ScalarSubquery(subquery) => PlainQuery(cx, subquery)
    case _ => true
  }

  // ----- What the verifier walks, the allowlist accepts, hints on guards apart -----------------------------

  lemma {:induction false} PlainIsAllowed(cx: Context, query: Query, scope: seq<string>)
    requires WalkQuery(Verify, cx, query, scope).Ok?
    ensures AllowedQuery(query) <==> PlainQuery(cx, query)
    decreases query, 1
  {
    var inner := scope + CteNames(query.ctes);
    CtesAreAllowed(cx, query.recursive, query.ctes, scope);
    BodyIsAllowed(cx, query.body, inner);
    ExprsAreAllowed(cx, query.orderBy, inner);
    ExprsAreAllowed(cx, query.limit, inner);
  }

  lemma {:induction false} CtesAreAllowed(cx: Context, recursive: bool, ctes: seq<Cte>, scope: seq<string>)
    requires WalkCtes(Verify, cx, recursive, ctes, scope).Ok?
    ensures (forall i :: 0 <= i < |ctes| ==> ctes[i].extras == {} && AllowedQuery(ctes[i].query))
       <==> forall i :: 0 <= i < |ctes| ==> PlainQuery(cx, ctes[i].query)
    decreases ctes, 0
  {
    if ctes != [] {
      PlainIsAllowed(cx, ctes[0].query, BodyScope(recursive, ctes[0], scope));
      CtesAreAllowed(cx, recursive, ctes[1..], scope + [ctes[0].name]);
      assert forall i :: 0 < i < |ctes| ==> ctes[i] == ctes[1..][i - 1];
    }
  }

  lemma {:induction false} BodyIsAllowed(cx: Context, body: SetExpr, scope: seq<string>)
    requires WalkSetExpr(Verify, cx, body, scope).Ok?
    ensures AllowedBody(body) <==> PlainBody(cx, body)
    decreases body, 1
  {
    match body
    case SelectBody(select) => SelectIsAllowed(cx, select, scope);
    case QueryBody(query) => PlainIsAllowed(cx, query, scope);
    case SetOperation(_, left, right) =>
      BodyIsAllowed(cx, left, scope);
      BodyIsAllowed(cx, right, scope);
    case ValuesBody(_, cells) => ExprsAreAllowed(cx, cells, scope);
    case OtherBody =>
  }

  lemma {:induction false} SelectIsAllowed(cx: Context, select: Select, scope: seq<string>)
    requires WalkSelect(Verify, cx, select, scope).Ok?
    ensures AllowedSelect(select) <==> PlainSelect(cx, select)
    decreases select, 1
  {
    ItemsAreAllowed(cx, select.projection, scope);
    FromIsAllowed(cx, select.from, scope);
    ExprsAreAllowed(cx, select.selection, scope);
    ExprsAreAllowed(cx, select.groupBy, scope);
    ExprsAreAllowed(cx, select.having, scope);
  }

  lemma {:induction false} ItemsAreAllowed(cx: Context, items: seq<SelectItem>, scope: seq<string>)
    requires WalkItems(Verify, cx, items, scope).Ok?
    ensures (forall i :: 0 <= i < |items| ==> AllowedItem(items[i]))
       <==> forall i :: 0 <= i < |items| ==> PlainItem(cx, items[i])
    decreases items, 0
  {
    if items != [] {
      if items[0].ItemExpr? {
        ExprIsAllowed(cx, items[0].expr, scope);
      }
      ItemsAreAllowed(cx, items[1..], scope);
      assert forall i :: 0 < i < |items| ==> items[i] == items[1..][i - 1];
    }
  }

  lemma {:induction false} FromIsAllowed(cx: Context, from: seq<TableWithJoins>, scope: seq<string>)
    requires WalkFrom(Verify, cx, from, scope).Ok?
    ensures (forall i :: 0 <= i < |from| ==> AllowedTable(from[i]))
       <==> forall i :: 0 <= i < |from| ==> PlainTable(cx, from[i])
    decreases from, 0
  {
    if from != [] {
      TableIsAllowed(cx, from[0], scope);
      FromIsAllowed(cx, from[1..], scope);
      assert forall i :: 0 < i < |from| ==> from[i] == from[1..][i - 1];
    }
  }

  lemma {:induction false} TableIsAllowed(cx: Context, table: TableWithJoins, scope: seq<string>)
    requires WalkTableWithJoins(Verify, cx, table, scope).Ok?
    ensures AllowedTable(table) <==> PlainTable(cx, table)
    decreases table, 1
  {
    FactorIsAllowed(cx, table.relation, scope);
    JoinsAreAllowed(cx, table.joins, scope);
  }

  lemma {:induction false} JoinsAreAllowed(cx: Context, joins: seq<Join>, scope: seq<string>)
    requires WalkJoins(Verify, cx, joins, scope).Ok?
    ensures (forall i :: 0 <= i < |joins| ==> AllowedJoin(joins[i]))
       <==> forall i :: 0 <= i < |joins| ==> PlainJoin(cx, joins[i])
    decreases joins, 0
  {
    if joins != [] {
      FactorIsAllowed(cx, joins[0].relation, scope);
      ExprsAreAllowed(cx, joins[0].on, scope);
      JoinsAreAllowed(cx, joins[1..], scope);
      assert forall i :: 0 < i < |joins| ==> joins[i] == joins[1..][i - 1];
    }
  }

  lemma {:induction false} FactorIsAllowed(cx: Context, factor: TableFactor, scope: seq<string>)
    requires WalkFactor(Verify, cx, factor, scope).Ok?
    ensures AllowedFactor(factor) <==> PlainFactor(cx, factor)
    decreases factor, 1
  {
    match factor
    case Table(name, _, _) => NameReads(name);
    case Derived(_, _, subquery, _) =>
      if IsGuard(subquery, cx) {
        GuardIsAllowedWhenPlain(cx, subquery);
      } else {
        PlainIsAllowed(cx, subquery, scope);
      }
    case NestedJoin(inner, _) => TableIsAllowed(cx, inner, scope);
    case OtherFactor =>
  }

  lemma {:induction false} ExprsAreAllowed(cx: Context, exprs: seq<Expr>, scope: seq<string>)
    requires WalkExprs(Verify, cx, exprs, scope).Ok?
    ensures AllowedExprs(exprs) <==> PlainExprs(cx, exprs)
    decreases exprs, 0
  {
    if exprs != [] {
      ExprIsAllowed(cx, exprs[0], scope);
      ExprsAreAllowed(cx, exprs[1..], scope);
      assert forall i :: 0 < i < |exprs| ==> exprs[i] == exprs[1..][i - 1];
    }
  }

  lemma {:induction false} ExprIsAllowed(cx: Context, expr: Expr, scope: seq<string>)
    requires WalkExpr(Verify, cx, expr, scope).Ok?
    ensures AllowedExpr(expr) <==> PlainExpr(cx, expr)
    decreases expr, 1
  {
    match expr
    case Apply(_, operands) => ExprsAreAllowed(cx, operands, scope);
    case InSubquery(needle, subquery, _) =>
      ExprIsAllowed(cx, needle, scope);
      PlainIsAllowed(cx, subquery, scope);
    case Exists(subquery, _) => PlainIsAllowed(cx, subquery, scope);
    case ScalarSubquery(subquery) => PlainIsAllowed(cx, subquery, scope);
    case _ =>
  }

  /** The verifier does not walk a guard; the allowlist accepts it exactly when its relation has no hints. */
  lemma {:induction false} GuardIsAllowedWhenPlain(cx: Context, guard: Query)
    requires IsGuard(guard, cx)
    ensures AllowedQuery(guard) <==> GuardedRelation(guard, cx).extras == {}
  {
    var relation := GuardedRelation(guard, cx);
    FindsInQuery(cx, guard, []);
    if relation.extras == {} {
      assert WalkFactor(Collect, cx, relation, []).Ok?;
      WrapProofs.GuardIsAllowed(cx, relation, DecideName(cx, ReadObjectName(relation.name).value).policy, []);
    } else if AllowedQuery(guard) {
      AcceptedGuardIsPlain(cx, guard, []);
    }
  }

  /** What the verifier walks without refusing, the allowlist accepts exactly when no recognised guard has hints. */
  lemma {:induction false} WalkedIsAcceptedExactlyWhenPlain(cx: Context, query: Query)
    requires WalkQuery(Verify, cx, query, []).Ok?
    ensures WalkQuery(Collect, cx, query, []).Ok? <==> PlainQuery(cx, query)
  {
    FindsInQuery(cx, query, []);
    PlainIsAllowed(cx, query, []);
  }

  /** The verifier alone is sound for every query none of whose recognised guards has hints. */
  lemma {:induction false} VerifierAloneIsSound(cx: Context, w1: World, w2: World, query: Query)
    requires Agree(Verify, cx, w1, w2)
    requires Clean(WalkQuery(Verify, cx, query, [])) && PlainQuery(cx, query)
    ensures EvalQuery(w1, query, [], []) == EvalQuery(w2, query, [], [])
  {
    WalkedIsAcceptedExactlyWhenPlain(cx, query);
    VerifierIsSound(cx, w1, w2, query);
  }

  // ----- One guard, read through `SELECT *` ------------------------------------------------------------------

  function SelectStar(factor: TableFactor): Query {
    Query({}, false, [], SelectBody(Select({}, false, [ItemWildcard(None, false)],
                                           [TableWithJoins(factor, [])], [], [], [])), "", [], [])
  }

  function Aliased(subquery: Query): TableFactor {
    Derived(false, false, subquery, Some(Alias("o", false, false)))
  }

  lemma {:induction false} SelectStarReads(w: World, subquery: Query)
    ensures EvalQuery(w, SelectStar(Aliased(subquery)), [], []) == EvalQuery(w, subquery, [], [])
  {
    var factor := Aliased(subquery);
    var select := SelectStar(factor).body.select;
    assert EvalTableWithJoins(w, select.from[0], [], []) == EvalFactor(w, factor, [], []);
    assert EvalFrom(w, select.from, [], []) == EvalFactor(w, factor, [], []);
    var read := EvalQuery(w, subquery, [], []);
    if read.Ok? {
      var columns, rows := read.value.columns, read.value.rows;
      var bindings := [Binding(Some("o"), columns)];
      assert EvalFactor(w, factor, [], []) == Ok(Source(bindings, rows));
      NoConditionKeepsAll(w, rows, [], RowStacks(bindings, rows, []));
      StarGroups(w, select, "o", columns, rows, []);
      assert EvalSelect(w, select, [], []) == EvalGroups(w, select, bindings, rows, [], []);
      assert EvalBody(w, SelectBody(select), [], []) == EvalGroups(w, select, bindings, rows, [], []);
    } else {
      assert EvalFactor(w, factor, [], []) == Err(read.error);
      assert EvalSelect(w, select, [], []) == Err(read.error);
      assert EvalBody(w, SelectBody(select), [], []) == Err(read.error);
    }
  }

  /** The verifier finds every recognised guard clean, hints or not. */
  lemma {:induction false} GuardWalks(cx: Context, guard: Query)
    requires IsGuard(guard, cx)
    ensures Clean(WalkQuery(Verify, cx, SelectStar(Aliased(guard)), []))
  {
    var factor := Aliased(guard);
    var none: seq<string> := [];
    assert none + CteNames([]) == none;
    var select := SelectStar(factor).body.select;
    assert select.projection[1..] == [] && select.from[1..] == [];
    assert Clean(WalkFactor(Verify, cx, factor, []));
    assert Clean(WalkTableWithJoins(Verify, cx, select.from[0], []));
    assert Clean(WalkFrom(Verify, cx, select.from, []));
    assert Clean(WalkItems(Verify, cx, select.projection, []));
    assert Clean(WalkSelect(Verify, cx, select, []));
  }

  lemma {:induction false} PlainGuardIsPlainQuery(cx: Context, guard: Query)
    requires IsGuard(guard, cx)
    ensures PlainQuery(cx, SelectStar(Aliased(guard))) <==> GuardedRelation(guard, cx).extras == {}
  {
    var query := SelectStar(Aliased(guard));
    var select := query.body.select;
    var none: seq<Expr> := [];
    assert PlainExprs(cx, none) && PlainItem(cx, select.projection[0]);
    assert PlainFactor(cx, select.from[0].relation) <==> GuardedRelation(guard, cx).extras == {};
    assert PlainTable(cx, select.from[0]) <==> PlainFactor(cx, select.from[0].relation);
    assert PlainSelect(cx, select) <==> PlainTable(cx, select.from[0]);
    assert PlainBody(cx, query.body) <==> PlainSelect(cx, select);
  }

  // ----- A backend whose sampling hint keeps the first stored row --------------------------------------------

  function SamplingDialect(): Dialect {
    Dialect(w => Null, (a, b) => if a == b then Num(1) else Num(0), v => false, (a, b) => a == b,
            (op, vs) => Null, (h, here, members, peers) => Null, h => false, r => Ok(Null),
            (v, r) => Null, (shape, l, r, on) => Ok(l), (op, l, r) => Ok(l), (keys, rows) => [rows],
            rows => [], (o, k, l, n) => [], (width, vs) => Semantics.Relation([], []),
            (extras, r: Semantics.Relation) => FirstRow(r), 0)
  }

  function FirstRow(r: Semantics.Relation): Semantics.Relation {
    Semantics.Relation(r.columns, if r.rows == [] then [] else [r.rows[0]])
  }

  const HIDDEN: Row := [Null]

  function Visible(policy: Policy): Row
    requires policy.permitted != []
  {
    [PermittedAs(policy.permitted[0])]
  }

  /** A backend that stores one table, of one column. */
  function Holding(key: TableKey, column: string, rows: seq<Row>, current: Option<string>): World {
    World(SamplingDialect(),
          (database, table) => if KeyOf(database, table) == key then Ok(Semantics.Relation([column], rows))
                               else Err(UnknownTable),
          current)
  }

  lemma {:induction false} OnlyVisibleIsPermitted(policy: Policy)
    requires policy.permitted != []
    ensures KeepPermitted(SamplingDialect(), policy, [policy.column], [HIDDEN]) == Ok([])
    ensures KeepPermitted(SamplingDialect(), policy, [policy.column], [Visible(policy)]) == Ok([Visible(policy)])
    ensures KeepPermitted(SamplingDialect(), policy, [policy.column], [HIDDEN, Visible(policy)])
         == Ok([Visible(policy)])
  {
    var d, columns, visible := SamplingDialect(), [policy.column], Visible(policy);
    assert columns[1..] == [];
    assert ColumnPositions(d, columns, policy.column, 0) == [0] + [] == [0];
    assert d.equal(At(visible, 0), PermittedAs(policy.permitted[0])) == Num(1);
    assert Permits(d, policy, At(visible, 0)) && !Permits(d, policy, At(HIDDEN, 0));
    var none: seq<Row> := [];
    assert KeepPermitted(d, policy, columns, none) == Ok(none);
    assert [HIDDEN][1..] == none && [visible][1..] == none && [HIDDEN, visible][1..] == [visible];
    assert [visible] + none == [visible] && none + none == none && none + [visible] == [visible];
    assert KeepPermitted(d, policy, columns, [visible]) == Ok([visible]);
  }

  /** Where the guard's relation is stored: in the database it names, or else in the current one. */
  function StoredAs(cx: Context, name: TableName): TableKey
    requires DecideName(cx, name).Restricted?
  {
    KeyOf(if name.qualifier.Some? then name.qualifier.value else cx.current.value, name.leaf)
  }

  lemma {:induction false} WorldsAgree(cx: Context, name: TableName)
    requires SoundPolicies(cx) && DecideName(cx, name).Restricted? && DecideName(cx, name).policy.permitted != []
    ensures var policy := DecideName(cx, name).policy;
            Agree(Verify, cx, Holding(StoredAs(cx, name), policy.column, [HIDDEN, Visible(policy)], cx.current),
                  Holding(StoredAs(cx, name), policy.column, [Visible(policy)], cx.current))
  {
    var key, policy := StoredAs(cx, name), DecideName(cx, name).policy;
    var w1 := Holding(key, policy.column, [HIDDEN, Visible(policy)], cx.current);
    var w2 := Holding(key, policy.column, [Visible(policy)], cx.current);
    OnlyVisibleIsPermitted(policy);
    forall database, table
      ensures TableAgrees(Verify, w1.dialect, Lookup(cx.policies, cx.user, Some(database), table, cx.current),
                          w1.database(database, table), w2.database(database, table))
    {
      var decision := Lookup(cx.policies, cx.user, Some(database), table, cx.current);
      assert KeyOf(database, table) == key ==> decision == Restricted(policy);
      assert Permitted(w1.dialect, policy, w1.database(database, table))
          == Permitted(w2.dialect, policy, w2.database(database, table));
    }
  }

  /** With a hint, the first stored row decides whether the guard lets anything through. */
  lemma {:induction false} HintedGuardReads(cx: Context, guard: Query, rows: seq<Row>)
    requires IsGuard(guard, cx) && GuardedRelation(guard, cx).extras != {} && SoundPolicies(cx)
    requires var policy := DecideName(cx, ReadObjectName(GuardedRelation(guard, cx).name).value).policy;
             policy.permitted != [] && (rows == [HIDDEN, Visible(policy)] || rows == [Visible(policy)])
    ensures var name := ReadObjectName(GuardedRelation(guard, cx).name).value;
            var policy := DecideName(cx, name).policy;
            EvalQuery(Holding(StoredAs(cx, name), policy.column, rows, cx.current), guard, [], [])
            == Ok(Semantics.Relation([policy.column], if rows[0] == HIDDEN then [] else [Visible(policy)]))
  {
    var relation := GuardedRelation(guard, cx);
    var name := ReadObjectName(relation.name).value;
    var policy := DecideName(cx, name).policy;
    var w := Holding(StoredAs(cx, name), policy.column, rows, cx.current);
    PolicyIsSound(cx, name);
    GuardReadsPermittedRows(w, relation, policy, name, []);
    OnlyVisibleIsPermitted(policy);
    assert ReadTable(w, name, []) == Ok(Semantics.Relation([policy.column], rows));
    assert Effective(w, name, relation.extras, []) == Ok(Semantics.Relation([policy.column], [rows[0]]));
  }

  /**
   A recognised guard means the same on all worlds that agree on the permitted rows exactly when its relation has no
   hints; and so does a query that reads through it, which the verifier finds clean in either case.
   */
  lemma {:induction false} GuardIsSoundExactlyWithoutHints(cx: Context, guard: Query)
    requires IsGuard(guard, cx) && SoundPolicies(cx)
    requires DecideName(cx, ReadObjectName(GuardedRelation(guard, cx).name).value).policy.permitted != []
    ensures Clean(WalkQuery(Verify, cx, SelectStar(Aliased(guard)), []))
    ensures (forall w1, w2 | Agree(Verify, cx, w1, w2) ::
               EvalQuery(w1, SelectStar(Aliased(guard)), [], []) == EvalQuery(w2, SelectStar(Aliased(guard)), [], []))
       <==> GuardedRelation(guard, cx).extras == {}
    ensures (forall w1, w2 | Agree(Verify, cx, w1, w2) :: EvalQuery(w1, guard, [], []) == EvalQuery(w2, guard, [], []))
       <==> GuardedRelation(guard, cx).extras == {}
  {
    GuardWalks(cx, guard);
    forall w: World
      ensures EvalQuery(w, SelectStar(Aliased(guard)), [], []) == EvalQuery(w, guard, [], [])
    {
      SelectStarReads(w, guard);
    }
    if GuardedRelation(guard, cx).extras == {} {
      PlainGuardIsPlainQuery(cx, guard);
      forall w1, w2 | Agree(Verify, cx, w1, w2)
        ensures EvalQuery(w1, SelectStar(Aliased(guard)), [], []) == EvalQuery(w2, SelectStar(Aliased(guard)), [], [])
      {
        VerifierAloneIsSound(cx, w1, w2, SelectStar(Aliased(guard)));
      }
    } else {
      var w1, w2 := HintedGuardTells(cx, guard);
      assert EvalQuery(w1, SelectStar(Aliased(guard)), [], []) != EvalQuery(w2, SelectStar(Aliased(guard)), [], []);
    }
  }

  lemma {:induction false} HintedGuardTells(cx: Context, guard: Query) returns (w1: World, w2: World)
    requires IsGuard(guard, cx) && GuardedRelation(guard, cx).extras != {} && SoundPolicies(cx)
    requires DecideName(cx, ReadObjectName(GuardedRelation(guard, cx).name).value).policy.permitted != []
    ensures Agree(Verify, cx, w1, w2)
    ensures EvalQuery(w1, guard, [], []) != EvalQuery(w2, guard, [], [])
  {
    var name := ReadObjectName(GuardedRelation(guard, cx).name).value;
    var policy := DecideName(cx, name).policy;
    var rows1, rows2 := [HIDDEN, Visible(policy)], [Visible(policy)];
    w1 := Holding(StoredAs(cx, name), policy.column, rows1, cx.current);
    w2 := Holding(StoredAs(cx, name), policy.column, rows2, cx.current);
    WorldsAgree(cx, name);
    HintedGuardReads(cx, guard, rows1);
    HintedGuardReads(cx, guard, rows2);
  }

  // ----- A statement the allowlist refuses and the verifier alone would pass ----------------------------------

  const POLICY := Policy("sales", "orders", "region", [PermittedText("APAC")])
  const SAMPLED := Table([Ident("sales"), Ident("orders")], None, {Sample})

  function Analyst(): Context {
    Context("analyst", None, PolicySet(map["analyst" := map[KeyOf("sales", "orders") := POLICY]]))
  }

  lemma {:induction false} SampledIsGuard()
    ensures IsGuard(GuardQuery(SAMPLED, POLICY), Analyst()) && SoundPolicies(Analyst())
    ensures GuardedRelation(GuardQuery(SAMPLED, POLICY), Analyst()) == SAMPLED
    ensures DecideName(Analyst(), ReadObjectName(SAMPLED.name).value).policy == POLICY
  {
  }

  lemma {:induction false} VerifierAloneAcceptsHintedGuard()
    ensures var query := SelectStar(Aliased(GuardQuery(SAMPLED, POLICY)));
            && Clean(WalkQuery(Verify, Analyst(), query, []))
            && WalkQuery(Collect, Analyst(), query, []).Err?
            && exists w1, w2 :: Agree(Verify, Analyst(), w1, w2)
                                && EvalQuery(w1, query, [], []) != EvalQuery(w2, query, [], [])
  {
    hide WalkQuery, EvalQuery, PlainQuery, IsGuard, GuardQuery, Agree;
    var cx, guard := Analyst(), GuardQuery(SAMPLED, POLICY);
    SampledIsGuard();
    GuardIsSoundExactlyWithoutHints(cx, guard);
    PlainGuardIsPlainQuery(cx, guard);
    WalkedIsAcceptedExactlyWhenPlain(cx, SelectStar(Aliased(guard)));
  }
}

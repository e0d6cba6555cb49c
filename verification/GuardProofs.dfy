/** A guard reads exactly the permitted rows of its relation. */
module GuardProofs {
  import opened Common
  import opened SqlAst
  import opened Policies
  import opened Semantics
  import Walk

  function PermittedAs(value: PermittedValue): Value {
    match value
    case PermittedText(text) => Str(text)
    case PermittedInteger(number) => Num(number)
  }

  /** The policy lets a row through when its column equals some permitted value. */
  predicate Permits(d: Dialect, policy: Policy, v: Value) {
    exists i :: 0 <= i < |policy.permitted| && d.equal(v, PermittedAs(policy.permitted[i])) == Num(1)
  }

  function KeepPermitted(d: Dialect, policy: Policy, columns: seq<string>, rows: seq<Row>)
    : Outcome<seq<Row>>
  {
    if rows == [] then
      Ok([])
    else
      var positions := ColumnPositions(d, columns, policy.column, 0);
      if positions == [] then Err(UnknownColumn)
      else if |positions| > 1 then Err(AmbiguousColumn)
      else
        var rest :- KeepPermitted(d, policy, columns, rows[1..]);
        Ok((if Permits(d, policy, At(rows[0], positions[0])) then [rows[0]] else []) + rest)
  }

  /** The permitted rows of a relation; reading a relation without the policy column is a fault. */
  function PermittedRows(d: Dialect, policy: Policy, relation: Relation): Outcome<Relation> {
    var rows :- KeepPermitted(d, policy, relation.columns, relation.rows);
    Ok(Relation(relation.columns, rows))
  }

  /** What the loader guarantees of every permitted text. */
  predicate Transmissible(policy: Policy) {
    forall i :: 0 <= i < |policy.permitted| && policy.permitted[i].PermittedText? ==>
      '\\' !in policy.permitted[i].text
  }

  /** A permitted value's literal, once read back, denotes the configured value. */
  lemma {:induction false} ReadBackDenotes(w: World, value: PermittedValue, env: Env, stack: Stack)
    requires value.PermittedText? ==> '\\' !in value.text
    ensures EvalExpr(w, Walk.ReadBack(Walk.BuiltLiteral(value)), env, stack) == Ok(PermittedAs(value))
  {
    match value
    case PermittedText(text) =>
      ValueSurvivesExactlyWithoutBackslash(text);
    case PermittedInteger(number) =>
      if number < 0 {
        var minus := [Literal(Number(-number))];
        assert EvalExpr(w, minus[0], env, stack) == Ok(Num(-number));
        assert EvalExprs(w, minus[1..], env, stack) == Ok([]);
        assert [Num(-number)] + [] == [Num(-number)];
        assert EvalExprs(w, minus, env, stack) == Ok([Num(-number)]);
      }
  }

  /** The values of the permitted literals. */
  function PermittedList(policy: Policy): seq<Value> {
    seq(|policy.permitted|, i requires 0 <= i < |policy.permitted| => PermittedAs(policy.permitted[i]))
  }

  lemma {:induction false} LiteralsDenote(w: World, policy: Policy, literals: seq<Expr>, from: nat, env: Env,
                                          stack: Stack)
    requires Transmissible(policy) && from <= |policy.permitted| == |literals|
    requires forall i :: 0 <= i < |literals| ==>
               literals[i] == Walk.ReadBack(Walk.BuiltLiteral(policy.permitted[i]))
    ensures EvalExprs(w, literals[from..], env, stack) == Ok(PermittedList(policy)[from..])
    decreases |literals| - from
  {
    if from == |literals| {
      assert literals[from..] == [] && PermittedList(policy)[from..] == [];
    } else {
      ReadBackDenotes(w, policy.permitted[from], env, stack);
      LiteralsDenote(w, policy, literals, from + 1, env, stack);
      assert literals[from..][1..] == literals[from + 1..];
      assert literals[from..][0] == literals[from];
      var values := PermittedList(policy);
      assert [values[from]] + values[from + 1..] == values[from..];
    }
  }

  /** The injected predicate holds on a row exactly when the policy permits the row. */
  lemma {:induction false} PredicateDecides(w: World, policy: Policy, name: string, columns: seq<string>, row: Row,
                                            env: Env)
    requires Transmissible(policy)
    ensures var stack := [Frame([Binding(Some(name), columns)], [[row]], 0)] + [];
            var positions := ColumnPositions(w.dialect, columns, policy.column, 0);
            var r := EvalExprs(w, [Walk.PolicyPredicate(policy)], env, stack);
            if positions == [] then r == Err(UnknownColumn)
            else if |positions| > 1 then r == Err(AmbiguousColumn)
            else r.Ok? && |r.value| == 1
                 && (Truthy(w.dialect, r.value[0]) <==> Permits(w.dialect, policy, At(row, positions[0])))
  {
    var stack := [Frame([Binding(Some(name), columns)], [[row]], 0)] + [];
    var positions := ColumnPositions(w.dialect, columns, policy.column, 0);
    var predicateExpr := Walk.PolicyPredicate(policy);
    var operands := predicateExpr.operands;
    var literals := operands[1..];
    ColumnResolves(w.dialect, policy.column, name, columns, row);
    assert EvalExpr(w, operands[0], env, stack) == Resolve(w.dialect, [policy.column], stack);
    assert literals[0..] == literals;
    LiteralsDenote(w, policy, literals, 0, env, stack);
    assert PermittedList(policy)[0..] == PermittedList(policy);
    SingleExpr(w, predicateExpr, env, stack);
    if |positions| == 1 {
      var v := At(row, positions[0]);
      var list := EvalExprs(w, literals, env, stack).value;
      assert ([v] + list)[1..] == list;
      assert EvalExpr(w, predicateExpr, env, stack) == Ok(InValue(w.dialect, v, list));
      InDecides(w.dialect, policy, v, list);
    } else {
      assert EvalExprs(w, operands, env, stack).Err?;
    }
  }

  lemma {:induction false} SingleExpr(w: World, expr: Expr, env: Env, stack: Stack)
    ensures var v := EvalExpr(w, expr, env, stack);
            EvalExprs(w, [expr], env, stack) == if v.Ok? then Ok([v.value]) else Err(v.error)
  {
    assert [expr][1..] == [];
    assert EvalExprs(w, [expr][1..], env, stack) == Ok([]);
    var v := EvalExpr(w, expr, env, stack);
    if v.Ok? {
      assert [v.value] + [] == [v.value];
    }
  }

  lemma {:induction false} InDecides(d: Dialect, policy: Policy, v: Value, list: seq<Value>)
    requires |list| == |policy.permitted|
    requires forall i :: 0 <= i < |list| ==> list[i] == PermittedAs(policy.permitted[i])
    ensures Truthy(d, InValue(d, v, list)) <==> Permits(d, policy, v)
  {
    if Permits(d, policy, v) {
      var i :| 0 <= i < |policy.permitted| && d.equal(v, PermittedAs(policy.permitted[i])) == Num(1);
      assert d.equal(v, list[i]) == Num(1);
    }
  }

  lemma {:induction false} ColumnResolves(d: Dialect, column: string, name: string, columns: seq<string>, row: Row)
    ensures var positions := ColumnPositions(d, columns, column, 0);
            Resolve(d, [column], [Frame([Binding(Some(name), columns)], [[row]], 0)] + [])
            == if positions == [] then Err(UnknownColumn)
               else if |positions| > 1 then Err(AmbiguousColumn)
               else Ok(At(row, positions[0]))
  {
    var stack := [Frame([Binding(Some(name), columns)], [[row]], 0)] + [];
    var bindings := stack[0].bindings;
    assert bindings[1..] == [];
    assert Positions(d, [column], bindings, 0) == ColumnPositions(d, columns, column, 0) + [];
    assert stack[1..] == [];
  }

  lemma {:induction false} KeepTrueSplits<T>(d: Dialect, items: seq<T>, first: seq<Value>, rest: Matrix)
    requires items != [] && |first| == 1
    ensures KeepTrue(d, items, [first] + rest)
         == (if Truthy(d, first[0]) then [items[0]] else []) + KeepTrue(d, items[1..], rest)
  {
    var conditions := [first] + rest;
    assert conditions[0] == first && conditions[1..] == rest;
    assert (forall i :: 0 <= i < |first| ==> Truthy(d, first[i])) <==> Truthy(d, first[0]);
  }

  lemma {:induction false} WhereKeepsPermitted(w: World, policy: Policy, name: string, columns: seq<string>,
                                               rows: seq<Row>, env: Env)
    requires Transmissible(policy)
    ensures var stacks := RowStacks([Binding(Some(name), columns)], rows, []);
            var conditions := EvalMatrix(w, [Walk.PolicyPredicate(policy)], env, stacks);
            KeepPermitted(w.dialect, policy, columns, rows)
            == if conditions.Ok? then Ok(KeepTrue(w.dialect, rows, conditions.value))
               else Err(conditions.error)
    decreases |rows|
  {
    var exprs := [Walk.PolicyPredicate(policy)];
    var bindings := [Binding(Some(name), columns)];
    var stacks := RowStacks(bindings, rows, []);
    if rows == [] {
      assert stacks == [] && EvalMatrix(w, exprs, env, stacks) == Ok([]);
    } else {
      PredicateDecides(w, policy, name, columns, rows[0], env);
      WhereKeepsPermitted(w, policy, name, columns, rows[1..], env);
      assert stacks[0] == [Frame(bindings, [[rows[0]]], 0)] + [];
      assert stacks[1..] == RowStacks(bindings, rows[1..], []);
      var first, rest := EvalExprs(w, exprs, env, stacks[0]), EvalMatrix(w, exprs, env, stacks[1..]);
      if first.Err? {
        assert EvalMatrix(w, exprs, env, stacks) == Err(first.error);
      } else if rest.Err? {
        assert EvalMatrix(w, exprs, env, stacks) == Err(rest.error);
      } else {
        KeepTrueSplits(w.dialect, rows, first.value, rest.value);
        assert EvalMatrix(w, exprs, env, stacks) == Ok([first.value] + rest.value);
      }
    }
  }

  /** Conditions without expressions keep everything. */
  lemma {:induction false} NoConditionKeepsAll<T>(w: World, items: seq<T>, env: Env, stacks: seq<Stack>)
    requires |items| == |stacks|
    ensures EvalMatrix(w, [], env, stacks).Ok?
    ensures KeepTrue(w.dialect, items, EvalMatrix(w, [], env, stacks).value) == items
    decreases |items|
  {
    if items != [] {
      NoConditionKeepsAll(w, items[1..], env, stacks[1..]);
    }
  }

  lemma {:induction false} StarYieldsHeads(w: World, rows: seq<Row>, env: Env, stacks: seq<Stack>)
    requires |rows| == |stacks|
    requires forall i :: 0 <= i < |rows| ==> stacks[i] != [] && HeadRow(stacks[i][0]) == rows[i]
    ensures EvalItemMatrix(w, [ItemWildcard(None, false)], env, stacks) == Ok(rows)
    decreases |rows|
  {
    if rows != [] {
      var items := [ItemWildcard(None, false)];
      StarYieldsHeads(w, rows[1..], env, stacks[1..]);
      assert items[1..] == [];
      assert EvalItem(w, items[0], env, stacks[0]) == Ok(rows[0]);
      assert EvalItems(w, items, env, stacks[0]) == Ok(rows[0] + []);
      assert rows[0] + [] == rows[0];
      assert [rows[0]] + rows[1..] == rows;
    }
  }

  /** Evaluating `SELECT *` over singleton groups gives the rows back. */
  lemma {:induction false} PassThrough(w: World, bindings: seq<Binding>, kept: seq<Row>, env: Env)
    ensures var having := EvalMatrix(w, [], env, GroupStacks(bindings, Singletons(kept), []));
            having.Ok? && KeepTrue(w.dialect, Singletons(kept), having.value) == Singletons(kept)
    ensures EvalItemMatrix(w, [ItemWildcard(None, false)], env, GroupStacks(bindings, Singletons(kept), []))
         == Ok(kept)
  {
    var stacks := GroupStacks(bindings, Singletons(kept), []);
    NoConditionKeepsAll(w, Singletons(kept), env, stacks);
    StarYieldsHeads(w, kept, env, stacks);
  }

  function GuardSelect(relation: TableFactor, policy: Policy): Select {
    Walk.GuardQuery(relation, policy).body.select
  }

  /** What a table factor reads: the resolved relation, after any hint on the factor. */
  function Effective(w: World, name: Walk.TableName, extras: set<TableExtra>, env: Env)
    : Outcome<Semantics.Relation>
  {
    var stored :- ReadTable(w, name, env);
    Ok(if extras == {} then stored else w.dialect.hinted(extras, stored))
  }

  lemma {:induction false} GuardSelectReads(w: World, relation: TableFactor, policy: Policy, name: Walk.TableName,
                                            env: Env)
    requires relation.Table? && relation.alias.None?
    requires Walk.ReadObjectName(relation.name) == Ok(name) && Transmissible(policy)
    ensures var produced := EvalSelect(w, GuardSelect(relation, policy), env, []);
            var read := Effective(w, name, relation.extras, env);
            if read.Err? then produced == Err(read.error)
            else var permitted := PermittedRows(w.dialect, policy, read.value);
                 if permitted.Err? then produced == Err(permitted.error)
                 else produced.Ok? && produced.value.relation == permitted.value
  {
    var select := GuardSelect(relation, policy);
    var read := Effective(w, name, relation.extras, env);
    assert EvalTableWithJoins(w, select.from[0], env, []) == EvalFactor(w, relation, env, []);
    assert EvalFrom(w, select.from, env, []) == EvalFactor(w, relation, env, []);
    if read.Ok? {
      var columns, rows := read.value.columns, read.value.rows;
      var bindings := [Binding(Some(name.leaf), columns)];
      WhereKeepsPermitted(w, policy, name.leaf, columns, rows, env);
      var conditions := EvalMatrix(w, select.selection, env, RowStacks(bindings, rows, []));
      if conditions.Ok? {
        StarGroups(w, select, name.leaf, columns, KeepTrue(w.dialect, rows, conditions.value), env);
      }
    }
  }

  /** `SELECT *` without grouping or DISTINCT passes the kept rows through. */
  lemma {:induction false} StarGroups(w: World, select: Select, name: string, columns: seq<string>, kept: seq<Row>,
                                      env: Env)
    requires select.projection == [ItemWildcard(None, false)] && !select.distinct
    requires select.groupBy == [] && select.having == []
    ensures var produced := EvalGroups(w, select, [Binding(Some(name), columns)], kept, env, []);
            produced.Ok? && produced.value.relation == Semantics.Relation(columns, kept)
  {
    var bindings := [Binding(Some(name), columns)];
    NoConditionKeepsAll(w, kept, env, RowStacks(bindings, kept, []));
    PassThrough(w, bindings, kept, env);
    assert select.projection[1..] == [] && bindings[1..] == [];
    assert !ItemsAggregate(w.dialect, select.projection);
    assert AllColumns(bindings) == columns + [];
    assert ItemColumns(w.dialect, select.projection, bindings) == columns;
  }

  /** A guard's subquery evaluates to the permitted rows of whatever its relation reads. */
  lemma {:induction false} GuardReadsPermittedRows(w: World, relation: TableFactor, policy: Policy,
                                                   name: Walk.TableName, env: Env)
    requires relation.Table? && relation.alias.None?
    requires Walk.ReadObjectName(relation.name) == Ok(name) && Transmissible(policy)
    ensures var read := Effective(w, name, relation.extras, env);
            EvalQuery(w, Walk.GuardQuery(relation, policy), env, [])
            == if read.Err? then Err(read.error) else PermittedRows(w.dialect, policy, read.value)
  {
    GuardSelectReads(w, relation, policy, name, env);
  }
}

/**
 The statement tree the milestone-2 proxy works on: the shapes `sqlparser` produces, cut down to
 what the allowlist walk distinguishes.

 Every node keeps its children in the order the walk visits them. Clauses the walk refuses outright
 are members of the node's `extras` set, so "no clause off the allowlist" reads `extras == {}`.
 */
module SqlAst {
  import opened Common

  /** One part of an object name; `Computed` is a name produced by a function call. */
  datatype NamePart = Ident(text: string) | Computed

  type ObjectName = seq<NamePart>

  datatype Scalar = Text(content: string) | Number(amount: int) | OtherScalar(written: string)

  datatype CallExtra = OdbcSyntax | WithinGroup | NamedWindow | WindowFrame | WithFillKey
                     | ArgumentClause | WildcardOptions

  /**
   A function call without its operands. The operands are stored in walk order: PARTITION BY keys,
   window ORDER BY keys, the FILTER condition, parameters, arguments; the counts say where each
   section ends.
   */
  datatype CallHead = CallHead(name: string, windowed: bool, partitionKeys: nat, orderKeys: nat,
                               filtered: bool, parameters: nat, extras: set<CallExtra>)

  /** The operators whose operands the walk visits one after the other. */
  datatype Operator =
    | IsFalse | IsNotFalse | IsTrue | IsNotTrue | IsNull | IsNotNull | IsUnknown | IsNotUnknown
    | Nested | Unary(symbol: string) | Cast(target: string) | Extract(field: string)
    | Collate(collation: string) | IsDistinctFrom | IsNotDistinctFrom | Binary(symbol: string)
    | Like(negated: bool, any: bool) | ILike(negated: bool, any: bool) | RLike(negated: bool)
    | InList(negated: bool) | Between(negated: bool) | Position
    | Substring(hasFrom: bool, hasFor: bool) | Trim(hasWhat: bool) | Ceil(field: string)
    | Floor(field: string) | Interval(units: string) | Tuple
    | Case(hasOperand: bool, hasElse: bool) | Call(head: CallHead)

  datatype Expr =
    | Column(parts: seq<string>)
    | Literal(value: Scalar)
    | Star(qualifier: ObjectName)
    | Apply(op: Operator, operands: seq<Expr>)
    | InSubquery(needle: Expr, subquery: Query, negated: bool)
    | Exists(subquery: Query, negated: bool)
    | ScalarSubquery(subquery: Query)
    | OtherExpr

  datatype QueryExtra = PipeOperator | Settings | Format | ForClause | Locks | Fetch
                      | Interpolate | WithFill | LimitBy

  datatype Query = Query(extras: set<QueryExtra>, recursive: bool, ctes: seq<Cte>, body: SetExpr,
                         ordering: string, orderBy: seq<Expr>, limit: seq<Expr>)

  datatype CteExtra = CteColumns | CteAt | CteFrom

  datatype Cte = Cte(name: string, extras: set<CteExtra>, query: Query)

  datatype SetExpr =
    | SelectBody(select: Select)
    | QueryBody(query: Query)
    | SetOperation(operator: string, left: SetExpr, right: SetExpr)
    | ValuesBody(width: nat, cells: seq<Expr>)
    | OtherBody

  datatype SelectExtra =
    | OptimizerHint | Modifier | Top | Exclude | Into | LateralView | Prewhere | ConnectBy
    | ClusterBy | DistributeBy | SortBy | WindowClause | Qualify | ValueTableMode | FromFirst
    | DistinctOn | GroupByAll | GroupByModifier

  /** `selection` and `having` hold no expression or one. */
  datatype Select = Select(extras: set<SelectExtra>, distinct: bool, projection: seq<SelectItem>,
                           from: seq<TableWithJoins>, selection: seq<Expr>, groupBy: seq<Expr>,
                           having: seq<Expr>)

  datatype SelectItem =
    | ItemExpr(expr: Expr, alias: Option<string>)
    | ItemWildcard(qualifier: Option<string>, modified: bool)
    | OtherItem

  datatype JoinKind = PlainJoin | InnerJoin | LeftJoin | LeftOuterJoin | RightJoin | RightOuterJoin
                    | FullOuterJoin | CrossJoin | StraightJoin | OtherJoin

  /** `on` holds no expression or one. */
  datatype Join = Join(kind: JoinKind, global: bool, relation: TableFactor, on: seq<Expr>,
                       using: seq<string>, natural: bool)

  datatype TableWithJoins = TableWithJoins(relation: TableFactor, joins: seq<Join>)

  datatype TableExtra = Arguments | TableHint | Version | Ordinality | Partitions | JsonPath
                      | Sample | IndexHint

  datatype Alias = Alias(name: string, columns: bool, at: bool)

  datatype TableFactor =
    | Table(name: ObjectName, alias: Option<Alias>, extras: set<TableExtra>)
    | Derived(lateral: bool, sampled: bool, subquery: Query, alias: Option<Alias>)
    | NestedJoin(inner: TableWithJoins, alias: Option<Alias>)
    | OtherFactor

  datatype WriteKind = Insert | Replace | Update | Delete

  /** Everything but a query keeps only the sites the walk visits, in the order it visits them. */
  datatype Statement =
    | QueryStatement(query: Query)
    | WriteStatement(kind: WriteKind, extras: bool, targets: seq<ObjectName>,
                     tables: seq<TableWithJoins>, values: seq<Expr>, source: seq<Query>)
    | SessionStatement(settings: seq<Expr>)
    | MetadataStatement(named: seq<ObjectName>, filters: seq<Expr>)
    | OtherStatement

  /** Why a statement is refused. The wording shown to the client is not modelled. */
  datatype Refusal = Unparseable | MultiStatement | UnsupportedShape | UnresolvableTableReference
                   | WriteToRestrictedTable | RestrictedTableIntoSessionState
}

/**
 Rewriting one statement, and what the client can learn from the result.

 The model starts at the parsed statement and takes parsing what was rendered as the identity, except
 for the literals the rewriter itself builds (`Walk.ReadBack`).
 */
module Rewrite {
  import opened Common
  import opened SqlAst
  import opened Policies
  import opened Semantics
  import opened Walk
  import opened GuardProofs
  import opened WalkMeaning
  import opened WrapProofs

  /** What parsing made of the text; `gated` says the text carries a version-gated comment. */
  datatype Parsed = NotParsed | Several | Parsed(statement: Statement, gated: bool)

  /** The client's own text, or the rendering of a rewritten query. */
  datatype Forwarded = Original | Rewritten(query: Query)

  datatype Coverage = NothingRestricted | SomethingRestricted | SomethingUnresolvable

  function TargetSites(targets: seq<ObjectName>, position: RefPosition): Result<seq<TableRef>, Refusal> {
    if targets == [] then Ok([])
    else
      var name :- ReadObjectName(targets[0]);
      var rest :- TargetSites(targets[1..], position);
      Ok([TableRef(name, None, false, position)] + rest)
  }

  function WalkSources(visitor: Visitor, cx: Context, sources: seq<Query>): Walked<seq<Query>> {
    if sources == [] then Ok(Out([], [], false))
    else
      var query :- WalkQuery(visitor, cx, sources[0], []);
      var rest :- WalkSources(visitor, cx, sources[1..]);
      Ok(Out([query.node] + rest.node, query.sites + rest.sites, query.unguarded || rest.unguarded))
  }

  /** Every reference site of a statement, or a refusal when something is off the allowlist. */
  function Analyze(cx: Context, statement: Statement): Result<seq<TableRef>, Refusal> {
    match statement
    case QueryStatement(query) =>
      var walked :- WalkQuery(Collect, cx, query, []);
      Ok(walked.sites)
    case WriteStatement(_, extras, targets, tables, values, source) =>
      if extras then Err(UnsupportedShape)
      else
        var written :- TargetSites(targets, WriteTarget);
        var from :- WalkFrom(Collect, cx, tables, []);
        var exprs :- WalkExprs(Collect, cx, values, []);
        var sources :- WalkSources(Collect, cx, source);
        Ok(written + from.sites + exprs.sites + sources.sites)
    case SessionStatement(settings) =>
      var walked :- WalkExprs(Collect, cx, settings, []);
      Ok(walked.sites)
    case MetadataStatement(named, filters) =>
      var names :- TargetSites(named, Walk.Named);
      var walked :- WalkExprs(Collect, cx, filters, []);
      Ok(names + walked.sites)
    case OtherStatement => Err(UnsupportedShape)
  }

  /** An unresolvable reference dominates a restricted one, wherever either stands. */
  method ComputeCoverage(cx: Context, sites: seq<TableRef>) returns (coverage: Coverage)
    ensures coverage == CoverageOf(cx, sites)
  {
    coverage := NothingRestricted;
    for at := 0 to |sites|
      invariant Resolvable(cx, sites[..at])
      invariant coverage == if AllUnrestricted(cx, sites[..at]) then NothingRestricted else SomethingRestricted
    {
      assert sites[..at + 1] == sites[..at] + [sites[at]];
      match DecideSite(cx, sites[at])
      case Unresolvable =>
        assert sites[at] in sites;
        return SomethingUnresolvable;
      case Restricted(_) =>
        assert sites[at] in sites[..at + 1];
        coverage := SomethingRestricted;
      case Unrestricted =>
    }
    assert sites[..|sites|] == sites;
  }

  function CoverageOf(cx: Context, sites: seq<TableRef>): Coverage {
    if !Resolvable(cx, sites) then SomethingUnresolvable
    else if AllUnrestricted(cx, sites) then NothingRestricted
    else SomethingRestricted
  }

  function HasAnyPolicy(cx: Context): bool {
    cx.user in cx.policies.byUser
  }

  function RewriteQuery(cx: Context, query: Query, gated: bool): Result<Forwarded, Refusal> {
    var wrapped :- WalkQuery(Wrap, cx, query, []);
    if gated then
      Err(UnsupportedShape)
    else
      var verified :- WalkQuery(Verify, cx, wrapped.node, []);
      if verified.unguarded then Err(UnsupportedShape) else Ok(Rewritten(wrapped.node))
  }

  function RewriteStatement(cx: Context, parsed: Parsed): Result<Forwarded, Refusal> {
    var analysis := match parsed
                    case NotParsed => Err(Unparseable)
                    case Several => Err(MultiStatement)
                    case Parsed(statement, _) => Analyze(cx, statement);
    if analysis.Err? then
      if HasAnyPolicy(cx) then Err(analysis.error) else Ok(Original)
    else
      match CoverageOf(cx, analysis.value)
      case SomethingUnresolvable => Err(UnresolvableTableReference)
      case NothingRestricted => Ok(Original)
      case SomethingRestricted =>
        match parsed.statement
        case QueryStatement(query) => RewriteQuery(cx, query, parsed.gated)
        case WriteStatement(_, _, _, _, _, _) => Err(WriteToRestrictedTable)
        case SessionStatement(_) => Err(RestrictedTableIntoSessionState)
        case MetadataStatement(_, _) => Err(UnsupportedShape)
        case OtherStatement => Err(UnsupportedShape)
  }

  // ----- The theorems ----------------------------------------------------------------------------------

  /** The backend with every policy table holding only the user's permitted rows. */
  function FilteredDatabase(cx: Context, d: Dialect, database: Database): Database {
    (name, table) =>
      var decision := Lookup(cx.policies, cx.user, Some(name), table, cx.current);
      if decision.Restricted? then Permitted(d, decision.policy, database(name, table))
      else database(name, table)
  }

  function FilteredWorld(cx: Context, w: World): World {
    World(w.dialect, FilteredDatabase(cx, w.dialect, w.database), w.current)
  }

  /** The theorems below hold of every policy set the loader produces, for any user and current database. */
  lemma {:induction false} LoadedPoliciesAreSound(entries: seq<RawPolicy>, policies: PolicySet, user: string,
                                                  current: Option<string>)
    requires Loaded(entries, |entries|, policies.byUser)
    ensures SoundPolicies(Context(user, current, policies))
  {
    forall database, table | Lookup(policies, user, Some(database), table, current).Restricted?
      ensures Transmissible(Lookup(policies, user, Some(database), table, current).policy)
    {
      var policy := Lookup(policies, user, Some(database), table, current).policy;
      var key := KeyOf(database, table);
      assert Justified(entries, |entries|, user, key, policy);
      var i :| 0 <= i < |entries| && Faithful(entries[i], user, policy);
      forall k | 0 <= k < |policy.permitted| && policy.permitted[k].PermittedText?
        ensures '\\' !in policy.permitted[k].text
      {
        assert AcceptValue(entries[i].values.value[k]) == Ok(policy.permitted[k]);
      }
    }
  }

  lemma {:induction false} FilteredAgrees(cx: Context, w: World)
    requires SoundPolicies(cx) && w.current == cx.current
    ensures Agree(Wrap, cx, w, FilteredWorld(cx, w))
  {
    var filtered := FilteredWorld(cx, w);
    forall database, table
      ensures TableAgrees(Wrap, w.dialect, Lookup(cx.policies, cx.user, Some(database), table, cx.current),
                          w.database(database, table), filtered.database(database, table))
    {
    }
  }

  /** The query the backend runs when a query statement is admitted. */
  function Executed(query: Query, forwarded: Forwarded): Query {
    match forwarded
    case Original => query
    case Rewritten(rewritten) => rewritten
  }

  /**
   Meaning. Whatever is forwarded for an accepted query, running it on any database gives exactly
   what the client's own query gives on that database with every policy table filtered.
   */
  lemma {:induction false} MeaningIsPreserved(cx: Context, w: World, query: Query, gated: bool)
    requires SoundPolicies(cx) && w.current == cx.current
    requires WalkQuery(Collect, cx, query, []).Ok?
    requires RewriteStatement(cx, Parsed(QueryStatement(query), gated)).Ok?
    ensures var forwarded := RewriteStatement(cx, Parsed(QueryStatement(query), gated)).value;
            EvalQuery(w, Executed(query, forwarded), [], []) == EvalQuery(FilteredWorld(cx, w), query, [], [])
  {
    WrapQuery(cx, query, []);
    FilteredAgrees(cx, w);
    assert NamesOf([]) == [];
    SameQuery(Wrap, cx, w, FilteredWorld(cx, w), query, [], []);
  }

  /**
   Verifier soundness, without reference to the wrapper. If the verifier reports an accepted query
   fully guarded, two databases that agree on the permitted rows give it the same result. Guard
   recognition ignores CTE scope; that costs nothing.
   */
  lemma {:induction false} VerifierIsSound(cx: Context, w1: World, w2: World, query: Query)
    requires Agree(Verify, cx, w1, w2)
    requires WalkQuery(Collect, cx, query, []).Ok?
    requires Clean(WalkQuery(Verify, cx, query, []))
    ensures EvalQuery(w1, query, [], []) == EvalQuery(w2, query, [], [])
  {
    assert NamesOf([]) == [];
    SameQuery(Verify, cx, w1, w2, query, [], []);
  }

  /**
   Wrapped output always verifies: on an accepted query the wrapper refuses only an unresolvable
   reference, the re-walk never refuses and the final net never fires. A query with a restricted
   reference is therefore rewritten exactly when the text carries no version gate.
   */
  lemma {:induction false} AcceptedQueryIsHandled(cx: Context, query: Query, gated: bool)
    requires WalkQuery(Collect, cx, query, []).Ok?
    ensures var sites := WalkQuery(Collect, cx, query, []).value.sites;
            var wrapped := WalkQuery(Wrap, cx, query, []);
            && (wrapped.Ok? <==> Resolvable(cx, sites))
            && RewriteStatement(cx, Parsed(QueryStatement(query), gated))
               == if !Resolvable(cx, sites) then Err(UnresolvableTableReference)
                  else if AllUnrestricted(cx, sites) then Ok(Original)
                  else if gated then Err(UnsupportedShape)
                  else Ok(Rewritten(wrapped.value.node))
  {
    WrapQuery(cx, query, []);
  }

  /** The wrapper is shown exactly the sites the collector lists, although it replaces nodes. */
  lemma {:induction false} WrapperSeesCollectedSites(cx: Context, query: Query, scope: seq<string>)
    requires WalkQuery(Wrap, cx, query, scope).Ok?
    ensures WalkQuery(Collect, cx, query, scope).Ok?
    ensures WalkQuery(Wrap, cx, query, scope).value.sites == WalkQuery(Collect, cx, query, scope).value.sites
  {
    WrapQuery(cx, query, scope);
  }

  /**
   No disclosure. What a user with a policy is forwarded gives the same answer on any two databases
   that agree on the rows the user may see.
   */
  lemma {:induction false} ForwardedQueryDisclosesNothing(cx: Context, w1: World, w2: World, query: Query, gated: bool)
    requires Agree(Verify, cx, w1, w2) && HasAnyPolicy(cx)
    requires RewriteStatement(cx, Parsed(QueryStatement(query), gated)).Ok?
    ensures var executed := Executed(query, RewriteStatement(cx, Parsed(QueryStatement(query), gated)).value);
            EvalQuery(w1, executed, [], []) == EvalQuery(w2, executed, [], [])
  {
    AcceptedQueryIsHandled(cx, query, gated);
    WrapQuery(cx, query, []);
    VerifierIsSound(cx, w1, w2, WalkQuery(Wrap, cx, query, []).value.node);
  }
}

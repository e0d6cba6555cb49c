/**
 Which statements are eligible and which table they read, stated over the significant tokens without the functions the
 analysis is made of.
 */
module OneTable {
  import opened Common
  import opened Lexer
  import opened SqlShape
  import opened Reanalysis
  import RuleNames

  // ----- The shape of a statement on one table ----------------------------------------------------------------------

  /** The statement without the separator it may end with. */
  predicate IsBody(sigs: seq<Sig>, body: seq<Sig>) {
    && (forall i :: 0 <= i < |body| ==> !IsSeparator(body[i]))
    && (body == sigs || (body < sigs && |sigs| == |body| + 1 && IsSeparator(sigs[|body|])))
  }

  predicate IsDot(sig: Sig) {
    IsPunct(sig.kind, sig.text, '.')
  }

  predicate IsAs(sig: Sig) {
    WordIn(sig.kind, sig.text, {"AS"})
  }

  /** The one depth-0 `FROM`. */
  predicate OnlyFrom(body: seq<Sig>, f: nat) {
    f < |body| && IsFrom(body[f]) && forall i :: 0 <= i < |body| && i != f ==> !IsFrom(body[i])
  }

  /** A name, or a name, a dot and a name, from `f + 1` up to `k`. */
  predicate NameUpTo(body: seq<Sig>, f: nat, k: nat) {
    && f + 1 < |body| && IsName(body[f + 1]) && !WordIn(body[f + 1].kind, body[f + 1].text, {"DUAL"})
    && (if f + 2 < |body| && IsDot(body[f + 2]) then f + 3 < |body| && IsName(body[f + 3]) && k == f + 4
        else k == f + 2)
  }

  /** Nothing, `AS` and a name, or a name that is no keyword of what may follow a table. */
  predicate AliasUpTo(body: seq<Sig>, k: nat, n: nat) {
    || n == k
    || (k + 1 < |body| && IsAs(body[k]) && IsName(body[k + 1]) && n == k + 2)
    || (k < |body| && n == k + 1
        && (body[k].kind == QuotedIdent
            || (body[k].kind == Word
                && Upper(body[k].text) !in CLAUSE_KEYWORDS + JOIN_KEYWORDS + POST_TABLE_UNSUPPORTED + {"AS"})))
  }

  predicate EndsOrClause(body: seq<Sig>, n: nat) {
    n == |body| || (n < |body| && WordIn(body[n].kind, body[n].text, CLAUSE_KEYWORDS))
  }

  /** A SELECT with no subquery and no set operator in it. */
  predicate IsPlainSelect(body: seq<Sig>) {
    && body != [] && WordIn(body[0].kind, body[0].text, {"SELECT"})
    && (forall i :: 0 <= i < |body| - 1 ==> !IsOpener(body[i], body[i + 1]))
    && (forall i :: 0 <= i < |body| ==> !IsSetOperator(body[i]))
  }

  /** It has one `FROM`, and behind it one table's reference runs up to `n`, its name up to `k`. */
  predicate RefersUpTo(body: seq<Sig>, f: nat, k: nat, n: nat) {
    IsPlainSelect(body) && OnlyFrom(body, f) && NameUpTo(body, f, k) && AliasUpTo(body, k, n)
  }

  /** A SELECT of one table: its reference runs into a clause or the end. */
  predicate ReadsOneTable(body: seq<Sig>, f: nat, k: nat, n: nat) {
    RefersUpTo(body, f, k, n) && EndsOrClause(body, n)
  }

  /** A SELECT of more: its first reference runs into a comma or a join. */
  predicate ReadsMoreTables(body: seq<Sig>, f: nat, k: nat, n: nat) {
    RefersUpTo(body, f, k, n) && GoesOn(body, n)
  }

  predicate GoesOn(body: seq<Sig>, n: nat) {
    && n < |body|
    && (IsPunct(body[n].kind, body[n].text, ',') || WordIn(body[n].kind, body[n].text, JOIN_KEYWORDS))
  }

  /** A SELECT of none: it has no `FROM`, or its one `FROM` names DUAL. */
  ghost predicate ReadsNoTable(body: seq<Sig>) {
    && IsPlainSelect(body)
    && ((forall i :: 0 <= i < |body| ==> !IsFrom(body[i]))
        || exists f: nat :: OnlyFrom(body, f) && NamesDual(body, f))
  }

  predicate NamesDual(body: seq<Sig>, f: nat) {
    f + 1 < |body| && WordIn(body[f + 1].kind, body[f + 1].text, {"DUAL"})
  }

  /** The table that is read, by its name alone or behind its schema. */
  function TableAt(body: seq<Sig>, f: nat): TableRef
    requires f + 1 < |body|
  {
    if f + 3 < |body| && IsDot(body[f + 2]) then
      TableRef(Some(NormalizeIdent(body[f + 1].text)), NormalizeIdent(body[f + 3].text))
    else TableRef(None, NormalizeIdent(body[f + 1].text))
  }

  /** The first clause word at or behind `from`, or the end. */
  predicate NextClause(body: seq<Sig>, from: nat, w: nat) {
    && from <= w <= |body| && (forall i :: from <= i < w ==> !IsClause(body[i]))
    && (w < |body| ==> IsClause(body[w]))
  }

  /** A `WHERE` is the first clause behind the table, at `w`, and its condition runs up to the next one, at `x`. */
  predicate ConditionRuns(body: seq<Sig>, n: nat, w: nat, x: nat, extent: WhereExtent) {
    && NextClause(body, n, w) && w < |body| && Upper(body[w].text) == "WHERE" && NextClause(body, w + 1, x)
    && extent == WhereExtent(body[w].end, if x < |body| then body[x].start else body[|body| - 1].end)
  }

  ghost predicate ConditionAt(body: seq<Sig>, n: nat, whereClause: Option<WhereExtent>) {
    match whereClause
    case Some(extent) => exists w: nat, x: nat :: ConditionRuns(body, n, w, x, extent)
    case None => forall w: nat :: NextClause(body, n, w) && w < |body| ==> Upper(body[w].text) != "WHERE"
  }

  // ----- The analysis accepts exactly those -------------------------------------------------------------------------

  lemma {:induction false} BodyIsBody(sigs: seq<Sig>)
    requires FirstAt(sigs, 0, IsSeparator) + 1 >= |sigs|
    ensures IsBody(sigs, BodyOf(sigs))
  {
  }

  lemma {:induction false} OneBody(sigs: seq<Sig>, body: seq<Sig>)
    requires IsBody(sigs, body)
    ensures body == BodyOf(sigs) && FirstAt(sigs, 0, IsSeparator) + 1 >= |sigs|
  {
    assert forall i :: 0 <= i < |body| ==> sigs[i] == body[i];
    FirstIs(sigs, 0, IsSeparator, |body|);
  }

  /** A name and an alias are what the reference is read from. */
  lemma {:induction false} ReferenceIs(body: seq<Sig>, f: nat, k: nat, n: nat)
    requires NameUpTo(body, f, k) && AliasUpTo(body, k, n) && (EndsOrClause(body, n) || GoesOn(body, n))
    ensures 0 < n <= |body| && ReferenceAt(body, f + 1) == Ok(Reference(TableAt(body, f), body[n - 1].end, n))
    ensures EndsOrClause(body, n) ==> ClauseWordAt(body, n)
  {
    assert TableName(body, f + 1) == Ok(Reference(TableAt(body, f), body[k - 1].end, k));
    Keywords();
    if k < |body| && n == k {
      assert !IsBareAlias(body[k]);
    }
  }

  lemma {:induction false} Keywords()
    ensures "AS" !in CLAUSE_KEYWORDS + JOIN_KEYWORDS && JOIN_KEYWORDS !! CLAUSE_KEYWORDS
  {
  }

  lemma {:induction false} ReferenceRuns(body: seq<Sig>, f: nat) returns (k: nat)
    requires f < |body| && ReferenceAt(body, f + 1).Ok?
    ensures NameUpTo(body, f, k) && AliasUpTo(body, k, ReferenceAt(body, f + 1).value.next)
  {
    k := TableName(body, f + 1).value.next;
  }

  lemma {:induction false} PlainIsAnalyzed(body: seq<Sig>)
    ensures !OpensSubquery(body) && FirstAt(body, 0, IsSetOperator) == |body| <==>
              (forall i :: 0 <= i < |body| - 1 ==> !IsOpener(body[i], body[i + 1]))
              && (forall i :: 0 <= i < |body| ==> !IsSetOperator(body[i]))
  {
    if forall i :: 0 <= i < |body| ==> !IsSetOperator(body[i]) {
      FirstIs(body, 0, IsSetOperator, |body|);
    }
  }

  lemma {:induction false} EligibleReadsOneTable(sigs: seq<Sig>) returns (f: nat, k: nat, n: nat)
    requires Accepted(sigs)
    ensures IsBody(sigs, BodyOf(sigs)) && ReadsOneTable(BodyOf(sigs), f, k, n)
    ensures ReferenceOf(BodyOf(sigs)) == Reference(TableAt(BodyOf(sigs), f), BodyOf(sigs)[n - 1].end, n)
  {
    var body := BodyOf(sigs);
    BodyIsBody(sigs);
    f, k, n := BodyReadsOneTable(body);
    assert body[0] == sigs[0];
  }

  lemma {:induction false} BodyReadsOneTable(body: seq<Sig>) returns (f: nat, k: nat, n: nat)
    requires AcceptedBody(body)
    ensures OnlyFrom(body, f) && NameUpTo(body, f, k) && AliasUpTo(body, k, n) && EndsOrClause(body, n)
    ensures (forall i :: 0 <= i < |body| - 1 ==> !IsOpener(body[i], body[i + 1]))
    ensures forall i :: 0 <= i < |body| ==> !IsSetOperator(body[i])
    ensures 0 < n <= |body| && ReferenceOf(body) == Reference(TableAt(body, f), body[n - 1].end, n)
  {
    hide NameUpTo, AliasUpTo, TableAt, AnalyzeReference, ReferenceAt;
    PlainIsAnalyzed(body);
    f := FirstAt(body, 0, IsFrom);
    k := ReferenceRuns(body, f);
    n := ReferenceOf(body).next;
    EligibleNeedsClause(body, ReferenceOf(body));
    ReferenceIs(body, f, k, n);
  }

  lemma {:induction false} FromIsFound(body: seq<Sig>, f: nat)
    requires OnlyFrom(body, f)
    ensures FirstAt(body, 0, IsFrom) == f && FirstAt(body, f + 1, IsFrom) == |body|
  {
    FirstIs(body, 0, IsFrom, f);
    FirstIs(body, f + 1, IsFrom, |body|);
  }

  lemma {:induction false} NoneOpens(body: seq<Sig>)
    requires forall i :: 0 <= i < |body| - 1 ==> !IsOpener(body[i], body[i + 1])
    requires forall i :: 0 <= i < |body| ==> !IsSetOperator(body[i])
    ensures !OpensSubquery(body) && FirstAt(body, 0, IsSetOperator) == |body|
  {
    FirstIs(body, 0, IsSetOperator, |body|);
  }

  lemma {:induction false} OneTableBody(body: seq<Sig>, f: nat, k: nat, n: nat)
    requires ReadsOneTable(body, f, k, n) && Advancing(body)
    ensures n <= |body| && AcceptedBody(body)
    ensures ReferenceOf(body) == Reference(TableAt(body, f), body[n - 1].end, n)
  {
    hide FirstAt, OpensSubquery, IsFrom, ReferenceAt, AnalyzeReference, NameUpTo, AliasUpTo, OnlyFrom, TableAt;
    FromIsFound(body, f);
    NoneOpens(body);
    ReferenceIs(body, f, k, n);
    EligibleAgain(body, ReferenceAt(body, f + 1).value);
  }

  lemma {:induction false} OneTableIsAccepted(sigs: seq<Sig>, body: seq<Sig>, f: nat, k: nat, n: nat)
    requires IsBody(sigs, body) && ReadsOneTable(body, f, k, n) && Advancing(body)
    ensures n <= |body| && Accepted(sigs) && BodyOf(sigs) == body
    ensures ReferenceOf(body) == Reference(TableAt(body, f), body[n - 1].end, n)
  {
    hide AcceptedBody, AliasUpTo, NameUpTo, OnlyFrom, TableAt, Advancing;
    OneBody(sigs, body);
    OneTableBody(body, f, k, n);
    assert sigs[0] == body[0];
  }

  lemma {:induction false} WhereIsCondition(body: seq<Sig>, n: nat)
    requires n <= |body|
    ensures ConditionAt(body, n, WhereOf(body, n))
  {
    var extent := WhereOf(body, n);
    if extent.Some? {
      var w := FirstAt(body, n, IsClause);
      assert ConditionRuns(body, n, w, FirstAt(body, w + 1, IsClause), extent.value);
    } else {
      forall w: nat | NextClause(body, n, w) && w < |body|
        ensures Upper(body[w].text) != "WHERE"
      {
        FirstIs(body, n, IsClause, w);
      }
    }
  }

  /** A statement is eligible exactly when it is tokenized and reads one table and no subquery. */
  lemma {:induction false} EligibleExactlyOnOneTable(sql: string)
    ensures Analyze(sql).Eligible? <==>
              Lex(sql, false).Some?
              && exists body, f, k, n :: IsBody(Significant(Lex(sql, false).value, 0, 0), body)
                                         && ReadsOneTable(body, f, k, n)
  {
    if Lex(sql, false).Some? {
      var tokens := Lex(sql, false).value;
      var sigs := Significant(tokens, 0, 0);
      EligibleIsAccepted(sigs);
      if Accepted(sigs) {
        var f, k, n := EligibleReadsOneTable(sigs);
      }
      forall body, f, k, n | IsBody(sigs, body) && ReadsOneTable(body, f, k, n)
        ensures Accepted(sigs)
      {
        BodyAdvances(tokens, body);
        OneTableIsAccepted(sigs, body, f, k, n);
      }
    }
  }

  /** The table, the insertion point and the condition of an eligible statement, wherever its reference runs. */
  lemma {:induction false} TableIsBehindFrom(sql: string, body: seq<Sig>, f: nat, k: nat, n: nat)
    requires Lex(sql, false).Some? && IsBody(Significant(Lex(sql, false).value, 0, 0), body)
    requires ReadsOneTable(body, f, k, n)
    ensures Analyze(sql).Eligible?
    ensures var analysis := Analyze(sql).analysis;
            && analysis.table == TableAt(body, f) && analysis.insertAt == body[n - 1].end
            && ConditionAt(body, n, analysis.whereClause)
  {
    hide ReadsOneTable, IsBody, ConditionAt, Advancing, Accepted, TableAt, AnalyzeTokens;
    var tokens := Lex(sql, false).value;
    var sigs := Significant(tokens, 0, 0);
    BodyAdvances(tokens, body);
    OneTableIsAccepted(sigs, body, f, k, n);
    AcceptedAnalysis(sigs);
    WhereIsCondition(body, n);
  }

  lemma {:induction false} BodyAdvances(tokens: seq<Lexeme>, body: seq<Sig>)
    requires IsBody(Significant(tokens, 0, 0), body)
    ensures Advancing(body)
  {
    AllAdvance(tokens, |body|);
    assert Significant(tokens, 0, 0)[..|body|] == body;
  }

  // ----- Why any other is passed over --------------------------------------------------------------------------------

  lemma {:induction false} MoreTablesFound(body: seq<Sig>, f: nat, k: nat, n: nat)
    requires ReadsMoreTables(body, f, k, n)
    ensures AnalyzeBody(body) == Skip(MultipleTables)
  {
    hide NameUpTo, AliasUpTo, WhereOf, Upper, OpensSubquery, OnlyFrom, ReferenceAt;
    PlainIsAnalyzed(body);
    FromIsFound(body, f);
    ReferenceIs(body, f, k, n);
  }

  /** Several tables are found exactly when the one `FROM`'s first reference runs into a comma or a join. */
  lemma {:induction false} MoreTables(body: seq<Sig>)
    requires body != [] && WordIn(body[0].kind, body[0].text, {"SELECT"})
    ensures AnalyzeBody(body) == Skip(MultipleTables) <==> exists f, k, n :: ReadsMoreTables(body, f, k, n)
  {
    forall f, k, n | ReadsMoreTables(body, f, k, n)
      ensures AnalyzeBody(body) == Skip(MultipleTables)
    {
      MoreTablesFound(body, f, k, n);
    }
    if AnalyzeBody(body) == Skip(MultipleTables) {
      hide NameUpTo, AliasUpTo, WhereOf, Upper, OpensSubquery;
      PlainIsAnalyzed(body);
      var f := FirstAt(body, 0, IsFrom);
      if ReferenceAt(body, f + 1).Err? {
        NoOtherErrors(body, f + 1);
      }
      var k := ReferenceRuns(body, f);
      assert ReadsMoreTables(body, f, k, ReferenceAt(body, f + 1).value.next);
    }
  }

  /** A reference that cannot be read is of no supported shape, or no table's. */
  lemma {:induction false} NoOtherErrors(body: seq<Sig>, at: nat)
    requires at <= |body| && ReferenceAt(body, at).Err?
    ensures ReferenceAt(body, at).error == Skip(UnsupportedStructure) || ReferenceAt(body, at).error == NoTable
    ensures ReferenceAt(body, at).error == NoTable <==>
              at < |body| && WordIn(body[at].kind, body[at].text, {"DUAL"})
  {
  }

  lemma {:induction false} DualIsNoTable(body: seq<Sig>, at: nat)
    requires at < |body| && WordIn(body[at].kind, body[at].text, {"DUAL"})
    ensures ReferenceAt(body, at) == Err(NoTable)
  {
  }

  lemma {:induction false} DualIsFound(body: seq<Sig>, first: nat)
    requires first == FirstAt(body, 0, IsFrom) < |body|
    ensures (exists f: nat :: OnlyFrom(body, f) && NamesDual(body, f)) <==>
              FirstAt(body, first + 1, IsFrom) == |body| && ReferenceAt(body, first + 1) == Err(NoTable)
  {
    hide ReferenceAt;
    forall f: nat | OnlyFrom(body, f) && NamesDual(body, f)
      ensures FirstAt(body, first + 1, IsFrom) == |body| && ReferenceAt(body, first + 1) == Err(NoTable)
    {
      FromIsFound(body, f);
      DualIsNoTable(body, f + 1);
    }
    if FirstAt(body, first + 1, IsFrom) == |body| && ReferenceAt(body, first + 1) == Err(NoTable) {
      NoOtherErrors(body, first + 1);
      assert OnlyFrom(body, first) && NamesDual(body, first);
    }
  }

  lemma {:induction false} ReferencesAreTables(body: seq<Sig>, reference: Reference)
    requires reference.next <= |body|
    ensures AnalyzeReference(body, reference) != NoTable
  {
  }

  lemma {:induction false} NoTableIsRead(body: seq<Sig>)
    requires body != [] && WordIn(body[0].kind, body[0].text, {"SELECT"})
    ensures AnalyzeBody(body) == NoTable <==> ReadsNoTable(body)
  {
    hide ReferenceAt, AnalyzeReference, OpensSubquery, OnlyFrom, NamesDual;
    PlainIsAnalyzed(body);
    var first := FirstAt(body, 0, IsFrom);
    if first == |body| {
      assert forall f :: 0 <= f < |body| ==> !IsFrom(body[f]);
    } else {
      DualIsFound(body, first);
      if ReferenceAt(body, first + 1).Ok? {
        ReferencesAreTables(body, ReferenceAt(body, first + 1).value);
      }
    }
  }

  /** Which statements are passed over for which reason; every other one is of no supported structure. */
  lemma {:induction false} ReasonsAreExact(sql: string)
    ensures Analyze(sql) == Skip(TokenizeFailed) <==> Lex(sql, false).None?
    ensures Lex(sql, false).Some? ==> var sigs := Significant(Lex(sql, false).value, 0, 0);
              && (Analyze(sql) == Skip(NotSelect) <==>
                    sigs != [] && !IsPunct(sigs[0].kind, sigs[0].text, '(')
                    && !WordIn(sigs[0].kind, sigs[0].text, {"SELECT", "WITH"}))
              && (Analyze(sql) == Skip(MultipleStatements) <==>
                    sigs != [] && WordIn(sigs[0].kind, sigs[0].text, {"SELECT"})
                    && exists i :: 0 <= i < |sigs| - 1 && IsSeparator(sigs[i]))
              && (Analyze(sql) == NoTable <==> sigs == [] || exists body :: IsBody(sigs, body) && ReadsNoTable(body))
              && (Analyze(sql) == Skip(MultipleTables) <==>
                    exists body, f, k, n :: IsBody(sigs, body) && ReadsMoreTables(body, f, k, n))
    ensures Analyze(sql) !in {Skip(NoInsertionPoint), Skip(PacketCountChanged)}
  {
    InsertionPointExists(sql);
    if Lex(sql, false).Some? {
      SigReasons(Significant(Lex(sql, false).value, 0, 0));
    }
  }

  lemma {:induction false} TheBody(sigs: seq<Sig>)
    ensures forall body :: IsBody(sigs, body) <==> FirstAt(sigs, 0, IsSeparator) + 1 >= |sigs| && body == BodyOf(sigs)
    ensures FirstAt(sigs, 0, IsSeparator) + 1 < |sigs| <==> exists i :: 0 <= i < |sigs| - 1 && IsSeparator(sigs[i])
    ensures sigs != [] && BodyOf(sigs) == [] ==> IsSeparator(sigs[0])
    ensures BodyOf(sigs) != [] ==> BodyOf(sigs)[0] == sigs[0]
  {
    forall body | IsBody(sigs, body)
      ensures FirstAt(sigs, 0, IsSeparator) + 1 >= |sigs| && body == BodyOf(sigs)
    {
      OneBody(sigs, body);
    }
    if FirstAt(sigs, 0, IsSeparator) + 1 >= |sigs| {
      BodyIsBody(sigs);
    }
  }

  /** Only the body of a single SELECT refers to tables. */
  lemma {:induction false} OnlySelectsRead(sigs: seq<Sig>)
    requires sigs == [] || !WordIn(sigs[0].kind, sigs[0].text, {"SELECT"})
          || FirstAt(sigs, 0, IsSeparator) + 1 < |sigs|
    ensures !exists body :: IsBody(sigs, body) && ReadsNoTable(body)
    ensures !exists body, f, k, n :: IsBody(sigs, body) && ReadsMoreTables(body, f, k, n)
  {
    TheBody(sigs);
  }

  lemma {:induction false} SelectReasons(sigs: seq<Sig>)
    requires sigs != [] && WordIn(sigs[0].kind, sigs[0].text, {"SELECT"})
    requires FirstAt(sigs, 0, IsSeparator) + 1 >= |sigs|
    ensures AnalyzeTokens(sigs) == NoTable <==> exists body :: IsBody(sigs, body) && ReadsNoTable(body)
    ensures AnalyzeTokens(sigs) == Skip(MultipleTables) <==>
              exists body, f, k, n :: IsBody(sigs, body) && ReadsMoreTables(body, f, k, n)
    ensures AnalyzeTokens(sigs) !in {Skip(NotSelect), Skip(MultipleStatements), Skip(TokenizeFailed),
                                     Skip(PacketCountChanged)}
  {
    hide AnalyzeBody, IsBody, ReadsNoTable, ReadsMoreTables;
    var body := BodyOf(sigs);
    TheBody(sigs);
    assert IsBody(sigs, body);
    NoTableIsRead(body);
    MoreTables(body);
    BodyReasons(body);
  }

  lemma {:induction false} BodyReasons(body: seq<Sig>)
    ensures AnalyzeBody(body) !in {Skip(NotSelect), Skip(MultipleStatements), Skip(TokenizeFailed),
                                   Skip(PacketCountChanged)}
  {
    var from := FirstAt(body, 0, IsFrom);
    if from < |body| && ReferenceAt(body, from + 1).Err? {
      NoOtherErrors(body, from + 1);
    }
  }

  lemma {:induction false} SigReasons(sigs: seq<Sig>)
    ensures AnalyzeTokens(sigs) == Skip(NotSelect) <==>
              sigs != [] && !IsPunct(sigs[0].kind, sigs[0].text, '(')
              && !WordIn(sigs[0].kind, sigs[0].text, {"SELECT", "WITH"})
    ensures AnalyzeTokens(sigs) == Skip(MultipleStatements) <==>
              sigs != [] && WordIn(sigs[0].kind, sigs[0].text, {"SELECT"})
              && exists i :: 0 <= i < |sigs| - 1 && IsSeparator(sigs[i])
    ensures AnalyzeTokens(sigs) == NoTable <==> sigs == [] || exists body :: IsBody(sigs, body) && ReadsNoTable(body)
    ensures AnalyzeTokens(sigs) == Skip(MultipleTables) <==>
              exists body, f, k, n :: IsBody(sigs, body) && ReadsMoreTables(body, f, k, n)
    ensures AnalyzeTokens(sigs) !in {Skip(TokenizeFailed), Skip(PacketCountChanged)}
  {
    hide AnalyzeBody, IsBody, ReadsNoTable, ReadsMoreTables, BodyOf, FirstAt;
    TheBody(sigs);
    if sigs != [] && WordIn(sigs[0].kind, sigs[0].text, {"SELECT"}) && FirstAt(sigs, 0, IsSeparator) + 1 >= |sigs| {
      SelectReasons(sigs);
    } else {
      OnlySelectsRead(sigs);
    }
  }

  // ----- What a written name is read as -----------------------------------------------------------------------------

  /** A name as it is written between backticks. */
  function Doubled(name: string): string {
    if name == "" then "" else (if name[0] == '`' then "``" else [name[0]]) + Doubled(name[1..])
  }

  function Quoted(name: string): string {
    "`" + Doubled(name) + "`"
  }

  predicate TickAtEdge(name: string) {
    name != "" && (name[0] == '`' || name[|name| - 1] == '`')
  }

  lemma {:induction false} DoubledEdges(name: string)
    ensures Doubled(name) == "" <==> name == ""
    ensures name != "" ==>
              (Doubled(name)[0] == '`' <==> name[0] == '`')
              && (Doubled(name)[|Doubled(name)| - 1] == '`' <==> name[|name| - 1] == '`')
  {
    if |name| > 1 {
      DoubledEdges(name[1..]);
      assert name[1..][|name| - 2] == name[|name| - 1];
    } else if name != "" {
      assert Doubled(name[1..]) == "";
    }
  }

  lemma {:induction false} UndoubledDoubled(name: string)
    ensures Undouble(Doubled(name)) == name
  {
    if name != "" {
      UndoubledDoubled(name[1..]);
      var rest := Doubled(name[1..]);
      if name[0] == '`' {
        assert ("``" + rest)[2..] == rest && [name[0]] + name[1..] == name;
      } else {
        assert ([name[0]] + rest)[1..] == rest && [name[0]] + name[1..] == name;
      }
    }
  }

  lemma {:induction false} TrimmedTicks(s: string)
    ensures !TickAtEdge(TrimTicks(s))
    decreases |s|
  {
    if s != "" && s[0] == '`' {
      TrimmedTicks(s[1..]);
    } else if s != "" && s[|s| - 1] == '`' {
      TrimmedTicks(s[..|s| - 1]);
    }
  }

  lemma {:induction false} UndoubledEdges(s: string)
    ensures s == "" <==> Undouble(s) == ""
    ensures s != "" && s[0] != '`' ==> Undouble(s)[0] == s[0]
    ensures s != "" && s[|s| - 1] != '`' ==> Undouble(s)[|Undouble(s)| - 1] == s[|s| - 1]
    decreases |s|
  {
    if |s| >= 2 && s[0] == '`' && s[1] == '`' {
      UndoubledEdges(s[2..]);
      assert |s| > 2 ==> s[2..][|s| - 3] == s[|s| - 1];
    } else if s != "" {
      UndoubledEdges(s[1..]);
      assert |s| > 1 ==> s[1..][|s| - 2] == s[|s| - 1];
    }
  }

  /** A quoted name is read as that name in lower case, exactly when no backtick stands at its edge. */
  lemma {:induction false} QuotedNameIsReadBack(name: string)
    ensures NormalizeIdent(Quoted(name)) == Lower(name) <==> !TickAtEdge(name)
  {
    DoubledEdges(name);
    if TickAtEdge(name) {
      var trimmed := TrimTicks(Quoted(name));
      TrimmedTicks(Quoted(name));
      UndoubledEdges(trimmed);
      assert trimmed != "" ==> LowerChar(Undouble(trimmed)[0]) != '`';
      assert LowerChar('`') == '`';
    } else if name == "" {
      assert Quoted("") == "``" && "``"[1..] == "`" && "`"[1..] == "";
      assert TrimTicks("`") == "";
      assert TrimTicks("``") == "";
      assert Undouble("") == "";
    } else {
      RuleNames.WithoutOuterTicks(Doubled(name));
      UndoubledDoubled(name);
    }
  }

  /** A bare name is read as itself in lower case. */
  lemma {:induction false} BareNameIsReadBack(name: string)
    requires '`' !in name
    ensures NormalizeIdent(name) == Lower(name)
  {
    assert name != "" ==> name[0] in name && name[|name| - 1] in name;
    NoPairs(name);
  }

  lemma {:induction false} NoPairs(name: string)
    requires '`' !in name
    ensures Undouble(name) == name
  {
    if name != "" {
      assert name[0] in name;
      NoPairs(name[1..]);
      assert [name[0]] + name[1..] == name;
    }
  }
}

/** Statement shape analysis: the one-table SELECTs a predicate can be injected into. */
module SqlShape {
  import opened Common
  import opened Lexer
  import opened Chains

  /** A significant token with its span and the parenthesis depth at which it appears. */
  datatype Sig = Sig(kind: Kind, text: string, start: nat, end: nat, depth: nat)

  datatype SkipReason = NotSelect | MultipleTables | UnsupportedStructure | MultipleStatements
                      | TokenizeFailed | NoInsertionPoint | PacketCountChanged

  datatype TableRef = TableRef(schema: Option<string>, name: string)

  datatype WhereExtent = WhereExtent(afterKeyword: nat, end: nat)

  datatype Analysis = Analysis(table: TableRef, insertAt: nat, whereClause: Option<WhereExtent>)

  datatype Shape = Eligible(analysis: Analysis) | NoTable | Skip(reason: SkipReason)

  const CLAUSE_KEYWORDS := {"WHERE", "GROUP", "HAVING", "WINDOW", "ORDER", "LIMIT", "OFFSET", "PROCEDURE",
                            "INTO", "FOR", "LOCK", "UNION", "INTERSECT", "EXCEPT"}

  const JOIN_KEYWORDS := {"JOIN", "INNER", "LEFT", "RIGHT", "CROSS", "FULL", "NATURAL", "STRAIGHT_JOIN"}

  const POST_TABLE_UNSUPPORTED := {"USE", "FORCE", "IGNORE", "PARTITION", "TABLESAMPLE"}

  predicate WordIn(kind: Kind, text: string, words: set<string>) {
    kind == Word && Upper(text) in words
  }

  predicate IsPunct(kind: Kind, text: string, want: char) {
    kind == Punct && text == [want]
  }

  predicate IsClause(sig: Sig) {
    sig.depth == 0 && WordIn(sig.kind, sig.text, CLAUSE_KEYWORDS)
  }

  predicate IsSeparator(sig: Sig) {
    sig.depth == 0 && IsPunct(sig.kind, sig.text, ';')
  }

  predicate IsFrom(sig: Sig) {
    sig.depth == 0 && WordIn(sig.kind, sig.text, {"FROM"})
  }

  predicate IsSetOperator(sig: Sig) {
    sig.depth == 0 && WordIn(sig.kind, sig.text, {"UNION", "INTERSECT", "EXCEPT"})
  }

  predicate IsParenthesis(sig: Sig) {
    IsPunct(sig.kind, sig.text, '(') || IsPunct(sig.kind, sig.text, ')')
  }

  predicate IsName(sig: Sig) {
    sig.kind == Word || sig.kind == QuotedIdent
  }

  /** Tokens that are neither blank, comment nor gate marker. */
  predicate IsSignificant(kind: Kind) {
    kind != Whitespace && kind != Comment && kind != ExecOpen && kind != ExecClose
  }

  function DepthAt(token: Lexeme, depth: nat): nat {
    if IsPunct(token.kind, token.text, ')') && depth > 0 then depth - 1 else depth
  }

  function DepthAfter(token: Lexeme, depth: nat): nat {
    if IsPunct(token.kind, token.text, '(') then depth + 1 else DepthAt(token, depth)
  }

  function Significant(tokens: seq<Lexeme>, at: nat, depth: nat): seq<Sig> {
    if tokens == [] then []
    else
      var token := tokens[0];
      var end := at + |token.text|;
      if IsSignificant(token.kind) then
        [Sig(token.kind, token.text, at, end, DepthAt(token, depth))]
        + Significant(tokens[1..], end, DepthAfter(token, depth))
      else Significant(tokens[1..], end, depth)
  }

  /** The first index at or after `from` whose token satisfies the test, or the length. */
  function FirstAt(sigs: seq<Sig>, from: nat, test: Sig -> bool): (index: nat)
    ensures from <= |sigs| ==> from <= index <= |sigs|
    ensures from <= |sigs| && index < |sigs| ==> test(sigs[index])
    ensures forall k :: from <= k < index && k < |sigs| ==> !test(sigs[k])
    decreases |sigs| - from
  {
    if from >= |sigs| then |sigs|
    else if test(sigs[from]) then from
    else FirstAt(sigs, from + 1, test)
  }

  /** Strips outer backticks, undoubles inner ones and folds ASCII case. */
  function NormalizeIdent(raw: string): string {
    Lower(Undouble(TrimTicks(raw)))
  }

  function TrimTicks(s: string): string
    decreases |s|
  {
    if s != "" && s[0] == '`' then TrimTicks(s[1..])
    else if s != "" && s[|s| - 1] == '`' then TrimTicks(s[..|s| - 1])
    else s
  }

  function Undouble(s: string): string {
    if s == "" then ""
    else if |s| >= 2 && s[0] == '`' && s[1] == '`' then "`" + Undouble(s[2..])
    else [s[0]] + Undouble(s[1..])
  }

  predicate IsOpener(a: Sig, b: Sig) {
    IsPunct(a.kind, a.text, '(') && WordIn(b.kind, b.text, {"SELECT", "WITH"})
  }

  /** A subquery opener: a parenthesis directly before SELECT or WITH. */
  predicate OpensSubquery(sigs: seq<Sig>) {
    exists i :: 0 <= i < |sigs| - 1 && IsOpener(sigs[i], sigs[i + 1])
  }

  /** A parsed table reference: the table, where its last token ends, and the next index. */
  datatype Reference = Reference(table: TableRef, end: nat, next: nat)

  /** A reference ends with the name just before the next index. */
  predicate EndsAtName(body: seq<Sig>, reference: Reference) {
    && 0 < reference.next <= |body|
    && IsName(body[reference.next - 1]) && reference.end == body[reference.next - 1].end
  }

  predicate NoParentheses(body: seq<Sig>, from: nat, to: nat) {
    forall k :: from <= k < to && k < |body| ==> !IsParenthesis(body[k])
  }

  /** The optionally qualified name at an index, without any alias. */
  function TableName(body: seq<Sig>, at: nat): (r: Result<Reference, Shape>)
    requires at <= |body|
    ensures r.Ok? ==> at < r.value.next && EndsAtName(body, r.value) && NoParentheses(body, at, r.value.next)
    ensures r.Err? ==> !r.error.Eligible?
  {
    if at == |body| || !IsName(body[at]) then Err(Skip(UnsupportedStructure))
    else if WordIn(body[at].kind, body[at].text, {"DUAL"}) then Err(NoTable)
    else
      var name := NormalizeIdent(body[at].text);
      if at + 1 < |body| && IsPunct(body[at + 1].kind, body[at + 1].text, '.') then
        if at + 2 == |body| || !IsName(body[at + 2]) then Err(Skip(UnsupportedStructure))
        else Ok(Reference(TableRef(Some(name), NormalizeIdent(body[at + 2].text)), body[at + 2].end, at + 3))
      else Ok(Reference(TableRef(None, name), body[at].end, at + 1))
  }

  predicate IsBareAlias(sig: Sig) {
    sig.kind == QuotedIdent
    || (sig.kind == Word && Upper(sig.text) !in CLAUSE_KEYWORDS && Upper(sig.text) !in JOIN_KEYWORDS
        && Upper(sig.text) !in POST_TABLE_UNSUPPORTED)
  }

  /** The reference with its alias, if it has one. */
  function Aliased(body: seq<Sig>, reference: Reference): (r: Result<Reference, Shape>)
    requires EndsAtName(body, reference)
    ensures r.Ok? ==> reference.next <= r.value.next && EndsAtName(body, r.value)
    ensures r.Ok? ==> r.value.table == reference.table && NoParentheses(body, reference.next, r.value.next)
    ensures r.Err? ==> !r.error.Eligible?
  {
    var i := reference.next;
    if i >= |body| then Ok(reference)
    else if WordIn(body[i].kind, body[i].text, {"AS"}) then
      if i + 1 == |body| || !IsName(body[i + 1]) then Err(Skip(UnsupportedStructure))
      else Ok(Reference(reference.table, body[i + 1].end, i + 2))
    else if IsBareAlias(body[i]) then Ok(Reference(reference.table, body[i].end, i + 1))
    else Ok(reference)
  }

  /** The reference that starts at an index. */
  function ReferenceAt(body: seq<Sig>, at: nat): (r: Result<Reference, Shape>)
    requires at <= |body|
    ensures r.Ok? ==> at < r.value.next && EndsAtName(body, r.value) && NoParentheses(body, at, r.value.next)
    ensures r.Err? ==> !r.error.Eligible?
  {
    var named :- TableName(body, at);
    Aliased(body, named)
  }

  function WhereOf(body: seq<Sig>, from: nat): Option<WhereExtent>
    requires from <= |body|
  {
    var pos := FirstAt(body, from, IsClause);
    if pos < |body| && Upper(body[pos].text) == "WHERE" then
      var next := FirstAt(body, pos + 1, IsClause);
      Some(WhereExtent(body[pos].end, if next < |body| then body[next].start else body[|body| - 1].end))
    else None
  }

  function AnalyzeReference(body: seq<Sig>, reference: Reference): Shape
    requires reference.next <= |body|
  {
    var i := reference.next;
    if i < |body| && (IsPunct(body[i].kind, body[i].text, ',') || WordIn(body[i].kind, body[i].text, JOIN_KEYWORDS))
    then Skip(MultipleTables)
    else if i < |body| && !WordIn(body[i].kind, body[i].text, CLAUSE_KEYWORDS) then Skip(UnsupportedStructure)
    else
      var extent := WhereOf(body, i);
      if extent.Some? && extent.value.end < extent.value.afterKeyword then Skip(NoInsertionPoint)
      else Eligible(Analysis(reference.table, reference.end, extent))
  }

  /** The analysis of a SELECT without its trailing separator. */
  function AnalyzeBody(body: seq<Sig>): Shape {
    if OpensSubquery(body) then Skip(UnsupportedStructure)
    else if FirstAt(body, 0, IsSetOperator) < |body| then Skip(UnsupportedStructure)
    else
      var from := FirstAt(body, 0, IsFrom);
      if from == |body| then NoTable
      else if FirstAt(body, from + 1, IsFrom) < |body| then Skip(UnsupportedStructure)
      else
        match ReferenceAt(body, from + 1)
        case Err(shape) => shape
        case Ok(reference) => AnalyzeReference(body, reference)
  }

  /** The statement up to its trailing separator, which is part of it. */
  function BodyOf(sigs: seq<Sig>): seq<Sig> {
    sigs[..FirstAt(sigs, 0, IsSeparator)]
  }

  function AnalyzeTokens(sigs: seq<Sig>): Shape {
    if sigs == [] then NoTable
    else if IsPunct(sigs[0].kind, sigs[0].text, '(') || WordIn(sigs[0].kind, sigs[0].text, {"WITH"}) then
      Skip(UnsupportedStructure)
    else if !WordIn(sigs[0].kind, sigs[0].text, {"SELECT"}) then Skip(NotSelect)
    else
      if FirstAt(sigs, 0, IsSeparator) + 1 < |sigs| then Skip(MultipleStatements)
      else AnalyzeBody(BodyOf(sigs))
  }

  function Analyze(sql: string): Shape {
    match Lex(sql, false)
    case None => Skip(TokenizeFailed)
    case Some(tokens) => AnalyzeTokens(Significant(tokens, 0, 0))
  }

  /** Every check an accepted statement has passed. */
  predicate Accepted(sigs: seq<Sig>) {
    && sigs != [] && WordIn(sigs[0].kind, sigs[0].text, {"SELECT"})
    && FirstAt(sigs, 0, IsSeparator) + 1 >= |sigs|
    && AcceptedBody(BodyOf(sigs))
  }

  predicate AcceptedBody(body: seq<Sig>) {
    var from := FirstAt(body, 0, IsFrom);
    && !OpensSubquery(body)
    && FirstAt(body, 0, IsSetOperator) == |body|
    && from < |body| && FirstAt(body, from + 1, IsFrom) == |body|
    && ReferenceAt(body, from + 1).Ok?
    && AnalyzeReference(body, ReferenceAt(body, from + 1).value).Eligible?
  }

  /** The table reference of an accepted statement. */
  function ReferenceOf(body: seq<Sig>): Reference
    requires AcceptedBody(body)
  {
    ReferenceAt(body, FirstAt(body, 0, IsFrom) + 1).value
  }

  lemma {:induction false} EligibleIsAccepted(sigs: seq<Sig>)
    ensures AnalyzeTokens(sigs).Eligible? <==> Accepted(sigs)
    ensures Accepted(sigs) ==> AnalyzeTokens(sigs) == AnalyzeReference(BodyOf(sigs), ReferenceOf(BodyOf(sigs)))
  {
    assert sigs != [] && sigs[0].kind == Word ==> !IsPunct(sigs[0].kind, sigs[0].text, '(');
  }

  // ----- Significant tokens and the tokens they come from ---------------------------------------------

  function DepthEnd(tokens: seq<Lexeme>, depth: nat): nat {
    if tokens == [] then depth else DepthEnd(tokens[1..], DepthAfter(tokens[0], depth))
  }

  lemma {:induction false} DepthEndSplits(a: seq<Lexeme>, b: seq<Lexeme>, depth: nat)
    ensures DepthEnd(a + b, depth) == DepthEnd(b, DepthEnd(a, depth))
  {
    if a == [] {
      assert a + b == b;
    } else {
      DepthEndSplits(a[1..], b, DepthAfter(a[0], depth));
      assert (a + b)[0] == a[0] && (a + b)[1..] == a[1..] + b;
    }
  }

  /** The significant part of one token. */
  function SigOf(token: Lexeme, at: nat, depth: nat): seq<Sig> {
    if IsSignificant(token.kind) then
      [Sig(token.kind, token.text, at, at + |token.text|, DepthAt(token, depth))]
    else []
  }

  lemma {:induction false} SignificantUnfolds(tokens: seq<Lexeme>, at: nat, depth: nat)
    requires tokens != []
    ensures Significant(tokens, at, depth)
         == SigOf(tokens[0], at, depth)
            + Significant(tokens[1..], at + |tokens[0].text|, DepthAfter(tokens[0], depth))
  {
    if !IsSignificant(tokens[0].kind) {
      var rest := Significant(tokens[1..], at + |tokens[0].text|, DepthAfter(tokens[0], depth));
      assert [] + rest == rest;
    }
  }

  lemma {:induction false} Regroup<T>(a: seq<T>, b: seq<T>, c: seq<T>)
    ensures a + (b + c) == (a + b) + c
  {
  }

  lemma {:induction false} Three<T>(a: T, b: T, c: T, rest: seq<T>)
    ensures [a] + ([b] + ([c] + rest)) == [a, b, c] + rest
  {
  }

  lemma {:induction false} SignificantSplits(a: seq<Lexeme>, b: seq<Lexeme>, at: nat, depth: nat)
    ensures Significant(a + b, at, depth)
         == Significant(a, at, depth) + Significant(b, at + |Concat(a)|, DepthEnd(a, depth))
  {
    if a == [] {
      assert a + b == b;
      assert [] + Significant(b, at, depth) == Significant(b, at, depth);
    } else {
      var end, after := at + |a[0].text|, DepthAfter(a[0], depth);
      assert (a + b)[0] == a[0] && (a + b)[1..] == a[1..] + b;
      SignificantSplits(a[1..], b, end, after);
      SignificantUnfolds(a, at, depth);
      SignificantUnfolds(a + b, at, depth);
      Regroup(SigOf(a[0], at, depth), Significant(a[1..], end, after),
              Significant(b, at + |Concat(a)|, DepthEnd(a, depth)));
    }
  }

  /** The tokens cut in front of the `k`-th significant one. */
  lemma {:induction false} CutBefore(tokens: seq<Lexeme>, at: nat, depth: nat, k: nat)
    returns (a: seq<Lexeme>, b: seq<Lexeme>)
    requires k < |Significant(tokens, at, depth)|
    ensures tokens == a + b && b != [] && IsSignificant(b[0].kind)
    ensures |Significant(a, at, depth)| == k
  {
    SignificantUnfolds(tokens, at, depth);
    var own := SigOf(tokens[0], at, depth);
    if k < |own| {
      a, b := [], tokens;
      assert tokens == [] + tokens;
    } else {
      var c;
      c, b := CutBefore(tokens[1..], at + |tokens[0].text|, DepthAfter(tokens[0], depth), k - |own|);
      a := [tokens[0]] + c;
      assert tokens == a + b;
      SignificantUnfolds(a, at, depth);
      assert a[1..] == c;
    }
  }

  /** A significant token records where it starts and ends and how deep it stands. */
  lemma {:induction false} SigRecords(tokens: seq<Lexeme>, at: nat, depth: nat, k: nat)
    returns (a: seq<Lexeme>, token: Lexeme, b: seq<Lexeme>)
    requires k < |Significant(tokens, at, depth)|
    ensures tokens == a + [token] + b && IsSignificant(token.kind)
    ensures var start := at + |Concat(a)|;
            Significant(tokens, at, depth)[k]
            == Sig(token.kind, token.text, start, start + |token.text|, DepthAt(token, DepthEnd(a, depth)))
    ensures Significant(tokens, at, depth)[..k] == Significant(a, at, depth)
    ensures Significant(tokens, at, depth)[k + 1..]
         == Significant(b, at + |Concat(a)| + |token.text|, DepthAfter(token, DepthEnd(a, depth)))
  {
    var tail;
    a, tail := CutBefore(tokens, at, depth, k);
    token, b := tail[0], tail[1..];
    assert a + [token] + b == a + tail;
    SignificantSplits(a, tail, at, depth);
    SignificantUnfolds(tail, at + |Concat(a)|, DepthEnd(a, depth));
  }
}

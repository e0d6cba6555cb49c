/** Predicate validation, rule lookup and the splice. */
module RowFilter {
  import opened Common
  import opened Lexer
  import opened MaximalMunch
  import opened Chains
  import opened SqlShape
  import Tokenize

  datatype PredicateError = Empty | NotTokenizable | UnbalancedParentheses | StatementSeparator
                          | Placeholder | CommentRefused

  /** The depth after some tokens, or `None` once a parenthesis closes nothing. */
  function Balance(tokens: seq<Lexeme>, depth: nat): Option<nat> {
    if tokens == [] then Some(depth)
    else if IsPunct(tokens[0].kind, tokens[0].text, '(') then Balance(tokens[1..], depth + 1)
    else if IsPunct(tokens[0].kind, tokens[0].text, ')') then
      if depth == 0 then None else Balance(tokens[1..], depth - 1)
    else Balance(tokens[1..], depth)
  }

  predicate IsCommentary(kind: Kind) {
    kind == Comment || kind == ExecOpen || kind == ExecClose
  }

  predicate Harmless(token: Lexeme) {
    !IsCommentary(token.kind) && !IsPunct(token.kind, token.text, ';') && !IsPunct(token.kind, token.text, '?')
  }

  /** What validation promises: one balanced run of harmless tokens. */
  predicate Valid(text: string) {
    var trimmed := Trim(text);
    && trimmed != ""
    && Lex(trimmed, false).Some?
    && (forall i :: 0 <= i < |Lex(trimmed, false).value| ==> Harmless(Lex(trimmed, false).value[i]))
    && Balance(Lex(trimmed, false).value, 0) == Some(0)
  }

  lemma {:induction false} BalanceSplits(a: seq<Lexeme>, b: seq<Lexeme>, depth: nat)
    ensures Balance(a + b, depth)
         == if Balance(a, depth).Some? then Balance(b, Balance(a, depth).value) else None
  {
    if a == [] {
      assert a + b == b;
    } else {
      assert (a + b)[0] == a[0] && (a + b)[1..] == a[1..] + b;
      BalanceSplits(a[1..], b, depth + 1);
      BalanceSplits(a[1..], b, depth);
      if depth > 0 {
        BalanceSplits(a[1..], b, depth - 1);
      }
    }
  }

  lemma {:induction false} BalanceSteps(token: Lexeme, depth: nat)
    ensures Balance([token], depth)
         == if IsPunct(token.kind, token.text, '(') then Some(depth + 1)
            else if IsPunct(token.kind, token.text, ')') then (if depth == 0 then None else Some(depth - 1))
            else Some(depth)
  {
    assert [token][1..] == [];
  }

  /** Where validation stands after a prefix of the tokens. */
  ghost predicate Checked(tokens: seq<Lexeme>, at: nat, depth: int) {
    && at <= |tokens| && 0 <= depth
    && (forall i :: 0 <= i < at ==> Harmless(tokens[i]))
    && Balance(tokens[..at], 0) == Some(depth)
  }

  lemma {:induction false} CheckOne(tokens: seq<Lexeme>, at: nat, depth: int)
    requires Checked(tokens, at, depth) && at < |tokens|
    ensures Balance(tokens[..at + 1], 0) == Balance([tokens[at]], depth)
    ensures Balance([tokens[at]], depth).None? ==> Balance(tokens, 0).None?
  {
    assert tokens[..at + 1] == tokens[..at] + [tokens[at]];
    BalanceSplits(tokens[..at], [tokens[at]], 0);
    assert tokens == tokens[..at + 1] + tokens[at + 1..];
    BalanceSplits(tokens[..at + 1], tokens[at + 1..], 0);
  }

  /** The first token at which a predicate cannot pass, or its end, and why. */
  ghost predicate Offends(tokens: seq<Lexeme>, at: nat, error: PredicateError) {
    && at <= |tokens| && (forall i :: 0 <= i < at ==> Harmless(tokens[i])) && Balance(tokens[..at], 0).Some?
    && match error
       case UnbalancedParentheses =>
         if at == |tokens| then Balance(tokens, 0) != Some(0)
         else tokens[at] == Lexeme(Punct, ")") && Balance(tokens[..at], 0) == Some(0)
       case StatementSeparator => at < |tokens| && tokens[at] == Lexeme(Punct, ";")
       case Placeholder => at < |tokens| && tokens[at] == Lexeme(Punct, "?")
       case CommentRefused => at < |tokens| && IsCommentary(tokens[at].kind)
       case _ => false
  }

  /** A predicate passes exactly when it is one balanced run of harmless tokens; the error says what comes first. */
  method ValidatePredicate(text: string) returns (error: Option<PredicateError>)
    ensures error.None? <==> Valid(text)
    ensures error == Some(Empty) <==> Trim(text) == ""
    ensures error == Some(NotTokenizable) <==> Trim(text) != "" && Lex(Trim(text), false).None?
    ensures error.Some? && Trim(text) != "" && Lex(Trim(text), false).Some? ==>
              exists at :: Offends(Lex(Trim(text), false).value, at, error.value)
  {
    var trimmed := Trim(text);
    if trimmed == "" {
      return Some(Empty);
    }
    var tokens := Tokenize.Tokenize(trimmed);
    if tokens.Err? {
      return Some(NotTokenizable);
    }
    error := CheckTokens(trimmed, tokens.value, Lex(trimmed, false).value);
  }

  method CheckTokens(trimmed: string, tokens: seq<Tokenize.Token>, ghost lexemes: seq<Lexeme>)
    returns (error: Option<PredicateError>)
    requires Tokenize.Lexemes(tokens, trimmed) == lexemes
    ensures error.None? <==> (forall i :: 0 <= i < |lexemes| ==> Harmless(lexemes[i]))
                             && Balance(lexemes, 0) == Some(0)
    ensures error.Some? ==> exists at :: Offends(lexemes, at, error.value)
  {
    var depth: int := 0;
    for at := 0 to |tokens|
      invariant Checked(lexemes, at, depth)
    {
      var token := Tokenize.LexemeOf(tokens[at], trimmed);
      assert token == lexemes[at];
      CheckOne(lexemes, at, depth);
      BalanceSteps(token, depth);
      match token.kind
      case Comment | ExecOpen | ExecClose =>
        assert Offends(lexemes, at, CommentRefused);
        return Some(CommentRefused);
      case Punct =>
        if token.text == "(" {
          depth := depth + 1;
        } else if token.text == ")" {
          depth := depth - 1;
          if depth < 0 {
            assert Offends(lexemes, at, UnbalancedParentheses);
            return Some(UnbalancedParentheses);
          }
        } else if token.text == ";" {
          assert Offends(lexemes, at, StatementSeparator);
          return Some(StatementSeparator);
        } else if token.text == "?" {
          assert Offends(lexemes, at, Placeholder);
          return Some(Placeholder);
        }
      case _ =>
    }
    assert lexemes[..|lexemes|] == lexemes;
    assert depth != 0 ==> Offends(lexemes, |lexemes|, UnbalancedParentheses);
    return if depth != 0 then Some(UnbalancedParentheses) else None;
  }

  // ----- The splice --------------------------------------------------------------------------------------

  /** The rest of the statement, kept apart from the injected text by a blank if need be. */
  function Remainder(rest: string): string {
    if rest != "" && !IsSpace(rest[0]) then " " + rest else rest
  }

  predicate InRange(sql: string, analysis: Analysis) {
    match analysis.whereClause
    case None => analysis.insertAt <= |sql|
    case Some(extent) => extent.afterKeyword <= extent.end <= |sql|
  }

  function Splice(sql: string, analysis: Analysis, text: string): string
    requires InRange(sql, analysis)
  {
    match analysis.whereClause
    case None => sql[..analysis.insertAt] + " WHERE (" + text + ")" + Remainder(sql[analysis.insertAt..])
    case Some(extent) =>
      sql[..extent.afterKeyword] + " (" + sql[extent.afterKeyword..extent.end] + ") AND (" + text + ")"
      + Remainder(sql[extent.end..])
  }

  /** The rewritten statement, assembled piece by piece. */
  method BuildSplice(sql: string, analysis: Analysis, text: string) returns (out: string)
    requires InRange(sql, analysis)
    ensures out == Splice(sql, analysis, text)
  {
    var from;
    match analysis.whereClause {
      case None =>
        out := sql[..analysis.insertAt];
        out := out + " WHERE (";
        from := analysis.insertAt;
      case Some(extent) =>
        out := sql[..extent.afterKeyword];
        out := out + " (";
        out := out + sql[extent.afterKeyword..extent.end];
        out := out + ") AND (";
        from := extent.end;
    }
    out := out + text;
    out := out + ")";
    out := out + Remainder(sql[from..]);
  }

  // ----- Rules -------------------------------------------------------------------------------------------------

  /** A rule key: a table name, optionally qualified by a schema. */
  datatype RuleKey = RuleKey(schema: Option<string>, name: string)

  function WithoutTicks(s: string): (r: string)
    ensures '`' !in r && (forall c :: c in r ==> c in s)
  {
    if s == "" then "" else (if s[0] == '`' then "" else [s[0]]) + WithoutTicks(s[1..])
  }

  /** Where the first dot stands, or the length. */
  function DotAt(s: string): (at: nat)
    ensures at <= |s| && '.' !in s[..at] && (at < |s| ==> s[at] == '.')
  {
    if s == "" || s[0] == '.' then 0
    else
      assert forall i :: 0 < i < |s| ==> s[i] == s[1..][i - 1];
      assert s[..1 + DotAt(s[1..])] == [s[0]] + s[1..][..DotAt(s[1..])];
      1 + DotAt(s[1..])
  }

  function ParseKey(raw: string): RuleKey {
    var lowered := Lower(Trim(WithoutTicks(raw)));
    var dot := DotAt(lowered);
    if dot < |lowered| then RuleKey(Some(Trim(lowered[..dot])), Trim(lowered[dot + 1..]))
    else RuleKey(None, lowered)
  }

  type Rules = map<RuleKey, string>

  /** Later entries of the configuration win over earlier ones with the same key. */
  function Compiled(raw: seq<(string, string)>): Rules {
    if raw == [] then map[]
    else Compiled(raw[..|raw| - 1])[ParseKey(raw[|raw| - 1].0) := Trim(raw[|raw| - 1].1)]
  }

  /** The first `n` configured predicates are valid. */
  ghost predicate ValidUpTo(raw: seq<(string, string)>, n: nat) {
    forall i :: 0 <= i < n && i < |raw| ==> Valid(raw[i].1)
  }

  lemma {:induction false} OneMoreValid(raw: seq<(string, string)>, n: nat)
    requires n < |raw| && ValidUpTo(raw, n) && Valid(raw[n].1)
    ensures ValidUpTo(raw, n + 1)
  {
  }

  lemma {:induction false} OneMoreRule(raw: seq<(string, string)>, n: nat)
    requires n < |raw|
    ensures Compiled(raw[..n + 1]) == Compiled(raw[..n])[ParseKey(raw[n].0) := Trim(raw[n].1)]
  {
    assert raw[..n + 1][..n] == raw[..n];
  }

  /** The error names the table of the first predicate that is not valid. */
  ghost predicate NamesFirstBad(raw: seq<(string, string)>, r: Result<Rules, (string, PredicateError)>)
    requires r.Err?
  {
    exists i :: 0 <= i < |raw| && r.error.0 == raw[i].0 && !Valid(raw[i].1) && ValidUpTo(raw, i)
  }

  /** Every configured predicate is checked; the first bad one, in iteration order, names its table. */
  method Compile(raw: seq<(string, string)>) returns (r: Result<Rules, (string, PredicateError)>)
    ensures r.Ok? <==> ValidUpTo(raw, |raw|)
    ensures r.Ok? ==> r.value == Compiled(raw)
    ensures r.Err? ==> NamesFirstBad(raw, r)
  {
    var rules: Rules := map[];
    for i := 0 to |raw|
      invariant rules == Compiled(raw[..i]) && ValidUpTo(raw, i)
    {
      var error := ValidatePredicate(raw[i].1);
      if error.Some? {
        return Err((raw[i].0, error.value));
      }
      OneMoreRule(raw, i);
      OneMoreValid(raw, i);
      rules := rules[ParseKey(raw[i].0) := Trim(raw[i].1)];
    }
    assert raw[..|raw|] == raw;
    return Ok(rules);
  }

  /** The predicate for a table: a rule for its schema first, then one for its bare name. */
  function LookupRule(rules: Rules, table: TableRef): Option<string> {
    if table.schema.Some? && RuleKey(table.schema, table.name) in rules then
      Some(rules[RuleKey(table.schema, table.name)])
    else if RuleKey(None, table.name) in rules then Some(rules[RuleKey(None, table.name)])
    else None
  }

  /** Every compiled rule comes from a configured entry with a valid predicate. */
  lemma {:induction false} CompiledIsConfigured(raw: seq<(string, string)>, key: RuleKey)
    requires ValidUpTo(raw, |raw|) && key in Compiled(raw)
    ensures exists i :: 0 <= i < |raw| && ParseKey(raw[i].0) == key && Compiled(raw)[key] == Trim(raw[i].1)
  {
    var n := |raw| - 1;
    var before := raw[..n];
    if key == ParseKey(raw[n].0) {
      assert Compiled(raw)[key] == Trim(raw[n].1);
    } else {
      assert forall i :: 0 <= i < n ==> before[i] == raw[i];
      CompiledIsConfigured(before, key);
    }
  }

  /** A predicate the stage applies is one that passed validation. */
  lemma {:induction false} AppliedRuleIsValid(raw: seq<(string, string)>, table: TableRef) returns (text: string)
    requires ValidUpTo(raw, |raw|) && LookupRule(Compiled(raw), table).Some?
    ensures Valid(text) && LookupRule(Compiled(raw), table).value == Trim(text)
  {
    var rules := Compiled(raw);
    var qualified := RuleKey(table.schema, table.name);
    var key := if table.schema.Some? && qualified in rules then qualified else RuleKey(None, table.name);
    CompiledIsConfigured(raw, key);
    var i :| 0 <= i < |raw| && ParseKey(raw[i].0) == key && rules[key] == Trim(raw[i].1);
    text := raw[i].1;
  }
}

/** Statement digests: the statement without its values, comments and spelling of white space. */
module Digest {
  import opened Common
  import opened Lexer
  import Tokenize

  const RESERVED: set<string> :=
    {"ADD", "ALL", "ALTER", "AND", "AS", "ASC", "BETWEEN", "BY", "CALL", "CASE", "CREATE", "CROSS", "DELETE", "DESC",
     "DESCRIBE", "DISTINCT", "DROP", "ELSE", "EXISTS", "EXPLAIN", "FOR", "FOREIGN", "FROM", "GROUP", "HAVING", "IN",
     "INDEX", "INNER", "INSERT", "INTERVAL", "INTO", "IS", "JOIN", "KEY", "LEFT", "LIKE", "LIMIT", "LOCK", "NATURAL",
     "NOT", "ON", "OR", "ORDER", "OUTER", "PRIMARY", "REFERENCES", "REPLACE", "RIGHT", "SELECT", "SET", "SHOW",
     "TABLE", "THEN", "UNION", "UPDATE", "USING", "VALUES", "WHEN", "WHERE", "WITH"}

  const PLACEHOLDER := "?"
  const COLLAPSED_LIST := "(...)"

  predicate IsLiteral(kind: Kind) {
    kind == StringLiteral || kind == Number || kind == HexLiteral || kind == BitLiteral
  }

  /** A reserved word in capitals; any other word as it is. */
  function Folded(text: string): string {
    if Upper(text) in RESERVED then Upper(text) else text
  }

  function NormalizeToken(token: Lexeme): Option<string> {
    if token.kind == Whitespace || token.kind == Comment then None
    else if IsLiteral(token.kind) then Some(PLACEHOLDER)
    else if token.kind == Word then Some(Folded(token.text))
    else Some(token.text)
  }

  function Normalized(tokens: seq<Lexeme>): seq<string> {
    if tokens == [] then []
    else
      var first := NormalizeToken(tokens[0]);
      (if first.Some? then [first.value] else []) + Normalized(tokens[1..])
  }

  // ----- Literal lists -------------------------------------------------------------------------------------------

  predicate InList(token: string) {
    token == PLACEHOLDER || token == ","
  }

  /** The first index at or after `i` that is neither a placeholder nor a comma. */
  function RunEnd(tokens: seq<string>, i: nat): (end: nat)
    requires i <= |tokens|
    ensures i <= end <= |tokens|
    ensures forall k :: i <= k < end ==> InList(tokens[k])
    ensures end < |tokens| ==> !InList(tokens[end])
    decreases |tokens| - i
  {
    if i < |tokens| && InList(tokens[i]) then RunEnd(tokens, i + 1) else i
  }

  /** The length of the literal list at the front, if there is one. */
  function ListLength(tokens: seq<string>): (n: Option<nat>)
    ensures n.Some? ==> 0 < n.value <= |tokens|
  {
    if tokens == [] || tokens[0] != "(" then None
    else
      var end := RunEnd(tokens, 1);
      if end < |tokens| && tokens[end] == ")" && PLACEHOLDER in tokens[1..end] then Some(end + 1) else None
  }

  function Collapse(tokens: seq<string>): seq<string>
    decreases |tokens|
  {
    if tokens == [] then []
    else if ListLength(tokens).Some? then [COLLAPSED_LIST] + Collapse(tokens[ListLength(tokens).value..])
    else [tokens[0]] + Collapse(tokens[1..])
  }

  // ----- Printing --------------------------------------------------------------------------------------------------

  predicate NoSpaceBefore(token: string) {
    token == "," || token == ")" || token == "." || token == ";"
  }

  predicate NoSpaceAfter(token: string) {
    token == "(" || token == "."
  }

  predicate Spaced(previous: Option<string>, token: string) {
    previous.Some? && !NoSpaceBefore(token) && !NoSpaceAfter(previous.value)
  }

  function JoinAfter(previous: Option<string>, tokens: seq<string>): string
    decreases |tokens|
  {
    if tokens == [] then ""
    else
      (if Spaced(previous, tokens[0]) then " " else "") + tokens[0] + JoinAfter(Some(tokens[0]), tokens[1..])
  }

  function DigestText(sql: string): Option<string> {
    match Lex(sql, false)
    case None => None
    case Some(tokens) => Some(JoinAfter(None, Collapse(Normalized(tokens))))
  }

  // ----- The loops ---------------------------------------------------------------------------------------------------

  /** What is collapsed so far, and what is still to be collapsed. */
  ghost predicate Collapsing(tokens: seq<string>, out: seq<string>, i: nat) {
    i <= |tokens| && Collapse(tokens) == out + Collapse(tokens[i..])
  }

  lemma {:induction false} RunShifts(tokens: seq<string>, at: nat, i: nat)
    requires at + i <= |tokens|
    ensures RunEnd(tokens, at + i) == at + RunEnd(tokens[at..], i)
    decreases |tokens| - at - i
  {
    if at + i < |tokens| && InList(tokens[at + i]) {
      RunShifts(tokens, at, i + 1);
    }
  }

  lemma {:induction false} CollapsesList(tokens: seq<string>, out: seq<string>, i: nat)
    requires Collapsing(tokens, out, i) && ListLength(tokens[i..]).Some?
    ensures Collapsing(tokens, out + [COLLAPSED_LIST], i + ListLength(tokens[i..]).value)
  {
    var n := ListLength(tokens[i..]).value;
    assert tokens[i..][n..] == tokens[i + n..];
    assert out + ([COLLAPSED_LIST] + Collapse(tokens[i + n..])) == out + [COLLAPSED_LIST] + Collapse(tokens[i + n..]);
  }

  lemma {:induction false} CollapsesToken(tokens: seq<string>, out: seq<string>, i: nat)
    requires Collapsing(tokens, out, i) && i < |tokens| && ListLength(tokens[i..]).None?
    ensures Collapsing(tokens, out + [tokens[i]], i + 1)
  {
    assert tokens[i..][1..] == tokens[i + 1..];
    assert out + ([tokens[i]] + Collapse(tokens[i + 1..])) == out + [tokens[i]] + Collapse(tokens[i + 1..]);
  }

  /** Looks along a list that starts at a parenthesis. */
  method ScanList(tokens: seq<string>, i: nat) returns (end: Option<nat>)
    requires i < |tokens| && tokens[i] == "("
    ensures end == var n := ListLength(tokens[i..]); if n.Some? then Some(i + n.value) else None
  {
    var j, placeholders := i + 1, 0;
    RunShifts(tokens, i, 1);
    while j < |tokens| && tokens[j] != ")" && InList(tokens[j])
      invariant i < j <= |tokens| && RunEnd(tokens, j) == RunEnd(tokens, i + 1)
      invariant placeholders > 0 <==> PLACEHOLDER in tokens[i + 1..j]
    {
      assert tokens[i + 1..j + 1] == tokens[i + 1..j] + [tokens[j]];
      if tokens[j] == PLACEHOLDER {
        placeholders := placeholders + 1;
      }
      j := j + 1;
    }
    assert tokens[i..][1..j - i] == tokens[i + 1..j];
    return if placeholders > 0 && j < |tokens| && tokens[j] == ")" then Some(j + 1) else None;
  }

  /** Replaces every literal list by one marker. */
  method CollapseLists(tokens: seq<string>) returns (out: seq<string>)
    ensures out == Collapse(tokens)
  {
    out := [];
    var i := 0;
    assert tokens[0..] == tokens && [] + Collapse(tokens) == Collapse(tokens);
    while i < |tokens|
      invariant Collapsing(tokens, out, i)
    {
      var end := None;
      if tokens[i] == "(" {
        end := ScanList(tokens, i);
      }
      if end.Some? {
        CollapsesList(tokens, out, i);
        out, i := out + [COLLAPSED_LIST], end.value;
      } else {
        CollapsesToken(tokens, out, i);
        out, i := out + [tokens[i]], i + 1;
      }
    }
    assert tokens[i..] == [];
  }

  ghost predicate Joining(tokens: seq<string>, out: string, i: nat) {
    i <= |tokens| && JoinAfter(None, tokens) == out + JoinAfter(if i == 0 then None else Some(tokens[i - 1]), tokens[i..])
  }

  lemma {:induction false} JoinsToken(tokens: seq<string>, out: string, i: nat)
    requires Joining(tokens, out, i) && i < |tokens|
    ensures var previous := if i == 0 then None else Some(tokens[i - 1]);
            Joining(tokens, out + (if Spaced(previous, tokens[i]) then " " else "") + tokens[i], i + 1)
  {
    var previous := if i == 0 then None else Some(tokens[i - 1]);
    var gap := if Spaced(previous, tokens[i]) then " " else "";
    assert tokens[i..][1..] == tokens[i + 1..];
    var later := JoinAfter(Some(tokens[i]), tokens[i + 1..]);
    assert out + (gap + tokens[i] + later) == out + gap + tokens[i] + later;
  }

  method Join(tokens: seq<string>) returns (out: string)
    ensures out == JoinAfter(None, tokens)
  {
    out := "";
    assert tokens[0..] == tokens && "" + JoinAfter(None, tokens) == JoinAfter(None, tokens);
    for i := 0 to |tokens|
      invariant Joining(tokens, out, i)
    {
      JoinsToken(tokens, out, i);
      var noSpaceBefore := NoSpaceBefore(tokens[i]);
      var suppressed := i > 0 && NoSpaceAfter(tokens[i - 1]);
      if i > 0 && !noSpaceBefore && !suppressed {
        out := out + " ";
      }
      out := out + tokens[i];
    }
    assert tokens[|tokens|..] == [];
  }

  method ComputeDigest(sql: string) returns (text: Option<string>)
    ensures text == DigestText(sql)
  {
    var tokens := Tokenize.Tokenize(sql);
    if tokens.Err? {
      return None;
    }
    var collapsed := CollapseLists(Normalized(Tokenize.Lexemes(tokens.value, sql)));
    var joined := Join(collapsed);
    return Some(joined);
  }
}

/** The scan that decides whether a statement is a one-table SELECT, and where a predicate may go. */
module Analyzer {
  import opened Common
  import opened Lexer
  import opened Chains
  import opened SqlShape
  import opened Tokenize

  /** What is collected of the significant tokens, and those still to come. */
  ghost predicate Collecting(src: string, tokens: seq<Token>, at: nat, out: seq<Sig>, depth: nat) {
    && at <= |tokens|
    && Significant(Lexemes(tokens, src), 0, 0)
       == out + Significant(Lexemes(tokens, src)[at..], if at < |tokens| then tokens[at].start else |src|, depth)
  }

  /** The significant part of one token, with its recorded span. */
  function SigAt(src: string, token: Token, depth: nat): seq<Sig> {
    if IsSignificant(token.kind) then
      [Sig(token.kind, TextOf(token, src), token.start, token.end, DepthAt(LexemeOf(token, src), depth))]
    else []
  }

  predicate Spans(src: string, tokens: seq<Token>) {
    && (tokens != [] ==> tokens[0].start == 0 && tokens[|tokens| - 1].end == |src|)
    && (forall i :: 0 <= i < |tokens| ==> tokens[i].start < tokens[i].end <= |src|)
    && (forall i :: 0 <= i < |tokens| - 1 ==> tokens[i].end == tokens[i + 1].start)
  }

  lemma {:induction false} CollectsOne(src: string, tokens: seq<Token>, at: nat, out: seq<Sig>, depth: nat)
    requires Spans(src, tokens) && at < |tokens| && Collecting(src, tokens, at, out, depth)
    ensures Collecting(src, tokens, at + 1, out + SigAt(src, tokens[at], depth),
                       DepthAfter(LexemeOf(tokens[at], src), depth))
  {
    var token, rest := tokens[at], Lexemes(tokens, src)[at..];
    var depthAfter := DepthAfter(LexemeOf(token, src), depth);
    SignificantUnfolds(rest, token.start, depth);
    assert rest[0] == LexemeOf(token, src) && rest[1..] == Lexemes(tokens, src)[at + 1..];
    SpanOfToken(src, token);
    Regroup(out, SigAt(src, token, depth), Significant(rest[1..], token.end, depthAfter));
  }

  lemma {:induction false} SpanOfToken(src: string, token: Token)
    requires token.start < token.end <= |src|
    ensures |TextOf(token, src)| == token.end - token.start
    ensures forall depth: nat :: SigAt(src, token, depth) == SigOf(LexemeOf(token, src), token.start, depth)
  {
  }

  /** The significant tokens, each with the depth at which it appears. */
  method CollectSignificant(src: string, tokens: seq<Token>) returns (out: seq<Sig>)
    requires Spans(src, tokens) && (tokens == [] ==> src == "")
    ensures out == Significant(Lexemes(tokens, src), 0, 0)
  {
    out := [];
    var depth := 0;
    assert Lexemes(tokens, src)[0..] == Lexemes(tokens, src);
    for at := 0 to |tokens|
      invariant Collecting(src, tokens, at, out, depth)
    {
      CollectsOne(src, tokens, at, out, depth);
      out, depth := CollectToken(src, tokens[at], out, depth);
    }
    assert Lexemes(tokens, src)[|tokens|..] == [];
  }

  /** One token: kept with its depth if it is significant; parentheses move the depth. */
  method CollectToken(src: string, token: Token, sigs: seq<Sig>, before: nat) returns (out: seq<Sig>, depth: nat)
    ensures out == sigs + SigAt(src, token, before) && depth == DepthAfter(LexemeOf(token, src), before)
  {
    out, depth := sigs, before;
    var text := TextOf(token, src);
    match token.kind
    case Whitespace | Comment | ExecOpen | ExecClose =>
    case Punct =>
      if text == ")" && depth > 0 {
        depth := depth - 1;
      }
      out := out + [Sig(token.kind, text, token.start, token.end, depth)];
      if text == "(" {
        depth := depth + 1;
      }
    case _ =>
      out := out + [Sig(token.kind, text, token.start, token.end, depth)];
  }

  /** A parenthesis directly before SELECT or WITH, found pair by pair. */
  method FindSubquery(body: seq<Sig>) returns (found: bool)
    ensures found == OpensSubquery(body)
  {
    var i := 0;
    while i + 1 < |body|
      invariant forall j :: 0 <= j < i && j < |body| - 1 ==>
                  !(IsPunct(body[j].kind, body[j].text, '(')
                    && WordIn(body[j + 1].kind, body[j + 1].text, {"SELECT", "WITH"}))
    {
      if IsPunct(body[i].kind, body[i].text, '(') && WordIn(body[i + 1].kind, body[i + 1].text, {"SELECT", "WITH"}) {
        return true;
      }
      i := i + 1;
    }
    return false;
  }

  /** The table reference behind FROM, then what follows it, then the extent of WHERE. */
  method AnalyzeReferenceAt(body: seq<Sig>, at: nat) returns (shape: Shape)
    requires at <= |body|
    ensures shape == match ReferenceAt(body, at)
                     case Err(error) => error
                     case Ok(reference) => AnalyzeReference(body, reference)
  {
    var i := at;
    if i == |body| || !IsName(body[i]) {
      return Skip(UnsupportedStructure);
    }
    if WordIn(body[i].kind, body[i].text, {"DUAL"}) {
      return NoTable;
    }
    var schema, name, lastEnd := None, NormalizeIdent(body[i].text), body[i].end;
    i := i + 1;
    if i < |body| && IsPunct(body[i].kind, body[i].text, '.') {
      if i + 1 == |body| || !IsName(body[i + 1]) {
        return Skip(UnsupportedStructure);
      }
      schema, name, lastEnd := Some(name), NormalizeIdent(body[i + 1].text), body[i + 1].end;
      i := i + 2;
    }
    assert TableName(body, at) == Ok(Reference(TableRef(schema, name), lastEnd, i));
    if i < |body| {
      if WordIn(body[i].kind, body[i].text, {"AS"}) {
        if i + 1 == |body| || !IsName(body[i + 1]) {
          return Skip(UnsupportedStructure);
        }
        lastEnd := body[i + 1].end;
        i := i + 2;
      } else if IsBareAlias(body[i]) {
        lastEnd := body[i].end;
        i := i + 1;
      }
    }
    shape := Conclude(body, Reference(TableRef(schema, name), lastEnd, i));
  }

  method Conclude(body: seq<Sig>, reference: Reference) returns (shape: Shape)
    requires reference.next <= |body|
    ensures shape == AnalyzeReference(body, reference)
  {
    var i := reference.next;
    if i < |body| {
      if IsPunct(body[i].kind, body[i].text, ',') || WordIn(body[i].kind, body[i].text, JOIN_KEYWORDS) {
        return Skip(MultipleTables);
      }
      if !WordIn(body[i].kind, body[i].text, CLAUSE_KEYWORDS) {
        return Skip(UnsupportedStructure);
      }
    }
    var extent := WhereOf(body, i);
    if extent.Some? && extent.value.end < extent.value.afterKeyword {
      return Skip(NoInsertionPoint);
    }
    return Eligible(Analysis(reference.table, reference.end, extent));
  }

  /** Analyzes a statement and reports whether a predicate can be injected. */
  method AnalyzeStatement(sql: string) returns (shape: Shape)
    ensures shape == Analyze(sql)
  {
    var tokens := Tokenize.Tokenize(sql);
    if tokens.Err? {
      return Skip(TokenizeFailed);
    }
    SpansTile(sql, tokens.value);
    var sigs := CollectSignificant(sql, tokens.value);
    if sigs == [] {
      return NoTable;
    }
    if IsPunct(sigs[0].kind, sigs[0].text, '(') || WordIn(sigs[0].kind, sigs[0].text, {"WITH"}) {
      return Skip(UnsupportedStructure);
    }
    if !WordIn(sigs[0].kind, sigs[0].text, {"SELECT"}) {
      return Skip(NotSelect);
    }
    var body := sigs;
    var separator := FirstAt(sigs, 0, IsSeparator);
    if separator < |sigs| {
      if separator + 1 < |sigs| {
        return Skip(MultipleStatements);
      }
      body := sigs[..separator];
    }
    assert body == BodyOf(sigs);
    shape := AnalyzeSelect(body);
  }

  method AnalyzeSelect(body: seq<Sig>) returns (shape: Shape)
    ensures shape == AnalyzeBody(body)
  {
    var subquery := FindSubquery(body);
    if subquery || FirstAt(body, 0, IsSetOperator) < |body| {
      return Skip(UnsupportedStructure);
    }
    var from := FirstAt(body, 0, IsFrom);
    if from == |body| {
      return NoTable;
    }
    if FirstAt(body, from + 1, IsFrom) < |body| {
      return Skip(UnsupportedStructure);
    }
    shape := AnalyzeReferenceAt(body, from + 1);
  }

  lemma {:induction false} SpansTile(src: string, tokens: seq<Token>)
    requires Tile(tokens, |src|)
    ensures Spans(src, tokens) && (tokens == [] ==> src == "")
  {
    if tokens != [] {
      EndsGrow(tokens, 0);
    }
  }

  lemma {:induction false} EndsGrow(tokens: seq<Token>, i: nat)
    requires i < |tokens| && (forall k :: 0 <= k < |tokens| ==> tokens[k].start < tokens[k].end)
    requires forall k :: 0 <= k < |tokens| - 1 ==> tokens[k].end == tokens[k + 1].start
    ensures forall k :: i <= k < |tokens| ==> tokens[k].end <= tokens[|tokens| - 1].end
    decreases |tokens| - i
  {
    if i + 1 < |tokens| {
      EndsGrow(tokens, i + 1);
      assert tokens[i].end == tokens[i + 1].start < tokens[i + 1].end;
    }
  }
}

/** The tokenizer's loop over byte positions, and the spans it records. */
module Tokenize {
  import opened Common
  import opened Lexer
  import MaximalMunch

  datatype Token = Token(kind: Kind, start: nat, end: nat)

  function TextOf(token: Token, src: string): string {
    if token.start <= token.end <= |src| then src[token.start..token.end] else ""
  }

  function LexemeOf(token: Token, src: string): Lexeme {
    Lexeme(token.kind, TextOf(token, src))
  }

  function Lexemes(tokens: seq<Token>, src: string): (r: seq<Lexeme>)
    ensures |r| == |tokens|
  {
    seq(|tokens|, i requires 0 <= i < |tokens| => LexemeOf(tokens[i], src))
  }

  /** The spans tile the text from its start up to `end`. */
  ghost predicate Tile(tokens: seq<Token>, end: nat) {
    && (if tokens == [] then end == 0 else tokens[0].start == 0 && tokens[|tokens| - 1].end == end)
    && (forall i :: 0 <= i < |tokens| ==> tokens[i].start < tokens[i].end)
    && (forall i :: 0 <= i < |tokens| - 1 ==> tokens[i].end == tokens[i + 1].start)
  }

  // ----- Scanning at a position is scanning the rest of the text ---------------------------------------

  lemma {:induction false} SpanShifts(s: string, at: nat, i: nat, p: char -> bool)
    requires at + i <= |s|
    ensures Span(s, at + i, p) == at + Span(s[at..], i, p)
    decreases |s| - at - i
  {
    if at + i < |s| && p(s[at + i]) {
      SpanShifts(s, at, i + 1, p);
    }
  }

  function Shift(at: nat, end: Option<nat>): Option<nat> {
    if end.Some? then Some(at + end.value) else None
  }

  lemma {:induction false} BlockShifts(s: string, at: nat, i: nat)
    requires at <= |s|
    ensures BlockEnd(s, at + i) == Shift(at, BlockEnd(s[at..], i))
    decreases |s| - i
  {
    if at + i + 1 < |s| {
      BlockShifts(s, at, i + 1);
    }
  }

  lemma {:induction false} QuoteShifts(s: string, at: nat, i: nat, quote: char)
    requires at <= |s|
    ensures QuoteEnd(s, at + i, quote) == Shift(at, QuoteEnd(s[at..], i, quote))
    decreases |s| - i
  {
    if at + i < |s| {
      QuoteShifts(s, at, i + 1, quote);
      QuoteShifts(s, at, i + 2, quote);
    }
  }

  lemma {:induction false} IntroducedShifts(s: string, at: nat, i: nat)
    requires at <= |s|
    ensures IntroducedEnd(s, at + i) == Shift(at, IntroducedEnd(s[at..], i))
    decreases |s| - i
  {
    if at + i < |s| {
      IntroducedShifts(s, at, i + 1);
    }
  }

  // ----- The scanning loops ------------------------------------------------------------------------------

  method SkipWhile(src: string, from: nat, p: char -> bool) returns (pos: nat)
    requires from <= |src|
    ensures pos == Span(src, from, p)
  {
    pos := from;
    while pos < |src| && p(src[pos])
      invariant from <= pos <= |src|
      invariant Span(src, pos, p) == Span(src, from, p)
    {
      pos := pos + 1;
    }
  }

  method SkipBlock(src: string, from: nat) returns (end: Option<nat>)
    ensures end == BlockEnd(src, from)
  {
    var pos := from;
    while true
      invariant BlockEnd(src, pos) == BlockEnd(src, from)
      decreases |src| - pos
    {
      if pos + 1 >= |src| {
        return None;
      }
      if src[pos] == '*' && src[pos + 1] == '/' {
        return Some(pos + 2);
      }
      pos := pos + 1;
    }
  }

  method SkipQuoted(src: string, from: nat, quote: char) returns (end: Option<nat>)
    ensures end == QuoteEnd(src, from, quote)
  {
    var backslashEscapes := quote != '`';
    var pos := from;
    while true
      invariant QuoteEnd(src, pos, quote) == QuoteEnd(src, from, quote)
      decreases |src| - pos
    {
      if pos >= |src| {
        return None;
      }
      if backslashEscapes && src[pos] == '\\' {
        pos := pos + 2;
      } else if src[pos] == quote {
        if pos + 1 < |src| && src[pos + 1] == quote {
          pos := pos + 2;
        } else {
          return Some(pos + 1);
        }
      } else {
        pos := pos + 1;
      }
    }
  }

  method SkipIntroduced(src: string, from: nat) returns (end: Option<nat>)
    ensures end == IntroducedEnd(src, from)
  {
    var pos := from;
    while true
      invariant IntroducedEnd(src, pos) == IntroducedEnd(src, from)
      decreases |src| - pos
    {
      if pos >= |src| {
        return None;
      }
      pos := pos + 1;
      if src[pos - 1] == '\'' {
        return Some(pos);
      }
    }
  }

  method SkipMantissa(src: string, start: nat) returns (pos: nat)
    requires start < |src|
    ensures pos == start + MantissaEnd(src[start..])
  {
    ghost var rest := src[start..];
    SpanShifts(src, start, 0, IsDigit);
    pos := SkipWhile(src, start, IsDigit);
    assert Is(rest, pos - start, '.') <==> pos < |src| && src[pos] == '.';
    if pos < |src| && src[pos] == '.' {
      SpanShifts(src, start, pos + 1 - start, IsDigit);
      pos := SkipWhile(src, pos + 1, IsDigit);
    }
  }

  method SkipNumber(src: string, start: nat) returns (pos: nat)
    requires start < |src|
    ensures pos == start + NumberEnd(src[start..])
  {
    pos := SkipMantissa(src, start);
    ghost var rest, mantissa := src[start..], pos - start;
    assert forall k :: 0 <= k < |rest| ==> rest[k] == src[start + k];
    if pos < |src| && IsExponentMark(src[pos]) {
      var probe := pos + 1;
      if probe < |src| && IsSign(src[probe]) {
        probe := probe + 1;
      }
      if probe < |src| && IsDigit(src[probe]) {
        assert ExponentAt(rest, mantissa);
        SpanShifts(src, start, probe - start, IsDigit);
        pos := SkipWhile(src, probe, IsDigit);
      } else {
        assert !ExponentAt(rest, mantissa);
      }
    }
  }

  function Spanned(front: Option<Front>, start: nat): Option<Token> {
    if front.Some? then Some(Token(front.value.kind, start, start + front.value.length)) else None
  }

  function At(src: string, i: nat): Option<char> {
    if i < |src| then Some(src[i]) else None
  }

  /** The first three characters of the rest of a text. */
  lemma {:induction false} Ahead(src: string, start: nat)
    requires start < |src|
    ensures forall c: char :: Is(src[start..], 0, c) <==> src[start] == c
    ensures forall c: char :: Is(src[start..], 1, c) <==> At(src, start + 1) == Some(c)
    ensures forall c: char :: Is(src[start..], 2, c) <==> At(src, start + 2) == Some(c)
    ensures |src[start..]| >= 2 <==> At(src, start + 1).Some?
    ensures |src[start..]| >= 3 <==> At(src, start + 2).Some?
  {
  }

  /** The token that starts at a position, by the same chain of tests as the source. */
  method ReadToken(src: string, start: nat, inExec: bool) returns (token: Option<Token>)
    requires start < |src|
    ensures token == Spanned(Step(src[start..], inExec), start)
  {
    Ahead(src, start);
    var b, second, third := src[start], At(src, start + 1), At(src, start + 2);
    if inExec && b == '*' && second == Some('/') {
      return Some(Token(ExecClose, start, start + 2));
    }
    if IsSpace(b) {
      SpanShifts(src, start, 0, IsSpace);
      var pos := SkipWhile(src, start, IsSpace);
      return Some(Token(Whitespace, start, pos));
    }
    if b == '#' || (b == '-' && second == Some('-') && (third.None? || BreaksDashes(third.value))) {
      SpanShifts(src, start, 0, NotNewline);
      var pos := SkipWhile(src, start, NotNewline);
      return Some(Token(Comment, start, pos));
    }
    assert !DashComment(src[start..]);
    if b == '/' && second == Some('*') {
      token := ReadBlock(src, start, third, inExec);
    } else if IsQuote(b) {
      QuoteShifts(src, start, 1, b);
      var end := SkipQuoted(src, start + 1, b);
      var kind := if b == '`' then QuotedIdent else StringLiteral;
      return if end.Some? then Some(Token(kind, start, end.value)) else None;
    } else {
      token := ReadUnquoted(src, start, inExec, second);
    }
  }

  /** A gate's opening or an ordinary block comment. */
  method ReadBlock(src: string, start: nat, third: Option<char>, ghost inExec: bool)
    returns (token: Option<Token>)
    requires start < |src| && src[start] == '/' && At(src, start + 1) == Some('*')
    requires third == At(src, start + 2)
    ensures token == Spanned(Step(src[start..], inExec), start)
  {
    Ahead(src, start);
    if third == Some('!') {
      SpanShifts(src, start, 3, IsDigit);
      var pos := SkipWhile(src, start + 3, IsDigit);
      return Some(Token(ExecOpen, start, pos));
    }
    BlockShifts(src, start, 2);
    var end := SkipBlock(src, start + 2);
    return if end.Some? then Some(Token(Comment, start, end.value)) else None;
  }

  /** What is left when no comment, gate, whitespace or quote starts here. */
  ghost predicate Unquoted(rest: string, inExec: bool) {
    && rest != "" && !(inExec && Is(rest, 0, '*') && Is(rest, 1, '/'))
    && !IsSpace(rest[0]) && rest[0] != '#' && !IsQuote(rest[0])
    && !DashComment(rest) && !(rest[0] == '/' && Is(rest, 1, '*'))
  }

  method ReadUnquoted(src: string, start: nat, ghost inExec: bool, second: Option<char>)
    returns (token: Option<Token>)
    requires start < |src| && second == At(src, start + 1) && Unquoted(src[start..], inExec)
    ensures token == Spanned(Step(src[start..], inExec), start)
  {
    Ahead(src, start);
    var b := src[start];
    ghost var rest := src[start..];
    if (IsHexMark(b) || IsBitMark(b)) && second == Some('\'') {
      MaximalMunch.StepOnIntroduced(rest, inExec);
      IntroducedShifts(src, start, 2);
      var end := SkipIntroduced(src, start + 2);
      var kind := if IsHexMark(b) then HexLiteral else BitLiteral;
      return if end.Some? then Some(Token(kind, start, end.value)) else None;
    }
    if b == '0' && second.Some? && IsHexMark(second.value) {
      MaximalMunch.StepOnPrefixed(rest, inExec);
      SpanShifts(src, start, 2, IsHexDigit);
      var pos := SkipWhile(src, start + 2, IsHexDigit);
      return Some(Token(HexLiteral, start, pos));
    }
    if b == '0' && second.Some? && IsBitMark(second.value) {
      MaximalMunch.StepOnPrefixed(rest, inExec);
      SpanShifts(src, start, 2, IsBit);
      var pos := SkipWhile(src, start + 2, IsBit);
      return Some(Token(BitLiteral, start, pos));
    }
    token := ReadBare(src, start, inExec, second);
  }

  method ReadBare(src: string, start: nat, ghost inExec: bool, second: Option<char>)
    returns (token: Option<Token>)
    requires start < |src| && second == At(src, start + 1) && Unquoted(src[start..], inExec)
    requires !((IsHexMark(src[start]) || IsBitMark(src[start])) && second == Some('\''))
    requires !(src[start] == '0' && second.Some? && (IsHexMark(second.value) || IsBitMark(second.value)))
    ensures token == Spanned(Step(src[start..], inExec), start)
  {
    Ahead(src, start);
    var b := src[start];
    ghost var rest := src[start..];
    assert StartsNumber(rest) <==> IsDigit(b) || (b == '.' && second.Some? && IsDigit(second.value));
    if IsDigit(b) || (b == '.' && second.Some? && IsDigit(second.value)) {
      MaximalMunch.StepOnNumber(rest, inExec);
      var pos := SkipNumber(src, start);
      return Some(Token(Number, start, pos));
    }
    if IsIdentStart(b) {
      SpanShifts(src, start, 0, IsIdentContinue);
      var pos := SkipWhile(src, start, IsIdentContinue);
      return Some(Token(Word, start, pos));
    }
    return Some(Token(Punct, start, start + 1));
  }

  /** What is lexed so far, set against the whole text and the text still to come. */
  ghost predicate Extends(whole: Option<seq<Lexeme>>, done: seq<Lexeme>, rest: Option<seq<Lexeme>>) {
    whole == if rest.Some? then Some(done + rest.value) else None
  }

  lemma {:induction false} OneMore(whole: Option<seq<Lexeme>>, done: seq<Lexeme>, rest: Option<seq<Lexeme>>,
                                   lexeme: Lexeme, later: Option<seq<Lexeme>>)
    requires Extends(whole, done, rest)
    requires rest == if later.Some? then Some([lexeme] + later.value) else None
    ensures Extends(whole, done + [lexeme], later)
  {
    if later.Some? {
      assert done + ([lexeme] + later.value) == (done + [lexeme]) + later.value;
    }
  }

  lemma {:induction false} TokenExtends(src: string, whole: Option<seq<Lexeme>>, done: seq<Lexeme>, pos: nat,
                                        inExec: bool, token: Token)
    requires pos < |src| && Extends(whole, done, Lex(src[pos..], inExec))
    requires Spanned(Step(src[pos..], inExec), pos) == Some(token)
    ensures token.start == pos < token.end <= |src|
    ensures Extends(whole, done + [LexemeOf(token, src)],
                    Lex(src[token.end..], ExecAfter(token.kind, inExec)))
    ensures pos + ReadUpTo(src[pos..], inExec)
         == token.end + ReadUpTo(src[token.end..], ExecAfter(token.kind, inExec))
  {
    var rest := src[pos..];
    var front := Step(rest, inExec).value;
    MaximalMunch.LexUnfolds(rest, inExec, front);
    assert rest[front.length..] == src[token.end..];
    assert rest[..front.length] == LexemeOf(token, src).text;
    OneMore(whole, done, Lex(rest, inExec), LexemeOf(token, src),
            Lex(src[token.end..], ExecAfter(token.kind, inExec)));
  }

  lemma {:induction false} LexemesGrow(tokens: seq<Token>, token: Token, src: string)
    ensures Lexemes(tokens + [token], src) == Lexemes(tokens, src) + [LexemeOf(token, src)]
    ensures forall end: nat :: Tile(tokens, end) && token.start == end < token.end ==>
              Tile(tokens + [token], token.end)
  {
  }

  /** Where nothing more can be read. */
  lemma {:induction false} NothingMore(s: string, exec: bool)
    requires s == "" || Step(s, exec).None?
    ensures ReadUpTo(s, exec) == 0 && Lex(s, exec) == if s == "" && !exec then Some([]) else None
  {
  }

  /** Tokens in source order whose spans tile the source, or the position of an unterminated one. */
  method Tokenize(src: string) returns (r: Result<seq<Token>, nat>)
    ensures r.Ok? <==> Lex(src, false).Some?
    ensures r.Ok? ==> Lexemes(r.value, src) == Lex(src, false).value && Tile(r.value, |src|)
    ensures r.Err? ==> r.error == ReadUpTo(src, false)
  {
    hide Lex, Step, ReadUpTo;
    var out: seq<Token> := [];
    var pos := 0;
    var inExec := false;
    ghost var whole := Lex(src, false);
    assert src[0..] == src && whole.Some? ==> Lexemes(out, src) + whole.value == whole.value;
    while pos < |src|
      invariant pos <= |src| && Tile(out, pos)
      invariant Extends(whole, Lexemes(out, src), Lex(src[pos..], inExec))
      invariant ReadUpTo(src, false) == pos + ReadUpTo(src[pos..], inExec)
    {
      var token := ReadToken(src, pos, inExec);
      if token.None? {
        NothingMore(src[pos..], inExec);
        return Err(pos);
      }
      TokenExtends(src, whole, Lexemes(out, src), pos, inExec, token.value);
      LexemesGrow(out, token.value, src);
      out := out + [token.value];
      pos := token.value.end;
      inExec := ExecAfter(token.value.kind, inExec);
    }
    assert src[pos..] == "";
    NothingMore("", inExec);
    if inExec {
      return Err(|src|);
    }
    assert Lexemes(out, src) + [] == Lexemes(out, src);
    return Ok(out);
  }
}

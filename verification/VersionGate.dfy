/**
 The version-gate scanner of milestone 2, and its agreement with the tokenizer of project3: two lexers
 written separately that must see the same gates.
 */
module VersionGate {
  import opened Common
  import opened Lexer
  import opened MaximalMunch

  datatype State = Normal | Quoted(quote: char) | LineNote | BlockNote

  predicate StartsDashNote(s: string) {
    Is(s, 0, '-') && Is(s, 1, '-') && (|s| == 2 || IsSpace(s[2]))
  }

  /** Whether a gate opens in the rest of a text, from a scanner state. */
  function Scan(state: State, s: string): bool
    decreases |s|
  {
    if s == "" then false
    else
      match state
      case Normal =>
        if IsQuote(s[0]) then Scan(Quoted(s[0]), s[1..])
        else if s[0] == '#' then Scan(LineNote, s[1..])
        else if StartsDashNote(s) then Scan(LineNote, s[2..])
        else if s[0] == '/' && Is(s, 1, '*') then Is(s, 2, '!') || Scan(BlockNote, s[2..])
        else Scan(Normal, s[1..])
      case Quoted(quote) =>
        if s[0] != quote then Scan(state, s[1..])
        else if Is(s, 1, quote) then Scan(state, s[2..])
        else Scan(Normal, s[1..])
      case LineNote => Scan(if s[0] == '\n' then Normal else LineNote, s[1..])
      case BlockNote => if s[0] == '*' && Is(s, 1, '/') then Scan(Normal, s[2..]) else Scan(BlockNote, s[1..])
  }

  function At(s: string, i: nat): Option<char> {
    if i < |s| then Some(s[i]) else None
  }

  /** The three characters a scanner step looks at. */
  lemma {:induction false} LooksAhead(s: string, i: nat)
    requires i < |s|
    ensures forall c: char :: Is(s[i..], 0, c) <==> s[i] == c
    ensures forall c: char :: Is(s[i..], 1, c) <==> At(s, i + 1) == Some(c)
    ensures forall c: char :: Is(s[i..], 2, c) <==> At(s, i + 2) == Some(c)
    ensures |s[i..]| == 2 <==> At(s, i + 1).Some? && At(s, i + 2).None?
    ensures At(s, i + 2).Some? ==> s[i..][2] == s[i + 2]
    ensures s[i..][1..] == s[i + 1..] && (i + 2 <= |s| ==> s[i..][2..] == s[i + 2..])
  {
  }

  /** The scanner's loop. It advances on every branch, so it ends on any input. */
  method ContainsExecutableComment(sql: string) returns (found: bool)
    ensures found == Scan(Normal, sql)
  {
    var state, i := Normal, 0;
    assert sql[0..] == sql;
    while i < |sql|
      invariant i <= |sql| && Scan(state, sql[i..]) == Scan(Normal, sql)
      decreases |sql| - i
    {
      LooksAhead(sql, i);
      var c, second, third := sql[i], At(sql, i + 1), At(sql, i + 2);
      match state
      case Normal =>
        if IsQuote(c) {
          state, i := Quoted(c), i + 1;
        } else if c == '#' {
          state, i := LineNote, i + 1;
        } else if c == '-' && second == Some('-') && (third.None? || IsSpace(third.value)) {
          assert StartsDashNote(sql[i..]);
          state, i := LineNote, i + 2;
        } else if c == '/' && second == Some('*') {
          if third == Some('!') {
            return true;
          }
          state, i := BlockNote, i + 2;
        } else {
          assert !StartsDashNote(sql[i..]);
          i := i + 1;
        }
      case Quoted(quote) =>
        if c == quote {
          if second == Some(quote) {
            i := i + 2;
          } else {
            state, i := Normal, i + 1;
          }
        } else {
          i := i + 1;
        }
      case LineNote =>
        if c == '\n' {
          state := Normal;
        }
        i := i + 1;
      case BlockNote =>
        if c == '*' && second == Some('/') {
          state, i := Normal, i + 2;
        } else {
          i := i + 1;
        }
    }
    return false;
  }

  // ----- Tokens the scanner walks over -----------------------------------------------------------------------------

  /** In the normal state the scanner passes the character at a position without changing state. */
  predicate Quiet(s: string, k: nat) {
    && k < |s| && !IsQuote(s[k]) && s[k] != '#' && !StartsDashNote(s[k..])
    && !(s[k] == '/' && Is(s, k + 1, '*'))
  }

  lemma {:induction false} QuietRun(s: string, n: nat)
    requires n <= |s| && forall k :: 0 <= k < n ==> Quiet(s, k)
    ensures Scan(Normal, s) == Scan(Normal, s[n..])
    decreases n
  {
    if n > 0 {
      assert Quiet(s, 0) && s[0..] == s;
      forall k | 0 <= k < n - 1
        ensures Quiet(s[1..], k)
      {
        assert Quiet(s, k + 1);
        assert s[1..][k..] == s[k + 1..];
      }
      QuietRun(s[1..], n - 1);
      assert s[1..][n - 1..] == s[n..];
    } else {
      assert s[0..] == s;
    }
  }

  /** Closing a quote leaves the scanner where a fresh start would, even in front of another quote. */
  lemma {:induction false} QuoteCloses(quote: char, rest: string)
    requires IsQuote(quote)
    ensures Scan(Quoted(quote), [quote] + rest) == Scan(Normal, rest)
  {
    var s := [quote] + rest;
    assert s[1..] == rest;
    if Is(rest, 0, quote) {
      assert s[1] == quote && s[2..] == rest[1..];
    }
  }

  /** Whether a backslash escapes the quote of a literal, read on from a position inside it. */
  predicate EscapesQuote(s: string, i: nat, quote: char)
    decreases |s| - i
  {
    && i < |s|
    && (if s[i] == '\\' then Is(s, i + 1, quote) || EscapesQuote(s, i + 2, quote)
        else if s[i] == quote then Is(s, i + 1, quote) && EscapesQuote(s, i + 2, quote)
        else EscapesQuote(s, i + 1, quote))
  }

  /** Within a literal nothing behind its end matters. */
  lemma {:induction false} EscapesWithin(s: string, i: nat, quote: char, end: nat)
    requires quote != '`' && QuoteEnd(s, i, quote) == Some(end)
    ensures EscapesQuote(s[..end], i, quote) <==> EscapesQuote(s, i, quote)
    decreases |s| - i
  {
    var t := s[..end];
    assert t[i] == s[i];
    if s[i] == '\\' {
      assert t[i + 1] == s[i + 1];
      EscapesWithin(s, i + 2, quote, end);
    } else if s[i] == quote {
      if Is(s, i + 1, quote) {
        assert t[i + 1] == s[i + 1];
        EscapesWithin(s, i + 2, quote, end);
      }
    } else {
      EscapesWithin(s, i + 1, quote, end);
    }
  }

  lemma {:induction false} QuotedRun(s: string, i: nat, quote: char)
    requires QuoteEnd(s, i, quote).Some? && IsQuote(quote) && (quote != '`' ==> !EscapesQuote(s, i, quote))
    ensures Scan(Quoted(quote), s[i..]) == Scan(Normal, s[QuoteEnd(s, i, quote).value..])
    decreases |s| - i
  {
    var rest := s[i..];
    assert rest[0] == s[i] && rest[1..] == s[i + 1..];
    if quote != '`' && s[i] == '\\' {
      assert rest[1..][0] == s[i + 1] && rest[1..][1..] == s[i + 2..];
      QuotedRun(s, i + 2, quote);
    } else if s[i] == quote {
      assert Is(s, i + 1, quote) <==> Is(rest, 1, quote);
      if Is(s, i + 1, quote) {
        assert rest[2..] == s[i + 2..];
        QuotedRun(s, i + 2, quote);
      }
    } else {
      QuotedRun(s, i + 1, quote);
    }
  }

  lemma {:induction false} IntroducedRun(s: string, i: nat)
    requires IntroducedEnd(s, i).Some?
    ensures Scan(Quoted('\''), s[i..]) == Scan(Normal, s[IntroducedEnd(s, i).value..])
    decreases |s| - i
  {
    if s[i] == '\'' {
      assert s[i..] == ['\''] + s[i + 1..];
      QuoteCloses('\'', s[i + 1..]);
    } else {
      assert s[i..][1..] == s[i + 1..];
      IntroducedRun(s, i + 1);
    }
  }

  lemma {:induction false} BlockRun(s: string, i: nat)
    requires BlockEnd(s, i).Some?
    ensures Scan(BlockNote, s[i..]) == Scan(Normal, s[BlockEnd(s, i).value..])
    decreases |s| - i
  {
    var rest := s[i..];
    assert rest[0] == s[i] && rest[1] == s[i + 1] && rest[1..] == s[i + 1..] && rest[2..] == s[i + 2..];
    if !(s[i] == '*' && s[i + 1] == '/') {
      BlockRun(s, i + 1);
    }
  }

  lemma {:induction false} LineRun(s: string, i: nat)
    requires i <= |s|
    ensures Scan(LineNote, s[i..]) == Scan(Normal, s[Span(s, i, NotNewline)..])
    decreases |s| - i
  {
    if i < |s| {
      assert s[i..][1..] == s[i + 1..];
      if s[i] != '\n' {
        LineRun(s, i + 1);
      }
    }
  }

  // ----- Token by token ----------------------------------------------------------------------------------------------

  /**
   Tokens on which the lexers cannot differ: a string literal in which no backslash escapes its own quote, and a
   comment of two dashes that are not followed by a control character other than white space.
   */
  predicate SeenAlike(token: Lexeme) {
    && (token.kind == StringLiteral && token.text != "" ==> !EscapesQuote(token.text, 1, token.text[0]))
    && (token.kind == Comment && |token.text| > 2 && token.text[0] == '-' ==> IsSpace(token.text[2]))
  }

  lemma {:induction false} DashesAgree(s: string)
    ensures StartsDashNote(s) ==> DashComment(s)
    ensures DashComment(s) && (Span(s, 0, NotNewline) > 2 ==> IsSpace(s[2])) ==> StartsDashNote(s)
  {
    if DashComment(s) && |s| > 2 {
      assert Span(s, 0, NotNewline) == Span(s, 1, NotNewline) == Span(s, 2, NotNewline);
    }
  }

  /** The characters of a number: a sign in it stands in front of a digit. */
  lemma {:induction false} NumberIsQuiet(s: string)
    requires StartsNumber(s)
    ensures forall k :: 0 <= k < NumberEnd(s) ==> Quiet(s, k)
  {
    var m := MantissaEnd(s);
    var whole := Span(s, 0, IsDigit);
    forall k | 0 <= k < NumberEnd(s)
      ensures Quiet(s, k)
    {
      if IsSign(s[k]) {
        assert k == m + 1 && IsDigit(s[m + 2]);
        assert s[k..][1] == s[m + 2];
      } else if k < m {
        assert IsDigit(s[k]) || s[k] == '.';
      } else {
        assert IsExponentMark(s[k]) || IsDigit(s[k]);
      }
    }
  }

  lemma {:induction false} SpanIsQuiet(s: string, p: char -> bool)
    requires forall c :: p(c) ==> !IsQuote(c) && c != '#' && c != '-' && c != '/'
    ensures forall k :: 0 <= k < Span(s, 0, p) ==> Quiet(s, k)
  {
  }

  function FrontToken(s: string): Lexeme
    requires s != "" && Step(s, false).Some?
  {
    Lexeme(Step(s, false).value.kind, s[..Step(s, false).value.length])
  }

  /** Away from gates, one token of the tokenizer is passed by the scanner from normal state to normal state. */
  lemma {:induction false} TokenIsPassed(s: string)
    requires s != "" && Step(s, false).Some? && Step(s, false).value.kind != ExecOpen
    requires SeenAlike(FrontToken(s))
    ensures Scan(Normal, s) == Scan(Normal, s[Step(s, false).value.length..])
  {
    var front := Step(s, false).value;
    DashesAgree(s);
    assert s[0..] == s;
    match front.kind
    case Whitespace => SpanIsQuiet(s, IsSpace); QuietRun(s, front.length);
    case Word => SpanIsQuiet(s, IsIdentContinue); QuietRun(s, front.length);
    case Number => NumberIsQuiet(s); QuietRun(s, front.length);
    case Punct =>
      assert Quiet(s, 0);
      QuietRun(s, 1);
    case Comment => NoteIsPassed(s);
    case QuotedIdent => QuotedRun(s, 1, s[0]);
    case StringLiteral =>
      EscapesWithin(s, 1, s[0], front.length);
      QuotedRun(s, 1, s[0]);
    case HexLiteral => MarkedIsPassed(s);
    case BitLiteral => MarkedIsPassed(s);
    case _ =>
  }

  lemma {:induction false} NoteIsPassed(s: string)
    requires s != "" && Step(s, false).Some? && Step(s, false).value.kind == Comment && SeenAlike(FrontToken(s))
    ensures Scan(Normal, s) == Scan(Normal, s[Step(s, false).value.length..])
  {
    DashesAgree(s);
    if s[0] == '#' {
      LineRun(s, 1);
    } else if DashComment(s) {
      LineRun(s, 2);
      assert Span(s, 0, NotNewline) == Span(s, 1, NotNewline) == Span(s, 2, NotNewline);
    } else {
      BlockRun(s, 2);
    }
  }

  lemma {:induction false} MarkedIsPassed(s: string)
    requires s != "" && Step(s, false).Some?
    requires Step(s, false).value.kind == HexLiteral || Step(s, false).value.kind == BitLiteral
    ensures Scan(Normal, s) == Scan(Normal, s[Step(s, false).value.length..])
  {
    var n := Step(s, false).value.length;
    if s[0] == '0' {
      forall k | 0 <= k < n
        ensures Quiet(s, k)
      {
        assert k >= 2 ==> IsHexDigit(s[k]);
      }
      QuietRun(s, n);
    } else {
      assert Quiet(s, 0) && s[1..][1..] == s[2..];
      QuietRun(s, 1);
      IntroducedRun(s, 2);
    }
  }

  predicate OpensGate(tokens: seq<Lexeme>) {
    exists i :: 0 <= i < |tokens| && tokens[i].kind == ExecOpen
  }

  /** On text the tokenizer accepts, the scanner reports a gate exactly when the tokenizer sees one open, unless a
      literal escapes its quote or a control character follows two dashes. */
  lemma {:induction false} LexersAgree(s: string)
    requires Lex(s, false).Some?
    requires forall i :: 0 <= i < |Lex(s, false).value| ==> SeenAlike(Lex(s, false).value[i])
    ensures Scan(Normal, s) <==> OpensGate(Lex(s, false).value)
    decreases |s|
  {
    if s != "" {
      var front, tokens := Step(s, false).value, Lex(s, false).value;
      LexUnfolds(s, false, front);
      assert SeenAlike(tokens[0]);
      if front.kind != ExecOpen {
        var rest := s[front.length..];
        TokenIsPassed(s);
        assert tokens[1..] == Lex(rest, false).value;
        assert forall i :: 0 <= i < |tokens[1..]| ==> tokens[1..][i] == tokens[i + 1];
        LexersAgree(rest);
        OpensLater(tokens);
      }
    }
  }

  /** In particular on text without backslashes and without control characters other than white space. */
  lemma {:induction false} CleanTextIsSeenAlike(s: string, exec: bool)
    requires Lex(s, exec).Some? && forall i :: 0 <= i < |s| ==> s[i] != '\\' && (s[i] < ' ' ==> IsSpace(s[i]))
    ensures forall i :: 0 <= i < |Lex(s, exec).value| ==> SeenAlike(Lex(s, exec).value[i])
    decreases |s|
  {
    if s != "" {
      var front, tokens := Step(s, exec).value, Lex(s, exec).value;
      LexUnfolds(s, exec, front);
      var text, rest := s[..front.length], s[front.length..];
      CleanTextIsSeenAlike(rest, ExecAfter(front.kind, exec));
      assert tokens == [Lexeme(front.kind, text)] + tokens[1..];
      if front.kind == StringLiteral {
        NothingEscaped(text, 1, text[0]);
      }
      if front.kind == Comment && |text| > 2 && text[0] == '-' {
        assert text + rest == s;
        StepFits(Comment, text, rest, exec);
        assert text[2] == s[2];
      }
    }
  }

  lemma {:induction false} NothingEscaped(s: string, i: nat, quote: char)
    requires '\\' !in s
    ensures !EscapesQuote(s, i, quote)
    decreases |s| - i
  {
    if i < |s| {
      assert s[i] in s;
      NothingEscaped(s, i + 1, quote);
      NothingEscaped(s, i + 2, quote);
    }
  }

  lemma {:induction false} OpensLater(tokens: seq<Lexeme>)
    requires tokens != [] && tokens[0].kind != ExecOpen
    ensures OpensGate(tokens) <==> OpensGate(tokens[1..])
  {
    if OpensGate(tokens) {
      var i :| 0 <= i < |tokens| && tokens[i].kind == ExecOpen;
      assert tokens[1..][i - 1] == tokens[i];
    }
    if OpensGate(tokens[1..]) {
      var i :| 0 <= i < |tokens[1..]| && tokens[1..][i].kind == ExecOpen;
      assert tokens[i + 1] == tokens[1..][i];
    }
  }

  /**
   With backslashes the lexers can part, and not only towards refusal: behind an escaped quote the scanner
   takes two quotes for a doubled one, stays inside the literal and passes over a gate the tokenizer sees.
   */
  lemma {:induction false} EscapedQuoteHidesGate()
    ensures var s := "'\\''/*!*/";
            !Scan(Normal, s) && Lex(s, false).Some? && OpensGate(Lex(s, false).value)
  {
    var s := "'\\''/*!*/";
    assert s[1..] == "\\''/*!*/";
    HiddenTail();
    assert QuoteEnd(s, 3, '\'') == Some(4);
    assert QuoteEnd(s, 1, '\'') == Some(4);
    assert Step(s, false) == Some(Front(StringLiteral, 4));
    LexUnfolds(s, false, Front(StringLiteral, 4));
    assert s[4..] == "/*!*/";
    GateAlone();
    assert Lex(s, false).value[1].kind == ExecOpen;
  }

  lemma {:induction false} GateAlone()
    ensures Lex("/*!*/", false) == Some([Lexeme(ExecOpen, "/*!"), Lexeme(ExecClose, "*/")])
  {
    var close := Lexeme(ExecClose, "*/");
    assert "*/"[2..] == "" && "*/"[..2] == "*/" && [close] + [] == [close];
    assert Step("*/", true) == Some(Front(ExecClose, 2));
    LexUnfolds("*/", true, Front(ExecClose, 2));
    assert Lex("*/", true) == Some([close]);
    assert "/*!*/"[3..] == "*/" && "/*!*/"[..3] == "/*!";
    assert Span("/*!*/", 3, IsDigit) == 3;
    assert Step("/*!*/", false) == Some(Front(ExecOpen, 3));
    LexUnfolds("/*!*/", false, Front(ExecOpen, 3));
    assert [Lexeme(ExecOpen, "/*!")] + [close] == [Lexeme(ExecOpen, "/*!"), close];
  }

  lemma {:induction false} HiddenTail()
    ensures !Scan(Quoted('\''), "\\''/*!*/")
  {
    assert "\\''/*!*/"[1..] == "''/*!*/" && "''/*!*/"[2..] == "/*!*/";
    assert "/*!*/"[1..] == "*!*/" && "*!*/"[1..] == "!*/" && "!*/"[1..] == "*/" && "*/"[1..] == "/" && "/"[1..] == "";
    assert !Scan(Quoted('\''), "");
    assert !Scan(Quoted('\''), "/");
    assert !Scan(Quoted('\''), "*/");
    assert !Scan(Quoted('\''), "!*/");
    assert !Scan(Quoted('\''), "*!*/");
    assert !Scan(Quoted('\''), "/*!*/");
    assert !Scan(Quoted('\''), "''/*!*/");
  }
}

/**
 How far the two lexers of version-gated comments agree: exactly when the scanner has come to the end of a text
 outside every literal and block comment, nothing unescaped that follows can part them.
 */
module Continuations {
  import opened Common
  import opened Lexer
  import opened MaximalMunch
  import opened VersionGate

  /** The scanner's state behind a text, or `None` once it has reported a gate. */
  function ScanEnd(state: State, s: string): (end: Option<State>)
    ensures end.None? <==> Scan(state, s)
    decreases |s|
  {
    if s == "" then Some(state)
    else
      match state
      case Normal =>
        if IsQuote(s[0]) then ScanEnd(Quoted(s[0]), s[1..])
        else if s[0] == '#' then ScanEnd(LineNote, s[1..])
        else if StartsDashNote(s) then ScanEnd(LineNote, s[2..])
        else if s[0] == '/' && Is(s, 1, '*') then if Is(s, 2, '!') then None else ScanEnd(BlockNote, s[2..])
        else ScanEnd(Normal, s[1..])
      case Quoted(quote) =>
        if s[0] != quote then ScanEnd(state, s[1..])
        else if Is(s, 1, quote) then ScanEnd(state, s[2..])
        else ScanEnd(Normal, s[1..])
      case LineNote => ScanEnd(if s[0] == '\n' then Normal else LineNote, s[1..])
      case BlockNote => if s[0] == '*' && Is(s, 1, '/') then ScanEnd(Normal, s[2..]) else ScanEnd(BlockNote, s[1..])
  }

  /** A new line decides whatever the scanner looks ahead for. */
  lemma {:induction false} ScanContinues(state: State, s: string, later: string)
    requires Is(later, 0, '\n') && (state.Quoted? ==> IsQuote(state.quote))
    ensures Scan(state, s + later) == if ScanEnd(state, s).Some? then Scan(ScanEnd(state, s).value, later) else true
    ensures ScanEnd(state, s).Some? && ScanEnd(state, s).value.Quoted? ==> IsQuote(ScanEnd(state, s).value.quote)
    decreases |s|
  {
    hide StartsDashNote;
    if s == "" {
      assert s + later == later;
    } else {
      LooksFurther(s, later);
      match state
      case Normal =>
        if IsQuote(s[0]) {
          ScanContinues(Quoted(s[0]), s[1..], later);
        } else if s[0] == '#' {
          ScanContinues(LineNote, s[1..], later);
        } else if StartsDashNote(s) {
          ScanContinues(LineNote, s[2..], later);
        } else if s[0] == '/' && Is(s, 1, '*') {
          ScanContinues(BlockNote, s[2..], later);
        } else {
          ScanContinues(Normal, s[1..], later);
        }
      case Quoted(quote) =>
        if s[0] != quote {
          ScanContinues(state, s[1..], later);
        } else if Is(s, 1, quote) {
          ScanContinues(state, s[2..], later);
        } else {
          ScanContinues(Normal, s[1..], later);
        }
      case LineNote =>
        ScanContinues(if s[0] == '\n' then Normal else LineNote, s[1..], later);
      case BlockNote =>
        if s[0] == '*' && Is(s, 1, '/') {
          ScanContinues(Normal, s[2..], later);
        } else {
          ScanContinues(BlockNote, s[1..], later);
        }
    }
  }

  lemma {:induction false} LooksFurther(s: string, later: string)
    requires s != "" && Is(later, 0, '\n')
    ensures var whole := s + later;
            && whole != "" && whole[0] == s[0] && whole[1..] == s[1..] + later
            && (|s| >= 2 ==> whole[2..] == s[2..] + later)
            && (forall c :: c != '\n' ==> (Is(whole, 1, c) <==> Is(s, 1, c)) && (Is(whole, 2, c) ==> |s| != 2))
            && (forall c :: |s| > 2 ==> (Is(whole, 2, c) <==> Is(s, 2, c)))
            && (StartsDashNote(whole) <==> StartsDashNote(s)) && (StartsDashNote(s) ==> |s| >= 2)
  {
  }

  // ----- The tokenizer on a text and the lines behind it ------------------------------------------------------------

  lemma {:induction false} NewlineFollows(kind: Kind, t: string, rest: string, later: string, exec: bool)
    requires Fits(kind, t) && MayFollow(kind, t, rest, exec) && Is(later, 0, '\n')
    requires kind == Whitespace ==> rest != ""
    ensures MayFollow(kind, t, rest + later, exec)
  {
    var whole := rest + later;
    assert forall k :: 0 <= k < |rest| ==> whole[k] == rest[k];
    assert whole[|rest|] == '\n';
    match kind
    case Punct =>
      if t == "-" {
        assert ("-" + rest)[1..] == rest && ("-" + whole)[1..] == whole;
      }
    case _ =>
  }

  /** White space at the end of a text becomes one token with the new line. */
  lemma {:induction false} BlanksJoin(t: string, later: string)
    requires t != "" && AllIn(t, IsSpace) && Is(later, 0, '\n')
    ensures Lex(t + later, false).Some? <==> Lex(later, false).Some?
    ensures Lex(later, false).Some? ==> (OpensGate(Lex(t + later, false).value) <==> OpensGate(Lex(later, false).value))
  {
    var k := Span(later, 0, IsSpace);
    var blanks, rest := later[..k], later[k..];
    assert later == blanks + rest && t + later == (t + blanks) + rest;
    assert blanks[0] == '\n';
    BlankFront(blanks, rest);
    BlankFront(t + blanks, rest);
  }

  lemma {:induction false} BlankFront(blanks: string, rest: string)
    requires blanks != "" && AllIn(blanks, IsSpace) && !Has(rest, 0, IsSpace)
    ensures Lex(blanks + rest, false).Some? <==> Lex(rest, false).Some?
    ensures Lex(rest, false).Some? ==>
              (OpensGate(Lex(blanks + rest, false).value) <==> OpensGate(Lex(rest, false).value))
  {
    FitsSteps(Whitespace, blanks, rest, false);
    FrontOpens(Whitespace, blanks, rest, false);
  }

  /** Whether a gate opens in a text is decided by its front token or behind it. */
  lemma {:induction false} FrontOpens(kind: Kind, text: string, rest: string, exec: bool)
    requires text != "" && Step(text + rest, exec) == Some(Front(kind, |text|))
    ensures Lex(text + rest, exec).Some? <==> Lex(rest, ExecAfter(kind, exec)).Some?
    ensures Lex(text + rest, exec).Some? ==>
              (OpensGate(Lex(text + rest, exec).value)
               <==> kind == ExecOpen || OpensGate(Lex(rest, ExecAfter(kind, exec)).value))
  {
    var whole := text + rest;
    LexUnfolds(whole, exec, Front(kind, |text|));
    assert whole[|text|..] == rest && whole[..|text|] == text;
    if Lex(whole, exec).Some? {
      var tokens := Lex(whole, exec).value;
      assert tokens[0].kind == kind && tokens[1..] == Lex(rest, ExecAfter(kind, exec)).value;
      if kind != ExecOpen {
        OpensLater(tokens);
      }
    }
  }

  lemma {:induction false} LexContinues(s: string, exec: bool, later: string)
    requires Lex(s, exec).Some? && Is(later, 0, '\n')
    ensures Lex(s + later, exec).Some? <==> Lex(later, false).Some?
    ensures Lex(later, false).Some? ==>
              (OpensGate(Lex(s + later, exec).value)
               <==> OpensGate(Lex(s, exec).value) || OpensGate(Lex(later, false).value))
    decreases |s|
  {
    hide OpensGate, Step, Fits, MayFollow;
    if s == "" {
      assert s + later == later;
      NoGate();
    } else {
      var front := Step(s, exec).value;
      var text, rest := s[..front.length], s[front.length..];
      assert s == text + rest;
      StepFits(front.kind, text, rest, exec);
      FrontOpens(front.kind, text, rest, exec);
      if front.kind == Whitespace && rest == "" {
        SpacesOnly(text);
        assert s == text;
        NoGate();
        BlanksJoin(text, later);
      } else {
        NewlineFollows(front.kind, text, rest, later, exec);
        FitsSteps(front.kind, text, rest + later, exec);
        assert text + (rest + later) == s + later;
        FrontOpens(front.kind, text, rest + later, exec);
        LexContinues(rest, ExecAfter(front.kind, exec), later);
      }
    }
  }

  lemma {:induction false} SpacesOnly(text: string)
    requires Fits(Whitespace, text)
    ensures text != "" && AllIn(text, IsSpace)
  {
  }

  lemma {:induction false} NoGate()
    ensures Lex("", false) == Some([]) && !OpensGate([])
  {
  }

  // ----- The exact condition -----------------------------------------------------------------------------------------

  /** Text on which the lexers agree when both start afresh. */
  predicate Plain(s: string) {
    Lex(s, false).Some? && forall i :: 0 <= i < |Lex(s, false).value| ==> SeenAlike(Lex(s, false).value[i])
  }

  predicate Agree(s: string) {
    Lex(s, false).Some? ==> (Scan(Normal, s) <==> OpensGate(Lex(s, false).value))
  }

  /** Both have seen a gate, or neither has and the scanner stands outside literals and block comments. */
  predicate InStep(s: string)
    requires Lex(s, false).Some?
  {
    var end := ScanEnd(Normal, s);
    if OpensGate(Lex(s, false).value) then end.None? else end == Some(Normal) || end == Some(LineNote)
  }

  lemma {:induction false} NewlineAlone()
    ensures Plain("\n") && !OpensGate(Lex("\n", false).value)
    ensures forall state: State :: !Scan(state, "\n")
  {
    assert Span("\n", 0, IsSpace) == 1 && "\n"[1..] == "" && "\n"[..1] == "\n";
    LexUnfolds("\n", false, Front(Whitespace, 1));
  }

  lemma {:induction false} HiddenGate()
    ensures Plain("\n/*!*/") && OpensGate(Lex("\n/*!*/", false).value)
  {
    hide Lex;
    var s, tokens := "\n/*!*/", [Lexeme(Whitespace, "\n"), Lexeme(ExecOpen, "/*!"), Lexeme(ExecClose, "*/")];
    GateAlone();
    assert s[1..] == "/*!*/" && s[..1] == "\n";
    assert Span(s, 1, IsSpace) == 1;
    assert Step(s, false) == Some(Front(Whitespace, 1));
    LexUnfolds(s, false, Front(Whitespace, 1));
    assert [tokens[0]] + [tokens[1], tokens[2]] == tokens;
    assert Lex(s, false) == Some(tokens) && tokens[1].kind == ExecOpen;
  }

  lemma {:induction false} HiddenFrom(state: State)
    requires state == BlockNote || (state.Quoted? && IsQuote(state.quote))
    ensures !Scan(state, "\n/*!*/")
  {
    assert "\n/*!*/"[1..] == "/*!*/" && "/*!*/"[1..] == "*!*/" && "*!*/"[1..] == "!*/" && "!*/"[1..] == "*/";
    assert "*/"[1..] == "/" && "/"[1..] == "" && "*/"[2..] == "";
    assert !Scan(state, "/");
    assert !Scan(state, "*/");
    assert !Scan(state, "!*/");
    assert !Scan(state, "*!*/");
    assert !Scan(state, "/*!*/");
  }

  lemma {:induction false} InStepAgrees(s: string, later: string)
    requires Lex(s, false).Some? && InStep(s) && Is(later, 0, '\n') && Plain(later)
    ensures Agree(s + later)
  {
    LexContinues(s, false, later);
    ScanContinues(Normal, s, later);
    LexersAgree(later);
    assert Scan(LineNote, later) == Scan(Normal, later);
  }

  lemma {:induction false} OutOfStepParts(s: string) returns (later: string)
    requires Lex(s, false).Some? && !InStep(s)
    ensures Is(later, 0, '\n') && Plain(later) && !Agree(s + later)
  {
    NewlineAlone();
    HiddenGate();
    var gate, seen := OpensGate(Lex(s, false).value), Scan(Normal, s);
    later := if gate || seen then "\n" else "\n/*!*/";
    LexContinues(s, false, later);
    ScanContinues(Normal, s, later);
    if !gate && !seen {
      HiddenFrom(ScanEnd(Normal, s).value);
    }
  }

  /** The lexers agree on an accepted text whatever plain lines follow it, exactly when the text leaves them in step. */
  lemma {:induction false} AgreeExactlyInStep(s: string)
    requires Lex(s, false).Some?
    ensures (forall later: string :: Is(later, 0, '\n') && Plain(later) ==> Agree(s + later)) <==> InStep(s)
  {
    hide Plain, Agree, InStep;
    if InStep(s) {
      forall later: string | Is(later, 0, '\n') && Plain(later)
        ensures Agree(s + later)
      {
        InStepAgrees(s, later);
      }
    } else {
      var later := OutOfStepParts(s);
    }
  }

  /** An escaped quote need not part them: a second one may bring the scanner back. */
  lemma {:induction false} EscapesMayCancel()
    ensures var s := "'\\'\\''";
            Lex(s, false).Some? && !Plain(s) && InStep(s)
  {
    var s := "'\\'\\''";
    assert QuoteEnd(s, 5, '\'') == Some(6);
    assert QuoteEnd(s, 3, '\'') == Some(6);
    assert QuoteEnd(s, 1, '\'') == Some(6);
    assert Step(s, false) == Some(Front(StringLiteral, 6));
    LexUnfolds(s, false, Front(StringLiteral, 6));
    assert s[6..] == "" && s[..6] == s;
    assert Lex(s, false).value == [Lexeme(StringLiteral, s)];
    assert EscapesQuote(s, 1, '\'');
    assert !SeenAlike(Lex(s, false).value[0]);
    assert s[1..] == "\\'\\''" && s[1..][1..] == "'\\''" && "'\\''"[1..] == "\\''" && "\\''"[1..] == "''";
    assert "''"[1..] == "'" && "'"[1..] == "";
    assert ScanEnd(Normal, "") == Some(Normal);
    assert ScanEnd(Quoted('\''), "'") == Some(Normal);
    assert ScanEnd(Normal, "''") == Some(Normal);
    assert ScanEnd(Normal, "\\''") == Some(Normal);
    assert ScanEnd(Quoted('\''), "'\\''") == Some(Normal);
    assert ScanEnd(Quoted('\''), "\\'\\''") == Some(Normal);
    assert ScanEnd(Normal, s) == Some(Normal);
  }
}

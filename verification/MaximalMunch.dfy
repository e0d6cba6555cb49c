/** The tokenizer computes exactly the maximal-munch segmentation of its input. */
module MaximalMunch {
  import opened Common
  import opened Lexer

  // ----- Scans over a token followed by more text ------------------------------------------------------

  lemma {:induction false} SpanSplits(t: string, rest: string, i: nat, p: char -> bool)
    requires i <= |t|
    ensures Span(t + rest, i, p) == |t| <==> AllFrom(t, i, p) && !Has(rest, 0, p)
  {
    var s := t + rest;
    var end := Span(s, i, p);
    if end == |t| {
      forall k | i <= k < |t|
        ensures p(t[k])
      {
        assert s[k] == t[k];
      }
      assert rest != "" ==> s[end] == rest[0];
    }
    assert forall k :: i <= k < |t| ==> s[k] == t[k];
    assert rest != "" ==> s[|t|] == rest[0];
  }

  lemma {:induction false} BlockSplits(t: string, rest: string, i: nat)
    ensures BlockEnd(t + rest, i) == Some(|t|) <==> BlockEnd(t, i) == Some(|t|)
    decreases |t| - i
  {
    if i + 1 < |t| {
      BlockSplits(t, rest, i + 1);
    }
  }

  lemma {:induction false} QuoteSplits(t: string, rest: string, i: nat, quote: char)
    ensures QuoteEnd(t + rest, i, quote) == Some(|t|)
       <==> QuoteEnd(t, i, quote) == Some(|t|) && !Is(rest, 0, quote)
    decreases |t| - i
  {
    if i < |t| {
      QuoteSplits(t, rest, i + 1, quote);
      QuoteSplits(t, rest, i + 2, quote);
    }
  }

  lemma {:induction false} IntroducedSplits(t: string, rest: string, i: nat)
    ensures IntroducedEnd(t + rest, i) == Some(|t|) <==> IntroducedEnd(t, i) == Some(|t|)
    decreases |t| - i
  {
    if i < |t| {
      IntroducedSplits(t, rest, i + 1);
    }
  }

  /** A run that ends inside the first part ends at the same place without the second. */
  lemma {:induction false} SpanInside(t: string, rest: string, i: nat, p: char -> bool)
    requires i <= |t|
    ensures Span(t + rest, i, p) <= |t| ==> Span(t, i, p) == Span(t + rest, i, p)
    ensures Span(t, i, p) < |t| ==> Span(t + rest, i, p) == Span(t, i, p)
    ensures Span(t, i, p) == |t| && !Has(rest, 0, p) ==> Span(t + rest, i, p) == |t|
    ensures Span(t, i, p) == |t| ==> Span(t + rest, i, p) >= |t|
    ensures Span(t, i, p) == |t| && Has(rest, 0, p) ==> Span(t + rest, i, p) > |t|
  {
    var s := t + rest;
    assert forall k :: i <= k < |t| ==> s[k] == t[k];
    assert rest != "" ==> s[|t|] == rest[0];
    var whole, inside := Span(s, i, p), Span(t, i, p);
    assert whole < |t| ==> !p(t[whole]);
  }

  lemma {:induction false} MantissaSplits(t: string, rest: string)
    requires t != ""
    ensures MantissaEnd(t) < |t| ==> MantissaEnd(t + rest) == MantissaEnd(t)
    ensures MantissaEnd(t) == |t| ==>
              (MantissaEnd(t + rest) == |t| <==>
                 !Has(rest, 0, IsDigit) && (Span(t, 0, IsDigit) == |t| ==> !Is(rest, 0, '.')))
    ensures MantissaEnd(t) == |t| ==> MantissaEnd(t + rest) >= |t|
  {
    var whole := Span(t, 0, IsDigit);
    SpanInside(t, rest, 0, IsDigit);
    if whole < |t| {
      assert (t + rest)[whole] == t[whole];
      if t[whole] == '.' {
        SpanInside(t, rest, whole + 1, IsDigit);
      }
    }
  }

  /** A mantissa holds no exponent mark, and no point when it is all digits. */
  lemma {:induction false} MantissaHoldsNoMark(t: string)
    ensures forall i :: 0 <= i < MantissaEnd(t) ==> !IsExponentMark(t[i])
    ensures MantissaEnd(t) == |t| ==> (Span(t, 0, IsDigit) == |t| <==> '.' !in t)
    ensures ExponentAt(t, MantissaEnd(t)) ==> HasExponent(t)
    ensures MantissaEnd(t) == |t| ==> !HasExponent(t)
  {
    var whole := Span(t, 0, IsDigit);
    forall i | 0 <= i < MantissaEnd(t)
      ensures !IsExponentMark(t[i])
    {
      if i < whole {
        assert IsDigit(t[i]);
      } else if i > whole {
        assert IsDigit(t[i]);
      }
    }
    if whole < |t| && MantissaEnd(t) == |t| {
      assert t[whole] == '.';
    }
    if whole == |t| {
      forall i | 0 <= i < |t|
        ensures t[i] != '.'
      {
        assert IsDigit(t[i]);
      }
    }
    if ExponentAt(t, MantissaEnd(t)) {
      assert IsExponentMark(t[MantissaEnd(t)]);
    }
  }

  predicate NumberMayEnd(t: string, rest: string) {
    && !Has(rest, 0, IsDigit)
    && (!HasExponent(t) ==> !ExponentAt(rest, 0))
    && (!HasExponent(t) && '.' !in t ==> !Is(rest, 0, '.'))
  }

  lemma {:induction false} ExponentShifts(t: string, rest: string)
    ensures ExponentAt(t + rest, |t|) <==> ExponentAt(rest, 0)
  {
    var s := t + rest;
    assert forall k :: 0 <= k < |rest| ==> s[|t| + k] == rest[k];
  }

  lemma {:induction false} NumberSplits(t: string, rest: string)
    requires t != ""
    ensures NumberEnd(t + rest) == |t| <==> NumberEnd(t) == |t| && NumberMayEnd(t, rest)
  {
    var s := t + rest;
    var m := MantissaEnd(t);
    MantissaSplits(t, rest);
    MantissaHoldsNoMark(t);
    ExponentShifts(t, rest);
    if m == |t| {
    } else {
      assert MantissaEnd(s) == m;
      assert s[m] == t[m];
      NumberTailSplits(t, rest, m);
    }
  }

  lemma {:induction false} NumberTailSplits(t: string, rest: string, m: nat)
    requires m == MantissaEnd(t) == MantissaEnd(t + rest) < |t|
    ensures NumberEnd(t + rest) == |t| <==> NumberEnd(t) == |t| && NumberMayEnd(t, rest)
  {
    var s := t + rest;
    assert forall k :: 0 <= k < |t| ==> s[k] == t[k];
    assert forall k :: 0 <= k < |rest| ==> s[|t| + k] == rest[k];
    MantissaHoldsNoMark(t);
    if ExponentAt(t, m) {
      assert ExponentAt(s, m);
      var from := m + (if IsSign(t[m + 1]) then 2 else 1);
      SpanInside(t, rest, from, IsDigit);
    } else if ExponentAt(s, m) {
      assert m + 1 >= |t| || (IsSign(t[m + 1]) && m + 2 >= |t|);
    }
  }

  // ----- One token -----------------------------------------------------------------------------------

  /** The characters of a token and what follows it, seen from the whole text. */
  lemma {:induction false} Indices(t: string, rest: string)
    ensures forall k :: 0 <= k < |t| ==> (t + rest)[k] == t[k]
    ensures forall k :: 0 <= k < |rest| ==> (t + rest)[|t| + k] == rest[k]
  {
  }

  lemma {:induction false} DashSplits(t: string, rest: string)
    requires |t| >= 2
    ensures DashComment(t + rest) <==>
              Is(t, 0, '-') && Is(t, 1, '-')
              && (if |t| > 2 then BreaksDashes(t[2]) else rest == "" || BreaksDashes(rest[0]))
  {
    Indices(t, rest);
  }

  lemma {:induction false} CommentFits(t: string, rest: string, exec: bool)
    requires t != "" && Step(t + rest, exec) == Some(Front(Comment, |t|))
    ensures Fits(Comment, t) && MayFollow(Comment, t, rest, exec)
  {
    Indices(t, rest);
    SpanSplits(t, rest, 0, NotNewline);
    BlockSplits(t, rest, 2);
    if |t| >= 2 { DashSplits(t, rest); }
  }

  lemma {:induction false} MarkedFits(kind: Kind, t: string, rest: string, exec: bool)
    requires kind == HexLiteral || kind == BitLiteral
    requires t != "" && Step(t + rest, exec) == Some(Front(kind, |t|))
    ensures Fits(kind, t) && MayFollow(kind, t, rest, exec)
  {
    Indices(t, rest);
    if t[0] == '0' {
      SpanSplits(t, rest, 2, if kind == HexLiteral then IsHexDigit else IsBit);
    } else {
      IntroducedSplits(t, rest, 2);
    }
  }

  lemma {:induction false} NumberFits(t: string, rest: string, exec: bool)
    requires t != "" && Step(t + rest, exec) == Some(Front(Number, |t|))
    ensures Fits(Number, t) && MayFollow(Number, t, rest, exec)
  {
    Indices(t, rest);
    NumberSplits(t, rest);
    assert StartsNumber(t + rest);
  }

  lemma {:induction false} StepFits(kind: Kind, t: string, rest: string, exec: bool)
    requires t != "" && Step(t + rest, exec) == Some(Front(kind, |t|))
    ensures Fits(kind, t) && MayFollow(kind, t, rest, exec)
  {
    match kind
    case Comment => CommentFits(t, rest, exec);
    case HexLiteral => MarkedFits(kind, t, rest, exec);
    case BitLiteral => MarkedFits(kind, t, rest, exec);
    case Number => NumberFits(t, rest, exec);
    case Whitespace =>
      Indices(t, rest);
      SpanSplits(t, rest, 0, IsSpace);
    case ExecOpen =>
      Indices(t, rest);
      SpanSplits(t, rest, 3, IsDigit);
    case ExecClose =>
      Indices(t, rest);
    case QuotedIdent =>
      Indices(t, rest);
      QuoteSplits(t, rest, 1, t[0]);
    case StringLiteral =>
      Indices(t, rest);
      QuoteSplits(t, rest, 1, t[0]);
    case Word =>
      Indices(t, rest);
      SpanSplits(t, rest, 0, IsIdentContinue);
    case Punct =>
      Indices(t, rest);
  }

  lemma {:induction false} CommentSteps(t: string, rest: string, exec: bool)
    requires Fits(Comment, t) && MayFollow(Comment, t, rest, exec)
    ensures t != "" && Step(t + rest, exec) == Some(Front(Comment, |t|))
  {
    Indices(t, rest);
    if IsBlockComment(t) {
      BlockSplits(t, rest, 2);
    } else {
      SpanSplits(t, rest, 0, NotNewline);
      if |t| >= 2 { DashSplits(t, rest); }
    }
  }

  lemma {:induction false} QuotedSteps(kind: Kind, t: string, rest: string, exec: bool)
    requires kind == QuotedIdent || kind == StringLiteral
    requires Fits(kind, t) && MayFollow(kind, t, rest, exec)
    ensures t != "" && Step(t + rest, exec) == Some(Front(kind, |t|))
  {
    Indices(t, rest);
    QuoteSplits(t, rest, 1, t[0]);
  }

  lemma {:induction false} MarkedSteps(kind: Kind, t: string, rest: string, exec: bool)
    requires kind == HexLiteral || kind == BitLiteral
    requires Fits(kind, t) && MayFollow(kind, t, rest, exec)
    ensures t != "" && Step(t + rest, exec) == Some(Front(kind, |t|))
  {
    Indices(t, rest);
    if t[0] == '0' {
      SpanSplits(t, rest, 2, if kind == HexLiteral then IsHexDigit else IsBit);
    } else {
      IntroducedSplits(t, rest, 2);
    }
  }

  lemma {:induction false} StepOnIntroduced(s: string, exec: bool)
    requires s != "" && (IsHexMark(s[0]) || IsBitMark(s[0])) && Is(s, 1, '\'')
    ensures Step(s, exec) == Closing(if IsHexMark(s[0]) then HexLiteral else BitLiteral, IntroducedEnd(s, 2))
  {
  }

  lemma {:induction false} StepOnPrefixed(s: string, exec: bool)
    requires s != "" && s[0] == '0' && (Has(s, 1, IsHexMark) || Has(s, 1, IsBitMark))
    ensures Step(s, exec) == if IsHexMark(s[1]) then Some(Front(HexLiteral, Span(s, 2, IsHexDigit)))
                             else Some(Front(BitLiteral, Span(s, 2, IsBit)))
  {
  }

  lemma {:induction false} StepOnNumber(s: string, exec: bool)
    requires StartsNumber(s) && !(s[0] == '0' && (Has(s, 1, IsHexMark) || Has(s, 1, IsBitMark)))
    ensures Step(s, exec) == Some(Front(Number, NumberEnd(s)))
  {
  }

  lemma {:induction false} NumberSteps(t: string, rest: string, exec: bool)
    requires Fits(Number, t) && MayFollow(Number, t, rest, exec)
    ensures t != "" && Step(t + rest, exec) == Some(Front(Number, |t|))
  {
    Indices(t, rest);
    NumberSplits(t, rest);
    if |t| > 1 {
      SecondOfNumber(t);
    } else {
      assert Has(rest, 0, IsHexMark) <==> Has(t + rest, 1, IsHexMark);
      assert Has(rest, 0, IsBitMark) <==> Has(t + rest, 1, IsBitMark);
    }
    StepOnNumber(t + rest, exec);
  }

  lemma {:induction false} SecondOfNumber(t: string)
    requires |t| > 1 && StartsNumber(t) && NumberEnd(t) == |t|
    ensures IsDigit(t[1]) || t[1] == '.' || IsExponentMark(t[1])
  {
    var whole := Span(t, 0, IsDigit);
    var m := MantissaEnd(t);
    if m < |t| && m <= 1 {
      assert ExponentAt(t, m);
    }
  }

  lemma {:induction false} WordSteps(t: string, rest: string, exec: bool)
    requires Fits(Word, t) && MayFollow(Word, t, rest, exec)
    ensures t != "" && Step(t + rest, exec) == Some(Front(Word, |t|))
  {
    Indices(t, rest);
    SpanSplits(t, rest, 0, IsIdentContinue);
    assert |t| > 1 ==> IsIdentContinue(t[1]);
  }

  lemma {:induction false} FitsSteps(kind: Kind, t: string, rest: string, exec: bool)
    requires Fits(kind, t) && MayFollow(kind, t, rest, exec)
    ensures t != "" && Step(t + rest, exec) == Some(Front(kind, |t|))
  {
    match kind
    case Comment => CommentSteps(t, rest, exec);
    case QuotedIdent => QuotedSteps(kind, t, rest, exec);
    case StringLiteral => QuotedSteps(kind, t, rest, exec);
    case HexLiteral => MarkedSteps(kind, t, rest, exec);
    case BitLiteral => MarkedSteps(kind, t, rest, exec);
    case Number => NumberSteps(t, rest, exec);
    case Word => WordSteps(t, rest, exec);
    case Whitespace =>
      Indices(t, rest);
      SpanSplits(t, rest, 0, IsSpace);
    case ExecOpen =>
      Indices(t, rest);
      SpanSplits(t, rest, 3, IsDigit);
    case ExecClose =>
    case Punct =>
      Indices(t, rest);
      if t[0] == '-' { assert t == "-"; }
      if t[0] == '/' { assert t == "/"; }
      if t[0] == '.' { assert t == "."; }
      if t[0] == '*' { assert t == "*"; }
  }

  // ----- The whole text ------------------------------------------------------------------------------

  lemma {:induction false} LexUnfolds(s: string, exec: bool, front: Front)
    requires s != "" && Step(s, exec) == Some(front)
    ensures var later := Lex(s[front.length..], ExecAfter(front.kind, exec));
            Lex(s, exec) == if later.Some? then Some([Lexeme(front.kind, s[..front.length])] + later.value)
                            else None
  {
  }

  lemma {:induction false} LexSegments(s: string, exec: bool)
    requires Lex(s, exec).Some?
    ensures Segmentation(s, Lex(s, exec).value, exec)
    decreases |s|
  {
    if s != "" {
      var front := Step(s, exec).value;
      var text, rest := s[..front.length], s[front.length..];
      assert s == text + rest;
      LexSegments(rest, ExecAfter(front.kind, exec));
      StepFits(front.kind, text, rest, exec);
      var tokens := Lex(s, exec).value;
      assert tokens[1..] == Lex(rest, ExecAfter(front.kind, exec)).value;
    }
  }

  lemma {:induction false} SegmentsLex(s: string, exec: bool, tokens: seq<Lexeme>)
    requires Segmentation(s, tokens, exec)
    ensures Lex(s, exec) == Some(tokens)
    decreases |tokens|
  {
    if tokens != [] {
      var token := tokens[0];
      var rest := s[|token.text|..];
      assert s == token.text + rest;
      SegmentsLex(rest, ExecAfter(token.kind, exec), tokens[1..]);
      FitsSteps(token.kind, token.text, rest, exec);
      assert s[..|token.text|] == token.text;
      assert [token] + tokens[1..] == tokens;
    }
  }

  /** The tokenizer returns a list of tokens exactly when that list is the segmentation of its input. */
  lemma {:induction false} LexIsSegmentation(s: string, exec: bool, tokens: seq<Lexeme>)
    ensures Lex(s, exec) == Some(tokens) <==> Segmentation(s, tokens, exec)
  {
    if Lex(s, exec) == Some(tokens) {
      LexSegments(s, exec);
    }
    if Segmentation(s, tokens, exec) {
      SegmentsLex(s, exec, tokens);
    }
  }

  /** A text has at most one segmentation. */
  lemma {:induction false} SegmentationIsUnique(s: string, exec: bool, a: seq<Lexeme>, b: seq<Lexeme>)
    requires Segmentation(s, a, exec) && Segmentation(s, b, exec)
    ensures a == b
  {
    LexIsSegmentation(s, exec, a);
    LexIsSegmentation(s, exec, b);
  }
}

/** A digest is a fixed point: printed, it is read back token by token and gives itself again. */
module DigestProofs {
  import opened Common
  import opened Lexer
  import opened MaximalMunch
  import opened Chains
  import opened Digest

  const BLANK := Lexeme(Whitespace, " ")
  const DOTS := [Lexeme(Punct, "("), Lexeme(Punct, "."), Lexeme(Punct, "."), Lexeme(Punct, "."), Lexeme(Punct, ")")]

  // ----- Normalized tokens as lexemes ------------------------------------------------------------------------------

  function NormLexeme(token: Lexeme): seq<Lexeme> {
    if token.kind == Whitespace || token.kind == Comment then []
    else if IsLiteral(token.kind) then [Lexeme(Punct, PLACEHOLDER)]
    else if token.kind == Word then [Lexeme(Word, Folded(token.text))]
    else [token]
  }

  function Norm(tokens: seq<Lexeme>): seq<Lexeme> {
    if tokens == [] then [] else NormLexeme(tokens[0]) + Norm(tokens[1..])
  }

  function Texts(tokens: seq<Lexeme>): (r: seq<string>)
    ensures |r| == |tokens|
  {
    if tokens == [] then [] else [tokens[0].text] + Texts(tokens[1..])
  }

  lemma {:induction false} TextAt(tokens: seq<Lexeme>, i: nat)
    requires i < |tokens|
    ensures Texts(tokens)[i] == tokens[i].text
  {
    if i > 0 {
      TextAt(tokens[1..], i - 1);
    }
  }

  lemma {:induction false} NormalizedIsNorm(tokens: seq<Lexeme>)
    ensures Normalized(tokens) == Texts(Norm(tokens))
  {
    if tokens != [] {
      NormalizedIsNorm(tokens[1..]);
      var first := NormLexeme(tokens[0]);
      assert first != [] ==> (first + Norm(tokens[1..]))[1..] == Norm(tokens[1..]);
      assert first == [] ==> first + Norm(tokens[1..]) == Norm(tokens[1..]);
    }
  }

  predicate IsPlain(kind: Kind) {
    kind == Word || kind == QuotedIdent || kind == Punct || kind == ExecOpen || kind == ExecClose
  }

  /** Lexemes a digest can be made of: normalized, and closing only gates that are open. */
  predicate Printable(tokens: seq<Lexeme>, exec: bool) {
    tokens == [] ||
    (var first := tokens[0];
     && IsPlain(first.kind) && Fits(first.kind, first.text) && (first.kind == ExecClose ==> exec)
     && NormLexeme(first) == [first] && Printable(tokens[1..], ExecAfter(first.kind, exec)))
  }

  lemma {:induction false} FoldedFits(text: string)
    requires Fits(Word, text)
    ensures Fits(Word, Folded(text)) && Folded(Folded(text)) == Folded(text)
  {
    var upper := Upper(text);
    assert forall i :: 0 <= i < |text| ==> IsIdentContinue(text[i]) ==> IsIdentContinue(upper[i]);
    assert Upper(upper) == upper;
  }

  lemma {:induction false} NormIsPrintable(tokens: seq<Lexeme>, rest: string, exec: bool)
    requires Chain(tokens, rest, exec)
    ensures Printable(Norm(tokens), exec) && ExecEnd(Norm(tokens), exec) == ExecEnd(tokens, exec)
  {
    if tokens != [] {
      var first := tokens[0];
      NormIsPrintable(tokens[1..], rest, ExecAfter(first.kind, exec));
      PrintsNorm(first, Norm(tokens[1..]), exec);
    }
  }

  lemma {:induction false} PrintsNorm(first: Lexeme, rest: seq<Lexeme>, exec: bool)
    requires Fits(first.kind, first.text) && (first.kind == ExecClose ==> exec)
    requires Printable(rest, ExecAfter(first.kind, exec))
    ensures Printable(NormLexeme(first) + rest, exec)
    ensures ExecEnd(NormLexeme(first) + rest, exec) == ExecEnd(rest, ExecAfter(first.kind, exec))
  {
    var norm := NormLexeme(first);
    if norm == [] {
      assert norm + rest == rest;
    } else {
      assert (norm + rest)[0] == norm[0] && (norm + rest)[1..] == rest;
      if first.kind == Word {
        FoldedFits(first.text);
      }
    }
  }

  // ----- Literal lists as the five tokens they print as --------------------------------------------------------------

  function Expanded(tokens: seq<Lexeme>): seq<Lexeme>
    decreases |tokens|
  {
    if tokens == [] then []
    else if ListLength(Texts(tokens)).Some? then DOTS + Expanded(tokens[ListLength(Texts(tokens)).value..])
    else [tokens[0]] + Expanded(tokens[1..])
  }

  lemma {:induction false} TextsSplit(a: seq<Lexeme>, b: seq<Lexeme>)
    ensures Texts(a + b) == Texts(a) + Texts(b)
  {
    if a == [] {
      assert a + b == b;
    } else {
      TextsSplit(a[1..], b);
      assert (a + b)[0] == a[0] && (a + b)[1..] == a[1..] + b;
      Attach(a[0].text, Texts(a[1..]), Texts(b));
    }
  }

  lemma {:induction false} Attach<T>(a: T, b: seq<T>, c: seq<T>)
    ensures [a] + (b + c) == [a] + b + c && ([a] + b)[1..] == b
  {
  }

  lemma {:induction false} Behind<T>(a: T, b: seq<T>, n: nat)
    requires n <= |b|
    ensures ([a] + b)[1..n + 1] == b[..n]
  {
  }

  lemma {:induction false} Five<T>(a: T, b: T, c: T, d: T, e: T, rest: seq<T>)
    ensures [a] + ([b] + ([c] + ([d] + ([e] + rest)))) == [a, b, c, d, e] + rest
  {
  }

  lemma {:induction false} TextsOfDots()
    ensures Texts(DOTS) == ["(", ".", ".", ".", ")"]
  {
  }

  lemma {:induction false} TextsFrom(tokens: seq<Lexeme>, n: nat)
    requires n <= |tokens|
    ensures Texts(tokens)[n..] == Texts(tokens[n..])
  {
    TextsSplit(tokens[..n], tokens[n..]);
    assert tokens[..n] + tokens[n..] == tokens;
  }

  /** Two previous tokens that let the next one be spaced alike. */
  predicate SpaceAlike(a: Option<string>, b: Option<string>) {
    (a.Some? <==> b.Some?) && (a.Some? ==> (NoSpaceAfter(a.value) <==> NoSpaceAfter(b.value)))
  }

  lemma {:induction false} JoinCons(previous: Option<string>, token: string, rest: seq<string>)
    ensures JoinAfter(previous, [token] + rest)
         == (if Spaced(previous, token) then " " else "") + token + JoinAfter(Some(token), rest)
  {
    assert ([token] + rest)[1..] == rest;
  }

  lemma {:induction false} DotsJoin(previous: Option<string>, rest: seq<string>)
    ensures JoinAfter(previous, ["(", ".", ".", ".", ")"] + rest)
         == (if Spaced(previous, "(") then " " else "") + "(...)" + JoinAfter(Some(")"), rest)
  {
    var r1 := [")"] + rest;
    var r2 := ["."] + r1;
    var r3 := ["."] + r2;
    var r4 := ["."] + r3;
    Five("(", ".", ".", ".", ")", rest);
    JoinCons(previous, "(", r4);
    JoinCons(Some("("), ".", r3);
    JoinCons(Some("."), ".", r2);
    JoinCons(Some("."), ".", r1);
    JoinCons(Some("."), ")", rest);
    Letters((if Spaced(previous, "(") then " " else ""), JoinAfter(Some(")"), rest));
  }

  lemma {:induction false} Letters(gap: string, end: string)
    ensures gap + "(" + ("" + "." + ("" + "." + ("" + "." + ("" + ")" + end)))) == gap + "(...)" + end
  {
  }

  /** Printing the marker is printing its five tokens. */
  lemma {:induction false} ExpandedJoins(a: Option<string>, b: Option<string>, tokens: seq<Lexeme>)
    requires SpaceAlike(a, b)
    ensures JoinAfter(a, Collapse(Texts(tokens))) == JoinAfter(b, Texts(Expanded(tokens)))
    decreases |tokens|
  {
    if tokens != [] {
      var length := ListLength(Texts(tokens));
      if length.Some? {
        var rest := tokens[length.value..];
        ExpandedJoins(Some(COLLAPSED_LIST), Some(")"), rest);
        TextsFrom(tokens, length.value);
        TextsSplit(DOTS, Expanded(rest));
        TextsOfDots();
        DotsJoin(b, Texts(Expanded(rest)));
        JoinCons(a, COLLAPSED_LIST, Collapse(Texts(rest)));
      } else {
        ExpandedJoins(Some(tokens[0].text), Some(tokens[0].text), tokens[1..]);
        TextsFrom(tokens, 1);
        TextsCons(tokens[0], Expanded(tokens[1..]));
        JoinCons(a, tokens[0].text, Collapse(Texts(tokens[1..])));
        JoinCons(b, tokens[0].text, Texts(Expanded(tokens[1..])));
      }
    }
  }

  lemma {:induction false} TextsCons(token: Lexeme, rest: seq<Lexeme>)
    ensures Texts([token] + rest) == [token.text] + Texts(rest) && Texts([token] + rest)[1..] == Texts(rest)
  {
    assert ([token] + rest)[1..] == rest;
  }

  // ----- Nothing is left to collapse ---------------------------------------------------------------------------------

  /** Two texts start with the same run of list tokens, and stop it at the same token. */
  predicate SameRun(s: seq<string>, t: seq<string>) {
    var end := RunEnd(s, 0);
    && RunEnd(t, 0) == end && s[..end] == t[..end]
    && (end < |s| <==> end < |t|) && (end < |s| ==> s[end] == t[end])
  }

  lemma {:induction false} RunCons(token: string, rest: seq<string>)
    ensures RunEnd([token] + rest, 1) == 1 + RunEnd(rest, 0)
    ensures RunEnd([token] + rest, 0) == if InList(token) then 1 + RunEnd(rest, 0) else 0
  {
    var all := [token] + rest;
    assert all[1..] == rest;
    RunShifts(all, 1, 0);
  }

  lemma {:induction false} SameRunCons(token: string, s: seq<string>, t: seq<string>)
    requires SameRun(s, t)
    ensures SameRun([token] + s, [token] + t)
  {
    RunCons(token, s);
    RunCons(token, t);
    var end := RunEnd(s, 0);
    assert ([token] + s)[..end + 1] == [token] + s[..end] && ([token] + t)[..end + 1] == [token] + t[..end];
  }

  lemma {:induction false} SameList(s: seq<string>, t: seq<string>)
    requires SameRun(s, t)
    ensures ListLength(["("] + s).None? ==> ListLength(["("] + t).None?
  {
    RunCons("(", s);
    RunCons("(", t);
    Behind("(", s, RunEnd(s, 0));
    Behind("(", t, RunEnd(t, 0));
  }

  /** The run of list tokens at the front is the same before and after the expansion. */
  lemma {:induction false} RunAgrees(tokens: seq<Lexeme>)
    ensures SameRun(Texts(tokens), Texts(Expanded(tokens)))
    decreases |tokens|
  {
    if tokens != [] {
      var length := ListLength(Texts(tokens));
      if length.Some? {
        TextsSplit(DOTS, Expanded(tokens[length.value..]));
        assert Texts(tokens)[0] == "(" == Texts(Expanded(tokens))[0];
      } else {
        RunAgrees(tokens[1..]);
        TextsCons(tokens[0], Expanded(tokens[1..]));
        SameRunCons(tokens[0].text, Texts(tokens[1..]), Texts(Expanded(tokens[1..])));
      }
    }
  }

  lemma {:induction false} NoListAtFront(tokens: seq<Lexeme>)
    requires tokens != [] && ListLength(Texts(tokens)).None?
    ensures ListLength(Texts(Expanded(tokens))).None?
  {
    TextsCons(tokens[0], Expanded(tokens[1..]));
    RunAgrees(tokens[1..]);
    if tokens[0].text == "(" {
      SameList(Texts(tokens[1..]), Texts(Expanded(tokens[1..])));
    }
  }

  lemma {:induction false} CollapseCons(token: string, rest: seq<string>)
    requires ListLength([token] + rest).None?
    ensures Collapse([token] + rest) == [token] + Collapse(rest)
  {
    assert ([token] + rest)[1..] == rest;
  }

  lemma {:induction false} DotsStay(rest: seq<string>)
    ensures Collapse(["(", ".", ".", ".", ")"] + rest) == ["(", ".", ".", ".", ")"] + Collapse(rest)
  {
    var r1 := [")"] + rest;
    var r2 := ["."] + r1;
    var r3 := ["."] + r2;
    var r4 := ["."] + r3;
    Five("(", ".", ".", ".", ")", rest);
    Five("(", ".", ".", ".", ")", Collapse(rest));
    RunCons("(", r4);
    assert RunEnd(r4, 0) == 0 && (["("] + r4)[1] == r4[0];
    CollapseCons("(", r4);
    CollapseCons(".", r3);
    CollapseCons(".", r2);
    CollapseCons(".", r1);
    CollapseCons(")", rest);
  }

  lemma {:induction false} ExpandedIsCollapsed(tokens: seq<Lexeme>)
    ensures Collapse(Texts(Expanded(tokens))) == Texts(Expanded(tokens))
    decreases |tokens|
  {
    if tokens != [] {
      var length := ListLength(Texts(tokens));
      if length.Some? {
        var rest := tokens[length.value..];
        ExpandedIsCollapsed(rest);
        TextsSplit(DOTS, Expanded(rest));
        TextsOfDots();
        DotsStay(Texts(Expanded(rest)));
      } else {
        ExpandedIsCollapsed(tokens[1..]);
        NoListAtFront(tokens);
        TextsCons(tokens[0], Expanded(tokens[1..]));
        CollapseCons(tokens[0].text, Texts(Expanded(tokens[1..])));
      }
    }
  }

  /** List tokens are punctuation, so taking a list away leaves every gate as it was. */
  lemma {:induction false} WithoutList(tokens: seq<Lexeme>, n: nat, exec: bool)
    requires Printable(tokens, exec) && n <= |tokens|
    requires forall k :: 0 <= k < n ==> tokens[k].text in {"(", ")", ",", PLACEHOLDER}
    ensures Printable(tokens[n..], exec) && ExecEnd(tokens[n..], exec) == ExecEnd(tokens, exec)
    decreases n
  {
    if n > 0 {
      assert tokens[0].text in {"(", ")", ",", PLACEHOLDER};
      assert tokens[0].kind == Punct;
      assert tokens[1..][n - 1..] == tokens[n..];
      WithoutList(tokens[1..], n - 1, exec);
    }
  }

  lemma {:induction false} ListTokens(texts: seq<string>)
    requires ListLength(texts).Some?
    ensures forall k :: 0 <= k < ListLength(texts).value ==> texts[k] in {"(", ")", ",", PLACEHOLDER}
  {
  }

  lemma {:induction false} ExpandedIsPrintable(tokens: seq<Lexeme>, exec: bool)
    requires Printable(tokens, exec)
    ensures Printable(Expanded(tokens), exec) && ExecEnd(Expanded(tokens), exec) == ExecEnd(tokens, exec)
    decreases |tokens|
  {
    if tokens != [] {
      var length := ListLength(Texts(tokens));
      if length.Some? {
        ListTokens(Texts(tokens));
        forall k | 0 <= k < length.value
          ensures tokens[k].text in {"(", ")", ",", PLACEHOLDER}
        {
          TextAt(tokens, k);
        }
        WithoutList(tokens, length.value, exec);
        ExpandedIsPrintable(tokens[length.value..], exec);
        DotsPrint(Expanded(tokens[length.value..]), exec);
      } else {
        ExpandedIsPrintable(tokens[1..], ExecAfter(tokens[0].kind, exec));
        assert ([tokens[0]] + Expanded(tokens[1..]))[1..] == Expanded(tokens[1..]);
      }
    }
  }

  lemma {:induction false} PunctPrints(text: string, rest: seq<Lexeme>, exec: bool)
    requires Fits(Punct, text) && Printable(rest, exec)
    ensures Printable([Lexeme(Punct, text)] + rest, exec)
    ensures ExecEnd([Lexeme(Punct, text)] + rest, exec) == ExecEnd(rest, exec)
  {
    assert ([Lexeme(Punct, text)] + rest)[1..] == rest;
  }

  lemma {:induction false} DotsPrint(rest: seq<Lexeme>, exec: bool)
    requires Printable(rest, exec)
    ensures Printable(DOTS + rest, exec) && ExecEnd(DOTS + rest, exec) == ExecEnd(rest, exec)
  {
    var open, dot, close := Lexeme(Punct, "("), Lexeme(Punct, "."), Lexeme(Punct, ")");
    var r1 := [close] + rest;
    var r2 := [dot] + r1;
    var r3 := [dot] + r2;
    PunctPrints(")", rest, exec);
    PunctPrints(".", r1, exec);
    PunctPrints(".", r2, exec);
    PunctPrints(".", r3, exec);
    PunctPrints("(", [dot] + r3, exec);
    Five(open, dot, dot, dot, close, rest);
  }

  // ----- The printed text is read back -------------------------------------------------------------------------------

  /** The lexemes with a blank wherever the printer puts one. */
  function SpacedOut(previous: Option<string>, tokens: seq<Lexeme>): seq<Lexeme>
    decreases |tokens|
  {
    if tokens == [] then []
    else (if Spaced(previous, tokens[0].text) then [BLANK] else [])
         + ([tokens[0]] + SpacedOut(Some(tokens[0].text), tokens[1..]))
  }

  lemma {:induction false} SpacedOutPrints(previous: Option<string>, tokens: seq<Lexeme>)
    ensures Concat(SpacedOut(previous, tokens)) == JoinAfter(previous, Texts(tokens))
    decreases |tokens|
  {
    if tokens != [] {
      var rest := SpacedOut(Some(tokens[0].text), tokens[1..]);
      SpacedOutPrints(Some(tokens[0].text), tokens[1..]);
      assert ([tokens[0]] + rest)[1..] == rest;
      assert Texts(tokens)[1..] == Texts(tokens[1..]);
      if Spaced(previous, tokens[0].text) {
        assert ([BLANK] + ([tokens[0]] + rest))[1..] == [tokens[0]] + rest;
        Associative(" ", tokens[0].text, Concat(rest));
      } else {
        assert [] + ([tokens[0]] + rest) == [tokens[0]] + rest;
        assert "" + tokens[0].text == tokens[0].text;
      }
    }
  }

  /** What may stand directly behind a printed token. */
  predicate FollowsPrinted(text: string, rest: string) {
    rest == "" || rest[0] == ' ' || NoSpaceBefore([rest[0]])
    || (NoSpaceAfter(text) && !IsDigit(rest[0]))
  }

  lemma {:induction false} PrintedMayFollow(token: Lexeme, rest: string, exec: bool)
    requires IsPlain(token.kind) && Fits(token.kind, token.text) && (token.kind == ExecClose ==> exec)
    requires FollowsPrinted(token.text, rest)
    ensures MayFollow(token.kind, token.text, rest, exec)
  {
    if token.text == "-" && rest != "" {
      assert ("-" + rest)[1] == rest[0];
    }
  }

  /** A plain token starts with neither a blank nor a digit. */
  lemma {:induction false} PlainStarts(token: Lexeme)
    requires IsPlain(token.kind) && Fits(token.kind, token.text)
    ensures token.text != "" && !IsSpace(token.text[0]) && !IsDigit(token.text[0])
    ensures NoSpaceBefore(token.text) ==> NoSpaceBefore([token.text[0]])
  {
    if NoSpaceBefore(token.text) {
      assert [token.text[0]] == token.text;
    }
  }

  lemma {:induction false} SpacedOutFollows(previous: string, tokens: seq<Lexeme>, exec: bool)
    requires Printable(tokens, exec)
    ensures FollowsPrinted(previous, Concat(SpacedOut(Some(previous), tokens)))
  {
    if tokens != [] {
      var rest := SpacedOut(Some(tokens[0].text), tokens[1..]);
      PlainStarts(tokens[0]);
      assert ([tokens[0]] + rest)[1..] == rest;
      if Spaced(Some(previous), tokens[0].text) {
        assert ([BLANK] + ([tokens[0]] + rest))[1..] == [tokens[0]] + rest;
      } else {
        assert [] + ([tokens[0]] + rest) == [tokens[0]] + rest;
      }
    }
  }

  lemma {:induction false} SpacedOutChains(previous: Option<string>, tokens: seq<Lexeme>, exec: bool)
    requires Printable(tokens, exec)
    ensures Chain(SpacedOut(previous, tokens), "", exec)
    ensures ExecEnd(SpacedOut(previous, tokens), exec) == ExecEnd(tokens, exec)
    ensures Norm(SpacedOut(previous, tokens)) == tokens
    decreases |tokens|
  {
    if tokens != [] {
      hide Chain, ExecEnd, Fits, MayFollow, NormLexeme;
      var first, after := tokens[0], ExecAfter(tokens[0].kind, exec);
      var rest := SpacedOut(Some(first.text), tokens[1..]);
      SpacedOutChains(Some(first.text), tokens[1..], after);
      SpacedOutFollows(first.text, tokens[1..], after);
      assert Concat(rest) + "" == Concat(rest);
      PrintedMayFollow(first, Concat(rest), exec);
      FirstChains(first, rest, exec);
      PlainStarts(first);
      BehindSpace(Spaced(previous, first.text), [first] + rest, exec);
    }
  }

  lemma {:induction false} BehindSpace(spaced: bool, printed: seq<Lexeme>, exec: bool)
    requires Chain(printed, "", exec) && !Has(Concat(printed), 0, IsSpace)
    ensures var out := (if spaced then [BLANK] else []) + printed;
            && Chain(out, "", exec) && ExecEnd(out, exec) == ExecEnd(printed, exec) && Norm(out) == Norm(printed)
  {
    if spaced {
      BlankChains(printed, exec);
    } else {
      assert [] + printed == printed;
    }
  }

  lemma {:induction false} FirstChains(first: Lexeme, rest: seq<Lexeme>, exec: bool)
    requires Fits(first.kind, first.text) && NormLexeme(first) == [first]
    requires MayFollow(first.kind, first.text, Concat(rest) + "", exec)
    requires Chain(rest, "", ExecAfter(first.kind, exec))
    ensures Chain([first] + rest, "", exec)
    ensures ExecEnd([first] + rest, exec) == ExecEnd(rest, ExecAfter(first.kind, exec))
    ensures Norm([first] + rest) == [first] + Norm(rest)
    ensures Concat([first] + rest) == first.text + Concat(rest)
  {
    assert ([first] + rest)[1..] == rest;
  }

  lemma {:induction false} BlankChains(rest: seq<Lexeme>, exec: bool)
    requires Chain(rest, "", exec) && !Has(Concat(rest), 0, IsSpace)
    ensures Chain([BLANK] + rest, "", exec) && ExecEnd([BLANK] + rest, exec) == ExecEnd(rest, exec)
    ensures Norm([BLANK] + rest) == Norm(rest)
  {
    assert ([BLANK] + rest)[1..] == rest;
    assert Concat(rest) + "" == Concat(rest);
    assert [] + Norm(rest) == Norm(rest);
  }

  /** A digest is the print of the expanded tokens, and they are read back from it. */
  lemma {:induction false} DigestIsPrint(sql: string)
    requires Lex(sql, false).Some?
    ensures var expanded := Expanded(Norm(Lex(sql, false).value));
            && DigestText(sql) == Some(JoinAfter(None, Texts(expanded)))
            && Lex(DigestText(sql).value, false).Some? && Norm(Lex(DigestText(sql).value, false).value) == expanded
  {
    var tokens := Lex(sql, false).value;
    var norm := Norm(tokens);
    var expanded := Expanded(norm);
    LexChains(sql, false);
    NormalizedIsNorm(tokens);
    NormIsPrintable(tokens, "", false);
    ExpandedIsPrintable(norm, false);
    ExpandedJoins(None, None, norm);
    SpacedOutPrints(None, expanded);
    SpacedOutChains(None, expanded, false);
    ChainIsLex(SpacedOut(None, expanded), false);
  }

  /** Digesting a digest returns the same text: tokenizing it succeeds and nothing in it changes again. */
  lemma {:induction false} DigestIsFixedPoint(sql: string)
    requires DigestText(sql).Some?
    ensures DigestText(DigestText(sql).value) == DigestText(sql)
  {
    DigestIsPrint(sql);
    NormalizedIsNorm(Lex(DigestText(sql).value, false).value);
    ExpandedIsCollapsed(Norm(Lex(sql, false).value));
  }

  // ----- Grouping ----------------------------------------------------------------------------------------------------

  predicate IsLiteralList(tokens: seq<string>) {
    PLACEHOLDER in tokens && forall i :: 0 <= i < |tokens| ==> InList(tokens[i])
  }

  lemma {:induction false} RunOfList(list: seq<string>, after: seq<string>)
    requires forall i :: 0 <= i < |list| ==> InList(list[i])
    requires after != [] && !InList(after[0])
    ensures RunEnd(list + after, 0) == |list|
  {
    if list == [] {
      assert list + after == after;
    } else {
      RunOfList(list[1..], after);
      RunCons(list[0], list[1..] + after);
      assert [list[0]] + (list[1..] + after) == list + after;
    }
  }

  lemma {:induction false} ListCollapses(list: seq<string>, after: seq<string>)
    requires IsLiteralList(list)
    ensures Collapse(["("] + (list + ([")"] + after))) == [COLLAPSED_LIST] + Collapse(after)
  {
    var rest := list + ([")"] + after);
    RunOfList(list, [")"] + after);
    RunCons("(", rest);
    Behind("(", rest, |list|);
    assert rest[..|list|] == list && rest[|list|] == ")";
    assert (["("] + rest)[|list| + 1] == ")";
    assert (["("] + rest)[|list| + 2..] == after;
  }

  /** Lists of literals collapse alike wherever they stand, whatever their lengths. */
  lemma {:induction false} ListsShareDigest(before: seq<string>, a: seq<string>, b: seq<string>, after: seq<string>)
    requires IsLiteralList(a) && IsLiteralList(b)
    ensures Collapse(before + (["("] + (a + ([")"] + after)))) == Collapse(before + (["("] + (b + ([")"] + after))))
    decreases |before|
  {
    var x, y := ["("] + (a + ([")"] + after)), ["("] + (b + ([")"] + after));
    if before == [] {
      assert before + x == x && before + y == y;
      ListCollapses(a, after);
      ListCollapses(b, after);
    } else {
      FrontLists(before, x, y);
      var length := ListLength(before + x);
      if length.Some? {
        assert (before + x)[length.value..] == before[length.value..] + x;
        assert (before + y)[length.value..] == before[length.value..] + y;
        ListsShareDigest(before[length.value..], a, b, after);
      } else {
        assert (before + x)[1..] == before[1..] + x && (before + y)[1..] == before[1..] + y;
        ListsShareDigest(before[1..], a, b, after);
      }
    }
  }

  /** Tokens of a list of literals: literals and commas, with at least one literal, and whatever a digest drops. */
  predicate ListsLiterals(list: seq<Lexeme>) {
    && (exists i :: 0 <= i < |list| && IsLiteral(list[i].kind))
    && forall i :: 0 <= i < |list| ==> MayStandInList(list[i])
  }

  predicate MayStandInList(token: Lexeme) {
    IsLiteral(token.kind) || token == Lexeme(Punct, ",") || token.kind == Whitespace || token.kind == Comment
  }

  lemma {:induction false} ListNormalizes(list: seq<Lexeme>)
    requires forall i :: 0 <= i < |list| ==> MayStandInList(list[i])
    ensures forall i :: 0 <= i < |Normalized(list)| ==> InList(Normalized(list)[i])
    ensures (exists i :: 0 <= i < |list| && IsLiteral(list[i].kind)) ==> PLACEHOLDER in Normalized(list)
  {
    if list != [] {
      ListNormalizes(list[1..]);
      assert forall i :: 0 < i < |list| ==> list[i] == list[1..][i - 1];
      assert MayStandInList(list[0]);
      if IsLiteral(list[0].kind) {
        assert Normalized(list)[0] == PLACEHOLDER;
      }
    }
  }

  lemma {:induction false} NormalizedSplits(a: seq<Lexeme>, b: seq<Lexeme>)
    ensures Normalized(a + b) == Normalized(a) + Normalized(b)
  {
    if a == [] {
      assert a + b == b;
    } else {
      NormalizedSplits(a[1..], b);
      assert (a + b)[0] == a[0] && (a + b)[1..] == a[1..] + b;
      var first := if NormalizeToken(a[0]).Some? then [NormalizeToken(a[0]).value] else [];
      assert first + (Normalized(a[1..]) + Normalized(b)) == first + Normalized(a[1..]) + Normalized(b);
    }
  }

  lemma {:induction false} EnclosedNormalizes(before: seq<Lexeme>, list: seq<Lexeme>, after: seq<Lexeme>)
    ensures Normalized(before + ([DOTS[0]] + (list + ([DOTS[4]] + after))))
         == Normalized(before) + (["("] + (Normalized(list) + ([")"] + Normalized(after))))
  {
    NormalizedSplits(before, [DOTS[0]] + (list + ([DOTS[4]] + after)));
    NormalizedSplits([DOTS[0]], list + ([DOTS[4]] + after));
    NormalizedSplits(list, [DOTS[4]] + after);
    NormalizedSplits([DOTS[4]], after);
    assert [DOTS[0]][1..] == [] && [DOTS[4]][1..] == [];
    assert Normalized([DOTS[0]]) == ["("] && Normalized([DOTS[4]]) == [")"];
  }

  /** Two statements that differ only in a parenthesized list of literals have the same digest. */
  lemma {:induction false} StatementsShareDigest(sql1: string, sql2: string, before: seq<Lexeme>, a: seq<Lexeme>,
                                                 b: seq<Lexeme>, after: seq<Lexeme>)
    requires ListsLiterals(a) && ListsLiterals(b)
    requires Lex(sql1, false) == Some(before + ([Lexeme(Punct, "(")] + (a + ([Lexeme(Punct, ")")] + after))))
    requires Lex(sql2, false) == Some(before + ([Lexeme(Punct, "(")] + (b + ([Lexeme(Punct, ")")] + after))))
    ensures DigestText(sql1).Some? && DigestText(sql1) == DigestText(sql2)
  {
    ListNormalizes(a);
    ListNormalizes(b);
    EnclosedNormalizes(before, a, after);
    EnclosedNormalizes(before, b, after);
    ListsShareDigest(Normalized(before), Normalized(a), Normalized(b), Normalized(after));
  }

  /** A list that starts before an opening parenthesis ends before it. */
  lemma {:induction false} FrontLists(before: seq<string>, x: seq<string>, y: seq<string>)
    requires before != [] && x != [] && y != [] && x[0] == "(" == y[0]
    ensures ListLength(before + x) == ListLength(before + y)
    ensures ListLength(before + x).Some? ==> ListLength(before + x).value <= |before|
  {
    RunStops(before, x, 1);
    RunStops(before, y, 1);
    var end := RunEnd(before, 1);
    assert (before + x)[1..end] == before[1..end] == (before + y)[1..end];
  }

  lemma {:induction false} RunStops(before: seq<string>, x: seq<string>, i: nat)
    requires i <= |before| && x != [] && x[0] == "("
    ensures RunEnd(before + x, i) == RunEnd(before, i)
    decreases |before| - i
  {
    if i < |before| {
      assert (before + x)[i] == before[i];
      if InList(before[i]) {
        RunStops(before, x, i + 1);
      }
    } else {
      assert (before + x)[i] == x[0];
    }
  }
}

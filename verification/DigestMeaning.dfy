/**
 What a digest keeps apart: two statements share one exactly when they are the same but for their literals, the length
 of literal lists, the case of reserved words, white space and comments.
 */
module DigestMeaning {
  import opened Common
  import opened Lexer
  import opened Chains
  import opened Digest
  import opened DigestProofs

  const MARK := Lexeme(Punct, "?")
  const COMMA := Lexeme(Punct, ",")
  const OPEN := Lexeme(Punct, "(")
  const DOT := Lexeme(Punct, ".")
  const CLOSE := Lexeme(Punct, ")")

  /** How a digest shows a token. A `?` of the statement's own is taken for a literal. */
  function Seen(token: Lexeme): seq<Lexeme> {
    match token.kind
    case Whitespace | Comment => []
    case StringLiteral | Number | HexLiteral | BitLiteral => [MARK]
    case Word => [Lexeme(Word, if Upper(token.text) in RESERVED then Upper(token.text) else token.text)]
    case QuotedIdent | Punct | ExecOpen | ExecClose => [token]
  }

  function SeenAll(tokens: seq<Lexeme>): seq<Lexeme> {
    if tokens == [] then [] else Seen(tokens[0]) + SeenAll(tokens[1..])
  }

  /** A parenthesized list of literals and commas with at least one literal, or three dots in parentheses. */
  predicate IsList(tokens: seq<Lexeme>) {
    || tokens == [OPEN, DOT, DOT, DOT, CLOSE]
    || (&& |tokens| >= 3 && tokens[0] == OPEN && tokens[|tokens| - 1] == CLOSE
        && (forall i :: 0 < i < |tokens| - 1 ==> tokens[i] == MARK || tokens[i] == COMMA)
        && exists i :: 0 < i < |tokens| - 1 && tokens[i] == MARK)
  }

  /** The same tokens in the same order, except that any list may stand for any other. */
  ghost predicate SameButLists(a: seq<Lexeme>, b: seq<Lexeme>)
    decreases |a|
  {
    || (a == [] && b == [])
    || (a != [] && b != [] && a[0] == b[0] && SameButLists(a[1..], b[1..]))
    || exists i, j :: ListsInFront(a, b, i, j) && SameButLists(a[i..], b[j..])
  }

  predicate ListsInFront(a: seq<Lexeme>, b: seq<Lexeme>, i: int, j: int) {
    0 < i <= |a| && 0 < j <= |b| && IsList(a[..i]) && IsList(b[..j])
  }

  // ----- Tokens that look like those of a list are those of a list --------------------------------------------------

  predicate IsListText(text: string) {
    text == "(" || text == ")" || text == "," || text == "?"
  }

  predicate Plain(tokens: seq<Lexeme>) {
    forall i :: 0 <= i < |tokens| ==> (IsListText(tokens[i].text) ==> tokens[i].kind == Punct)
  }

  lemma {:induction false} SeenIsNorm(tokens: seq<Lexeme>)
    ensures SeenAll(tokens) == Norm(tokens)
  {
    if tokens != [] {
      SeenIsNorm(tokens[1..]);
    }
  }

  lemma {:induction false} PrintableIsPlain(tokens: seq<Lexeme>, exec: bool)
    requires Printable(tokens, exec)
    ensures Plain(tokens)
  {
    if tokens != [] {
      PrintableIsPlain(tokens[1..], ExecAfter(tokens[0].kind, exec));
      assert forall i :: 0 < i < |tokens| ==> tokens[i] == tokens[1..][i - 1];
      if IsListText(tokens[0].text) {
        OnlyPunct(tokens[0]);
      }
    }
  }

  lemma {:induction false} OnlyPunct(token: Lexeme)
    requires IsPlain(token.kind) && Fits(token.kind, token.text) && IsListText(token.text)
    ensures token.kind == Punct
  {
  }

  // ----- Expanding lists ---------------------------------------------------------------------------------------------

  lemma {:induction false} OneStep(tokens: seq<Lexeme>)
    requires tokens != [] && tokens[0].text != "("
    ensures Expanded(tokens) == [tokens[0]] + Expanded(tokens[1..])
  {
  }

  /** Up to the next opening parenthesis nothing changes. */
  lemma {:induction false} Unchanged(tokens: seq<Lexeme>, n: nat)
    requires n <= |tokens| && forall k :: 0 <= k < n ==> tokens[k].text != "("
    ensures Expanded(tokens) == tokens[..n] + Expanded(tokens[n..])
    decreases n
  {
    hide Expanded;
    if n == 0 {
      assert tokens[0..] == tokens;
      assert tokens[..0] + Expanded(tokens) == Expanded(tokens);
    } else {
      OneStep(tokens);
      Unchanged(tokens[1..], n - 1);
      FrontParts(tokens, n, Expanded(tokens[n..]));
    }
  }

  lemma {:induction false} FrontParts<T>(s: seq<T>, n: nat, rest: seq<T>)
    requires 0 < n <= |s|
    ensures s[1..][n - 1..] == s[n..] && [s[0]] + (s[1..][..n - 1] + rest) == s[..n] + rest
  {
    assert [s[0]] + s[1..][..n - 1] == s[..n];
  }

  /** A list in front, of whatever form, becomes the dots. */
  lemma {:induction false} ListExpands(tokens: seq<Lexeme>, n: nat)
    requires n <= |tokens| && IsList(tokens[..n])
    ensures Expanded(tokens) == DOTS + Expanded(tokens[n..])
  {
    if tokens[..n] == DOTS {
      DotsExpand(tokens);
    } else {
      ListIsFound(tokens, n);
    }
  }

  lemma {:induction false} DotsExpand(tokens: seq<Lexeme>)
    requires |tokens| >= 5 && tokens[..5] == DOTS
    ensures Expanded(tokens) == DOTS + Expanded(tokens[5..])
  {
    hide Expanded;
    DotsAreNoList(tokens);
    forall k | 0 <= k < 4
      ensures tokens[1..][k].text != "("
    {
      assert tokens[1..][k] == tokens[..5][k + 1] == DOTS[k + 1];
    }
    Unchanged(tokens[1..], 4);
    FrontParts(tokens, 5, Expanded(tokens[5..]));
  }

  lemma {:induction false} DotsAreNoList(tokens: seq<Lexeme>)
    requires |tokens| >= 5 && tokens[..5] == DOTS
    ensures Expanded(tokens) == [tokens[0]] + Expanded(tokens[1..])
  {
    assert tokens[1] == tokens[..5][1];
    TextAt(tokens, 0);
    TextAt(tokens, 1);
    assert RunEnd(Texts(tokens), 1) == 1;
  }

  lemma {:induction false} ListIsFound(tokens: seq<Lexeme>, n: nat)
    requires 3 <= n <= |tokens| && IsList(tokens[..n]) && tokens[..n] != DOTS
    ensures ListLength(Texts(tokens)) == Some(n)
  {
    var texts, list := Texts(tokens), tokens[..n];
    forall k | 0 <= k < n
      ensures texts[k] == list[k].text
    {
      TextAt(tokens, k);
    }
    RunReaches(texts, 1, n - 1);
    var i :| 0 < i < n - 1 && list[i] == MARK;
    assert texts[1..n - 1][i - 1] == "?";
  }

  lemma {:induction false} RunReaches(texts: seq<string>, from: nat, to: nat)
    requires from <= to < |texts| && !InList(texts[to]) && forall k :: from <= k < to ==> InList(texts[k])
    ensures RunEnd(texts, from) == to
    decreases |texts| - from
  {
    if from < to {
      RunReaches(texts, from + 1, to);
    }
  }

  /** What is collapsed is a list. */
  lemma {:induction false} FoundIsList(tokens: seq<Lexeme>)
    requires Plain(tokens) && ListLength(Texts(tokens)).Some?
    ensures IsList(tokens[..ListLength(Texts(tokens)).value])
  {
    var texts := Texts(tokens);
    var n := ListLength(texts).value;
    forall k | 0 <= k < n
      ensures tokens[k] == Lexeme(Punct, texts[k])
    {
      TextAt(tokens, k);
      ListTokens(texts);
    }
    var i :| 0 <= i < |texts[1..n - 1]| && texts[1..n - 1][i] == "?";
    assert tokens[..n][i + 1] == MARK;
  }

  // ----- Lists that expand alike -------------------------------------------------------------------------------------

  /** A token that is not an opening parenthesis comes from itself. */
  lemma {:induction false} Peel(tokens: seq<Lexeme>, token: Lexeme, rest: seq<Lexeme>)
    requires Expanded(tokens) == [token] + rest && token.text != "("
    ensures tokens != [] && tokens[0] == token && Expanded(tokens[1..]) == rest
  {
    if tokens != [] {
      assert ([token] + rest)[0] == token;
      var length := ListLength(Texts(tokens));
      if length.None? {
        assert Expanded(tokens)[1..] == Expanded(tokens[1..]) && ([token] + rest)[1..] == rest;
      }
    }
  }

  /** Dots that were not a list of literals were there as dots. */
  lemma {:induction false} PeelDots(tokens: seq<Lexeme>, rest: seq<Lexeme>)
    requires tokens != [] && ListLength(Texts(tokens)).None? && Expanded(tokens) == DOTS + rest
    ensures |tokens| >= 5 && tokens[..5] == DOTS && Expanded(tokens[5..]) == rest
  {
    var r1 := [CLOSE] + rest;
    var r2, r3 := [DOT] + r1, [DOT] + ([DOT] + r1);
    assert DOTS + rest == [OPEN] + ([DOT] + r3);
    assert Expanded(tokens)[1..] == Expanded(tokens[1..]) && ([OPEN] + ([DOT] + r3))[1..] == [DOT] + r3;
    var t1 := tokens[1..];
    Peel(t1, DOT, r3);
    Peel(t1[1..], DOT, r2);
    Peel(t1[1..][1..], DOT, r1);
    Peel(t1[1..][1..][1..], CLOSE, rest);
    FiveFront(tokens);
  }

  lemma {:induction false} FiveFront(tokens: seq<Lexeme>)
    requires |tokens| >= 5
    ensures var t1 := tokens[1..];
            && tokens[..5] == [tokens[0], t1[0], t1[1..][0], t1[1..][1..][0], t1[1..][1..][1..][0]]
            && t1[1..][1..][1..][1..] == tokens[5..]
  {
  }

  lemma {:induction false} PlainFrom(tokens: seq<Lexeme>, n: nat)
    requires Plain(tokens) && n <= |tokens|
    ensures Plain(tokens[n..])
  {
  }

  /** The dots in front of what a list or dots expand to come from a list. */
  lemma {:induction false} DotsComeFromList(tokens: seq<Lexeme>, rest: seq<Lexeme>) returns (n: nat)
    requires Plain(tokens) && tokens != [] && Expanded(tokens) == DOTS + rest
    ensures 0 < n <= |tokens| && IsList(tokens[..n]) && Expanded(tokens[n..]) == rest
  {
    if ListLength(Texts(tokens)).Some? {
      n := ListLength(Texts(tokens)).value;
      FoundIsList(tokens);
      assert Expanded(tokens)[5..] == Expanded(tokens[n..]) && (DOTS + rest)[5..] == rest;
    } else {
      n := 5;
      PeelDots(tokens, rest);
    }
  }

  lemma {:induction false} AlikeIsSame(a: seq<Lexeme>, b: seq<Lexeme>)
    requires Plain(a) && Plain(b) && Expanded(a) == Expanded(b)
    ensures SameButLists(a, b)
    decreases |a| + |b|
  {
    if a != [] && b != [] {
      var la, lb := ListLength(Texts(a)), ListLength(Texts(b));
      if la.None? && lb.None? {
        assert Expanded(a)[0] == a[0] && Expanded(b)[0] == b[0];
        assert Expanded(a)[1..] == Expanded(a[1..]) && Expanded(b)[1..] == Expanded(b[1..]);
        PlainFrom(a, 1);
        PlainFrom(b, 1);
        AlikeIsSame(a[1..], b[1..]);
      } else {
        var rest := Expanded(a)[5..];
        assert Expanded(a) == DOTS + rest;
        var i := DotsComeFromList(a, rest);
        var j := DotsComeFromList(b, rest);
        PlainFrom(a, i);
        PlainFrom(b, j);
        AlikeIsSame(a[i..], b[j..]);
        assert ListsInFront(a, b, i, j);
      }
    }
  }

  lemma {:induction false} SameListLength(s: seq<string>, t: seq<string>)
    requires SameRun(s, t)
    ensures ListLength(["("] + s) == ListLength(["("] + t)
  {
    RunCons("(", s);
    RunCons("(", t);
    Behind("(", s, RunEnd(s, 0));
    Behind("(", t, RunEnd(t, 0));
  }

  /** Behind one token each, texts that expand alike start with the same list or with none. */
  lemma {:induction false} SameFront(a: seq<Lexeme>, b: seq<Lexeme>)
    requires a != [] && b != [] && a[0] == b[0] && Expanded(a[1..]) == Expanded(b[1..])
    ensures ListLength(Texts(a)) == ListLength(Texts(b))
  {
    RunAgrees(a[1..]);
    RunAgrees(b[1..]);
    assert Texts(a) == [a[0].text] + Texts(a[1..]) && Texts(b) == [b[0].text] + Texts(b[1..]);
    if a[0].text == "(" {
      SameListLength(Texts(a[1..]), Texts(b[1..]));
    }
  }

  lemma {:induction false} NoneOpensWithin(tokens: seq<Lexeme>)
    requires ListLength(Texts(tokens)).Some?
    ensures forall k :: 0 < k < ListLength(Texts(tokens)).value ==> tokens[k].text != "("
  {
    forall k | 0 < k < ListLength(Texts(tokens)).value
      ensures tokens[k].text != "("
    {
      TextAt(tokens, k);
    }
  }

  /** Behind a list of one length, texts that expand alike expand alike. */
  lemma {:induction false} SameBehindList(a: seq<Lexeme>, b: seq<Lexeme>, n: nat)
    requires 0 < n <= |a| && n <= |b| && Expanded(a[1..]) == Expanded(b[1..])
    requires ListLength(Texts(a)) == ListLength(Texts(b)) == Some(n)
    ensures Expanded(a[n..]) == Expanded(b[n..])
  {
    NoneOpensWithin(a);
    NoneOpensWithin(b);
    Unchanged(a[1..], n - 1);
    Unchanged(b[1..], n - 1);
    assert a[1..][n - 1..] == a[n..] && b[1..][n - 1..] == b[n..];
    assert Expanded(a[1..])[n - 1..] == Expanded(a[n..]) && Expanded(b[1..])[n - 1..] == Expanded(b[n..]);
  }

  lemma {:induction false} SameIsAlike(a: seq<Lexeme>, b: seq<Lexeme>)
    requires SameButLists(a, b)
    ensures Expanded(a) == Expanded(b)
    decreases |a|
  {
    if i, j :| ListsInFront(a, b, i, j) && SameButLists(a[i..], b[j..]) {
      SameIsAlike(a[i..], b[j..]);
      ListExpands(a, i);
      ListExpands(b, j);
    } else if a != [] {
      SameIsAlike(a[1..], b[1..]);
      SameFront(a, b);
      if ListLength(Texts(a)).Some? {
        SameBehindList(a, b, ListLength(Texts(a)).value);
      }
    }
  }

  // ----- Digests -----------------------------------------------------------------------------------------------------

  lemma {:induction false} SeenIsPlain(sql: string)
    requires Lex(sql, false).Some?
    ensures SeenAll(Lex(sql, false).value) == Norm(Lex(sql, false).value) && Plain(Norm(Lex(sql, false).value))
  {
    LexChains(sql, false);
    NormIsPrintable(Lex(sql, false).value, "", false);
    PrintableIsPlain(Norm(Lex(sql, false).value), false);
    SeenIsNorm(Lex(sql, false).value);
  }

  /** Two statements share a digest exactly when they show the same tokens but for their literal lists. */
  lemma {:induction false} SameDigestExactly(sql1: string, sql2: string)
    requires Lex(sql1, false).Some? && Lex(sql2, false).Some?
    ensures DigestText(sql1) == DigestText(sql2)
       <==> SameButLists(SeenAll(Lex(sql1, false).value), SeenAll(Lex(sql2, false).value))
  {
    hide DigestText, Lex, Norm, SeenAll, Expanded, SameButLists, Plain;
    DigestIsPrint(sql1);
    DigestIsPrint(sql2);
    SeenIsPlain(sql1);
    SeenIsPlain(sql2);
    var a, b := Norm(Lex(sql1, false).value), Norm(Lex(sql2, false).value);
    if Expanded(a) == Expanded(b) {
      AlikeIsSame(a, b);
    }
    if SameButLists(a, b) {
      SameIsAlike(a, b);
    }
  }

  /** A digest reads as its statement: the tokens it shows, with nothing but literal lists changed. */
  lemma {:induction false} DigestReadsAsStatement(sql: string)
    requires Lex(sql, false).Some?
    ensures DigestText(sql).Some? && Lex(DigestText(sql).value, false).Some?
    ensures SameButLists(SeenAll(Lex(DigestText(sql).value, false).value), SeenAll(Lex(sql, false).value))
  {
    hide Lex, SeenAll, SameButLists;
    DigestIsPrint(sql);
    DigestIsFixedPoint(sql);
    SameDigestExactly(DigestText(sql).value, sql);
  }
}

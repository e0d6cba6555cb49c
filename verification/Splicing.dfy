/**
 The splice is lexically exact: the rewritten statement reads as the client's tokens, unchanged and in
 order, with only the injected ones added at the splice point.
 */
module Splicing {
  import opened Common
  import opened Lexer
  import opened MaximalMunch
  import opened Chains
  import opened SqlShape
  import opened RowFilter

  const BLANK := Lexeme(Whitespace, " ")
  const WHERE := Lexeme(Word, "WHERE")
  const AND := Lexeme(Word, "AND")
  const OPEN := Lexeme(Punct, "(")
  const CLOSE := Lexeme(Punct, ")")

  // ----- Where the splice falls ----------------------------------------------------------------------------

  /** A statement's tokens before the splice, in the existing condition, and after it. */
  datatype Cut = Cut(before: seq<Lexeme>, condition: seq<Lexeme>, after: seq<Lexeme>) {
    function All(): seq<Lexeme> {
      before + condition + after
    }

    /** Whether the predicate goes inside a version-gated comment. */
    predicate InGate() {
      ExecEnd(before + condition, false)
    }
  }

  predicate IsLineNote(token: Lexeme) {
    token.kind == Comment && !IsBlockComment(token.text)
  }

  predicate EndsInName(tokens: seq<Lexeme>) {
    tokens != [] && (tokens[|tokens| - 1].kind == Word || tokens[|tokens| - 1].kind == QuotedIdent)
  }

  predicate EndsInLineNote(tokens: seq<Lexeme>) {
    tokens != [] && IsLineNote(tokens[|tokens| - 1])
  }

  /** The cut of a statement at the offsets an analysis recorded. */
  predicate IsCut(sql: string, analysis: Analysis, cut: Cut) {
    && Lex(sql, false) == Some(cut.All())
    && match analysis.whereClause
       case None => cut.condition == [] && analysis.insertAt == |Concat(cut.before)|
       case Some(extent) => ConditionSpans(extent, cut)
  }

  predicate ConditionSpans(extent: WhereExtent, cut: Cut) {
    extent.afterKeyword == |Concat(cut.before)| && extent.end == |Concat(cut.before + cut.condition)|
  }

  lemma {:induction false} Unconcat(a: seq<Lexeme>, b: seq<Lexeme>, c: seq<Lexeme>)
    ensures Concat(a + b + c) == Concat(a) + Concat(b) + Concat(c)
    ensures Concat(a + b) == Concat(a) + Concat(b)
  {
    ConcatSplits(a, b);
    ConcatSplits(a + b, c);
  }

  /** How many significant tokens stand before the splice. */
  function KeptBefore(body: seq<Sig>, reference: Reference): nat
    requires reference.next <= |body|
  {
    if WhereOf(body, reference.next).None? then reference.next else FirstAt(body, reference.next, IsClause) + 1
  }

  /** How many stand before it or in the existing condition. */
  function KeptThrough(body: seq<Sig>, reference: Reference): nat
    requires reference.next <= |body|
  {
    if WhereOf(body, reference.next).None? then reference.next
    else FirstAt(body, FirstAt(body, reference.next, IsClause) + 1, IsClause)
  }

  /** A cut's counts of significant tokens, as the analysis sees them. */
  ghost predicate Placed(cut: Cut, existing: bool) {
    var sigs := Significant(cut.All(), 0, 0);
    var body := BodyOf(sigs);
    && Accepted(sigs) && EndsInName(cut.before) && (existing || cut.condition == [])
    && (existing <==> WhereOf(body, ReferenceOf(body).next).Some?)
    && |Significant(cut.before, 0, 0)| == KeptBefore(body, ReferenceOf(body))
    && |Significant(cut.before + cut.condition, 0, 0)| == KeptThrough(body, ReferenceOf(body))
  }

  /** The offsets of an accepted statement are ends of names and starts of clause words. */
  lemma {:induction false} EligibleCut(sql: string) returns (cut: Cut)
    requires Analyze(sql).Eligible?
    ensures IsCut(sql, Analyze(sql).analysis, cut)
    ensures EndsInName(cut.before) && !EndsInLineNote(cut.condition)
    ensures Placed(cut, Analyze(sql).analysis.whereClause.Some?)
  {
    var tokens := Lex(sql, false).value;
    var sigs := Significant(tokens, 0, 0);
    EligibleIsAccepted(sigs);
    cut := CutReference(tokens, BodyOf(sigs), ReferenceOf(BodyOf(sigs)));
    NoLineNote(sql, cut);
  }

  predicate CutsAt(body: seq<Sig>, reference: Reference, cut: Cut)
    requires reference.next <= |body|
  {
    match WhereOf(body, reference.next)
    case None => cut.condition == [] && reference.end == |Concat(cut.before)|
    case Some(extent) => ConditionSpans(extent, cut)
  }

  lemma {:induction false} CutReference(tokens: seq<Lexeme>, body: seq<Sig>, reference: Reference) returns (cut: Cut)
    requires body <= Significant(tokens, 0, 0) && EndsAtName(body, reference)
    ensures tokens == cut.All() && EndsInName(cut.before) && Delimited(cut.condition, cut.after)
    ensures CutsAt(body, reference, cut)
    ensures |Significant(cut.before, 0, 0)| == KeptBefore(body, reference)
    ensures |Significant(cut.before + cut.condition, 0, 0)| == KeptThrough(body, reference)
  {
    if WhereOf(body, reference.next).None? {
      cut := CutAfter(tokens, reference.next - 1);
    } else {
      var pos := FirstAt(body, reference.next, IsClause);
      cut := CutAround(tokens, body, pos, FirstAt(body, pos + 1, IsClause));
    }
  }

  lemma {:induction false} CutAfter(tokens: seq<Lexeme>, k: nat) returns (cut: Cut)
    requires k < |Significant(tokens, 0, 0)| && IsName(Significant(tokens, 0, 0)[k])
    ensures tokens == cut.All() && cut.condition == [] && EndsInName(cut.before)
    ensures |Concat(cut.before)| == Significant(tokens, 0, 0)[k].end
    ensures |Significant(cut.before, 0, 0)| == |Significant(cut.before + cut.condition, 0, 0)| == k + 1
  {
    var c, d := CutPast(tokens, 0, 0, k);
    cut := Cut(c, [], d);
    assert c + [] == c;
  }

  /** What ends a condition: a significant token of its own, or the clause word after it. */
  predicate Delimited(condition: seq<Lexeme>, after: seq<Lexeme>) {
    condition == [] || IsSignificant(condition[|condition| - 1].kind)
    || (after != [] && after[0].kind == Word)
  }

  /** The tokens strictly between the keyword at `pos` and the clause word at `next`, if there is one. */
  lemma {:induction false} CutAround(tokens: seq<Lexeme>, body: seq<Sig>, pos: nat, next: nat) returns (cut: Cut)
    requires body <= Significant(tokens, 0, 0) && pos < next <= |body|
    requires body[pos].kind == Word && (next < |body| ==> body[next].kind == Word)
    ensures tokens == cut.All() && EndsInName(cut.before) && Delimited(cut.condition, cut.after)
    ensures |Concat(cut.before)| == body[pos].end
    ensures |Concat(cut.before + cut.condition)|
         == if next < |body| then body[next].start else body[|body| - 1].end
    ensures |Significant(cut.before, 0, 0)| == pos + 1
    ensures |Significant(cut.before + cut.condition, 0, 0)| == next
  {
    hide Significant, Concat, DepthEnd, IsSignificant;
    var sigs := Significant(tokens, 0, 0);
    var before, rest := CutPast(tokens, 0, 0, pos);
    var at, depth := |Concat(before)|, DepthEnd(before, 0);
    var later := Significant(rest, at, depth);
    var n, m := |body| - 1 - pos, next - pos - 1;
    LaterBody(sigs, body, later, pos, next);
    var c, d := Delimit(rest, at, depth, n, m);
    assert at + |Concat(c)| == EndAmong(later, n, m, at);
    cut := Cut(before, c, d);
    Assemble(tokens, rest, cut);
  }

  lemma {:induction false} Assemble(tokens: seq<Lexeme>, rest: seq<Lexeme>, cut: Cut)
    requires tokens == cut.before + rest && rest == cut.condition + cut.after
    ensures tokens == cut.All()
    ensures |Concat(cut.before + cut.condition)| == |Concat(cut.before)| + |Concat(cut.condition)|
    ensures var at, depth := |Concat(cut.before)|, DepthEnd(cut.before, 0);
            |Significant(cut.before + cut.condition, 0, 0)|
            == |Significant(cut.before, 0, 0)| + |Significant(cut.condition, at, depth)|
  {
    assert cut.before + (cut.condition + cut.after) == cut.before + cut.condition + cut.after;
    ConcatSplits(cut.before, cut.condition);
    SignificantSplits(cut.before, cut.condition, 0, 0);
  }

  lemma {:induction false} LaterBody(sigs: seq<Sig>, body: seq<Sig>, later: seq<Sig>, pos: nat, next: nat)
    requires body <= sigs && pos < next <= |body| && later == sigs[pos + 1..]
    ensures body[pos] == sigs[pos] && |later| >= |body| - 1 - pos
    ensures next < |body| ==> later[next - pos - 1] == body[next]
    ensures EndAmong(later, |body| - 1 - pos, next - pos - 1, body[pos].end)
         == if next < |body| then body[next].start else body[|body| - 1].end
  {
  }

  /** Where the `m`-th of `n` tokens starts, or else where the last of them ends. */
  function EndAmong(sigs: seq<Sig>, n: nat, m: nat, at: nat): nat
    requires m <= n <= |sigs|
  {
    if m < n then sigs[m].start else if n == 0 then at else sigs[n - 1].end
  }

  /** The tokens up to the start of the `m`-th of `n` significant ones, or to the end of the last. */
  lemma {:induction false} Delimit(tokens: seq<Lexeme>, at: nat, depth: nat, n: nat, m: nat)
    returns (c: seq<Lexeme>, d: seq<Lexeme>)
    requires m <= n <= |Significant(tokens, at, depth)|
    requires m < n ==> Significant(tokens, at, depth)[m].kind == Word
    ensures tokens == c + d && Delimited(c, d)
    ensures at + |Concat(c)| == EndAmong(Significant(tokens, at, depth), n, m, at)
    ensures |Significant(c, at, depth)| == m
  {
    if m < n {
      c, d := CutFront(tokens, at, depth, m);
    } else if n == 0 {
      c, d := [], tokens;
      assert tokens == [] + tokens;
    } else {
      c, d := CutPast(tokens, at, depth, n - 1);
    }
  }

  lemma {:induction false} CutFront(tokens: seq<Lexeme>, at: nat, depth: nat, k: nat)
    returns (c: seq<Lexeme>, d: seq<Lexeme>)
    requires k < |Significant(tokens, at, depth)|
    ensures tokens == c + d && d != [] && d[0].kind == Significant(tokens, at, depth)[k].kind
    ensures at + |Concat(c)| == Significant(tokens, at, depth)[k].start
    ensures |Significant(c, at, depth)| == k
  {
    var token, b;
    c, token, b := SigRecords(tokens, at, depth, k);
    d := [token] + b;
    assert c + d == c + [token] + b;
  }

  lemma {:induction false} CutPast(tokens: seq<Lexeme>, at: nat, depth: nat, k: nat)
    returns (c: seq<Lexeme>, d: seq<Lexeme>)
    requires k < |Significant(tokens, at, depth)|
    ensures tokens == c + d && c != [] && c[|c| - 1].kind == Significant(tokens, at, depth)[k].kind
    ensures IsSignificant(c[|c| - 1].kind)
    ensures at + |Concat(c)| == Significant(tokens, at, depth)[k].end
    ensures Significant(tokens, at, depth)[..k + 1] == Significant(c, at, depth)
    ensures Significant(tokens, at, depth)[k + 1..] == Significant(d, at + |Concat(c)|, DepthEnd(c, depth))
  {
    var a, token;
    a, token, d := SigRecords(tokens, at, depth, k);
    c := a + [token];
    ConcatSplits(a, [token]);
    assert [token][1..] == [];
    SignificantSplits(c, d, at, depth);
    SignificantSplits(a, [token], at, depth);
    SignificantUnfolds([token], at + |Concat(a)|, DepthEnd(a, depth));
  }

  /** A line comment runs to the end of its line, so no word can follow it. */
  lemma {:induction false} NoLineNote(sql: string, cut: Cut)
    requires Lex(sql, false) == Some(cut.All())
    requires Delimited(cut.condition, cut.after)
    ensures !EndsInLineNote(cut.condition)
  {
    if cut.condition != [] && cut.after != [] {
      LexChains(sql, false);
      AllChains(cut);
      NoteStops(cut.condition, cut.after, ExecEnd(cut.before, false), cut.InGate());
    }
  }

  lemma {:induction false} NoteStops(tokens: seq<Lexeme>, after: seq<Lexeme>, exec: bool, execAfter: bool)
    requires tokens != [] && Chain(tokens, Concat(after), exec) && Chain(after, "", execAfter) && after != []
    ensures after[0].kind == Word ==> !EndsInLineNote(tokens)
  {
    var n := |tokens| - 1;
    assert tokens == tokens[..n] + [tokens[n]];
    ChainSplits(tokens[..n], [tokens[n]], Concat(after), exec);
    LastInFront(tokens[n], after, ExecEnd(tokens[..n], exec), execAfter);
  }

  lemma {:induction false} LastInFront(last: Lexeme, after: seq<Lexeme>, exec: bool, execAfter: bool)
    requires Chain([last], Concat(after), exec) && Chain(after, "", execAfter) && after != []
    ensures after[0].kind == Word ==> !IsLineNote(last)
  {
    assert [last][1..] == [] && Concat([]) + Concat(after) == Concat(after);
    assert Fits(after[0].kind, after[0].text);
  }

  // ----- The offsets determine the cut -----------------------------------------------------------------------

  predicate NoneEmpty(tokens: seq<Lexeme>) {
    forall i :: 0 <= i < |tokens| ==> tokens[i].text != ""
  }

  lemma {:induction false} ChainNoneEmpty(tokens: seq<Lexeme>, rest: string, exec: bool)
    requires Chain(tokens, rest, exec)
    ensures NoneEmpty(tokens)
  {
    if tokens != [] {
      ChainIsLong(tokens, rest, exec);
      ChainNoneEmpty(tokens[1..], rest, ExecAfter(tokens[0].kind, exec));
      assert forall i :: 0 < i < |tokens| ==> tokens[i] == tokens[1..][i - 1];
    }
  }

  lemma {:induction false} NoText(tokens: seq<Lexeme>)
    requires NoneEmpty(tokens)
    ensures Concat(tokens) == "" <==> tokens == []
  {
    assert tokens != [] ==> tokens[0].text != "";
  }

  /** Of two ways to split a run of tokens, the one whose front is no shorter in tokens is no shorter in text. */
  lemma {:induction false} FrontByLength(a: seq<Lexeme>, b: seq<Lexeme>, c: seq<Lexeme>, d: seq<Lexeme>)
    requires a + b == c + d && NoneEmpty(a + b) && |a| <= |c| && |Concat(a)| == |Concat(c)|
    ensures a == c && b == d
  {
    var e := c[|a|..];
    assert c == (a + b)[..|c|] && a == (a + b)[..|a|];
    assert c == a + e;
    assert forall i :: 0 <= i < |e| ==> e[i] == (a + b)[|a| + i];
    NoText(e);
    ConcatSplits(a, e);
    assert b == (a + b)[|a|..] && d == (c + d)[|c|..];
  }

  lemma {:induction false} SameFront(a: seq<Lexeme>, b: seq<Lexeme>, c: seq<Lexeme>, d: seq<Lexeme>)
    requires a + b == c + d && NoneEmpty(a + b) && |Concat(a)| == |Concat(c)|
    ensures a == c && b == d
  {
    if |a| <= |c| {
      FrontByLength(a, b, c, d);
    } else {
      FrontByLength(c, d, a, b);
    }
  }

  lemma {:induction false} CutIsUnique(sql: string, analysis: Analysis, a: Cut, b: Cut)
    requires IsCut(sql, analysis, a) && IsCut(sql, analysis, b)
    ensures a == b
  {
    LexChains(sql, false);
    ChainNoneEmpty(a.All(), "", false);
    if analysis.whereClause.Some? {
      SameFront(a.before + a.condition, a.after, b.before + b.condition, b.after);
      assert forall i :: 0 <= i < |a.before + a.condition| ==> (a.before + a.condition)[i] == a.All()[i];
      SameFront(a.before, a.condition, b.before, b.condition);
    } else {
      assert a.before + [] == a.before && b.before + [] == b.before;
      SameFront(a.before, a.after, b.before, b.after);
    }
  }

  // ----- The tokens of the rewritten statement --------------------------------------------------------------

  /** The injected tokens on either side of the existing condition. */
  function Lead(existing: bool): seq<Lexeme> {
    if existing then [BLANK, OPEN] else [BLANK, WHERE, BLANK, OPEN]
  }

  function Link(existing: bool): seq<Lexeme> {
    if existing then [CLOSE, BLANK, AND, BLANK, OPEN] else []
  }

  function Gap(after: seq<Lexeme>): seq<Lexeme> {
    if after != [] && after[0].kind != Whitespace then [BLANK] else []
  }

  /** The client's tokens in order, with the injected ones around them. */
  function Injected(cut: Cut, existing: bool, predicateTokens: seq<Lexeme>): seq<Lexeme> {
    cut.before + (Lead(existing) + (cut.condition + (Link(existing)
    + (predicateTokens + ([CLOSE] + (Gap(cut.after) + cut.after))))))
  }

  /** The predicate's own tokens. */
  function PredicateTokens(text: string): seq<Lexeme>
    requires Valid(text)
  {
    Lex(Trim(text), false).value
  }

  /** A `*` directly in front of a `/`, which would close a version-gated comment. */
  predicate HoldsGateEnd(tokens: seq<Lexeme>) {
    exists i :: 0 <= i < |tokens| - 1 && tokens[i] == Lexeme(Punct, "*") && tokens[i + 1] == Lexeme(Punct, "/")
  }

  lemma {:induction false} InjectedConcats(cut: Cut, existing: bool, p: seq<Lexeme>)
    ensures Concat(Injected(cut, existing, p))
         == Concat(cut.before) + (Concat(Lead(existing)) + (Concat(cut.condition) + (Concat(Link(existing))
            + (Concat(p) + (")" + Concat(Gap(cut.after) + cut.after))))))
  {
    var f := Gap(cut.after) + cut.after;
    ConcatSplits([CLOSE], f);
    ConcatSplits(p, [CLOSE] + f);
    ConcatSplits(Link(existing), p + ([CLOSE] + f));
    ConcatSplits(cut.condition, Link(existing) + (p + ([CLOSE] + f)));
    ConcatSplits(Lead(existing), cut.condition + (Link(existing) + (p + ([CLOSE] + f))));
    ConcatSplits(cut.before, Lead(existing) + (cut.condition + (Link(existing) + (p + ([CLOSE] + f)))));
    assert [CLOSE][1..] == [] && Concat([CLOSE]) == ")";
  }

  lemma {:induction false} GapReads(after: seq<Lexeme>, exec: bool)
    requires Chain(after, "", exec)
    ensures Concat(Gap(after) + after) == Remainder(Concat(after))
    ensures Chain(Gap(after) + after, "", exec) && ExecEnd(Gap(after) + after, exec) == ExecEnd(after, exec)
  {
    if after != [] {
      ChainIsLong(after, "", exec);
      assert Concat(after)[0] == after[0].text[0];
      FitsSteps(after[0].kind, after[0].text, Concat(after[1..]) + "", exec);
      assert Concat(after) + "" == Concat(after);
      FrontIsBlank(after[0], Concat(after[1..]) + "", exec);
    }
    if Gap(after) == [BLANK] {
      assert ([BLANK] + after)[1..] == after;
    } else {
      assert [] + after == after;
    }
  }

  lemma {:induction false} FrontIsBlank(token: Lexeme, rest: string, exec: bool)
    requires Fits(token.kind, token.text) && MayFollow(token.kind, token.text, rest, exec)
    ensures token.text != "" && (token.kind == Whitespace <==> IsSpace(token.text[0]))
  {
    FitsSteps(token.kind, token.text, rest, exec);
    assert (token.text + rest)[0] == token.text[0];
  }

  lemma {:induction false} CutsText(sql: string, analysis: Analysis, cut: Cut)
    requires IsCut(sql, analysis, cut)
    requires sql == Concat(cut.before) + Concat(cut.condition) + Concat(cut.after)
    ensures InRange(sql, analysis)
    ensures match analysis.whereClause
            case None => (&& Concat(cut.condition) == "" && sql[..analysis.insertAt] == Concat(cut.before)
                          && sql[analysis.insertAt..] == Concat(cut.after))
            case Some(extent) => (&& sql[..extent.afterKeyword] == Concat(cut.before)
                                  && sql[extent.afterKeyword..extent.end] == Concat(cut.condition)
                                  && sql[extent.end..] == Concat(cut.after))
  {
    ConcatSplits(cut.before, cut.condition);
  }

  // ----- They are lexed back ---------------------------------------------------------------------------------

  lemma {:induction false} CloseMayFollow(tokens: seq<Lexeme>, r: string, rest: string, exec: bool)
    requires tokens != [] && Chain(tokens, r, exec) && !EndsInLineNote(tokens) && Is(rest, 0, ')')
    ensures LastMayFollow(tokens, rest, exec)
  {
    if |tokens| > 1 {
      CloseMayFollow(tokens[1..], r, rest, ExecAfter(tokens[0].kind, exec));
    } else if tokens[0].text == "-" {
      assert ("-" + rest)[1] == rest[0];
    }
  }

  lemma {:induction false} BlankMayFollow(tokens: seq<Lexeme>, r: string, rest: string, exec: bool)
    requires Chain(tokens, r, exec) && EndsInName(tokens) && Is(rest, 0, ' ')
    ensures LastMayFollow(tokens, rest, exec) && Tolerates(Concat(tokens), rest)
  {
    ChainIsLong(tokens, r, exec);
    if |tokens| > 1 {
      assert tokens[1..][|tokens| - 2] == tokens[|tokens| - 1];
      BlankMayFollow(tokens[1..], r, rest, ExecAfter(tokens[0].kind, exec));
      ChainIsLong(tokens[1..], r, ExecAfter(tokens[0].kind, exec));
    } else {
      assert tokens[1..] == [] && Concat(tokens) == tokens[0].text;
      NamesEndWell(tokens[0]);
    }
  }

  lemma {:induction false} NamesEndWell(token: Lexeme)
    requires Fits(token.kind, token.text) && (token.kind == Word || token.kind == QuotedIdent)
    ensures token.text != "" && token.text[|token.text| - 1] != '-'
  {
    if token.kind == QuotedIdent {
      QuoteEndsInQuote(token.text, 1, '`');
    }
  }

  lemma {:induction false} QuoteEndsInQuote(s: string, i: nat, quote: char)
    requires QuoteEnd(s, i, quote).Some?
    ensures s[QuoteEnd(s, i, quote).value - 1] == quote
    decreases |s| - i
  {
    if quote != '`' && s[i] == '\\' {
      QuoteEndsInQuote(s, i + 2, quote);
    } else if s[i] == quote && Is(s, i + 1, quote) {
      QuoteEndsInQuote(s, i + 2, quote);
    } else if s[i] != quote {
      QuoteEndsInQuote(s, i + 1, quote);
    }
  }

  lemma {:induction false} InFrontOfClose(tokens: seq<Lexeme>, r: string, rest: string, exec: bool)
    requires Chain(tokens, r, exec) && !EndsInLineNote(tokens) && Is(rest, 0, ')')
    ensures Chain(tokens, rest, exec)
  {
    if tokens != [] {
      CloseMayFollow(tokens, r, rest, exec);
      Retarget(tokens, r, rest, exec);
    }
  }

  lemma {:induction false} InFrontOfBlank(tokens: seq<Lexeme>, r: string, rest: string, exec: bool)
    requires Chain(tokens, r, exec) && EndsInName(tokens) && Is(rest, 0, ' ')
    ensures Chain(tokens, rest, exec)
  {
    BlankMayFollow(tokens, r, rest, exec);
    Retarget(tokens, r, rest, exec);
  }

  /** Harmless tokens never open or close a gate. */
  lemma {:induction false} HarmlessKeepsGate(tokens: seq<Lexeme>, exec: bool)
    requires forall i :: 0 <= i < |tokens| ==> Harmless(tokens[i])
    ensures ExecEnd(tokens, exec) == exec && !EndsInLineNote(tokens)
  {
    if tokens != [] {
      HarmlessKeepsGate(tokens[1..], exec);
    }
  }

  /** Inside a gate, harmless tokens stay themselves exactly when they hold no `*` `/`. */
  lemma {:induction false} GateSensitivity(tokens: seq<Lexeme>, rest: string, exec: bool)
    requires forall i :: 0 <= i < |tokens| ==> Harmless(tokens[i])
    requires Chain(tokens, rest, false) && Is(rest, 0, ')')
    ensures Chain(tokens, rest, exec) <==> !(exec && HoldsGateEnd(tokens))
  {
    if tokens != [] {
      var tail := tokens[1..];
      GateSensitivity(tail, rest, exec);
      GateEndUnfolds(tokens);
      var later := Concat(tail) + rest;
      if tail == [] {
        assert later == rest;
      } else {
        ChainIsLong(tail, rest, false);
        assert later[0] == tail[0].text[0];
        OnlySlash(tail, rest);
      }
    }
  }

  lemma {:induction false} GateEndUnfolds(tokens: seq<Lexeme>)
    requires tokens != []
    ensures HoldsGateEnd(tokens) <==>
              (|tokens| > 1 && tokens[0] == Lexeme(Punct, "*") && tokens[1] == Lexeme(Punct, "/"))
              || HoldsGateEnd(tokens[1..])
  {
    var tail := tokens[1..];
    assert forall i :: 0 < i < |tokens| ==> tokens[i] == tail[i - 1];
    if HoldsGateEnd(tail) {
      var i :| 0 <= i < |tail| - 1 && tail[i] == Lexeme(Punct, "*") && tail[i + 1] == Lexeme(Punct, "/");
      assert tokens[i + 1] == tail[i] && tokens[i + 2] == tail[i + 1];
    }
    if HoldsGateEnd(tokens) {
      var i :| 0 <= i < |tokens| - 1 && tokens[i] == Lexeme(Punct, "*") && tokens[i + 1] == Lexeme(Punct, "/");
      if i > 0 {
        assert tail[i - 1] == tokens[i] && tail[i - 1 + 1] == tokens[i + 1];
      }
    }
  }

  /** Of the harmless tokens only the division sign starts with a slash. */
  lemma {:induction false} OnlySlash(tokens: seq<Lexeme>, rest: string)
    requires tokens != [] && Chain(tokens, rest, false) && Harmless(tokens[0])
    ensures tokens[0].text != ""
    ensures tokens[0].text[0] == '/' <==> tokens[0] == Lexeme(Punct, "/")
  {
    ChainIsLong(tokens, rest, false);
  }

  /** A token that starts a chain in front of text that starts with `c`. */
  lemma {:induction false} ChainsOn(token: Lexeme, tokens: seq<Lexeme>, rest: string, exec: bool, c: char)
    requires Fits(token.kind, token.text)
    requires Chain(tokens, rest, exec) && (Is(Concat(tokens), 0, c) || token == OPEN || token == CLOSE)
    requires token == OPEN || token == CLOSE || (token == BLANK && !IsSpace(c))
          || (token.kind == Word && |token.text| > 1 && c == ' ')
    ensures Chain([token] + tokens, rest, exec) && ExecEnd([token] + tokens, exec) == ExecEnd(tokens, exec)
    ensures Concat([token] + tokens) == token.text + Concat(tokens)
  {
    assert ([token] + tokens)[1..] == tokens;
  }

  lemma {:induction false} OpenChains(rest: string, exec: bool)
    ensures Chain([BLANK, OPEN], rest, exec) && ExecEnd([BLANK, OPEN], exec) == exec
    ensures Concat([BLANK, OPEN]) == " ("
  {
    ChainsOn(OPEN, [], rest, exec, ' ');
    assert [OPEN] + [] == [OPEN] && [BLANK] + [OPEN] == [BLANK, OPEN];
    ChainsOn(BLANK, [OPEN], rest, exec, '(');
  }

  lemma {:induction false} WordChains(word: Lexeme, rest: string, exec: bool)
    requires word == WHERE || word == AND
    ensures Chain([BLANK, word, BLANK, OPEN], rest, exec) && ExecEnd([BLANK, word, BLANK, OPEN], exec) == exec
    ensures Concat([BLANK, word, BLANK, OPEN]) == " " + word.text + " ("
  {
    OpenChains(rest, exec);
    ChainsOn(word, [BLANK, OPEN], rest, exec, ' ');
    assert [word] + [BLANK, OPEN] == [word, BLANK, OPEN];
    ChainsOn(BLANK, [word, BLANK, OPEN], rest, exec, word.text[0]);
    assert [BLANK] + [word, BLANK, OPEN] == [BLANK, word, BLANK, OPEN];
  }

  lemma {:induction false} LeadChains(existing: bool, rest: string, exec: bool)
    ensures Chain(Lead(existing), rest, exec) && ExecEnd(Lead(existing), exec) == exec
    ensures Concat(Lead(existing)) == if existing then " (" else " WHERE ("
  {
    OpenChains(rest, exec);
    WordChains(WHERE, rest, exec);
  }

  lemma {:induction false} LinkChains(existing: bool, rest: string, exec: bool)
    ensures Chain(Link(existing), rest, exec) && ExecEnd(Link(existing), exec) == exec
    ensures Concat(Link(existing)) == if existing then ") AND (" else ""
  {
    WordChains(AND, rest, exec);
    ChainsOn(CLOSE, [BLANK, AND, BLANK, OPEN], rest, exec, ' ');
    assert [CLOSE] + [BLANK, AND, BLANK, OPEN] == Link(true);
  }

  /** The rewritten bytes are the bytes of those tokens. */
  lemma {:induction false} SpliceConcats(sql: string, analysis: Analysis, text: string, cut: Cut)
    requires IsCut(sql, analysis, cut) && Valid(text)
    ensures InRange(sql, analysis)
    ensures Splice(sql, analysis, Trim(text))
         == Concat(Injected(cut, analysis.whereClause.Some?, PredicateTokens(text)))
  {
    var existing, p := analysis.whereClause.Some?, PredicateTokens(text);
    LexChains(sql, false);
    LexChains(Trim(text), false);
    Unconcat(cut.before, cut.condition, cut.after);
    AllChains(cut);
    GapReads(cut.after, cut.InGate());
    InjectedConcats(cut, existing, p);
    LeadChains(existing, "", false);
    LinkChains(existing, "", false);
    CutsText(sql, analysis, cut);
    Flatten(Concat(cut.before), Concat(cut.condition), Trim(text), Remainder(Concat(cut.after)));
  }

  lemma {:induction false} Flatten(b: string, c: string, t: string, r: string)
    ensures b + (" (" + (c + (") AND (" + (t + (")" + r))))) == b + " (" + c + ") AND (" + t + ")" + r
    ensures b + (" WHERE (" + ("" + ("" + (t + (")" + r))))) == b + " WHERE (" + t + ")" + r
  {
  }

  /** The rewritten tokens form a chain exactly when no injected `*` `/` would close a gate. */
  lemma {:induction false} InjectedChains(cut: Cut, existing: bool, p: seq<Lexeme>)
    requires Chain(cut.All(), "", false) && !ExecEnd(cut.All(), false)
    requires EndsInName(cut.before) && !EndsInLineNote(cut.condition) && (existing || cut.condition == [])
    requires Chain(p, "", false) && forall i :: 0 <= i < |p| ==> Harmless(p[i])
    ensures Chain(Injected(cut, existing, p), "", false) <==> !(cut.InGate() && HoldsGateEnd(p))
    ensures !ExecEnd(Injected(cut, existing, p), false)
  {
    var e1, e2 := ExecEnd(cut.before, false), cut.InGate();
    AllChains(cut);
    var closing := [CLOSE] + (Gap(cut.after) + cut.after);
    ClosingChains(cut.after, e2);
    var tail := p + closing;
    PredicateChains(p, closing, e2);
    LinkedChains(Link(existing), tail, existing, true, e2);
    var linked := Link(existing) + tail;
    ChainSplits(cut.condition, linked, "", e1);
    ExecEndSplits(cut.condition, linked, e1);
    if cut.condition != [] {
      InFrontOfClose(cut.condition, Concat(cut.after), Concat(linked) + "", e1);
    }
    var whole := cut.condition + linked;
    LinkedChains(Lead(existing), whole, existing, false, e1);
    var injected := Lead(existing) + whole;
    ChainSplits(cut.before, injected, "", false);
    ExecEndSplits(cut.before, injected, false);
    InFrontOfBlank(cut.before, Concat(cut.condition) + Concat(cut.after), Concat(injected) + "", false);
  }

  /** The chains an accepted statement falls into at its cut. */
  lemma {:induction false} AllChains(cut: Cut)
    requires Chain(cut.All(), "", false)
    ensures Chain(cut.before, Concat(cut.condition) + Concat(cut.after), false)
    ensures Chain(cut.condition, Concat(cut.after), ExecEnd(cut.before, false))
    ensures Chain(cut.after, "", cut.InGate())
    ensures ExecEnd(cut.All(), false) == ExecEnd(cut.after, cut.InGate())
    ensures cut.InGate() == ExecEnd(cut.condition, ExecEnd(cut.before, false))
  {
    ChainSplits(cut.before + cut.condition, cut.after, "", false);
    assert Concat(cut.after) + "" == Concat(cut.after);
    ChainSplits(cut.before, cut.condition, Concat(cut.after), false);
    ExecEndSplits(cut.before + cut.condition, cut.after, false);
    ExecEndSplits(cut.before, cut.condition, false);
  }

  lemma {:induction false} ClosingChains(after: seq<Lexeme>, exec: bool)
    requires Chain(after, "", exec)
    ensures var closing := [CLOSE] + (Gap(after) + after);
            && Chain(closing, "", exec) && ExecEnd(closing, exec) == ExecEnd(after, exec)
            && Is(Concat(closing), 0, ')')
  {
    GapReads(after, exec);
    ChainsOn(CLOSE, Gap(after) + after, "", exec, ' ');
  }

  lemma {:induction false} PredicateChains(p: seq<Lexeme>, closing: seq<Lexeme>, exec: bool)
    requires Chain(p, "", false) && forall i :: 0 <= i < |p| ==> Harmless(p[i])
    requires Chain(closing, "", exec) && Is(Concat(closing), 0, ')')
    ensures Chain(p + closing, "", exec) <==> !(exec && HoldsGateEnd(p))
    ensures ExecEnd(p + closing, exec) == ExecEnd(closing, exec)
  {
    HarmlessKeepsGate(p, false);
    HarmlessKeepsGate(p, exec);
    InFrontOfClose(p, "", Concat(closing) + "", false);
    GateSensitivity(p, Concat(closing) + "", exec);
    ChainSplits(p, closing, "", exec);
    ExecEndSplits(p, closing, exec);
  }

  lemma {:induction false} LinkedChains(fixed: seq<Lexeme>, tail: seq<Lexeme>, existing: bool, link: bool, exec: bool)
    requires fixed == if link then Link(existing) else Lead(existing)
    ensures Chain(fixed + tail, "", exec) <==> Chain(tail, "", exec)
    ensures ExecEnd(fixed + tail, exec) == ExecEnd(tail, exec)
    ensures !link ==> Is(Concat(fixed + tail), 0, ' ')
    ensures link && existing ==> Is(Concat(fixed + tail), 0, ')')
  {
    LeadChains(existing, Concat(tail) + "", exec);
    LinkChains(existing, Concat(tail) + "", exec);
    ChainSplits(fixed, tail, "", exec);
    ExecEndSplits(fixed, tail, exec);
    ConcatSplits(fixed, tail);
  }

  /**
   Tokenizing the rewritten statement gives the client's tokens with only the injected ones added, unless
   the predicate goes into a version-gated comment that its own `*` `/` would end.
   */
  lemma {:induction false} SpliceIsExact(sql: string, analysis: Analysis, text: string) returns (cut: Cut)
    requires Analyze(sql) == Eligible(analysis) && Valid(text)
    ensures IsCut(sql, analysis, cut) && InRange(sql, analysis) && Placed(cut, analysis.whereClause.Some?)
    ensures Lex(Splice(sql, analysis, Trim(text)), false)
            == Some(Injected(cut, analysis.whereClause.Some?, PredicateTokens(text)))
       <==> !(cut.InGate() && HoldsGateEnd(PredicateTokens(text)))
  {
    cut := EligibleCut(sql);
    var existing, p := analysis.whereClause.Some?, PredicateTokens(text);
    var injected := Injected(cut, existing, p);
    LexChains(sql, false);
    LexChains(Trim(text), false);
    SpliceConcats(sql, analysis, text, cut);
    InjectedChains(cut, existing, p);
    if Chain(injected, "", false) {
      ChainIsLex(injected, false);
    } else if Lex(Concat(injected), false) == Some(injected) {
      LexChains(Concat(injected), false);
    }
  }
}

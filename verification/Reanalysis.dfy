/** The rewritten statement is again a one-table SELECT on the same table, with the same insertion point. */
module Reanalysis {
  import opened Common
  import opened Lexer
  import opened Chains
  import opened SqlShape
  import opened RowFilter
  import opened Splicing

  // ----- Depth ---------------------------------------------------------------------------------------------

  predicate Deep(sigs: seq<Sig>, depth: nat) {
    forall k :: 0 <= k < |sigs| ==> sigs[k].depth >= depth
  }

  /** Balanced tokens never rise above the depth they start from, and return to it. */
  lemma {:induction false} BalancedDepth(tokens: seq<Lexeme>, at: nat, open: nat, outer: nat)
    requires Balance(tokens, open).Some?
    ensures DepthEnd(tokens, outer + open) == outer + Balance(tokens, open).value
    ensures Deep(Significant(tokens, at, outer + open), outer)
  {
    if tokens != [] {
      var token, depth := tokens[0], outer + open;
      var next := BalanceUnfolds(tokens, open, outer);
      BalancedDepth(tokens[1..], at + |token.text|, next, outer);
      SignificantUnfolds(tokens, at, depth);
      DeepJoins(SigOf(token, at, depth), Significant(tokens[1..], at + |token.text|, DepthAfter(token, depth)), outer);
    }
  }

  lemma {:induction false} DeepJoins(a: seq<Sig>, b: seq<Sig>, depth: nat)
    requires Deep(a, depth) && Deep(b, depth)
    ensures Deep(a + b, depth)
  {
  }

  lemma {:induction false} BalanceUnfolds(tokens: seq<Lexeme>, open: nat, outer: nat) returns (next: nat)
    requires tokens != [] && Balance(tokens, open).Some?
    ensures Balance(tokens, open) == Balance(tokens[1..], next)
    ensures DepthAfter(tokens[0], outer + open) == outer + next && DepthAt(tokens[0], outer + open) >= outer
  {
    var token := tokens[0];
    next := if IsPunct(token.kind, token.text, '(') then open + 1
            else if IsPunct(token.kind, token.text, ')') then open - 1 else open;
  }

  /** The first significant token stands at the depth it is entered with. */
  lemma {:induction false} FirstDepth(tokens: seq<Lexeme>, at: nat, depth: nat)
    requires |Significant(tokens, at, depth)| > 0
    ensures var first := Significant(tokens, at, depth)[0];
            first.depth == DepthAt(Lexeme(first.kind, first.text), depth)
  {
    SignificantUnfolds(tokens, at, depth);
    if !IsSignificant(tokens[0].kind) {
      FirstDepth(tokens[1..], at + |tokens[0].text|, depth);
    }
  }

  /** Between two tokens that are not parentheses the depth does not change. */
  lemma {:induction false} NextDepth(tokens: seq<Lexeme>, at: nat, depth: nat, k: nat)
    requires k + 1 < |Significant(tokens, at, depth)|
    ensures var sigs := Significant(tokens, at, depth);
            !IsParenthesis(sigs[k]) && !IsParenthesis(sigs[k + 1]) ==> sigs[k + 1].depth == sigs[k].depth
  {
    var sigs := Significant(tokens, at, depth);
    var a, token, b := SigRecords(tokens, at, depth, k);
    assert sigs[k + 1..][0] == sigs[k + 1];
    FirstDepth(b, at + |Concat(a)| + |token.text|, DepthAfter(token, DepthEnd(a, depth)));
  }

  lemma {:induction false} SameDepth(tokens: seq<Lexeme>, from: nat, to: nat)
    requires from <= to < |Significant(tokens, 0, 0)|
    requires forall k :: from <= k <= to ==> !IsParenthesis(Significant(tokens, 0, 0)[k])
    ensures Significant(tokens, 0, 0)[to].depth == Significant(tokens, 0, 0)[from].depth
  {
    if from < to {
      SameDepth(tokens, from, to - 1);
      NextDepth(tokens, 0, 0, to - 1);
    }
  }

  /** Lexing positions aside, two runs of significant tokens are the same. */
  predicate Alike(a: seq<Sig>, b: seq<Sig>) {
    && |a| == |b|
    && forall k :: 0 <= k < |a| ==> a[k].kind == b[k].kind && a[k].text == b[k].text && a[k].depth == b[k].depth
  }

  lemma {:induction false} ShiftedAlike(tokens: seq<Lexeme>, at1: nat, at2: nat, depth: nat)
    ensures Alike(Significant(tokens, at1, depth), Significant(tokens, at2, depth))
  {
    if tokens != [] {
      ShiftedAlike(tokens[1..], at1 + |tokens[0].text|, at2 + |tokens[0].text|, DepthAfter(tokens[0], depth));
    }
  }

  /** Tokens do not overlap. */
  lemma {:induction false} SigsAdvance(tokens: seq<Lexeme>, at: nat, depth: nat, j: nat, k: nat)
    requires j < k < |Significant(tokens, at, depth)|
    ensures Significant(tokens, at, depth)[j].end <= Significant(tokens, at, depth)[k].start
  {
    var sigs := Significant(tokens, at, depth);
    var a, token, b := SigRecords(tokens, at, depth, j);
    assert sigs[j + 1..][k - j - 1] == sigs[k];
    var _, _, _ := SigRecords(b, at + |Concat(a)| + |token.text|, DepthAfter(token, DepthEnd(a, depth)), k - j - 1);
  }

  predicate Advancing(body: seq<Sig>) {
    && (forall k :: 0 <= k < |body| ==> body[k].start <= body[k].end)
    && (forall j, k :: 0 <= j < k < |body| ==> body[j].end <= body[k].start)
  }

  lemma {:induction false} AllAdvance(tokens: seq<Lexeme>, n: nat)
    requires n <= |Significant(tokens, 0, 0)|
    ensures Advancing(Significant(tokens, 0, 0)[..n])
  {
    var body := Significant(tokens, 0, 0)[..n];
    forall j, k | 0 <= j < k < |body|
      ensures body[j].end <= body[k].start
    {
      SigsAdvance(tokens, 0, 0, j, k);
    }
    forall k | 0 <= k < |body|
      ensures body[k].start <= body[k].end
    {
      var _, _, _ := SigRecords(tokens, 0, 0, k);
    }
  }

  lemma {:induction false} ExtentIsForward(body: seq<Sig>)
    requires Advancing(body)
    ensures forall from :: 0 <= from <= |body| && WhereOf(body, from).Some? ==>
              WhereOf(body, from).value.afterKeyword <= WhereOf(body, from).value.end
  {
    forall from | 0 <= from <= |body| && WhereOf(body, from).Some?
      ensures WhereOf(body, from).value.afterKeyword <= WhereOf(body, from).value.end
    {
      var pos := FirstAt(body, from, IsClause);
      var next := FirstAt(body, pos + 1, IsClause);
      assert pos < next;
      assert pos < |body| - 1 ==> body[pos].end <= body[|body| - 1].start;
    }
  }

  /** The analysis never gives up for want of an insertion point. */
  lemma {:induction false} InsertionPointExists(sql: string)
    ensures Analyze(sql) != Skip(NoInsertionPoint)
  {
    match Lex(sql, false)
    case None =>
    case Some(tokens) =>
      var sigs := Significant(tokens, 0, 0);
      AllAdvance(tokens, |BodyOf(sigs)|);
      ExtentIsForward(BodyOf(sigs));
  }

  // ----- The body with its middle replaced -------------------------------------------------------------------

  /** Tokens that neither end the statement nor bring in another query or table. */
  predicate Calm(sig: Sig) {
    !IsSeparator(sig) && !IsFrom(sig) && !IsSetOperator(sig)
  }

  /** What goes between the client's tokens: calm, closed, with no subquery and no clause of its own. */
  predicate Middle(m: seq<Sig>, existing: bool) {
    && m != [] && !IsPunct(m[|m| - 1].kind, m[|m| - 1].text, '(')
    && !OpensSubquery(m)
    && (forall k :: 0 <= k < |m| ==> Calm(m[k]))
    && (forall k :: (if existing then 0 else 1) <= k < |m| ==> !IsClause(m[k]))
    && (!existing ==> IsClause(m[0]) && Upper(m[0].text) == "WHERE")
  }

  predicate Before(h: seq<Sig>, body: seq<Sig>, existing: bool) {
    && AcceptedBody(body) && h <= body
    && |h| == KeptBefore(body, ReferenceOf(body))
    && (existing <==> WhereOf(body, ReferenceOf(body).next).Some?)
  }

  lemma {:induction false} HeadEnds(h: seq<Sig>, body: seq<Sig>, existing: bool)
    requires Before(h, body, existing)
    ensures h != [] && ReferenceOf(body).next <= |h| && !IsPunct(h[|h| - 1].kind, h[|h| - 1].text, '(')
    ensures FirstAt(body, 0, IsFrom) + 1 < ReferenceOf(body).next
    ensures forall k :: ReferenceOf(body).next <= k < |h| - 1 ==> !IsClause(h[k])
    ensures existing ==> ReferenceOf(body).next < |h| && IsClause(h[|h| - 1]) && Upper(h[|h| - 1].text) == "WHERE"
    ensures !existing ==> ReferenceOf(body).next == |h|
  {
    assert forall k :: 0 <= k < |h| ==> h[k] == body[k];
    var _ := EndsAtName(body, ReferenceOf(body));
  }

  /** Every pair of neighbours of the joined runs is a pair of one of them or lies on a border. */
  lemma {:induction false} NoOpener(h: seq<Sig>, c: seq<Sig>, t: seq<Sig>, m: seq<Sig>, t2: seq<Sig>)
    requires !OpensSubquery(h + c + t) && Alike(t, t2) && !OpensSubquery(m)
    requires h != [] && !IsPunct(h[|h| - 1].kind, h[|h| - 1].text, '(')
    requires m != [] && !IsPunct(m[|m| - 1].kind, m[|m| - 1].text, '(')
    ensures !OpensSubquery(h + m + t2)
  {
    var was, now := h + c + t, h + m + t2;
    forall i | 0 <= i < |now| - 1
      ensures !IsOpener(now[i], now[i + 1])
    {
      if i < |h| - 1 {
        assert now[i] == was[i] && now[i + 1] == was[i + 1];
      } else if |h| <= i < |h| + |m| - 1 {
        assert now[i] == m[i - |h|] && now[i + 1] == m[i - |h| + 1];
      } else if i >= |h| + |m| {
        var k := i - |h| - |m|;
        assert now[i] == t2[k] && now[i + 1] == t2[k + 1];
        assert was[|h| + |c| + k] == t[k] && was[|h| + |c| + k + 1] == t[k + 1];
      } else {
        assert now[|h| - 1] == h[|h| - 1] && now[|h| + |m| - 1] == m[|m| - 1];
      }
    }
  }

  lemma {:induction false} Joined(h: seq<Sig>, m: seq<Sig>, t: seq<Sig>, test: Sig -> bool, n: nat)
    requires n <= |h|
    requires forall k :: n <= k < |h| ==> !test(h[k])
    requires forall k :: 0 <= k < |m| ==> !test(m[k])
    requires forall k :: 0 <= k < |t| ==> !test(t[k])
    ensures FirstAt(h + m + t, n, test) == |h + m + t|
  {
  }

  lemma {:induction false} NoSetOperator(h: seq<Sig>, c: seq<Sig>, t: seq<Sig>, m: seq<Sig>, t2: seq<Sig>)
    requires FirstAt(h + c + t, 0, IsSetOperator) == |h + c + t| && Alike(t, t2)
    requires forall k :: 0 <= k < |m| ==> Calm(m[k])
    ensures FirstAt(h + m + t2, 0, IsSetOperator) == |h + m + t2|
  {
    var was, now := h + c + t, h + m + t2;
    forall k | 0 <= k < |now|
      ensures !IsSetOperator(now[k])
    {
      if k < |h| {
        assert now[k] == was[k];
      } else if k < |h| + |m| {
        assert now[k] == m[k - |h|];
      } else {
        var j := k - |h| - |m|;
        assert now[k] == t2[j] && was[|h| + |c| + j] == t[j];
      }
    }
  }

  lemma {:induction false} OneFrom(h: seq<Sig>, c: seq<Sig>, t: seq<Sig>, m: seq<Sig>, t2: seq<Sig>, from: nat)
    requires from == FirstAt(h + c + t, 0, IsFrom) < |h| && Alike(t, t2)
    requires FirstAt(h + c + t, from + 1, IsFrom) == |h + c + t|
    requires forall k :: 0 <= k < |m| ==> Calm(m[k])
    ensures FirstAt(h + m + t2, 0, IsFrom) == from
    ensures FirstAt(h + m + t2, from + 1, IsFrom) == |h + m + t2|
  {
    var was, now := h + c + t, h + m + t2;
    assert forall k :: 0 <= k < |h| ==> h[k] == was[k] && h[k] == now[k];
    forall k | 0 <= k < |t2|
      ensures !IsFrom(t2[k])
    {
      assert t[k] == was[|h| + |c| + k];
    }
    FirstIs(now, 0, IsFrom, from);
    Joined(h, m, t2, IsFrom, from + 1);
  }

  predicate ClauseWordAt(body: seq<Sig>, i: nat) {
    i < |body| ==> WordIn(body[i].kind, body[i].text, CLAUSE_KEYWORDS)
  }

  /** A table reference that runs into a clause word or the end reads the same whatever comes later. */
  lemma {:induction false} ReferenceIsLocal(a: seq<Sig>, b: seq<Sig>, at: nat, n: nat)
    requires at < n <= |a| && n <= |b| && a[..n] == b[..n]
    requires ReferenceAt(a, at).Ok? && ReferenceAt(a, at).value.next <= n
    requires ClauseWordAt(a, ReferenceAt(a, at).value.next) && ClauseWordAt(b, ReferenceAt(a, at).value.next)
    ensures ReferenceAt(b, at) == ReferenceAt(a, at)
  {
    hide NormalizeIdent, Upper;
    assert forall k :: 0 <= k < n ==> a[k] == b[k];
    var named := TableName(a, at).value;
    assert TableName(b, at) == Ok(named);
  }

  lemma {:induction false} AcceptedAgain(h: seq<Sig>, c: seq<Sig>, t: seq<Sig>, m: seq<Sig>, t2: seq<Sig>,
                                         existing: bool)
    requires Before(h, h + c + t, existing) && Middle(m, existing) && Alike(t, t2)
    requires t != [] ==> t[0].depth == 0
    requires |h + c| == KeptThrough(h + c + t, ReferenceOf(h + c + t))
    requires Advancing(h + m + t2)
    ensures AcceptedBody(h + m + t2) && ReferenceOf(h + m + t2) == ReferenceOf(h + c + t)
    ensures WhereOf(h + m + t2, ReferenceOf(h + c + t).next).Some?
    ensures KeptBefore(h + m + t2, ReferenceOf(h + c + t)) == if existing then |h| else |h| + 1
    ensures KeptThrough(h + m + t2, ReferenceOf(h + c + t)) == |h + m|
  {
    var was, now := h + c + t, h + m + t2;
    var reference, from := ReferenceOf(was), FirstAt(was, 0, IsFrom);
    HeadEnds(h, was, existing);
    NoOpener(h, c, t, m, t2);
    NoSetOperator(h, c, t, m, t2);
    OneFrom(h, c, t, m, t2, from);
    ReferenceAgain(h, c, t, m, t2, existing);
    ExtentAgain(h, c, t, m, t2, existing, reference);
    EligibleAgain(now, reference);
  }

  lemma {:induction false} ReferenceAgain(h: seq<Sig>, c: seq<Sig>, t: seq<Sig>, m: seq<Sig>, t2: seq<Sig>,
                                          existing: bool)
    requires Before(h, h + c + t, existing) && Middle(m, existing)
    ensures var was, now := h + c + t, h + m + t2;
            var reference, from := ReferenceOf(was), FirstAt(was, 0, IsFrom);
            ReferenceAt(now, from + 1) == Ok(reference) && ClauseWordAt(now, reference.next)
  {
    var was, now := h + c + t, h + m + t2;
    var reference, from := ReferenceOf(was), FirstAt(was, 0, IsFrom);
    HeadEnds(h, was, existing);
    assert was[..|h|] == h == now[..|h|];
    assert now[|h|] == m[0];
    assert reference.next < |h| ==> was[reference.next] == now[reference.next];
    EligibleNeedsClause(was, reference);
    ReferenceIsLocal(was, now, from + 1, |h|);
  }

  lemma {:induction false} EligibleNeedsClause(body: seq<Sig>, reference: Reference)
    requires reference.next <= |body| && AnalyzeReference(body, reference).Eligible?
    ensures ClauseWordAt(body, reference.next)
  {
  }

  lemma {:induction false} EligibleAgain(body: seq<Sig>, reference: Reference)
    requires reference.next <= |body| && ClauseWordAt(body, reference.next) && Advancing(body)
    ensures AnalyzeReference(body, reference).Eligible?
  {
    ExtentIsForward(body);
    var i := reference.next;
    assert i < |body| ==> Upper(body[i].text) in CLAUSE_KEYWORDS && Upper(body[i].text) !in JOIN_KEYWORDS;
  }

  /** The new condition runs from the `WHERE` to the end of the middle. */
  lemma {:induction false} ExtentAgain(h: seq<Sig>, c: seq<Sig>, t: seq<Sig>, m: seq<Sig>, t2: seq<Sig>, existing: bool,
                                       reference: Reference)
    requires Before(h, h + c + t, existing) && Middle(m, existing) && Alike(t, t2)
    requires t != [] ==> t[0].depth == 0
    requires reference == ReferenceOf(h + c + t) && |h + c| == KeptThrough(h + c + t, reference)
    ensures reference.next <= |h|
    ensures WhereOf(h + m + t2, reference.next).Some?
    ensures KeptBefore(h + m + t2, reference) == if existing then |h| else |h| + 1
    ensures KeptThrough(h + m + t2, reference) == |h + m|
  {
    var was, now := h + c + t, h + m + t2;
    HeadEnds(h, was, existing);
    assert t != [] ==> was[|h| + |c|] == t[0];
    ClausesAround(h, m, t2, reference.next, existing);
  }

  lemma {:induction false} ClausesAround(h: seq<Sig>, m: seq<Sig>, t: seq<Sig>, from: nat, existing: bool)
    requires from <= |h| && Middle(m, existing) && (t != [] ==> IsClause(t[0]))
    requires forall k :: from <= k < |h| - 1 ==> !IsClause(h[k])
    requires if existing then from < |h| && IsClause(h[|h| - 1]) else from == |h|
    ensures var pos := if existing then |h| - 1 else |h|;
            && FirstAt(h + m + t, from, IsClause) == pos && FirstAt(h + m + t, pos + 1, IsClause) == |h| + |m|
            && (h + m + t)[pos] == if existing then h[pos] else m[0]
  {
    var now, pos := h + m + t, if existing then |h| - 1 else |h|;
    assert forall k :: 0 <= k < |h| ==> now[k] == h[k];
    assert forall k :: 0 <= k < |m| ==> now[|h| + k] == m[k];
    FirstIs(now, from, IsClause, pos);
    assert t != [] ==> now[|h| + |m|] == t[0];
    FirstIs(now, pos + 1, IsClause, |h| + |m|);
  }

  lemma {:induction false} FirstIs(sigs: seq<Sig>, from: nat, test: Sig -> bool, i: nat)
    requires from <= i <= |sigs|
    requires forall k :: from <= k < i ==> !test(sigs[k])
    requires i < |sigs| ==> test(sigs[i])
    ensures FirstAt(sigs, from, test) == i
  {
  }

  // ----- The injected tokens as significant ones -------------------------------------------------------------

  /** The significant tokens, without positions. */
  function Kept(tokens: seq<Lexeme>): seq<Lexeme> {
    if tokens == [] then []
    else (if IsSignificant(tokens[0].kind) then [tokens[0]] else []) + Kept(tokens[1..])
  }

  function LexemesOf(sigs: seq<Sig>): (r: seq<Lexeme>)
    ensures |r| == |sigs|
  {
    seq(|sigs|, i requires 0 <= i < |sigs| => Lexeme(sigs[i].kind, sigs[i].text))
  }

  lemma {:induction false} KeptAreSigs(tokens: seq<Lexeme>, at: nat, depth: nat)
    ensures LexemesOf(Significant(tokens, at, depth)) == Kept(tokens)
  {
    if tokens != [] {
      KeptAreSigs(tokens[1..], at + |tokens[0].text|, DepthAfter(tokens[0], depth));
      SignificantUnfolds(tokens, at, depth);
    }
  }

  /** No subquery opens among these tokens, nor would one open in a parenthesis put before them. */
  predicate NoQuery(kept: seq<Lexeme>) {
    && (kept != [] ==> !WordIn(kept[0].kind, kept[0].text, {"SELECT", "WITH"}))
    && forall i :: 0 <= i < |kept| - 1 ==> !OpensQuery(kept[i], kept[i + 1])
  }

  predicate OpensQuery(a: Lexeme, b: Lexeme) {
    IsPunct(a.kind, a.text, '(') && WordIn(b.kind, b.text, {"SELECT", "WITH"})
  }

  predicate Balanced(tokens: seq<Lexeme>) {
    Balance(tokens, 0) == Some(0)
  }

  function Grouped(tokens: seq<Lexeme>): seq<Lexeme> {
    [OPEN] + tokens + [CLOSE]
  }

  /** A parenthesized run that hides whatever it holds. */
  predicate Enclosed(g: seq<Sig>) {
    && |g| >= 2 && IsPunct(g[0].kind, g[0].text, '(') && IsPunct(g[|g| - 1].kind, g[|g| - 1].text, ')')
    && !OpensSubquery(g)
    && forall k :: 0 <= k < |g| ==> Calm(g[k]) && !IsClause(g[k])
  }

  lemma {:induction false} OneMoreSig(token: Lexeme, rest: seq<Lexeme>, at: nat, depth: nat)
    ensures Significant([token] + rest, at, depth)
         == SigOf(token, at, depth) + Significant(rest, at + |token.text|, DepthAfter(token, depth))
    ensures DepthEnd([token] + rest, depth) == DepthEnd(rest, DepthAfter(token, depth))
  {
    SignificantUnfolds([token] + rest, at, depth);
    assert ([token] + rest)[1..] == rest;
  }

  lemma {:induction false} NextSig(token: Lexeme, rest: seq<Lexeme>, at: nat, depth: nat)
    requires IsSignificant(token.kind) && !IsPunct(token.kind, token.text, '(') && !IsPunct(token.kind, token.text, ')')
    ensures Significant([token] + rest, at, depth)
         == [Sig(token.kind, token.text, at, at + |token.text|, depth)] + Significant(rest, at + |token.text|, depth)
  {
    OneMoreSig(token, rest, at, depth);
  }

  lemma {:induction false} NoSigs(at: nat, depth: nat)
    ensures Significant([], at, depth) == []
  {
  }

  lemma {:induction false} GroupSigs(tokens: seq<Lexeme>, at: nat)
    requires Balanced(tokens) && NoQuery(Kept(tokens))
    ensures Enclosed(Significant(Grouped(tokens), at, 0)) && DepthEnd(Grouped(tokens), 0) == 0
  {
    BalancedDepth(tokens, at + 1, 0, 1);
    KeptAreSigs(tokens, at + 1, 1);
    var open, inner, close := GroupParts(tokens, at);
    EncloseSigs(open, inner, close);
  }

  lemma {:induction false} GroupParts(tokens: seq<Lexeme>, at: nat) returns (open: Sig, inner: seq<Sig>, close: Sig)
    requires DepthEnd(tokens, 1) == 1
    ensures Significant(Grouped(tokens), at, 0) == [open] + inner + [close]
    ensures DepthEnd(Grouped(tokens), 0) == 0
    ensures inner == Significant(tokens, at + 1, 1)
    ensures open.kind == Punct && open.text == "(" && close.kind == Punct && close.text == ")"
  {
    inner := Significant(tokens, at + 1, 1);
    var end := at + 1 + |Concat(tokens)|;
    open, close := Sig(Punct, "(", at, at + 1, 0), Sig(Punct, ")", end, end + 1, 0);
    Regroup([OPEN], tokens, [CLOSE]);
    OneMoreSig(OPEN, tokens + [CLOSE], at, 0);
    InnerSigs(tokens, at + 1);
    Regroup([open], inner, [close]);
  }

  lemma {:induction false} InnerSigs(tokens: seq<Lexeme>, at: nat)
    requires DepthEnd(tokens, 1) == 1
    ensures var end := at + |Concat(tokens)|;
            Significant(tokens + [CLOSE], at, 1) == Significant(tokens, at, 1) + [Sig(Punct, ")", end, end + 1, 0)]
    ensures DepthEnd(tokens + [CLOSE], 1) == 0
  {
    SignificantSplits(tokens, [CLOSE], at, 1);
    DepthEndSplits(tokens, [CLOSE], 1);
    LoneClose(at + |Concat(tokens)|);
  }

  lemma {:induction false} LoneClose(at: nat)
    ensures Significant([CLOSE], at, 1) == [Sig(Punct, ")", at, at + 1, 0)] && DepthEnd([CLOSE], 1) == 0
  {
    OneMoreSig(CLOSE, [], at, 1);
    assert [CLOSE] + [] == [CLOSE];
  }

  lemma {:induction false} EncloseSigs(open: Sig, inner: seq<Sig>, close: Sig)
    requires open.kind == Punct && open.text == "(" && close.kind == Punct && close.text == ")"
    requires Deep(inner, 1) && NoQuery(LexemesOf(inner))
    ensures Enclosed([open] + inner + [close])
  {
    var g, kept := [open] + inner + [close], LexemesOf(inner);
    forall k | 0 <= k < |g| - 1
      ensures !IsOpener(g[k], g[k + 1])
    {
      if 0 < k < |inner| {
        var j := k - 1;
        assert g[k] == inner[j] && g[k + 1] == inner[j + 1];
        assert kept[j] == Lexeme(inner[j].kind, inner[j].text);
        assert kept[j + 1] == Lexeme(inner[j + 1].kind, inner[j + 1].text);
      } else if k == 0 && inner != [] {
        assert g[1] == inner[0] && kept[0] == Lexeme(inner[0].kind, inner[0].text);
      }
    }
    forall k | 0 <= k < |g|
      ensures Calm(g[k]) && !IsClause(g[k])
    {
      if 0 < k <= |inner| {
        assert g[k] == inner[k - 1];
      }
    }
  }

  /** The injected tokens from the first blank to the closing parenthesis. */
  function MiddleTokens(condition: seq<Lexeme>, p: seq<Lexeme>, existing: bool): seq<Lexeme> {
    if existing then [BLANK] + (Grouped(condition) + ([BLANK, AND, BLANK] + Grouped(p)))
    else [BLANK, WHERE, BLANK] + Grouped(p)
  }

  lemma {:induction false} InjectedIsMiddle(cut: Cut, existing: bool, p: seq<Lexeme>)
    requires existing || cut.condition == []
    ensures Injected(cut, existing, p)
         == cut.before + (MiddleTokens(cut.condition, p, existing) + (Gap(cut.after) + cut.after))
  {
    var rest := Gap(cut.after) + cut.after;
    GroupThen(p, rest);
    if existing {
      var joined := [BLANK, AND, BLANK] + Grouped(p);
      Regroup([BLANK, AND, BLANK], Grouped(p), rest);
      GroupThen(cut.condition, joined + rest);
      Regroup(Grouped(cut.condition), joined, rest);
      Regroup([BLANK], Grouped(cut.condition) + joined, rest);
      LinkThen(p + ([CLOSE] + rest));
      Regroup([BLANK], [OPEN], cut.condition + ([CLOSE] + (joined + rest)));
    } else {
      Regroup([BLANK, WHERE, BLANK], Grouped(p), rest);
      Regroup([BLANK, WHERE, BLANK], [OPEN], p + ([CLOSE] + rest));
      assert [BLANK, WHERE, BLANK] + [OPEN] == Lead(false);
      assert [] + (Link(false) + (p + ([CLOSE] + rest))) == p + ([CLOSE] + rest);
    }
  }

  lemma {:induction false} GroupThen(tokens: seq<Lexeme>, rest: seq<Lexeme>)
    ensures Grouped(tokens) + rest == [OPEN] + (tokens + ([CLOSE] + rest))
  {
    Regroup([OPEN] + tokens, [CLOSE], rest);
    Regroup([OPEN], tokens, [CLOSE] + rest);
  }

  lemma {:induction false} LinkThen(rest: seq<Lexeme>)
    ensures Link(true) + rest == [CLOSE] + ([BLANK, AND, BLANK] + ([OPEN] + rest))
  {
    Regroup([BLANK, AND, BLANK], [OPEN], rest);
    Regroup([CLOSE], [BLANK, AND, BLANK, OPEN], rest);
    assert [BLANK, AND, BLANK] + [OPEN] == [BLANK, AND, BLANK, OPEN];
  }

  lemma {:induction false} WordSig(word: Lexeme, rest: seq<Lexeme>, at: nat)
    requires word.kind == Word
    ensures var end := at + 1 + |word.text|;
            Significant([BLANK, word, BLANK] + rest, at, 0)
            == [Sig(Word, word.text, at + 1, end, 0)] + Significant(rest, end + 1, 0)
    ensures DepthEnd([BLANK, word, BLANK] + rest, 0) == DepthEnd(rest, 0)
  {
    hide Significant, DepthEnd;
    var end := at + 1 + |word.text|;
    BlankThen(rest, end);
    OneMoreSig(word, [BLANK] + rest, at + 1, 0);
    BlankThen([word] + ([BLANK] + rest), at);
    assert [BLANK] + ([word] + ([BLANK] + rest)) == [BLANK, word, BLANK] + rest;
  }

  lemma {:induction false} BlankThen(rest: seq<Lexeme>, at: nat)
    ensures Significant([BLANK] + rest, at, 0) == Significant(rest, at + 1, 0)
    ensures DepthEnd([BLANK] + rest, 0) == DepthEnd(rest, 0)
  {
    OneMoreSig(BLANK, rest, at, 0);
    assert [] + Significant(rest, at + 1, 0) == Significant(rest, at + 1, 0);
  }

  lemma {:induction false} JoinGroups(g1: seq<Sig>, word: Sig, g2: seq<Sig>)
    requires Enclosed(g1) && Enclosed(g2) && word.kind == Word && word.depth == 0
    ensures word.text == "AND" ==> Middle(g1 + ([word] + g2), true)
    ensures word.text == "WHERE" ==> Middle([word] + g2, false)
  {
    var m, n := g1 + ([word] + g2), [word] + g2;
    forall k | 0 <= k < |n| - 1
      ensures !IsOpener(n[k], n[k + 1])
    {
      if k > 0 {
        assert n[k] == g2[k - 1] && n[k + 1] == g2[k - 1 + 1];
      }
    }
    forall k | 0 <= k < |m| - 1
      ensures !IsOpener(m[k], m[k + 1])
    {
      if k < |g1| - 1 {
        assert m[k] == g1[k] && m[k + 1] == g1[k + 1];
      } else if k >= |g1| {
        assert m[k] == n[k - |g1|] && m[k + 1] == n[k - |g1| + 1];
      }
    }
    assert forall k :: 0 < k < |n| ==> n[k] == g2[k - 1];
    assert forall k :: 0 <= k < |m| ==> m[k] == if k < |g1| then g1[k] else n[k - |g1|];
    assert Upper("WHERE") == "WHERE" && Upper("AND") == "AND";
  }

  /** What the middle of the new statement looks like when there was a condition. */
  lemma {:induction false} LinkedSigs(group: seq<Lexeme>, p: seq<Lexeme>, at: nat)
    requires Enclosed(Significant(group, at + 1, 0)) && DepthEnd(group, 0) == 0
    requires Balanced(p) && NoQuery(Kept(p))
    ensures var middle := [BLANK] + (group + ([BLANK, AND, BLANK] + Grouped(p)));
            Middle(Significant(middle, at, 0), true) && DepthEnd(middle, 0) == 0
  {
    hide Significant, Concat, Middle, Enclosed, NoQuery, Balanced, DepthEnd;
    var word, g2 := WordThenGroup(AND, p, at + 1 + |Concat(group)|);
    GroupsAreMiddle(group, [BLANK, AND, BLANK] + Grouped(p), at, word, g2);
  }

  lemma {:induction false} GroupsAreMiddle(group: seq<Lexeme>, joined: seq<Lexeme>, at: nat, word: Sig, g2: seq<Sig>)
    requires Enclosed(Significant(group, at + 1, 0)) && DepthEnd(group, 0) == DepthEnd(joined, 0) == 0
    requires Significant(joined, at + 1 + |Concat(group)|, 0) == [word] + g2
    requires Enclosed(g2) && word.kind == Word && word.text == "AND" && word.depth == 0
    ensures Middle(Significant([BLANK] + (group + joined), at, 0), true)
    ensures DepthEnd([BLANK] + (group + joined), 0) == 0
  {
    BesideGroup(group, joined, at);
    JoinGroups(Significant(group, at + 1, 0), word, g2);
  }

  lemma {:induction false} BesideGroup(group: seq<Lexeme>, joined: seq<Lexeme>, at: nat)
    requires DepthEnd(group, 0) == 0
    ensures Significant([BLANK] + (group + joined), at, 0)
         == Significant(group, at + 1, 0) + Significant(joined, at + 1 + |Concat(group)|, 0)
    ensures DepthEnd([BLANK] + (group + joined), 0) == DepthEnd(joined, 0)
  {
    BlankThen(group + joined, at);
    SignificantSplits(group, joined, at + 1, 0);
    DepthEndSplits(group, joined, 0);
  }

  lemma {:induction false} MiddleSigs(condition: seq<Lexeme>, p: seq<Lexeme>, existing: bool, at: nat)
    requires existing ==> Balanced(condition) && NoQuery(Kept(condition))
    requires Balanced(p) && NoQuery(Kept(p))
    ensures Middle(Significant(MiddleTokens(condition, p, existing), at, 0), existing)
    ensures DepthEnd(MiddleTokens(condition, p, existing), 0) == 0
  {
    if existing {
      GroupSigs(condition, at + 1);
      LinkedSigs(Grouped(condition), p, at);
    } else {
      var word, g2 := WordThenGroup(WHERE, p, at);
      JoinGroups(g2, word, g2);
    }
  }

  lemma {:induction false} WordThenGroup(word: Lexeme, p: seq<Lexeme>, at: nat) returns (sig: Sig, g: seq<Sig>)
    requires word.kind == Word && Balanced(p) && NoQuery(Kept(p))
    ensures Significant([BLANK, word, BLANK] + Grouped(p), at, 0) == [sig] + g
    ensures DepthEnd([BLANK, word, BLANK] + Grouped(p), 0) == 0
    ensures sig.kind == Word && sig.text == word.text && sig.depth == 0 && Enclosed(g)
  {
    WordSig(word, Grouped(p), at);
    var end := at + 1 + |word.text|;
    GroupSigs(p, end + 1);
    sig, g := Sig(Word, word.text, at + 1, end, 0), Significant(Grouped(p), end + 1, 0);
  }

  // ----- The whole statement -----------------------------------------------------------------------------------

  lemma {:induction false} LastDepth(tokens: seq<Lexeme>)
    requires EndsInName(tokens)
    ensures var sigs := Significant(tokens, 0, 0);
            |sigs| > 0 && DepthEnd(tokens, 0) == sigs[|sigs| - 1].depth
  {
    var a, last := tokens[..|tokens| - 1], tokens[|tokens| - 1];
    assert tokens == a + [last];
    SignificantSplits(a, [last], 0, 0);
    DepthEndSplits(a, [last], 0);
    NameDepth(last, |Concat(a)|, DepthEnd(a, 0));
  }

  lemma {:induction false} NameDepth(name: Lexeme, at: nat, depth: nat)
    requires name.kind == Word || name.kind == QuotedIdent
    ensures Significant([name], at, depth) == [Sig(name.kind, name.text, at, at + |name.text|, depth)]
    ensures DepthEnd([name], depth) == depth
  {
    OneMoreSig(name, [], at, depth);
    assert [name] + [] == [name];
  }

  /** The tokens before the splice end outside every parenthesis. */
  lemma {:induction false} TopLevel(cut: Cut, existing: bool)
    requires EndsInName(cut.before)
    requires Before(Significant(cut.before, 0, 0), BodyOf(Significant(cut.All(), 0, 0)), existing)
    ensures DepthEnd(cut.before, 0) == 0
  {
    LastDepth(cut.before);
    HeadDepth(cut.All(), Significant(cut.before, 0, 0), BodyOf(Significant(cut.All(), 0, 0)), existing);
  }

  lemma {:induction false} HeadDepth(tokens: seq<Lexeme>, h: seq<Sig>, body: seq<Sig>, existing: bool)
    requires Before(h, body, existing) && body <= Significant(tokens, 0, 0)
    ensures |h| > 0 && h[|h| - 1].depth == 0
  {
    HeadEnds(h, body, existing);
    assert h[|h| - 1] == body[|h| - 1];
    if !existing {
      TableAtTop(tokens, body, FirstAt(body, 0, IsFrom), |h| - 1);
    }
  }

  /** The tokens of a table reference stand as deep as the `FROM` in front of them. */
  lemma {:induction false} TableAtTop(tokens: seq<Lexeme>, body: seq<Sig>, from: nat, last: nat)
    requires body <= Significant(tokens, 0, 0) && from <= last < |body|
    requires NoParentheses(body, from + 1, last + 1) && IsFrom(body[from])
    ensures Significant(tokens, 0, 0)[last].depth == 0
  {
    assert forall k :: from <= k <= last ==> body[k] == Significant(tokens, 0, 0)[k];
    SameDepth(tokens, from, last);
  }

  /** How a statement's significant tokens fall apart at its cut. */
  lemma {:induction false} SigsAtCut(before: seq<Lexeme>, middle: seq<Lexeme>, after: seq<Lexeme>)
    requires DepthEnd(before, 0) == 0 && DepthEnd(middle, 0) == 0
    ensures var at := |Concat(before)|;
            Significant(before + middle + after, 0, 0)
            == Significant(before, 0, 0) + Significant(middle, at, 0)
               + Significant(after, at + |Concat(middle)|, 0)
  {
    SignificantSplits(before, middle, 0, 0);
    DepthEndSplits(before, middle, 0);
    ConcatSplits(before, middle);
    SignificantSplits(before + middle, after, 0, 0);
  }

  lemma {:induction false} GapIsBlank(after: seq<Lexeme>, at: nat)
    ensures Significant(Gap(after) + after, at, 0) == Significant(after, at + |Gap(after)|, 0)
  {
    if Gap(after) == [] {
      assert [] + after == after;
    } else {
      BlankThen(after, at);
    }
  }

  /** What the re-analysis needs of the existing condition and of the predicate. */
  predicate Separable(cut: Cut, p: seq<Lexeme>) {
    Balanced(cut.condition) && NoQuery(Kept(cut.condition)) && Balanced(p) && NoQuery(Kept(p))
  }

  /** The old and the new body, split at the splice. */
  datatype Bodies = Bodies(h: seq<Sig>, c: seq<Sig>, t: seq<Sig>, m: seq<Sig>, t2: seq<Sig>) {
    function Was(): seq<Sig> {
      h + c + t
    }

    function Now(): seq<Sig> {
      h + m + t2
    }
  }

  /** A separator is last, and stays last, when only the middle changes. */
  lemma {:induction false} SeparatorStays(h: seq<Sig>, c: seq<Sig>, a: seq<Sig>, m: seq<Sig>, a2: seq<Sig>, n: nat)
    requires n <= |a| && Alike(a, a2)
    requires FirstAt(h + c + a, 0, IsSeparator) == |h| + |c| + n
    requires forall k :: 0 <= k < |m| ==> Calm(m[k])
    ensures FirstAt(h + m + a2, 0, IsSeparator) == |h| + |m| + n
  {
    SeparatorFree(h, c, a, n);
    AlikeSeparators(a, a2, n);
    SeparatorAt(h, m, a2, n);
  }

  lemma {:induction false} BodyIsShortened(h: seq<Sig>, c: seq<Sig>, a: seq<Sig>, n: nat)
    requires n <= |a| && FirstAt(h + c + a, 0, IsSeparator) == |h| + |c| + n
    ensures BodyOf(h + c + a) == h + c + a[..n]
  {
    Shortened(h, c, a, n);
  }

  lemma {:induction false} AlikeSeparators(a: seq<Sig>, a2: seq<Sig>, n: nat)
    requires Alike(a, a2) && n <= |a|
    requires (forall k :: 0 <= k < n ==> !IsSeparator(a[k])) && (n < |a| ==> IsSeparator(a[n]))
    ensures (forall k :: 0 <= k < n ==> !IsSeparator(a2[k])) && (n < |a2| ==> IsSeparator(a2[n]))
  {
    forall k | 0 <= k < n
      ensures !IsSeparator(a2[k])
    {
      assert !IsSeparator(a[k]);
    }
  }

  lemma {:induction false} SeparatorFree(h: seq<Sig>, c: seq<Sig>, a: seq<Sig>, n: nat)
    requires n <= |a| && FirstAt(h + c + a, 0, IsSeparator) == |h| + |c| + n
    ensures forall k :: 0 <= k < |h| ==> !IsSeparator(h[k])
    ensures forall k :: 0 <= k < n ==> !IsSeparator(a[k])
    ensures n < |a| ==> IsSeparator(a[n])
  {
    var was := h + c + a;
    forall k | 0 <= k < |h|
      ensures !IsSeparator(h[k])
    {
      assert h[k] == was[k];
    }
    forall k | 0 <= k < n
      ensures !IsSeparator(a[k])
    {
      assert a[k] == was[|h| + |c| + k];
    }
    if n < |a| {
      assert a[n] == was[|h| + |c| + n];
    }
  }

  lemma {:induction false} SeparatorAt(h: seq<Sig>, m: seq<Sig>, a: seq<Sig>, n: nat)
    requires n <= |a| && (n < |a| ==> IsSeparator(a[n]))
    requires forall k :: 0 <= k < |h| ==> !IsSeparator(h[k])
    requires forall k :: 0 <= k < |m| ==> Calm(m[k])
    requires forall k :: 0 <= k < n ==> !IsSeparator(a[k])
    ensures FirstAt(h + m + a, 0, IsSeparator) == |h| + |m| + n
  {
    var now := h + m + a;
    assert forall k :: 0 <= k < n ==> now[|h| + |m| + k] == a[k];
    FirstIs(now, 0, IsSeparator, |h| + |m| + n);
  }

  lemma {:induction false} Shortened(h: seq<Sig>, c: seq<Sig>, a: seq<Sig>, n: nat)
    requires n <= |a|
    ensures (h + c + a)[..|h| + |c| + n] == h + c + a[..n]
  {
  }

  lemma {:induction false} OldSigs(cut: Cut)
    requires Balanced(cut.condition) && DepthEnd(cut.before, 0) == 0
    ensures var h, at := Significant(cut.before, 0, 0), |Concat(cut.before)|;
            var c := Significant(cut.condition, at, 0);
            && Significant(cut.All(), 0, 0) == h + c + Significant(cut.after, at + |Concat(cut.condition)|, 0)
            && Significant(cut.before + cut.condition, 0, 0) == h + c
  {
    BalancedDepth(cut.condition, 0, 0, 0);
    SigsAtCut(cut.before, cut.condition, cut.after);
    SignificantSplits(cut.before, cut.condition, 0, 0);
  }

  /** The old and the new statement, split at the splice. */
  lemma {:induction false} SplitSigs(cut: Cut, middle: seq<Lexeme>, now: seq<Sig>, existing: bool) returns (b: Bodies)
    requires Balanced(cut.condition) && DepthEnd(cut.before, 0) == 0
    requires Middle(Significant(middle, |Concat(cut.before)|, 0), existing)
    requires var at := |Concat(cut.before)|;
             now == Significant(cut.before, 0, 0) + Significant(middle, at, 0)
                    + Significant(cut.after, at + |Concat(middle)| + |Gap(cut.after)|, 0)
    ensures b.Was() == Significant(cut.All(), 0, 0) && b.Now() == now
    ensures b.h == Significant(cut.before, 0, 0) && b.h + b.c == Significant(cut.before + cut.condition, 0, 0)
    ensures Middle(b.m, existing) && Alike(b.t, b.t2)
    ensures b.t == Significant(cut.after, |Concat(cut.before)| + |Concat(cut.condition)|, 0)
    ensures b.m == Significant(middle, |Concat(cut.before)|, 0)
  {
    var at := |Concat(cut.before)|;
    var end1, end2 := at + |Concat(cut.condition)|, at + |Concat(middle)| + |Gap(cut.after)|;
    OldSigs(cut);
    ShiftedAlike(cut.after, end1, end2, 0);
    b := Bodies(Significant(cut.before, 0, 0), Significant(cut.condition, at, 0), Significant(cut.after, end1, 0),
                Significant(middle, at, 0), Significant(cut.after, end2, 0));
  }

  lemma {:induction false} InjectedSigs(cut: Cut, existing: bool, p: seq<Lexeme>)
    requires (existing || cut.condition == []) && DepthEnd(cut.before, 0) == 0
    requires DepthEnd(MiddleTokens(cut.condition, p, existing), 0) == 0
    ensures var middle, at := MiddleTokens(cut.condition, p, existing), |Concat(cut.before)|;
            Significant(Injected(cut, existing, p), 0, 0)
            == Significant(cut.before, 0, 0) + Significant(middle, at, 0)
               + Significant(cut.after, at + |Concat(middle)| + |Gap(cut.after)|, 0)
  {
    var middle, at := MiddleTokens(cut.condition, p, existing), |Concat(cut.before)|;
    SigsAtCut(cut.before, middle, Gap(cut.after) + cut.after);
    InjectedIsMiddle(cut, existing, p);
    Regroup(cut.before, middle, Gap(cut.after) + cut.after);
    GapIsBlank(cut.after, at + |Concat(middle)|);
  }

  lemma {:induction false} SplitBodies(cut: Cut, existing: bool, p: seq<Lexeme>) returns (b: Bodies)
    requires (existing || cut.condition == []) && Separable(cut, p) && DepthEnd(cut.before, 0) == 0
    requires FirstAt(Significant(cut.All(), 0, 0), 0, IsSeparator) + 1 >= |Significant(cut.All(), 0, 0)|
    requires |Significant(cut.before + cut.condition, 0, 0)| <= |BodyOf(Significant(cut.All(), 0, 0))|
    ensures b.Was() == BodyOf(Significant(cut.All(), 0, 0))
    ensures b.Now() == BodyOf(Significant(Injected(cut, existing, p), 0, 0))
    ensures |b.Now()| + 1 >= |Significant(Injected(cut, existing, p), 0, 0)|
    ensures b.Now() <= Significant(Injected(cut, existing, p), 0, 0)
    ensures b.h == Significant(cut.before, 0, 0) && b.h + b.c == Significant(cut.before + cut.condition, 0, 0)
    ensures Middle(b.m, existing) && Alike(b.t, b.t2) && (b.t != [] ==> b.t[0].depth == 0)
    ensures b.m == Significant(MiddleTokens(cut.condition, p, existing), |Concat(cut.before)|, 0)
  {
    hide Significant, MiddleTokens, Injected, Middle, BodyOf, Concat, FirstAt;
    MiddleSigs(cut.condition, p, existing, |Concat(cut.before)|);
    InjectedSigs(cut, existing, p);
    b := SplitAround(cut, MiddleTokens(cut.condition, p, existing), Significant(Injected(cut, existing, p), 0, 0),
                     existing);
  }

  lemma {:induction false} SplitAround(cut: Cut, middle: seq<Lexeme>, now: seq<Sig>, existing: bool) returns (b: Bodies)
    requires Balanced(cut.condition) && DepthEnd(cut.before, 0) == 0
    requires Middle(Significant(middle, |Concat(cut.before)|, 0), existing)
    requires var at := |Concat(cut.before)|;
             now == Significant(cut.before, 0, 0) + Significant(middle, at, 0)
                    + Significant(cut.after, at + |Concat(middle)| + |Gap(cut.after)|, 0)
    requires FirstAt(Significant(cut.All(), 0, 0), 0, IsSeparator) + 1 >= |Significant(cut.All(), 0, 0)|
    requires |Significant(cut.before + cut.condition, 0, 0)| <= |BodyOf(Significant(cut.All(), 0, 0))|
    ensures b.Was() == BodyOf(Significant(cut.All(), 0, 0))
    ensures b.Now() == BodyOf(now) && |b.Now()| + 1 >= |now| && b.Now() <= now
    ensures b.h == Significant(cut.before, 0, 0) && b.h + b.c == Significant(cut.before + cut.condition, 0, 0)
    ensures Middle(b.m, existing) && Alike(b.t, b.t2) && (b.t != [] ==> b.t[0].depth == 0)
    ensures b.m == Significant(middle, |Concat(cut.before)|, 0)
  {
    var w := SplitSigs(cut, middle, now, existing);
    FirstAtTop(cut.after, |Concat(cut.before)| + |Concat(cut.condition)|);
    b := CutTails(w);
    assert b.t != [] ==> b.t[0] == w.t[0];
  }

  lemma {:induction false} FirstAtTop(tokens: seq<Lexeme>, at: nat)
    ensures Significant(tokens, at, 0) != [] ==> Significant(tokens, at, 0)[0].depth == 0
  {
    if Significant(tokens, at, 0) != [] {
      FirstDepth(tokens, at, 0);
    }
  }

  lemma {:induction false} CutTails(w: Bodies) returns (b: Bodies)
    requires Alike(w.t, w.t2) && FirstAt(w.Was(), 0, IsSeparator) + 1 >= |w.Was()|
    requires |w.h + w.c| <= |BodyOf(w.Was())| && forall k :: 0 <= k < |w.m| ==> Calm(w.m[k])
    ensures b.h == w.h && b.c == w.c && b.m == w.m && b.t <= w.t && Alike(b.t, b.t2)
    ensures b.Was() == BodyOf(w.Was()) && b.Now() == BodyOf(w.Now())
    ensures |b.Now()| + 1 >= |w.Now()| && b.Now() <= w.Now()
  {
    var n := FirstAt(w.Was(), 0, IsSeparator) - |w.h| - |w.c|;
    SeparatorStays(w.h, w.c, w.t, w.m, w.t2, n);
    BodyIsShortened(w.h, w.c, w.t, n);
    BodyIsShortened(w.h, w.m, w.t2, n);
    b := Bodies(w.h, w.c, w.t[..n], w.m, w.t2[..n]);
  }

  /** The rewritten statement is accepted, with the same reference, and its condition is what goes in between. */
  ghost predicate StaysAccepted(cut: Cut, existing: bool, p: seq<Lexeme>)
    requires Placed(cut, existing)
  {
    var sigs, again := Significant(cut.All(), 0, 0), Significant(Injected(cut, existing, p), 0, 0);
    var reference, body := ReferenceOf(BodyOf(sigs)), BodyOf(again);
    && Accepted(again) && ReferenceOf(body) == reference
    && WhereOf(body, reference.next).Some?
    && KeptBefore(body, reference) == |Kept(cut.before)| + (if existing then 0 else 1)
    && KeptThrough(body, reference) == |Kept(cut.before)| + |Kept(MiddleTokens(cut.condition, p, existing))|
  }

  lemma {:induction false} AcceptsAgain(cut: Cut, existing: bool, p: seq<Lexeme>)
    requires Placed(cut, existing) && Separable(cut, p)
    ensures StaysAccepted(cut, existing, p)
  {
    PrefixOfBody(cut);
    TopLevel(cut, existing);
    var b := SplitBodies(cut, existing, p);
    BodiesStayAccepted(cut, existing, p, b);
  }

  lemma {:induction false} BodiesStayAccepted(cut: Cut, existing: bool, p: seq<Lexeme>, b: Bodies)
    requires Placed(cut, existing)
    requires var was, now := Significant(cut.All(), 0, 0), Significant(Injected(cut, existing, p), 0, 0);
             b.Was() == BodyOf(was) && b.Now() == BodyOf(now) && |b.Now()| + 1 >= |now| && b.Now() <= now
    requires b.h == Significant(cut.before, 0, 0) && b.h + b.c == Significant(cut.before + cut.condition, 0, 0)
    requires Middle(b.m, existing) && Alike(b.t, b.t2) && (b.t != [] ==> b.t[0].depth == 0)
    requires b.m == Significant(MiddleTokens(cut.condition, p, existing), |Concat(cut.before)|, 0)
    ensures StaysAccepted(cut, existing, p)
  {
    hide Significant, Middle, Concat, Kept, MiddleTokens, Injected, Before;
    var injected := Injected(cut, existing, p);
    AllAdvance(injected, |b.Now()|);
    SigsAcceptedAgain(Significant(cut.All(), 0, 0), Significant(injected, 0, 0), b, existing);
    KeptAreSigs(cut.before, 0, 0);
    KeptAreSigs(MiddleTokens(cut.condition, p, existing), |Concat(cut.before)|, 0);
  }

  lemma {:induction false} SigsAcceptedAgain(sigs: seq<Sig>, again: seq<Sig>, b: Bodies, existing: bool)
    requires Accepted(sigs) && b.Was() == BodyOf(sigs)
    requires b.Now() == BodyOf(again) && |b.Now()| + 1 >= |again|
    requires Before(b.h, b.Was(), existing) && Middle(b.m, existing) && Alike(b.t, b.t2) && Advancing(b.Now())
    requires (b.t != [] ==> b.t[0].depth == 0) && |b.h + b.c| == KeptThrough(b.Was(), ReferenceOf(b.Was()))
    ensures Accepted(again)
    ensures var reference, body := ReferenceOf(BodyOf(sigs)), BodyOf(again);
            && ReferenceOf(body) == reference && WhereOf(body, reference.next).Some?
            && KeptBefore(body, reference) == |b.h| + (if existing then 0 else 1)
            && KeptThrough(body, reference) == |b.h| + |b.m|
  {
    AcceptedAgain(b.h, b.c, b.t, b.m, b.t2, existing);
    HeadEnds(b.h, b.Was(), existing);
    assert again[0] == b.h[0] == sigs[0];
  }

  lemma {:induction false} PrefixOfBody(cut: Cut)
    requires |Significant(cut.before, 0, 0)| <= |BodyOf(Significant(cut.All(), 0, 0))|
    ensures Significant(cut.before, 0, 0) <= BodyOf(Significant(cut.All(), 0, 0))
  {
    assert cut.All() == cut.before + (cut.condition + cut.after);
    SignificantSplits(cut.before, cut.condition + cut.after, 0, 0);
  }

  // ----- The new condition -------------------------------------------------------------------------------------

  lemma {:induction false} KeptSplits(a: seq<Lexeme>, b: seq<Lexeme>)
    ensures Kept(a + b) == Kept(a) + Kept(b)
  {
    if a == [] {
      assert a + b == b;
    } else {
      KeptSplits(a[1..], b);
      assert (a + b)[0] == a[0] && (a + b)[1..] == a[1..] + b;
      var first := if IsSignificant(a[0].kind) then [a[0]] else [];
      assert first + (Kept(a[1..]) + Kept(b)) == first + Kept(a[1..]) + Kept(b);
    }
  }

  lemma {:induction false} KeptCut(before: seq<Lexeme>, middle: seq<Lexeme>, after: seq<Lexeme>)
    ensures Kept(before + middle + after) == Kept(before) + Kept(middle) + Kept(after)
    ensures Kept(before + middle) == Kept(before) + Kept(middle)
  {
    KeptSplits(before, middle);
    KeptSplits(before + middle, after);
  }

  /** The condition of the rewritten statement: the client's own, grouped, and the predicate, grouped. */
  function NewCondition(condition: seq<Lexeme>, existing: bool, p: seq<Lexeme>): seq<Lexeme> {
    if existing then Grouped(Kept(condition)) + ([AND] + Grouped(Kept(p))) else Grouped(Kept(p))
  }

  lemma {:induction false} KeptGroup(tokens: seq<Lexeme>)
    ensures Kept(Grouped(tokens)) == Grouped(Kept(tokens))
  {
    KeptCut([OPEN], tokens, [CLOSE]);
    assert [OPEN][1..] == [] && [CLOSE][1..] == [];
  }

  lemma {:induction false} KeptWord(word: Lexeme)
    requires word.kind == Word
    ensures Kept([BLANK, word, BLANK]) == [word] && Kept([BLANK]) == []
  {
    assert [BLANK][1..] == [];
    assert Kept([BLANK]) == [];
    KeptSplits([word], [BLANK]);
    assert [word][1..] == [] && Kept([word]) == [word];
    KeptSplits([BLANK], [word] + [BLANK]);
    assert [BLANK] + ([word] + [BLANK]) == [BLANK, word, BLANK];
  }

  lemma {:induction false} KeptMiddle(condition: seq<Lexeme>, p: seq<Lexeme>, existing: bool)
    ensures Kept(MiddleTokens(condition, p, existing))
         == (if existing then [] else [WHERE]) + NewCondition(condition, existing, p)
  {
    KeptGroup(p);
    if existing {
      KeptWord(AND);
      KeptGroup(condition);
      KeptSplits([BLANK, AND, BLANK], Grouped(p));
      KeptSplits(Grouped(condition), [BLANK, AND, BLANK] + Grouped(p));
      KeptSplits([BLANK], Grouped(condition) + ([BLANK, AND, BLANK] + Grouped(p)));
    } else {
      KeptWord(WHERE);
      KeptSplits([BLANK, WHERE, BLANK], Grouped(p));
    }
  }

  /** The condition's tokens of the second cut, found by counting in the list of all tokens. */
  lemma {:induction false} ConditionAgain(cut: Cut, existing: bool, p: seq<Lexeme>, cutAgain: Cut)
    requires cutAgain.All() == Injected(cut, existing, p) && (existing || cut.condition == [])
    requires |Kept(cutAgain.before)| == |Kept(cut.before)| + (if existing then 0 else 1)
    requires |Kept(cutAgain.before + cutAgain.condition)|
          == |Kept(cut.before)| + |Kept(MiddleTokens(cut.condition, p, existing))|
    ensures Kept(cutAgain.condition) == NewCondition(cut.condition, existing, p)
  {
    var middle := MiddleTokens(cut.condition, p, existing);
    InjectedIsMiddle(cut, existing, p);
    Regroup(cut.before, middle, Gap(cut.after) + cut.after);
    KeptCut(cut.before, middle, Gap(cut.after) + cut.after);
    KeptCut(cutAgain.before, cutAgain.condition, cutAgain.after);
    KeptMiddle(cut.condition, p, existing);
    SameSlice(Kept(cutAgain.before), Kept(cutAgain.condition), Kept(cutAgain.after), Kept(cut.before),
              if existing then [] else [WHERE], NewCondition(cut.condition, existing, p),
              Kept(Gap(cut.after) + cut.after));
  }

  lemma {:induction false} SameSlice<T>(a: seq<T>, b: seq<T>, c: seq<T>, x: seq<T>, y: seq<T>, z: seq<T>, w: seq<T>)
    requires a + b + c == x + (y + z) + w
    requires |a| == |x| + |y| && |a| + |b| == |x| + |y| + |z|
    ensures b == z
  {
    assert b == (a + b + c)[|a|..|a| + |b|];
    assert z == (x + (y + z) + w)[|x| + |y|..|x| + |y| + |z|];
  }

  lemma {:induction false} AnalyzesAgain(sql: string, analysis: Analysis, cut: Cut, p: seq<Lexeme>, spliced: string)
    requires Analyze(sql) == Eligible(analysis) && Lex(sql, false) == Some(cut.All())
    requires Placed(cut, analysis.whereClause.Some?) && StaysAccepted(cut, analysis.whereClause.Some?, p)
    requires Lex(spliced, false) == Some(Injected(cut, analysis.whereClause.Some?, p))
    ensures Analyze(spliced).Eligible?
    ensures var again := Analyze(spliced).analysis;
            again.table == analysis.table && again.insertAt == analysis.insertAt && again.whereClause.Some?
  {
    AcceptedAnalysis(Significant(cut.All(), 0, 0));
    AcceptedAnalysis(Significant(Injected(cut, analysis.whereClause.Some?, p), 0, 0));
  }

  lemma {:induction false} AcceptedAnalysis(sigs: seq<Sig>)
    requires Accepted(sigs)
    ensures AnalyzeTokens(sigs).Eligible?
    ensures var analysis, reference := AnalyzeTokens(sigs).analysis, ReferenceOf(BodyOf(sigs));
            && analysis.table == reference.table && analysis.insertAt == reference.end
            && analysis.whereClause == WhereOf(BodyOf(sigs), reference.next)
  {
    EligibleIsAccepted(sigs);
  }

  /** An accepted rewritten statement is analysed as the client's was, and its condition is the new one. */
  lemma {:induction false} ReadAgain(sql: string, analysis: Analysis, cut: Cut, p: seq<Lexeme>, spliced: string)
    returns (again: Analysis, cutAgain: Cut)
    requires Analyze(sql) == Eligible(analysis) && Lex(sql, false) == Some(cut.All())
    requires Placed(cut, analysis.whereClause.Some?) && StaysAccepted(cut, analysis.whereClause.Some?, p)
    requires Lex(spliced, false) == Some(Injected(cut, analysis.whereClause.Some?, p))
    ensures Analyze(spliced) == Eligible(again) && IsCut(spliced, again, cutAgain)
    ensures again.table == analysis.table && again.insertAt == analysis.insertAt && again.whereClause.Some?
    ensures Kept(cutAgain.condition) == NewCondition(cut.condition, analysis.whereClause.Some?, p)
  {
    AnalyzesAgain(sql, analysis, cut, p, spliced);
    again := Analyze(spliced).analysis;
    cutAgain := EligibleCut(spliced);
    KeptAreSigs(cutAgain.before, 0, 0);
    KeptAreSigs(cutAgain.before + cutAgain.condition, 0, 0);
    ConditionAgain(cut, analysis.whereClause.Some?, p, cutAgain);
  }

  /**
   The rewritten statement is eligible again, on the same table and with the same insertion point, and its
   condition is the old one and the predicate, each in its own parentheses.
   */
  lemma {:induction false} SplicedIsEligibleAgain(sql: string, analysis: Analysis, text: string)
    returns (cut: Cut, again: Analysis, cutAgain: Cut)
    requires Analyze(sql) == Eligible(analysis) && Valid(text)
    ensures IsCut(sql, analysis, cut) && InRange(sql, analysis)
    ensures var p, spliced := PredicateTokens(text), Splice(sql, analysis, Trim(text));
            !(cut.InGate() && HoldsGateEnd(p)) && Separable(cut, p) ==>
              (&& Analyze(spliced) == Eligible(again) && IsCut(spliced, again, cutAgain)
               && again.table == analysis.table && again.insertAt == analysis.insertAt
               && again.whereClause.Some?
               && Kept(cutAgain.condition) == NewCondition(cut.condition, analysis.whereClause.Some?, p))
  {
    cut := SpliceIsExact(sql, analysis, text);
    again, cutAgain := analysis, cut;
    var p := PredicateTokens(text);
    if !(cut.InGate() && HoldsGateEnd(p)) && Separable(cut, p) {
      AcceptsAgain(cut, analysis.whereClause.Some?, p);
      again, cutAgain := ReadAgain(sql, analysis, cut, p, Splice(sql, analysis, Trim(text)));
    }
  }
}

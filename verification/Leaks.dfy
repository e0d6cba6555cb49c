/**
 Where the splice fails, it fails on statements the analysis accepts: a predicate that ends a version-gated comment,
 and a condition whose parentheses close and open again.
 */
module Leaks {
  import opened Common
  import opened Lexer
  import opened MaximalMunch
  import opened Chains
  import opened SqlShape
  import opened RowFilter
  import opened Splicing
  import opened Reanalysis
  import opened Precedence
  import RuleNames

  // ----- Depth and shape do not depend on white space, comments and gates -----------------------------------------

  lemma {:induction false} KeptAlike(tokens: seq<Lexeme>, at: nat, keptAt: nat, depth: nat)
    ensures Alike(Significant(tokens, at, depth), Significant(Kept(tokens), keptAt, depth))
    ensures DepthEnd(tokens, depth) == DepthEnd(Kept(tokens), depth)
  {
    if tokens != [] {
      var token, tail := tokens[0], tokens[1..];
      var end, after := at + |token.text|, DepthAfter(token, depth);
      hide Significant;
      SignificantUnfolds(tokens, at, depth);
      if IsSignificant(token.kind) {
        KeptAlike(tail, end, keptAt + |token.text|, after);
        OneMoreSig(token, Kept(tail), keptAt, depth);
        assert Kept(tokens) == [token] + Kept(tail);
      } else {
        KeptAlike(tail, end, keptAt, depth);
        assert Kept(tokens) == Kept(tail);
      }
    }
  }

  lemma {:induction false} MiddleAlike(m: seq<Sig>, n: seq<Sig>, existing: bool)
    requires Alike(m, n) && Middle(n, existing)
    ensures Middle(m, existing)
  {
    forall k | 0 <= k < |m| - 1
      ensures !IsOpener(m[k], m[k + 1])
    {
      assert !IsOpener(n[k], n[k + 1]);
    }
    assert forall k :: 0 <= k < |m| ==> Calm(n[k]);
  }

  lemma {:induction false} KeptTwice(tokens: seq<Lexeme>)
    ensures Kept(Kept(tokens)) == Kept(tokens)
    ensures forall i :: 0 <= i < |Kept(tokens)| ==> IsSignificant(Kept(tokens)[i].kind)
  {
    if tokens != [] {
      KeptTwice(tokens[1..]);
      if IsSignificant(tokens[0].kind) {
        assert Kept(tokens)[1..] == Kept(tokens[1..]);
      } else {
        assert Kept(tokens) == Kept(tokens[1..]);
      }
    }
  }

  lemma {:induction false} KeptAll(tokens: seq<Lexeme>)
    requires forall i :: 0 <= i < |tokens| ==> IsSignificant(tokens[i].kind)
    ensures Kept(tokens) == tokens
  {
    if tokens != [] {
      KeptAll(tokens[1..]);
      assert [tokens[0]] + tokens[1..] == tokens;
    }
  }

  // ----- A condition that regroups ----------------------------------------------------------------------------------

  /** A word between groups that neither ends the statement nor brings in a clause. */
  predicate Joins(word: Lexeme) {
    word == AND || IsWordLeaf(Leaf(word), "OR")
  }

  lemma {:induction false} JoinGroup(m: seq<Sig>, word: Sig, g: seq<Sig>)
    requires Middle(m, true) && Enclosed(g) && word.depth == 0 && Joins(Lexeme(word.kind, word.text))
    ensures Middle(m + ([word] + g), true)
  {
    var n := [word] + g;
    assert Upper("AND") == "AND";
    forall k | 0 <= k < |m + n| - 1
      ensures !IsOpener((m + n)[k], (m + n)[k + 1])
    {
      if k < |m| - 1 {
        assert (m + n)[k] == m[k] && (m + n)[k + 1] == m[k + 1];
      } else if k > |m| {
        assert (m + n)[k] == g[k - |m| - 1] && (m + n)[k + 1] == g[k - |m| - 1 + 1];
      } else {
        assert (m + n)[|m| - 1] == m[|m| - 1] && (m + n)[|m|] == word;
      }
    }
    assert forall k :: 0 <= k < |m + n| ==>
                       (m + n)[k] == if k < |m| then m[k] else if k == |m| then word else g[k - |m| - 1];
  }

  lemma {:induction false} GroupSig(tokens: seq<Lexeme>, at: nat)
    requires Balanced(tokens) && NoQuery(tokens) && Kept(tokens) == tokens
    ensures Middle(Significant(Grouped(tokens), at, 0), true) && DepthEnd(Grouped(tokens), 0) == 0
  {
    GroupSigs(tokens, at);
  }

  lemma {:induction false} JoinGroupTokens(m: seq<Lexeme>, word: Lexeme, tokens: seq<Lexeme>, at: nat)
    requires Middle(Significant(m, at, 0), true) && DepthEnd(m, 0) == 0 && Joins(word)
    requires Balanced(tokens) && NoQuery(tokens) && Kept(tokens) == tokens
    ensures var joined := m + ([word] + Grouped(tokens));
            Middle(Significant(joined, at, 0), true) && DepthEnd(joined, 0) == 0
  {
    hide Middle, Significant, DepthEnd, Enclosed, Balanced, NoQuery, Kept, Concat;
    var n, end := [word] + Grouped(tokens), at + |Concat(m)|;
    SignificantSplits(m, n, at, 0);
    DepthEndSplits(m, n, 0);
    var sig, g := WordAndGroup(word, tokens, end);
    JoinGroup(Significant(m, at, 0), sig, g);
  }

  lemma {:induction false} WordAndGroup(word: Lexeme, tokens: seq<Lexeme>, at: nat) returns (sig: Sig, g: seq<Sig>)
    requires Joins(word) && Balanced(tokens) && NoQuery(tokens) && Kept(tokens) == tokens
    ensures Significant([word] + Grouped(tokens), at, 0) == [sig] + g && DepthEnd([word] + Grouped(tokens), 0) == 0
    ensures sig.kind == word.kind && sig.text == word.text && sig.depth == 0 && Enclosed(g)
  {
    OneMoreSig(word, Grouped(tokens), at, 0);
    GroupSigs(tokens, at + |word.text|);
    sig, g := SigOf(word, at, 0)[0], Significant(Grouped(tokens), at + |word.text|, 0);
  }

  /** What goes between the client's tokens, without white space: three groups with a word between each two. */
  lemma {:induction false} ThreeGroups(a: seq<Lexeme>, word: Lexeme, b: seq<Lexeme>, p: seq<Lexeme>, at: nat)
    requires Joins(word) && Balanced(a) && Balanced(b) && Balanced(p) && NoQuery(a) && NoQuery(b) && NoQuery(p)
    requires Kept(a) == a && Kept(b) == b && Kept(p) == p
    ensures var m := Grouped(a + ([CLOSE, word, OPEN] + b)) + ([AND] + Grouped(p));
            Middle(Significant(m, at, 0), true) && DepthEnd(m, 0) == 0
  {
    var rest := [AND] + Grouped(p);
    GroupSig(a, at);
    JoinGroupTokens(Grouped(a), word, b, at);
    JoinGroupTokens(Grouped(a) + ([word] + Grouped(b)), AND, p, at);
    GroupHalves(a, word, b, rest);
    Regroup(Grouped(a), [word] + Grouped(b), rest);
    Regroup([word], Grouped(b), rest);
  }

  /** What the analysis accepts about the halves and the predicate once they are grouped. */
  ghost predicate Groupable(x: seq<Node>, word: Lexeme, y: seq<Node>, p: seq<Lexeme>) {
    && Proper(x) && Proper(y) && IsWordLeaf(Leaf(word), "OR") && NoQuery(Flat(x)) && NoQuery(Flat(y))
    && Balanced(p) && NoQuery(Kept(p))
  }

  lemma {:induction false} FlatIsBalanced(nodes: seq<Node>)
    requires Proper(nodes)
    ensures Balanced(Flat(nodes))
  {
    FlatBalances(nodes, [], 0);
    assert Flat(nodes) + [] == Flat(nodes);
  }

  /** The condition ends one parenthesis deep, as the one that closes too much is not counted. */
  lemma {:induction false} HalvesEndDeep(x: seq<Node>, word: Lexeme, y: seq<Node>)
    requires Proper(x) && Proper(y) && IsWordLeaf(Leaf(word), "OR")
    ensures DepthEnd(Halves(x, word, y), 0) == 1
  {
    FlatIsBalanced(x);
    FlatIsBalanced(y);
    BalancedDepth(Flat(x), 0, 0, 0);
    BalancedDepth(Flat(y), 0, 0, 1);
    DepthEndSplits(Flat(x), [CLOSE, word, OPEN] + Flat(y), 0);
    DepthEndSplits([CLOSE, word, OPEN], Flat(y), 0);
    DepthOfSwap(word);
  }

  lemma {:induction false} DepthOfSwap(word: Lexeme)
    requires IsWordLeaf(Leaf(word), "OR")
    ensures DepthEnd([CLOSE, word, OPEN], 0) == 1
  {
    assert [CLOSE, word, OPEN][1..] == [word, OPEN] && [word, OPEN][1..] == [OPEN] && [OPEN][1..] == [];
    assert DepthEnd([OPEN], 0) == 1;
    assert DepthEnd([word, OPEN], 0) == 1;
  }

  /** Nothing that counts comes after a condition that ends inside a parenthesis. */
  lemma {:induction false} NothingAfter(cut: Cut)
    requires Placed(cut, true) && DepthEnd(cut.before, 0) == 0 && DepthEnd(cut.condition, 0) == 1
    ensures Kept(cut.after) == []
    ensures BodyOf(Significant(cut.All(), 0, 0)) == Significant(cut.before + cut.condition, 0, 0)
         == Significant(cut.All(), 0, 0)
  {
    hide Significant, DepthEnd, Concat, Kept, FirstAt, AcceptedBody, KeptThrough, BodyOf, Accepted, KeptBefore;
    var front, end := cut.before + cut.condition, |Concat(cut.before + cut.condition)|;
    var sigs, later := Significant(cut.All(), 0, 0), Significant(cut.after, end, 1);
    DepthEndSplits(cut.before, cut.condition, 0);
    SignificantSplits(front, cut.after, 0, 0);
    KeptAreSigs(cut.after, end, 1);
    if later != [] {
      FirstDepth(cut.after, end, 1);
    }
    NoneStartsDeep(sigs, Significant(front, 0, 0), later);
  }

  lemma {:induction false} NoneStartsDeep(sigs: seq<Sig>, front: seq<Sig>, later: seq<Sig>)
    requires sigs == front + later && Accepted(sigs)
    requires var body := BodyOf(sigs);
             WhereOf(body, ReferenceOf(body).next).Some? && |front| == KeptThrough(body, ReferenceOf(body))
    requires later != [] ==> later[0].depth == DepthAt(Lexeme(later[0].kind, later[0].text), 1)
    ensures later == [] && BodyOf(sigs) == sigs == front
  {
    assert sigs[|front|..] == later;
  }

  /** The rewritten statement is accepted although the condition regroups in it. */
  lemma {:induction false} HalvesStayAccepted(cut: Cut, x: seq<Node>, word: Lexeme, y: seq<Node>, p: seq<Lexeme>)
    requires Placed(cut, true) && Kept(cut.condition) == Halves(x, word, y) && Groupable(x, word, y, p)
    ensures StaysAccepted(cut, true, p)
  {
    hide Significant, MiddleTokens, Injected, Middle, BodyOf, Concat, Halves, Proper, NoQuery, Kept, DepthEnd;
    var sigs, at := Significant(cut.All(), 0, 0), |Concat(cut.before)|;
    PrefixOfBody(cut);
    TopLevel(cut, true);
    HalvesEndDeep(x, word, y);
    KeptAlike(cut.condition, 0, 0, 0);
    NothingAfter(cut);
    HalvesAreMiddle(cut.condition, x, word, y, p, at);
    var middle := MiddleTokens(cut.condition, p, true);
    InjectedSigs(cut, true, p);
    KeptAreSigs(cut.after, at + |Concat(middle)| + |Gap(cut.after)|, 0);
    SignificantSplits(cut.before, cut.condition, 0, 0);
    var b := Bodies(Significant(cut.before, 0, 0), Significant(cut.condition, at, 0), [],
                    Significant(middle, at, 0), []);
    AllBody(b, sigs);
    BodiesStayAccepted(cut, true, p, b);
  }

  lemma {:induction false} AllBody(b: Bodies, sigs: seq<Sig>)
    requires b.h + b.c == sigs == BodyOf(sigs) && b.t == b.t2 == [] && forall k :: 0 <= k < |b.m| ==> Calm(b.m[k])
    ensures b.Was() == BodyOf(sigs) && b.Now() == b.h + b.m + [] == BodyOf(b.h + b.m + [])
  {
    var now := b.Now();
    assert forall k :: 0 <= k < |sigs| ==> !IsSeparator(sigs[k]);
    assert forall k :: 0 <= k < |b.h| ==> b.h[k] == sigs[k];
    FirstIs(now, 0, IsSeparator, |now|);
  }

  lemma {:induction false} HalvesAreMiddle(condition: seq<Lexeme>, x: seq<Node>, word: Lexeme, y: seq<Node>,
                                           p: seq<Lexeme>, at: nat)
    requires Kept(condition) == Halves(x, word, y) && Groupable(x, word, y, p)
    ensures var middle := MiddleTokens(condition, p, true);
            Middle(Significant(middle, at, 0), true) && DepthEnd(middle, 0) == 0
  {
    var middle := MiddleTokens(condition, p, true);
    KeptMiddle(condition, p, true);
    assert [] + NewCondition(condition, true, p) == NewCondition(condition, true, p);
    FlatIsBalanced(x);
    FlatIsBalanced(y);
    KeptBalances(p, 0);
    KeptHalves(condition, Flat(x), word, Flat(y));
    KeptTwice(p);
    ThreeGroups(Flat(x), word, Flat(y), Kept(p), at);
    KeptAlike(middle, at, at, 0);
    MiddleAlike(Significant(middle, at, 0), Significant(Kept(middle), at, 0), true);
  }

  lemma {:induction false} KeptHalves(condition: seq<Lexeme>, a: seq<Lexeme>, word: Lexeme, b: seq<Lexeme>)
    requires Kept(condition) == a + ([CLOSE, word, OPEN] + b)
    ensures Kept(a) == a && Kept(b) == b
  {
    hide Kept;
    KeptTwice(condition);
    PartsCount(Kept(condition), a, [CLOSE, word, OPEN], b);
    KeptAll(a);
    KeptAll(b);
  }

  lemma {:induction false} PartsCount(kept: seq<Lexeme>, a: seq<Lexeme>, between: seq<Lexeme>, b: seq<Lexeme>)
    requires kept == a + (between + b) && forall i :: 0 <= i < |kept| ==> IsSignificant(kept[i].kind)
    ensures forall i :: 0 <= i < |a| ==> IsSignificant(a[i].kind)
    ensures forall i :: 0 <= i < |b| ==> IsSignificant(b[i].kind)
  {
    assert forall i :: 0 <= i < |a| ==> a[i] == kept[i];
    assert forall i :: 0 <= i < |b| ==> b[i] == kept[|a| + |between| + i];
  }

  /**
   Whenever an accepted statement's condition is such a pair of halves, the stage's own analysis accepts the rewritten
   statement, which lets a row through that satisfies the first half, whatever the predicate says.
   */
  lemma {:induction false} AcceptedConditionLeaks(sql: string, analysis: Analysis, cut: Cut, text: string, x: seq<Node>,
                                                  word: Lexeme, y: seq<Node>)
    returns (again: Analysis, cutAgain: Cut, p: seq<Node>, reading: seq<Node>)
    requires Analyze(sql) == Eligible(analysis) && analysis.whereClause.Some? && IsCut(sql, analysis, cut)
    requires Valid(text) && !(cut.InGate() && HoldsGateEnd(PredicateTokens(text)))
    requires Kept(cut.condition) == Halves(x, word, y) && Groupable(x, word, y, PredicateTokens(text))
    ensures InRange(sql, analysis)
    ensures Analyze(Splice(sql, analysis, Trim(text))) == Eligible(again)
    ensures IsCut(Splice(sql, analysis, Trim(text)), again, cutAgain)
    ensures again.table == analysis.table && again.insertAt == analysis.insertAt && again.whereClause.Some?
    ensures Kept(cutAgain.condition) == NewCondition(cut.condition, true, PredicateTokens(text))
    ensures Reads(Kept(PredicateTokens(text)), p)
    ensures forall nodes :: Reads(Kept(cutAgain.condition), nodes) <==> nodes == reading
    ensures forall operand: seq<Node> -> bool ::
              Holds(reading, operand) <==> Holds(x, operand) || (Holds(y, operand) && Holds(p, operand))
  {
    var tokens := PredicateTokens(text);
    var exact := SpliceIsExact(sql, analysis, text);
    CutIsUnique(sql, analysis, cut, exact);
    HalvesStayAccepted(cut, x, word, y, tokens);
    again, cutAgain := ReadAgain(sql, analysis, cut, tokens, Splice(sql, analysis, Trim(text)));
    KeptBalances(tokens, 0);
    ReadableIsBalanced(Kept(tokens));
    p :| Reads(Kept(tokens), p);
    reading := UnbalancedConditionLeaks(x, word, y, p);
  }

  // ----- Statements that reach both failures ------------------------------------------------------------------------

  const SELECT := RuleNames.SELECT
  const STAR := RuleNames.STAR
  const FROM := RuleNames.FROM
  const TABLE := Lexeme(QuotedIdent, "`t`")
  const LEFT := Lexeme(QuotedIdent, "`a`")
  const RIGHT := Lexeme(QuotedIdent, "`b`")
  const OR := Lexeme(Word, "OR")
  const GATE := Lexeme(ExecOpen, "/*!")
  const GATE_END := Lexeme(ExecClose, "*/")

  lemma {:induction false} LetterIsName(c: char)
    requires 'a' <= c <= 'z'
    ensures Fits(QuotedIdent, ['`', c, '`']) && NormalizeIdent(['`', c, '`']) == [c]
  {
    var quoted := ['`', c, '`'];
    assert QuoteEnd(quoted, 2, '`') == Some(3);
    assert QuoteEnd(quoted, 1, '`') == Some(3);
    assert quoted[1..] == [c, '`'] && [c, '`'][..1] == [c] && [c][1..] == [];
    assert TrimTicks([c]) == [c];
    assert TrimTicks([c, '`']) == [c];
    assert TrimTicks(quoted) == [c];
    assert Undouble([]) == [];
    assert Undouble([c]) == [c];
    assert Lower([c]) == [c];
  }

  const GATED := "SELECT*FROM/*!`t`*/"

  function GatedCut(): Cut {
    Cut([SELECT, STAR, FROM, GATE, TABLE], [], [GATE_END])
  }

  lemma {:induction false} GatedLexes()
    ensures Lex(GATED, false) == Some(GatedCut().All())
    ensures |Concat(GatedCut().before)| == 17 && GatedCut().InGate()
  {
    hide Chain, Concat, ExecEnd, Lex;
    var rest := [GATE, TABLE, GATE_END];
    GatedRest();
    RuleNames.SelectChains(rest);
    ChainIsLex([SELECT, STAR, FROM] + rest, false);
    assert "SELECT*FROM" + "/*!`t`*/" == GATED;
    GatedCutParts();
    GatedFront();
  }

  lemma {:induction false} GatedCutParts()
    ensures GatedCut().All() == [SELECT, STAR, FROM] + [GATE, TABLE, GATE_END]
    ensures GatedCut().before + GatedCut().condition == [SELECT, STAR, FROM, GATE, TABLE]
  {
  }

  lemma {:induction false} GatedRest()
    ensures Chain([GATE, TABLE, GATE_END], "", false) && !ExecEnd([GATE, TABLE, GATE_END], false)
    ensures Concat([GATE, TABLE, GATE_END]) == "/*!`t`*/"
  {
    LetterIsName('t');
    Onto(GATE_END, [], true);
    assert [GATE_END] + [] == [GATE_END];
    Onto(TABLE, [GATE_END], true);
    Onto(GATE, [TABLE] + [GATE_END], false);
    assert [GATE] + ([TABLE] + [GATE_END]) == [GATE, TABLE, GATE_END];
  }

  lemma {:induction false} GatedFront()
    ensures |Concat([SELECT, STAR, FROM, GATE, TABLE])| == 17 && ExecEnd([SELECT, STAR, FROM, GATE, TABLE], false)
  {
    var front := [SELECT, STAR, FROM];
    ConcatSplits(front, [GATE, TABLE]);
    ExecEndSplits(front, [GATE, TABLE], false);
    assert front + [GATE, TABLE] == [SELECT, STAR, FROM, GATE, TABLE];
    assert front[1..] == [STAR, FROM] && [STAR, FROM][1..] == [FROM] && [FROM][1..] == [];
    assert [GATE, TABLE][1..] == [TABLE] && [TABLE][1..] == [];
    assert Concat([FROM]) == "FROM" && Concat([STAR, FROM]) == "*FROM" && Concat(front) == "SELECT*FROM";
    assert Concat([TABLE]) == "`t`" && Concat([GATE, TABLE]) == "/*!`t`";
    assert ExecEnd([TABLE], true);
  }

  lemma {:induction false} GatedSigs()
    ensures Significant(GatedCut().All(), 0, 0) == RuleNames.QuotedTable("`t`", 14)
  {
    hide Significant;
    GatedCutParts();
    RuleNames.SelectSigs([GATE, TABLE, GATE_END]);
    NoSigs(19, 0);
    OneMoreSig(GATE_END, [], 17, 0);
    OneMoreSig(TABLE, [GATE_END], 14, 0);
    OneMoreSig(GATE, [TABLE] + [GATE_END], 11, 0);
    assert [GATE_END] + [] == [GATE_END] && [GATE] + ([TABLE] + [GATE_END]) == [GATE, TABLE, GATE_END];
  }

  /** A table inside a version-gated comment is accepted, and the predicate goes inside the comment. */
  lemma {:induction false} GatedIsEligible()
    ensures Analyze(GATED) == Eligible(Analysis(TableRef(None, "t"), 17, None))
    ensures IsCut(GATED, Analyze(GATED).analysis, GatedCut()) && GatedCut().InGate()
  {
    hide Significant, AnalyzeTokens;
    GatedLexes();
    GatedSigs();
    LetterIsName('t');
    RuleNames.QuotedTableIsAccepted(Significant(GatedCut().All(), 0, 0), "`t`", 14);
  }

  const SPLIT := "SELECT*FROM`t`WHERE`a`)OR(`b`"

  function SplitCut(): Cut {
    Cut([SELECT, STAR, FROM, TABLE, WHERE], [LEFT, CLOSE, OR, OPEN, RIGHT], [])
  }

  lemma {:induction false} SplitFits()
    ensures Fits(Word, "WHERE") && Fits(Punct, ")") && Fits(Word, "OR") && Fits(Punct, "(")
    ensures Fits(QuotedIdent, "`t`") && Fits(QuotedIdent, "`a`") && Fits(QuotedIdent, "`b`")
  {
    LetterIsName('t');
    LetterIsName('a');
    LetterIsName('b');
    assert ")"[0] == ')' && "("[0] == '(';
  }

  lemma {:induction false} SplitCondition()
    ensures var condition := [LEFT, CLOSE, OR, OPEN, RIGHT];
            Chain(condition, "", false) && !ExecEnd(condition, false) && Concat(condition) == "`a`)OR(`b`"
  {
    hide Chain, Fits;
    SplitFits();
    Onto(RIGHT, [], false);
    assert [RIGHT] + [] == [RIGHT];
    Onto(OPEN, [RIGHT], false);
    Onto(OR, [OPEN] + [RIGHT], false);
    Three(OR, OPEN, RIGHT, []);
    assert [OR] + ([OPEN] + [RIGHT]) == [OR, OPEN, RIGHT];
    Onto(CLOSE, [OR, OPEN, RIGHT], false);
    Onto(LEFT, [CLOSE] + [OR, OPEN, RIGHT], false);
    assert [LEFT] + ([CLOSE] + [OR, OPEN, RIGHT]) == [LEFT, CLOSE, OR, OPEN, RIGHT];
  }

  lemma {:induction false} SplitRest()
    ensures var rest := [TABLE, WHERE] + [LEFT, CLOSE, OR, OPEN, RIGHT];
            Chain(rest, "", false) && !ExecEnd(rest, false) && Concat(rest) == "`t`WHERE`a`)OR(`b`"
  {
    hide Chain, Fits;
    SplitFits();
    SplitCondition();
    var condition := [LEFT, CLOSE, OR, OPEN, RIGHT];
    Onto(WHERE, condition, false);
    Onto(TABLE, [WHERE] + condition, false);
    assert [TABLE] + ([WHERE] + condition) == [TABLE, WHERE] + condition;
  }

  lemma {:induction false} SplitLexes()
    ensures Lex(SPLIT, false) == Some(SplitCut().All()) && !SplitCut().InGate()
    ensures |Concat(SplitCut().before)| == 19 && |Concat(SplitCut().before + SplitCut().condition)| == 29
  {
    hide Chain, Concat, ExecEnd, Lex;
    var rest := [TABLE, WHERE] + [LEFT, CLOSE, OR, OPEN, RIGHT];
    SplitRest();
    RuleNames.SelectChains(rest);
    ChainIsLex([SELECT, STAR, FROM] + rest, false);
    assert "SELECT*FROM" + "`t`WHERE`a`)OR(`b`" == SPLIT;
    SplitCutParts();
    SplitCondition();
    ConcatSplits(SplitCut().before, SplitCut().condition);
    assert |SPLIT| == 29;
  }

  lemma {:induction false} SplitCutParts()
    ensures var rest := [TABLE, WHERE] + [LEFT, CLOSE, OR, OPEN, RIGHT];
            && SplitCut().All() == [SELECT, STAR, FROM] + rest
            && SplitCut().before + SplitCut().condition == [SELECT, STAR, FROM] + rest
  {
  }

  function SplitTail(): seq<Sig> {
    [Sig(Word, "WHERE", 14, 19, 0), Sig(QuotedIdent, "`a`", 19, 22, 0), Sig(Punct, ")", 22, 23, 0),
     Sig(Word, "OR", 23, 25, 0), Sig(Punct, "(", 25, 26, 0), Sig(QuotedIdent, "`b`", 26, 29, 1)]
  }

  lemma {:induction false} SplitTailSigs()
    ensures Significant([WHERE, LEFT, CLOSE, OR, OPEN, RIGHT], 14, 0) == SplitTail()
  {
    hide Significant;
    NoSigs(29, 1);
    NextSig(RIGHT, [], 26, 1);
    OneMoreSig(OPEN, [RIGHT], 25, 0);
    NextSig(OR, [OPEN, RIGHT], 23, 0);
    OneMoreSig(CLOSE, [OR, OPEN, RIGHT], 22, 0);
    NextSig(LEFT, [CLOSE, OR, OPEN, RIGHT], 19, 0);
    NextSig(WHERE, [LEFT, CLOSE, OR, OPEN, RIGHT], 14, 0);
    assert [RIGHT] + [] == [RIGHT] && [OPEN] + [RIGHT] == [OPEN, RIGHT] && [OR] + [OPEN, RIGHT] == [OR, OPEN, RIGHT];
    assert [CLOSE] + [OR, OPEN, RIGHT] == [CLOSE, OR, OPEN, RIGHT];
    assert [LEFT] + [CLOSE, OR, OPEN, RIGHT] == [LEFT, CLOSE, OR, OPEN, RIGHT];
    assert [WHERE] + [LEFT, CLOSE, OR, OPEN, RIGHT] == [WHERE, LEFT, CLOSE, OR, OPEN, RIGHT];
  }

  lemma {:induction false} SplitSigs()
    ensures Significant(SplitCut().All(), 0, 0) == RuleNames.QuotedTable("`t`", 11) + SplitTail()
  {
    hide Significant;
    var tail := [WHERE, LEFT, CLOSE, OR, OPEN, RIGHT];
    SplitCutParts();
    assert [TABLE, WHERE] + [LEFT, CLOSE, OR, OPEN, RIGHT] == [TABLE] + tail;
    RuleNames.SelectSigs([TABLE] + tail);
    NextSig(TABLE, tail, 11, 0);
    SplitTailSigs();
  }

  lemma {:induction false} SplitFroms(sigs: seq<Sig>)
    requires sigs == RuleNames.QuotedTable("`t`", 11) + SplitTail()
    ensures FirstAt(sigs, 0, IsFrom) == 2 && FirstAt(sigs, 3, IsFrom) == |sigs|
  {
    RuleNames.Capitals("SELECT");
    RuleNames.Capitals("FROM");
    RuleNames.Capitals("WHERE");
    RuleNames.Capitals("OR");
    FirstIs(sigs, 0, IsFrom, 2);
    FirstIs(sigs, 3, IsFrom, 10);
  }

  lemma {:induction false} SplitClauses(sigs: seq<Sig>)
    requires sigs == RuleNames.QuotedTable("`t`", 11) + SplitTail()
    ensures FirstAt(sigs, 4, IsClause) == 4 && FirstAt(sigs, 5, IsClause) == |sigs|
  {
    RuleNames.Capitals("WHERE");
    RuleNames.Capitals("OR");
    FirstIs(sigs, 4, IsClause, 4);
    FirstIs(sigs, 5, IsClause, 10);
  }

  lemma {:induction false} SplitEnds(sigs: seq<Sig>)
    requires sigs == RuleNames.QuotedTable("`t`", 11) + SplitTail()
    ensures FirstAt(sigs, 0, IsSeparator) == FirstAt(sigs, 0, IsSetOperator) == |sigs|
  {
    RuleNames.Capitals("SELECT");
    RuleNames.Capitals("FROM");
    RuleNames.Capitals("WHERE");
    RuleNames.Capitals("OR");
    FirstIs(sigs, 0, IsSeparator, 10);
    FirstIs(sigs, 0, IsSetOperator, 10);
  }

  lemma {:induction false} SplitIsAccepted(sigs: seq<Sig>)
    requires sigs == RuleNames.QuotedTable("`t`", 11) + SplitTail()
    ensures AnalyzeTokens(sigs) == Eligible(Analysis(TableRef(None, "t"), 14, Some(WhereExtent(19, 29))))
  {
    hide FirstAt, IsSeparator, IsFrom, IsClause, IsSetOperator;
    SplitFroms(sigs);
    SplitClauses(sigs);
    SplitEnds(sigs);
    LetterIsName('t');
    RuleNames.Capitals("SELECT");
    RuleNames.Capitals("WHERE");
    assert BodyOf(sigs) == sigs;
    assert ReferenceAt(sigs, 3) == Ok(Reference(TableRef(None, "t"), 14, 4));
    assert !OpensSubquery(sigs);
  }

  /** So is a condition that closes one parenthesis too many and opens it again. */
  lemma {:induction false} SplitIsEligible()
    ensures Analyze(SPLIT) == Eligible(Analysis(TableRef(None, "t"), 14, Some(WhereExtent(19, 29))))
    ensures IsCut(SPLIT, Analyze(SPLIT).analysis, SplitCut()) && !SplitCut().InGate()
  {
    hide Significant, AnalyzeTokens;
    SplitLexes();
    SplitSigs();
    SplitIsAccepted(Significant(SplitCut().All(), 0, 0));
  }

  /** In this statement exactly the predicates that hold a `*` in front of a `/` are not injected as they are. */
  lemma {:induction false} GatedPredicateEscapes(text: string)
    requires Valid(text)
    ensures Analyze(GATED).Eligible? && InRange(GATED, Analyze(GATED).analysis)
    ensures IsCut(GATED, Analyze(GATED).analysis, GatedCut())
    ensures Lex(Splice(GATED, Analyze(GATED).analysis, Trim(text)), false)
            == Some(Injected(GatedCut(), false, PredicateTokens(text)))
       <==> !HoldsGateEnd(PredicateTokens(text))
  {
    GatedIsEligible();
    var exact := SpliceIsExact(GATED, Analyze(GATED).analysis, text);
    CutIsUnique(GATED, Analyze(GATED).analysis, GatedCut(), exact);
  }

  const A := Lexeme(Word, "a")
  const B := Lexeme(Word, "b")
  const SLASH := Lexeme(Punct, "/")

  lemma {:induction false} QuotientFits()
    ensures Fits(Word, "a") && Fits(Word, "b") && Fits(Punct, "*") && Fits(Punct, "/") && Fits(Punct, ")")
    ensures Fits(Whitespace, " ") && Fits(ExecClose, "*/")
  {
    assert "*"[0] == '*' && "/"[0] == '/' && ")"[0] == ')';
  }

  lemma {:induction false} QuotientLexes()
    ensures Lex("a*/b", false) == Some([A, STAR, SLASH, B])
  {
    hide Fits, Chain, Lex;
    QuotientFits();
    Onto(B, [], false);
    Onto(SLASH, [B] + [], false);
    Onto(STAR, [SLASH] + ([B] + []), false);
    Onto(A, [STAR] + ([SLASH] + ([B] + [])), false);
    assert [A] + ([STAR] + ([SLASH] + ([B] + []))) == [A, STAR, SLASH, B];
    ChainIsLex([A, STAR, SLASH, B], false);
    assert "a" + ("*" + ("/" + ("b" + ""))) == "a*/b";
  }

  lemma {:induction false} QuotientBalances()
    ensures Balance([A, STAR, SLASH, B], 0) == Some(0)
  {
    var tokens := [A, STAR, SLASH, B];
    assert tokens[1..] == [STAR, SLASH, B] && [STAR, SLASH, B][1..] == [SLASH, B];
    assert [SLASH, B][1..] == [B] && [B][1..] == [];
    assert Balance([B], 0) == Some(0);
    assert Balance([SLASH, B], 0) == Some(0);
    assert Balance([STAR, SLASH, B], 0) == Some(0);
  }

  lemma {:induction false} QuotientIsValid()
    ensures Valid("a*/b") && Trim("a*/b") == "a*/b" && PredicateTokens("a*/b") == [A, STAR, SLASH, B]
    ensures HoldsGateEnd(PredicateTokens("a*/b"))
  {
    hide Lex, Balance;
    QuotientLexes();
    QuotientBalances();
    var tokens := [A, STAR, SLASH, B];
    assert tokens[1] == STAR && tokens[1 + 1] == SLASH;
  }

  /** The tokens of the rewritten statement, with the comment ended inside the predicate. */
  function EndedTokens(): seq<Lexeme> {
    [SELECT, STAR, FROM] + ([GATE] + ([TABLE] + (Lead(false) + EndedTail())))
  }

  function EndedTail(): seq<Lexeme> {
    [A] + ([GATE_END] + ([B] + ([CLOSE] + ([BLANK] + ([STAR] + ([SLASH] + []))))))
  }

  lemma {:induction false} EndedTailChains()
    ensures Chain(EndedTail(), "", true) && !ExecEnd(EndedTail(), true) && Concat(EndedTail()) == "a*/b) */"
  {
    hide Fits, Chain;
    QuotientFits();
    Onto(SLASH, [], false);
    Onto(STAR, [SLASH] + [], false);
    Onto(BLANK, [STAR] + ([SLASH] + []), false);
    Onto(CLOSE, [BLANK] + ([STAR] + ([SLASH] + [])), false);
    Onto(B, [CLOSE] + ([BLANK] + ([STAR] + ([SLASH] + []))), false);
    Onto(GATE_END, [B] + ([CLOSE] + ([BLANK] + ([STAR] + ([SLASH] + [])))), true);
    Onto(A, [GATE_END] + ([B] + ([CLOSE] + ([BLANK] + ([STAR] + ([SLASH] + []))))), true);
  }

  lemma {:induction false} EndedPredicate()
    ensures var body := Lead(false) + EndedTail();
            Chain(body, "", true) && !ExecEnd(body, true) && Concat(body) == " WHERE (a*/b) */"
  {
    hide Fits, Chain, EndedTail, ExecEnd;
    EndedTailChains();
    LinkedChains(Lead(false), EndedTail(), false, false, true);
    LeadChains(false, "", true);
    ConcatSplits(Lead(false), EndedTail());
    assert " WHERE (" + "a*/b) */" == " WHERE (a*/b) */";
  }

  lemma {:induction false} EndedRest()
    ensures var rest := [GATE] + ([TABLE] + (Lead(false) + EndedTail()));
            Chain(rest, "", false) && !ExecEnd(rest, false) && Concat(rest) == "/*!`t` WHERE (a*/b) */"
  {
    hide Fits, Chain, EndedTail, Lead, ExecEnd, Concat;
    var body := Lead(false) + EndedTail();
    EndedPredicate();
    GatedFits();
    Onto(TABLE, body, true);
    assert "`t`" + " WHERE (a*/b) */" == "`t` WHERE (a*/b) */";
    Onto(GATE, [TABLE] + body, false);
    assert "/*!" + "`t` WHERE (a*/b) */" == "/*!`t` WHERE (a*/b) */";
  }

  lemma {:induction false} GatedFits()
    ensures Fits(QuotedIdent, "`t`") && Fits(ExecOpen, "/*!")
  {
    LetterIsName('t');
  }

  lemma {:induction false} EndedLexes()
    ensures Lex("SELECT*FROM/*!`t` WHERE (a*/b) */", false) == Some(EndedTokens())
  {
    hide Chain, Concat, ExecEnd, Lex;
    var rest := [GATE] + ([TABLE] + (Lead(false) + EndedTail()));
    EndedRest();
    RuleNames.SelectChains(rest);
    ChainIsLex([SELECT, STAR, FROM] + rest, false);
    assert "SELECT*FROM" + "/*!`t` WHERE (a*/b) */" == "SELECT*FROM/*!`t` WHERE (a*/b) */";
  }

  lemma {:induction false} EndedSplice()
    ensures Splice(GATED, Analysis(TableRef(None, "t"), 17, None), "a*/b") == "SELECT*FROM/*!`t` WHERE (a*/b) */"
  {
    assert GATED[..17] == "SELECT*FROM/*!`t`" && GATED[17..] == "*/" && Remainder("*/") == " */";
  }

  /** A predicate with a star in front of a slash: it is valid, the statement is accepted, and the predicate ends the
      comment it is put into. */
  lemma {:induction false} QuotientEndsGate()
    ensures Valid("a*/b") && Analyze(GATED).Eligible? && InRange(GATED, Analyze(GATED).analysis)
    ensures Lex(Splice(GATED, Analyze(GATED).analysis, "a*/b"), false) == Some(EndedTokens())
    ensures EndedTokens() != Injected(GatedCut(), false, PredicateTokens("a*/b"))
  {
    hide Lex, Valid, HoldsGateEnd, PredicateTokens, EndedTokens, Injected, Analyze, Splice;
    QuotientIsValid();
    GatedPredicateEscapes("a*/b");
    GatedIsEligible();
    EndedLexes();
    EndedSplice();
  }

  /** What the injected predicate becomes in the statement with the two halves, whatever it is. */
  lemma {:induction false} SplitConditionLeaks(text: string)
    returns (again: Analysis, cutAgain: Cut, p: seq<Node>, reading: seq<Node>)
    requires Valid(text) && NoQuery(Kept(PredicateTokens(text)))
    ensures Analyze(SPLIT).Eligible? && InRange(SPLIT, Analyze(SPLIT).analysis)
    ensures Analyze(Splice(SPLIT, Analyze(SPLIT).analysis, Trim(text))) == Eligible(again)
    ensures IsCut(Splice(SPLIT, Analyze(SPLIT).analysis, Trim(text)), again, cutAgain)
    ensures Kept(cutAgain.condition) == NewCondition(SplitCut().condition, true, PredicateTokens(text))
    ensures Reads(Kept(PredicateTokens(text)), p)
    ensures forall nodes :: Reads(Kept(cutAgain.condition), nodes) <==> nodes == reading
    ensures forall operand: seq<Node> -> bool ::
              Holds(reading, operand)
              <==> Holds([Leaf(LEFT)], operand) || (Holds([Leaf(RIGHT)], operand) && Holds(p, operand))
  {
    SplitIsEligible();
    SplitHalves();
    again, cutAgain, p, reading :=
      AcceptedConditionLeaks(SPLIT, Analyze(SPLIT).analysis, SplitCut(), text, [Leaf(LEFT)], OR, [Leaf(RIGHT)]);
  }

  lemma {:induction false} SplitHalves()
    ensures Kept(SplitCut().condition) == Halves([Leaf(LEFT)], OR, [Leaf(RIGHT)])
    ensures Proper([Leaf(LEFT)]) && Proper([Leaf(RIGHT)]) && IsWordLeaf(Leaf(OR), "OR")
    ensures NoQuery(Flat([Leaf(LEFT)])) && NoQuery(Flat([Leaf(RIGHT)]))
  {
    RuleNames.Capitals("OR");
    KeptAll([LEFT, CLOSE, OR, OPEN, RIGHT]);
    LeafIsPlain(LEFT);
    LeafIsPlain(RIGHT);
    assert [LEFT] + ([CLOSE, OR, OPEN] + [RIGHT]) == [LEFT, CLOSE, OR, OPEN, RIGHT];
  }

  lemma {:induction false} LeafIsPlain(token: Lexeme)
    requires token.kind == QuotedIdent
    ensures Proper([Leaf(token)]) && Flat([Leaf(token)]) == [token] && NoQuery([token])
  {
    FlatCons(Leaf(token), []);
    assert [Leaf(token)] + [] == [Leaf(token)] && [token] + [] == [token];
  }
}

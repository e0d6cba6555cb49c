/**
 Lexing looks only forward: a run of tokens keeps its kinds and texts in front of any continuation
 its last tokens tolerate.
 */
module Chains {
  import opened Common
  import opened Lexer
  import opened MaximalMunch

  function Concat(tokens: seq<Lexeme>): string {
    if tokens == [] then "" else tokens[0].text + Concat(tokens[1..])
  }

  function ExecEnd(tokens: seq<Lexeme>, exec: bool): bool {
    if tokens == [] then exec else ExecEnd(tokens[1..], ExecAfter(tokens[0].kind, exec))
  }

  /** The tokens stand in front of `rest` as they are. */
  predicate Chain(tokens: seq<Lexeme>, rest: string, exec: bool) {
    tokens == [] ||
    (&& Fits(tokens[0].kind, tokens[0].text)
     && MayFollow(tokens[0].kind, tokens[0].text, Concat(tokens[1..]) + rest, exec)
     && Chain(tokens[1..], rest, ExecAfter(tokens[0].kind, exec)))
  }

  function Prepended(tokens: seq<Lexeme>, rest: Option<seq<Lexeme>>): Option<seq<Lexeme>> {
    if rest.Some? then Some(tokens + rest.value) else None
  }

  lemma {:induction false} ConcatSplits(a: seq<Lexeme>, b: seq<Lexeme>)
    ensures Concat(a + b) == Concat(a) + Concat(b)
  {
    if a == [] {
      assert a + b == b;
    } else {
      ConcatSplits(a[1..], b);
      assert (a + b)[0] == a[0] && (a + b)[1..] == a[1..] + b;
      Associative(a[0].text, Concat(a[1..]), Concat(b));
    }
  }

  lemma {:induction false} Associative(a: string, b: string, c: string)
    ensures a + (b + c) == (a + b) + c
  {
  }

  lemma {:induction false} ExecEndSplits(a: seq<Lexeme>, b: seq<Lexeme>, exec: bool)
    ensures ExecEnd(a + b, exec) == ExecEnd(b, ExecEnd(a, exec))
  {
    if a == [] {
      assert a + b == b;
    } else {
      ExecEndSplits(a[1..], b, ExecAfter(a[0].kind, exec));
      assert (a + b)[1..] == a[1..] + b;
    }
  }

  lemma {:induction false} ChainSplits(a: seq<Lexeme>, b: seq<Lexeme>, rest: string, exec: bool)
    ensures Chain(a + b, rest, exec) <==> Chain(a, Concat(b) + rest, exec) && Chain(b, rest, ExecEnd(a, exec))
  {
    if a == [] {
      assert a + b == b;
    } else {
      ChainSplits(a[1..], b, rest, ExecAfter(a[0].kind, exec));
      ConcatSplits(a[1..], b);
      assert (a + b)[1..] == a[1..] + b;
      assert Concat(a[1..] + b) + rest == Concat(a[1..]) + (Concat(b) + rest);
    }
  }

  /** A chain lexes to itself in front of what follows. */
  lemma {:induction false} ChainLexes(tokens: seq<Lexeme>, rest: string, exec: bool)
    requires Chain(tokens, rest, exec)
    ensures Lex(Concat(tokens) + rest, exec) == Prepended(tokens, Lex(rest, ExecEnd(tokens, exec)))
    decreases |tokens|
  {
    if tokens == [] {
      assert Concat(tokens) + rest == rest;
      PrependNothing(Lex(rest, exec));
    } else {
      var token := tokens[0];
      var tail := Concat(tokens[1..]) + rest;
      var after := ExecAfter(token.kind, exec);
      ChainLexes(tokens[1..], rest, after);
      FrontLexes(token, tail, exec);
      assert Concat(tokens) + rest == token.text + tail;
      PrependOne(tokens, Lex(rest, ExecEnd(tokens, exec)));
    }
  }

  lemma {:induction false} PrependNothing(rest: Option<seq<Lexeme>>)
    ensures Prepended([], rest) == rest
  {
    if rest.Some? {
      assert [] + rest.value == rest.value;
    }
  }

  lemma {:induction false} PrependOne(tokens: seq<Lexeme>, rest: Option<seq<Lexeme>>)
    requires tokens != []
    ensures Prepended(tokens, rest) == Prepended([tokens[0]], Prepended(tokens[1..], rest))
  {
    if rest.Some? {
      assert [tokens[0]] + (tokens[1..] + rest.value) == tokens + rest.value;
    }
  }

  lemma {:induction false} FrontLexes(token: Lexeme, tail: string, exec: bool)
    requires Fits(token.kind, token.text) && MayFollow(token.kind, token.text, tail, exec)
    ensures Lex(token.text + tail, exec) == Prepended([token], Lex(tail, ExecAfter(token.kind, exec)))
  {
    FitsSteps(token.kind, token.text, tail, exec);
    var whole := token.text + tail;
    LexUnfolds(whole, exec, Front(token.kind, |token.text|));
    assert whole[|token.text|..] == tail && whole[..|token.text|] == token.text;
  }

  /** The tokens of a text form a chain that ends outside any gate. */
  lemma {:induction false} LexChains(s: string, exec: bool)
    requires Lex(s, exec).Some?
    ensures var tokens := Lex(s, exec).value;
            Concat(tokens) == s && Chain(tokens, "", exec) && !ExecEnd(tokens, exec)
    decreases |s|
  {
    if s != "" {
      var front := Step(s, exec).value;
      var text, rest := s[..front.length], s[front.length..];
      assert s == text + rest;
      LexChains(rest, ExecAfter(front.kind, exec));
      StepFits(front.kind, text, rest, exec);
      var tokens := Lex(s, exec).value;
      assert tokens[1..] == Lex(rest, ExecAfter(front.kind, exec)).value;
      assert Concat(tokens[1..]) + "" == rest;
    }
  }

  /**
   A text that does not lex is read up to a token that is not terminated, or up to the end inside a gate; what stands
   before is a chain of tokens.
   */
  lemma {:induction false} StopsAtUnterminated(s: string, exec: bool) returns (tokens: seq<Lexeme>)
    requires Lex(s, exec).None?
    ensures var at := ReadUpTo(s, exec);
            && s[..at] == Concat(tokens) && Chain(tokens, s[at..], exec)
            && (if at == |s| then ExecEnd(tokens, exec) else Step(s[at..], ExecEnd(tokens, exec)).None?)
    decreases |s|
  {
    hide Chain, Step, Concat;
    tokens := [];
    if s != "" && Step(s, exec).Some? {
      var front := Step(s, exec).value;
      var text, rest := s[..front.length], s[front.length..];
      assert s == text + rest;
      var later := StopsAtUnterminated(rest, ExecAfter(front.kind, exec));
      OneTokenEarlier(front.kind, text, rest, exec, later, ReadUpTo(rest, ExecAfter(front.kind, exec)));
      tokens := [Lexeme(front.kind, text)] + later;
    } else {
      NothingRead(s, exec);
    }
  }

  lemma {:induction false} NothingRead(s: string, exec: bool)
    ensures s[..0] == Concat([]) && Chain([], s[0..], exec) && s[0..] == s
  {
  }

  lemma {:induction false} OneTokenEarlier(kind: Kind, text: string, rest: string, exec: bool, later: seq<Lexeme>,
                                           at: nat)
    requires text != "" && Step(text + rest, exec) == Some(Front(kind, |text|)) && at <= |rest|
    requires rest[..at] == Concat(later) && Chain(later, rest[at..], ExecAfter(kind, exec))
    ensures var tokens := [Lexeme(kind, text)] + later;
            && (text + rest)[..|text| + at] == Concat(tokens) && (text + rest)[|text| + at..] == rest[at..]
            && Chain(tokens, rest[at..], exec) && ExecEnd(tokens, exec) == ExecEnd(later, ExecAfter(kind, exec))
  {
    var tokens := [Lexeme(kind, text)] + later;
    StepFits(kind, text, rest, exec);
    assert tokens[1..] == later;
    assert rest == rest[..at] + rest[at..];
  }

  lemma {:induction false} ChainIsLex(tokens: seq<Lexeme>, exec: bool)
    requires Chain(tokens, "", exec) && !ExecEnd(tokens, exec)
    ensures Lex(Concat(tokens), exec) == Some(tokens)
  {
    ChainLexes(tokens, "", exec);
    assert Concat(tokens) + "" == Concat(tokens);
    assert tokens + [] == tokens;
  }

  /** One more token in front of a chain. */
  lemma {:induction false} Onto(token: Lexeme, tokens: seq<Lexeme>, exec: bool)
    requires Fits(token.kind, token.text) && MayFollow(token.kind, token.text, Concat(tokens), exec)
    requires Chain(tokens, "", ExecAfter(token.kind, exec))
    ensures Chain([token] + tokens, "", exec) && Concat([token] + tokens) == token.text + Concat(tokens)
    ensures ExecEnd([token] + tokens, exec) == ExecEnd(tokens, ExecAfter(token.kind, exec))
  {
    assert ([token] + tokens)[1..] == tokens;
    assert Concat(tokens) + "" == Concat(tokens);
  }

  /** No token before the last one reaches into the new continuation. */
  predicate Tolerates(text: string, rest: string) {
    && (rest != "" ==> !IsDigit(rest[0]) && !IsSign(rest[0]))
    && (rest == "" || BreaksDashes(rest[0]) ==> text == "" || text[|text| - 1] != '-')
  }

  lemma {:induction false} ReachIsShort(kind: Kind, t: string, v: string, r: string, r2: string, exec: bool)
    requires v != "" && MayFollow(kind, t, v + r, exec) && Tolerates(v, r2)
    ensures MayFollow(kind, t, v + r2, exec)
  {
    assert forall k :: 0 <= k < |v| ==> (v + r)[k] == v[k] && (v + r2)[k] == v[k];
    match kind
    case Number =>
      assert ExponentAt(v + r2, 0) ==> ExponentAt(v + r, 0);
    case Punct =>
      if t == "-" {
        DashSplits("-" + v, r);
        DashSplits("-" + v, r2);
        assert "-" + (v + r) == ("-" + v) + r && "-" + (v + r2) == ("-" + v) + r2;
      }
    case _ =>
  }

  /** The last token may be followed by `rest`. */
  predicate LastMayFollow(tokens: seq<Lexeme>, rest: string, exec: bool)
    requires tokens != []
  {
    if |tokens| == 1 then MayFollow(tokens[0].kind, tokens[0].text, rest, exec)
    else LastMayFollow(tokens[1..], rest, ExecAfter(tokens[0].kind, exec))
  }

  /** A chain keeps standing in front of another continuation its last token tolerates. */
  lemma {:induction false} Retarget(tokens: seq<Lexeme>, r: string, r2: string, exec: bool)
    requires tokens != [] && Chain(tokens, r, exec) && Tolerates(Concat(tokens), r2)
    requires LastMayFollow(tokens, r2, exec)
    ensures Chain(tokens, r2, exec)
    decreases |tokens|
  {
    var rest := tokens[1..];
    if |tokens| == 1 {
      assert Concat(rest) + r2 == r2;
    } else {
      assert Concat(tokens) == tokens[0].text + Concat(rest);
      Retarget(rest, r, r2, ExecAfter(tokens[0].kind, exec));
      RetargetFront(tokens, r, r2, exec);
    }
  }

  lemma {:induction false} RetargetFront(tokens: seq<Lexeme>, r: string, r2: string, exec: bool)
    requires |tokens| >= 2 && Chain(tokens, r, exec) && Tolerates(Concat(tokens[1..]), r2)
    ensures MayFollow(tokens[0].kind, tokens[0].text, Concat(tokens[1..]) + r2, exec)
  {
    ChainIsLong(tokens[1..], r, ExecAfter(tokens[0].kind, exec));
    ReachIsShort(tokens[0].kind, tokens[0].text, Concat(tokens[1..]), r, r2, exec);
  }

  lemma {:induction false} ChainIsLong(tokens: seq<Lexeme>, rest: string, exec: bool)
    requires tokens != [] && Chain(tokens, rest, exec)
    ensures tokens[0].text != "" && Concat(tokens) != ""
  {
    FitsSteps(tokens[0].kind, tokens[0].text, Concat(tokens[1..]) + rest, exec);
  }
}

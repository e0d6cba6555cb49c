/**
 What the two pairs of parentheses are for: the new condition can only be read as the old one and the
 predicate.
 */
module Precedence {
  import opened Common
  import opened Lexer
  import opened Chains
  import opened SqlShape
  import opened RowFilter
  import opened Splicing
  import opened Reanalysis

  /** A condition with its parentheses paired. */
  datatype Node = Leaf(token: Lexeme) | Group(nodes: seq<Node>)

  predicate IsOpen(token: Lexeme) {
    IsPunct(token.kind, token.text, '(')
  }

  predicate IsClose(token: Lexeme) {
    IsPunct(token.kind, token.text, ')')
  }

  predicate Proper(nodes: seq<Node>) {
    forall i :: 0 <= i < |nodes| ==>
      match nodes[i]
      case Leaf(token) => !IsOpen(token) && !IsClose(token)
      case Group(inner) => Proper(inner)
  }

  /** The tokens a reading stands for. */
  function Flat(nodes: seq<Node>): seq<Lexeme> {
    if nodes == [] then []
    else FlatNode(nodes[0]) + Flat(nodes[1..])
  }

  function FlatNode(node: Node): seq<Lexeme> {
    match node
    case Leaf(token) => [token]
    case Group(inner) => [OPEN] + Flat(inner) + [CLOSE]
  }

  ghost predicate Reads(tokens: seq<Lexeme>, nodes: seq<Node>) {
    Proper(nodes) && Flat(nodes) == tokens
  }

  // ----- A token list has at most one reading, and one exactly when it is balanced --------------------------

  predicate Stops(tokens: seq<Lexeme>) {
    tokens == [] || IsClose(tokens[0])
  }

  lemma {:induction false} FrontOfLeaf(nodes: seq<Node>, x: seq<Lexeme>)
    requires nodes != [] && nodes[0].Leaf?
    ensures Flat(nodes) + x == [nodes[0].token] + (Flat(nodes[1..]) + x)
  {
  }

  lemma {:induction false} FrontOfGroup(nodes: seq<Node>, x: seq<Lexeme>)
    requires nodes != [] && nodes[0].Group?
    ensures Flat(nodes) + x == [OPEN] + (Flat(nodes[0].nodes) + ([CLOSE] + (Flat(nodes[1..]) + x)))
  {
    var inner, later := Flat(nodes[0].nodes), Flat(nodes[1..]);
    assert Flat(nodes) == [OPEN] + inner + [CLOSE] + later;
    Regroup([OPEN] + inner + [CLOSE], later, x);
    Regroup([OPEN] + inner, [CLOSE], later + x);
    Regroup([OPEN], inner, [CLOSE] + (later + x));
  }

  lemma {:induction false} FrontOfFlat(nodes: seq<Node>, x: seq<Lexeme>)
    requires Proper(nodes) && nodes != []
    ensures var whole := Flat(nodes) + x;
            && whole != [] && !IsClose(whole[0]) && (IsOpen(whole[0]) <==> nodes[0].Group?)
            && (nodes[0].Leaf? ==> whole[0] == nodes[0].token && whole[1..] == Flat(nodes[1..]) + x)
            && (nodes[0].Group? ==> whole[1..] == Flat(nodes[0].nodes) + ([CLOSE] + (Flat(nodes[1..]) + x)))
  {
    if nodes[0].Leaf? {
      FrontOfLeaf(nodes, x);
    } else {
      FrontOfGroup(nodes, x);
    }
  }

  lemma {:induction false} ReadingIsUniqueIn(a: seq<Node>, b: seq<Node>, x: seq<Lexeme>, y: seq<Lexeme>)
    requires Proper(a) && Proper(b) && Stops(x) && Stops(y) && Flat(a) + x == Flat(b) + y
    ensures a == b && x == y
    decreases a
  {
    if a != [] { FrontOfFlat(a, x); }
    if b != [] { FrontOfFlat(b, y); }
    if a != [] && b != [] {
      assert a == [a[0]] + a[1..] && b == [b[0]] + b[1..];
      if a[0].Group? {
        var x1, y1 := Flat(a[1..]) + x, Flat(b[1..]) + y;
        ReadingIsUniqueIn(a[0].nodes, b[0].nodes, [CLOSE] + x1, [CLOSE] + y1);
        assert ([CLOSE] + x1)[1..] == x1 && ([CLOSE] + y1)[1..] == y1;
      }
      ReadingIsUniqueIn(a[1..], b[1..], x, y);
    } else {
      assert Flat([]) + x == x && Flat([]) + y == y;
    }
  }

  lemma {:induction false} ReadingIsUnique(tokens: seq<Lexeme>, a: seq<Node>, b: seq<Node>)
    requires Reads(tokens, a) && Reads(tokens, b)
    ensures a == b
  {
    ReadingIsUniqueIn(a, b, [], []);
  }

  lemma {:induction false} FlatBalances(nodes: seq<Node>, rest: seq<Lexeme>, depth: nat)
    requires Proper(nodes)
    ensures Balance(Flat(nodes) + rest, depth) == Balance(rest, depth)
    decreases nodes
  {
    if nodes == [] {
      assert Flat(nodes) + rest == rest;
    } else {
      FrontOfFlat(nodes, rest);
      FlatBalances(nodes[1..], rest, depth);
      if nodes[0].Group? {
        var later := [CLOSE] + (Flat(nodes[1..]) + rest);
        FlatBalances(nodes[0].nodes, later, depth + 1);
        assert later[1..] == Flat(nodes[1..]) + rest;
      }
    }
  }

  lemma {:induction false} ReadFrom(tokens: seq<Lexeme>, depth: nat) returns (nodes: seq<Node>, rest: seq<Lexeme>)
    requires Balance(tokens, depth) == Some(0)
    ensures Proper(nodes) && tokens == Flat(nodes) + rest
    ensures Stops(rest) && |rest| <= |tokens| && Balance(rest, depth) == Some(0)
    decreases |tokens|
  {
    if Stops(tokens) {
      nodes, rest := [], tokens;
      assert [] + tokens == tokens;
    } else {
      var first, later;
      if IsOpen(tokens[0]) {
        var inner, closing := ReadFrom(tokens[1..], depth + 1);
        first, later := Group(inner), closing[1..];
        GroupRead(tokens, inner, closing);
      } else {
        first, later := Leaf(tokens[0]), tokens[1..];
      }
      var more;
      more, rest := ReadFrom(later, depth);
      nodes := [first] + more;
      assert nodes[1..] == more;
      assert FlatNode(first) + (Flat(more) + rest) == FlatNode(first) + Flat(more) + rest;
    }
  }

  lemma {:induction false} GroupRead(tokens: seq<Lexeme>, inner: seq<Node>, closing: seq<Lexeme>)
    requires tokens != [] && tokens[0] == OPEN && closing != [] && closing[0] == CLOSE
    requires tokens[1..] == Flat(inner) + closing
    ensures tokens == FlatNode(Group(inner)) + closing[1..]
  {
    assert closing == [CLOSE] + closing[1..];
    assert tokens == [OPEN] + (Flat(inner) + ([CLOSE] + closing[1..]));
  }

  /** A token list can be read exactly when its parentheses are balanced. */
  lemma {:induction false} ReadableIsBalanced(tokens: seq<Lexeme>)
    ensures Balanced(tokens) <==> exists nodes :: Reads(tokens, nodes)
  {
    if Balanced(tokens) {
      var nodes, rest := ReadFrom(tokens, 0);
      assert Flat(nodes) + [] == Flat(nodes);
      assert Reads(tokens, nodes);
    }
    if nodes :| Reads(tokens, nodes) {
      FlatBalances(nodes, [], 0);
      assert Flat(nodes) + [] == tokens;
    }
  }

  /** A predicate is valid exactly when it is tokenized, holds no comment, gate, `;` or `?`, and can be read. */
  lemma {:induction false} ValidExactlyWhenReadable(text: string)
    ensures Valid(text) <==>
              && Trim(text) != "" && Lex(Trim(text), false).Some?
              && var tokens := Lex(Trim(text), false).value;
                 && (forall i :: 0 <= i < |tokens| ==>
                       && tokens[i].kind !in {Comment, ExecOpen, ExecClose}
                       && tokens[i] != Lexeme(Punct, ";") && tokens[i] != Lexeme(Punct, "?"))
                 && exists nodes :: Reads(tokens, nodes)
  {
    if Lex(Trim(text), false).Some? {
      var tokens := Lex(Trim(text), false).value;
      ReadableIsBalanced(tokens);
      assert forall i :: 0 <= i < |tokens| ==>
                         (Harmless(tokens[i]) <==>
                            && tokens[i].kind !in {Comment, ExecOpen, ExecClose}
                            && tokens[i] != Lexeme(Punct, ";") && tokens[i] != Lexeme(Punct, "?"));
    }
  }

  // ----- The operators, loosest first ---------------------------------------------------------------------------

  predicate IsWordLeaf(node: Node, word: string) {
    node.Leaf? && WordIn(node.token.kind, node.token.text, {word})
  }

  /** The first top-level occurrence of an operator, or the length. */
  function Find(nodes: seq<Node>, word: string): (at: nat)
    ensures at <= |nodes| && (at < |nodes| ==> IsWordLeaf(nodes[at], word))
    ensures forall i :: 0 <= i < at ==> !IsWordLeaf(nodes[i], word)
  {
    if nodes == [] || IsWordLeaf(nodes[0], word) then 0 else 1 + Find(nodes[1..], word)
  }

  /** Whether a condition holds, given what its operands say. */
  function Holds(nodes: seq<Node>, operand: seq<Node> -> bool): bool
    decreases nodes
  {
    var either, exclusive, both := Find(nodes, "OR"), Find(nodes, "XOR"), Find(nodes, "AND");
    if either < |nodes| then Holds(nodes[..either], operand) || Holds(nodes[either + 1..], operand)
    else if exclusive < |nodes| then Holds(nodes[..exclusive], operand) != Holds(nodes[exclusive + 1..], operand)
    else if both < |nodes| then Holds(nodes[..both], operand) && Holds(nodes[both + 1..], operand)
    else if nodes != [] && IsWordLeaf(nodes[0], "NOT") then !Holds(nodes[1..], operand)
    else if |nodes| == 1 && nodes[0].Group? then Holds(nodes[0].nodes, operand)
    else operand(nodes)
  }

  // ----- The new condition ------------------------------------------------------------------------------------

  lemma {:induction false} HoldsGroup(inner: seq<Node>, operand: seq<Node> -> bool)
    ensures Holds([Group(inner)], operand) == Holds(inner, operand)
  {
  }

  lemma {:induction false} HoldsEither(nodes: seq<Node>, operand: seq<Node> -> bool)
    requires Find(nodes, "OR") < |nodes|
    ensures var at := Find(nodes, "OR");
            Holds(nodes, operand) <==> Holds(nodes[..at], operand) || Holds(nodes[at + 1..], operand)
  {
  }

  lemma {:induction false} HoldsConjunction(nodes: seq<Node>, operand: seq<Node> -> bool)
    requires Find(nodes, "OR") == Find(nodes, "XOR") == |nodes| > Find(nodes, "AND")
    ensures var at := Find(nodes, "AND");
            Holds(nodes, operand) <==> Holds(nodes[..at], operand) && Holds(nodes[at + 1..], operand)
  {
  }

  lemma {:induction false} HoldsBoth(a: seq<Node>, b: seq<Node>, operand: seq<Node> -> bool)
    ensures Holds([Group(a), Leaf(AND), Group(b)], operand) <==> Holds(a, operand) && Holds(b, operand)
  {
    var nodes := [Group(a), Leaf(AND), Group(b)];
    assert Upper("AND") == "AND";
    assert !IsWordLeaf(nodes[1], "OR") && !IsWordLeaf(nodes[1], "XOR") && IsWordLeaf(nodes[1], "AND");
    FindIs(nodes, "AND", 1);
    assert Find(nodes, "OR") == 3;
    assert Find(nodes, "XOR") == 3;
    HoldsConjunction(nodes, operand);
    assert nodes[..1] == [Group(a)];
    assert nodes[2..] == [Group(b)];
    assert Holds(nodes, operand) <==> Holds(nodes[..1], operand) && Holds(nodes[2..], operand);
    HoldsGroup(a, operand);
    HoldsGroup(b, operand);
  }

  lemma {:induction false} FlatTriple(a: seq<Node>, b: seq<Node>)
    ensures Flat([Group(a), Leaf(AND), Group(b)]) == Grouped(Flat(a)) + ([AND] + Grouped(Flat(b)))
  {
    FlatCons(Group(b), []);
    FlatCons(Leaf(AND), [Group(b)]);
    FlatCons(Group(a), [Leaf(AND)] + [Group(b)]);
    assert [Group(b)] + [] == [Group(b)] && Grouped(Flat(b)) + [] == Grouped(Flat(b));
    assert [Group(a)] + ([Leaf(AND)] + [Group(b)]) == [Group(a), Leaf(AND), Group(b)];
  }

  lemma {:induction false} FlatCons(node: Node, nodes: seq<Node>)
    ensures Flat([node] + nodes) == FlatNode(node) + Flat(nodes)
  {
    assert ([node] + nodes)[1..] == nodes;
  }

  /**
   With a balanced condition and predicate there is one reading of the new condition, and it holds of a row
   exactly when the old condition and the predicate both do, whatever their operands are.
   */
  lemma {:induction false} NewConditionIsConjunction(condition: seq<Lexeme>, p: seq<Lexeme>)
    returns (a: seq<Node>, b: seq<Node>)
    requires Balanced(condition) && Balanced(p)
    ensures Reads(condition, a) && Reads(p, b)
    ensures forall nodes: seq<Node> :: Reads(Grouped(condition) + ([AND] + Grouped(p)), nodes)
                       <==> nodes == [Group(a), Leaf(AND), Group(b)]
    ensures forall operand: seq<Node> -> bool ::
              Holds([Group(a), Leaf(AND), Group(b)], operand) <==> Holds(a, operand) && Holds(b, operand)
  {
    ReadableIsBalanced(condition);
    ReadableIsBalanced(p);
    a :| Reads(condition, a);
    b :| Reads(p, b);
    var whole, triple := Grouped(condition) + ([AND] + Grouped(p)), [Group(a), Leaf(AND), Group(b)];
    FlatTriple(a, b);
    assert Reads(whole, triple);
    forall nodes | Reads(whole, nodes)
      ensures nodes == triple
    {
      ReadingIsUnique(whole, nodes, triple);
    }
    forall operand: seq<Node> -> bool
      ensures Holds(triple, operand) <==> Holds(a, operand) && Holds(b, operand)
    {
      HoldsBoth(a, b, operand);
    }
  }

  lemma {:induction false} KeptBalances(tokens: seq<Lexeme>, depth: nat)
    ensures Balance(Kept(tokens), depth) == Balance(tokens, depth)
  {
    if tokens != [] {
      var token := tokens[0];
      KeptBalances(tokens[1..], depth);
      KeptBalances(tokens[1..], depth + 1);
      if depth > 0 {
        KeptBalances(tokens[1..], depth - 1);
      }
      if IsSignificant(token.kind) {
        assert Kept(tokens)[0] == token && Kept(tokens)[1..] == Kept(tokens[1..]);
      } else {
        assert Kept(tokens) == Kept(tokens[1..]);
      }
    }
  }

  /** What the rewritten statement asks of a row: the old condition, if there was one, and the predicate. */
  lemma {:induction false} NewConditionAddsPredicate(cut: Cut, existing: bool, p: seq<Lexeme>)
    returns (a: seq<Node>, b: seq<Node>)
    requires Separable(cut, p)
    ensures Reads(Kept(cut.condition), a) && Reads(Kept(p), b)
    ensures exists nodes :: Reads(NewCondition(cut.condition, existing, p), nodes)
    ensures forall nodes, operand: seq<Node> -> bool :: Reads(NewCondition(cut.condition, existing, p), nodes) ==>
              (Holds(nodes, operand) <==> (existing ==> Holds(a, operand)) && Holds(b, operand))
  {
    KeptBalances(cut.condition, 0);
    KeptBalances(p, 0);
    var condition := NewCondition(cut.condition, existing, p);
    a, b := NewConditionIsConjunction(Kept(cut.condition), Kept(p));
    var reading := if existing then [Group(a), Leaf(AND), Group(b)] else [Group(b)];
    if !existing {
      FlatCons(Group(b), []);
      assert [Group(b)] + [] == [Group(b)] && Grouped(Flat(b)) + [] == Grouped(Flat(b));
    }
    assert Reads(condition, reading);
    forall nodes, operand: seq<Node> -> bool | Reads(condition, nodes)
      ensures Holds(nodes, operand) <==> (existing ==> Holds(a, operand)) && Holds(b, operand)
    {
      ReadingIsUnique(condition, nodes, reading);
      HoldsGroup(b, operand);
    }
  }

  /** The old condition stays one group exactly when its parentheses are balanced. */
  lemma {:induction false} ConditionStaysWhole(condition: seq<Lexeme>, p: seq<Lexeme>)
    requires Balanced(p)
    ensures Balanced(condition) <==>
              exists nodes: seq<Node> :: Reads(Grouped(condition) + ([AND] + Grouped(p)), nodes) && nodes != []
                              && nodes[0].Group? && Flat(nodes[0].nodes) == condition
  {
    var whole := Grouped(condition) + ([AND] + Grouped(p));
    if Balanced(condition) {
      var a, b := NewConditionIsConjunction(condition, p);
      var triple := [Group(a), Leaf(AND), Group(b)];
      assert Reads(whole, triple) && triple[0].nodes == a;
    }
    if nodes: seq<Node> :| Reads(whole, nodes) && nodes != [] && nodes[0].Group? && Flat(nodes[0].nodes) == condition {
      assert Reads(condition, nodes[0].nodes);
      ReadableIsBalanced(condition);
    }
  }

  /** Without the parentheses a row the condition accepts before its first `OR` needs no predicate. */
  lemma {:induction false} BareConjunctionLeaks(a: seq<Node>, b: seq<Node>, operand: seq<Node> -> bool)
    requires Find(a, "OR") < |a| && Holds(a[..Find(a, "OR")], operand)
    ensures Holds(a + [Leaf(AND), Group(b)], operand)
  {
    LeaksBefore(a, [Leaf(AND), Group(b)], Find(a, "OR"), operand);
  }

  lemma {:induction false} LeaksBefore(a: seq<Node>, b: seq<Node>, either: nat, operand: seq<Node> -> bool)
    requires either == Find(a, "OR") < |a| && Holds(a[..either], operand)
    ensures Holds(a + b, operand)
  {
    var bare := a + b;
    assert forall i :: 0 <= i <= either ==> bare[i] == a[i];
    FindIs(bare, "OR", either);
    assert bare[..either] == a[..either];
    HoldsEither(bare, operand);
  }

  lemma {:induction false} FindIs(nodes: seq<Node>, word: string, at: nat)
    requires at < |nodes| && IsWordLeaf(nodes[at], word)
    requires forall i :: 0 <= i < at ==> !IsWordLeaf(nodes[i], word)
    ensures Find(nodes, word) == at
  {
  }

  /** Two conditions with a parenthesis closed behind the first and opened before the second. */
  function Halves(x: seq<Node>, word: Lexeme, y: seq<Node>): seq<Lexeme> {
    Flat(x) + ([CLOSE, word, OPEN] + Flat(y))
  }

  /**
   Such a condition regroups next to a predicate: there is one reading, and it holds of a row exactly when the first
   half does, whatever the predicate says, or the second half and the predicate.
   */
  lemma {:induction false} UnbalancedConditionLeaks(x: seq<Node>, word: Lexeme, y: seq<Node>, p: seq<Node>)
    returns (reading: seq<Node>)
    requires Proper(x) && Proper(y) && Proper(p) && IsWordLeaf(Leaf(word), "OR")
    ensures !Balanced(Halves(x, word, y))
    ensures forall nodes: seq<Node> :: Reads(Grouped(Halves(x, word, y)) + ([AND] + Grouped(Flat(p))), nodes)
                       <==> nodes == reading
    ensures forall operand: seq<Node> -> bool ::
              Holds(reading, operand) <==> Holds(x, operand) || (Holds(y, operand) && Holds(p, operand))
  {
    reading := [Group(x), Leaf(word), Group(y), Leaf(AND), Group(p)];
    var condition := Halves(x, word, y);
    var whole := Grouped(condition) + ([AND] + Grouped(Flat(p)));
    FlatBalances(x, [CLOSE, word, OPEN] + Flat(y), 0);
    UnbalancedFlat(x, word, y, p);
    assert Proper(reading);
    forall nodes: seq<Node> | Reads(whole, nodes)
      ensures nodes == reading
    {
      ReadingIsUnique(whole, nodes, reading);
    }
    forall operand: seq<Node> -> bool
      ensures Holds(reading, operand) <==> Holds(x, operand) || (Holds(y, operand) && Holds(p, operand))
    {
      HoldsHalves(x, word, y, p, operand);
    }
  }

  lemma {:induction false} HoldsHalves(x: seq<Node>, word: Lexeme, y: seq<Node>, p: seq<Node>,
                                       operand: seq<Node> -> bool)
    requires IsWordLeaf(Leaf(word), "OR")
    ensures Holds([Group(x), Leaf(word), Group(y), Leaf(AND), Group(p)], operand)
       <==> Holds(x, operand) || (Holds(y, operand) && Holds(p, operand))
  {
    var nodes := [Group(x), Leaf(word), Group(y), Leaf(AND), Group(p)];
    FindIs(nodes, "OR", 1);
    HoldsEither(nodes, operand);
    assert nodes[..1] == [Group(x)] && nodes[2..] == [Group(y), Leaf(AND), Group(p)];
    HoldsGroup(x, operand);
    HoldsBoth(y, p, operand);
  }

  lemma {:induction false} UnbalancedFlat(x: seq<Node>, word: Lexeme, y: seq<Node>, p: seq<Node>)
    ensures Flat([Group(x), Leaf(word), Group(y), Leaf(AND), Group(p)])
         == Grouped(Halves(x, word, y)) + ([AND] + Grouped(Flat(p)))
  {
    var rest, triple := [AND] + Grouped(Flat(p)), [Group(y), Leaf(AND), Group(p)];
    FlatTriple(y, p);
    FlatCons(Leaf(word), triple);
    FlatCons(Group(x), [Leaf(word)] + triple);
    assert [Group(x)] + ([Leaf(word)] + triple) == [Group(x), Leaf(word), Group(y), Leaf(AND), Group(p)];
    GroupHalves(Flat(x), word, Flat(y), rest);
  }

  lemma {:induction false} GroupHalves(a: seq<Lexeme>, word: Lexeme, b: seq<Lexeme>, rest: seq<Lexeme>)
    ensures Grouped(a) + ([word] + (Grouped(b) + rest)) == Grouped(a + ([CLOSE, word, OPEN] + b)) + rest
  {
    var closing := b + [CLOSE];
    assert Grouped(a) + ([word] + (Grouped(b) + rest)) == [OPEN] + (a + ([CLOSE, word, OPEN] + (closing + rest)));
    assert Grouped(a + ([CLOSE, word, OPEN] + b)) + rest == [OPEN] + (a + ([CLOSE, word, OPEN] + (closing + rest)));
  }
}

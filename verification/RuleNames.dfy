/**
 Which tables a rule can be written for.

 A configured key is stripped of every backtick, trimmed and lowercased; a name in a statement only loses the
 backticks around it, is undoubled and lowercased. So some names can be read from a statement that no key spells.
 */
module RuleNames {
  import opened Common
  import opened Lexer
  import opened Chains
  import opened SqlShape
  import opened RowFilter
  import opened Reanalysis

  /** A name some key spells, once it is not taken for a schema and a name. */
  predicate Spellable(name: string) {
    '`' !in name && Trim(name) == name && Lower(name) == name
  }

  predicate SpellableAlone(name: string) {
    Spellable(name) && '.' !in name
  }

  /** The names of a reference for which a rule can be configured. */
  predicate CanBeRuled(table: TableRef) {
    || SpellableAlone(table.name)
    || (table.schema.Some? && SpellableAlone(table.schema.value) && Spellable(table.name))
  }

  // ----- What a key can spell ------------------------------------------------------------------------------------

  /** Trimming leaves a trimmed text, made of characters it was given. */
  lemma {:induction false} TrimIsTrimmed(s: string)
    ensures Trim(Trim(s)) == Trim(s)
    ensures forall c :: c in Trim(s) ==> c in s
  {
    StartIsShorter(s);
    EndIsShorter(TrimStart(s));
    TrimmedEnds(Trim(s));
    TrimStartKeeps(s);
  }

  lemma {:induction false} TrimStartKeeps(s: string)
    ensures forall c :: c in TrimStart(s) ==> c in s
  {
    if s != "" && IsWhitespace(s[0]) {
      TrimStartKeeps(s[1..]);
    }
  }

  lemma {:induction false} LowerKeeps(s: string)
    ensures Lower(Lower(s)) == Lower(s)
    ensures ('`' in Lower(s) <==> '`' in s) && ('.' in Lower(s) <==> '.' in s)
    ensures Trim(s) == s ==> Trim(Lower(s)) == Lower(s)
  {
    assert forall i :: 0 <= i < |s| ==> Lower(Lower(s))[i] == Lower(s)[i];
    assert forall i :: 0 <= i < |s| ==> (s[i] == '`' <==> Lower(s)[i] == '`') && (s[i] == '.' <==> Lower(s)[i] == '.');
    TrimmedEnds(s);
    TrimmedEnds(Lower(s));
  }

  lemma {:induction false} PartsAreLower(s: string, from: nat, to: nat)
    requires from <= to <= |s| && Lower(s) == s
    ensures Lower(s[from..to]) == s[from..to]
  {
    assert forall i :: 0 <= i < to - from ==> LowerChar(s[from..to][i]) == LowerChar(s[from + i]) == s[from + i];
  }

  lemma {:induction false} TrimIsLower(s: string)
    requires Lower(s) == s
    ensures Lower(Trim(s)) == Trim(s)
  {
    TrimStartIsLower(s);
    EndIsShorter(TrimStart(s));
    var t := TrimStart(s);
    PartsAreLower(t, 0, |TrimEnd(t)|);
    assert t[0..|TrimEnd(t)|] == TrimEnd(t);
  }

  lemma {:induction false} TrimStartIsLower(s: string)
    requires Lower(s) == s
    ensures Lower(TrimStart(s)) == TrimStart(s)
  {
    if s != "" && IsWhitespace(s[0]) {
      PartsAreLower(s, 1, |s|);
      assert s[1..|s|] == s[1..];
      TrimStartIsLower(s[1..]);
    }
  }

  lemma {:induction false} NoTicksToStrip(s: string)
    requires '`' !in s
    ensures WithoutTicks(s) == s
  {
    if s != "" {
      NoTicksToStrip(s[1..]);
      assert [s[0]] + s[1..] == s;
    }
  }

  /** Every part of a parsed key is spellable, and an unqualified key has no dot in it. */
  lemma {:induction false} KeysAreSpellable(raw: string)
    ensures var key := ParseKey(raw);
            && (key.schema.None? ==> SpellableAlone(key.name))
            && (key.schema.Some? ==> SpellableAlone(key.schema.value) && Spellable(key.name))
  {
    var stripped := WithoutTicks(raw);
    var trimmed := Trim(stripped);
    var lowered := Lower(trimmed);
    TrimIsTrimmed(stripped);
    LowerKeeps(trimmed);
    var dot := DotAt(lowered);
    assert lowered[..|lowered|] == lowered;
    if dot < |lowered| {
      PartIsSpellable(lowered, 0, dot);
      PartIsSpellable(lowered, dot + 1, |lowered|);
      TrimIsTrimmed(lowered[..dot]);
    }
  }

  lemma {:induction false} PartIsSpellable(s: string, from: nat, to: nat)
    requires from <= to <= |s| && Lower(s) == s && '`' !in s
    ensures Spellable(Trim(s[from..to]))
  {
    TrimIsTrimmed(s[from..to]);
    PartsAreLower(s, from, to);
    TrimIsLower(s[from..to]);
  }

  /** A spellable name is its own key, and so is one behind its schema. */
  lemma {:induction false} AloneIsItsKey(name: string)
    requires SpellableAlone(name)
    ensures ParseKey(name) == RuleKey(None, name)
  {
    NoTicksToStrip(name);
    assert DotAt(name) == |name|;
  }

  lemma {:induction false} QualifiedIsItsKey(schema: string, name: string)
    requires SpellableAlone(schema) && Spellable(name)
    ensures ParseKey(schema + "." + name) == RuleKey(Some(schema), name)
  {
    var key := schema + "." + name;
    JoinedIsSpellable(schema, name);
    NoTicksToStrip(key);
    FirstDot(schema, name);
    assert key[..|schema|] == schema && key[|schema| + 1..] == name;
  }

  lemma {:induction false} JoinedIsSpellable(schema: string, name: string)
    requires Spellable(schema) && Spellable(name)
    ensures Spellable(schema + "." + name)
  {
    var key := schema + "." + name;
    TrimmedEnds(schema);
    TrimmedEnds(name);
    TrimmedEnds(key);
    forall i | 0 <= i < |key|
      ensures LowerChar(key[i]) == key[i]
    {
      if i < |schema| {
        assert key[i] == schema[i] == Lower(schema)[i];
      } else if i > |schema| {
        assert key[i] == name[i - |schema| - 1] == Lower(name)[i - |schema| - 1];
      }
    }
    assert Lower(key) == key;
  }

  lemma {:induction false} FirstDot(schema: string, name: string)
    requires '.' !in schema
    ensures DotAt(schema + "." + name) == |schema|
  {
    var key := schema + "." + name;
    assert key[|schema|] == '.' && forall i :: 0 <= i < |schema| ==> key[i] == schema[i];
    assert forall i :: 0 <= i < DotAt(key) ==> key[i] == key[..DotAt(key)][i];
  }

  // ----- Which references can be ruled ---------------------------------------------------------------------------

  /** A valid predicate: the number one. */
  lemma {:induction false} OneIsValid()
    ensures Valid("1")
  {
    var one := Lexeme(Number, "1");
    assert Trim("1") == "1";
    assert Span("1", 0, IsDigit) == 1;
    assert NumberEnd("1") == 1;
    assert Fits(Number, "1") && Concat([one][1..]) == "";
    assert Chain([one], "", false);
    ChainIsLex([one], false);
    assert Concat([one]) == "1";
  }

  lemma {:induction false} OneRule(key: string)
    ensures ValidUpTo([(key, "1")], 1) && Compiled([(key, "1")]) == map[ParseKey(key) := Trim("1")]
  {
    OneIsValid();
    var raw := [(key, "1")];
    assert raw[..0] == [];
    assert Compiled([]) == map[];
  }

  lemma {:induction false} SpellableIsRuled(table: TableRef) returns (raw: seq<(string, string)>)
    requires CanBeRuled(table)
    ensures ValidUpTo(raw, |raw|) && LookupRule(Compiled(raw), table).Some?
  {
    var key := if SpellableAlone(table.name) then table.name else table.schema.value + "." + table.name;
    raw := [(key, "1")];
    OneRule(key);
    if SpellableAlone(table.name) {
      AloneIsItsKey(key);
    } else {
      QualifiedIsItsKey(table.schema.value, table.name);
    }
  }

  lemma {:induction false} RuledIsSpellable(raw: seq<(string, string)>, table: TableRef)
    requires ValidUpTo(raw, |raw|) && LookupRule(Compiled(raw), table).Some?
    ensures CanBeRuled(table)
  {
    var qualified := RuleKey(table.schema, table.name);
    var key := if table.schema.Some? && qualified in Compiled(raw) then qualified else RuleKey(None, table.name);
    CompiledIsConfigured(raw, key);
    var i :| 0 <= i < |raw| && ParseKey(raw[i].0) == key && Compiled(raw)[key] == Trim(raw[i].1);
    KeysAreSpellable(raw[i].0);
  }

  /**
   A rule can be configured for a reference exactly when its name is spelled by a key: it has no backtick in it, no
   white space around it and no capital, and no dot either unless a spellable schema stands before it.
   */
  lemma {:induction false} RuledExactlyWhenSpellable(table: TableRef)
    ensures (exists raw: seq<(string, string)> :: ValidUpTo(raw, |raw|) && LookupRule(Compiled(raw), table).Some?)
       <==> CanBeRuled(table)
  {
    hide Compiled, LookupRule, CanBeRuled, Valid;
    if CanBeRuled(table) {
      var _ := SpellableIsRuled(table);
    }
    forall raw: seq<(string, string)> | ValidUpTo(raw, |raw|) && LookupRule(Compiled(raw), table).Some?
      ensures CanBeRuled(table)
    {
      RuledIsSpellable(raw, table);
    }
  }

  // ----- Statements that reach the failing names ------------------------------------------------------------------

  const SELECT := Lexeme(Word, "SELECT")
  const STAR := Lexeme(Punct, "*")
  const FROM := Lexeme(Word, "FROM")

  /** `SELECT*FROM` in front of a statement's rest. */
  lemma {:induction false} SelectChains(rest: seq<Lexeme>)
    requires Chain(rest, "", false) && !Has(Concat(rest), 0, IsIdentContinue)
    ensures var tokens := [SELECT, STAR, FROM] + rest;
            && Chain(tokens, "", false) && ExecEnd(tokens, false) == ExecEnd(rest, false)
            && Concat(tokens) == "SELECT*FROM" + Concat(rest)
  {
    hide Chain, Fits, ExecEnd;
    SelectFits();
    Onto(FROM, rest, false);
    Onto(STAR, [FROM] + rest, false);
    Onto(SELECT, [STAR] + ([FROM] + rest), false);
    Three(SELECT, STAR, FROM, rest);
    SelectText(Concat(rest));
  }

  lemma {:induction false} SelectFits()
    ensures Fits(Word, "SELECT") && Fits(Punct, "*") && Fits(Word, "FROM")
  {
    assert "*"[0] == '*';
  }

  lemma {:induction false} SelectText(rest: string)
    ensures "SELECT" + ("*" + ("FROM" + rest)) == "SELECT*FROM" + rest
  {
  }

  lemma {:induction false} SelectSigs(rest: seq<Lexeme>)
    ensures Significant([SELECT, STAR, FROM] + rest, 0, 0)
         == [Sig(Word, "SELECT", 0, 6, 0), Sig(Punct, "*", 6, 7, 0), Sig(Word, "FROM", 7, 11, 0)]
            + Significant(rest, 11, 0)
  {
    hide Significant;
    NextSig(FROM, rest, 7, 0);
    NextSig(STAR, [FROM] + rest, 6, 0);
    NextSig(SELECT, [STAR] + ([FROM] + rest), 0, 0);
    Three(SELECT, STAR, FROM, rest);
    Three(Sig(Word, "SELECT", 0, 6, 0), Sig(Punct, "*", 6, 7, 0), Sig(Word, "FROM", 7, 11, 0),
          Significant(rest, 11, 0));
  }

  /** `SELECT*FROM` a quoted table is eligible, with the name as it is normalized. */
  lemma {:induction false} QuotedTableIsEligible(quoted: string)
    requires Fits(QuotedIdent, quoted)
    ensures Analyze("SELECT*FROM" + quoted)
         == Eligible(Analysis(TableRef(None, NormalizeIdent(quoted)), 11 + |quoted|, None))
  {
    var tokens := [SELECT, STAR, FROM, Lexeme(QuotedIdent, quoted)];
    QuotedTableLexes(quoted);
    QuotedTableSigs(quoted);
    QuotedTableIsAccepted(Significant(tokens, 0, 0), quoted, 11);
  }

  lemma {:induction false} QuotedTableLexes(quoted: string)
    requires Fits(QuotedIdent, quoted)
    ensures Lex("SELECT*FROM" + quoted, false) == Some([SELECT, STAR, FROM, Lexeme(QuotedIdent, quoted)])
  {
    var name := Lexeme(QuotedIdent, quoted);
    Onto(name, [], false);
    assert [name] + [] == [name] && quoted + "" == quoted;
    SelectChains([name]);
    assert [SELECT, STAR, FROM] + [name] == [SELECT, STAR, FROM, name];
    ChainIsLex([SELECT, STAR, FROM, name], false);
  }

  function QuotedTable(quoted: string, at: nat): seq<Sig> {
    [Sig(Word, "SELECT", 0, 6, 0), Sig(Punct, "*", 6, 7, 0), Sig(Word, "FROM", 7, 11, 0),
     Sig(QuotedIdent, quoted, at, at + |quoted|, 0)]
  }

  lemma {:induction false} QuotedTableSigs(quoted: string)
    ensures Significant([SELECT, STAR, FROM, Lexeme(QuotedIdent, quoted)], 0, 0) == QuotedTable(quoted, 11)
  {
    hide Significant;
    var name := Lexeme(QuotedIdent, quoted);
    NoSigs(11 + |quoted|, 0);
    NextSig(name, [], 11, 0);
    assert [name] + [] == [name];
    SelectSigs([name]);
    assert [SELECT, STAR, FROM] + [name] == [SELECT, STAR, FROM, name];
  }

  lemma {:induction false} Capitals(word: string)
    requires forall i :: 0 <= i < |word| ==> 'A' <= word[i] <= 'Z'
    ensures Upper(word) == word
  {
    assert forall i :: 0 <= i < |word| ==> Upper(word)[i] == word[i];
  }

  lemma {:induction false} QuotedTableIsAccepted(sigs: seq<Sig>, quoted: string, at: nat)
    requires sigs == QuotedTable(quoted, at)
    ensures AnalyzeTokens(sigs)
         == Eligible(Analysis(TableRef(None, NormalizeIdent(quoted)), at + |quoted|, None))
  {
    Capitals("SELECT");
    Capitals("FROM");
    FirstIs(sigs, 0, IsSeparator, 4);
    FirstIs(sigs, 0, IsSetOperator, 4);
    FirstIs(sigs, 0, IsFrom, 2);
    FirstIs(sigs, 3, IsFrom, 4);
    FirstIs(sigs, 4, IsClause, 4);
    assert BodyOf(sigs) == sigs;
    assert ReferenceAt(sigs, 3) == Ok(Reference(TableRef(None, NormalizeIdent(quoted)), at + |quoted|, 4));
    assert !OpensSubquery(sigs);
  }

  /** A table whose name holds a dot, one whose name holds a backtick, and one whose name is padded: each is read from
      an eligible statement, and no configuration whatever has a rule for it. */
  lemma {:induction false} UnruledTables()
    ensures forall quoted, raw :: quoted in {"`a.b`", "`a``b`", "` a`"} && ValidUpTo(raw, |raw|) ==>
              && Analyze("SELECT*FROM" + quoted).Eligible?
              && LookupRule(Compiled(raw), Analyze("SELECT*FROM" + quoted).analysis.table) == None
  {
    forall quoted, raw | quoted in {"`a.b`", "`a``b`", "` a`"} && ValidUpTo(raw, |raw|)
      ensures Analyze("SELECT*FROM" + quoted).Eligible?
      ensures LookupRule(Compiled(raw), Analyze("SELECT*FROM" + quoted).analysis.table) == None
    {
      hide Analyze, Compiled, Valid, NormalizeIdent, Fits, Spellable;
      UnspellableNames(quoted);
      QuotedTableIsEligible(quoted);
      RuledExactlyWhenSpellable(TableRef(None, NormalizeIdent(quoted)));
    }
  }

  lemma {:induction false} UnspellableNames(quoted: string)
    requires quoted in {"`a.b`", "`a``b`", "` a`"}
    ensures Fits(QuotedIdent, quoted) && !SpellableAlone(NormalizeIdent(quoted))
  {
    if quoted == "`a.b`" {
      DottedName();
    } else if quoted == "`a``b`" {
      TickedName();
    } else {
      PaddedName();
    }
  }

  lemma {:induction false} WithoutOuterTicks(name: string)
    requires name != "" && name[0] != '`' && name[|name| - 1] != '`'
    ensures TrimTicks("`" + name + "`") == name
  {
    var quoted := "`" + name + "`";
    assert quoted[1..] == name + "`" && (name + "`")[..|name|] == name;
    assert TrimTicks(name) == name;
    assert TrimTicks(name + "`") == name;
  }

  lemma {:induction false} DottedName()
    ensures Fits(QuotedIdent, "`a.b`") && !SpellableAlone(NormalizeIdent("`a.b`"))
  {
    var quoted, name := "`a.b`", "a.b";
    assert quoted == "`" + name + "`";
    WithoutOuterTicks(name);
    assert QuoteEnd(quoted, 4, '`') == Some(5);
    assert QuoteEnd(quoted, 3, '`') == Some(5);
    assert QuoteEnd(quoted, 2, '`') == Some(5);
    assert name[1..] == ".b" && ".b"[1..] == "b" && "b"[1..] == "";
    assert Undouble("b") == "b" && Undouble(".b") == ".b";
    assert Undouble(name) == name;
    assert Lower(name)[1] == '.';
  }

  lemma {:induction false} TickedName()
    ensures Fits(QuotedIdent, "`a``b`") && !SpellableAlone(NormalizeIdent("`a``b`"))
  {
    var quoted, name := "`a``b`", "a``b";
    assert quoted == "`" + name + "`";
    WithoutOuterTicks(name);
    assert QuoteEnd(quoted, 5, '`') == Some(6);
    assert QuoteEnd(quoted, 4, '`') == Some(6);
    assert QuoteEnd(quoted, 2, '`') == Some(6);
    assert name[1..] == "``b" && name[1..][2..] == "b" && "b"[1..] == "";
    assert Undouble("b") == "b";
    assert Undouble("``b") == "`b";
    assert Undouble(name) == "a`b";
    assert Lower("a`b")[1] == '`';
  }

  lemma {:induction false} PaddedName()
    ensures Fits(QuotedIdent, "` a`") && !SpellableAlone(NormalizeIdent("` a`"))
  {
    var quoted, name := "` a`", " a";
    assert quoted == "`" + name + "`";
    WithoutOuterTicks(name);
    assert QuoteEnd(quoted, 3, '`') == Some(4);
    assert QuoteEnd(quoted, 2, '`') == Some(4);
    assert name[1..] == "a" && "a"[1..] == "";
    assert Undouble("a") == "a";
    assert Undouble(name) == name;
    TrimmedEnds(name);
    assert Lower(name) == name;
  }
}

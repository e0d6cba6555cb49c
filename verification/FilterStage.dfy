/** The pipeline stage that rewrites a command, or leaves it alone. */
module FilterStage {
  import opened Common
  import opened Framing
  import opened SqlShape
  import opened RowFilter
  import opened Splicing
  import Analyzer

  const COM_QUERY: byte := 0x03
  const COM_STMT_PREPARE: byte := 0x16

  datatype FilterOutcome = NotApplicable | Rewritten(table: string, forwarded: string) | Skipped(reason: SkipReason)

  /** Per-command scratch space, read by the log once the response completes. */
  class StageContext {
    var filter: FilterOutcome

    constructor ()
      ensures filter == NotApplicable
    {
      filter := NotApplicable;
    }
  }

  /** Bytes as the characters the tokenizer reads, and back. */
  function TextOfBytes(bytes: seq<byte>): (r: string)
    ensures |r| == |bytes| && IsBytes(r)
  {
    seq(|bytes|, i requires 0 <= i < |bytes| => bytes[i] as char)
  }

  predicate IsBytes(s: string) {
    forall i :: 0 <= i < |s| ==> s[i] < '\U{100}'
  }

  function BytesOfText(s: string): (r: seq<byte>)
    requires IsBytes(s)
    ensures |r| == |s|
  {
    seq(|s|, i requires 0 <= i < |s| => s[i] as int)
  }

  lemma {:induction false} BytesRoundTrip(s: string)
    requires IsBytes(s)
    ensures TextOfBytes(BytesOfText(s)) == s
  {
  }

  predicate CarriesSql(payload: seq<byte>) {
    payload != [] && (payload[0] == COM_QUERY || payload[0] == COM_STMT_PREPARE)
  }

  function StatementOf(payload: seq<byte>): string
    requires CarriesSql(payload)
  {
    TextOfBytes(payload[1..])
  }

  /** The rule for a statement, if it is eligible and has one. */
  function RuleFor(rules: Rules, sql: string): Option<string> {
    match Analyze(sql)
    case Eligible(analysis) => LookupRule(rules, analysis.table)
    case _ => None
  }

  lemma {:induction false} BytesConcat(a: string, b: string)
    requires IsBytes(a) && IsBytes(b)
    ensures IsBytes(a + b)
  {
  }

  lemma {:induction false} SpliceIsBytes(sql: string, analysis: Analysis, text: string)
    requires InRange(sql, analysis) && IsBytes(sql) && IsBytes(text)
    ensures IsBytes(Splice(sql, analysis, text))
  {
    match analysis.whereClause
    case None =>
      var head, rest := sql[..analysis.insertAt], Remainder(sql[analysis.insertAt..]);
      BytesConcat(head, " WHERE (");
      BytesConcat(head + " WHERE (", text);
      BytesConcat(head + " WHERE (" + text, ")");
      BytesConcat(head + " WHERE (" + text + ")", rest);
    case Some(extent) =>
      var head, condition := sql[..extent.afterKeyword], sql[extent.afterKeyword..extent.end];
      var rest := Remainder(sql[extent.end..]);
      BytesConcat(head, " (");
      BytesConcat(head + " (", condition);
      BytesConcat(head + " (" + condition, ") AND (");
      BytesConcat(head + " (" + condition + ") AND (", text);
      BytesConcat(head + " (" + condition + ") AND (" + text, ")");
      BytesConcat(head + " (" + condition + ") AND (" + text + ")", rest);
  }

  predicate RulesAreBytes(rules: Rules) {
    forall key :: key in rules ==> IsBytes(rules[key])
  }

  lemma {:induction false} EligibleInRange(sql: string)
    requires Analyze(sql).Eligible?
    ensures InRange(sql, Analyze(sql).analysis)
  {
    var cut := EligibleCut(sql);
    Chains.LexChains(sql, false);
    Unconcat(cut.before, cut.condition, cut.after);
    CutsText(sql, Analyze(sql).analysis, cut);
  }

  /** The rewritten payload of a command whose statement has a rule. */
  function RewrittenPayload(payload: seq<byte>, rules: Rules): seq<byte>
    requires CarriesSql(payload) && RulesAreBytes(rules) && RuleFor(rules, StatementOf(payload)).Some?
  {
    var sql := StatementOf(payload);
    var analysis := Analyze(sql).analysis;
    EligibleInRange(sql);
    SpliceIsBytes(sql, analysis, RuleFor(rules, sql).value);
    [payload[0]] + BytesOfText(Splice(sql, analysis, RuleFor(rules, sql).value))
  }

  /** A command is replaced exactly when it has a rule and keeps its number of packets. */
  predicate Replaces(payload: seq<byte>, rules: Rules)
    requires RulesAreBytes(rules)
  {
    && CarriesSql(payload) && RuleFor(rules, StatementOf(payload)).Some?
    && PacketCount(|RewrittenPayload(payload, rules)|) == PacketCount(|payload|)
  }

  /** What the stage forwards. */
  function PassedOn(payload: seq<byte>, rules: Rules): seq<byte>
    requires RulesAreBytes(rules)
  {
    if Replaces(payload, rules) then RewrittenPayload(payload, rules) else payload
  }

  /** What the log is told about the filter: the reason the analysis gave, if giving up is to be counted. */
  function FilterAfter(payload: seq<byte>, rules: Rules, wanted: bool, before: FilterOutcome): FilterOutcome
    requires RulesAreBytes(rules)
  {
    if !CarriesSql(payload) then before
    else
      match Analyze(StatementOf(payload))
      case NoTable => before
      case Skip(reason) => if wanted then Skipped(reason) else before
      case Eligible(analysis) =>
        if RuleFor(rules, StatementOf(payload)).None? then before
        else if !Replaces(payload, rules) then Skipped(PacketCountChanged)
        else Rewritten(analysis.table.name, TextOfBytes(RewrittenPayload(payload, rules)[1..]))
  }

  /**
   Applies the row filter to a command. `wanted` is the loose test whether a ruled table's name occurs in the
   statement, which decides only whether giving up is counted.
   */
  method Apply(payload: seq<byte>, rules: Rules, wanted: bool, ctx: StageContext) returns (out: Option<seq<byte>>)
    requires RulesAreBytes(rules)
    modifies ctx
    ensures out == if Replaces(payload, rules) then Some(RewrittenPayload(payload, rules)) else None
    ensures out.Some? ==> ctx.filter.Rewritten? && TextOfBytes(out.value[1..]) == ctx.filter.forwarded
                          && out.value[0] == payload[0]
    ensures ctx.filter == FilterAfter(payload, rules, wanted, old(ctx.filter))
  {
    if !CarriesSql(payload) {
      return None;
    }
    var sql := StatementOf(payload);
    var shape := Analyzer.AnalyzeStatement(sql);
    match shape
    case NoTable =>
      return None;
    case Skip(reason) =>
      if wanted {
        ctx.filter := Skipped(reason);
      }
      return None;
    case Eligible(analysis) =>
      var rule := LookupRule(rules, analysis.table);
      if rule.None? {
        return None;
      }
      EligibleInRange(sql);
      SpliceIsBytes(sql, analysis, rule.value);
      var spliced := BuildSplice(sql, analysis, rule.value);
      var rewritten := [payload[0]] + BytesOfText(spliced);
      if PacketCount(|rewritten|) != PacketCount(|payload|) {
        ctx.filter := Skipped(PacketCountChanged);
        return None;
      }
      assert rewritten[1..] == BytesOfText(spliced);
      BytesRoundTrip(spliced);
      ctx.filter := Rewritten(analysis.table.name, spliced);
      return Some(rewritten);
  }

  /** Whatever the stage does, the command keeps its number of packets, hence every later sequence id. */
  lemma {:induction false} StageKeepsPacketCount(payload: seq<byte>, rules: Rules)
    requires RulesAreBytes(rules)
    ensures PacketCount(|PassedOn(payload, rules)|) == PacketCount(|payload|)
    ensures payload != [] ==> PassedOn(payload, rules) != [] && PassedOn(payload, rules)[0] == payload[0]
  {
  }

  /**
   The statement of a COM_QUERY and of a COM_STMT_PREPARE is filtered, and of no other command. Of two rules for one
   name, the one with a schema applies to references with that schema, the bare one to all others.
   */
  lemma {:induction false} QualifiedRuleWins(code: byte, sql: string, schema: string, name: string, own: string,
                                             bare: string)
    requires IsBytes(sql) && IsBytes(own) && IsBytes(bare)
    requires Analyze(sql).Eligible? && Analyze(sql).analysis.table.name == name
    ensures InRange(sql, Analyze(sql).analysis)
    ensures var rules := map[RuleKey(Some(schema), name) := own, RuleKey(None, name) := bare];
            var analysis, payload := Analyze(sql).analysis, [code] + BytesOfText(sql);
            var spliced := Splice(sql, analysis, if analysis.table.schema == Some(schema) then own else bare);
            && RulesAreBytes(rules) && IsBytes(spliced)
            && PassedOn(payload, rules)
               == if (code == 0x03 || code == 0x16) && PacketCount(1 + |spliced|) == PacketCount(1 + |sql|)
                  then [code] + BytesOfText(spliced) else payload
  {
    hide Analyze, Splice, BytesOfText, InRange;
    var rules := map[RuleKey(Some(schema), name) := own, RuleKey(None, name) := bare];
    var analysis := Analyze(sql).analysis;
    EligibleInRange(sql);
    SpliceIsBytes(sql, analysis, own);
    SpliceIsBytes(sql, analysis, bare);
    StatementBehindCode(code, sql);
  }

  lemma {:induction false} StatementBehindCode(code: byte, sql: string)
    requires IsBytes(sql)
    ensures var payload := [code] + BytesOfText(sql); |payload| == 1 + |sql| && TextOfBytes(payload[1..]) == sql
  {
    BytesRoundTrip(sql);
    assert ([code] + BytesOfText(sql))[1..] == BytesOfText(sql);
  }
}

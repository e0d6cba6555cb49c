/**
 The policy file: which rows a user may see of which table, how a reference is matched to a policy,
 and how a permitted value survives being rendered into SQL.
 */
module Policies {
  import opened Common

  datatype PermittedValue = PermittedText(text: string) | PermittedInteger(number: int)

  datatype Policy = Policy(database: string, table: string, column: string,
                           permitted: seq<PermittedValue>)

  /** The normalised form used for matching: both parts lowercased. */
  datatype TableKey = TableKey(database: string, table: string)

  function KeyOf(database: string, table: string): TableKey {
    TableKey(Lower(database), Lower(table))
  }

  datatype PolicySet = PolicySet(byUser: map<string, map<TableKey, Policy>>)

  datatype Decision = Unrestricted | Restricted(policy: Policy) | Unresolvable

  /** The policy governing a reference; an unqualified one resolves against the current database. */
  function Lookup(policies: PolicySet, user: string, database: Option<string>, table: string,
                  current: Option<string>): Decision
  {
    if user !in policies.byUser then
      Unrestricted
    else
      var resolved := if database.Some? then database else current;
      match resolved
      case None => Unresolvable
      case Some(name) =>
        var tables := policies.byUser[user];
        var key := KeyOf(name, table);
        if key in tables then Restricted(tables[key]) else Unrestricted
  }

  /** No respelling of a table name in another ASCII case changes the decision. */
  lemma {:induction false} RespellingNeverEvades(policies: PolicySet, user: string, database: string, table: string,
                                                 otherDatabase: string, otherTable: string, current: Option<string>)
    requires SameIgnoringCase(database, otherDatabase) && SameIgnoringCase(table, otherTable)
    ensures Lookup(policies, user, Some(database), table, current)
         == Lookup(policies, user, Some(otherDatabase), otherTable, current)
    ensures Lookup(policies, user, None, table, Some(database))
         == Lookup(policies, user, Some(otherDatabase), otherTable, current)
  {
    assert KeyOf(database, table) == KeyOf(otherDatabase, otherTable);
  }

  // ----- Loading ---------------------------------------------------------------------------------

  datatype RawValue = RawText(text: string) | RawInteger(number: int) | RawOversize(written: string)
                    | RawUnsupported(kind: string)

  datatype RawPolicy = RawPolicy(user: Option<string>, database: Option<string>,
                                 table: Option<string>, column: Option<string>,
                                 values: Option<seq<RawValue>>)

  datatype LoadError = MissingField | EmptyField | PaddedField | NonAsciiField | EmptyPermittedSet
                     | RefusedValue | DuplicatePolicy

  predicate Padded(text: string) {
    text != Trim(text)
  }

  function RequiredIdentifier(field: Option<string>): Result<string, LoadError> {
    match field
    case None => Err(MissingField)
    case Some(text) =>
      if text == "" then Err(EmptyField)
      else if Padded(text) then Err(PaddedField)
      else Ok(text)
  }

  function RequiredAsciiIdentifier(field: Option<string>): Result<string, LoadError> {
    var text :- RequiredIdentifier(field);
    if forall i :: 0 <= i < |text| ==> text[i] < '\U{80}' then Ok(text) else Err(NonAsciiField)
  }

  predicate HasQuotePair(text: string) {
    exists i :: 0 <= i < |text| - 1 && text[i] == '\'' && text[i + 1] == '\''
  }

  function AcceptValue(value: RawValue): Result<PermittedValue, LoadError> {
    match value
    case RawText(text) =>
      if '\0' in text || '\\' in text || HasQuotePair(text) then Err(RefusedValue)
      else Ok(PermittedText(text))
    case RawInteger(number) => Ok(PermittedInteger(number))
    case RawOversize(_) => Err(RefusedValue)
    case RawUnsupported(_) => Err(RefusedValue)
  }

  /** What the loader promises of one entry of the file and the policy made from it. */
  ghost predicate Faithful(entry: RawPolicy, user: string, policy: Policy) {
    && entry.user == Some(user) && entry.database == Some(policy.database)
    && entry.table == Some(policy.table) && entry.column == Some(policy.column)
    && entry.values.Some? && |entry.values.value| == |policy.permitted| > 0
    && (forall i {:trigger policy.permitted[i]} :: 0 <= i < |policy.permitted| ==>
          AcceptValue(entry.values.value[i]) == Ok(policy.permitted[i]))
  }

  method LoadValues(values: seq<RawValue>) returns (r: Result<seq<PermittedValue>, LoadError>)
    ensures r.Ok? ==> |r.value| == |values|
    ensures r.Ok? ==> forall i :: 0 <= i < |values| ==> AcceptValue(values[i]) == Ok(r.value[i])
    ensures r.Err? ==> exists i :: 0 <= i < |values| && AcceptValue(values[i]).Err?
  {
    var out := [];
    for at := 0 to |values|
      invariant |out| == at
      invariant forall i :: 0 <= i < at ==> AcceptValue(values[i]) == Ok(out[i])
    {
      match AcceptValue(values[at])
      case Ok(value) => out := out + [value];
      case Err(error) => return Err(error);
    }
    return Ok(out);
  }

  ghost predicate WellFormedEntry(entry: RawPolicy) {
    && RequiredIdentifier(entry.user).Ok?
    && RequiredAsciiIdentifier(entry.database).Ok?
    && RequiredAsciiIdentifier(entry.table).Ok?
    && RequiredAsciiIdentifier(entry.column).Ok?
    && entry.values.Some? && entry.values.value != []
    && forall i :: 0 <= i < |entry.values.value| ==> AcceptValue(entry.values.value[i]).Ok?
  }

  ghost predicate Collide(a: RawPolicy, b: RawPolicy) {
    && a.user == b.user && a.database.Some? && b.database.Some? && a.table.Some? && b.table.Some?
    && KeyOf(a.database.value, a.table.value) == KeyOf(b.database.value, b.table.value)
  }

  method LoadEntry(entry: RawPolicy) returns (r: Result<Policy, LoadError>)
    ensures r.Ok? <==> WellFormedEntry(entry)
    ensures r.Ok? ==> entry.user.Some? && Faithful(entry, entry.user.value, r.value)
  {
    var user := RequiredIdentifier(entry.user);
    if user.Err? { return Err(user.error); }
    var database := RequiredAsciiIdentifier(entry.database);
    if database.Err? { return Err(database.error); }
    var table := RequiredAsciiIdentifier(entry.table);
    if table.Err? { return Err(table.error); }
    var column := RequiredAsciiIdentifier(entry.column);
    if column.Err? { return Err(column.error); }
    if entry.values.None? { return Err(MissingField); }
    if entry.values.value == [] { return Err(EmptyPermittedSet); }
    var permitted := LoadValues(entry.values.value);
    if permitted.Err? { return Err(permitted.error); }
    return Ok(Policy(database.value, table.value, column.value, permitted.value));
  }

  /** A field that is there, not empty and not padded, and in ASCII where names are folded. */
  predicate PlainField(field: Option<string>, folded: bool) {
    && field.Some? && field.value != ""
    && !IsWhitespace(field.value[0]) && !IsWhitespace(field.value[|field.value| - 1])
    && (folded ==> forall i :: 0 <= i < |field.value| ==> field.value[i] < '\U{80}')
  }

  /** An integer, or a text without NUL, backslash and adjacent quotes. */
  predicate PlainValue(value: RawValue) {
    || value.RawInteger?
    || (value.RawText?
        && (forall i :: 0 <= i < |value.text| ==> value.text[i] != '\0' && value.text[i] != '\\')
        && forall i :: 0 <= i < |value.text| - 1 ==> !(value.text[i] == value.text[i + 1] == '\''))
  }

  function AsConfigured(value: RawValue): PermittedValue
    requires PlainValue(value)
  {
    if value.RawInteger? then PermittedInteger(value.number) else PermittedText(value.text)
  }

  lemma {:induction false} ValueIsAcceptedExactly(value: RawValue)
    ensures AcceptValue(value).Ok? <==> PlainValue(value)
    ensures PlainValue(value) ==> AcceptValue(value) == Ok(AsConfigured(value))
  {
  }

  /** Which entries load: every field plain, and at least one permitted value, all of them plain. */
  lemma {:induction false} EntryIsAcceptedExactly(entry: RawPolicy)
    ensures WellFormedEntry(entry) <==>
              && PlainField(entry.user, false) && PlainField(entry.database, true) && PlainField(entry.table, true)
              && PlainField(entry.column, true)
              && entry.values.Some? && entry.values.value != []
              && forall i :: 0 <= i < |entry.values.value| ==> PlainValue(entry.values.value[i])
  {
    forall field: Option<string>
      ensures RequiredIdentifier(field).Ok? <==> PlainField(field, false)
      ensures RequiredAsciiIdentifier(field).Ok? <==> PlainField(field, true)
    {
      if field.Some? {
        TrimmedEnds(field.value);
      }
    }
    forall value: RawValue
      ensures AcceptValue(value).Ok? <==> PlainValue(value)
    {
      ValueIsAcceptedExactly(value);
    }
  }

  ghost predicate Stored(entry: RawPolicy, byUser: map<string, map<TableKey, Policy>>) {
    && entry.user.Some? && entry.database.Some? && entry.table.Some?
    && entry.user.value in byUser
    && var key := KeyOf(entry.database.value, entry.table.value);
       key in byUser[entry.user.value] && Faithful(entry, entry.user.value, byUser[entry.user.value][key])
  }

  /** Some entry among the first `n` is the source of this policy. */
  ghost predicate Justified(entries: seq<RawPolicy>, n: nat, user: string, key: TableKey, policy: Policy)
    requires n <= |entries|
  {
    && key == KeyOf(policy.database, policy.table)
    && exists i :: 0 <= i < n && Faithful(entries[i], user, policy)
  }

  ghost predicate AllWellFormed(entries: seq<RawPolicy>, n: nat)
    requires n <= |entries|
  {
    forall i :: 0 <= i < n ==> WellFormedEntry(entries[i])
  }

  ghost predicate NoneCollide(entries: seq<RawPolicy>, n: nat)
    requires n <= |entries|
  {
    forall i, j :: 0 <= i < j < n ==> !Collide(entries[i], entries[j])
  }

  /** The policies loaded from the first `n` entries are exactly those entries. */
  ghost predicate Loaded(entries: seq<RawPolicy>, n: nat, byUser: map<string, map<TableKey, Policy>>)
    requires n <= |entries|
  {
    && (forall i :: 0 <= i < n ==> Stored(entries[i], byUser))
    && (forall user, key :: user in byUser && key in byUser[user] ==>
          Justified(entries, n, user, key, byUser[user][key]))
  }

  function AddPolicy(byUser: map<string, map<TableKey, Policy>>, user: string, policy: Policy)
    : map<string, map<TableKey, Policy>>
  {
    var tables := if user in byUser then byUser[user] else map[];
    byUser[user := tables[KeyOf(policy.database, policy.table) := policy]]
  }

  lemma {:induction false} StoredStays(entry: RawPolicy, byUser: map<string, map<TableKey, Policy>>, user: string,
                                       policy: Policy)
    requires Stored(entry, byUser)
    requires user in byUser ==> KeyOf(policy.database, policy.table) !in byUser[user]
    ensures Stored(entry, AddPolicy(byUser, user, policy))
    ensures !(entry.user == Some(user)
              && KeyOf(entry.database.value, entry.table.value) == KeyOf(policy.database, policy.table))
  {
  }

  lemma {:induction false} JustifiedStays(entries: seq<RawPolicy>, n: nat, user: string, key: TableKey, policy: Policy)
    requires n < |entries| && Justified(entries, n, user, key, policy)
    ensures Justified(entries, n + 1, user, key, policy)
  {
    var i :| 0 <= i < n && Faithful(entries[i], user, policy);
    assert 0 <= i < n + 1 && Faithful(entries[i], user, policy);
  }

  lemma {:induction false} LoadedGrows(entries: seq<RawPolicy>, n: nat, byUser: map<string, map<TableKey, Policy>>,
                                       user: string, policy: Policy)
    requires n < |entries| && Loaded(entries, n, byUser) && NoneCollide(entries, n)
    requires Faithful(entries[n], user, policy)
    requires user in byUser ==> KeyOf(policy.database, policy.table) !in byUser[user]
    ensures Loaded(entries, n + 1, AddPolicy(byUser, user, policy)) && NoneCollide(entries, n + 1)
  {
    var grown := AddPolicy(byUser, user, policy);
    forall i | 0 <= i < n + 1
      ensures Stored(entries[i], grown)
      ensures i < n ==> !Collide(entries[i], entries[n])
    {
      if i < n {
        StoredStays(entries[i], byUser, user, policy);
      }
    }
    forall u, k | u in grown && k in grown[u]
      ensures Justified(entries, n + 1, u, k, grown[u][k])
    {
      if u == user && k == KeyOf(policy.database, policy.table) {
        assert Faithful(entries[n], u, grown[u][k]);
      } else {
        JustifiedStays(entries, n, u, k, byUser[u][k]);
      }
    }
  }

  lemma {:induction false} DuplicateCollides(entries: seq<RawPolicy>, n: nat,
                                             byUser: map<string, map<TableKey, Policy>>, user: string, policy: Policy)
    requires n < |entries| && Loaded(entries, n, byUser)
    requires Faithful(entries[n], user, policy)
    requires user in byUser && KeyOf(policy.database, policy.table) in byUser[user]
    ensures !NoneCollide(entries, n + 1)
  {
    var key := KeyOf(policy.database, policy.table);
    var existing := byUser[user][key];
    assert Justified(entries, n, user, key, existing);
    var i :| 0 <= i < n && Faithful(entries[i], user, existing);
    assert Collide(entries[i], entries[n]);
  }

  /**
   Loading succeeds exactly when every entry is well formed and no two entries of one user name the
   same table up to ASCII case; the loaded set then holds exactly the entries of the file.
   */
  method Load(entries: seq<RawPolicy>) returns (r: Result<PolicySet, LoadError>)
    ensures r.Ok? <==> AllWellFormed(entries, |entries|) && NoneCollide(entries, |entries|)
    ensures r.Ok? ==> Loaded(entries, |entries|, r.value.byUser)
  {
    var byUser: map<string, map<TableKey, Policy>> := map[];
    assert Loaded(entries, 0, byUser);
    for at := 0 to |entries|
      invariant Loaded(entries, at, byUser) && AllWellFormed(entries, at) && NoneCollide(entries, at)
    {
      var loaded := LoadEntry(entries[at]);
      if loaded.Err? {
        assert !AllWellFormed(entries, |entries|);
        return Err(loaded.error);
      }
      assert AllWellFormed(entries, at + 1);
      var user, policy := entries[at].user.value, loaded.value;
      if user in byUser && KeyOf(policy.database, policy.table) in byUser[user] {
        DuplicateCollides(entries, at, byUser, user, policy);
        assert !NoneCollide(entries, |entries|);
        return Err(DuplicatePolicy);
      }
      LoadedGrows(entries, at, byUser, user, policy);
      byUser := AddPolicy(byUser, user, policy);
    }
    return Ok(PolicySet(byUser));
  }

  /** A loaded policy restricts every reference to its table, however the reference spells it. */
  lemma {:induction false} StoredPolicyRestricts(entry: RawPolicy, policies: PolicySet, database: string, table: string,
                                                 current: Option<string>)
    requires Stored(entry, policies.byUser)
    requires SameIgnoringCase(database, entry.database.value)
    requires SameIgnoringCase(table, entry.table.value)
    ensures var decision := Lookup(policies, entry.user.value, Some(database), table, current);
            decision.Restricted? && Faithful(entry, entry.user.value, decision.policy)
  {
    assert KeyOf(database, table) == KeyOf(entry.database.value, entry.table.value);
  }

  // ----- Permitted values as SQL literals ----------------------------------------------------------

  /** The rewriter doubles every single quote of a configured value. */
  function EscapeQuotes(text: string): string {
    if text == "" then ""
    else if text[0] == '\'' then "''" + EscapeQuotes(text[1..])
    else [text[0]] + EscapeQuotes(text[1..])
  }

  /** The renderer doubles a lone quote, passes a pair through and never touches a backslash. */
  function RenderContent(content: string): string {
    if content == "" then ""
    else if content[0] != '\'' then [content[0]] + RenderContent(content[1..])
    else if |content| >= 2 && content[1] == '\'' then "''" + RenderContent(content[2..])
    else "''" + RenderContent(content[1..])
  }

  /** What the backend's lexer makes of `\c` when backslash escapes are enabled. */
  function Unescape(c: char): char {
    match c
    case '0' => '\0'
    case 'n' => '\n'
    case 't' => '\t'
    case 'r' => '\r'
    case 'b' => '\U{8}'
    case 'Z' => '\U{1A}'
    case _ => c
  }

  /**
   Reads a quoted literal from just after its opening quote up to the closing quote, which must be
   the last character. `None` when the literal is unterminated or ends early.
   */
  function ReadLiteral(backslashEscapes: bool, source: string): Option<string> {
    if source == "" then None
    else if source[0] == '\'' then
      if |source| >= 2 && source[1] == '\'' then Prepend('\'', ReadLiteral(backslashEscapes, source[2..]))
      else if |source| == 1 then Some("")
      else None
    else if backslashEscapes && source[0] == '\\' then
      if |source| >= 2 then Prepend(Unescape(source[1]), ReadLiteral(backslashEscapes, source[2..]))
      else None
    else Prepend(source[0], ReadLiteral(backslashEscapes, source[1..]))
  }

  function Prepend(c: char, rest: Option<string>): Option<string> {
    match rest
    case None => None
    case Some(text) => Some([c] + text)
  }

  /** What the backend compares against when the rewriter is given `text` as a permitted value. */
  function SeenByBackend(backslashEscapes: bool, text: string): Option<string> {
    ReadLiteral(backslashEscapes, RenderContent(EscapeQuotes(text)) + "'")
  }

  lemma {:induction false} RenderKeepsEscaped(text: string)
    ensures RenderContent(EscapeQuotes(text)) == EscapeQuotes(text)
  {
    if text != "" {
      RenderKeepsEscaped(text[1..]);
      var escaped := EscapeQuotes(text);
      if text[0] == '\'' {
        assert escaped[2..] == EscapeQuotes(text[1..]);
      } else {
        assert escaped[1..] == EscapeQuotes(text[1..]);
      }
    }
  }

  lemma {:induction false} ReadsBack(backslashEscapes: bool, text: string)
    requires backslashEscapes ==> '\\' !in text
    ensures ReadLiteral(backslashEscapes, EscapeQuotes(text) + "'") == Some(text)
  {
    if text != "" {
      ReadsBack(backslashEscapes, text[1..]);
      var source := EscapeQuotes(text) + "'";
      if text[0] == '\'' {
        assert source[2..] == EscapeQuotes(text[1..]) + "'";
      } else {
        assert source[1..] == EscapeQuotes(text[1..]) + "'";
      }
      assert [text[0]] + text[1..] == text;
    }
  }

  /** Twice the characters that are not quotes, plus the quotes. */
  function Weight(source: string): nat {
    if source == "" then 0
    else (if source[0] == '\'' then 1 else 2) + Weight(source[1..])
  }

  lemma {:induction false} EscapedWeight(text: string)
    ensures Weight(EscapeQuotes(text) + "'") == 2 * |text| + 1
  {
    if text == "" {
      assert EscapeQuotes(text) + "'" == "'";
      assert "'"[1..] == "";
    } else {
      EscapedWeight(text[1..]);
      var source := EscapeQuotes(text) + "'";
      if text[0] == '\'' {
        assert source[1..][1..] == EscapeQuotes(text[1..]) + "'";
        assert source[0] == source[1] == source[1..][0] == '\'';
      } else {
        assert source[1..] == EscapeQuotes(text[1..]) + "'";
      }
    }
  }

  /** With backslash escapes on, every character read costs weight 2 and an escape costs 3. */
  lemma {:induction false} ReadingCosts(source: string)
    requires ReadLiteral(true, source).Some?
    ensures 2 * |ReadLiteral(true, source).value| + 1 + (if '\\' in source then 1 else 0) <= Weight(source)
    decreases |source|
  {
    if source[0] == '\'' {
      if |source| >= 2 {
        ReadingCosts(source[2..]);
        assert source[1..][1..] == source[2..];
        assert source == [source[0], source[1]] + source[2..];
      } else {
        assert source == "'";
      }
    } else if source[0] == '\\' {
      ReadingCosts(source[2..]);
      assert source[1..][1..] == source[2..];
    } else {
      ReadingCosts(source[1..]);
      assert source == [source[0]] + source[1..];
    }
  }

  lemma {:induction false} EscapingKeepsBackslashes(text: string)
    ensures '\\' in text ==> '\\' in EscapeQuotes(text)
  {
    if text != "" {
      EscapingKeepsBackslashes(text[1..]);
      assert text == [text[0]] + text[1..];
    }
  }

  /**
   The value the backend compares against is the configured value under both settings of
   `NO_BACKSLASH_ESCAPES` exactly when the value holds no backslash.
   */
  lemma {:induction false} ValueSurvivesExactlyWithoutBackslash(text: string)
    ensures SeenByBackend(false, text) == Some(text)
    ensures SeenByBackend(true, text) == Some(text) <==> '\\' !in text
  {
    RenderKeepsEscaped(text);
    ReadsBack(false, text);
    if '\\' !in text {
      ReadsBack(true, text);
    } else if SeenByBackend(true, text).Some? {
      EscapingKeepsBackslashes(text);
      ReadingCosts(EscapeQuotes(text) + "'");
      EscapedWeight(text);
    }
  }

  /** Every text value the loader accepts reaches the backend unchanged, in either mode. */
  lemma {:induction false} AcceptedValueSurvives(value: RawValue, backslashEscapes: bool)
    requires value.RawText? && AcceptValue(value).Ok?
    ensures AcceptValue(value).value == PermittedText(value.text)
    ensures SeenByBackend(backslashEscapes, value.text) == Some(value.text)
  {
    ValueSurvivesExactlyWithoutBackslash(value.text);
  }

  /**
   Parsing what the renderer printed gives back a text literal exactly when its content holds no
   two consecutive quotes (backslash escapes off). A client literal outside this family changes
   when its statement is rewritten.
   */
  lemma {:induction false} ClientTextSurvivesExactlyWithoutPairs(content: string)
    ensures ReadLiteral(false, RenderContent(content) + "'") == Some(content) <==> !HasQuotePair(content)
    ensures ReadLiteral(false, RenderContent(content) + "'").Some?
    ensures |ReadLiteral(false, RenderContent(content) + "'").value| <= |content|
    decreases |content|
  {
    if content != "" {
      var source := RenderContent(content) + "'";
      if content[0] != '\'' {
        ClientTextSurvivesExactlyWithoutPairs(content[1..]);
        assert source[1..] == RenderContent(content[1..]) + "'";
        PairInTail(content);
      } else if |content| >= 2 && content[1] == '\'' {
        ClientTextSurvivesExactlyWithoutPairs(content[2..]);
        assert source[2..] == RenderContent(content[2..]) + "'";
        assert content[0] == content[0 + 1] == '\'';
      } else {
        ClientTextSurvivesExactlyWithoutPairs(content[1..]);
        assert source[2..] == RenderContent(content[1..]) + "'";
        PairInTail(content);
      }
    }
  }

  lemma {:induction false} PairInTail(content: string)
    requires content != "" && !(|content| >= 2 && content[0] == '\'' && content[1] == '\'')
    ensures HasQuotePair(content) <==> HasQuotePair(content[1..])
    ensures forall tail: string :: [content[0]] + tail == content <==> tail == content[1..]
  {
    if HasQuotePair(content) {
      var i :| 0 <= i < |content| - 1 && content[i] == '\'' && content[i + 1] == '\'';
      assert content[1..][i - 1] == '\'' && content[1..][i - 1 + 1] == '\'';
    }
    if HasQuotePair(content[1..]) {
      var i :| 0 <= i < |content[1..]| - 1 && content[1..][i] == '\'' && content[1..][i + 1] == '\'';
      assert content[i + 1] == '\'' && content[i + 1 + 1] == '\'';
    }
    forall tail: string
      ensures [content[0]] + tail == content <==> tail == content[1..]
    {
      assert ([content[0]] + tail)[1..] == tail;
      assert [content[0]] + content[1..] == content;
    }
  }
}

# Proofs about the two MySQL proxies

This project models the logic of the repository's two MySQL proxies in Dafny and proves what that logic is for.
`dafny verify dfyconfig.toml` checks all of it. Each module is the file of the same name.

**The policy proxy** (milestone 2) lets a user see only permitted rows. It parses a statement, walks it against an
allowlist, wraps each table that carries a policy in a guard `(SELECT * FROM t WHERE c IN (...)) AS t`, and walks the
result again with an independent verifier.

- `SqlAst`, `Semantics`: the accepted part of the AST, and its meaning. A query means a table of rows or a fault,
  given a database, a list of visible CTEs and the rows of the enclosing queries. The meaning of operators,
  functions, aggregation, joins, set operations, ordering and limits is a parameter (`Dialect`), so the theorems hold
  for any such meaning.
- `Policies`: the policy file, lookup, and how a permitted value survives being rendered as a literal.
- `Walk` specifies the walk with its three visitors as functions; `Walker` is the walk as the source has it, a class
  that pushes and truncates its scope and appends to its list, proved equal to `Walk`.
- `GuardProofs`, `WalkMeaning`, `WrapProofs`, `Rewrite`: what a guard means, the induction over the AST, the wrapper
  against the collector and the verifier, and the theorems about rewriting a statement.
- `Enumeration`: a grammar and a list of occurrences written without the walk, for queries and for every other
  statement, and the proof that the walk finds them.
- `VerifierAlone`: exactly when the verifier is sound without the allowlist.
- `Session`: identity, current database, the gate, and transcripts of whole sessions.
- `VersionGate`, `Continuations`: the scanner for version-gated comments, compared with the other proxy's tokenizer,
  and exactly which texts leave the two in step.

**The logging proxy** (project3) relays the protocol, logs each command, and can add a predicate to a statement.

- `Lexer`, `MaximalMunch`, `Tokenize`, `Chains`: the tokenizer as a function, as a declarative segmentation and as the
  source's loops, and the chains of tokens used to reason about edited text.
- `SqlShape`, `Analyzer`, `OneTable`: which statements are eligible, as a function, as loops, and as a shape over the
  tokens that does not mention the analysis.
- `RowFilter`, `RuleNames`, `Splicing`, `Reanalysis`, `Precedence`, `Leaks`, `FilterStage`: predicate validation,
  rules, which tables a rule can be written for, the splice, and that the splice changes nothing but the condition:
  token by token, under a second analysis, and under the grammar of NOT, AND, XOR and OR. `Leaks` holds the accepted
  statements on which it does change more.
- `Digest`, `DigestProofs`, `DigestMeaning`: the statement digest, its fixed point, and exactly what it keeps apart.
- `Framing`, `PacketIo`, `Cursors`: packets and messages, the buffered reader under any chunking and cancellation.
- `Response`, `Replies`, `Relay`: the relay as a state machine on message heads, a grammar of well-formed replies
  (MySQL Internals Manual, sections 14.1.3, 14.6.4.1 and 14.7.4.1), and the relay as loops over reader and writer.
- `Lockstep`: the command loop of a connection.
- `LogAccounting`, `LogWriter`: the log writer with concurrent emitters, as a step system and as a class.
- `Calendar`: day numbers and RFC 3339 timestamps.
- `Handshake`: the negotiation of capabilities between client, proxy and backend.

What is I/O in the source is a parameter or a choice here: a stream is the bytes still to come, each read takes any
part of them, a write may fail after any prefix, an emitter may act between any two steps of the writer.

## What the proofs brought to light

- The verifier alone accepts a guard around a relation with hints such as TABLESAMPLE. Hints on recognised guards are
  all it misses: without them it is sound by itself, and the allowlist walk, which the source runs on the client's
  statement first, excludes them (`VerifierAlone`).
- The comment at `analyze.rs:360-366` says that mistracking by the gate scanner errs only toward flagging. It does
  not: after an escaped quote it can miss a gate (`VersionGate.EscapedQuoteHidesGate`). The two lexers agree on all
  text in which no literal escapes its quote and no control byte follows two dashes (`VersionGate.LexersAgree`).
  That is not necessary, as escapes can cancel; the exact condition for agreeing on a text and on whatever plain lines
  follow it is where the scanner stands at its end (`Continuations.AgreeExactlyInStep`).
- Rendering a client's literal with doubled quotes loses one of them; the exact condition is
  `Policies.ClientTextSurvivesExactlyWithoutPairs`. The loader refuses such values in policies.
- A splice inside a version-gated comment is exact only if the predicate has no adjacent `*` and `/`; the condition
  in `Splicing.SpliceIsExact` is exact. Such statements are accepted and such predicates pass validation: in
  ``SELECT*FROM/*!`t`*/`` the predicate `a*/b` ends the comment (`Leaks.GatedPredicateEscapes`,
  `Leaks.QuotientEndsGate`).
- A client condition with unbalanced parentheses, such as `a) OR (b`, regroups: the predicate then binds to its last
  part only. Balanced parentheses are the exact condition (`Precedence.ConditionStaysWhole`). The analysis, which does
  not balance them, accepts such statements before and after the splice (`Leaks.AcceptedConditionLeaks`);
  ``SELECT*FROM`t`WHERE`a`)OR(`b` `` is one (`Leaks.SplitConditionLeaks`).
- No rule can be written for a table whose name, as a statement gives it, holds a backtick, is padded with white space,
  or holds a dot without a schema before it; for every other name one can (`RuleNames.RuledExactlyWhenSpellable`). Of
  two configured keys that parse alike, the one iterated last wins silently. `NoInsertionPoint` never occurs.
- A name that begins or ends with a backtick of its own loses it (`OneTable.QuotedNameIsReadBack`).
- A digest does not tell a `?` of the statement from a literal, nor `(...)` spelled out from a list of literals; apart
  from that two statements share one exactly when they should (`DigestMeaning.SameDigestExactly`).
- A reply to a generic command that starts with an EOF packet is refused as malformed, which ends the connection on the
  ordinary answers to COM_SET_OPTION and COM_DEBUG (`Lockstep.EofCommandsAreNotFollowed`). The exact condition is
  `Replies.MalformedExactlyWhenBrokenOff`.
- A `next_message` that is given up may have taken packets out of the stream: exactly when the message's first packet
  had arrived and announced another (`PacketIo.CancellationLosesExactly`). The command loop is not affected: the two
  other branches of its `select!` return (`proxy.rs:263-275`), so it never reads again from a reader it has cancelled,
  and losing the race costs this caller nothing.
- The current databases of proxy and backend are the same over every run exactly for users with a policy. A user
  without one may change the backend's database with a statement the proxy does not analyse
  (`Session.TogetherExactlyWithoutStraying`, `Session.DatabasesPart`).

## Model

| member | source | states |
|---|---|---|
| Rewrite.MeaningIsPreserved | milestones/milestone-2/mysql-proxy-project/openspec-workspace/src/rewrite.rs:177-485 | for every accepted query that is forwarded (original or rewritten) and every database, running what is forwarded equals running the client's own query on the database with each policy table cut to its permitted rows; all join kinds, derived tables, set operations, CTEs and subqueries in any expression position |
| WalkMeaning.SameQuery | milestones/milestone-2/mysql-proxy-project/openspec-workspace/src/analyze.rs:832-884 | the induction behind it: a visitor that leaves nothing unguarded relates the meaning of the walked query on one database to that of the query on another the policies cannot tell apart, in any CTE environment and under any outer rows |
| WalkMeaning.SameFactor | milestones/milestone-2/mysql-proxy-project/openspec-workspace/src/analyze.rs:1136-1236 | the same for a table factor: a wrapped relation, a derived table, a nested join |
| WalkMeaning.SameExpr | milestones/milestone-2/mysql-proxy-project/openspec-workspace/src/analyze.rs:1311-1462 | the same for an expression with subqueries inside |
| WalkMeaning.SameUnroll | milestones/milestone-2/mysql-proxy-project/openspec-workspace/src/analyze.rs:832-902 | the same for a recursive CTE, for every number of unrollings |
| WalkMeaning.ShadowedMeansCte | milestones/milestone-2/mysql-proxy-project/openspec-workspace/src/analyze.rs:604-616 | a reference counts as shadowed exactly when it is unqualified and the backend's name resolution finds a CTE of that name |
| GuardProofs.GuardReadsPermittedRows | milestones/milestone-2/mysql-proxy-project/openspec-workspace/src/rewrite.rs:382-485 | the guard subquery evaluates to exactly the permitted rows of whatever its relation reads; it fails exactly when reading fails, or when there is a row to test and the policy column is missing or ambiguous |
| GuardProofs.PredicateDecides | milestones/milestone-2/mysql-proxy-project/openspec-workspace/src/rewrite.rs:470-485 | the injected predicate is true of a row exactly when the row's policy column equals some permitted value |
| Rewrite.VerifierIsSound | milestones/milestone-2/mysql-proxy-project/openspec-workspace/src/rewrite.rs:495-630 | with no reference to the wrapper: if the verifier reports an accepted query fully guarded, any two databases that agree on the permitted rows give it the same result |
| WalkMeaning.GuardAgrees | milestones/milestone-2/mysql-proxy-project/openspec-workspace/src/rewrite.rs:575-630 | a recognised guard reads the same rows from two such databases whatever its name resolves to, so ignoring CTE scope in recognition is harmless |
| VerifierAlone.WalkedIsAcceptedExactlyWhenPlain | milestones/milestone-2/mysql-proxy-project/openspec-workspace/src/rewrite.rs:495-570 | of what the verifier walks without refusing, the allowlist accepts exactly the queries none of whose recognised guards carries hints: hints on guards are all the verifier misses |
| VerifierAlone.VerifierAloneIsSound | milestones/milestone-2/mysql-proxy-project/openspec-workspace/src/rewrite.rs:495-630 | without the allowlist: a query the verifier finds fully guarded, and none of whose recognised guards carries hints, gives the same result on any two databases that agree on the permitted rows |
| VerifierAlone.GuardIsSoundExactlyWithoutHints | milestones/milestone-2/mysql-proxy-project/openspec-workspace/src/rewrite.rs:575-630 | for every recognised guard of a policy with values: it, and the query that reads through it and that the verifier finds clean, mean the same on all agreeing databases of every dialect exactly when the relation of the guard has no hints |
| VerifierAlone.VerifierAloneAcceptsHintedGuard | milestones/milestone-2/mysql-proxy-project/openspec-workspace/src/rewrite.rs:575-630 | a concrete statement: TABLESAMPLE inside a guard is found clean by the verifier, refused by the allowlist, and answered differently by two agreeing databases |
| Rewrite.ForwardedQueryDisclosesNothing | milestones/milestone-2/mysql-proxy-project/openspec-workspace/src/rewrite.rs:177-316 | whatever a user with a policy is forwarded for a query gives the same answer on any two databases that agree on the rows that user may see |
| Enumeration.StatementIsEnumerated | milestones/milestone-2/mysql-proxy-project/openspec-workspace/src/analyze.rs:616-830 | every statement, not only a query, is accepted exactly when an independently written grammar allows it, and then its list is every table occurrence: the targets of a write, the tables a statement describes, and whatever its relations, expressions and source queries read |
| Enumeration.OtherStatementsForwardOnlyUnrestricted | milestones/milestone-2/mysql-proxy-project/openspec-workspace/src/rewrite.rs:177-316 | a statement other than a query is forwarded for a user with a policy exactly when it is allowed and none of its occurrences, listed without the walk, is restricted or unresolvable, and then as its original text; the refusal is given exactly otherwise |
| Rewrite.AcceptedQueryIsHandled | milestones/milestone-2/mysql-proxy-project/openspec-workspace/src/rewrite.rs:177-374 | wrapped output always verifies: on an accepted query the wrapper refuses exactly an unresolvable reference, the re-walk never refuses, the final net never fires, and the outcome is decided by the sites and the version gate alone |
| WrapProofs.WrapQuery | milestones/milestone-2/mysql-proxy-project/openspec-workspace/src/rewrite.rs:319-374 | the wrapper follows the collector through any query and scope: same sites, identity where nothing is restricted, and output that passes both the allowlist and the verifier |
| WrapProofs.GuardIsAllowed | milestones/milestone-2/mysql-proxy-project/openspec-workspace/src/rewrite.rs:382-463 | the allowlist accepts the guard around every relation it accepts |
| Rewrite.WrapperSeesCollectedSites | milestones/milestone-2/mysql-proxy-project/openspec-workspace/src/analyze.rs:569-600 | the wrapper is shown exactly the sites the collector listed, although it replaces nodes while walking |
| Rewrite.ComputeCoverage | milestones/milestone-2/mysql-proxy-project/openspec-workspace/src/rewrite.rs:137-166 | the loop yields unresolvable if any site is, else restricted if any site is, whatever their order |
| Rewrite.LoadedPoliciesAreSound | milestones/milestone-2/mysql-proxy-project/openspec-workspace/src/policy.rs:373-449 | every policy set the loader produces satisfies the assumption the theorems make, for every user and current database |
| Enumeration.EnumerationIsComplete | milestones/milestone-2/mysql-proxy-project/openspec-workspace/src/analyze.rs:460-471 | a query is accepted exactly when an independently written grammar allows it, and then its collected list is every table occurrence in reading order, flagged as a CTE reference exactly when it is one; the wrapper is shown the same list |
| Enumeration.FindsInFactor | milestones/milestone-2/mysql-proxy-project/openspec-workspace/src/analyze.rs:1136-1236 | the enumeration theorem for table factors under any visible names |
| Enumeration.FindsInExpr | milestones/milestone-2/mysql-proxy-project/openspec-workspace/src/analyze.rs:1311-1462 | the enumeration theorem for expressions under any visible names |
| Walker.Walker.VisitQuery | milestones/milestone-2/mysql-proxy-project/openspec-workspace/src/analyze.rs:832-884 | the imperative walk, with its scope pushed and truncated in place, its growing site list and its unguarded flag, does to its fields and returns exactly what the specification walk says, and restores the scope |
| Walker.Walker.VisitCtes | milestones/milestone-2/mysql-proxy-project/openspec-workspace/src/analyze.rs:832-902 | after the CTE loop the scope holds every CTE name, each pushed before its body when recursive and after it otherwise |
| Walker.Walker.VisitSetExpr | milestones/milestone-2/mysql-proxy-project/openspec-workspace/src/analyze.rs:904-932 | same, for set operations and parenthesised queries |
| Walker.Walker.VisitSelect | milestones/milestone-2/mysql-proxy-project/openspec-workspace/src/analyze.rs:934-1030 | same, for a SELECT |
| Walker.Walker.VisitFactor | milestones/milestone-2/mysql-proxy-project/openspec-workspace/src/analyze.rs:1136-1236 | same, for a table factor, including the structural guard test of the verifier |
| Walker.Walker.VisitExpr | milestones/milestone-2/mysql-proxy-project/openspec-workspace/src/analyze.rs:1311-1532 | same, for an expression or function call |
| Walker.AllPolicyRefsGuarded | milestones/milestone-2/mysql-proxy-project/openspec-workspace/src/rewrite.rs:495-512 | running the imperative walk with the verifier yields the verdict the soundness theorem is about |
| Walker.CollectSites | milestones/milestone-2/mysql-proxy-project/openspec-workspace/src/analyze.rs:460-549 | running the imperative walk with the collector yields the list the enumeration theorem is about |
| Policies.Load | milestones/milestone-2/mysql-proxy-project/openspec-workspace/src/policy.rs:373-449 | loading succeeds exactly when every entry is well formed and no two collide on user and normalised table; then each entry is stored faithfully and nothing is stored that no entry justifies |
| Policies.EntryIsAcceptedExactly | milestones/milestone-2/mysql-proxy-project/openspec-workspace/src/policy.rs:373-449 | an entry is accepted exactly when user, database, table and column are given, not empty, not padded and (the latter three) ASCII, and there is at least one permitted value, each an integer or a text without NUL, backslash and adjacent quotes |
| Policies.ValueIsAcceptedExactly | milestones/milestone-2/mysql-proxy-project/openspec-workspace/src/policy.rs:759-827 | and each such value is stored as it was configured |
| Policies.StoredPolicyRestricts | milestones/milestone-2/mysql-proxy-project/openspec-workspace/src/policy.rs:473-496 | a stored entry restricts every reference to its table in any ASCII case, with that entry's own column and values |
| Policies.RespellingNeverEvades | milestones/milestone-2/mysql-proxy-project/openspec-workspace/src/policy.rs:166-182 | changing the ASCII case of a database or table name never changes the decision |
| Policies.ValueSurvivesExactlyWithoutBackslash | milestones/milestone-2/mysql-proxy-project/openspec-workspace/src/rewrite.rs:51-81 | quote doubling followed by rendering reads back as the value when backslash escapes are off, and when they are on exactly if the value has no backslash |
| Policies.AcceptedValueSurvives | milestones/milestone-2/mysql-proxy-project/openspec-workspace/src/policy.rs:759-802 | every text value the loader accepts is read back by the backend as exactly that value in either mode |
| Policies.ClientTextSurvivesExactlyWithoutPairs | milestones/milestone-2/mysql-proxy-project/openspec-workspace/src/analyze.rs:284-300 | rendering a literal of the client's preserves it exactly when it holds no doubled quote; otherwise a quote is lost, never gained |
| Session.ProxySession.Authenticate | milestones/milestone-2/mysql-proxy-project/openspec-workspace/src/session.rs:951-996 | the identity is the user part of the account the backend resolves the claimed name to and reports; the claimed name is only kept beside it; on any failure there is no identity and no backend |
| Session.ProxySession.OnInit | milestones/milestone-2/mysql-proxy-project/openspec-workspace/src/session.rs:1181-1214 | the proxy's current database changes exactly when the backend selects the database, so the two stay equal for a user with a policy |
| Session.ProxySession.OnQuery | milestones/milestone-2/mysql-proxy-project/openspec-workspace/src/session.rs:1100-1179 | a statement reaches the backend only through the gate with the identity and database of the session; a refusal touches nothing; the answer and the databases of proxy and backend afterwards are those of the run model |
| Session.ProxySession.Serve | milestones/milestone-2/mysql-proxy-project/openspec-workspace/src/session.rs:1100-1214 | a whole session of any authenticated user answers the transcript of the run model and ends with its databases, keeping the session invariant |
| Session.TranscriptsAgree | milestones/milestone-2/mysql-proxy-project/openspec-workspace/src/session.rs:872-889 | over any sequence of SELECT and database-change commands, two backends that agree on the permitted rows give the client identical transcripts |
| Session.AnswersAreFiltered | milestones/milestone-2/mysql-proxy-project/openspec-workspace/src/session.rs:872-889 | each answered query of such a session is the client's own query over the filtered backend |
| Session.TogetherExactlyWithoutStraying | milestones/milestone-2/mysql-proxy-project/openspec-workspace/src/session.rs:1117-1214 | over any run, the proxy and the backend have the same current database at every point exactly when at no point a user without a policy sends an unanalysed statement that leaves the backend in another database than the recorded one |
| Session.AlwaysTogetherExactlyWithPolicy | milestones/milestone-2/mysql-proxy-project/openspec-workspace/src/session.rs:1117-1214 | over every run against every backend the two databases end up the same, exactly for the users with a policy |
| Session.DatabasesPart | milestones/milestone-2/mysql-proxy-project/openspec-workspace/src/session.rs:1117-1179 | a concrete run of a user without a policy: one unanalysed statement, after which the backend is in a database the proxy has not recorded |
| Session.HostIsStripped | milestones/milestone-2/mysql-proxy-project/openspec-workspace/src/session.rs:1000-1005 | the host is what follows the last at-sign, so a user name may itself hold one |
| VersionGate.ContainsExecutableComment | milestones/milestone-2/mysql-proxy-project/openspec-workspace/src/analyze.rs:382-454 | the scanner ends on every input and returns what its state machine says |
| VersionGate.LexersAgree | milestones/milestone-2/mysql-proxy-project/openspec-workspace/src/analyze.rs:382-454 | on every input the project3 tokenizer accepts, the scanner reports a gate exactly when the tokenizer emits one, unless a backslash escapes the quote of a string literal or a control byte other than white space follows two dashes |
| VersionGate.CleanTextIsSeenAlike | milestones/milestone-2/mysql-proxy-project/openspec-workspace/src/analyze.rs:360-366 | input without backslashes and without control bytes other than white space meets that condition |
| VersionGate.TokenIsPassed | milestones/project3/src/sql/tokenizer.rs:74-333 | on such input the scanner passes each ordinary token from normal state to normal state |
| VersionGate.EscapedQuoteHidesGate | milestones/milestone-2/mysql-proxy-project/openspec-workspace/src/analyze.rs:360-366 | a concrete input with a backslash shows the scanner missing a gate the tokenizer sees, contrary to the comment in the source |
| Continuations.AgreeExactlyInStep | milestones/milestone-2/mysql-proxy-project/openspec-workspace/src/analyze.rs:382-454 | for every input the tokenizer accepts, escaped quotes or not: scanner and tokenizer agree on it followed by any lines on which they would agree by themselves, if and only if both have seen a gate in it, or neither has and the scanner ends it outside literals and block comments |
| Continuations.EscapesMayCancel | milestones/milestone-2/mysql-proxy-project/openspec-workspace/src/analyze.rs:360-366 | a literal with escaped quotes after which the two are in step, so an escaped quote alone does not decide |
| Tokenize.Tokenize | milestones/project3/src/sql/tokenizer.rs:74-333 | the imperative loop fails exactly when the lexer specification has no reading, and then at the position where reading stops; otherwise its tokens have the specified kinds and texts and their spans tile the input |
| Chains.StopsAtUnterminated | milestones/project3/src/sql/tokenizer.rs:325-332 | the reported position is the start of a token that is not terminated, behind a chain of whole tokens, or the end of the text inside a gate |
| Tokenize.ReadToken | milestones/project3/src/sql/tokenizer.rs:79-323 | one turn of the loop, with its nested scanning loops, reads exactly the token the specification reads there |
| Tokenize.SkipQuoted | milestones/project3/src/sql/tokenizer.rs:179-216 | the quote-scanning loop ends where the specification says, or reports an unterminated quote |
| Tokenize.SkipNumber | milestones/project3/src/sql/tokenizer.rs:272-303 | the number-scanning loops end where the specification says |
| MaximalMunch.LexIsSegmentation | milestones/project3/src/sql/tokenizer.rs:74-333 | lexing equals a declarative segmentation: texts concatenate to the input, each fits its kind, and each may be followed by what follows it |
| MaximalMunch.SegmentationIsUnique | milestones/project3/src/sql/tokenizer.rs:74-333 | an input has at most one such segmentation |
| MaximalMunch.StepFits | milestones/project3/src/sql/tokenizer.rs:74-333 | a token the lexer takes fits its kind and may stand before the rest |
| MaximalMunch.FitsSteps | milestones/project3/src/sql/tokenizer.rs:74-333 | conversely a text that fits and may stand before the rest is exactly what the lexer takes: it only looks forward |
| Chains.ChainIsLex | milestones/project3/src/sql/tokenizer.rs:74-333 | a chain of tokens that ends outside any gate is the lexer's own output on its text, and conversely |
| Chains.Retarget | milestones/project3/src/sql/tokenizer.rs:74-333 | a chain stays a chain before other text when its last token may stand there |
| Analyzer.AnalyzeStatement | milestones/project3/src/sql/analyze.rs:147-304 | the imperative analysis returns exactly the specified shape: eligible with table, insertion point and WHERE extent, or the reason it is not |
| OneTable.EligibleExactlyOnOneTable | milestones/project3/src/sql/analyze.rs:147-304 | stated over the significant tokens alone: a statement is eligible exactly when it is a tokenizable single SELECT with no subquery and no set operation, one FROM, and behind it one table name with at most an alias, up to a clause word or the end |
| OneTable.TableIsBehindFrom | milestones/project3/src/sql/analyze.rs:220-303 | then the table is the name behind the FROM, or the schema and the name on either side of the dot; the insertion point is the end of the reference; the condition runs from the WHERE, if that is the first clause, to the next clause word or the end |
| OneTable.ReasonsAreExact | milestones/project3/src/sql/analyze.rs:147-304 | each other verdict is given exactly when its reason holds: not tokenizable, no SELECT, several statements, no table or DUAL, a first reference that runs into a comma or a join; everything else is of no supported structure |
| OneTable.QuotedNameIsReadBack | milestones/project3/src/sql/analyze.rs:107-111 | a name written between backticks with its own doubled is read as that name in lower case exactly when no backtick stands at its edge |
| OneTable.BareNameIsReadBack | milestones/project3/src/sql/analyze.rs:107-111 | a name without backticks is read as itself in lower case |
| Analyzer.CollectSignificant | milestones/project3/src/sql/analyze.rs:118-144 | the loop keeps the significant tokens, each with the parenthesis depth it stands at |
| Analyzer.FindSubquery | milestones/project3/src/sql/analyze.rs:175-182 | the pairwise scan finds a parenthesis directly before SELECT or WITH exactly when there is one |
| SqlShape.SigRecords | milestones/project3/src/sql/analyze.rs:118-144 | a recorded position is the true byte offset of its token and the recorded depth its true depth |
| RowFilter.ValidatePredicate | milestones/project3/src/row_filter.rs:63-103 | validation passes exactly the non-empty, tokenizable predicates of harmless tokens with balanced parentheses; otherwise the error names the first offence |
| Precedence.ValidExactlyWhenReadable | milestones/project3/src/row_filter.rs:63-103 | stated without the depth counter: a predicate is valid exactly when it is tokenized, holds no comment, gate marker, separator or placeholder, and has a reading with paired parentheses |
| RowFilter.Compile | milestones/project3/src/row_filter.rs:142-154 | compiling succeeds exactly when every predicate is valid, names the first bad one otherwise, and maps each parsed key to its last trimmed predicate |
| RowFilter.AppliedRuleIsValid | milestones/project3/src/row_filter.rs:142-178 | every predicate a lookup yields has passed validation |
| RowFilter.CompiledIsConfigured | milestones/project3/src/row_filter.rs:142-154 | every compiled rule comes from a configured one |
| RuleNames.RuledExactlyWhenSpellable | milestones/project3/src/row_filter.rs:113-182 | some configuration has a rule for a table reference exactly when its name has no backtick in it, no white space around it and no capital, and no dot either unless a spellable schema stands before it |
| RuleNames.QuotedTableIsEligible | milestones/project3/src/sql/analyze.rs:105-112 | selecting from any quoted table is eligible, with the normalised name as its table |
| RuleNames.UnruledTables | milestones/project3/src/row_filter.rs:113-182 | three statements whose tables no configuration can have a rule for: a dot, a backtick and padding inside the quotes |
| RowFilter.BuildSplice | milestones/project3/src/row_filter.rs:214-248 | the buffer the splice assembles is the original text with the clause inserted at the recorded offsets |
| Splicing.SpliceIsExact | milestones/project3/src/row_filter.rs:207-248 | re-tokenizing the spliced text of an eligible statement gives exactly the original tokens with only the injected ones at the cut, if and only if the cut is not inside a version gate or the predicate has no adjacent star and slash |
| Splicing.EligibleCut | milestones/project3/src/sql/analyze.rs:263-303 | the offsets of an eligible analysis fall on token borders: after a name, and around the whole condition |
| Splicing.SpliceConcats | milestones/project3/src/row_filter.rs:214-248 | the spliced bytes are the bytes of the original tokens and the injected ones |
| Splicing.GateSensitivity | milestones/project3/src/sql/tokenizer.rs:83-93 | inside a gate, valid predicate tokens stay themselves exactly when they hold no adjacent star and slash |
| Splicing.CutIsUnique | milestones/project3/src/row_filter.rs:214-248 | the offsets of an analysis determine the token borders at which the statement is cut |
| Leaks.GatedPredicateEscapes | milestones/project3/src/row_filter.rs:207-248 | an accepted statement with its table inside a version gate, for which the splice is token-exact exactly for the valid predicates without an adjacent star and slash |
| Leaks.QuotientEndsGate | milestones/project3/src/row_filter.rs:72-102 | a predicate that passes validation and, injected into that statement, ends the gate inside itself: the tokens the splice is read as |
| Reanalysis.SplicedIsEligibleAgain | milestones/project3/src/sql/analyze.rs:147-304 | analysing the spliced statement is again eligible with the same table and insertion point, and its condition is exactly the grouped old condition AND the grouped predicate |
| Reanalysis.InsertionPointExists | milestones/project3/src/sql/analyze.rs:274-297 | the analysis never gives up for want of an insertion point |
| Precedence.NewConditionIsConjunction | milestones/project3/src/row_filter.rs:207-248 | for balanced condition and predicate the new WHERE text has exactly one reading under the NOT, AND, OR grammar, and it is the conjunction of the two |
| Precedence.NewConditionAddsPredicate | milestones/project3/src/row_filter.rs:207-248 | for the condition the re-analysis finds, a row passes exactly when it passes the old condition, if any, and the predicate |
| Precedence.ConditionStaysWhole | milestones/project3/src/row_filter.rs:207-248 | the old condition stays one group exactly when its parentheses are balanced |
| Precedence.UnbalancedConditionLeaks | milestones/project3/src/row_filter.rs:207-248 | a condition of two halves with a parenthesis closed behind the first and opened before the second has exactly one reading next to a predicate, which holds exactly when the first half does, or the second half and the predicate |
| Leaks.AcceptedConditionLeaks | milestones/project3/src/row_filter.rs:207-248 | whenever an accepted statement has such a condition, with halves and a valid predicate that open no subquery, and the splice is token-exact, the spliced statement is accepted again on the same table, and the condition found in it is read only that way: the predicate does not restrict the first half |
| Leaks.SplitConditionLeaks | milestones/project3/src/sql/analyze.rs:147-304 | one such statement is accepted, and its splice leaks for every valid predicate that opens no subquery |
| Precedence.BareConjunctionLeaks | milestones/project3/src/row_filter.rs:207-213 | without the added parentheses a condition with OR would let rows past the predicate |
| Precedence.ReadableIsBalanced | milestones/project3/src/row_filter.rs:72-102 | a token list has a reading exactly when its parentheses are balanced |
| Precedence.ReadingIsUnique | milestones/project3/src/row_filter.rs:207-248 | a token list has at most one reading |
| FilterStage.Apply | milestones/project3/src/row_filter.rs:262-309 | the stage replaces the payload exactly when the statement is eligible, a rule applies and the packet count stays, and then with the splice behind the same command byte; what the log is told is the rewritten text, the reason the analysis gave, or the changed packet count |
| FilterStage.StageKeepsPacketCount | milestones/project3/src/row_filter.rs:295-307 | whatever the stage does, the command keeps its packet count and its command byte |
| FilterStage.QualifiedRuleWins | milestones/project3/src/row_filter.rs:158-182 | with a rule for a schema and one for the bare name, what is forwarded for COM_QUERY and COM_STMT_PREPARE, and for no other command, is the splice of the schema's predicate into references with that schema and of the bare one into all others, if the packet count stays |
| Digest.ComputeDigest | milestones/project3/src/sql/digest.rs:123-133 | tokenizing, normalising, collapsing and joining in loops yields the specified digest text, or none when the statement does not tokenize |
| DigestMeaning.SameDigestExactly | milestones/project3/src/sql/digest.rs:53-133 | two statements share a digest exactly when they show the same tokens in the same order, literal lists aside, where by its kind a literal shows as a question mark, a reserved word in capitals, white space and comments not at all, and every other word, quoted identifier, punctuation and gate marker as itself |
| DigestMeaning.DigestReadsAsStatement | milestones/project3/src/sql/digest.rs:123-133 | and the text of a digest, read as a statement, shows the tokens of the statement it was made of, literal lists aside |
| Digest.CollapseLists | milestones/project3/src/sql/digest.rs:75-104 | the index loop replaces every list of literals by one marker and keeps everything else in order |
| Digest.Join | milestones/project3/src/sql/digest.rs:106-121 | the joining loop places a space exactly where the rule on neighbours asks for one |
| DigestProofs.DigestIsFixedPoint | milestones/project3/src/sql/digest.rs:123-133 | the digest of any statement tokenizes and digesting it again returns the same text |
| DigestProofs.SpacedOutChains | milestones/project3/src/sql/digest.rs:106-121 | printing normalised tokens and tokenizing the text gives back the same tokens |
| DigestProofs.ExpandedJoins | milestones/project3/src/sql/digest.rs:75-121 | the printed list marker is read as the five tokens it is spelled with |
| DigestProofs.StatementsShareDigest | milestones/project3/src/sql/digest.rs:123-133 | two statements that tokenize and differ only in a parenthesised list of literals have the same digest |
| DigestProofs.ListsShareDigest | milestones/project3/src/sql/digest.rs:75-104 | collapsing makes normalised texts equal that differ only in the length of a list |
| Framing.MessageRoundTrip | milestones/project3/src/protocol/framing.rs:107-143 | a written message of any length is read back with its payload, first sequence id and packet count, whatever follows |
| Framing.StreamRoundTrip | milestones/project3/src/protocol/framing.rs:107-212 | any sequence of written messages is read back as written |
| Framing.FramingIsInjective | milestones/project3/src/protocol/framing.rs:193-212 | two sequences of messages with equal bytes are equal |
| Framing.PacketsOfEncoded | milestones/project3/src/protocol/framing.rs:76-104 | packets are found again in front of any bytes |
| Framing.GatherCounts | milestones/project3/src/protocol/framing.rs:26-28 | a message read from any stream has the packet count its payload length calls for |
| Framing.Split | milestones/project3/src/protocol/framing.rs:193-212 | a message is cut into as many packets as counted, all full but the last |
| PacketIo.PacketReader.NextPacket | milestones/project3/src/protocol/framing.rs:76-104 | under any chunking and interruption the next packet is the front of the stream; an interrupted call loses nothing and a stream that breaks off is told from one that ended |
| PacketIo.PacketReader.NextMessage | milestones/project3/src/protocol/framing.rs:107-143 | under any chunking the next message is the specified one; a call that is given up has lost exactly the packets of the message that had been received whole, and one that may not wait is given up exactly when the received message is unfinished |
| PacketIo.CancellationLosesExactly | milestones/project3/src/protocol/framing.rs:107-143 | giving up a call can lose bytes of a stream exactly when the stream starts with a whole packet that announces a continuation |
| PacketIo.HalfMessageIsMisread | milestones/project3/src/protocol/framing.rs:107-143 | a concrete stream: after the loss of a full first packet, what is read next is another message |
| PacketIo.PacketReader.WaitForActivity | milestones/project3/src/protocol/framing.rs:148-158 | waiting leaves the stream as it is, and reports activity exactly when there is something left |
| PacketIo.PacketWriter.WritePacket | milestones/project3/src/protocol/framing.rs:179-190 | a packet is written whole, or an error leaves a prefix of it |
| PacketIo.PacketWriter.WriteMessage | milestones/project3/src/protocol/framing.rs:193-212 | the bytes written are those of the split message and the returned id is the first plus the packet count modulo 256 |
| Cursors.LenencRoundTrip | milestones/project3/src/protocol/framing.rs:287-296 | a length-encoded integer is read back wherever it stands, whatever follows it |
| Cursors.UintRoundTrip | milestones/project3/src/protocol/framing.rs:256-266 | a fixed-width little-endian integer is read back wherever it stands |
| Cursors.Cursor.LenencInt | milestones/project3/src/protocol/framing.rs:287-296 | the cursor reads what the specification reads and moves as far |
| Cursors.Cursor.UintLe | milestones/project3/src/protocol/framing.rs:256-266 | the cursor reads what the specification reads and moves as far |
| Replies.QueryReplyIsExact | milestones/project3/src/protocol/response.rs:197-337 | for every well-formed reply (any number of results and rows, either EOF convention) followed by anything, the relay uses exactly the reply's messages and reports its true rows, set count and affected rows, and of the ERR packet it ends with the code, the SQL state and the text |
| Replies.ErrIsRead | milestones/project3/src/protocol/response.rs:133-143 | an ERR packet laid out as the protocol says, in one packet or more, is reported with its code, its five-byte state if it has one, and as much of its text as the first packet holds |
| Replies.GenericIsExact | milestones/project3/src/protocol/response.rs:268-333 | the same from any progress made before, result by result |
| Replies.PreparedReplyIsExact | milestones/project3/src/protocol/response.rs:226-248 | the same for a PREPARE reply with any number of parameters and columns |
| Replies.FieldListIsExact | milestones/project3/src/protocol/response.rs:250-266 | the same for a field list: as many rows as definitions |
| Replies.RefusedPrepareIsExact | milestones/project3/src/protocol/response.rs:226-232 | an ERR packet in the place of a PREPARE reply is reported with its code, state and text |
| Replies.BrokenFieldListIsExact | milestones/project3/src/protocol/response.rs:250-259 | so is one that ends a field list, behind any number of definitions |
| Replies.RowIsNotAnEnd | milestones/project3/src/protocol/response.rs:116-131 | no row looks like an error or a terminator, however long its first value |
| Replies.MalformedExactlyWhenBrokenOff | milestones/project3/src/protocol/response.rs:273-330 | a result is refused as malformed exactly when its first message is empty or breaks off inside the column count its first byte announces |
| Replies.MalformedEndsAtBrokenHead | milestones/project3/src/protocol/response.rs:268-333 | a reply of any number of results is refused as malformed only at such a message |
| Replies.EofReplyIsMalformed | milestones/project3/src/protocol/response.rs:293-300 | hence an EOF packet, or the short OK packet in its place, is refused as the reply to a generic command |
| Lockstep.EofCommandsAreNotFollowed | milestones/project3/src/protocol/command.rs:83-104 | this hits COM_SET_OPTION and COM_DEBUG, which are forwarded and whose ordinary answers cannot be followed |
| Relay.RelayResponse | milestones/project3/src/protocol/response.rs:197-337 | the imperative relay takes from the backend and writes to the client exactly the same bytes, ends where the specification ends with the same outcome, and on any error has written a prefix of what it took |
| Relay.RelayIsExact | milestones/project3/src/protocol/response.rs:197-337 | on the bytes of a well-formed reply followed by anything, the relay stops at the end of the reply, has forwarded exactly its bytes with their sequence ids, and reports it truly |
| Relay.PreparedRelayIsExact | milestones/project3/src/protocol/response.rs:226-248 | the same on the bytes of a PREPARE reply |
| Relay.FieldListRelayIsExact | milestones/project3/src/protocol/response.rs:250-266 | the same on the bytes of a field list |
| Relay.RefusedPrepareRelayIsExact | milestones/project3/src/protocol/response.rs:226-232 | on the bytes of a refused PREPARE the relay forwards exactly the refusal and reports it |
| Relay.BrokenFieldListRelayIsExact | milestones/project3/src/protocol/response.rs:250-259 | the same on the bytes of a field list an error breaks off |
| Relay.NextMessageHead | milestones/project3/src/protocol/response.rs:99-114 | one whole message is forwarded, however many packets it has, and its first payload returned |
| Relay.SkipColumnDefinitions | milestones/project3/src/protocol/response.rs:178-194 | exactly the definitions and the EOF the convention calls for are forwarded |
| Relay.RelayRows | milestones/project3/src/protocol/response.rs:305-317 | rows are forwarded and counted up to the first message that ends them |
| Lockstep.Connection.CommandLoop | milestones/project3/src/proxy.rs:244-361 | over any run against a backend that answers well-formedly: at the loop head nothing of an answer is unread, refused commands never reach the backend, forwarded ones reach it in order, the client gets each answer in order, and each completed command has one record in order |
| Lockstep.Connection.Serve | milestones/project3/src/proxy.rs:282-360 | one command extends all four histories by what that command calls for, or the connection is lost with at most a prefix of it |
| Lockstep.Connection.Refuse | milestones/project3/src/proxy.rs:295-317 | a refused command is answered by the proxy with the next sequence id and recorded; if the answer cannot be written the connection ends without a record |
| Lockstep.Connection.Forward | milestones/project3/src/proxy.rs:319-360 | the sequence id returned for the possibly rewritten payload equals the reply id computed from the client's command, and the whole answer is relayed |
| Lockstep.ServesOneMore | milestones/project3/src/proxy.rs:244-361 | what one more command adds to the histories at the backend, the client and the log |
| Lockstep.WellFormedAnswers | milestones/project3/src/protocol/command.rs:96-104 | the bytes of a well-formed reply are such an answer to every command but the six with shapes of their own |
| Lockstep.ErrorAnswers | milestones/project3/src/protocol/response.rs:226-259 | the bytes of an ERR packet are an answer to COM_STMT_PREPARE and COM_FIELD_LIST, recorded with what it says |
| Lockstep.NothingAnswers | milestones/project3/src/protocol/command.rs:96-104 | COM_QUIT, COM_STMT_SEND_LONG_DATA and COM_STMT_CLOSE are answered by no bytes and only by none |
| Lockstep.OneMessageAnswers | milestones/project3/src/protocol/command.rs:96-104 | COM_STATISTICS is answered by exactly one message |
| Lockstep.RefusedExactly | milestones/project3/src/protocol/command.rs:83-95 | COM_CHANGE_USER, the replication commands, COM_TABLE_DUMP, COM_CONNECT_OUT and COM_CLONE, and nothing else, never reach the backend |
| Lockstep.PreparedAnswers | milestones/project3/src/protocol/response.rs:226-248 | so are the bytes of a PREPARE reply for COM_STMT_PREPARE |
| Lockstep.FieldListAnswers | milestones/project3/src/protocol/response.rs:250-266 | and the bytes of a field list for COM_FIELD_LIST |
| LogAccounting.StepKeepsAccount | milestones/project3/src/logging/writer.rs:32-191 | every step of an emitter or the writer, successful or failing, keeps the account, the report sum, the order and the no-loss invariant |
| LogAccounting.LogAccount | milestones/project3/src/logging/writer.rs:32-191 | over every run: emitted plus lost report lines equals written, staged, held, queued, in-flight and dropped; reported drops add up and never exceed the counter; written records keep acceptance order |
| LogAccounting.CleanShutdown | milestones/project3/src/logging/writer.rs:98-133 | a run without failures that shuts down has written every accepted record, and the last reported total makes up the rest of what was emitted |
| LogAccounting.TakenExactlyWithRoom | milestones/project3/src/logging/writer.rs:32-36 | over any run the queue takes exactly the records offered while it had room, in order, and without failures exactly the others are dropped or about to be counted |
| LogAccounting.NothingDroppedWithRoom | milestones/project3/src/logging/writer.rs:32-133 | a run in which every record meets room takes every record offered; without failures none is dropped, and a clean shutdown has written them all, in order |
| LogWriter.Log.Run | milestones/project3/src/logging/writer.rs:98-133 | the writer's loop, with emitters acting between any two of its steps, stays a run of the step system; it ends exactly when closed and drained and then satisfies the shutdown account |
| LogWriter.Log.Emit | milestones/project3/src/logging/writer.rs:32-36 | an offer made while there is room goes to the end of the queue and of what was accepted and nothing else changes; one made to a full queue changes neither and becomes a drop to be counted |
| LogWriter.Log.Stage | milestones/project3/src/logging/writer.rs:135-147 | a line is appended to the batch or, if it cannot be serialized, dropped and counted |
| LogWriter.Log.StageDropReport | milestones/project3/src/logging/writer.rs:149-168 | drops since the last report are reported once, with the running total |
| LogWriter.Log.Flush | milestones/project3/src/logging/writer.rs:170-191 | a batch is written, or a failure discards and counts every line of it, report lines included |
| Calendar.CivilFollowsCalendar | milestones/project3/src/timestamp.rs:47-58 | for every integer day number the result is a valid date and the next number gives the next date of the proleptic Gregorian calendar |
| Calendar.EpochIsDayZero | milestones/project3/src/timestamp.rs:47-58 | day 0 is 1970-01-01, which with the step fixes every date |
| Calendar.CivilRoundTrip | milestones/project3/src/timestamp.rs:47-58 | a day number is recovered from its date |
| Calendar.DaysRoundTrip | milestones/project3/src/timestamp.rs:47-58 | a valid date is recovered from its day number |
| Calendar.FormulaFindsYear | milestones/project3/src/timestamp.rs:50-52 | the year formula inverts the number of days before a year, corrections included |
| Calendar.FieldsDetermineInstant | milestones/project3/src/timestamp.rs:26-44 | the rendered fields determine the millisecond instant, before the epoch too, and are in range |
| Calendar.TextDeterminesInstant | milestones/project3/src/timestamp.rs:26-44 | in years 0 to 9999 the 24-character text of RFC 3339 section 5.6 alone gives the instant back |
| Handshake.MaskingIsExact | milestones/project3/src/protocol/connection_phase.rs:97-150 | the patched greeting has the same length, differs at most in the two capability fields, reads as the masked set and is unchanged by masking again |
| Handshake.MaskServerHandshake | milestones/project3/src/protocol/connection_phase.rs:97-150 | patching the bytes in place yields that greeting, or the error for a greeting that is not version 10 or too short |
| Handshake.ForwardResponse | milestones/project3/src/protocol/connection_phase.rs:253-269 | a response that asks for TLS is refused, and only that; any other that parses goes on with the masked bits cleared |
| Handshake.GreetingIsRead | milestones/project3/src/protocol/connection_phase.rs:97-150 | a version 10 greeting laid out as section 14.2.5 says goes on with all but TLS, compression, local files, Zstandard and query attributes kept of its capabilities, nothing else changed, and its connection id read |
| Handshake.ResponseIsRead | milestones/project3/src/protocol/connection_phase.rs:159-213 | a response laid out as section 14.2.5 says, under each of the three ways to delimit the authentication data, is read as its capabilities, its user and its database |
| Handshake.ForwardedReadsAlike | milestones/project3/src/protocol/connection_phase.rs:159-213 | the forwarded response has the client's length and reads as the same user and database |
| Handshake.ClientAgrees | milestones/project3/src/protocol/connection_phase.rs:266-278 | the capabilities the client computes from the greeting it saw and its response are those the proxy computes |
| Handshake.BackendAgrees | milestones/project3/src/protocol/connection_phase.rs:266-278 | the capabilities the backend computes from its greeting and the response it was given are those the proxy computes |
| Handshake.NothingMaskedInForce | milestones/project3/src/protocol/capabilities.rs:49-53 | no masked capability is ever in force |
| Handshake.RelayAuthentication | milestones/project3/src/protocol/connection_phase.rs:280-313 | authentication packets alternate until the backend concludes, each passed on once and in order |

## Left out

- Rewrite.MeaningIsPreserved: relations are bound under their effective name only, so a column written `db.table.col` and two tables of one name from different databases in one FROM are outside the semantics; the repository's design accepts losing the former.
- WalkMeaning.SameFactor: derived tables and CTE bodies see no columns of the enclosing queries (no LATERAL).
- WalkMeaning.SameUnroll: a recursive CTE means its k-fold unrolling, for every k; termination of the recursion is not modelled.
- Rewrite.AcceptedQueryIsHandled: parsing what was rendered is taken as the identity except for the literals the rewriter builds; a client literal holding a doubled quote is covered only by its own condition.
- Walker.Walker.VisitFactor: nodes are values that are rebuilt, so overwriting a node in place, and aliasing, are not captured; the order of visits and pushes is.
- Names of unaliased computed columns, the quoting style of identifiers and the wording of refusals.
- SHOW, SET and write statements: only which sites they name and whether they are forwarded; their execution is not modelled, and the sites are listed by position rather than by their own sub-grammars.
- Session.ProxySession.OnQuery: the interception of USE by the server library, refusal of prepared statements, decoding of rows and the check `len < 9` on the row terminator are not modelled; a statement that is not a query simply completes, and what an unanalysed one does to the selected database is a parameter of the command.
- Session.TranscriptsAgree: speaks of SELECT and database-change commands; other statements reach the backend only unrestricted, by Enumeration.OtherStatementsForwardOnlyUnrestricted.
- Policies.Load: TOML decoding and the advisories on user names.
- Text is a sequence of characters that stand for bytes; UTF-8 and its lossy decoding are not modelled.
- Continuations.AgreeExactlyInStep: what follows the text starts on a new line; a continuation on the same line, which may run into its last token, is not covered.
- VerifierAlone.GuardIsSoundExactlyWithoutHints: that hints break soundness is stated for a guard and for the query that reads through it; in a larger query a hinted guard may be without influence.
- Reanalysis.SplicedIsEligibleAgain: asks that condition and predicate, without white space and comments, have balanced parentheses and open no subquery across the new borders (`Separable`); unbalanced conditions of the shape in Leaks.AcceptedConditionLeaks are covered there, others are not.
- Precedence.NewConditionIsConjunction: BETWEEN and CASE are operands of the grammar's reading like any other token; the theorem holds for any meaning of operands.
- FilterStage.Apply: `mentions_a_ruled_table` is the parameter `wanted`, as it feeds only a counter.
- The FNV-1a hash of a digest.
- PacketIo.PacketReader.NextMessage: the memory limit and the kinds of I/O error.
- Relay.RelayResponse: CLIENT_OPTIONAL_RESULTSET_METADATA is taken as not negotiated; COM_STMT_FETCH is answered like a query, as in the source; the sum of affected rows wraps at 2^64, where a debug build would stop.
- Replies.ErrIsRead: ERR messages that are cut short or whose state is incomplete still end a reply where they stand, but what is reported of them is not stated.
- Replies.FieldListIsExact: every definition is one message whose first byte is not that of an error or terminator.
- Lockstep.Connection.CommandLoop: shutdown signals and a backend that speaks unasked; timing fields of a record.
- LogWriter.Log.Run: emitters make a finite number of offers; reopening the file after rotation changes only where later batches go and is not a step; a log line is one record without inner line breaks.
- Handshake.RelayAuthentication: authentication data is opaque; the greeting and the response before it are Handshake.GreetingIsRead and Handshake.ResponseIsRead.
- Calendar.TextDeterminesInstant: years outside 0 to 9999, whose text RFC 3339 does not define; the fields determine the instant for all years.
- Sockets, tasks, signals, file permissions, configuration, both main programs, the tables of command and capability names, password hashing, JSON encoding: plumbing or libraries.

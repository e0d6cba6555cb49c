/**
 One client session of the milestone 2 proxy: who the user is, which database is selected, and what reaches
 the backend.
 */
module Session {
  import opened Common
  import opened SqlAst
  import opened Policies
  import opened Semantics
  import opened Walk
  import opened WalkMeaning
  import opened Rewrite
  import VerifierAlone

  // ----- The backend ---------------------------------------------------------------------------------------------

  /**
   A backend as a session sees it: its data, the databases that may be selected, and the account it resolves a
   claimed user to, if it accepts the credentials.
   */
  datatype Server = Server(dialect: Dialect, database: Database, selectable: string -> bool,
                           accounts: string -> Option<string>)

  function WorldOf(server: Server, current: Option<string>): World {
    World(server.dialect, server.database, current)
  }

  /** What a statement the proxy does not analyse does to the database the backend has selected. */
  datatype Effect = Keeps | Leaves(database: Option<string>)

  function Moved(effect: Effect, selected: Option<string>): Option<string> {
    match effect
    case Keeps => selected
    case Leaves(database) => database
  }

  /** What the client asks; the effect is the backend's part in it. */
  datatype Command = Query(parsed: Parsed, effect: Effect) | SelectDatabase(name: string)

  datatype Response = Rows(columns: seq<string>, rows: seq<Row>) | Failed(fault: Fault) | Completed
                    | Refused(reason: Refusal) | UnknownDatabase | NotAuthenticated | BackendGone

  predicate Unanalysed(parsed: Parsed) {
    !parsed.Parsed? || parsed.statement.OtherStatement?
  }

  predicate IsSelect(parsed: Parsed) {
    parsed.Parsed? && parsed.statement.QueryStatement?
  }

  function Answer(outcome: Outcome<Relation>): Response {
    if outcome.Ok? then Rows(outcome.value.columns, outcome.value.rows) else Failed(outcome.error)
  }

  /** The backend's answer to a query it is sent. */
  function QueryAnswer(server: Server, current: Option<string>, query: SqlAst.Query, forwarded: Forwarded): Response {
    Answer(EvalQuery(WorldOf(server, current), Executed(query, forwarded), [], []))
  }

  // ----- Identity ------------------------------------------------------------------------------------------------

  /** The last `@` of a text, or its length. */
  function LastAt(s: string): (at: nat)
    ensures at <= |s| && (at < |s| ==> s[at] == '@' && '@' !in s[at + 1..]) && (at == |s| ==> '@' !in s)
  {
    if s == "" then 0
    else if s[|s| - 1] == '@' then |s| - 1
    else
      var at := LastAt(s[..|s| - 1]);
      if at < |s| - 1 then
        assert s[at + 1..] == s[..|s| - 1][at + 1..] + [s[|s| - 1]];
        at
      else
        assert s == s[..|s| - 1] + [s[|s| - 1]];
        |s|
  }

  function TrimQuotes(s: string): string
    decreases |s|
  {
    if s != "" && s[0] == '\'' then TrimQuotes(s[1..])
    else if s != "" && s[|s| - 1] == '\'' then TrimQuotes(s[..|s| - 1])
    else s
  }

  /** `CURRENT_USER()` is `user@host`; policies are keyed on the user. */
  function StripHostPart(account: string): string {
    TrimQuotes(account[..LastAt(account)])
  }

  /** The host is whatever follows the last `@`, so a user name may hold one. */
  lemma {:induction false} HostIsStripped(user: string, host: string)
    requires '@' !in host
    ensures StripHostPart(user + "@" + host) == TrimQuotes(user)
  {
    var account := user + "@" + host;
    var at := LastAt(account);
    assert account[|user|] == '@' && account[|user|] in account;
    assert forall k :: |user| < k < |account| ==> account[k] == host[k - |user| - 1];
    assert forall k :: at < k < |account| ==> account[k] == account[at + 1..][k - at - 1];
    assert at == |user|;
    assert account[..|user|] == user;
  }

  // ----- The session ------------------------------------------------------------------------------------------------

  /** One statement sent to the backend: on whose behalf, and with which database believed selected. */
  datatype Sent = Sent(cx: Context, parsed: Parsed, forwarded: Forwarded)

  class Backend {
    const server: Server
    var account: Option<string>
    var current: Option<string>
    ghost var sent: seq<Sent>

    constructor (server: Server)
      ensures this.server == server && account == None && current == None && sent == []
    {
      this.server, account, current, sent := server, None, None, [];
    }

    method Authenticate(claimed: string) returns (ok: bool)
      modifies this`account
      ensures account == server.accounts(claimed) && ok == account.Some?
    {
      account := server.accounts(claimed);
      return account.Some?;
    }

    /** `SELECT CURRENT_USER()`; the answer may fail to arrive. */
    method CurrentUser(arrives: bool) returns (reported: Option<string>)
      ensures reported == if arrives then account else None
    {
      return if arrives then account else None;
    }

    /** COM_INIT_DB: the selection changes only when the account may select the database. */
    method InitDb(name: string) returns (ok: bool)
      modifies this`current
      ensures ok == server.selectable(name)
      ensures current == if ok then Some(name) else old(current)
    {
      if !server.selectable(name) {
        return false;
      }
      current := Some(name);
      return true;
    }

    /**
     COM_QUERY. A query is answered by its meaning; anything else completes, and a statement the proxy does
     not analyse may change the selected database.
     */
    method StartQuery(parsed: Parsed, forwarded: Forwarded, effect: Effect, ghost cx: Context)
      returns (answer: Response)
      modifies this`current, this`sent
      ensures sent == old(sent) + [Sent(cx, parsed, forwarded)]
      ensures answer == if IsSelect(parsed) then QueryAnswer(server, old(current), parsed.statement.query, forwarded)
                        else Completed
      ensures current == if Unanalysed(parsed) then Moved(effect, old(current)) else old(current)
    {
      sent := sent + [Sent(cx, parsed, forwarded)];
      if IsSelect(parsed) {
        return QueryAnswer(server, current, parsed.statement.query, forwarded);
      }
      if Unanalysed(parsed) {
        current := Moved(effect, current);
      }
      return Completed;
    }
  }

  /** Every statement sent was admitted by the gate for the user the backend named. */
  predicate Admitted(sent: seq<Sent>, policies: PolicySet, user: string) {
    forall i :: 0 <= i < |sent| ==>
      && sent[i].cx.user == user && sent[i].cx.policies == policies
      && RewriteStatement(sent[i].cx, sent[i].parsed) == Ok(sent[i].forwarded)
  }

  /** Whom the backend resolved the session to, and who the client said it was. */
  datatype Identity = Identity(user: string, claimed: string)

  /** The database the proxy has recorded, and the one the backend has selected. */
  datatype Databases = Databases(recorded: Option<string>, selected: Option<string>) {
    predicate Together() {
      recorded == selected
    }
  }

  class ProxySession {
    const policies: PolicySet
    var backend: Option<Backend>
    var identity: Option<Identity>
    var currentDatabase: Option<string>

    constructor (policies: PolicySet, connection: Backend)
      requires connection.sent == [] && connection.current == None
      ensures this.policies == policies && backend == Some(connection) && identity == None && currentDatabase == None
      ensures Valid()
    {
      this.policies := policies;
      backend, identity, currentDatabase := Some(connection), None, None;
    }

    predicate HasPolicy()
      reads this
    {
      identity.Some? && identity.value.user in policies.byUser
    }

    ghost function Standing(): Databases
      requires backend.Some?
      reads this, if backend.Some? then {backend.value} else {}
    {
      Databases(currentDatabase, backend.value.current)
    }

    /**
     The identity is what the backend reported; nothing was sent without one, or past the gate; and for a user
     with a policy the proxy and the backend have the same database selected.
     */
    ghost predicate Valid()
      reads this, if backend.Some? then {backend.value} else {}
    {
      backend.Some? ==>
        (var b := backend.value;
         && (identity.Some? ==> b.account.Some? && identity.value.user == StripHostPart(b.account.value))
         && (identity.None? ==> b.sent == [] && Standing().Together())
         && (identity.Some? ==> Admitted(b.sent, policies, identity.value.user))
         && (HasPolicy() ==> Standing().Together()))
    }

    /** The user is the account the backend resolves the claim to; the claim itself is only kept beside it. */
    method Authenticate(claimed: string, arrives: bool) returns (ok: bool)
      requires Valid() && identity == None
      modifies this, if backend.Some? then {backend.value} else {}
      ensures Valid() && currentDatabase == old(currentDatabase)
      ensures ok <==> old(backend).Some? && old(backend).value.server.accounts(claimed).Some? && arrives
      ensures ok ==> backend == old(backend)
      ensures ok ==> identity == Some(Identity(StripHostPart(backend.value.server.accounts(claimed).value), claimed))
      ensures !ok ==> identity == None && (old(backend).Some? ==> backend == None)
    {
      if backend.None? {
        return false;
      }
      var accepted := backend.value.Authenticate(claimed);
      if !accepted {
        backend := None;
        return false;
      }
      var reported := backend.value.CurrentUser(arrives);
      if reported.None? {
        backend := None;
        return false;
      }
      identity := Some(Identity(StripHostPart(reported.value), claimed));
      return true;
    }

    /** A database becomes current for the proxy exactly when the backend selects it. */
    method OnInit(name: string) returns (response: Response)
      requires Valid()
      modifies this`currentDatabase, if backend.Some? then {backend.value} else {}
      ensures Valid()
      ensures backend.None? ==> response == BackendGone && currentDatabase == old(currentDatabase)
      ensures backend.Some? ==>
                (&& response == (if backend.value.server.selectable(name) then Completed else UnknownDatabase)
                 && Standing() == (if backend.value.server.selectable(name) then Databases(Some(name), Some(name))
                                   else old(Standing()))
                 && backend.value.sent == old(backend.value.sent))
    {
      if backend.None? {
        return BackendGone;
      }
      var ok := backend.value.InitDb(name);
      if !ok {
        return UnknownDatabase;
      }
      currentDatabase := Some(name);
      return Completed;
    }

    /** A statement goes through the gate, and its rows come back one at a time. */
    method OnQuery(parsed: Parsed, effect: Effect) returns (response: Response)
      requires Valid()
      modifies if backend.Some? then {backend.value} else {}
      ensures Valid()
      ensures identity.None? ==> response == NotAuthenticated
      ensures identity.Some? && backend.None? ==>
                var verdict := RewriteStatement(Context(identity.value.user, currentDatabase, policies), parsed);
                response == if verdict.Err? then Refused(verdict.error) else BackendGone
      ensures identity.Some? && backend.Some? ==>
                (response, Standing()) == Respond(policies, backend.value.server, identity.value.user, old(Standing()),
                                                  Command.Query(parsed, effect))
      ensures backend.Some? && (response.NotAuthenticated? || response.Refused?) ==>
                backend.value.sent == old(backend.value.sent) && backend.value.current == old(backend.value.current)
    {
      if identity.None? {
        return NotAuthenticated;
      }
      var cx := Context(identity.value.user, currentDatabase, policies);
      var verdict := RewriteStatement(cx, parsed);
      if verdict.Err? {
        return Refused(verdict.error);
      }
      if backend.None? {
        return BackendGone;
      }
      if Unanalysed(parsed) {
        UnanalysedPassExactlyWithoutPolicy(cx, parsed);
      }
      var answer := backend.value.StartQuery(parsed, verdict.value, effect, cx);
      response := Stream(answer);
    }

    /** A session, over any commands, answers what the transcript says and ends where the run ends. */
    method Serve(commands: seq<Command>) returns (responses: seq<Response>)
      requires Valid() && identity.Some? && backend.Some?
      modifies this`currentDatabase, if backend.Some? then {backend.value} else {}
      ensures Valid()
      ensures responses
           == Transcript(policies, backend.value.server, identity.value.user, old(Standing()), commands)
      ensures Standing() == After(policies, backend.value.server, identity.value.user, old(Standing()), commands)
    {
      responses := [];
      ghost var start := Standing();
      ghost var server := backend.value.server;
      assert commands[0..] == commands;
      for i := 0 to |commands|
        invariant Valid()
        invariant Unfolding(policies, server, identity.value.user, start, commands, i, responses, Standing())
      {
        UnfoldsOne(policies, server, identity.value.user, start, commands, i, responses, Standing());
        var response;
        match commands[i] {
          case Query(parsed, effect) => response := OnQuery(parsed, effect);
          case SelectDatabase(name) => response := OnInit(name);
        }
        responses := responses + [response];
      }
      assert commands[|commands|..] == [];
    }

    /** Rows are written as they are read. */
    method Stream(answer: Response) returns (written: Response)
      ensures written == answer
    {
      if !answer.Rows? {
        return answer;
      }
      var rows: seq<Row> := [];
      for i := 0 to |answer.rows|
        invariant rows == answer.rows[..i]
      {
        rows := rows + [answer.rows[i]];
      }
      return Rows(answer.columns, rows);
    }
  }

  /** A statement the proxy does not analyse is forwarded, as it is, for exactly the users without a policy. */
  lemma {:induction false} UnanalysedPassExactlyWithoutPolicy(cx: Context, parsed: Parsed)
    requires Unanalysed(parsed)
    ensures RewriteStatement(cx, parsed).Ok? <==> !HasAnyPolicy(cx)
    ensures !HasAnyPolicy(cx) ==> RewriteStatement(cx, parsed) == Ok(Original)
  {
  }

  // ----- Whole sessions ----------------------------------------------------------------------------------------------

  /** The response to a command, and the databases the proxy and the backend then have. */
  function Respond(policies: PolicySet, server: Server, user: string, at: Databases, command: Command)
    : (Response, Databases)
  {
    match command
    case SelectDatabase(name) =>
      if server.selectable(name) then (Completed, Databases(Some(name), Some(name))) else (UnknownDatabase, at)
    case Query(parsed, effect) =>
      var verdict := RewriteStatement(Context(user, at.recorded, policies), parsed);
      if verdict.Err? then (Refused(verdict.error), at)
      else if IsSelect(parsed) then (QueryAnswer(server, at.selected, parsed.statement.query, verdict.value), at)
      else (Completed, if Unanalysed(parsed) then at.(selected := Moved(effect, at.selected)) else at)
  }

  function Transcript(policies: PolicySet, server: Server, user: string, at: Databases, commands: seq<Command>)
    : seq<Response>
    decreases |commands|
  {
    if commands == [] then []
    else
      var (response, next) := Respond(policies, server, user, at, commands[0]);
      [response] + Transcript(policies, server, user, next, commands[1..])
  }

  /** The databases after a run. */
  function After(policies: PolicySet, server: Server, user: string, at: Databases, commands: seq<Command>): Databases
    decreases |commands|
  {
    if commands == [] then at
    else After(policies, server, user, Respond(policies, server, user, at, commands[0]).1, commands[1..])
  }

  /** A transcript as the responses so far and the transcript from where the session stands. */
  ghost predicate Unfolding(policies: PolicySet, server: Server, user: string, start: Databases,
                            commands: seq<Command>, i: nat, responses: seq<Response>, at: Databases)
  {
    && i <= |commands|
    && Transcript(policies, server, user, start, commands)
       == responses + Transcript(policies, server, user, at, commands[i..])
    && After(policies, server, user, start, commands) == After(policies, server, user, at, commands[i..])
  }

  lemma {:induction false} UnfoldsOne(policies: PolicySet, server: Server, user: string, start: Databases,
                                      commands: seq<Command>, i: nat, responses: seq<Response>, at: Databases)
    requires Unfolding(policies, server, user, start, commands, i, responses, at) && i < |commands|
    ensures var (response, next) := Respond(policies, server, user, at, commands[i]);
            Unfolding(policies, server, user, start, commands, i + 1, responses + [response], next)
  {
    var (response, next) := Respond(policies, server, user, at, commands[i]);
    assert commands[i..][0] == commands[i] && commands[i..][1..] == commands[i + 1..];
    var later := Transcript(policies, server, user, next, commands[i + 1..]);
    assert responses + ([response] + later) == responses + [response] + later;
  }

  // ----- When the two databases stay the same ------------------------------------------------------------------------

  /** The user has no policy, and an unanalysed statement leaves the backend elsewhere than the proxy has recorded. */
  predicate Strays(policies: PolicySet, user: string, at: Databases, command: Command) {
    && user !in policies.byUser
    && command.Query? && Unanalysed(command.parsed) && Moved(command.effect, at.selected) != at.recorded
  }

  lemma {:induction false} StepKeepsTogether(policies: PolicySet, server: Server, user: string, at: Databases,
                                             command: Command)
    requires at.Together()
    ensures Respond(policies, server, user, at, command).1.Together() <==> !Strays(policies, user, at, command)
  {
    if command.Query? && Unanalysed(command.parsed) {
      UnanalysedPassExactlyWithoutPolicy(Context(user, at.recorded, policies), command.parsed);
    }
  }

  lemma {:induction false} OneCommandLater(policies: PolicySet, server: Server, user: string, at: Databases,
                                           commands: seq<Command>, n: nat)
    requires n < |commands|
    ensures After(policies, server, user, at, commands[..n + 1])
         == Respond(policies, server, user, After(policies, server, user, at, commands[..n]), commands[n]).1
    decreases n
  {
    assert commands[..n + 1][0] == commands[0] && commands[..n + 1][1..] == commands[1..][..n];
    if n == 0 {
      assert commands[1..][..0] == [] && commands[..0] == [];
    } else {
      assert commands[..n][0] == commands[0] && commands[..n][1..] == commands[1..][..n - 1];
      OneCommandLater(policies, server, user, Respond(policies, server, user, at, commands[0]).1, commands[1..], n - 1);
    }
  }

  /**
   Over a run that starts with one database, the proxy's and the backend's stay the same exactly when at no point a
   user without a policy sends an unanalysed statement that leaves the backend in another database than the recorded.
   */
  lemma {:induction false} TogetherExactlyWithoutStraying(policies: PolicySet, server: Server, user: string,
                                                          start: Databases, commands: seq<Command>)
    requires start.Together()
    ensures (forall n :: 0 <= n <= |commands| ==> After(policies, server, user, start, commands[..n]).Together())
       <==> forall n :: 0 <= n < |commands| ==>
              !Strays(policies, user, After(policies, server, user, start, commands[..n]), commands[n])
  {
    if forall n :: 0 <= n <= |commands| ==> After(policies, server, user, start, commands[..n]).Together() {
      forall n | 0 <= n < |commands|
        ensures !Strays(policies, user, After(policies, server, user, start, commands[..n]), commands[n])
      {
        var at := After(policies, server, user, start, commands[..n]);
        assert After(policies, server, user, start, commands[..n + 1]).Together();
        OneCommandLater(policies, server, user, start, commands, n);
        StepKeepsTogether(policies, server, user, at, commands[n]);
      }
    }
    if forall n :: 0 <= n < |commands| ==>
         !Strays(policies, user, After(policies, server, user, start, commands[..n]), commands[n])
    {
      forall n | 0 <= n <= |commands|
        ensures After(policies, server, user, start, commands[..n]).Together()
      {
        TogetherSoFar(policies, server, user, start, commands, n);
      }
    }
  }

  lemma {:induction false} TogetherSoFar(policies: PolicySet, server: Server, user: string, start: Databases,
                                         commands: seq<Command>, n: nat)
    requires start.Together() && n <= |commands|
    requires forall k :: 0 <= k < n ==>
               !Strays(policies, user, After(policies, server, user, start, commands[..k]), commands[k])
    ensures After(policies, server, user, start, commands[..n]).Together()
  {
    if n > 0 {
      TogetherSoFar(policies, server, user, start, commands, n - 1);
      OneCommandLater(policies, server, user, start, commands, n - 1);
      StepKeepsTogether(policies, server, user, After(policies, server, user, start, commands[..n - 1]),
                        commands[n - 1]);
    } else {
      assert commands[..0] == [];
    }
  }

  /** The run of one unanalysed statement that selects a database: for a user without a policy the proxy misses it. */
  lemma {:induction false} DatabasesPart(policies: PolicySet, server: Server, user: string)
    requires user !in policies.byUser
    ensures After(policies, server, user, Databases(None, None), [Command.Query(NotParsed, Leaves(Some("sales")))])
         == Databases(None, Some("sales"))
  {
    var command := Command.Query(NotParsed, Leaves(Some("sales")));
    UnanalysedPassExactlyWithoutPolicy(Context(user, None, policies), NotParsed);
    assert [command][1..] == [];
  }

  /** Whatever the backend and the commands, the two databases stay the same exactly for the users with a policy. */
  lemma {:induction false} AlwaysTogetherExactlyWithPolicy(policies: PolicySet, user: string)
    ensures (forall server, start: Databases, commands | start.Together() ::
               After(policies, server, user, start, commands).Together())
       <==> user in policies.byUser
  {
    if user in policies.byUser {
      forall server, start: Databases, commands | start.Together()
        ensures After(policies, server, user, start, commands).Together()
      {
        TogetherSoFar(policies, server, user, start, commands, |commands|);
        assert commands[..|commands|] == commands;
      }
    } else {
      var server := Nowhere();
      DatabasesPart(policies, server, user);
      assert Databases(None, None).Together();
      assert !After(policies, server, user, Databases(None, None),
                    [Command.Query(NotParsed, Leaves(Some("sales")))]).Together();
    }
  }

  /** A backend without tables. */
  function Nowhere(): Server {
    Server(VerifierAlone.SamplingDialect(), (database, table) => Err(UnknownTable), name => true, claimed => None)
  }

  // ----- What two backends can tell a user ---------------------------------------------------------------------------

  /** Two backends a user's policies cannot tell apart, whatever database is current. */
  ghost predicate ServersAgree(policies: PolicySet, user: string, a: Server, b: Server) {
    && a.selectable == b.selectable
    && forall current: Option<string> ::
         Agree(Verify, Context(user, current, policies), WorldOf(a, current), WorldOf(b, current))
  }

  /** Of the statements, only queries. */
  predicate SelectsOnly(commands: seq<Command>) {
    forall i :: 0 <= i < |commands| && commands[i].Query? && commands[i].parsed.Parsed? ==> IsSelect(commands[i].parsed)
  }

  lemma {:induction false} ResponsesAgree(policies: PolicySet, user: string, a: Server, b: Server, at: Databases,
                                          command: Command)
    requires at.Together()
    requires ServersAgree(policies, user, a, b) && user in policies.byUser
    requires command.Query? && command.parsed.Parsed? ==> IsSelect(command.parsed)
    ensures Respond(policies, a, user, at, command) == Respond(policies, b, user, at, command)
  {
    if command.Query? && IsSelect(command.parsed) {
      var cx := Context(user, at.recorded, policies);
      assert Agree(Verify, cx, WorldOf(a, at.recorded), WorldOf(b, at.recorded));
      if RewriteStatement(cx, command.parsed).Ok? {
        ForwardedQueryDisclosesNothing(cx, WorldOf(a, at.recorded), WorldOf(b, at.recorded),
                                       command.parsed.statement.query, command.parsed.gated);
      }
    }
  }

  /**
   Over any sequence of queries and database changes, a user with a policy gets the same transcript from any two
   backends that agree on the rows the user may see.
   */
  lemma {:induction false} TranscriptsAgree(policies: PolicySet, user: string, a: Server, b: Server, at: Databases,
                                            commands: seq<Command>)
    requires ServersAgree(policies, user, a, b) && user in policies.byUser && SelectsOnly(commands) && at.Together()
    ensures Transcript(policies, a, user, at, commands) == Transcript(policies, b, user, at, commands)
    decreases |commands|
  {
    if commands != [] {
      ResponsesAgree(policies, user, a, b, at, commands[0]);
      StepKeepsTogether(policies, a, user, at, commands[0]);
      var (_, next) := Respond(policies, a, user, at, commands[0]);
      assert forall i :: 0 <= i < |commands[1..]| ==> commands[1..][i] == commands[i + 1];
      TranscriptsAgree(policies, user, a, b, next, commands[1..]);
    }
  }

  /** And each answered query is the client's own query over the filtered backend. */
  lemma {:induction false} AnswersAreFiltered(policies: PolicySet, user: string, server: Server, at: Databases,
                                              query: SqlAst.Query, gated: bool, effect: Effect)
    requires SoundPolicies(Context(user, at.recorded, policies)) && user in policies.byUser && at.Together()
    requires RewriteStatement(Context(user, at.recorded, policies), Parsed(QueryStatement(query), gated)).Ok?
    ensures var cx := Context(user, at.recorded, policies);
            Respond(policies, server, user, at, Command.Query(Parsed(QueryStatement(query), gated), effect)).0
            == Answer(EvalQuery(FilteredWorld(cx, WorldOf(server, at.recorded)), query, [], []))
  {
    var cx := Context(user, at.recorded, policies);
    MeaningIsPreserved(cx, WorldOf(server, at.recorded), query, gated);
  }
}

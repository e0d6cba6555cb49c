/** The command loop: one command, one response, one record, in order. */
module Lockstep {
  import opened Common
  import opened Framing
  import opened PacketIo
  import opened Response
  import opened Replies
  import opened Relay
  import opened RowFilter
  import opened FilterStage

  const COM_QUIT: byte := 0x01
  const COM_FIELD_LIST: byte := 0x04
  const COM_STATISTICS: byte := 0x09
  const COM_DEBUG: byte := 0x0D
  const COM_STMT_SEND_LONG_DATA: byte := 0x18
  const COM_STMT_CLOSE: byte := 0x19
  const COM_SET_OPTION: byte := 0x1B

  /** COM_CHANGE_USER, the replication commands, COM_TABLE_DUMP, COM_CONNECT_OUT and COM_CLONE. */
  const REFUSED_CODES: set<byte> := {0x11, 0x12, 0x13, 0x14, 0x15, 0x1E, 0x20}

  function CodeOf(payload: seq<byte>): byte {
    if payload == [] then 0xFF else payload[0]
  }

  predicate IsRefused(command: Message) {
    CodeOf(command.payload) in REFUSED_CODES
  }

  function ShapeOf(code: byte): Shape {
    if code in {COM_QUIT, COM_STMT_CLOSE, COM_STMT_SEND_LONG_DATA} then NoReply
    else if code == COM_STATISTICS then Statistics
    else if code == COM_STMT_PREPARE then PrepareOk
    else if code == COM_FIELD_LIST then FieldList
    else Generic
  }

  /** How a command ended, as its record says. */
  datatype Ending = Completed(outcome: Outcome) | RefusedByProxy | Cut

  datatype Record = Record(code: byte, ending: Ending)

  /** The bytes are one response of a shape, from the first to the last. */
  predicate Answers(bytes: seq<byte>, shape: Shape, session: Session) {
    var run := RelayHeads(HeadsOf(bytes), shape, session);
    run.result.Ok? && run.used <= |HeadsOf(bytes)| && Past(bytes, run.used) == []
  }

  function OutcomeOf(bytes: seq<byte>, shape: Shape, session: Session): Outcome
    requires Answers(bytes, shape, session)
  {
    RelayHeads(HeadsOf(bytes), shape, session).result.value
  }

  /** The commands that are not answered like a query. */
  const NOT_LIKE_QUERY: set<byte> := {0x01, 0x04, 0x09, 0x16, 0x18, 0x19}

  /** A well-formed reply is such an answer, to a query and to every command answered like one. */
  lemma {:induction false} WellFormedAnswers(code: byte, reply: Reply, messages: seq<(byte, seq<byte>)>,
                                             session: Session)
    requires code !in NOT_LIKE_QUERY
    requires WellFormed(reply, session) && PayloadsOf(messages) == Payloads(reply, session)
    ensures Answers(EncodeMessages(messages), ShapeOf(code), session)
  {
    RelayIsExact(reply, messages, [], session);
    assert EncodeMessages(messages) + [] == EncodeMessages(messages);
  }

  /** So are the reply to a PREPARE and a field list, for the commands they answer. */
  lemma {:induction false} PreparedAnswers(reply: PreparedReply, messages: seq<(byte, seq<byte>)>, session: Session)
    requires PreparedInRange(reply) && PayloadsOf(messages) == PreparedPayloads(reply, session)
    ensures Answers(EncodeMessages(messages), ShapeOf(COM_STMT_PREPARE), session)
  {
    PreparedRelayIsExact(reply, messages, [], session);
    assert EncodeMessages(messages) + [] == EncodeMessages(messages);
  }

  lemma {:induction false} FieldListAnswers(fields: seq<seq<byte>>, ending: Replies.Ending,
                                            messages: seq<(byte, seq<byte>)>, session: Session)
    requires EndingInRange(ending, session) && NoEnd(Heads(fields))
    requires PayloadsOf(messages) == fields + [EndingBytes(ending, session)]
    ensures Answers(EncodeMessages(messages), ShapeOf(COM_FIELD_LIST), session)
  {
    FieldListRelayIsExact(fields, ending, messages, [], session);
    assert EncodeMessages(messages) + [] == EncodeMessages(messages);
  }

  /** An error is an answer to either, and recorded with what it says. */
  lemma {:induction false} ErrorAnswers(err: ErrPacket, messages: seq<(byte, seq<byte>)>, session: Session)
    requires ErrInRange(err, session) && PayloadsOf(messages) == [ErrBytes(err)]
    ensures |ErrFront(err)| < MAX_PAYLOAD
    ensures forall code :: code in {COM_STMT_PREPARE, COM_FIELD_LIST} ==>
              && Answers(EncodeMessages(messages), ShapeOf(code), session)
              && OutcomeOf(EncodeMessages(messages), ShapeOf(code), session) == RefusedWith(err)
  {
    RefusedPrepareRelayIsExact(err, messages, [], session);
    assert [] + [ErrBytes(err)] == [ErrBytes(err)];
    BrokenFieldListRelayIsExact([], err, messages, [], session);
    assert EncodeMessages(messages) + [] == EncodeMessages(messages);
  }

  /** COM_QUIT, COM_STMT_SEND_LONG_DATA and COM_STMT_CLOSE are answered by nothing at all. */
  lemma {:induction false} NothingAnswers(code: byte, bytes: seq<byte>, session: Session)
    requires code in {0x01, 0x18, 0x19}
    ensures Answers(bytes, ShapeOf(code), session) <==> bytes == []
  {
  }

  /** COM_STATISTICS is answered by exactly one message, whatever it says. */
  lemma {:induction false} OneMessageAnswers(bytes: seq<byte>, session: Session)
    ensures Answers(bytes, ShapeOf(0x09), session) <==> PastMessage(bytes) == Some([])
  {
    if PastMessage(bytes).Some? {
      assert Past(bytes, 1) == PastMessage(bytes).value;
    }
  }

  /** COM_CHANGE_USER, the replication commands, COM_TABLE_DUMP, COM_CONNECT_OUT and COM_CLONE, and nothing else, never
      reach the backend. */
  lemma {:induction false} RefusedExactly(command: Message, rules: Rules)
    requires RulesAreBytes(rules) && command.payload != []
    ensures ToBackend([command], rules)
         == if command.payload[0] in {0x11, 0x12, 0x13, 0x14, 0x15, 0x1E, 0x20} then []
            else CommandBytes(command, rules)
  {
    assert [command][..0] == [];
    assert [] + CommandBytes(command, rules) == CommandBytes(command, rules);
  }

  /**
   Two commands that are forwarded are answered by an EOF packet, or where EOF is deprecated by a short OK packet
   with the same first byte. No such answer can be followed: the connection ends.
   */
  lemma {:induction false} EofCommandsAreNotFollowed(command: Message, id: byte, answer: seq<byte>, session: Session)
    requires CodeOf(command.payload) in {COM_SET_OPTION, COM_DEBUG}
    requires StartsWith(answer, 0xFE) && |answer| < 9
    ensures !IsRefused(command)
    ensures !Answers(EncodeMessages([(id, answer)]), ShapeOf(CodeOf(command.payload)), session)
  {
    var messages := [(id, answer)];
    BytesFollowHeads(messages, []);
    assert EncodeMessages(messages) + [] == EncodeMessages(messages);
    assert PayloadsOf(messages) == [answer];
    OneHead(answer);
    assert HeadOf(answer) == answer;
    EofReplyIsMalformed(answer, HeadsOf([]), session);
  }

  // ----- What a run must come to ---------------------------------------------------------------------------------

  function ForwardedCount(commands: seq<Message>): nat {
    if commands == [] then 0
    else ForwardedCount(commands[..|commands| - 1]) + (if IsRefused(commands[|commands| - 1]) then 0 else 1)
  }

  function CommandBytes(command: Message, rules: Rules): seq<byte>
    requires RulesAreBytes(rules)
  {
    EncodeAll(Split(command.firstSeq, PassedOn(command.payload, rules)))
  }

  /** What the backend receives for some commands: the forwarded ones, in order. */
  function ToBackend(commands: seq<Message>, rules: Rules): seq<byte>
    requires RulesAreBytes(rules)
  {
    if commands == [] then []
    else
      var last := commands[|commands| - 1];
      ToBackend(commands[..|commands| - 1], rules) + (if IsRefused(last) then [] else CommandBytes(last, rules))
  }

  /** The sequence id a reply starts from. */
  function ReplySeq(command: Message): byte {
    Next(command.firstSeq, command.packetCount)
  }

  /** The backend's part in a run: its answers to the forwarded commands, in order. */
  datatype Script = Script(answers: seq<seq<byte>>, refusal: seq<byte>)

  predicate Scripted(commands: seq<Message>, script: Script, session: Session) {
    && |script.refusal| <= MAX_PAYLOAD
    && forall i :: 0 <= i < |commands| && !IsRefused(commands[i]) ==>
         Answered(commands[i], ForwardedCount(commands[..i]), script, session)
  }

  predicate Answered(command: Message, k: nat, script: Script, session: Session) {
    k < |script.answers| && Answers(script.answers[k], ShapeOf(CodeOf(command.payload)), session)
  }

  function AnswerTo(command: Message, k: nat, script: Script): seq<byte>
    requires |script.refusal| <= MAX_PAYLOAD && (!IsRefused(command) ==> k < |script.answers|)
  {
    if IsRefused(command) then Encode(Packet(ReplySeq(command), script.refusal)) else script.answers[k]
  }

  function RecordOf(command: Message, k: nat, script: Script, session: Session): Record
    requires !IsRefused(command) ==> Answered(command, k, script, session)
  {
    var code := CodeOf(command.payload);
    Record(code, if IsRefused(command) then RefusedByProxy
                 else Completed(OutcomeOf(script.answers[k], ShapeOf(code), session)))
  }

  /** What the client receives: each command's own answer, in order. */
  function ToClient(commands: seq<Message>, script: Script, session: Session): seq<byte>
    requires Scripted(commands, script, session)
  {
    if commands == [] then []
    else
      var before := commands[..|commands| - 1];
      ScriptedBefore(commands, script, session);
      ToClient(before, script, session) + AnswerTo(commands[|commands| - 1], ForwardedCount(before), script)
  }

  /** One record a command, in order. */
  function Records(commands: seq<Message>, script: Script, session: Session): (r: seq<Record>)
    requires Scripted(commands, script, session)
    ensures |r| == |commands|
  {
    if commands == [] then []
    else
      var before := commands[..|commands| - 1];
      ScriptedBefore(commands, script, session);
      Records(before, script, session) + [RecordOf(commands[|commands| - 1], ForwardedCount(before), script, session)]
  }

  lemma {:induction false} ScriptedBefore(commands: seq<Message>, script: Script, session: Session)
    requires Scripted(commands, script, session) && commands != []
    ensures Scripted(commands[..|commands| - 1], script, session)
    ensures var last := commands[|commands| - 1];
            !IsRefused(last) ==> Answered(last, ForwardedCount(commands[..|commands| - 1]), script, session)
  {
    var before := commands[..|commands| - 1];
    forall i | 0 <= i < |before| && !IsRefused(before[i])
      ensures Answered(before[i], ForwardedCount(before[..i]), script, session)
    {
      assert before[..i] == commands[..i] && before[i] == commands[i];
    }
  }

  lemma {:induction false} ScriptedPrefix(commands: seq<Message>, n: nat, script: Script, session: Session)
    requires Scripted(commands, script, session) && n <= |commands|
    ensures Scripted(commands[..n], script, session)
  {
    forall i | 0 <= i < n && !IsRefused(commands[..n][i])
      ensures Answered(commands[..n][i], ForwardedCount(commands[..n][..i]), script, session)
    {
      assert commands[..n][..i] == commands[..i];
    }
  }

  // ----- The loop --------------------------------------------------------------------------------------------------

  /** How one turn of the loop ends: with the next command due, or with the connection. */
  datatype Turn = Served | Quit | Lost

  class Connection {
    const clientRx: PacketReader
    const clientTx: PacketWriter
    const backendRx: PacketReader
    const backendTx: PacketWriter
    const session: Session
    var log: seq<Record>

    constructor (clientRx: PacketReader, clientTx: PacketWriter, backendRx: PacketReader, backendTx: PacketWriter,
                 session: Session)
      ensures this.clientRx == clientRx && this.clientTx == clientTx && this.backendRx == backendRx
      ensures this.backendTx == backendTx && this.session == session && log == []
    {
      this.clientRx, this.clientTx, this.backendRx, this.backendTx := clientRx, clientTx, backendRx, backendTx;
      this.session, log := session, [];
    }

    predicate Apart()
      reads this
    {
      clientRx != backendRx && clientTx != backendTx
    }

    /** A refused command is answered by the proxy itself and never reaches the backend. */
    method Refuse(command: Message, refusal: seq<byte>) returns (turn: Turn)
      requires Apart() && |refusal| <= MAX_PAYLOAD && IsRefused(command)
      modifies this`log, clientTx
      ensures turn == Served || turn == Lost
      ensures turn == Served ==> clientTx.sent == old(clientTx.sent) + Encode(Packet(ReplySeq(command), refusal))
      ensures turn == Served ==> log == old(log) + [Record(CodeOf(command.payload), RefusedByProxy)]
      ensures turn == Lost ==> log == old(log)
      ensures turn == Lost ==> old(clientTx.sent) <= clientTx.sent
                               <= old(clientTx.sent) + Encode(Packet(ReplySeq(command), refusal))
    {
      var ok := clientTx.WritePacket(Packet(ReplySeq(command), refusal));
      if !ok {
        return Lost;
      }
      log := log + [Record(CodeOf(command.payload), RefusedByProxy)];
      return Served;
    }

    /** A command is written to the backend with its own sequence ids, and its whole response relayed. */
    method Forward(command: Message, answer: seq<byte>, rules: Rules, wanted: bool, mayInterrupt: bool)
      returns (turn: Turn, ghost nextSeq: byte)
      requires Apart() && RulesAreBytes(rules) && backendRx.Stream() == []
      requires command.packetCount == PacketCount(|command.payload|)
      requires Answers(answer, ShapeOf(CodeOf(command.payload)), session)
      modifies this`log, clientTx, backendRx, backendTx
      ensures turn != Lost ==> backendTx.sent == old(backendTx.sent) + CommandBytes(command, rules)
      ensures turn != Lost ==> clientTx.sent == old(clientTx.sent) + answer && backendRx.Stream() == []
      ensures turn != Lost ==> nextSeq == ReplySeq(command)
      ensures turn != Lost ==>
                log == old(log) + [Record(CodeOf(command.payload),
                                          Completed(OutcomeOf(answer, ShapeOf(CodeOf(command.payload)), session)))]
      ensures turn == Quit <==> turn != Lost && CodeOf(command.payload) == COM_QUIT
      ensures turn == Lost ==> log == old(log) + [Record(CodeOf(command.payload), Cut)]
      ensures turn == Lost ==> old(backendTx.sent) <= backendTx.sent
                               <= old(backendTx.sent) + CommandBytes(command, rules)
      ensures turn == Lost ==> old(clientTx.sent) <= clientTx.sent <= old(clientTx.sent) + answer
    {
      var code := CodeOf(command.payload);
      var sent, next := SendCommand(command, rules, wanted);
      nextSeq := next;
      if !sent {
        log := log + [Record(code, Cut)];
        turn := Lost;
        return;
      }
      var outcome := RelayAnswer(answer, ShapeOf(code), mayInterrupt);
      log := log + [Record(code, if outcome.Some? then Completed(outcome.value) else Cut)];
      turn := if outcome.None? then Lost else if code == COM_QUIT then Quit else Served;
    }

    /** Where the connection stands after some commands. */
    ghost predicate UpTo(served: seq<Message>, script: Script, rules: Rules, sentB: seq<byte>, sentC: seq<byte>,
                         log0: seq<Record>)
      requires RulesAreBytes(rules) && Scripted(served, script, session)
      reads this, clientTx, backendRx, backendTx
    {
      && backendRx.Stream() == []
      && backendTx.sent == sentB + ToBackend(served, rules)
      && clientTx.sent == sentC + ToClient(served, script, session)
      && log == log0 + Records(served, script, session)
    }

    /** Where it stands when it is lost in the middle of the command after those. */
    ghost predicate LostAfter(served: seq<Message>, script: Script, rules: Rules, sentB: seq<byte>, sentC: seq<byte>,
                              log0: seq<Record>)
      requires RulesAreBytes(rules) && Scripted(served, script, session)
      reads this, clientTx, backendTx
    {
      && sentB + ToBackend(served, rules) <= backendTx.sent
      && sentC + ToClient(served, script, session) <= clientTx.sent
      && log0 + Records(served, script, session) <= log
      && |log| <= |log0| + |served| + 1
    }

    lemma {:induction false} AtStart(commands: seq<Message>, script: Script, rules: Rules)
      requires RulesAreBytes(rules) && backendRx.Stream() == [] && Scripted(commands, script, session)
      ensures ForwardedCount([]) == 0 && Scripted([], script, session)
      ensures UpTo([], script, rules, backendTx.sent, clientTx.sent, log)
    {
      ScriptedPrefix(commands, 0, script, session);
      assert commands[..0] == [];
    }

    lemma {:induction false} BetweenCommands(served: seq<Message>, script: Script, rules: Rules, sentB: seq<byte>,
                                             sentC: seq<byte>, log0: seq<Record>)
      requires RulesAreBytes(rules) && Scripted(served, script, session)
      requires UpTo(served, script, rules, sentB, sentC, log0)
      ensures LostAfter(served, script, rules, sentB, sentC, log0) && backendRx.Stream() == []
    {
    }

    /** One command, refused or forwarded. */
    method Serve(command: Message, ghost served: seq<Message>, k: nat, script: Script, rules: Rules, wanted: bool,
                 mayInterrupt: bool, ghost sentB: seq<byte>, ghost sentC: seq<byte>, ghost log0: seq<Record>)
      returns (turn: Turn)
      requires Apart() && RulesAreBytes(rules) && Scripted(served + [command], script, session)
      requires Scripted(served, script, session) && k == ForwardedCount(served)
      requires UpTo(served, script, rules, sentB, sentC, log0)
      requires command.packetCount == PacketCount(|command.payload|)
      modifies this`log, clientTx, backendRx, backendTx
      ensures turn != Lost ==> UpTo(served + [command], script, rules, sentB, sentC, log0)
      ensures turn == Lost ==> LostAfter(served, script, rules, sentB, sentC, log0)
      ensures turn == Quit ==> CodeOf(command.payload) == COM_QUIT
    {
      ServesOneMore(served, command, script, rules, session);
      if IsRefused(command) {
        turn := Refuse(command, script.refusal);
        RefusalAdds(sentB, ToBackend(served, rules));
        Appends(sentC, ToClient(served, script, session), AnswerTo(command, k, script));
        Appends(log0, Records(served, script, session), [RecordOf(command, k, script, session)]);
      } else {
        ghost var seqAfter;
        turn, seqAfter := Forward(command, script.answers[k], rules, wanted, mayInterrupt);
        Appends(sentB, ToBackend(served, rules), CommandBytes(command, rules));
        Appends(sentC, ToClient(served, script, session), AnswerTo(command, k, script));
        Appends(log0, Records(served, script, session), [RecordOf(command, k, script, session)]);
      }
    }

    /**
     The command loop. Over any run against a backend that answers each forwarded command, the backend has
     received exactly the forwarded commands in order, the client exactly each command's answer in order, the
     log one record a command in order, and no response byte is left unread between commands.
     */
    method CommandLoop(script: Script, rules: Rules, wanted: bool, mayInterrupt: bool)
      returns (lost: bool, ghost served: seq<Message>)
      requires Apart() && RulesAreBytes(rules) && backendRx.Stream() == []
      requires Scripted(ReadAll(clientRx.Stream()), script, session)
      modifies this`log, clientRx, clientTx, backendRx, backendTx
      ensures served <= ReadAll(old(clientRx.Stream())) && Scripted(served, script, session)
      ensures !lost ==> UpTo(served, script, rules, old(backendTx.sent), old(clientTx.sent), old(log))
      ensures lost ==> LostAfter(served, script, rules, old(backendTx.sent), old(clientTx.sent), old(log))
    {
      hide ReadAll, ReadMessage, Scripted, ForwardedCount, ToBackend, ToClient, Records, UpTo, LostAfter;
      hide IsRefused, RulesAreBytes, CodeOf, PacketReader.Stream, PacketCount;
      ghost var all, sentB, sentC, log0 := ReadAll(clientRx.Stream()), backendTx.sent, clientTx.sent, log;
      var k := 0;
      served := [];
      AtStart(all, script, rules);
      while true
        invariant all == served + ReadAll(clientRx.Stream()) && k == ForwardedCount(served)
        invariant Scripted(served, script, session) && UpTo(served, script, rules, sentB, sentC, log0)
        decreases |clientRx.Stream()|
      {
        BetweenCommands(served, script, rules, sentB, sentC, log0);
        if * {
          return false, served;
        }
        var early := backendRx.HasUnread();
        if early {
          return true, served;
        }
        ghost var before := clientRx.Stream();
        var next := clientRx.NextMessage(None);
        if !next.Got? {
          return next.BrokenOff?, served;
        }
        var command := next.value;
        TakesNext(all, served, before, command, clientRx.Stream(), script, session);
        var turn := Serve(command, served, k, script, rules, wanted, mayInterrupt, sentB, sentC, log0);
        if turn == Lost {
          return true, served;
        }
        served := served + [command];
        k := if IsRefused(command) then k else k + 1;
        if turn == Quit {
          return false, served;
        }
      }
    }

    /** The command, as the pipeline leaves it, is written with its own sequence ids. */
    method SendCommand(command: Message, rules: Rules, wanted: bool) returns (ok: bool, next: byte)
      requires RulesAreBytes(rules) && command.packetCount == PacketCount(|command.payload|)
      modifies backendTx
      ensures ok ==> backendTx.sent == old(backendTx.sent) + CommandBytes(command, rules) && next == ReplySeq(command)
      ensures old(backendTx.sent) <= backendTx.sent <= old(backendTx.sent) + CommandBytes(command, rules)
    {
      var ctx := new StageContext();
      var replaced := Apply(command.payload, rules, wanted, ctx);
      var payload := if replaced.Some? then replaced.value else command.payload;
      assert payload == PassedOn(command.payload, rules);
      StageKeepsPacketCount(command.payload, rules);
      ok, next := backendTx.WriteMessage(command.firstSeq, payload);
    }

    /** The backend's answer arrives and is relayed whole. */
    method RelayAnswer(answer: seq<byte>, shape: Shape, mayInterrupt: bool) returns (outcome: Option<Outcome>)
      requires Apart() && backendRx.Stream() == [] && Answers(answer, shape, session)
      modifies clientTx, backendRx
      ensures outcome.Some? ==> (&& clientTx.sent == old(clientTx.sent) + answer && backendRx.Stream() == []
                                 && outcome.value == OutcomeOf(answer, shape, session))
      ensures old(clientTx.sent) <= clientTx.sent <= old(clientTx.sent) + answer
    {
      backendRx.Receive(answer);
      assert [] + answer == answer;
      ghost var sent0 := clientTx.sent;
      var relayed := RelayResponse(backendRx, clientTx, session, shape, mayInterrupt);
      if relayed.Err? {
        return None;
      }
      WholeAnswerRelayed(sent0, clientTx.sent, backendRx.Stream(), answer, shape, session);
      return Some(relayed.value);
    }
  }

  lemma {:induction false} WholeAnswerRelayed(sent0: seq<byte>, sent: seq<byte>, stream: seq<byte>, answer: seq<byte>,
                                              shape: Shape, session: Session)
    requires Answers(answer, shape, session)
    requires Took(RelayHeads(HeadsOf(answer), shape, session).used, sent0, answer, sent, stream)
    ensures stream == [] && sent == sent0 + answer
  {
    assert sent + [] == sent;
  }

  lemma {:induction false} Appends<T>(a: seq<T>, b: seq<T>, c: seq<T>)
    ensures a + b + c == a + (b + c)
  {
  }

  lemma {:induction false} RefusalAdds(a: seq<byte>, b: seq<byte>)
    ensures a + (b + []) == a + b
  {
  }

  /** What one more command adds to each of the four histories. */
  lemma {:induction false} ServesOneMore(served: seq<Message>, command: Message, script: Script, rules: Rules,
                                         session: Session)
    requires RulesAreBytes(rules) && Scripted(served + [command], script, session)
    ensures Scripted(served, script, session)
    ensures var k := ForwardedCount(served);
            && (!IsRefused(command) ==> Answered(command, k, script, session))
            && ToBackend(served + [command], rules)
               == ToBackend(served, rules) + (if IsRefused(command) then [] else CommandBytes(command, rules))
            && ToClient(served + [command], script, session)
               == ToClient(served, script, session) + AnswerTo(command, k, script)
            && Records(served + [command], script, session)
               == Records(served, script, session) + [RecordOf(command, k, script, session)]
            && ForwardedCount(served + [command]) == k + (if IsRefused(command) then 0 else 1)
  {
    var all := served + [command];
    assert all[..|all| - 1] == served && all[|all| - 1] == command;
    ScriptedBefore(all, script, session);
  }

  /** The next command of the client's stream is the next of the whole run. */
  lemma {:induction false} TakesNext(all: seq<Message>, served: seq<Message>, before: seq<byte>, command: Message,
                                     after: seq<byte>, script: Script, session: Session)
    requires all == served + ReadAll(before) && ReadMessage(before) == Whole(command, after)
    requires Scripted(all, script, session)
    ensures all == served + [command] + ReadAll(after) && |after| < |before|
    ensures Scripted(served + [command], script, session)
    ensures command.packetCount == PacketCount(|command.payload|)
    ensures ForwardedCount(served + [command]) == ForwardedCount(served) + (if IsRefused(command) then 0 else 1)
  {
    MessageIsTaken(before, command, after);
    InTheMiddle(served, command, ReadAll(after));
    assert all == served + [command] + ReadAll(after);
    ScriptedPrefix(all, |served| + 1, script, session);
    OneMoreForwarded(served, command);
  }

  lemma {:induction false} MessageIsTaken(before: seq<byte>, command: Message, after: seq<byte>)
    requires ReadMessage(before) == Whole(command, after)
    ensures ReadAll(before) == [command] + ReadAll(after) && |after| < |before|
    ensures command.packetCount == PacketCount(|command.payload|)
  {
    GatherCounts(before);
  }

  lemma {:induction false} InTheMiddle<T>(a: seq<T>, b: T, c: seq<T>)
    ensures a + ([b] + c) == a + [b] + c && (a + [b] + c)[..|a| + 1] == a + [b]
  {
  }

  lemma {:induction false} OneMoreForwarded(served: seq<Message>, command: Message)
    ensures ForwardedCount(served + [command]) == ForwardedCount(served) + (if IsRefused(command) then 0 else 1)
  {
    assert (served + [command])[..|served|] == served;
  }
}

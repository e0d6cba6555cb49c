/** Relaying a response packet by packet, as it arrives. */
module Relay {
  import opened Common
  import opened Framing
  import opened PacketIo
  import opened Cursors
  import opened Response
  import opened Replies

  /** What is left of a stream after its first message, if that has arrived whole. */
  function PastMessage(s: seq<byte>): (r: Option<seq<byte>>)
    ensures r.Some? ==> Front(s).Some? && |r.value| < |s|
    decreases |s|
  {
    if Front(s).None? then None
    else if !Front(s).value.Continues() then Some(Behind(s))
    else PastMessage(Behind(s))
  }

  /** The heads of the whole messages of a stream. */
  function HeadsOf(s: seq<byte>): seq<seq<byte>>
    decreases |s|
  {
    if PastMessage(s).None? then [] else [Front(s).value.payload] + HeadsOf(PastMessage(s).value)
  }

  function Past(s: seq<byte>, k: nat): (r: seq<byte>)
    requires k <= |HeadsOf(s)|
    ensures HeadsOf(r) == HeadsOf(s)[k..]
    decreases k
  {
    if k == 0 then s else Past(PastMessage(s).value, k - 1)
  }

  lemma {:induction false} PastAdds(s: seq<byte>, k: nat, n: nat)
    requires k + n <= |HeadsOf(s)|
    ensures n <= |HeadsOf(Past(s, k))| && Past(Past(s, k), n) == Past(s, k + n)
    decreases k
  {
    if k > 0 {
      PastAdds(PastMessage(s).value, k - 1, n);
    }
  }

  // ----- Streams of written messages ----------------------------------------------------------------------------

  function PayloadsOf(messages: seq<(byte, seq<byte>)>): (r: seq<seq<byte>>)
    ensures |r| == |messages|
  {
    seq(|messages|, i requires 0 <= i < |messages| => messages[i].1)
  }

  lemma {:induction false} PastSplit(firstSeq: byte, payload: seq<byte>, rest: seq<byte>)
    ensures PastMessage(EncodeAll(Split(firstSeq, payload)) + rest) == Some(rest)
    ensures Front(EncodeAll(Split(firstSeq, payload)) + rest).Some?
    ensures Front(EncodeAll(Split(firstSeq, payload)) + rest).value.payload == HeadOf(payload)
    decreases |payload|
  {
    var packets := Split(firstSeq, payload);
    FrontOfEncoded(packets[0], EncodeAll(packets[1..]) + rest);
    EncodeFront(packets, rest);
    if |payload| < MAX_PAYLOAD {
      assert packets[1..] == [] && EncodeAll(packets[1..]) + rest == rest;
    } else {
      assert packets[1..] == Split(Next(firstSeq, 1), payload[MAX_PAYLOAD..]);
      PastSplit(Next(firstSeq, 1), payload[MAX_PAYLOAD..], rest);
    }
  }

  lemma {:induction false} OneWritten(firstSeq: byte, payload: seq<byte>, tail: seq<byte>)
    ensures HeadsOf(EncodeAll(Split(firstSeq, payload)) + tail) == [HeadOf(payload)] + HeadsOf(tail)
    ensures forall k: nat :: k <= |HeadsOf(tail)| ==>
              Past(EncodeAll(Split(firstSeq, payload)) + tail, k + 1) == Past(tail, k)
  {
    PastSplit(firstSeq, payload, tail);
  }

  lemma {:induction false} HeadsCons(messages: seq<(byte, seq<byte>)>)
    requires messages != []
    ensures Heads(PayloadsOf(messages)) == [HeadOf(messages[0].1)] + Heads(PayloadsOf(messages[1..]))
  {
    assert PayloadsOf(messages)[1..] == PayloadsOf(messages[1..]);
  }

  /** The messages of a stream are found again in front of anything. */
  lemma {:induction false} WrittenHeads(messages: seq<(byte, seq<byte>)>, rest: seq<byte>)
    ensures HeadsOf(EncodeMessages(messages) + rest) == Heads(PayloadsOf(messages)) + HeadsOf(rest)
    ensures Past(EncodeMessages(messages) + rest, |messages|) == rest
    decreases |messages|
  {
    if messages == [] {
      assert EncodeMessages(messages) + rest == rest;
      assert Heads(PayloadsOf(messages)) + HeadsOf(rest) == HeadsOf(rest);
    } else {
      WrittenHeads(messages[1..], rest);
      MessagesFront(messages, rest);
      OneWritten(messages[0].0, messages[0].1, EncodeMessages(messages[1..]) + rest);
      HeadsCons(messages);
      Attach(HeadOf(messages[0].1), Heads(PayloadsOf(messages[1..])), HeadsOf(rest));
    }
  }

  lemma {:induction false} MessagesFront(messages: seq<(byte, seq<byte>)>, rest: seq<byte>)
    requires messages != []
    ensures EncodeMessages(messages) + rest
         == EncodeAll(Split(messages[0].0, messages[0].1)) + (EncodeMessages(messages[1..]) + rest)
  {
  }

  // ----- Reading counters --------------------------------------------------------------------------------------------

  method ReadOkBody(body: seq<byte>, session: Session) returns (affected: Option<nat>, status: nat)
    ensures (affected, status) == ParseOkBody(body, session)
  {
    var c := new Cursor(body);
    var count := c.LenencInt();
    var _ := c.LenencInt();
    affected, status := Flatten(count), 0;
    if session.protocol41 || session.transactions {
      var flags := c.UintLe(2);
      status := OrZero(flags);
    }
  }

  method ReadTerminatorStatus(head: seq<byte>, session: Session) returns (status: nat)
    requires head != []
    ensures status == TerminatorStatus(head, session)
  {
    if session.deprecateEof {
      var _, flags := ReadOkBody(head[1..], session);
      return flags;
    }
    var c := new Cursor(head[1..]);
    var _ := c.UintLe(2);
    var flags := c.UintLe(2);
    return OrZero(flags);
  }

  method ReadPrepareCounts(head: seq<byte>) returns (columns: nat, params: nat)
    requires head != []
    ensures columns == PrepareColumns(head) && params == PrepareParams(head)
  {
    var c := new Cursor(head[1..]);
    var _ := c.UintLe(4);
    var first := c.UintLe(2);
    var second := c.UintLe(2);
    return OrZero(first), OrZero(second);
  }

  method ReadColumnCount(head: seq<byte>) returns (count: Option<nat>)
    ensures count == ColumnCount(head)
  {
    var c := new Cursor(head);
    var read := c.LenencInt();
    return Flatten(read);
  }

  // ----- Forwarding --------------------------------------------------------------------------------------------------

  /** A failed relay: the transport failed or broke off, or the backend's response did. */
  datatype RelayError = Io | Protocol(failure: Failure)

  /** Everything taken from the backend is with the client: nothing is held back, changed or made up. */
  ghost predicate Conserved(sent0: seq<byte>, stream0: seq<byte>, sent: seq<byte>, stream: seq<byte>) {
    sent + stream == sent0 + stream0
  }

  /** What a forwarding step leaves behind, whether or not it succeeds. */
  ghost predicate Forwarded<T>(r: Result<T, RelayError>, sent0: seq<byte>, stream0: seq<byte>, sent: seq<byte>,
                               stream: seq<byte>)
  {
    && (r.Ok? || r.error.Protocol? ==> Conserved(sent0, stream0, sent, stream))
    && sent0 <= sent <= sent0 + stream0
  }

  lemma {:induction false} PacketIsConserved(sent0: seq<byte>, stream0: seq<byte>, sent: seq<byte>, stream: seq<byte>)
    requires Conserved(sent0, stream0, sent, stream) && Front(stream).Some?
    ensures Conserved(sent0, stream0, sent + Encode(Front(stream).value), Behind(stream))
  {
    FrontIsEncoded(stream);
    assert sent + Encode(Front(stream).value) + Behind(stream) == sent + (Encode(Front(stream).value) + Behind(stream));
  }

  method ForwardPacket(rx: PacketReader, tx: PacketWriter, mayInterrupt: bool) returns (r: Result<Packet, RelayError>)
    modifies rx, tx
    ensures Forwarded(r, old(tx.sent), old(rx.Stream()), tx.sent, rx.Stream())
    ensures r.Ok? ==> Front(old(rx.Stream())) == Some(r.value) && rx.Stream() == Behind(old(rx.Stream()))
    ensures r.Err? && r.error.Protocol? ==> r.error.failure == Disconnected && old(rx.Stream()) == rx.Stream() == []
  {
    ghost var sent0, stream0 := tx.sent, rx.Stream();
    var patience: Option<nat> := *;
    var next, _ := rx.NextPacket(if mayInterrupt then patience else None);
    if next.Ended? {
      return Err(Protocol(Disconnected));
    }
    if !next.Got? {
      return Err(Io);
    }
    FrontIsEncoded(stream0);
    PacketIsConserved(sent0, stream0, sent0, stream0);
    var ok := tx.WritePacket(next.value);
    return if ok then Ok(next.value) else Err(Io);
  }

  /** One complete message; its continuation packets are forwarded but not looked at. */
  method NextMessageHead(rx: PacketReader, tx: PacketWriter, mayInterrupt: bool)
    returns (r: Result<seq<byte>, RelayError>)
    modifies rx, tx
    ensures Forwarded(r, old(tx.sent), old(rx.Stream()), tx.sent, rx.Stream())
    ensures r.Ok? ==> PastMessage(old(rx.Stream())) == Some(rx.Stream())
                      && r.value == Front(old(rx.Stream())).value.payload
    ensures r.Err? && r.error.Protocol? ==> r.error.failure == Disconnected && HeadsOf(old(rx.Stream())) == []
  {
    ghost var sent0, stream0 := tx.sent, rx.Stream();
    var first := ForwardPacket(rx, tx, mayInterrupt);
    if first.Err? {
      return Err(first.error);
    }
    var continues := first.value.Continues();
    while continues
      invariant Conserved(sent0, stream0, tx.sent, rx.Stream()) && sent0 <= tx.sent
      invariant PastMessage(stream0) == if continues then PastMessage(rx.Stream()) else Some(rx.Stream())
      decreases |rx.Stream()|
    {
      ghost var sent1, stream1 := tx.sent, rx.Stream();
      var next := ForwardPacket(rx, tx, mayInterrupt);
      Chained(sent0, stream0, sent1, stream1, tx.sent, rx.Stream());
      if next.Err? {
        return Err(next.error);
      }
      continues := next.value.Continues();
    }
    return Ok(first.value.payload);
  }

  lemma {:induction false} Chained(sent0: seq<byte>, stream0: seq<byte>, sent1: seq<byte>, stream1: seq<byte>,
                                   sent: seq<byte>, stream: seq<byte>)
    requires Conserved(sent0, stream0, sent1, stream1) && sent0 <= sent1 <= sent <= sent1 + stream1
    ensures sent0 <= sent <= sent0 + stream0
    ensures Conserved(sent1, stream1, sent, stream) ==> Conserved(sent0, stream0, sent, stream)
  {
  }

  // ----- The loops ---------------------------------------------------------------------------------------------------

  /** A step took exactly `used` whole messages and passed them on. */
  ghost predicate Took(used: nat, sent0: seq<byte>, stream0: seq<byte>, sent: seq<byte>, stream: seq<byte>) {
    && used <= |HeadsOf(stream0)| && Past(stream0, used) == stream
    && Conserved(sent0, stream0, sent, stream) && sent0 <= sent
  }

  lemma {:induction false} TookMore(used: nat, more: nat, sent0: seq<byte>, stream0: seq<byte>, sent1: seq<byte>,
                                    stream1: seq<byte>, sent: seq<byte>, stream: seq<byte>)
    requires Took(used, sent0, stream0, sent1, stream1) && Took(more, sent1, stream1, sent, stream)
    ensures Took(used + more, sent0, stream0, sent, stream)
    ensures HeadsOf(stream) == HeadsOf(stream0)[used + more..]
  {
    PastAdds(stream0, used, more);
    Chained(sent0, stream0, sent1, stream1, sent, stream);
  }

  /** The next head, with its place among the heads of the stream. */
  method NextHead(rx: PacketReader, tx: PacketWriter, mayInterrupt: bool) returns (r: Result<seq<byte>, RelayError>)
    modifies rx, tx
    ensures Forwarded(r, old(tx.sent), old(rx.Stream()), tx.sent, rx.Stream())
    ensures r.Ok? ==> Took(1, old(tx.sent), old(rx.Stream()), tx.sent, rx.Stream())
                      && HeadsOf(old(rx.Stream())) == [r.value] + HeadsOf(rx.Stream())
    ensures r.Err? && r.error.Protocol? ==> r.error.failure == Disconnected && HeadsOf(old(rx.Stream())) == []
  {
    r := NextMessageHead(rx, tx, mayInterrupt);
  }

  /** The message after the `i` already taken. */
  method TakeHead(rx: PacketReader, tx: PacketWriter, ghost sent0: seq<byte>, ghost stream0: seq<byte>, ghost i: nat,
                  mayInterrupt: bool)
    returns (r: Result<seq<byte>, RelayError>)
    requires Took(i, sent0, stream0, tx.sent, rx.Stream())
    modifies rx, tx
    ensures Forwarded(r, sent0, stream0, tx.sent, rx.Stream())
    ensures r.Ok? ==> Took(i + 1, sent0, stream0, tx.sent, rx.Stream()) && r.value == HeadsOf(stream0)[i]
    ensures r.Err? && r.error.Protocol? ==> r.error.failure == Disconnected && |HeadsOf(stream0)| == i
  {
    ghost var sent1, stream1 := tx.sent, rx.Stream();
    r := NextHead(rx, tx, mayInterrupt);
    Chained(sent0, stream0, sent1, stream1, tx.sent, rx.Stream());
    if r.Ok? {
      TookMore(i, 1, sent0, stream0, sent1, stream1, tx.sent, rx.Stream());
    }
  }

  /** Column definitions, and the EOF after them when there is one, behind `i` messages already taken. */
  method SkipColumnDefinitions(rx: PacketReader, tx: PacketWriter, ghost sent0: seq<byte>, ghost stream0: seq<byte>,
                               ghost i: nat, count: nat, session: Session, mayInterrupt: bool)
    returns (r: Result<nat, RelayError>)
    requires Took(i, sent0, stream0, tx.sent, rx.Stream())
    modifies rx, tx
    ensures Forwarded(r, sent0, stream0, tx.sent, rx.Stream())
    ensures r.Ok? ==> r.value == Definitions(count, session)
                      && Took(i + r.value, sent0, stream0, tx.sent, rx.Stream())
    ensures r.Err? && r.error.Protocol? ==>
              r.error.failure == Disconnected && |HeadsOf(stream0)| < i + Definitions(count, session)
  {
    hide HeadsOf, Past;
    r := SkipMessages(rx, tx, sent0, stream0, i, count, mayInterrupt);
    if r.Ok? && count > 0 && !session.deprecateEof {
      var eof := TakeHead(rx, tx, sent0, stream0, i + count, mayInterrupt);
      if eof.Err? {
        return Err(eof.error);
      }
      return Ok(count + 1);
    }
  }

  method SkipMessages(rx: PacketReader, tx: PacketWriter, ghost sent0: seq<byte>, ghost stream0: seq<byte>,
                      ghost i: nat, count: nat, mayInterrupt: bool)
    returns (r: Result<nat, RelayError>)
    requires Took(i, sent0, stream0, tx.sent, rx.Stream())
    modifies rx, tx
    ensures Forwarded(r, sent0, stream0, tx.sent, rx.Stream())
    ensures r.Ok? ==> r.value == count && Took(i + count, sent0, stream0, tx.sent, rx.Stream())
    ensures r.Err? && r.error.Protocol? ==> r.error.failure == Disconnected && |HeadsOf(stream0)| < i + count
  {
    for k := 0 to count
      invariant Took(i + k, sent0, stream0, tx.sent, rx.Stream())
    {
      var head := TakeHead(rx, tx, sent0, stream0, i + k, mayInterrupt);
      if head.Err? {
        return Err(head.error);
      }
    }
    return Ok(count);
  }

  /** The row phase, behind `start` messages: each message is one row until an error or the terminator. */
  method RelayRows(rx: PacketReader, tx: PacketWriter, ghost sent0: seq<byte>, ghost stream0: seq<byte>,
                   ghost start: nat, before: nat, session: Session, mayInterrupt: bool)
    returns (r: Result<RowEnd, RelayError>)
    requires Took(start, sent0, stream0, tx.sent, rx.Stream())
    modifies rx, tx
    ensures Forwarded(r, sent0, stream0, tx.sent, rx.Stream())
    ensures r.Ok? ==> !r.value.RowsLost? && r.value == ReadRows(HeadsOf(stream0)[start..], before, session)
                      && Took(start + r.value.used, sent0, stream0, tx.sent, rx.Stream())
    ensures r.Err? && r.error.Protocol? ==>
              r.error.failure == Disconnected && ReadRows(HeadsOf(stream0)[start..], before, session) == RowsLost
  {
    hide HeadsOf, Past, ReadRows;
    var taken := 0;
    NoRowsYet(HeadsOf(stream0)[start..], before, session);
    while true
      invariant Took(start + taken, sent0, stream0, tx.sent, rx.Stream())
      invariant RowsSoFar(HeadsOf(stream0)[start..], taken, before, session)
      decreases |HeadsOf(stream0)| - taken
    {
      var end := RelayRow(rx, tx, sent0, stream0, start, before, taken, session, mayInterrupt);
      if end.Err? {
        return Err(end.error);
      }
      if end.value.Some? {
        return Ok(end.value.value);
      }
      taken := taken + 1;
    }
  }

  /** One message of the row phase: how it ends the phase, or nothing when it is a row. */
  method RelayRow(rx: PacketReader, tx: PacketWriter, ghost sent0: seq<byte>, ghost stream0: seq<byte>,
                  ghost start: nat, before: nat, taken: nat, session: Session, mayInterrupt: bool)
    returns (r: Result<Option<RowEnd>, RelayError>)
    requires Took(start + taken, sent0, stream0, tx.sent, rx.Stream())
    requires RowsSoFar(HeadsOf(stream0)[start..], taken, before, session)
    modifies rx, tx
    ensures Forwarded(r, sent0, stream0, tx.sent, rx.Stream())
    ensures r.Ok? ==> Took(start + taken + 1, sent0, stream0, tx.sent, rx.Stream())
    ensures r.Ok? && r.value.None? ==> RowsSoFar(HeadsOf(stream0)[start..], taken + 1, before, session)
    ensures r.Ok? && r.value.Some? ==> r.value.value == ReadRows(HeadsOf(stream0)[start..], before, session)
                                       && !r.value.value.RowsLost? && r.value.value.used == taken + 1
    ensures r.Err? && r.error.Protocol? ==>
              r.error.failure == Disconnected && ReadRows(HeadsOf(stream0)[start..], before, session) == RowsLost
  {
    ghost var heads := HeadsOf(stream0)[start..];
    var row := TakeHead(rx, tx, sent0, stream0, start + taken, mayInterrupt);
    if row.Err? {
      RowsRunOut(heads, taken, before, session);
      return Err(row.error);
    }
    RowIsTaken(heads, taken, before, session);
    if IsErr(row.value) {
      return Ok(Some(Errored(row.value, before + taken, taken + 1)));
    }
    if IsTerminator(row.value) {
      var status := ReadTerminatorStatus(row.value, session);
      return Ok(Some(Terminated(status, before + taken, taken + 1)));
    }
    return Ok(None);
  }

  lemma {:induction false} RowsRunOut(heads: seq<seq<byte>>, taken: nat, before: nat, session: Session)
    requires RowsSoFar(heads, taken, before, session)
    ensures taken == |heads| ==> ReadRows(heads, before, session) == RowsLost
  {
  }

  ghost predicate RowsSoFar(heads: seq<seq<byte>>, taken: nat, before: nat, session: Session) {
    && taken <= |heads|
    && ReadRows(heads, before, session) == Advanced(ReadRows(heads[taken..], before + taken, session), taken)
  }

  lemma {:induction false} NoRowsYet(heads: seq<seq<byte>>, before: nat, session: Session)
    ensures RowsSoFar(heads, 0, before, session)
  {
    assert heads[0..] == heads;
  }

  lemma {:induction false} RowIsTaken(heads: seq<seq<byte>>, taken: nat, before: nat, session: Session)
    requires RowsSoFar(heads, taken, before, session) && taken < |heads|
    ensures if IsErr(heads[taken]) then
              ReadRows(heads, before, session) == Errored(heads[taken], before + taken, taken + 1)
            else if IsTerminator(heads[taken]) then
              ReadRows(heads, before, session)
              == Terminated(TerminatorStatus(heads[taken], session), before + taken, taken + 1)
            else RowsSoFar(heads, taken + 1, before, session)
  {
    assert heads[taken..][1..] == heads[taken + 1..];
  }

  // ----- Whole responses ---------------------------------------------------------------------------------------------

  /** The relay did what the state machine says, on exactly the messages it says. */
  ghost predicate Relayed(r: Result<Outcome, RelayError>, run: Run, sent0: seq<byte>, stream0: seq<byte>,
                          sent: seq<byte>, stream: seq<byte>)
  {
    && Forwarded(r, sent0, stream0, sent, stream)
    && (r.Ok? ==> run.result == Ok(r.value) && Took(run.used, sent0, stream0, sent, stream))
    && (r.Err? && r.error.Protocol? ==> run.result == Err(r.error.failure))
  }

  method RelayPrepared(rx: PacketReader, tx: PacketWriter, session: Session, mayInterrupt: bool)
    returns (r: Result<Outcome, RelayError>)
    modifies rx, tx
    ensures Relayed(r, RelayPrepare(HeadsOf(old(rx.Stream())), session), old(tx.sent), old(rx.Stream()), tx.sent,
                    rx.Stream())
  {
    hide HeadsOf, Past;
    ghost var sent0, stream0 := tx.sent, rx.Stream();
    var head := NextHead(rx, tx, mayInterrupt);
    if head.Err? {
      return Err(head.error);
    }
    if IsErr(head.value) {
      return Ok(Failed(NOTHING_YET, head.value, session));
    }
    if !StartsWith(head.value, 0) {
      return Err(Protocol(Malformed));
    }
    var columns, params := ReadPrepareCounts(head.value);
    var skipped := SkipColumnDefinitions(rx, tx, sent0, stream0, 1, params, session, mayInterrupt);
    if skipped.Err? {
      return Err(skipped.error);
    }
    var more := SkipColumnDefinitions(rx, tx, sent0, stream0, 1 + skipped.value, columns, session, mayInterrupt);
    if more.Err? {
      return Err(more.error);
    }
    return Ok(NOTHING_YET.(kind := Some(Prepared)));
  }

  method RelayFields(rx: PacketReader, tx: PacketWriter, session: Session, mayInterrupt: bool)
    returns (r: Result<Outcome, RelayError>)
    modifies rx, tx
    ensures Relayed(r, RelayFieldList(HeadsOf(old(rx.Stream())), 0, session), old(tx.sent), old(rx.Stream()), tx.sent,
                    rx.Stream())
  {
    ghost var sent0, stream0, heads := tx.sent, rx.Stream(), HeadsOf(rx.Stream());
    var fields := 0;
    while true
      invariant Took(fields, sent0, stream0, tx.sent, rx.Stream())
      invariant RelayFieldList(heads, 0, session) == Later(fields, RelayFieldList(heads[fields..], fields, session))
      decreases |heads| - fields
    {
      var head := TakeHead(rx, tx, sent0, stream0, fields, mayInterrupt);
      if head.Err? {
        return Err(head.error);
      }
      if IsErr(head.value) {
        return Ok(Failed(NOTHING_YET, head.value, session));
      }
      if IsTerminator(head.value) {
        return Ok(NOTHING_YET.(kind := Some(ResultSet), returned := Some(fields)));
      }
      assert heads[fields..][1..] == heads[fields + 1..];
      fields := fields + 1;
    }
  }

  /** A result set behind the `at` messages already taken. */
  method RelaySet(rx: PacketReader, tx: PacketWriter, ghost sent0: seq<byte>, ghost stream0: seq<byte>, head: seq<byte>,
                  rows: nat, session: Session, mayInterrupt: bool)
    returns (r: Result<RowEnd, RelayError>)
    requires HeadsOf(stream0) != [] && head == HeadsOf(stream0)[0] && ColumnCount(head).Some?
    requires Took(1, sent0, stream0, tx.sent, rx.Stream())
    modifies rx, tx
    ensures Forwarded(r, sent0, stream0, tx.sent, rx.Stream())
    ensures r.Ok? ==> (&& SetStart(head, session) <= |HeadsOf(stream0)| && !r.value.RowsLost?
                       && r.value == ReadRows(HeadsOf(stream0)[SetStart(head, session)..], rows, session)
                       && Took(SetStart(head, session) + r.value.used, sent0, stream0, tx.sent, rx.Stream()))
    ensures r.Err? && r.error.Protocol? ==>
              r.error.failure == Disconnected
              && (|HeadsOf(stream0)| < SetStart(head, session)
                  || ReadRows(HeadsOf(stream0)[SetStart(head, session)..], rows, session) == RowsLost)
  {
    hide HeadsOf, Past, ReadRows;
    var count := ReadColumnCount(head);
    var skipped := SkipColumnDefinitions(rx, tx, sent0, stream0, 1, count.value, session, mayInterrupt);
    if skipped.Err? {
      return Err(skipped.error);
    }
    r := RelayRows(rx, tx, sent0, stream0, SetStart(head, session), rows, session, mayInterrupt);
  }

  function UsedBy(step: Step): nat {
    match step
    case Stop(run) => run.used
    case Go(used, _) => used
  }

  /** The relay took the step the state machine takes, over exactly its messages. */
  ghost predicate Stepped(r: Result<Step, RelayError>, step: Step, sent0: seq<byte>, stream0: seq<byte>,
                          sent: seq<byte>, stream: seq<byte>)
  {
    && Forwarded(r, sent0, stream0, sent, stream)
    && (r.Ok? ==> r.value == step && (step.Stop? ==> step.run.result.Ok?)
                  && Took(UsedBy(step), sent0, stream0, sent, stream))
    && (r.Err? && r.error.Protocol? ==> step.Stop? && step.run.result == Err(r.error.failure))
  }

  method RelayNextSet(rx: PacketReader, tx: PacketWriter, ghost sent0: seq<byte>, ghost stream0: seq<byte>,
                      head: seq<byte>, at: Progress, session: Session, mayInterrupt: bool)
    returns (r: Result<Step, RelayError>)
    requires HeadsOf(stream0) != [] && head == HeadsOf(stream0)[0] && ColumnCount(head).Some?
    requires Took(1, sent0, stream0, tx.sent, rx.Stream())
    modifies rx, tx
    ensures Stepped(r, NextSet(HeadsOf(stream0), at, session), sent0, stream0, tx.sent, rx.Stream())
  {
    var end := RelaySet(rx, tx, sent0, stream0, head, at.rows, session, mayInterrupt);
    return if end.Ok? then Ok(AfterSet(end.value, SetStart(head, session), at, session)) else Err(end.error);
  }

  /** One result of a command. */
  method RelayOne(rx: PacketReader, tx: PacketWriter, at: Progress, session: Session, mayInterrupt: bool)
    returns (r: Result<Step, RelayError>)
    modifies rx, tx
    ensures Stepped(r, NextResult(HeadsOf(old(rx.Stream())), at, session), old(tx.sent), old(rx.Stream()), tx.sent,
                    rx.Stream())
  {
    ghost var sent0, stream0 := tx.sent, rx.Stream();
    var read := NextHead(rx, tx, mayInterrupt);
    if read.Err? {
      return Err(read.error);
    }
    var head := read.value;
    if head == [] {
      return Err(Protocol(Malformed));
    }
    if IsErr(head) {
      return Ok(Stop(Run(Ok(Failed(at.out, head, session)), 1)));
    }
    if head[0] == 0xFB {
      return Err(Protocol(LocalInfileRequested));
    }
    if head[0] == 0 {
      var affected, status := ReadOkBody(head[1..], session);
      return Ok(Onward(status, 1, AfterOk(at, affected)));
    }
    var count := ReadColumnCount(head);
    if count.None? {
      return Err(Protocol(Malformed));
    }
    r := RelayNextSet(rx, tx, sent0, stream0, head, at, session, mayInterrupt);
  }

  /** The whole run is the messages taken, and the run from where the relay stands. */
  ghost predicate Standing(heads: seq<seq<byte>>, taken: nat, at: Progress, session: Session) {
    && taken <= |heads|
    && RelayGeneric(heads, START, session) == Later(taken, RelayGeneric(heads[taken..], at, session))
  }

  lemma {:induction false} StepIsTaken(heads: seq<seq<byte>>, taken: nat, at: Progress, session: Session)
    requires Standing(heads, taken, at, session)
    ensures var step := NextResult(heads[taken..], at, session);
            if step.Stop? then RelayGeneric(heads, START, session) == Later(taken, step.run)
            else Standing(heads, taken + step.used, step.next, session)
  {
    var step := NextResult(heads[taken..], at, session);
    if step.Go? {
      assert heads[taken..][step.used..] == heads[taken + step.used..];
    }
  }

  method RelayResults(rx: PacketReader, tx: PacketWriter, session: Session, mayInterrupt: bool)
    returns (r: Result<Outcome, RelayError>)
    modifies rx, tx
    ensures Relayed(r, RelayGeneric(HeadsOf(old(rx.Stream())), START, session), old(tx.sent), old(rx.Stream()),
                    tx.sent, rx.Stream())
  {
    ghost var sent0, stream0, heads := tx.sent, rx.Stream(), HeadsOf(rx.Stream());
    var at := START;
    ghost var taken := 0;
    while true
      invariant Took(taken, sent0, stream0, tx.sent, rx.Stream()) && Standing(heads, taken, at, session)
      decreases |heads| - taken
    {
      var over;
      over, at, taken := RelayOneMore(rx, tx, sent0, stream0, taken, at, session, mayInterrupt);
      if over.Some? {
        return over.value;
      }
    }
  }

  /** One result behind the `taken` messages of those before it: the end of the response, or a step onward. */
  method RelayOneMore(rx: PacketReader, tx: PacketWriter, ghost sent0: seq<byte>, ghost stream0: seq<byte>,
                      ghost taken: nat, at: Progress, session: Session, mayInterrupt: bool)
    returns (over: Option<Result<Outcome, RelayError>>, next: Progress, ghost now: nat)
    requires Took(taken, sent0, stream0, tx.sent, rx.Stream()) && Standing(HeadsOf(stream0), taken, at, session)
    modifies rx, tx
    ensures over.Some? ==> Relayed(over.value, RelayGeneric(HeadsOf(stream0), START, session), sent0, stream0, tx.sent,
                                   rx.Stream())
    ensures over.None? ==> taken < now && Took(now, sent0, stream0, tx.sent, rx.Stream())
                           && Standing(HeadsOf(stream0), now, next, session)
  {
    hide HeadsOf, Past, RelayGeneric, NextResult;
    ghost var sent1, stream1, step := tx.sent, rx.Stream(), NextResult(HeadsOf(rx.Stream()), at, session);
    StepIsTaken(HeadsOf(stream0), taken, at, session);
    next, now := at, taken;
    var r := RelayOne(rx, tx, at, session, mayInterrupt);
    StepConcludes(r, step, taken, sent0, stream0, sent1, stream1, tx.sent, rx.Stream(),
                  RelayGeneric(HeadsOf(stream0), START, session));
    if r.Err? {
      over := Some(Err(r.error));
    } else {
      now := taken + UsedBy(r.value);
      match r.value
      case Stop(run) => over := Some(Ok(run.result.value));
      case Go(_, onward) => over, next := None, onward;
    }
  }

  /** What a step behind `taken` messages makes of the whole relay. */
  lemma {:induction false} StepConcludes(r: Result<Step, RelayError>, step: Step, taken: nat, sent0: seq<byte>,
                                         stream0: seq<byte>, sent1: seq<byte>, stream1: seq<byte>, sent: seq<byte>,
                                         stream: seq<byte>, whole: Run)
    requires Took(taken, sent0, stream0, sent1, stream1) && Stepped(r, step, sent1, stream1, sent, stream)
    requires step.Stop? ==> whole == Later(taken, step.run)
    ensures r.Err? ==> Relayed(Err(r.error), whole, sent0, stream0, sent, stream)
    ensures r.Ok? && step.Stop? ==>
              step.run.result.Ok? && Relayed(Ok(step.run.result.value), whole, sent0, stream0, sent, stream)
    ensures r.Ok? && step.Go? ==> Took(taken + step.used, sent0, stream0, sent, stream)
  {
    hide HeadsOf, Past;
    Chained(sent0, stream0, sent1, stream1, sent, stream);
    if r.Ok? {
      TookMore(taken, UsedBy(r.value), sent0, stream0, sent1, stream1, sent, stream);
    }
  }

  /** Relays a complete response: nothing more, nothing less, nothing changed. */
  method RelayResponse(rx: PacketReader, tx: PacketWriter, session: Session, shape: Shape, mayInterrupt: bool)
    returns (r: Result<Outcome, RelayError>)
    modifies rx, tx
    ensures Relayed(r, RelayHeads(HeadsOf(old(rx.Stream())), shape, session), old(tx.sent), old(rx.Stream()), tx.sent,
                    rx.Stream())
  {
    match shape
    case NoReply =>
      return Ok(NOTHING_YET.(kind := Some(NoResponse)));
    case Statistics =>
      var head := NextHead(rx, tx, mayInterrupt);
      return if head.Ok? then Ok(NOTHING_YET.(kind := Some(StatisticsText))) else Err(head.error);
    case PrepareOk =>
      r := RelayPrepared(rx, tx, session, mayInterrupt);
    case FieldList =>
      r := RelayFields(rx, tx, session, mayInterrupt);
    case Generic =>
      r := RelayResults(rx, tx, session, mayInterrupt);
  }

  // ----- From the heads to the bytes -------------------------------------------------------------------------------

  /** The relay stops behind the first part of a stream and forwards that part alone. */
  ghost predicate StopsBehind(stream: seq<byte>, front: seq<byte>, rest: seq<byte>, used: nat) {
    && used <= |HeadsOf(stream)| && Past(stream, used) == rest
    && forall sent0, sent :: Took(used, sent0, stream, sent, rest) ==> sent == sent0 + front
  }

  lemma {:induction false} BytesFollowHeads(messages: seq<(byte, seq<byte>)>, rest: seq<byte>)
    ensures HeadsOf(EncodeMessages(messages) + rest) == Heads(PayloadsOf(messages)) + HeadsOf(rest)
    ensures StopsBehind(EncodeMessages(messages) + rest, EncodeMessages(messages), rest, |messages|)
  {
    var stream := EncodeMessages(messages) + rest;
    WrittenHeads(messages, rest);
    forall sent0, sent | Took(|messages|, sent0, stream, sent, rest)
      ensures sent == sent0 + EncodeMessages(messages)
    {
      assert sent + rest == sent0 + EncodeMessages(messages) + rest;
      assert sent == (sent + rest)[..|sent|];
    }
  }

  /**
   From the bytes: a stream that starts with a well-formed reply, written with any sequence ids, is relayed up
   to the reply's last byte, which alone reach the client, and what comes after is left for the next command.
   */
  lemma {:induction false} RelayIsExact(reply: Reply, messages: seq<(byte, seq<byte>)>, rest: seq<byte>,
                                        session: Session)
    requires WellFormed(reply, session) && PayloadsOf(messages) == Payloads(reply, session)
    ensures var stream := EncodeMessages(messages) + rest;
            var run := RelayHeads(HeadsOf(stream), Generic, session);
            && run.result.Ok? && Reports(run.result.value, reply, session)
            && StopsBehind(stream, EncodeMessages(messages), rest, run.used)
  {
    BytesFollowHeads(messages, rest);
    QueryReplyIsExact(reply, HeadsOf(rest), session);
  }

  /** The same for the reply to a PREPARE. */
  lemma {:induction false} PreparedRelayIsExact(reply: PreparedReply, messages: seq<(byte, seq<byte>)>, rest: seq<byte>,
                                                session: Session)
    requires PreparedInRange(reply) && PayloadsOf(messages) == PreparedPayloads(reply, session)
    ensures var stream := EncodeMessages(messages) + rest;
            var run := RelayHeads(HeadsOf(stream), PrepareOk, session);
            && run.result == Ok(NOTHING_YET.(kind := Some(Prepared)))
            && StopsBehind(stream, EncodeMessages(messages), rest, run.used)
  {
    BytesFollowHeads(messages, rest);
    PreparedReplyIsExact(reply, HeadsOf(rest), session);
  }

  /** The same for a field list, which counts its definitions. */
  lemma {:induction false} FieldListRelayIsExact(fields: seq<seq<byte>>, ending: Ending,
                                                 messages: seq<(byte, seq<byte>)>, rest: seq<byte>, session: Session)
    requires EndingInRange(ending, session) && NoEnd(Heads(fields))
    requires PayloadsOf(messages) == fields + [EndingBytes(ending, session)]
    ensures var stream := EncodeMessages(messages) + rest;
            var run := RelayHeads(HeadsOf(stream), FieldList, session);
            && run.result == Ok(NOTHING_YET.(kind := Some(ResultSet), returned := Some(|fields|)))
            && StopsBehind(stream, EncodeMessages(messages), rest, run.used)
  {
    BytesFollowHeads(messages, rest);
    FieldListIsExact(fields, ending, HeadsOf(rest), 0, session);
  }

  /** A refusal in the place of the reply to a PREPARE is recorded with its code, state and text. */
  lemma {:induction false} RefusedPrepareRelayIsExact(err: ErrPacket, messages: seq<(byte, seq<byte>)>, rest: seq<byte>,
                                                      session: Session)
    requires ErrInRange(err, session) && PayloadsOf(messages) == [ErrBytes(err)]
    ensures |ErrFront(err)| < MAX_PAYLOAD
    ensures var stream := EncodeMessages(messages) + rest;
            var run := RelayHeads(HeadsOf(stream), PrepareOk, session);
            && run.result == Ok(RefusedWith(err)) && StopsBehind(stream, EncodeMessages(messages), rest, run.used)
  {
    BytesFollowHeads(messages, rest);
    RefusedPrepareIsExact(err, HeadsOf(rest), session);
  }

  /** The same for a field list that is broken off. */
  lemma {:induction false} BrokenFieldListRelayIsExact(fields: seq<seq<byte>>, err: ErrPacket,
                                                       messages: seq<(byte, seq<byte>)>, rest: seq<byte>,
                                                       session: Session)
    requires ErrInRange(err, session) && NoEnd(Heads(fields))
    requires PayloadsOf(messages) == fields + [ErrBytes(err)]
    ensures |ErrFront(err)| < MAX_PAYLOAD
    ensures var stream := EncodeMessages(messages) + rest;
            var run := RelayHeads(HeadsOf(stream), FieldList, session);
            && run.result == Ok(RefusedWith(err)) && StopsBehind(stream, EncodeMessages(messages), rest, run.used)
  {
    BytesFollowHeads(messages, rest);
    BrokenFieldListIsExact(fields, err, HeadsOf(rest), 0, session);
  }
}

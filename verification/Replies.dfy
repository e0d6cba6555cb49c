/**
 The replies a backend may give (MySQL Client/Server Protocol, sections 14.1.3, 14.6.4.1 and 14.7.4.1), as
 a grammar of their own, and the exactness of the relay on every one of them.
 */
module Replies {
  import opened Common
  import opened Framing
  import opened Cursors
  import opened Response

  datatype OkPacket = OkPacket(affected: nat, lastId: nat, status: nat, tail: seq<byte>)

  /** A row: text values, each possibly NULL, or the body of a binary row. */
  datatype Row = Text(cells: seq<Option<seq<byte>>>) | Binary(body: seq<byte>)

  /** What ends a result set under either convention. */
  datatype Ending = Eof(warnings: nat, status: nat) | OkEnding(ok: OkPacket)

  datatype Reply =
    | ErrReply(message: seq<byte>)
    | OkReply(ok: OkPacket, more: Option<Reply>)
    | Rows(columns: seq<seq<byte>>, eof: seq<byte>, rows: seq<Row>, ending: Ending, more: Option<Reply>)
    | RowsThenErr(columns: seq<seq<byte>>, eof: seq<byte>, rows: seq<Row>, message: seq<byte>)

  // ----- Encoding --------------------------------------------------------------------------------------------

  predicate HasStatus(session: Session) {
    session.protocol41 || session.transactions
  }

  predicate OkInRange(ok: OkPacket) {
    ok.affected < TWO_TO_64 && ok.lastId < TWO_TO_64 && ok.status < 0x1_0000
  }

  function OkBytes(header: byte, ok: OkPacket, session: Session): (r: seq<byte>)
    requires OkInRange(ok)
    ensures r != [] && r[0] == header
  {
    [header] + OkCounters(ok, session) + ok.tail
  }

  function OkCounters(ok: OkPacket, session: Session): (r: seq<byte>)
    requires OkInRange(ok)
    ensures |r| <= 20
  {
    Lenenc(ok.affected) + Lenenc(ok.lastId) + (if HasStatus(session) then ToLe(ok.status, 2) else [])
  }

  function CellBytes(cell: Option<seq<byte>>): seq<byte>
    requires cell.Some? ==> |cell.value| < TWO_TO_64
  {
    if cell.None? then [0xFB] else Lenenc(|cell.value|) + cell.value
  }

  function CellsBytes(cells: seq<Option<seq<byte>>>): seq<byte>
    requires forall i :: 0 <= i < |cells| && cells[i].Some? ==> |cells[i].value| < TWO_TO_64
  {
    if cells == [] then [] else CellBytes(cells[0]) + CellsBytes(cells[1..])
  }

  predicate RowInRange(row: Row) {
    row.Text? ==>
      (row.cells != [] && forall i :: 0 <= i < |row.cells| && row.cells[i].Some? ==> |row.cells[i].value| < TWO_TO_64)
  }

  function RowBytes(row: Row): seq<byte>
    requires RowInRange(row)
  {
    match row
    case Text(cells) => CellsBytes(cells)
    case Binary(body) => [0] + body
  }

  predicate EndingInRange(ending: Ending, session: Session) {
    match ending
    case Eof(warnings, status) => !session.deprecateEof && warnings < 0x1_0000 && status < 0x1_0000
    case OkEnding(ok) => session.deprecateEof && OkInRange(ok) && |OkBytes(0xFE, ok, session)| < MAX_PAYLOAD
  }

  function EndingBytes(ending: Ending, session: Session): seq<byte>
    requires EndingInRange(ending, session)
  {
    match ending
    case Eof(warnings, status) => [0xFE] + ToLe(warnings, 2) + ToLe(status, 2)
    case OkEnding(ok) => OkBytes(0xFE, ok, session)
  }

  function StatusOf(ok: OkPacket, session: Session): nat {
    if HasStatus(session) then ok.status else 0
  }

  function EndingStatus(ending: Ending, session: Session): nat {
    match ending
    case Eof(_, status) => status
    case OkEnding(ok) => StatusOf(ok, session)
  }

  predicate SetInRange(columns: seq<seq<byte>>, rows: seq<Row>) {
    0 < |columns| < TWO_TO_64 && forall i :: 0 <= i < |rows| ==> RowInRange(rows[i])
  }

  /** `SERVER_MORE_RESULTS_EXISTS` (section 14.1.3.1) is the status flag of weight eight. */
  predicate Announces(status: nat) {
    status % 16 >= 8
  }

  /** A reply follows the protocol: another result comes exactly when the last one announced it. */
  predicate WellFormed(reply: Reply, session: Session) {
    match reply
    case ErrReply(message) => IsErr(message)
    case OkReply(ok, more) =>
      (&& OkInRange(ok) && (Announces(StatusOf(ok, session)) <==> more.Some?)
       && (more.Some? ==> WellFormed(more.value, session)))
    case Rows(columns, _, rows, ending, more) =>
      (&& SetInRange(columns, rows) && EndingInRange(ending, session)
       && (Announces(EndingStatus(ending, session)) <==> more.Some?)
       && (more.Some? ==> WellFormed(more.value, session)))
    case RowsThenErr(columns, _, rows, message) => SetInRange(columns, rows) && IsErr(message)
  }

  function RowPayloads(rows: seq<Row>): (r: seq<seq<byte>>)
    requires forall i :: 0 <= i < |rows| ==> RowInRange(rows[i])
    ensures |r| == |rows|
  {
    if rows == [] then [] else [RowBytes(rows[0])] + RowPayloads(rows[1..])
  }

  /** The column count, the definitions, and the EOF after them when it is in use. */
  function SetHeader(columns: seq<seq<byte>>, eof: seq<byte>, session: Session): seq<seq<byte>>
    requires 0 < |columns| < TWO_TO_64
  {
    [Lenenc(|columns|)] + columns + (if session.deprecateEof then [] else [eof])
  }

  /** The messages of a reply. */
  function Payloads(reply: Reply, session: Session): seq<seq<byte>>
    requires WellFormed(reply, session)
  {
    match reply
    case ErrReply(message) => [message]
    case OkReply(ok, more) =>
      [OkBytes(0, ok, session)] + (if more.Some? then Payloads(more.value, session) else [])
    case Rows(columns, eof, rows, ending, more) =>
      SetHeader(columns, eof, session) + RowPayloads(rows) + [EndingBytes(ending, session)]
      + (if more.Some? then Payloads(more.value, session) else [])
    case RowsThenErr(columns, eof, rows, message) =>
      SetHeader(columns, eof, session) + RowPayloads(rows) + [message]
  }

  /** The first packet's payload of a message. */
  function HeadOf(payload: seq<byte>): seq<byte> {
    if |payload| < MAX_PAYLOAD then payload else payload[..MAX_PAYLOAD]
  }

  function Heads(payloads: seq<seq<byte>>): (r: seq<seq<byte>>)
    ensures |r| == |payloads|
  {
    if payloads == [] then [] else [HeadOf(payloads[0])] + Heads(payloads[1..])
  }

  // ----- What a reply contains -----------------------------------------------------------------------------------

  function TotalRows(reply: Reply): nat {
    match reply
    case ErrReply(_) => 0
    case OkReply(_, more) => if more.Some? then TotalRows(more.value) else 0
    case Rows(_, _, rows, _, more) => |rows| + (if more.Some? then TotalRows(more.value) else 0)
    case RowsThenErr(_, _, rows, _) => |rows|
  }

  function SetCount(reply: Reply): nat {
    match reply
    case ErrReply(_) => 0
    case OkReply(_, more) => if more.Some? then SetCount(more.value) else 0
    case Rows(_, _, _, _, more) => 1 + (if more.Some? then SetCount(more.value) else 0)
    case RowsThenErr(_, _, _, _) => 1
  }

  function OkCount(reply: Reply): nat {
    match reply
    case OkReply(_, more) => 1 + (if more.Some? then OkCount(more.value) else 0)
    case Rows(_, _, _, _, more) => if more.Some? then OkCount(more.value) else 0
    case _ => 0
  }

  function TotalAffected(reply: Reply): nat {
    match reply
    case OkReply(ok, more) => ok.affected + (if more.Some? then TotalAffected(more.value) else 0)
    case Rows(_, _, _, _, more) => if more.Some? then TotalAffected(more.value) else 0
    case _ => 0
  }

  /** The error a reply ends with. */
  function ErrorOf(reply: Reply): Option<seq<byte>> {
    match reply
    case ErrReply(message) => Some(message)
    case OkReply(_, more) => if more.Some? then ErrorOf(more.value) else None
    case Rows(_, _, _, _, more) => if more.Some? then ErrorOf(more.value) else None
    case RowsThenErr(_, _, _, message) => Some(message)
  }

  // ----- Heads of the messages -------------------------------------------------------------------------------------

  /** An OK packet's counters are read back whatever comes after them. */
  lemma {:induction false} OkBodyParses(ok: OkPacket, tail: seq<byte>, session: Session)
    requires OkInRange(ok)
    ensures ParseOkBody(OkCounters(ok, session) + tail, session) == (Some(ok.affected), StatusOf(ok, session))
  {
    var a, l := Lenenc(ok.affected), Lenenc(ok.lastId);
    var status := if HasStatus(session) then ToLe(ok.status, 2) else [];
    var body := OkCounters(ok, session) + tail;
    assert body == a + l + status + tail;
    LenencsParse(ok.affected, ok.lastId, status + tail);
    assert a + l + (status + tail) == body;
    if HasStatus(session) {
      Powers();
      UintRoundTrip(a + l, ok.status, 2, tail);
    }
  }

  lemma {:induction false} Bracket(a: seq<byte>, b: seq<byte>, c: seq<byte>)
    ensures a + (b + c) == a + b + c
  {
  }

  lemma {:induction false} LenencsParse(first: nat, second: nat, rest: seq<byte>)
    requires first < TWO_TO_64 && second < TWO_TO_64
    ensures var body := Lenenc(first) + Lenenc(second) + rest;
            && TakeLenenc(body, 0) == Taken(Some(Some(first)), |Lenenc(first)|)
            && TakeLenenc(body, |Lenenc(first)|) == Taken(Some(Some(second)), |Lenenc(first)| + |Lenenc(second)|)
  {
    LenencFirst(first, Lenenc(second) + rest);
    Bracket(Lenenc(first), Lenenc(second), rest);
    LenencRoundTrip(Lenenc(first), second, rest);
  }

  lemma {:induction false} OkHeadParses(header: byte, ok: OkPacket, session: Session)
    requires OkInRange(ok)
    ensures var head := HeadOf(OkBytes(header, ok, session));
            && StartsWith(head, header)
            && ParseOkBody(head[1..], session) == (Some(ok.affected), StatusOf(ok, session))
  {
    var tail := HeadKeepsFront(header, OkCounters(ok, session), ok.tail);
    OkBodyParses(ok, tail, session);
  }

  /** The first packet of a message holds whatever short part the message starts with. */
  lemma {:induction false} HeadKeepsFront(header: byte, front: seq<byte>, tail: seq<byte>) returns (kept: seq<byte>)
    requires |front| <= 20
    ensures var head := HeadOf([header] + front + tail); StartsWith(head, header) && head[1..] == front + kept
  {
    var head := HeadOf([header] + front + tail);
    kept := head[1 + |front|..];
  }

  /** A row never looks like an error or like the end of its result set, however large its first value is. */
  lemma {:induction false} RowIsNotAnEnd(row: Row)
    requires RowInRange(row)
    ensures !IsErr(HeadOf(RowBytes(row))) && !IsTerminator(HeadOf(RowBytes(row)))
  {
    if row.Text? {
      var cell := row.cells[0];
      var bytes := RowBytes(row);
      assert bytes == CellBytes(cell) + CellsBytes(row.cells[1..]);
      assert bytes[0] == CellBytes(cell)[0];
      if cell.Some? && |cell.value| >= 0x100_0000 {
        assert |bytes| > MAX_PAYLOAD;
      } else {
        assert bytes[0] != 0xFE && bytes[0] != 0xFF;
      }
    }
  }

  lemma {:induction false} EndingHead(ending: Ending, session: Session)
    requires EndingInRange(ending, session)
    ensures var head := HeadOf(EndingBytes(ending, session));
            !IsErr(head) && IsTerminator(head) && TerminatorStatus(head, session) == EndingStatus(ending, session)
  {
    match ending
    case Eof(warnings, status) =>
      var head := EndingBytes(ending, session);
      assert head[1..] == ToLe(warnings, 2) + ToLe(status, 2);
      Powers();
      UintRoundTrip([], warnings, 2, ToLe(status, 2));
      assert [] + ToLe(warnings, 2) + ToLe(status, 2) == head[1..];
      UintRoundTrip(ToLe(warnings, 2), status, 2, []);
      assert ToLe(warnings, 2) + ToLe(status, 2) + [] == head[1..];
    case OkEnding(ok) =>
      OkHeadParses(0xFE, ok, session);
  }

  lemma {:induction false} CountHead(n: nat)
    requires 0 < n < TWO_TO_64
    ensures var head := HeadOf(Lenenc(n));
            && head != [] && !IsErr(head) && head[0] != 0xFB && head[0] != 0 && ColumnCount(head) == Some(n)
  {
    LenencRoundTrip([], n, []);
    assert [] + Lenenc(n) + [] == Lenenc(n);
  }

  // ----- One result set ----------------------------------------------------------------------------------------------

  predicate NoEnd(heads: seq<seq<byte>>) {
    forall i :: 0 <= i < |heads| ==> !IsErr(heads[i]) && !IsTerminator(heads[i])
  }

  function Advanced(end: RowEnd, n: nat): RowEnd {
    match end
    case Terminated(status, rows, used) => Terminated(status, rows, used + n)
    case Errored(head, rows, used) => Errored(head, rows, used + n)
    case RowsLost => RowsLost
  }

  /** Rows are counted one message each. */
  lemma {:induction false} RowsAreCounted(a: seq<seq<byte>>, b: seq<seq<byte>>, rows: nat, session: Session)
    requires NoEnd(a)
    ensures ReadRows(a + b, rows, session) == Advanced(ReadRows(b, rows + |a|, session), |a|)
  {
    if a == [] {
      assert a + b == b;
    } else {
      assert (a + b)[0] == a[0] && (a + b)[1..] == a[1..] + b;
      RowsAreCounted(a[1..], b, rows + 1, session);
    }
  }

  lemma {:induction false} RowPayloadsAreRows(rows: seq<Row>)
    requires forall i :: 0 <= i < |rows| ==> RowInRange(rows[i])
    ensures NoEnd(Heads(RowPayloads(rows)))
  {
    if rows != [] {
      RowIsNotAnEnd(rows[0]);
      RowPayloadsAreRows(rows[1..]);
      assert RowPayloads(rows)[1..] == RowPayloads(rows[1..]);
    }
  }

  lemma {:induction false} HeadsSplit(a: seq<seq<byte>>, b: seq<seq<byte>>)
    ensures Heads(a + b) == Heads(a) + Heads(b)
  {
    if a == [] {
      assert a + b == b;
    } else {
      HeadsSplit(a[1..], b);
      assert (a + b)[0] == a[0] && (a + b)[1..] == a[1..] + b;
      Attach(HeadOf(a[0]), Heads(a[1..]), Heads(b));
    }
  }

  lemma {:induction false} OneHead(payload: seq<byte>)
    ensures Heads([payload]) == [HeadOf(payload)]
  {
    assert [payload][1..] == [];
  }

  /** What comes after the header and the rows of a result set decides how it is relayed on. */
  lemma {:induction false} SetIsRead(columns: seq<seq<byte>>, eof: seq<byte>, rows: seq<Row>, rest: seq<seq<byte>>,
                                     total: nat, session: Session)
    requires SetInRange(columns, rows)
    ensures var header, body := SetHeader(columns, eof, session), RowPayloads(rows);
            var heads := Heads(header) + Heads(body) + rest;
            && CountHeads(heads, |columns|) && |header| == 1 + Definitions(|columns|, session)
            && |heads| >= |header| && heads[|header| + |rows|..] == rest
            && ReadRows(heads[|header|..], total, session)
               == Advanced(ReadRows(rest, total + |rows|, session), |rows|)
  {
    var header, body := SetHeader(columns, eof, session), RowPayloads(rows);
    var heads := Heads(header) + Heads(body) + rest;
    CountHead(|columns|);
    assert heads[0] == Heads(header)[0] == HeadOf(Lenenc(|columns|));
    assert heads[|header|..] == Heads(body) + rest;
    RowPayloadsAreRows(rows);
    RowsAreCounted(Heads(body), rest, total, session);
  }

  predicate CountHeads(heads: seq<seq<byte>>, count: nat) {
    && heads != [] && heads[0] != [] && !IsErr(heads[0]) && heads[0][0] != 0xFB && heads[0][0] != 0
    && ColumnCount(heads[0]) == Some(count)
  }

  // ----- The whole reply ---------------------------------------------------------------------------------------------

  /** What the relay must report for a reply, from where it stands. */
  function Expected(reply: Reply, at: Progress, session: Session): Outcome
    requires WellFormed(reply, session)
  {
    var failed, out := ErrorOf(reply), at.out;
    Outcome(if failed.Some? then Some(Refused)
            else if SetCount(reply) > 0 then Some(ResultSet)
            else if at.saw then out.kind else Some(Succeeded),
            Summed(out.affected, OkCount(reply), TotalAffected(reply)),
            if SetCount(reply) == 0 then out.returned else Some(at.rows + TotalRows(reply)),
            out.sets + SetCount(reply),
            if failed.Some? && HeadOf(failed.value) != [] then Some(ParseErr(HeadOf(failed.value), session))
            else out.err)
  }

  lemma {:induction false} NothingFromNone(reply: Reply)
    ensures SetCount(reply) == 0 ==> TotalRows(reply) == 0
    ensures OkCount(reply) == 0 ==> TotalAffected(reply) == 0
  {
    match reply
    case OkReply(_, more) => if more.Some? { NothingFromNone(more.value); }
    case Rows(_, _, _, _, more) => if more.Some? { NothingFromNone(more.value); }
    case _ =>
  }

  /** The sum of the affected rows of `n` OK packets, in 64 bits, if there are any. */
  function Summed(before: Option<nat>, n: nat, total: nat): Option<nat> {
    if n == 0 then before else Some((OrZero(before) + total) % TWO_TO_64)
  }

  lemma {:induction false} SumsOn(before: Option<nat>, affected: nat, n: nat, total: nat)
    requires n == 0 ==> total == 0
    ensures Summed(AddAffected(before, Some(affected)), n, total) == Summed(before, n + 1, affected + total)
  {
    SumWraps(OrZero(before), affected, total);
  }

  lemma {:induction false} SumWraps(x: nat, a: nat, t: nat)
    ensures ((x + a) % TWO_TO_64 + t) % TWO_TO_64 == (x + (a + t)) % TWO_TO_64
  {
  }

  lemma {:induction false} Attach<T>(a: T, b: seq<T>, c: seq<T>)
    ensures [a] + (b + c) == [a] + b + c
  {
  }

  /** The step the relay takes over the first result of a reply. */
  function FirstStep(reply: Reply, at: Progress, session: Session): Step
    requires WellFormed(reply, session)
  {
    match reply
    case ErrReply(message) => Stop(Run(Ok(Failed(at.out, HeadOf(message), session)), 1))
    case OkReply(ok, _) => Onward(StatusOf(ok, session), 1, AfterOk(at, Some(ok.affected)))
    case Rows(columns, eof, rows, ending, _) =>
      Onward(EndingStatus(ending, session), |SetHeader(columns, eof, session)| + |rows| + 1,
             AfterRows(at, at.rows + |rows|))
    case RowsThenErr(columns, eof, rows, message) =>
      Stop(Run(Ok(BrokenSet(at, at.rows + |rows|, HeadOf(message), session)),
               |SetHeader(columns, eof, session)| + |rows| + 1))
  }

  function Rest(reply: Reply, session: Session): seq<seq<byte>>
    requires WellFormed(reply, session)
  {
    match reply
    case OkReply(_, more) => if more.Some? then Payloads(more.value, session) else []
    case Rows(_, _, _, _, more) => if more.Some? then Payloads(more.value, session) else []
    case _ => []
  }

  lemma {:induction false} OkIsStepped(reply: Reply, later: seq<seq<byte>>, at: Progress, session: Session)
    requires reply.OkReply? && WellFormed(reply, session)
    ensures Heads(Payloads(reply, session)) == [HeadOf(OkBytes(0, reply.ok, session))] + Heads(Rest(reply, session))
    ensures NextResult(Heads(Payloads(reply, session)) + later, at, session) == FirstStep(reply, at, session)
  {
    var first := OkBytes(0, reply.ok, session);
    OkHeadParses(0, reply.ok, session);
    HeadsSplit([first], Rest(reply, session));
    OneHead(first);
    var heads := Heads(Payloads(reply, session)) + later;
    assert heads[0] == HeadOf(first);
  }

  /** The messages of a result set: its header, its rows and what ends it. */
  lemma {:induction false} SetHeads(columns: seq<seq<byte>>, eof: seq<byte>, rows: seq<Row>, end: seq<byte>,
                                    rest: seq<seq<byte>>, later: seq<seq<byte>>, session: Session)
    requires SetInRange(columns, rows)
    ensures var header, payloads := SetHeader(columns, eof, session), RowPayloads(rows);
            && Heads(header + payloads + [end] + rest) + later
               == Heads(header) + Heads(payloads) + ([HeadOf(end)] + (Heads(rest) + later))
            && Heads(header + payloads + [end] + rest) == Heads(header) + Heads(payloads) + [HeadOf(end)] + Heads(rest)
  {
    var header, payloads := SetHeader(columns, eof, session), RowPayloads(rows);
    HeadsSplit(header + payloads + [end], rest);
    HeadsSplit(header + payloads, [end]);
    HeadsSplit(header, payloads);
    OneHead(end);
    Attach(HeadOf(end), Heads(rest), later);
    Group(Heads(header) + Heads(payloads), [HeadOf(end)], Heads(rest), later);
  }

  lemma {:induction false} Group<T>(a: seq<T>, b: seq<T>, c: seq<T>, d: seq<T>)
    ensures a + b + c + d == a + (b + c + d)
  {
  }

  /** The end of a row phase of `rows` rows. */
  function RowsEnd(end: seq<byte>, total: nat, rows: nat, session: Session): RowEnd
    requires end != []
  {
    if IsErr(end) then Errored(end, total, rows + 1)
    else Terminated(TerminatorStatus(end, session), total, rows + 1)
  }

  lemma {:induction false} EndIsRead(end: seq<byte>, behind: seq<seq<byte>>, total: nat, rows: nat, session: Session)
    requires IsErr(end) || IsTerminator(end)
    ensures Advanced(ReadRows([end] + behind, total, session), rows) == RowsEnd(end, total, rows, session)
  {
  }

  /** What the heads of a result set with `rows` rows look like from where the relay stands. */
  ghost predicate LooksLikeSet(heads: seq<seq<byte>>, count: nat, before: nat, rows: nat, end: seq<byte>, at: Progress,
                               session: Session)
  {
    && CountHeads(heads, count) && before == 1 + Definitions(count, session) <= |heads|
    && (IsErr(end) || IsTerminator(end))
    && ReadRows(heads[before..], at.rows, session) == RowsEnd(end, at.rows + rows, rows, session)
  }

  /** A result set is one step, decided by the message after its rows. */
  lemma {:induction false} SetIsStepped(heads: seq<seq<byte>>, count: nat, before: nat, rows: nat, end: seq<byte>,
                                        at: Progress, session: Session)
    requires LooksLikeSet(heads, count, before, rows, end, at, session)
    ensures IsErr(end) ==>
              NextResult(heads, at, session)
              == Stop(Run(Ok(BrokenSet(at, at.rows + rows, end, session)), before + rows + 1))
    ensures !IsErr(end) ==>
              NextResult(heads, at, session)
              == Onward(TerminatorStatus(end, session), before + rows + 1, AfterRows(at, at.rows + rows))
  {
  }

  /** The message that ends a reply's first result set. */
  function EndOf(reply: Reply, session: Session): seq<byte>
    requires (reply.Rows? || reply.RowsThenErr?) && WellFormed(reply, session)
  {
    HeadOf(if reply.Rows? then EndingBytes(reply.ending, session) else reply.message)
  }

  lemma {:induction false} SetLooksLikeOne(columns: seq<seq<byte>>, eof: seq<byte>, rows: seq<Row>, end: seq<byte>,
                                           rest: seq<seq<byte>>, later: seq<seq<byte>>, at: Progress, session: Session)
    requires SetInRange(columns, rows) && (IsErr(HeadOf(end)) || IsTerminator(HeadOf(end)))
    ensures var header, payloads := SetHeader(columns, eof, session), RowPayloads(rows);
            LooksLikeSet(Heads(header + payloads + [end] + rest) + later, |columns|, |header|, |rows|, HeadOf(end), at,
                         session)
  {
    var behind := Heads(rest) + later;
    SetHeads(columns, eof, rows, end, rest, later, session);
    SetIsRead(columns, eof, rows, [HeadOf(end)] + behind, at.rows, session);
    EndIsRead(HeadOf(end), behind, at.rows + |rows|, |rows|, session);
  }

  lemma {:induction false} RepliesLookLikeSets(reply: Reply, later: seq<seq<byte>>, at: Progress, session: Session)
    requires (reply.Rows? || reply.RowsThenErr?) && WellFormed(reply, session)
    ensures LooksLikeSet(Heads(Payloads(reply, session)) + later, |reply.columns|,
                         |SetHeader(reply.columns, reply.eof, session)|, |reply.rows|, EndOf(reply, session), at, session)
    ensures reply.RowsThenErr? <==> IsErr(EndOf(reply, session))
    ensures reply.Rows? ==> TerminatorStatus(EndOf(reply, session), session) == EndingStatus(reply.ending, session)
  {
    if reply.Rows? {
      EndingHead(reply.ending, session);
      SetLooksLikeOne(reply.columns, reply.eof, reply.rows, EndingBytes(reply.ending, session), Rest(reply, session),
                      later, at, session);
    } else {
      var all := SetHeader(reply.columns, reply.eof, session) + RowPayloads(reply.rows) + [reply.message];
      assert all + [] == all;
      SetLooksLikeOne(reply.columns, reply.eof, reply.rows, reply.message, [], later, at, session);
    }
  }

  lemma {:induction false} RowsAreStepped(reply: Reply, later: seq<seq<byte>>, at: Progress, session: Session)
    requires (reply.Rows? || reply.RowsThenErr?) && WellFormed(reply, session)
    ensures NextResult(Heads(Payloads(reply, session)) + later, at, session) == FirstStep(reply, at, session)
  {
    RepliesLookLikeSets(reply, later, at, session);
    SetIsStepped(Heads(Payloads(reply, session)) + later, |reply.columns|,
                 |SetHeader(reply.columns, reply.eof, session)|, |reply.rows|, EndOf(reply, session), at, session);
  }

  lemma {:induction false} ReplyIsStepped(reply: Reply, later: seq<seq<byte>>, at: Progress, session: Session)
    requires WellFormed(reply, session)
    ensures NextResult(Heads(Payloads(reply, session)) + later, at, session) == FirstStep(reply, at, session)
  {
    match reply
    case ErrReply(message) => OneHead(message);
    case OkReply(_, _) => OkIsStepped(reply, later, at, session);
    case _ => RowsAreStepped(reply, later, at, session);
  }

  lemma {:induction false} BehindSet<T>(a: seq<T>, b: seq<T>, c: T, d: seq<T>)
    ensures (a + b + ([c] + d))[|a| + |b| + 1..] == d
  {
  }

  lemma {:induction false} RowsGoOn(reply: Reply, later: seq<seq<byte>>, session: Session)
    requires reply.Rows? && WellFormed(reply, session)
    ensures var used := |SetHeader(reply.columns, reply.eof, session)| + |reply.rows| + 1;
            && |Payloads(reply, session)| == used + |Rest(reply, session)|
            && (Heads(Payloads(reply, session)) + later)[used..] == Heads(Rest(reply, session)) + later
  {
    hide Heads, SetHeader, RowPayloads, EndingBytes, HeadOf;
    var header, rows := SetHeader(reply.columns, reply.eof, session), RowPayloads(reply.rows);
    var end := EndingBytes(reply.ending, session);
    assert Payloads(reply, session) == header + rows + [end] + Rest(reply, session);
    SetHeads(reply.columns, reply.eof, reply.rows, end, Rest(reply, session), later, session);
    BehindSet(Heads(header), Heads(rows), HeadOf(end), Heads(Rest(reply, session)) + later);
  }

  /** Behind a reply's first result stands the rest of it. */
  lemma {:induction false} ReplyGoesOn(reply: Reply, later: seq<seq<byte>>, at: Progress, session: Session)
    requires WellFormed(reply, session) && FirstStep(reply, at, session).Go?
    ensures var used := FirstStep(reply, at, session).used;
            && (reply.OkReply? || reply.Rows?) && reply.more.Some?
            && |Payloads(reply, session)| == used + |Rest(reply, session)|
            && (Heads(Payloads(reply, session)) + later)[used..] == Heads(Rest(reply, session)) + later
  {
    hide NextResult, SetHeader, Heads;
    if reply.OkReply? {
      OkIsStepped(reply, later, at, session);
    } else {
      RowsGoOn(reply, later, session);
    }
  }

  /** What is expected of a reply is what is expected of the rest of it after its first result. */
  ghost predicate ExpectedAfter(reply: Reply, step: Step, at: Progress, session: Session)
    requires WellFormed(reply, session)
  {
    if step.Stop? then step.run == Run(Ok(Expected(reply, at, session)), |Payloads(reply, session)|)
    else (&& (reply.OkReply? || reply.Rows?) && reply.more.Some?
          && Expected(reply.more.value, step.next, session) == Expected(reply, at, session))
  }

  lemma {:induction false} ExpectedOk(reply: Reply, at: Progress, session: Session)
    requires reply.OkReply? && WellFormed(reply, session)
    ensures ExpectedAfter(reply, FirstStep(reply, at, session), at, session)
  {
    if reply.more.Some? {
      NothingFromNone(reply.more.value);
      SumsOn(at.out.affected, reply.ok.affected, OkCount(reply.more.value), TotalAffected(reply.more.value));
    } else {
      SumsOn(at.out.affected, reply.ok.affected, 0, 0);
    }
  }

  lemma {:induction false} ExpectedRows(reply: Reply, at: Progress, session: Session)
    requires reply.Rows? && WellFormed(reply, session)
    ensures ExpectedAfter(reply, FirstStep(reply, at, session), at, session)
  {
    if reply.more.Some? {
      NothingFromNone(reply.more.value);
    }
  }

  lemma {:induction false} ExpectedFailure(reply: Reply, at: Progress, session: Session)
    requires (reply.ErrReply? || reply.RowsThenErr?) && WellFormed(reply, session)
    ensures ExpectedAfter(reply, FirstStep(reply, at, session), at, session)
  {
  }

  lemma {:induction false} ExpectedSteps(reply: Reply, at: Progress, session: Session)
    requires WellFormed(reply, session)
    ensures ExpectedAfter(reply, FirstStep(reply, at, session), at, session)
  {
    match reply
    case OkReply(_, _) => ExpectedOk(reply, at, session);
    case Rows(_, _, _, _, _) => ExpectedRows(reply, at, session);
    case _ => ExpectedFailure(reply, at, session);
  }

  /**
   The relay stops exactly where a well-formed reply stops, whatever the backend sends next, and reports its
   true row total, result-set count and affected rows.
   */
  lemma {:induction false} GenericIsExact(reply: Reply, later: seq<seq<byte>>, at: Progress, session: Session)
    requires WellFormed(reply, session)
    ensures RelayGeneric(Heads(Payloads(reply, session)) + later, at, session)
         == Run(Ok(Expected(reply, at, session)), |Payloads(reply, session)|)
    decreases reply
  {
    ReplyIsStepped(reply, later, at, session);
    ExpectedSteps(reply, at, session);
    if FirstStep(reply, at, session).Go? {
      ReplyGoesOn(reply, later, at, session);
      GenericIsExact(reply.more.value, later, FirstStep(reply, at, session).next, session);
    }
  }

  // ----- Error packets -----------------------------------------------------------------------------------------------

  /** An ERR packet (section 14.1.3.2): a code, under protocol 4.1 a marker and a five-byte SQL state, and a text. */
  datatype ErrPacket = ErrPacket(code: nat, state: Option<seq<byte>>, text: seq<byte>)

  /** A packet may go without a state, as before the handshake; then its text does not start like one. */
  predicate ErrInRange(err: ErrPacket, session: Session) {
    && err.code < 0x1_0000
    && match err.state
       case Some(state) => session.protocol41 && |state| == 5
       case None => session.protocol41 ==> !StartsWith(err.text, '#' as int)
  }

  function ErrFront(err: ErrPacket): seq<byte> {
    ToLe(err.code, 2) + (if err.state.Some? then ['#' as int] + err.state.value else [])
  }

  function ErrBytes(err: ErrPacket): (r: seq<byte>)
    ensures IsErr(r)
  {
    [0xFF] + ErrFront(err) + err.text
  }

  function Within(s: seq<byte>, n: nat): seq<byte> {
    if |s| <= n then s else s[..n]
  }

  /** What is reported of an error: its code, its state and as much of its text as the first packet holds. */
  function Told(err: ErrPacket): ErrInfo
    requires |ErrFront(err)| < MAX_PAYLOAD
  {
    ErrInfo(Some(err.code), err.state, Within(err.text, MAX_PAYLOAD - 1 - |ErrFront(err)|))
  }

  lemma {:induction false} FrontFits(err: ErrPacket, session: Session)
    requires ErrInRange(err, session)
    ensures 2 <= |ErrFront(err)| <= 8
  {
  }

  lemma {:induction false} HeadOfErr(err: ErrPacket)
    requires |ErrFront(err)| < MAX_PAYLOAD - 1
    ensures HeadOf(ErrBytes(err)) == [0xFF] + ErrFront(err) + Within(err.text, MAX_PAYLOAD - 1 - |ErrFront(err)|)
  {
  }

  lemma {:induction false} ErrIsRead(err: ErrPacket, session: Session)
    requires ErrInRange(err, session)
    ensures |ErrFront(err)| <= 8 && IsErr(HeadOf(ErrBytes(err)))
    ensures ParseErr(HeadOf(ErrBytes(err)), session) == Told(err)
  {
    hide FromLe, ToLe;
    FrontFits(err, session);
    HeadOfErr(err);
    var head, text := HeadOf(ErrBytes(err)), Within(err.text, MAX_PAYLOAD - 1 - |ErrFront(err)|);
    var code := ToLe(err.code, 2);
    var rest := ErrFront(err)[2..] + text;
    Powers();
    UintRoundTrip([], err.code, 2, rest);
    assert head[1..] == [] + code + rest;
    assert head[1..][2..] == rest;
    if err.state.Some? {
      assert rest == ['#' as int] + err.state.value + text;
      assert rest[1..6] == err.state.value && rest[6..] == text;
    } else {
      assert rest == text;
      assert text != [] ==> text[0] == err.text[0];
    }
  }

  /** The record of an error that a message reports: nothing without one, and of an ERR packet what it says. */
  ghost predicate ReportsError(told: Option<ErrInfo>, failed: Option<seq<byte>>, session: Session) {
    && (failed.None? ==> told.None?)
    && forall err: ErrPacket :: ErrInRange(err, session) && failed == Some(ErrBytes(err)) ==>
         |ErrFront(err)| < MAX_PAYLOAD && told == Some(Told(err))
  }

  /** The record tells the truth about a reply. */
  ghost predicate Reports(out: Outcome, reply: Reply, session: Session) {
    && out.sets == SetCount(reply)
    && out.returned == (if SetCount(reply) == 0 then None else Some(TotalRows(reply)))
    && out.affected == (if OkCount(reply) == 0 then None else Some(TotalAffected(reply) % TWO_TO_64))
    && out.kind == Some(if ErrorOf(reply).Some? then Refused else if SetCount(reply) > 0 then ResultSet else Succeeded)
    && ReportsError(out.err, ErrorOf(reply), session)
  }

  /** A COM_QUERY reply on its own: the true totals, the error it ends with and nothing left over from before. */
  lemma {:induction false} QueryReplyIsExact(reply: Reply, later: seq<seq<byte>>, session: Session)
    requires WellFormed(reply, session)
    ensures var run := RelayHeads(Heads(Payloads(reply, session)) + later, Generic, session);
            run.used == |Payloads(reply, session)| && run.result.Ok? && Reports(run.result.value, reply, session)
  {
    GenericIsExact(reply, later, START, session);
    ExpectedAlone(reply, session);
  }

  lemma {:induction false} ExpectedAlone(reply: Reply, session: Session)
    requires WellFormed(reply, session)
    ensures Reports(Expected(reply, START, session), reply, session)
  {
    forall err: ErrPacket | ErrInRange(err, session) && ErrorOf(reply) == Some(ErrBytes(err))
      ensures |ErrFront(err)| < MAX_PAYLOAD && Expected(reply, START, session).err == Some(Told(err))
    {
      ErrIsRead(err, session);
    }
  }

  // ----- The other shapes ------------------------------------------------------------------------------------------

  /** A prepared statement: its counts, its parameter and column definitions, and an EOF after each list. */
  datatype PreparedReply = PreparedReply(id: nat, columns: seq<seq<byte>>, params: seq<seq<byte>>, eof: seq<byte>,
                                         tail: seq<byte>)

  predicate PreparedInRange(reply: PreparedReply) {
    reply.id < 0x1_0000_0000 && |reply.columns| < 0x1_0000 && |reply.params| < 0x1_0000
  }

  function DefinitionList(definitions: seq<seq<byte>>, eof: seq<byte>, session: Session): (r: seq<seq<byte>>)
    ensures |r| == Definitions(|definitions|, session)
  {
    definitions + (if definitions == [] || session.deprecateEof then [] else [eof])
  }

  function PreparedCounts(reply: PreparedReply): (r: seq<byte>)
    requires PreparedInRange(reply)
    ensures |r| == 8
  {
    ToLe(reply.id, 4) + ToLe(|reply.columns|, 2) + ToLe(|reply.params|, 2)
  }

  function PreparedPayloads(reply: PreparedReply, session: Session): seq<seq<byte>>
    requires PreparedInRange(reply)
  {
    [[0] + PreparedCounts(reply) + reply.tail]
    + DefinitionList(reply.params, reply.eof, session) + DefinitionList(reply.columns, reply.eof, session)
  }

  lemma {:induction false} PreparedReplyIsExact(reply: PreparedReply, later: seq<seq<byte>>, session: Session)
    requires PreparedInRange(reply)
    ensures RelayHeads(Heads(PreparedPayloads(reply, session)) + later, PrepareOk, session)
         == Run(Ok(NOTHING_YET.(kind := Some(Prepared))), |PreparedPayloads(reply, session)|)
  {
    var payloads := PreparedPayloads(reply, session);
    var head := (Heads(payloads) + later)[0];
    var tail := HeadKeepsFront(0, PreparedCounts(reply), reply.tail);
    assert head == HeadOf([0] + PreparedCounts(reply) + reply.tail);
    CountsAreRead(reply, tail);
  }

  lemma {:induction false} CountsAreRead(reply: PreparedReply, tail: seq<byte>)
    requires PreparedInRange(reply)
    ensures var body := PreparedCounts(reply) + tail;
            && TakeUint(body, 0, 4).pos == 4
            && TakeUint(body, 4, 2) == Taken(Some(|reply.columns|), 6)
            && TakeUint(body, 6, 2) == Taken(Some(|reply.params|), 8)
  {
    var id, columns, params := ToLe(reply.id, 4), ToLe(|reply.columns|, 2), ToLe(|reply.params|, 2);
    Powers();
    UintRoundTrip(id, |reply.columns|, 2, params + tail);
    assert id + columns + (params + tail) == PreparedCounts(reply) + tail;
    UintRoundTrip(id + columns, |reply.params|, 2, tail);
    assert id + columns + params + tail == PreparedCounts(reply) + tail;
  }

  /** A COM_FIELD_LIST reply: one definition a message, then an ending. */
  lemma {:induction false} FieldListIsExact(fields: seq<seq<byte>>, ending: Ending, later: seq<seq<byte>>, n: nat,
                                            session: Session)
    requires EndingInRange(ending, session) && NoEnd(Heads(fields))
    ensures RelayFieldList(Heads(fields + [EndingBytes(ending, session)]) + later, n, session)
         == Run(Ok(NOTHING_YET.(kind := Some(ResultSet), returned := Some(n + |fields|))), |fields| + 1)
  {
    var end := EndingBytes(ending, session);
    var heads := Heads(fields + [end]) + later;
    if fields == [] {
      EndingHead(ending, session);
      assert heads[0] == HeadOf(end);
    } else {
      assert heads[0] == Heads(fields)[0];
      assert (fields + [end])[1..] == fields[1..] + [end];
      assert heads[1..] == Heads(fields[1..] + [end]) + later;
      assert Heads(fields)[1..] == Heads(fields[1..]);
      FieldListIsExact(fields[1..], ending, later, n + 1, session);
    }
  }

  /** What a refusal in the place of either reply is recorded as. */
  function RefusedWith(err: ErrPacket): Outcome
    requires |ErrFront(err)| < MAX_PAYLOAD
  {
    Outcome(Some(Refused), None, None, 0, Some(Told(err)))
  }

  /** A PREPARE that is refused. */
  lemma {:induction false} RefusedPrepareIsExact(err: ErrPacket, later: seq<seq<byte>>, session: Session)
    requires ErrInRange(err, session)
    ensures |ErrFront(err)| < MAX_PAYLOAD
    ensures RelayHeads(Heads([ErrBytes(err)]) + later, PrepareOk, session) == Run(Ok(RefusedWith(err)), 1)
  {
    ErrIsRead(err, session);
    OneHead(ErrBytes(err));
    assert (Heads([ErrBytes(err)]) + later)[0] == HeadOf(ErrBytes(err));
  }

  /** A field list that an error breaks off, behind any number of definitions. */
  lemma {:induction false} BrokenFieldListIsExact(fields: seq<seq<byte>>, err: ErrPacket, later: seq<seq<byte>>, n: nat,
                                                  session: Session)
    requires ErrInRange(err, session) && NoEnd(Heads(fields))
    ensures |ErrFront(err)| < MAX_PAYLOAD
    ensures RelayFieldList(Heads(fields + [ErrBytes(err)]) + later, n, session)
         == Run(Ok(RefusedWith(err)), |fields| + 1)
  {
    hide ErrBytes, ErrFront, Told, ParseErr, ErrInRange;
    var heads := Heads(fields + [ErrBytes(err)]) + later;
    ErrIsRead(err, session);
    if fields == [] {
      assert heads[0] == HeadOf(ErrBytes(err));
    } else {
      assert heads[0] == Heads(fields)[0];
      assert (fields + [ErrBytes(err)])[1..] == fields[1..] + [ErrBytes(err)];
      assert heads[1..] == Heads(fields[1..] + [ErrBytes(err)]) + later;
      assert Heads(fields)[1..] == Heads(fields[1..]);
      BrokenFieldListIsExact(fields[1..], err, later, n + 1, session);
    }
  }

  // ----- What cannot be the start of a reply -------------------------------------------------------------------------

  /** A head that is empty, or breaks off inside the column count its first byte announces. */
  predicate BreaksOff(head: seq<byte>) {
    || head == []
    || (head[0] == 0xFC && |head| < 3)
    || (head[0] == 0xFD && |head| < 4)
    || (head[0] == 0xFE && |head| < 9)
  }

  /** A result is refused as malformed exactly when its first message breaks off, whatever came before. */
  lemma {:induction false} MalformedExactlyWhenBrokenOff(head: seq<byte>, later: seq<seq<byte>>, at: Progress,
                                                         session: Session)
    ensures NextResult([head] + later, at, session) == Stop(Run(Err(Malformed), 1)) <==> BreaksOff(head)
  {
    assert ([head] + later)[0] == head;
    if head != [] && head[0] != 0xFB && head[0] != 0xFF {
      assert ColumnCount(head).None? <==> BreaksOff(head);
    }
  }

  /** And a reply is refused as malformed at a message that breaks off, never elsewhere. */
  lemma {:induction false} MalformedEndsAtBrokenHead(heads: seq<seq<byte>>, at: Progress, session: Session)
    requires RelayGeneric(heads, at, session).result == Err(Malformed)
    ensures var used := RelayGeneric(heads, at, session).used;
            0 < used <= |heads| && BreaksOff(heads[used - 1])
    decreases |heads|
  {
    match NextResult(heads, at, session)
    case Stop(run) =>
      assert [heads[0]] + heads[1..] == heads;
      MalformedExactlyWhenBrokenOff(heads[0], heads[1..], at, session);
    case Go(used, next) =>
      MalformedEndsAtBrokenHead(heads[used..], next, session);
  }

  /**
   A backend that answers a plain command with an EOF packet is not understood: its first byte reads as the start
   of an eight-byte column count, and the connection ends in a protocol error. So does the short OK packet that
   takes the place of EOF where EOF is deprecated.
   */
  lemma {:induction false} EofReplyIsMalformed(reply: seq<byte>, later: seq<seq<byte>>, session: Session)
    requires StartsWith(reply, 0xFE) && |reply| < 9
    ensures RelayHeads([reply] + later, Generic, session) == Run(Err(Malformed), 1)
  {
    MalformedExactlyWhenBrokenOff(reply, later, START, session);
  }
}

/**
 The response state machine over the messages of a reply. Each message is seen through its head, the
 payload of its first packet.
 */
module Response {
  import opened Common
  import opened Framing
  import opened Cursors

  /** What the negotiated capabilities mean for reading a response. */
  datatype Session = Session(protocol41: bool, transactions: bool, deprecateEof: bool)

  datatype Shape = NoReply | Statistics | PrepareOk | FieldList | Generic

  datatype Kind = NoResponse | Succeeded | Refused | ResultSet | StatisticsText | Prepared

  datatype ErrInfo = ErrInfo(code: Option<nat>, state: Option<seq<byte>>, text: seq<byte>)

  datatype Outcome = Outcome(kind: Option<Kind>, affected: Option<nat>, returned: Option<nat>, sets: nat,
                             err: Option<ErrInfo>)

  const NOTHING_YET := Outcome(None, None, None, 0, None)

  const START := Progress(NOTHING_YET, 0, false)

  datatype Failure = Disconnected | Malformed | LocalInfileRequested

  /** How a relay ends, and after how many messages. */
  datatype Run = Run(result: Result<Outcome, Failure>, used: nat)

  function Later(n: nat, run: Run): Run {
    Run(run.result, n + run.used)
  }

  predicate StartsWith(head: seq<byte>, b: byte) {
    head != [] && head[0] == b
  }

  predicate IsErr(head: seq<byte>) {
    StartsWith(head, 0xFF)
  }

  predicate IsTerminator(head: seq<byte>) {
    StartsWith(head, 0xFE) && |head| < MAX_PAYLOAD
  }

  function ParseErr(head: seq<byte>, session: Session): ErrInfo
    requires head != []
  {
    var body := head[1..];
    var code := TakeUint(body, 0, 2);
    var rest := body[code.pos..];
    if session.protocol41 && StartsWith(rest, '#' as int) then
      if |rest| >= 6 then ErrInfo(code.value, Some(rest[1..6]), rest[6..])
      else ErrInfo(code.value, None, rest[1..])
    else ErrInfo(code.value, None, rest)
  }

  function OrZero(v: Option<nat>): nat {
    if v.Some? then v.value else 0
  }

  /** Affected rows and status flags of an OK packet, read after its header byte. */
  function ParseOkBody(body: seq<byte>, session: Session): (Option<nat>, nat) {
    var affected := TakeLenenc(body, 0);
    var lastId := TakeLenenc(body, affected.pos);
    (Flatten(affected.value),
     if session.protocol41 || session.transactions then OrZero(TakeUint(body, lastId.pos, 2).value) else 0)
  }

  function TerminatorStatus(head: seq<byte>, session: Session): nat
    requires head != []
  {
    if session.deprecateEof then ParseOkBody(head[1..], session).1
    else OrZero(TakeUint(head[1..], TakeUint(head[1..], 0, 2).pos, 2).value)
  }

  /** `SERVER_MORE_RESULTS_EXISTS`, bit 3 of the status flags. */
  predicate MoreResults(status: nat) {
    status / 8 % 2 == 1
  }

  function Failed(out: Outcome, head: seq<byte>, session: Session): Outcome
    requires head != []
  {
    out.(kind := Some(Refused), err := Some(ParseErr(head, session)))
  }

  /** Column definitions and the EOF after them, when there is one. */
  function Definitions(count: nat, session: Session): nat {
    if count > 0 && !session.deprecateEof then count + 1 else count
  }

  datatype RowEnd = Terminated(status: nat, rows: nat, used: nat) | Errored(head: seq<byte>, rows: nat, used: nat)
                  | RowsLost

  /** The row phase of one result set. */
  function ReadRows(heads: seq<seq<byte>>, rows: nat, session: Session): (r: RowEnd)
    ensures r.Terminated? || r.Errored? ==> 0 < r.used <= |heads|
    ensures r.Errored? ==> r.head != []
  {
    if heads == [] then RowsLost
    else if IsErr(heads[0]) then Errored(heads[0], rows, 1)
    else if IsTerminator(heads[0]) then Terminated(TerminatorStatus(heads[0], session), rows, 1)
    else
      match ReadRows(heads[1..], rows + 1, session)
      case Terminated(status, total, used) => Terminated(status, total, used + 1)
      case Errored(head, total, used) => Errored(head, total, used + 1)
      case RowsLost => RowsLost
  }

  /** The affected rows are summed in 64 bits. */
  function AddAffected(sum: Option<nat>, affected: Option<nat>): Option<nat> {
    Some((OrZero(sum) + OrZero(affected)) % TWO_TO_64)
  }

  /** Where the relay of a command's results stands: the outcome so far, its rows, and whether it has a set. */
  datatype Progress = Progress(out: Outcome, rows: nat, saw: bool)

  /** One result of a command: the response is over, or another result follows. */
  datatype Step = Stop(run: Run) | Go(used: nat, next: Progress)

  function ColumnCount(head: seq<byte>): Option<nat> {
    Flatten(TakeLenenc(head, 0).value)
  }

  function AfterOk(at: Progress, affected: Option<nat>): Progress {
    var out := at.out;
    Progress(Outcome(if at.saw then out.kind else Some(Succeeded), AddAffected(out.affected, affected), out.returned,
                     out.sets, out.err),
             at.rows, at.saw)
  }

  function AfterRows(at: Progress, total: nat): Progress {
    var out := at.out;
    Progress(Outcome(Some(ResultSet), out.affected, Some(total), out.sets + 1, out.err), total, true)
  }

  /** The outcome of a result set that an error breaks off. */
  function BrokenSet(at: Progress, total: nat, head: seq<byte>, session: Session): Outcome
    requires head != []
  {
    Failed(AfterRows(at, total).out, head, session)
  }

  function Onward(status: nat, used: nat, next: Progress): Step {
    if MoreResults(status) then Go(used, next) else Stop(Run(Ok(next.out), used))
  }

  function AfterSet(end: RowEnd, before: nat, at: Progress, session: Session): Step
    requires !end.RowsLost? && (end.Errored? ==> end.head != [])
  {
    match end
    case Errored(head, total, used) => Stop(Run(Ok(BrokenSet(at, total, head, session)), before + used))
    case Terminated(status, total, used) => Onward(status, before + used, AfterRows(at, total))
  }

  function SetStart(head: seq<byte>, session: Session): nat {
    1 + Definitions(OrZero(ColumnCount(head)), session)
  }

  /** A result set: its column count, its definitions and its rows. */
  function NextSet(heads: seq<seq<byte>>, at: Progress, session: Session): (step: Step)
    requires heads != []
    ensures step.Go? ==> 0 < step.used <= |heads|
  {
    var before := SetStart(heads[0], session);
    if |heads| < before || ReadRows(heads[before..], at.rows, session) == RowsLost then
      Stop(Run(Err(Disconnected), |heads|))
    else AfterSet(ReadRows(heads[before..], at.rows, session), before, at, session)
  }

  function NextOk(head: seq<byte>, at: Progress, session: Session): Step
    requires head != []
  {
    var (affected, status) := ParseOkBody(head[1..], session);
    Onward(status, 1, AfterOk(at, affected))
  }

  function NextResult(heads: seq<seq<byte>>, at: Progress, session: Session): (step: Step)
    ensures step.Go? ==> 0 < step.used <= |heads|
  {
    if heads == [] then Stop(Run(Err(Disconnected), 0))
    else if heads[0] == [] then Stop(Run(Err(Malformed), 1))
    else if IsErr(heads[0]) then Stop(Run(Ok(Failed(at.out, heads[0], session)), 1))
    else if heads[0][0] == 0xFB then Stop(Run(Err(LocalInfileRequested), 1))
    else if heads[0][0] == 0 then NextOk(heads[0], at, session)
    else if ColumnCount(heads[0]).None? then Stop(Run(Err(Malformed), 1))
    else NextSet(heads, at, session)
  }

  /** Results one after the other, as long as each announces another. */
  function RelayGeneric(heads: seq<seq<byte>>, at: Progress, session: Session): Run
    decreases |heads|
  {
    match NextResult(heads, at, session)
    case Stop(run) => run
    case Go(used, next) => Later(used, RelayGeneric(heads[used..], next, session))
  }

  /** The column and parameter counts of a prepare response, after its statement id. */
  function PrepareColumns(head: seq<byte>): nat
    requires head != []
  {
    OrZero(TakeUint(head[1..], TakeUint(head[1..], 0, 4).pos, 2).value)
  }

  function PrepareParams(head: seq<byte>): nat
    requires head != []
  {
    OrZero(TakeUint(head[1..], TakeUint(head[1..], TakeUint(head[1..], 0, 4).pos, 2).pos, 2).value)
  }

  function RelayPrepare(heads: seq<seq<byte>>, session: Session): Run {
    if heads == [] then Run(Err(Disconnected), 0)
    else
      var head := heads[0];
      if IsErr(head) then Run(Ok(Failed(NOTHING_YET, head, session)), 1)
      else if !StartsWith(head, 0) then Run(Err(Malformed), 1)
      else
        var used := 1 + Definitions(PrepareParams(head), session) + Definitions(PrepareColumns(head), session);
        if |heads| < used then Run(Err(Disconnected), |heads|)
        else Run(Ok(NOTHING_YET.(kind := Some(Prepared))), used)
  }

  function RelayFieldList(heads: seq<seq<byte>>, fields: nat, session: Session): Run {
    if heads == [] then Run(Err(Disconnected), 0)
    else if IsErr(heads[0]) then Run(Ok(Failed(NOTHING_YET, heads[0], session)), 1)
    else if IsTerminator(heads[0]) then
      Run(Ok(NOTHING_YET.(kind := Some(ResultSet), returned := Some(fields))), 1)
    else Later(1, RelayFieldList(heads[1..], fields + 1, session))
  }

  /** What relaying a response reports, and how many messages of the stream it takes. */
  function RelayHeads(heads: seq<seq<byte>>, shape: Shape, session: Session): Run {
    match shape
    case NoReply => Run(Ok(NOTHING_YET.(kind := Some(NoResponse))), 0)
    case Statistics =>
      if heads == [] then Run(Err(Disconnected), 0)
      else Run(Ok(NOTHING_YET.(kind := Some(StatisticsText))), 1)
    case PrepareOk => RelayPrepare(heads, session)
    case FieldList => RelayFieldList(heads, 0, session)
    case Generic => RelayGeneric(heads, START, session)
  }
}

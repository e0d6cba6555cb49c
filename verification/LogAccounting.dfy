/**
 The lossy log path as a system of steps: any number of emitters, one writer, failures at any write. Records
 are numbered; a line of the log is a command record or a report of drops.
 */
module LogAccounting {
  import opened Common

  datatype Line = Command(id: nat) | Dropped(total: nat, since: nat)

  /** A line in the file; a torn line reached it in a write that failed as a whole. */
  datatype Entry = Entry(line: Line, torn: bool)

  /** Where the writer is: waiting, reporting drops, staging, draining the queue, flushing, or done. */
  datatype Place = Waiting | Reporting | Staging | Draining | Flushing | LastReport | LastFlush | Done

  datatype State = State(
    emitted: nat,           // records offered so far
    accepted: seq<nat>,     // records the queue took, in order
    queue: seq<nat>,
    inFlight: nat,          // emitters that found the queue full and have not counted it yet
    dropped: nat,           // the shared counter
    reported: nat,          // what the writer last reported
    hand: Option<nat>,      // the record received but not yet staged
    staged: seq<Line>,
    file: seq<Entry>,
    reports: seq<Line>,     // every report made, written or not
    lostReports: nat,
    failures: nat,
    place: Place,
    open: bool              // whether an emitter still holds the handle
  )

  const INITIAL := State(0, [], [], 0, 0, 0, None, [], [], [], 0, 0, Waiting, true)

  datatype Event = Emit(id: nat) | CountDrop | Close
                 | Receive | ReportDrops(ok: bool) | StageFirst(ok: bool) | DrainOne(ok: bool) | DrainEnd
                 | FlushOk | FlushFail(torn: nat) | Reopen | SeeClosed

  /** The steps a state allows. An emitter in flight holds the handle, so the queue closes only without one. */
  predicate Enabled(s: State, e: Event, capacity: nat) {
    match e
    case Emit(_) => s.open
    case CountDrop => s.inFlight > 0
    case Close => s.open && s.inFlight == 0
    case Receive => s.place == Waiting && s.queue != []
    case ReportDrops(_) => s.place == Reporting || s.place == LastReport
    case StageFirst(_) => s.place == Staging
    case DrainOne(_) => s.place == Draining && s.queue != []
    case DrainEnd => s.place == Draining && s.queue == []
    case FlushOk => s.place == Flushing || s.place == LastFlush
    case FlushFail(torn) => (s.place == Flushing || s.place == LastFlush) && s.staged != [] && torn <= |s.staged|
    case Reopen => s.place == Waiting
    case SeeClosed => s.place == Waiting && s.queue == [] && !s.open
  }

  /** `stage`: a record that cannot be serialized is dropped and counted. */
  function StageLine(s: State, line: Line, ok: bool): State {
    if ok then s.(staged := s.staged + [line])
    else s.(dropped := s.dropped + 1, failures := s.failures + 1,
            lostReports := s.lostReports + (if line.Dropped? then 1 else 0))
  }

  function Report(s: State, ok: bool): State {
    if s.dropped <= s.reported then s
    else
      var line := Dropped(s.dropped, s.dropped - s.reported);
      StageLine(s.(reported := s.dropped, reports := s.reports + [line]), line, ok)
  }

  function Entries(lines: seq<Line>, torn: bool): (r: seq<Entry>)
    ensures |r| == |lines|
  {
    if lines == [] then [] else [Entry(lines[0], torn)] + Entries(lines[1..], torn)
  }

  function ReportsIn(lines: seq<Line>): nat {
    if lines == [] then 0 else (if lines[0].Dropped? then 1 else 0) + ReportsIn(lines[1..])
  }

  function AfterFlush(place: Place): Place {
    if place == LastFlush then Done else Waiting
  }

  function Step(s: State, e: Event, capacity: nat): State
    requires Enabled(s, e, capacity)
  {
    match e
    case Emit(id) =>
      if |s.queue| < capacity then
        s.(emitted := s.emitted + 1, accepted := s.accepted + [id], queue := s.queue + [id])
      else s.(emitted := s.emitted + 1, inFlight := s.inFlight + 1)
    case CountDrop => s.(inFlight := s.inFlight - 1, dropped := s.dropped + 1)
    case Close => s.(open := false)
    case Receive => s.(hand := Some(s.queue[0]), queue := s.queue[1..], place := Reporting)
    case ReportDrops(ok) => Report(s, ok).(place := if s.place == LastReport then LastFlush else Staging)
    case StageFirst(ok) =>
      if s.hand.Some? then StageLine(s.(hand := None), Command(s.hand.value), ok).(place := Draining)
      else s.(place := Draining)
    case DrainOne(ok) => StageLine(s.(queue := s.queue[1..]), Command(s.queue[0]), ok)
    case DrainEnd => s.(place := Flushing)
    case FlushOk => s.(file := s.file + Entries(s.staged, false), staged := [], place := AfterFlush(s.place))
    case FlushFail(torn) =>
      s.(file := s.file + Entries(s.staged[..torn], true), dropped := s.dropped + |s.staged|,
         lostReports := s.lostReports + ReportsIn(s.staged), failures := s.failures + 1, staged := [],
         place := AfterFlush(s.place))
    case Reopen => s
    case SeeClosed => s.(place := LastReport)
  }

  // ----- What is counted -----------------------------------------------------------------------------------------

  function Commands(lines: seq<Line>): seq<nat> {
    if lines == [] then [] else (if lines[0].Command? then [lines[0].id] else []) + Commands(lines[1..])
  }

  /** The lines of the batches that were written whole. */
  function Written(file: seq<Entry>): seq<Line> {
    if file == [] then [] else (if file[0].torn then [] else [file[0].line]) + Written(file[1..])
  }

  function Held(hand: Option<nat>): seq<nat> {
    if hand.Some? then [hand.value] else []
  }

  function SumSince(reports: seq<Line>): nat {
    if reports == [] then 0
    else SumSince(reports[..|reports| - 1])
         + (if reports[|reports| - 1].Dropped? then reports[|reports| - 1].since else 0)
  }

  function LastTotal(reports: seq<Line>): nat {
    if reports != [] && reports[|reports| - 1].Dropped? then reports[|reports| - 1].total else 0
  }

  predicate Subsequence(a: seq<nat>, b: seq<nat>) {
    if b == [] then a == []
    else
      (a != [] && a[|a| - 1] == b[|b| - 1] && Subsequence(a[..|a| - 1], b[..|b| - 1]))
      || Subsequence(a, b[..|b| - 1])
  }

  /** Every record offered, and every report line lost, is in exactly one place. */
  predicate Accounted(s: State) {
    s.emitted + s.lostReports
    == |Commands(Written(s.file))| + |Commands(s.staged)| + |Held(s.hand)| + |s.queue| + s.inFlight + s.dropped
  }

  /** The reports made add up to what was reported, and never to more than was counted. */
  predicate ReportsAddUp(s: State) {
    SumSince(s.reports) == s.reported == LastTotal(s.reports) && s.reported <= s.dropped
  }

  /** Records leave in the order in which the queue took them. */
  ghost predicate InOrder(s: State) {
    exists done :: OrderedBy(s, done)
  }

  /** The commands that have left the queue and are not lost. */
  function Out(s: State): seq<nat> {
    Commands(Written(s.file)) + Commands(s.staged) + Held(s.hand)
  }

  predicate OrderedBy(s: State, done: seq<nat>) {
    s.accepted == done + s.queue && Subsequence(Out(s), done)
  }

  /** While nothing fails, nothing the queue took is missing. */
  predicate NothingLost(s: State) {
    s.failures == 0 ==>
      s.lostReports == 0
      && Commands(Written(s.file)) + Commands(s.staged) + Held(s.hand) + s.queue == s.accepted
  }

  /** Where the writer is says what it holds; once it has seen the queue closed there are no emitters left. */
  predicate Placed(s: State) {
    && (s.hand.Some? <==> s.place == Reporting || s.place == Staging)
    && (s.place in {Waiting, Reporting, LastReport, Done} ==> s.staged == [])
    && (s.place in {LastReport, LastFlush, Done} ==> !s.open && s.queue == [])
    && (!s.open ==> s.inFlight == 0)
    && (s.failures == 0 && s.place in {LastFlush, Done} ==> s.reported == s.dropped)
  }

  ghost predicate Inv(s: State) {
    Accounted(s) && ReportsAddUp(s) && InOrder(s) && NothingLost(s) && Placed(s)
  }

  // ----- Lists of lines --------------------------------------------------------------------------------------------

  lemma {:induction false} CommandsSplit(a: seq<Line>, b: seq<Line>)
    ensures Commands(a + b) == Commands(a) + Commands(b)
  {
    if a == [] {
      assert a + b == b;
    } else {
      CommandsSplit(a[1..], b);
      assert (a + b)[0] == a[0] && (a + b)[1..] == a[1..] + b;
      var first := if a[0].Command? then [a[0].id] else [];
      assert first + (Commands(a[1..]) + Commands(b)) == first + Commands(a[1..]) + Commands(b);
    }
  }

  /** Every line is a command or a report. */
  lemma {:induction false} LinesAre(lines: seq<Line>)
    ensures |lines| == |Commands(lines)| + ReportsIn(lines)
  {
    if lines != [] {
      LinesAre(lines[1..]);
    }
  }

  lemma {:induction false} WrittenSplit(a: seq<Entry>, b: seq<Entry>)
    ensures Written(a + b) == Written(a) + Written(b)
  {
    if a == [] {
      assert a + b == b;
    } else {
      WrittenSplit(a[1..], b);
      assert (a + b)[0] == a[0] && (a + b)[1..] == a[1..] + b;
      var first := if a[0].torn then [] else [a[0].line];
      assert first + (Written(a[1..]) + Written(b)) == first + Written(a[1..]) + Written(b);
    }
  }

  lemma {:induction false} WrittenEntries(lines: seq<Line>, torn: bool)
    ensures Written(Entries(lines, torn)) == if torn then [] else lines
  {
    if lines != [] {
      WrittenEntries(lines[1..], torn);
      assert Entries(lines, torn)[1..] == Entries(lines[1..], torn);
    }
  }

  /** A batch written whole adds its lines; a torn one adds none. */
  lemma {:induction false} FileGrows(file: seq<Entry>, lines: seq<Line>, torn: bool)
    ensures Written(file + Entries(lines, torn)) == Written(file) + (if torn then [] else lines)
    ensures Commands(Written(file + Entries(lines, torn)))
         == Commands(Written(file)) + (if torn then [] else Commands(lines))
  {
    WrittenSplit(file, Entries(lines, torn));
    WrittenEntries(lines, torn);
    CommandsSplit(Written(file), if torn then [] else lines);
  }

  lemma {:induction false} OneLine(lines: seq<Line>, line: Line)
    ensures Commands(lines + [line]) == Commands(lines) + (if line.Command? then [line.id] else [])
  {
    CommandsSplit(lines, [line]);
    assert [line][1..] == [];
  }

  lemma {:induction false} OneReport(reports: seq<Line>, line: Line)
    requires line.Dropped?
    ensures SumSince(reports + [line]) == SumSince(reports) + line.since
    ensures LastTotal(reports + [line]) == line.total
  {
    assert (reports + [line])[..|reports|] == reports;
  }

  // ----- Subsequences ----------------------------------------------------------------------------------------------

  lemma {:induction false} KeepsNext(a: seq<nat>, b: seq<nat>, x: nat)
    requires Subsequence(a, b)
    ensures Subsequence(a + [x], b + [x]) && Subsequence(a, b + [x])
  {
    assert (a + [x])[..|a|] == a && (b + [x])[..|b|] == b;
  }

  lemma {:induction false} DropsLast(a: seq<nat>, c: seq<nat>, b: seq<nat>)
    requires Subsequence(a + c, b)
    ensures Subsequence(a, b)
    decreases |b|
  {
    if b == [] {
      assert a == [];
    } else {
      var rest := b[..|b| - 1];
      if Subsequence(a + c, rest) {
        DropsLast(a, c, rest);
      } else if c == [] {
        assert a + c == a;
      } else {
        assert (a + c)[..|a + c| - 1] == a + c[..|c| - 1];
        DropsLast(a, c[..|c| - 1], rest);
      }
    }
  }

  // ----- Every step keeps the account --------------------------------------------------------------------------------

  /** A step that leaves order and loss as they were, or takes the front of the queue out. */
  lemma {:induction false} OrderKept(s: State, t: State)
    requires InOrder(s) && t.accepted == s.accepted && t.queue == s.queue
    requires Out(t) == Out(s) || exists c :: Out(s) == Out(t) + c
    ensures InOrder(t)
  {
    var done :| OrderedBy(s, done);
    if Out(t) != Out(s) {
      var c :| Out(s) == Out(t) + c;
      DropsLast(Out(t), c, done);
    }
    assert OrderedBy(t, done);
  }

  lemma {:induction false} FrontTaken(s: State, t: State)
    requires InOrder(s) && t.accepted == s.accepted && s.queue != [] && t.queue == s.queue[1..]
    requires Out(t) == Out(s) || Out(t) == Out(s) + [s.queue[0]]
    ensures InOrder(t)
  {
    var done :| OrderedBy(s, done);
    KeepsNext(Out(s), done, s.queue[0]);
    MoveOver(done, s.queue);
    assert OrderedBy(t, done + [s.queue[0]]);
  }

  lemma {:induction false} MoveOver(done: seq<nat>, queue: seq<nat>)
    requires queue != []
    ensures done + queue == done + [queue[0]] + queue[1..]
  {
  }

  lemma {:induction false} EmitKeeps(s: State, id: nat, capacity: nat)
    requires Inv(s) && Enabled(s, Emit(id), capacity)
    ensures Inv(Step(s, Emit(id), capacity))
  {
    var t := Step(s, Emit(id), capacity);
    var done :| OrderedBy(s, done);
    assert Out(t) == Out(s);
    if |s.queue| < capacity {
      assert t.accepted == done + t.queue;
      assert Out(s) + s.queue + [id] == Out(t) + t.queue;
    }
    assert OrderedBy(t, done);
  }

  lemma {:induction false} ReceiveKeeps(s: State, capacity: nat)
    requires Inv(s) && Enabled(s, Receive, capacity)
    ensures Inv(Step(s, Receive, capacity))
  {
    var t := Step(s, Receive, capacity);
    assert Commands(s.staged) == [] && Held(s.hand) == [];
    assert Out(t) == Out(s) + [s.queue[0]];
    FrontTaken(s, t);
    assert Out(s) + s.queue == Out(t) + t.queue;
  }

  lemma {:induction false} ReportKeeps(s: State, ok: bool, capacity: nat)
    requires Inv(s) && Enabled(s, ReportDrops(ok), capacity)
    ensures Inv(Step(s, ReportDrops(ok), capacity))
  {
    var t := Step(s, ReportDrops(ok), capacity);
    if s.dropped > s.reported {
      var line := Dropped(s.dropped, s.dropped - s.reported);
      OneReport(s.reports, line);
      OneLine(s.staged, line);
      assert Commands(s.staged) + [] == Commands(s.staged);
    }
    assert Out(t) == Out(s);
    OrderKept(s, t);
  }

  lemma {:induction false} StageFirstKeeps(s: State, ok: bool, capacity: nat)
    requires Inv(s) && Enabled(s, StageFirst(ok), capacity)
    ensures Inv(Step(s, StageFirst(ok), capacity))
  {
    var t := Step(s, StageFirst(ok), capacity);
    var id := s.hand.value;
    OneLine(s.staged, Command(id));
    var w, c := Commands(Written(s.file)), Commands(s.staged);
    assert Out(s) == w + c + [id];
    if ok {
      assert Out(t) == w + (c + [id]) + [] == Out(s);
      assert Out(s) + s.queue == Out(t) + t.queue;
    } else {
      assert Out(t) == w + c + [] && Out(s) == Out(t) + [id];
    }
    OrderKept(s, t);
  }

  lemma {:induction false} DrainKeeps(s: State, ok: bool, capacity: nat)
    requires Inv(s) && Enabled(s, DrainOne(ok), capacity)
    ensures Inv(Step(s, DrainOne(ok), capacity))
  {
    var t := Step(s, DrainOne(ok), capacity);
    var id := s.queue[0];
    OneLine(s.staged, Command(id));
    var w, c := Commands(Written(s.file)), Commands(s.staged);
    assert Out(s) == w + c + [];
    if ok {
      assert Out(t) == w + (c + [id]) + [] == Out(s) + [id];
      assert Out(s) + s.queue == Out(t) + t.queue;
    } else {
      assert Out(t) == Out(s);
    }
    FrontTaken(s, t);
  }

  lemma {:induction false} FlushKeeps(s: State, e: Event, capacity: nat)
    requires Inv(s) && Enabled(s, e, capacity) && (e.FlushOk? || e.FlushFail?)
    ensures Inv(Step(s, e, capacity))
  {
    var t := Step(s, e, capacity);
    var w, c := Commands(Written(s.file)), Commands(s.staged);
    assert Held(s.hand) == [] && Out(s) == w + c + [];
    if e.FlushOk? {
      FileGrows(s.file, s.staged, false);
      assert Out(t) == w + c + [] + [] == Out(s);
      assert Out(s) + s.queue == Out(t) + t.queue;
    } else {
      FileGrows(s.file, s.staged[..e.torn], true);
      LinesAre(s.staged);
      assert s.staged + [] == s.staged;
      assert Out(t) == w + [] + [] + [] == w && Out(s) == Out(t) + c;
    }
    OrderKept(s, t);
  }

  /** Every step of an emitter or of the writer, successful or not, keeps the account. */
  lemma {:induction false} StepKeepsAccount(s: State, e: Event, capacity: nat)
    requires Inv(s) && Enabled(s, e, capacity)
    ensures Inv(Step(s, e, capacity))
  {
    match e
    case Emit(id) => EmitKeeps(s, id, capacity);
    case Receive => ReceiveKeeps(s, capacity);
    case ReportDrops(ok) => ReportKeeps(s, ok, capacity);
    case StageFirst(ok) => StageFirstKeeps(s, ok, capacity);
    case DrainOne(ok) => DrainKeeps(s, ok, capacity);
    case FlushOk => FlushKeeps(s, e, capacity);
    case FlushFail(_) => FlushKeeps(s, e, capacity);
    case _ => OrderKept(s, Step(s, e, capacity));
  }

  // ----- Whole runs --------------------------------------------------------------------------------------------------

  /** `t` is reached from `s` by some interleaving of steps. */
  ghost predicate Runs(s: State, events: seq<Event>, t: State, capacity: nat)
    decreases |events|
  {
    if events == [] then s == t
    else Enabled(s, events[0], capacity) && Runs(Step(s, events[0], capacity), events[1..], t, capacity)
  }

  lemma {:induction false} RunKeepsAccount(s: State, events: seq<Event>, t: State, capacity: nat)
    requires Inv(s) && Runs(s, events, t, capacity)
    ensures Inv(t)
    decreases |events|
  {
    if events != [] {
      StepKeepsAccount(s, events[0], capacity);
      RunKeepsAccount(Step(s, events[0], capacity), events[1..], t, capacity);
    }
  }

  lemma {:induction false} ReachedKeepsAccount(events: seq<Event>, t: State, capacity: nat)
    requires Runs(INITIAL, events, t, capacity)
    ensures Inv(t)
  {
    assert Out(INITIAL) == [] && OrderedBy(INITIAL, []);
    RunKeepsAccount(INITIAL, events, t, capacity);
  }

  /**
   Over any run: every record offered is written, queued, staged, in hand, or counted as dropped, up to the
   report lines lost; the reports made add up to what was reported; and the written records keep the order in
   which they were accepted.
   */
  lemma {:induction false} LogAccount(events: seq<Event>, t: State, capacity: nat)
    requires Runs(INITIAL, events, t, capacity)
    ensures t.emitted + t.lostReports
         == |Commands(Written(t.file))| + |Commands(t.staged)| + |Held(t.hand)| + |t.queue| + t.inFlight + t.dropped
    ensures SumSince(t.reports) == t.reported <= t.dropped
    ensures Subsequence(Commands(Written(t.file)), t.accepted)
  {
    ReachedKeepsAccount(events, t, capacity);
    var done :| OrderedBy(t, done);
    var w := Commands(Written(t.file));
    assert Out(t) == w + (Commands(t.staged) + Held(t.hand));
    DropsLast(w, Commands(t.staged) + Held(t.hand), done);
    Extends(w, done, t.queue);
  }

  lemma {:induction false} Extends(a: seq<nat>, b: seq<nat>, c: seq<nat>)
    requires Subsequence(a, b)
    ensures Subsequence(a, b + c)
    decreases |c|
  {
    if c == [] {
      assert b + c == b;
    } else {
      Extends(a, b, c[..|c| - 1]);
      assert (b + c)[..|b + c| - 1] == b + c[..|c| - 1];
    }
  }

  /** A run without failures that shuts down has written everything it took and reported everything it dropped. */
  lemma {:induction false} CleanShutdown(events: seq<Event>, t: State, capacity: nat)
    requires Runs(INITIAL, events, t, capacity) && t.place == Done && t.failures == 0
    ensures Commands(Written(t.file)) == t.accepted
    ensures |Commands(Written(t.file))| + LastTotal(t.reports) == t.emitted
  {
    ReachedKeepsAccount(events, t, capacity);
    assert Commands(Written(t.file)) + [] + [] + [] == Commands(Written(t.file));
  }

  // ----- What is taken and what is dropped ---------------------------------------------------------------------------

  /** The records offered in a run, in order. */
  function Offered(events: seq<Event>): seq<nat> {
    if events == [] then [] else (if events[0].Emit? then [events[0].id] else []) + Offered(events[1..])
  }

  /** The records offered to a queue with room. */
  ghost function WithRoom(s: State, events: seq<Event>, t: State, capacity: nat): seq<nat>
    requires Runs(s, events, t, capacity)
    decreases |events|
  {
    if events == [] then []
    else (if events[0].Emit? && |s.queue| < capacity then [events[0].id] else [])
         + WithRoom(Step(s, events[0], capacity), events[1..], t, capacity)
  }

  lemma {:induction false} FailuresGrow(s: State, events: seq<Event>, t: State, capacity: nat)
    requires Runs(s, events, t, capacity)
    ensures s.failures <= t.failures
    decreases |events|
  {
    if events != [] {
      FailuresGrow(Step(s, events[0], capacity), events[1..], t, capacity);
    }
  }

  /** One step: a record offered is taken exactly when there is room, and nothing else is dropped without a failure. */
  lemma {:induction false} StepTakes(s: State, e: Event, capacity: nat)
    requires Enabled(s, e, capacity)
    ensures var t, room := Step(s, e, capacity), |s.queue| < capacity;
            && t.accepted == s.accepted + (if e.Emit? && room then [e.id] else [])
            && s.failures <= t.failures
            && (t.failures == s.failures ==>
                  t.inFlight + t.dropped == s.inFlight + s.dropped + (if e.Emit? && !room then 1 else 0))
  {
  }

  /**
   Over any run, the queue took exactly the records offered while it had room, in order. Without failures exactly the
   others are dropped, or are about to be counted as such.
   */
  lemma {:induction false} TakenExactlyWithRoom(s: State, events: seq<Event>, t: State, capacity: nat)
    requires Runs(s, events, t, capacity)
    ensures t.accepted == s.accepted + WithRoom(s, events, t, capacity)
    ensures t.failures == s.failures ==>
              t.inFlight + t.dropped + |WithRoom(s, events, t, capacity)|
              == s.inFlight + s.dropped + |Offered(events)|
    decreases |events|
  {
    if events == [] {
      assert s.accepted + [] == s.accepted;
    } else {
      var next, rest := Step(s, events[0], capacity), events[1..];
      StepTakes(s, events[0], capacity);
      FailuresGrow(next, rest, t, capacity);
      TakenExactlyWithRoom(next, rest, t, capacity);
      var taken := if events[0].Emit? && |s.queue| < capacity then [events[0].id] else [];
      assert s.accepted + taken + WithRoom(next, rest, t, capacity)
          == s.accepted + (taken + WithRoom(next, rest, t, capacity));
    }
  }

  /** Every record of a run is offered to a queue with room. */
  ghost predicate AlwaysRoom(s: State, events: seq<Event>, t: State, capacity: nat)
    requires Runs(s, events, t, capacity)
    decreases |events|
  {
    events == []
    || ((events[0].Emit? ==> |s.queue| < capacity)
        && AlwaysRoom(Step(s, events[0], capacity), events[1..], t, capacity))
  }

  lemma {:induction false} RoomTakesAll(s: State, events: seq<Event>, t: State, capacity: nat)
    requires Runs(s, events, t, capacity)
    ensures AlwaysRoom(s, events, t, capacity) <==> |WithRoom(s, events, t, capacity)| == |Offered(events)|
    ensures |WithRoom(s, events, t, capacity)| <= |Offered(events)|
    ensures AlwaysRoom(s, events, t, capacity) ==> WithRoom(s, events, t, capacity) == Offered(events)
    decreases |events|
  {
    if events != [] {
      RoomTakesAll(Step(s, events[0], capacity), events[1..], t, capacity);
    }
  }

  /**
   Where there is always room nothing is lost: every record offered is taken, and without failures none is dropped and
   a clean shutdown has written them all, in order.
   */
  lemma {:induction false} NothingDroppedWithRoom(events: seq<Event>, t: State, capacity: nat)
    requires Runs(INITIAL, events, t, capacity) && AlwaysRoom(INITIAL, events, t, capacity)
    ensures t.accepted == Offered(events)
    ensures t.failures == 0 ==> t.dropped == 0 && t.inFlight == 0
    ensures t.failures == 0 && t.place == Done ==> Commands(Written(t.file)) == Offered(events)
  {
    TakenExactlyWithRoom(INITIAL, events, t, capacity);
    RoomTakesAll(INITIAL, events, t, capacity);
    if t.failures == 0 && t.place == Done {
      CleanShutdown(events, t, capacity);
    }
  }
}

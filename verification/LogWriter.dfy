/** The log writer and the handle its emitters share, with emitters free to act between any two of its steps. */
module LogWriter {
  import opened Common
  import opened LogAccounting

  lemma {:induction false} RunsOn(s: State, events: seq<Event>, t: State, e: Event, capacity: nat)
    requires Runs(s, events, t, capacity) && Enabled(t, e, capacity)
    ensures Runs(s, events + [e], Step(t, e, capacity), capacity)
    decreases |events|
  {
    if events == [] {
      assert ([] + [e])[1..] == [];
    } else {
      RunsOn(Step(s, events[0], capacity), events[1..], t, e, capacity);
      assert (events + [e])[1..] == events[1..] + [e];
    }
  }

  class Log {
    const capacity: nat
    // Shared with the emitters.
    var queue: seq<nat>
    var inFlight: nat
    var dropped: nat
    var open: bool
    // The writer's own.
    var hand: Option<nat>
    var reportedDrops: nat
    var buf: seq<Line>
    var file: seq<Entry>
    var place: Place
    /** How many more records will be offered. */
    var offers: nat
    // What has happened.
    ghost var emitted: nat
    ghost var accepted: seq<nat>
    ghost var reports: seq<Line>
    ghost var lostReports: nat
    ghost var failures: nat
    ghost var history: seq<Event>

    ghost function Now(): State
      reads this
    {
      State(emitted, accepted, queue, inFlight, dropped, reportedDrops, hand, buf, file, reports, lostReports, failures,
            place, open)
    }

    /** The log is where the steps taken so far have led. */
    ghost predicate Valid()
      reads this
    {
      Runs(INITIAL, history, Now(), capacity)
    }

    constructor (capacity: nat, offers: nat)
      ensures Valid() && place == Waiting && this.capacity == capacity && Now() == INITIAL
    {
      this.capacity := capacity;
      queue, inFlight, dropped, open := [], 0, 0, true;
      hand, reportedDrops, buf, file, place := None, 0, [], [], Waiting;
      emitted, accepted, reports, lostReports, failures := 0, [], [], 0, 0;
      history, this.offers := [], offers;
    }

    /** Records that a step has been taken. */
    ghost method Took(e: Event, before: State)
      requires Runs(INITIAL, history, before, capacity) && Enabled(before, e, capacity)
      requires Now() == Step(before, e, capacity)
      modifies this`history
      ensures Valid() && history == old(history) + [e]
    {
      RunsOn(INITIAL, history, before, e, capacity);
      history := history + [e];
    }

    // ----- The emitters ------------------------------------------------------------------------------------------

    /** The queue takes a record, or its emitter goes on to count the drop. */
    method Emit(id: nat)
      requires Valid() && open && offers > 0
      modifies this
      ensures Valid() && Now() == Step(old(Now()), LogAccounting.Emit(id), capacity)
      ensures offers == old(offers) - 1 && emitted == old(emitted) + 1
      ensures old(|queue|) < capacity ==>
                queue == old(queue) + [id] && accepted == old(accepted) + [id] && inFlight == old(inFlight)
      ensures old(|queue|) >= capacity ==>
                queue == old(queue) && accepted == old(accepted) && inFlight == old(inFlight) + 1
      ensures dropped == old(dropped) && open == old(open) && Own() == old(Own())
    {
      ghost var before := Now();
      if |queue| < capacity {
        queue := queue + [id];
        accepted := accepted + [id];
      } else {
        inFlight := inFlight + 1;
      }
      emitted, offers := emitted + 1, offers - 1;
      Took(LogAccounting.Emit(id), before);
    }

    method CountDrop()
      requires Valid() && inFlight > 0
      modifies this
      ensures Valid() && Now() == Step(old(Now()), LogAccounting.CountDrop, capacity) && offers == old(offers)
    {
      ghost var before := Now();
      inFlight, dropped := inFlight - 1, dropped + 1;
      Took(LogAccounting.CountDrop, before);
    }

    /** The last emitter lets go of the handle. */
    method Close()
      requires Valid() && open && inFlight == 0
      modifies this
      ensures Valid() && Now() == Step(old(Now()), LogAccounting.Close, capacity) && offers == old(offers)
    {
      ghost var before := Now();
      open := false;
      Took(LogAccounting.Close, before);
    }

    /** The writer's own fields. */
    ghost function Own(): (Option<nat>, nat, seq<Line>, seq<Entry>, Place, seq<Line>, nat)
      reads this
    {
      (hand, reportedDrops, buf, file, place, reports, failures)
    }

    /** What bounds the work left: records queued and records still to come. */
    function Left(): nat
      reads this
    {
      |queue| + 2 * offers
    }

    /** Any number of emitters act; the writer's own fields stay as they are. */
    method Others()
      requires Valid()
      modifies this
      ensures Valid() && old(queue) <= queue && Left() <= old(Left()) && Own() == old(Own()) && (open ==> old(open))
      ensures !old(open) ==> queue == old(queue)
    {
      while true
        invariant Valid() && old(queue) <= queue && Left() <= old(Left()) && Own() == old(Own()) && (open ==> old(open))
        invariant !old(open) ==> queue == old(queue)
        decreases 2 * offers + inFlight + (if open then 1 else 0)
      {
        if * {
          break;
        } else if open && offers > 0 {
          var id: nat := *;
          Emit(id);
        } else if inFlight > 0 {
          CountDrop();
        } else if open {
          Close();
        } else {
          break;
        }
      }
    }

    // ----- The writer ----------------------------------------------------------------------------------------------

    /** Appends a line to the batch; one that cannot be serialized is dropped and counted. */
    method Stage(line: Line, ok: bool)
      modifies this`buf, this`dropped, this`failures, this`lostReports
      ensures Now() == StageLine(old(Now()), line, ok)
    {
      if ok {
        buf := buf + [line];
      } else {
        dropped := dropped + 1;
        failures := failures + 1;
        lostReports := lostReports + (if line.Dropped? then 1 else 0);
      }
    }

    /** Reports the drops since the last report, if there are any. */
    method StageDropReport(ok: bool)
      modifies this`buf, this`dropped, this`failures, this`lostReports, this`reportedDrops, this`reports
      ensures Now() == Report(old(Now()), ok)
    {
      var total := dropped;
      if total <= reportedDrops {
        return;
      }
      var since := total - reportedDrops;
      reportedDrops := total;
      reports := reports + [Dropped(total, since)];
      Stage(Dropped(total, since), ok);
    }

    /** Writes the batch; a failed write may leave some of its lines behind, and discards and counts them all. */
    method Flush()
      requires Valid() && (place == Flushing || place == LastFlush)
      modifies this
      ensures Valid() && buf == [] && place == AfterFlush(old(place)) && Left() == old(Left()) && hand == old(hand)
    {
      var failed := *;
      if buf == [] || !failed {
        ghost var before := Now();
        file, buf, place := file + Entries(buf, false), [], AfterFlush(place);
        Took(FlushOk, before);
      } else {
        Discard();
      }
    }

    method Discard()
      requires Valid() && (place == Flushing || place == LastFlush) && buf != []
      modifies this
      ensures Valid() && buf == [] && place == AfterFlush(old(place)) && Left() == old(Left()) && hand == old(hand)
    {
      hide Runs, Entries, ReportsIn;
      ghost var before := Now();
      var torn: nat :| torn <= |buf|;
      file := file + Entries(buf[..torn], true);
      dropped := dropped + |buf|;
      lostReports, failures := lostReports + ReportsIn(buf), failures + 1;
      buf, place := [], AfterFlush(place);
      Took(FlushFail(torn), before);
    }

    /** A record arrives: it is staged behind a report of drops, with whatever else is queued, and written. */
    method HandleBatch()
      requires Valid() && place == Waiting && queue != []
      modifies this
      ensures Valid() && place == Waiting && Left() < old(Left())
    {
      var first := TakeFirst();
      Others();
      BeginBatch(first);
      Drain();
      Others();
      Flush();
    }

    method TakeFirst() returns (first: nat)
      requires Valid() && place == Waiting && queue != []
      modifies this
      ensures Valid() && place == Reporting && hand == Some(first) && Left() < old(Left())
    {
      ghost var before := Now();
      first := queue[0];
      hand, queue, place := Some(first), queue[1..], Reporting;
      Took(Receive, before);
    }

    method BeginBatch(first: nat)
      requires Valid() && place == Reporting && hand == Some(first)
      modifies this
      ensures Valid() && place == Draining && Left() <= old(Left())
    {
      ReportBefore(Staging);
      Others();
      ghost var before := Now();
      var ok := *;
      hand := None;
      Stage(Command(first), ok);
      place := Draining;
      Took(StageFirst(ok), before);
    }

    method ReportBefore(next: Place)
      requires Valid() && (place == Reporting || place == LastReport)
      requires next == if place == LastReport then LastFlush else Staging
      modifies this
      ensures Valid() && place == next && Left() == old(Left()) && hand == old(hand)
    {
      ghost var before := Now();
      var ok := *;
      StageDropReport(ok);
      place := next;
      Took(ReportDrops(ok), before);
    }

    /** Whatever else is queued joins the batch. */
    method Drain()
      requires Valid() && place == Draining
      modifies this
      ensures Valid() && place == Flushing && Left() <= old(Left())
    {
      while true
        invariant Valid() && place == Draining && Left() <= old(Left())
        decreases Left()
      {
        Others();
        if queue == [] {
          break;
        }
        DrainNext();
      }
      ghost var before := Now();
      place := Flushing;
      Took(DrainEnd, before);
    }

    method DrainNext()
      requires Valid() && place == Draining && queue != []
      modifies this
      ensures Valid() && place == Draining && Left() < old(Left())
    {
      ghost var before := Now();
      var next := queue[0];
      var ok := *;
      queue := queue[1..];
      Stage(Command(next), ok);
      Took(DrainOne(ok), before);
    }

    /**
     The whole life of the writer. It ends once every emitter is gone and the queue is empty, and otherwise waits
     with an empty queue. A life without failures has written every accepted record, in order, and its last
     report counts every record that was not accepted.
     */
    method Run()
      requires Valid() && place == Waiting
      modifies this
      ensures Valid() && queue == [] && (if open then place == Waiting else place == Done)
      ensures !open && failures == 0 ==>
                Commands(Written(file)) == accepted && |accepted| + LastTotal(reports) == emitted
    {
      while true
        invariant Valid() && place == Waiting
        decreases Left()
      {
        Others();
        if queue == [] {
          if !open {
            break;
          }
          return;
        }
        HandleBatch();
      }
      ghost var before := Now();
      place := LastReport;
      Took(SeeClosed, before);
      ReportBefore(LastFlush);
      Flush();
      ReachedKeepsAccount(history, Now(), capacity);
      if failures == 0 {
        CleanShutdown(history, Now(), capacity);
      }
    }
  }
}

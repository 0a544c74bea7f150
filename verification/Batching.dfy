/** The batching adapter as an object that updates its session map, its sorted trip map and its
    event mask in loops and modem callbacks. Every method is proved to do what BatchingSpec says. */
module Batching {
  import opened BatchingSpec

  /** The modem's side: the distance travelled and the value of it at which the counter restarted. */
  class TripCounter {
    var odometer: nat
    var base: nat

    constructor ()
      ensures odometer == 0 && base == 0
    {
      odometer, base := 0, 0;
    }

    method Travel(meters: nat)
      modifies this
      ensures odometer == old(odometer) + meters && base == old(base)
    {
      odometer := odometer + meters;
    }

    method Query() returns (value: nat)
      ensures value == if odometer >= base then odometer - base else 0
    {
      value := if odometer >= base then odometer - base else 0;
    }

    method Restart()
      modifies this
      ensures base == odometer == old(odometer)
    {
      base := odometer;
    }
  }

  class BatchingAdapter {
    const modem: TripCounter
    var sessions: map<Key, Options>
    var trips: seq<Entry>
    var ongoingDistance: nat
    var ongoingTbf: nat
    var tbfDropped: bool
    var distanceDropped: bool
    var batchFull: bool
    ghost var completed: seq<Completion>

    ghost function View(): State
      reads this, modem
    {
      State(sessions, trips, ongoingDistance, ongoingTbf, tbfDropped, distanceDropped, batchFull,
            modem.odometer, modem.base, completed)
    }

    constructor (counter: TripCounter)
      requires counter.odometer == counter.base == 0
      ensures modem == counter && View() == INITIAL
    {
      modem := counter;
      sessions, trips := map[], [];
      ongoingDistance, ongoingTbf := 0, 0;
      tbfDropped, distanceDropped, batchFull := false, false, false;
      completed := [];
    }

    method AutoReportBatchingSessionsCount() returns (count: nat)
      ensures count == AutoCount(View())
    {
      count := 0;
      var keys := sessions.Keys;
      while keys != {}
        invariant keys <= sessions.Keys
        invariant count + |set k | k in keys && sessions[k].mode != NoAutoReport| == |AutoSessions(sessions)|
        decreases keys
      {
        var key :| key in keys;
        ghost var wanted := set k | k in keys && sessions[k].mode != NoAutoReport;
        ghost var rest := set k | k in keys - {key} && sessions[k].mode != NoAutoReport;
        assert rest == wanted - {key};
        if sessions[key].mode != NoAutoReport {
          count := count + 1;
        }
        keys := keys - {key};
      }
      count := count + |trips|;
    }

    method StartBatching(key: Key, o: Options, ok: bool)
      modifies this`sessions, this`batchFull
      ensures View() == BatchingSpec.StartBatching(old(View()), key, o, ok)
    {
      var count := AutoReportBatchingSessionsCount();
      if o.mode != NoAutoReport && count == 0 {
        batchFull := true;
      }
      sessions := sessions[key := o];
      if !ok {
        sessions := sessions - {key};
        count := AutoReportBatchingSessionsCount();
        if o.mode != NoAutoReport && count == 0 {
          batchFull := false;
        }
      }
    }

    method StartFirstTrip(key: Key, o: Options, ok: bool)
      requires trips == []
      modifies this, modem
      ensures View() == BatchingSpec.StartFirstTrip(old(View()), key, o, ok)
    {
      var count := AutoReportBatchingSessionsCount();
      if count == 0 {
        batchFull := true;
      }
      sessions := sessions[key := o];
      trips := Put(trips, Entry(key.id, Trip(0, 0, 0, o.minDistance, o.minInterval), modem.odometer));
      if ok {
        modem.Restart();
        ongoingDistance, ongoingTbf := o.minDistance, o.minInterval;
      } else {
        sessions := sessions - {key};
        trips := Erase(trips, key.id);
        count := AutoReportBatchingSessionsCount();
        if count == 0 {
          batchFull := false;
        }
      }
    }

    /** Every record restarts from the total of the last report. */
    method ForgetAllTrips()
      modifies this`trips
      ensures trips == ForgetAll(old(trips))
    {
      ghost var done: seq<Entry>, rest := [], trips;
      var i := 0;
      while i < |trips|
        invariant i == |done| && trips == done + rest
        invariant done + ForgetAll(rest) == ForgetAll(old(trips))
        decreases |trips| - i
      {
        ghost var entry := ForgetEntry(trips[i]);
        assert ForgetAll(rest) == [entry] + ForgetAll(rest[1..]);
        trips := trips[i := ForgetEntry(trips[i])];
        assert trips == done + [entry] + rest[1..];
        done, rest := done + [entry], rest[1..];
        i := i + 1;
      }
    }

    method JoinTrips(key: Key, o: Options, answers: Modem)
      modifies this, modem
      ensures View() == BatchingSpec.JoinTrips(old(View()), key, o, answers)
    {
      var accumulated := modem.Query();
      var target, interval, needsRestart := ongoingDistance, ongoingTbf, false;
      if interval > o.minInterval {
        interval := o.minInterval;
        needsRestart := true;
      }
      if !answers.queryOk {
        if o.minDistance < target {
          target := o.minDistance;
          needsRestart := true;
        }
      } else {
        var remaining := Sub32(target, accumulated);
        if o.minDistance < remaining {
          target := o.minDistance;
          needsRestart := true;
        } else if needsRestart {
          target := remaining;
        }
        trips := Put(trips, Entry(key.id, Trip(accumulated, 0, 0, o.minDistance, o.minInterval), modem.odometer));
      }
      if needsRestart {
        ongoingDistance, ongoingTbf := target, interval;
        ForgetAllTrips();
        if answers.startRestartOk {
          modem.Restart();
        }
      }
    }

    method StartTripBatchingMultiplex(key: Key, o: Options, answers: Modem)
      modifies this, modem
      ensures View() == StartTrip(old(View()), key, o, answers)
    {
      if |trips| == 0 {
        StartFirstTrip(key, o, answers.startOk);
      } else {
        JoinTrips(key, o, answers);
      }
    }

    method LeastRemaining() returns (distance: nat, tbf: nat)
      ensures distance == MinRemaining(trips, 0) && tbf == MinTbf(trips, 0)
    {
      distance, tbf := 0, 0;
      var i := 0;
      while i < |trips|
        invariant 0 <= i <= |trips|
        invariant MinRemaining(trips[i..], distance) == MinRemaining(trips, 0)
        invariant MinTbf(trips[i..], tbf) == MinTbf(trips, 0)
      {
        var trip := trips[i].trip;
        assert trips[i..][1..] == trips[i + 1..];
        if distance == 0 || distance > Sub32(trip.distance, trip.total) {
          distance := Sub32(trip.distance, trip.total);
        }
        if tbf == 0 || tbf > trip.tbf {
          tbf := trip.tbf;
        }
        i := i + 1;
      }
    }

    /** Every record is credited with the counter value, then restarts from it. */
    method CreditAllTrips(value: nat)
      modifies this`trips
      ensures trips == CreditAll(old(trips), value)
    {
      ghost var done: seq<Entry>, rest := [], trips;
      var i := 0;
      while i < |trips|
        invariant i == |done| && trips == done + rest
        invariant done + CreditAll(rest, value) == CreditAll(old(trips), value)
        decreases |trips| - i
      {
        ghost var entry := CreditEntry(trips[i], value);
        assert CreditAll(rest, value) == [entry] + CreditAll(rest[1..], value);
        trips := trips[i := CreditEntry(trips[i], value)];
        assert trips == done + [entry] + rest[1..];
        done, rest := done + [entry], rest[1..];
        i := i + 1;
      }
    }

    /** Clears the batch-full bit when the condition holds and only `left` wanted sessions remain. */
    method UnregisterIfLeft(condition: bool, left: nat)
      modifies this`batchFull
      ensures View() == UnregisterIf(old(View()), condition && AutoCount(old(View())) == left)
    {
      var count := AutoReportBatchingSessionsCount();
      if condition && count == left {
        batchFull := false;
      }
    }

    /** What a restart would ask of the modem, and whether one is needed. */
    method DecideRestart(accumulated: nat) returns (target: nat, interval: nat, needsRestart: bool)
      ensures target == RestartDistance(View(), accumulated)
      ensures interval == if TbfRestarts(View()) then MinTbf(trips, 0) else ongoingTbf
      ensures needsRestart == (DistanceRestarts(View(), accumulated) || TbfRestarts(View()))
    {
      var leastDistance, leastTbf := LeastRemaining();
      target, interval, needsRestart := ongoingDistance, ongoingTbf, false;
      var left := Sub32(target, accumulated);
      if !distanceDropped && left != 0 {
        if leastDistance < left {
          target := leastDistance;
          needsRestart := true;
        }
      } else if leastDistance != 0 {
        target := leastDistance;
        needsRestart := true;
      }
      if leastTbf < interval || (leastTbf != interval && tbfDropped) {
        interval := leastTbf;
        needsRestart := true;
      }
    }

    method RestartTripBatching(query: bool, reported: nat, restartOk: bool)
      modifies this, modem
      ensures View() == RestartTrips(old(View()), if query then Counter(old(View())) else reported, restartOk)
    {
      if |trips| == 0 {
        ongoingDistance, ongoingTbf := 0, 0;
        UnregisterIfLeft(true, 0);
        return;
      }
      var accumulated := reported;
      if query {
        accumulated := modem.Query();
      }
      var target, interval, needsRestart := DecideRestart(accumulated);
      if needsRestart && restartOk {
        CreditAllTrips(accumulated);
        modem.Restart();
        ongoingDistance, ongoingTbf := target, interval;
      }
    }

    method NoteDropped(trip: Trip)
      modifies this`tbfDropped, this`distanceDropped
      ensures View() == MarkDropped(old(View()), trip)
    {
      if trip.tbf == ongoingTbf {
        tbfDropped := true;
      }
      if trip.distance == ongoingDistance {
        distanceDropped := true;
      }
    }

    /** The original does not check that the trip is there before it reads it. */
    method StopTripBatchingMultiplex(id: nat, answers: Modem)
      requires IsTrip(trips, id)
      modifies this, modem
      ensures View() == StopTrip(old(View()), id, answers)
    {
      if |trips| == 1 {
        UnregisterIfLeft(answers.stopOk, 1);
      }
      NoteDropped(FindTrip(trips, id));
      trips := Erase(trips, id);
      if |trips| == 0 {
        ongoingDistance, ongoingTbf := 0, 0;
      } else {
        RestartTripBatching(true, 0, answers.restartOk);
      }
    }

    method StartAgain(key: Key, o: Options, answers: Modem)
      modifies this, modem
      ensures View() == BatchingSpec.StartAgain(old(View()), key, o, answers)
    {
      if o.mode == Routine || o.mode == NoAutoReport {
        StartBatching(key, o, answers.batchStartOk);
      } else if o.mode == TripMode {
        StartTripBatchingMultiplex(key, o, answers);
      }
    }

    method StopBatching(key: Key, restart: bool, o: Options, answers: Modem)
      requires key in sessions
      modifies this, modem
      ensures View() == BatchingSpec.StopBatching(old(View()), key, restart, o, answers)
    {
      var flpOptions := sessions[key];
      sessions := sessions - {key};
      if !answers.stopOk {
        sessions := sessions[key := o];
        assert sessions == old(sessions)[key := o];
      } else {
        UnregisterIfLeft(flpOptions.mode != NoAutoReport, 0);
        if restart {
          StartAgain(key, o, answers);
        }
      }
    }

    method UpdateBatchingOptions(key: Key, o: Options, answers: Modem)
      modifies this, modem
      ensures View() == Step(old(View()), Update(key, o, answers))
    {
      if key !in sessions || o.mode == UnknownMode {
        return;
      }
      if !IsTrip(trips, key.id) {
        StopBatching(key, true, o, answers);
      } else {
        StopTripBatchingMultiplex(key.id, answers);
        sessions := sessions - {key};
        StartAgain(key, o, answers);
      }
    }

    method Stop(key: Key, answers: Modem)
      modifies this, modem
      ensures View() == Step(old(View()), BatchingSpec.Stop(key, answers))
    {
      if key in sessions {
        if IsTrip(trips, key.id) {
          StopTripBatchingMultiplex(key.id, answers);
        } else {
          StopBatching(key, false, DEFAULT_OPTIONS, answers);
        }
      }
    }

    /** One turn of the walk: the iterator stays in place when it erases what it stands on. */
    method TakeAt(i: nat, value: nat) returns (next: nat, taken: seq<Completion>)
      requires i < |trips|
      modifies this`trips, this`tbfDropped, this`distanceDropped
      ensures View() == VisitAt(old(View()), i, value) && taken == TakenAt(old(View()), i, value)
      ensures next == if Completes(old(trips)[i], value) then i else i + 1
    {
      var entry := trips[i];
      if Completes(entry, value) {
        taken := [Completion(entry.id, entry.trip.distance, modem.odometer - entry.start)];
        trips := trips[..i] + trips[i + 1..];
        NoteDropped(entry.trip);
        next := i;
      } else {
        taken := [];
        trips := trips[i := Counted(entry, value)];
        next := i + 1;
      }
    }

    /** Takes the completed trips out of the map while walking it. */
    method TakeCompletedTrips(value: nat) returns (done: seq<Completion>)
      modifies this`trips, this`tbfDropped, this`distanceDropped, this`completed
      ensures View() == TakeCompleted(old(View()), value)
      ensures done == CompletedNow(old(trips), value, modem.odometer)
    {
      done := [];
      ghost var walk := Walk([], trips, View(), []);
      var i := 0;
      while i < |trips|
        invariant Walking(old(View()), value, walk)
        invariant View() == walk.now && done == walk.done && i == |walk.kept|
        decreases |walk.rest|
      {
        walk := WalkNext(old(View()), value, walk);
        var taken;
        i, taken := TakeAt(i, value);
        done := done + taken;
      }
      WalkEnd(old(View()), value, walk);
      completed := completed + done;
    }

    method ReportCompletedTrips(value: nat, answers: Modem)
      modifies this, modem
      ensures View() == Step(old(View()), Report(value, answers))
    {
      var done := TakeCompletedTrips(value);
      if |done| > 0 {
        RestartTripBatching(false, value, answers.restartOk);
      }
    }

    /** The loop resets copies of the records, so nothing in the map changes. */
    method RestartSessions(startOk: bool)
      modifies this, modem
      ensures View() == Step(old(View()), EngineUp(ALL_OK.(startOk := startOk)))
    {
      var count := AutoReportBatchingSessionsCount();
      if count > 0 {
        batchFull := true;
      }
      if |trips| > 0 {
        ongoingDistance, ongoingTbf := LeastRemaining();
        modem.Restart();
        if !startOk {
          ongoingDistance, ongoingTbf := 0, 0;
        }
      }
    }

    method UpdateClientsEventMask()
      modifies this`batchFull
      ensures View() == Step(old(View()), ClientsChanged)
    {
      var count := AutoReportBatchingSessionsCount();
      batchFull := count > 0;
    }
  }
}

/** What the batching adapter does to its sessions, its trips and the modem's trip counter,
    and the distance accounting that holds over every run. */
module BatchingSpec {

  const UINT32 := 0x1_0000_0000

  function Add32(a: int, b: int): nat { (a + b) % UINT32 }

  function Sub32(a: int, b: int): nat { (a - b) % UINT32 }

  datatype Mode = Routine | TripMode | NoAutoReport | UnknownMode

  datatype Options = Options(mode: Mode, minDistance: nat, minInterval: nat)

  datatype Key = Key(client: nat, id: nat)

  /** The adapter's record of one trip. `ongoing` is the counter value at which the trip joined the
      current modem batch, `total` the distance credited at the last report, `atRestart` the distance
      credited when the modem batch last restarted. */
  datatype Trip = Trip(ongoing: nat, total: nat, atRestart: nat, distance: nat, tbf: nat)

  /** `start` (the odometer when the trip began) is bookkeeping of the proof: no operation reads it. */
  datatype Entry = Entry(id: nat, trip: Trip, start: nat)

  datatype Completion = Completion(id: nat, distance: nat, travelled: int)

  /** `odometer` is the true distance ever travelled, `base` its value when the modem counter last
      restarted, `completed` every trip ever declared complete. */
  datatype State = State(
    sessions: map<Key, Options>, trips: seq<Entry>,
    ongoingDistance: nat, ongoingTbf: nat, tbfDropped: bool, distanceDropped: bool,
    batchFull: bool,
    odometer: nat, base: nat, completed: seq<Completion>)

  /** The modem's answers while one message is processed. */
  datatype Modem = Modem(stopOk: bool, restartOk: bool, startOk: bool, queryOk: bool, startRestartOk: bool,
                         batchStartOk: bool)

  datatype Event =
    | Travel(meters: nat)
    | Start(key: Key, options: Options, modem: Modem)
    | Update(key: Key, options: Options, modem: Modem)
    | Stop(key: Key, modem: Modem)
    | Report(value: nat, modem: Modem)
    | EngineUp(modem: Modem)
    | ClientsChanged

  // ---------------------------------------------------------------- the sorted trip map

  function Put(es: seq<Entry>, e: Entry): seq<Entry> {
    if es == [] then [e]
    else if e.id < es[0].id then [e] + es
    else if e.id == es[0].id then [e] + es[1..]
    else [es[0]] + Put(es[1..], e)
  }

  function Erase(es: seq<Entry>, id: nat): seq<Entry> {
    if es == [] then []
    else (if es[0].id == id then [] else [es[0]]) + Erase(es[1..], id)
  }

  predicate IsTrip(es: seq<Entry>, id: nat) {
    exists e :: e in es && e.id == id
  }

  function FindTrip(es: seq<Entry>, id: nat): Trip
    requires IsTrip(es, id)
  {
    if es[0].id == id then es[0].trip else FindTrip(es[1..], id)
  }

  // ---------------------------------------------------------------- counting and masks

  function AutoSessions(sessions: map<Key, Options>): set<Key> {
    set k | k in sessions && sessions[k].mode != NoAutoReport
  }

  function AutoCount(s: State): nat {
    |AutoSessions(s.sessions)| + |s.trips|
  }

  function Without(sessions: map<Key, Options>, key: Key): map<Key, Options> {
    sessions - {key}
  }

  function UnregisterIf(s: State, idle: bool): (r: State)
    ensures r.odometer == s.odometer
  {
    s.(batchFull := s.batchFull && !idle)
  }

  // ---------------------------------------------------------------- trips

  function Counter(s: State): nat {
    if s.odometer >= s.base then s.odometer - s.base else 0
  }

  function CountedTotal(t: Trip, value: nat): nat {
    Add32(t.atRestart, Sub32(value, t.ongoing))
  }

  /** The credit a trip has right now, in plain arithmetic. */
  function Credit(t: Trip, counter: nat): int {
    t.atRestart + counter - t.ongoing
  }

  function Remaining(t: Trip): nat {
    Sub32(t.distance, t.total)
  }

  /** The loop that looks for the least remaining distance; zero stands for "none yet". */
  function MinRemaining(es: seq<Entry>, least: nat): nat {
    if es == [] then least
    else
      var r := Remaining(es[0].trip);
      MinRemaining(es[1..], if least == 0 || least > r then r else least)
  }

  function MinTbf(es: seq<Entry>, least: nat): nat {
    if es == [] then least
    else
      var t := es[0].trip.tbf;
      MinTbf(es[1..], if least == 0 || least > t then t else least)
  }

  /** Restarting from the total of the last report. */
  function ForgetEntry(e: Entry): Entry {
    e.(trip := e.trip.(ongoing := 0, atRestart := e.trip.total))
  }

  function ForgetAll(es: seq<Entry>): seq<Entry> {
    if es == [] then [] else [ForgetEntry(es[0])] + ForgetAll(es[1..])
  }

  /** Restarting after crediting the counter value `value`. */
  function CreditEntry(e: Entry, value: nat): Entry {
    var total := CountedTotal(e.trip, value);
    e.(trip := e.trip.(ongoing := 0, total := total, atRestart := total))
  }

  function CreditAll(es: seq<Entry>, value: nat): seq<Entry> {
    if es == [] then [] else [CreditEntry(es[0], value)] + CreditAll(es[1..], value)
  }

  function Counted(e: Entry, value: nat): Entry {
    e.(trip := e.trip.(total := CountedTotal(e.trip, value)))
  }

  predicate Completes(e: Entry, value: nat) {
    e.trip.distance <= CountedTotal(e.trip, value)
  }

  function Uncompleted(es: seq<Entry>, value: nat): seq<Entry> {
    if es == [] then []
    else (if Completes(es[0], value) then [] else [Counted(es[0], value)]) + Uncompleted(es[1..], value)
  }

  function CompletedNow(es: seq<Entry>, value: nat, odometer: nat): seq<Completion> {
    if es == [] then []
    else (if Completes(es[0], value)
          then [Completion(es[0].id, es[0].trip.distance, odometer - es[0].start)] else [])
         + CompletedNow(es[1..], value, odometer)
  }

  predicate DropsTbf(es: seq<Entry>, value: nat, tbf: nat) {
    es != [] && ((Completes(es[0], value) && es[0].trip.tbf == tbf) || DropsTbf(es[1..], value, tbf))
  }

  predicate DropsDistance(es: seq<Entry>, value: nat, distance: nat) {
    es != [] &&
    ((Completes(es[0], value) && es[0].trip.distance == distance) || DropsDistance(es[1..], value, distance))
  }

  // ---------------------------------------------------------------- operations

  function NewTrip(s: State, id: nat, joinedAt: nat, o: Options): Entry {
    Entry(id, Trip(joinedAt, 0, 0, o.minDistance, o.minInterval), s.odometer)
  }

  function StartBatching(s: State, key: Key, o: Options, ok: bool): (r: State)
    ensures r.odometer == s.odometer
  {
    var s1 := s.(batchFull := s.batchFull || (o.mode != NoAutoReport && AutoCount(s) == 0));
    if ok then s1.(sessions := s.sessions[key := o])
    else
      var s2 := s1.(sessions := Without(s.sessions[key := o], key));
      UnregisterIf(s2, o.mode != NoAutoReport && AutoCount(s2) == 0)
  }

  function StartFirstTrip(s: State, key: Key, o: Options, ok: bool): (r: State)
    ensures r.odometer == s.odometer
  {
    var s1 := s.(batchFull := s.batchFull || AutoCount(s) == 0);
    if ok then
      s1.(sessions := s.sessions[key := o], trips := Put(s.trips, NewTrip(s, key.id, 0, o)),
          ongoingDistance := o.minDistance, ongoingTbf := o.minInterval, base := s.odometer)
    else
      var s2 := s1.(sessions := Without(s.sessions[key := o], key),
                    trips := Erase(Put(s.trips, NewTrip(s, key.id, 0, o)), key.id));
      UnregisterIf(s2, AutoCount(s2) == 0)
  }

  /** The distance asked of the modem when a trip joins others, and whether the modem must restart. */
  function JoinDistance(s: State, o: Options, queryOk: bool): nat {
    if !queryOk then (if o.minDistance < s.ongoingDistance then o.minDistance else s.ongoingDistance)
    else
      var remaining := Sub32(s.ongoingDistance, Counter(s));
      if o.minDistance < remaining then o.minDistance
      else if o.minInterval < s.ongoingTbf then remaining
      else s.ongoingDistance
  }

  predicate JoinRestarts(s: State, o: Options, queryOk: bool) {
    || o.minInterval < s.ongoingTbf
    || o.minDistance < (if queryOk then Sub32(s.ongoingDistance, Counter(s)) else s.ongoingDistance)
  }

  /** The trips before the restart: without the counter the newcomer is not recorded. */
  function Joined(s: State, key: Key, o: Options, queryOk: bool): seq<Entry> {
    if queryOk then Put(s.trips, NewTrip(s, key.id, Counter(s), o)) else s.trips
  }

  function JoinTrips(s: State, key: Key, o: Options, modem: Modem): (r: State)
    ensures r.odometer == s.odometer
  {
    var trips := Joined(s, key, o, modem.queryOk);
    if !JoinRestarts(s, o, modem.queryOk) then s.(trips := trips)
    else
      s.(trips := ForgetAll(trips),
         ongoingDistance := JoinDistance(s, o, modem.queryOk),
         ongoingTbf := if o.minInterval < s.ongoingTbf then o.minInterval else s.ongoingTbf,
         base := if modem.startRestartOk then s.odometer else s.base)
  }

  function StartTrip(s: State, key: Key, o: Options, modem: Modem): (r: State)
    ensures r.odometer == s.odometer
  {
    if s.trips == [] then StartFirstTrip(s, key, o, modem.startOk) else JoinTrips(s, key, o, modem)
  }

  /** The target and the interval a restart would ask for. */
  function RestartDistance(s: State, value: nat): nat {
    var least := MinRemaining(s.trips, 0);
    if !s.distanceDropped && Sub32(s.ongoingDistance, value) != 0 then
      (if least < Sub32(s.ongoingDistance, value) then least else s.ongoingDistance)
    else if least != 0 then least else s.ongoingDistance
  }

  predicate DistanceRestarts(s: State, value: nat) {
    var least := MinRemaining(s.trips, 0);
    if !s.distanceDropped && Sub32(s.ongoingDistance, value) != 0
    then least < Sub32(s.ongoingDistance, value)
    else least != 0
  }

  predicate TbfRestarts(s: State) {
    var least := MinTbf(s.trips, 0);
    least < s.ongoingTbf || (least != s.ongoingTbf && s.tbfDropped)
  }

  function RestartTrips(s: State, value: nat, restartOk: bool): (r: State)
    ensures r.odometer == s.odometer
  {
    if s.trips == [] then
      UnregisterIf(s.(ongoingDistance := 0, ongoingTbf := 0), AutoCount(s) == 0)
    else if (DistanceRestarts(s, value) || TbfRestarts(s)) && restartOk then
      s.(trips := CreditAll(s.trips, value),
         ongoingDistance := RestartDistance(s, value),
         ongoingTbf := if TbfRestarts(s) then MinTbf(s.trips, 0) else s.ongoingTbf,
         base := s.odometer)
    else s
  }

  function MarkDropped(s: State, t: Trip): State {
    s.(tbfDropped := s.tbfDropped || t.tbf == s.ongoingTbf,
       distanceDropped := s.distanceDropped || t.distance == s.ongoingDistance)
  }

  function DropTrip(s: State, id: nat): State
    requires IsTrip(s.trips, id)
  {
    MarkDropped(s, FindTrip(s.trips, id)).(trips := Erase(s.trips, id))
  }

  function StopTrip(s: State, id: nat, modem: Modem): (r: State)
    requires IsTrip(s.trips, id)
    ensures r.odometer == s.odometer
  {
    var s1 := DropTrip(UnregisterIf(s, |s.trips| == 1 && modem.stopOk && AutoCount(s) == 1), id);
    if s1.trips == [] then s1.(ongoingDistance := 0, ongoingTbf := 0)
    else RestartTrips(s1, Counter(s1), modem.restartOk)
  }

  function StartAgain(s: State, key: Key, o: Options, modem: Modem): (r: State)
    ensures r.odometer == s.odometer
  {
    if o.mode == Routine || o.mode == NoAutoReport then StartBatching(s, key, o, modem.batchStartOk)
    else if o.mode == TripMode then StartTrip(s, key, o, modem)
    else s
  }

  function StopTripAndRestart(s: State, key: Key, o: Options, modem: Modem): (r: State)
    requires IsTrip(s.trips, key.id)
    ensures r.odometer == s.odometer
  {
    var s1 := StopTrip(s, key.id, modem);
    StartAgain(s1.(sessions := Without(s1.sessions, key)), key, o, modem)
  }

  /** A failed stop puts the session back with the options it was called with, not with its own. */
  function StopBatching(s: State, key: Key, restart: bool, o: Options, modem: Modem): (r: State)
    requires key in s.sessions
    ensures r.odometer == s.odometer
  {
    var s1 := s.(sessions := Without(s.sessions, key));
    if !modem.stopOk then s.(sessions := s.sessions[key := o])
    else
      var s2 := UnregisterIf(s1, AutoCount(s1) == 0 && s.sessions[key].mode != NoAutoReport);
      if restart then StartAgain(s2, key, o, modem) else s2
  }

  const DEFAULT_OPTIONS := Options(Routine, 0, 0)

  function TakeCompleted(s: State, value: nat): State {
    s.(trips := Uncompleted(s.trips, value),
       tbfDropped := s.tbfDropped || DropsTbf(s.trips, value, s.ongoingTbf),
       distanceDropped := s.distanceDropped || DropsDistance(s.trips, value, s.ongoingDistance),
       completed := s.completed + CompletedNow(s.trips, value, s.odometer))
  }

  /** A walk over the map so far: trips kept, trips still to visit, the adapter, trips completed. */
  datatype Walk = Walk(kept: seq<Entry>, rest: seq<Entry>, now: State, done: seq<Completion>)

  ghost predicate Walking(s: State, value: nat, w: Walk) {
    && w.now == s.(trips := w.kept + w.rest,
                   tbfDropped := w.now.tbfDropped, distanceDropped := w.now.distanceDropped)
    && w.kept + Uncompleted(w.rest, value) == Uncompleted(s.trips, value)
    && w.done + CompletedNow(w.rest, value, s.odometer) == CompletedNow(s.trips, value, s.odometer)
    && (w.now.tbfDropped || DropsTbf(w.rest, value, s.ongoingTbf))
       == (s.tbfDropped || DropsTbf(s.trips, value, s.ongoingTbf))
    && (w.now.distanceDropped || DropsDistance(w.rest, value, s.ongoingDistance))
       == (s.distanceDropped || DropsDistance(s.trips, value, s.ongoingDistance))
  }

  /** What one turn of the walk does at position i. */
  function VisitAt(s: State, i: nat, value: nat): State
    requires i < |s.trips|
  {
    var e := s.trips[i];
    if Completes(e, value) then MarkDropped(s, e.trip).(trips := s.trips[..i] + s.trips[i + 1..])
    else s.(trips := s.trips[i := Counted(e, value)])
  }

  function TakenAt(s: State, i: nat, value: nat): seq<Completion>
    requires i < |s.trips|
  {
    var e := s.trips[i];
    if Completes(e, value) then [Completion(e.id, e.trip.distance, s.odometer - e.start)] else []
  }

  lemma WalkOver(s: State, value: nat, w: Walk)
    requires Walking(s, value, w) && w.rest != [] && Completes(w.rest[0], value)
    ensures Walking(s, value, Walk(w.kept, w.rest[1..],
                                   MarkDropped(w.now, w.rest[0].trip).(trips := w.kept + w.rest[1..]),
                                   w.done + TakenAt(w.now, |w.kept|, value)))
  {
    var taken := TakenAt(w.now, |w.kept|, value);
    assert Uncompleted(w.rest, value) == Uncompleted(w.rest[1..], value);
    assert CompletedNow(w.rest, value, s.odometer) == taken + CompletedNow(w.rest[1..], value, s.odometer);
    assert w.done + taken + CompletedNow(w.rest[1..], value, s.odometer)
        == w.done + CompletedNow(w.rest, value, s.odometer);
  }

  lemma WalkPast(s: State, value: nat, w: Walk)
    requires Walking(s, value, w) && w.rest != [] && !Completes(w.rest[0], value)
    ensures Walking(s, value, Walk(w.kept + [Counted(w.rest[0], value)], w.rest[1..],
                                   w.now.(trips := w.kept + [Counted(w.rest[0], value)] + w.rest[1..]), w.done))
  {
    var kept := [Counted(w.rest[0], value)];
    assert w.kept + kept + Uncompleted(w.rest[1..], value) == w.kept + Uncompleted(w.rest, value);
    assert CompletedNow(w.rest, value, s.odometer) == CompletedNow(w.rest[1..], value, s.odometer);
  }

  lemma WalkNext(s: State, value: nat, w: Walk) returns (n: Walk)
    requires Walking(s, value, w) && w.rest != []
    ensures Walking(s, value, n) && n.rest == w.rest[1..]
    ensures n.now == VisitAt(w.now, |w.kept|, value)
    ensures n.done == w.done + TakenAt(w.now, |w.kept|, value)
    ensures |n.kept| == if Completes(w.now.trips[|w.kept|], value) then |w.kept| else |w.kept| + 1
  {
    var e, rest := w.rest[0], w.rest[1..];
    var done := w.done + TakenAt(w.now, |w.kept|, value);
    if Completes(e, value) {
      WalkOver(s, value, w);
      n := Walk(w.kept, rest, MarkDropped(w.now, e.trip).(trips := w.kept + rest), done);
    } else {
      WalkPast(s, value, w);
      assert done == w.done;
      var kept := w.kept + [Counted(e, value)];
      n := Walk(kept, rest, w.now.(trips := kept + rest), done);
    }
  }

  lemma WalkEnd(s: State, value: nat, w: Walk)
    requires Walking(s, value, w) && w.rest == []
    ensures w.done == CompletedNow(s.trips, value, s.odometer)
    ensures w.now.(completed := s.completed + w.done) == TakeCompleted(s, value)
  {
  }

  function OnReport(s: State, value: nat, modem: Modem): (r: State)
    ensures r.odometer == s.odometer
  {
    var s1 := TakeCompleted(s, value);
    if s1.completed != s.completed then RestartTrips(s1, value, modem.restartOk) else s1
  }

  /** The modem batch starts anew with the least remaining distance. The loop that should set each
      trip's `ongoing` to zero works on copies, so the records keep theirs. */
  function OnEngineUp(s: State, startOk: bool): (r: State)
    ensures r.odometer == s.odometer
  {
    var s1 := s.(batchFull := s.batchFull || AutoCount(s) > 0);
    if s.trips == [] then s1
    else
      s1.(base := s.odometer,
          ongoingDistance := if startOk then MinRemaining(s.trips, 0) else 0,
          ongoingTbf := if startOk then MinTbf(s.trips, 0) else 0)
  }

  function Step(s: State, e: Event): State {
    match e
    case Travel(meters) => s.(odometer := s.odometer + meters)
    case Start(key, o, modem) => StartAgain(s, key, o, modem)
    case Update(key, o, modem) =>
      if key !in s.sessions || o.mode == UnknownMode then s
      else if IsTrip(s.trips, key.id) then StopTripAndRestart(s, key, o, modem)
      else StopBatching(s, key, true, o, modem)
    case Stop(key, modem) =>
      if key !in s.sessions then s
      else if IsTrip(s.trips, key.id) then StopTrip(s, key.id, modem)
      else StopBatching(s, key, false, DEFAULT_OPTIONS, modem)
    case Report(value, modem) => OnReport(s, value, modem)
    case EngineUp(modem) => OnEngineUp(s, modem.startOk)
    case ClientsChanged => s.(batchFull := AutoCount(s) > 0)
  }

  const INITIAL := State(map[], [], 0, 0, false, false, false, 0, 0, [])

  function Run(es: seq<Event>): State {
    if es == [] then INITIAL else Step(Run(es[..|es| - 1]), es[|es| - 1])
  }

  // ---------------------------------------------------------------- distance accounting

  /** What a trip travelled without being credited for it; negative when it was credited too much. */
  function Loss(e: Entry, odometer: nat, counter: nat): int {
    odometer - e.start - Credit(e.trip, counter)
  }

  /** No trip is credited more than it travelled, now or at the last report, and the counter is never behind
      it; a trip that joined the present batch late has lost nothing yet. */
  ghost predicate Accounted(e: Entry, odometer: nat, counter: nat) {
    && e.trip.ongoing <= counter
    && e.trip.atRestart - e.trip.ongoing <= e.trip.total <= odometer - e.start
    && 0 <= Loss(e, odometer, counter)
    && (e.trip.ongoing > 0 ==> e.trip.atRestart == 0 && Loss(e, odometer, counter) == 0)
  }

  ghost predicate AccountOk(s: State) {
    && s.base <= s.odometer
    && (forall e :: e in s.trips ==> Accounted(e, s.odometer, Counter(s)))
    && (forall c :: c in s.completed ==> c.distance <= c.travelled)
  }

  /** Forgetting while the counter runs on credits the whole counter on top of the last total: that is no more
      than what the trip had, and had lost before. */
  predicate Forgettable(e: Entry, odometer: nat, counter: nat) {
    e.trip.total + e.trip.ongoing <= e.trip.atRestart + Loss(e, odometer, counter)
  }

  /** The modem accepts the restart a joining trip asks for, or all trips can be forgotten without it. */
  predicate JoinSafe(s: State, key: Key, o: Options, modem: Modem) {
    o.mode == TripMode && s.trips != [] && JoinRestarts(s, o, modem.queryOk) && !modem.startRestartOk ==>
      forall e :: e in Joined(s, key, o, modem.queryOk) ==> Forgettable(e, s.odometer, Counter(s))
  }

  /** The reported value is not older than the trip, or the trip has covered its distance anyway. */
  predicate FreshFor(e: Entry, value: nat, counter: nat) {
    e.trip.ongoing <= value || e.trip.distance <= counter - e.trip.ongoing
  }

  /** A report never carries more than the running counter. */
  predicate RealReport(s: State, e: Event) {
    e.Report? ==> e.value <= Counter(s)
  }

  /** What keeps the accounting: joins whose restart the modem accepts or that need none, reports no older than
      the trips, engine restarts only when no trip joined its batch late. */
  ghost predicate Faithful(s: State, e: Event) {
    && RealReport(s, e)
    && match e
       case Start(key, o, modem) => JoinSafe(s, key, o, modem)
       case Update(key, o, modem) =>
         key in s.sessions && o.mode != UnknownMode ==>
           if IsTrip(s.trips, key.id) then JoinSafe(StopTrip(s, key.id, modem), key, o, modem)
           else modem.stopOk ==> JoinSafe(s, key, o, modem)
       case Report(value, _) => forall t :: t in s.trips ==> FreshFor(t, value, Counter(s))
       case EngineUp(_) => forall t :: t in s.trips ==> t.trip.ongoing == 0
       case _ => true
  }

  ghost predicate FaithfulRun(es: seq<Event>) {
    es == [] || (FaithfulRun(es[..|es| - 1]) && Faithful(Run(es[..|es| - 1]), es[|es| - 1]))
  }

  lemma {:induction false} PutMembers(es: seq<Entry>, e: Entry)
    ensures forall x :: x in Put(es, e) ==> x == e || x in es
    ensures e in Put(es, e)
  {
    if es != [] && e.id > es[0].id {
      PutMembers(es[1..], e);
    }
  }

  lemma {:induction false} EraseMembers(es: seq<Entry>, id: nat)
    ensures forall x :: x in Erase(es, id) <==> x in es && x.id != id
  {
    if es != [] {
      EraseMembers(es[1..], id);
    }
  }

  lemma {:induction false} ForgetMembers(es: seq<Entry>)
    ensures es == [] <==> ForgetAll(es) == []
    ensures forall e :: e in es ==> ForgetEntry(e) in ForgetAll(es)
    ensures forall x :: x in ForgetAll(es) ==> exists e :: e in es && x == ForgetEntry(e)
  {
    if es != [] {
      ForgetMembers(es[1..]);
      assert forall e :: e in es <==> e == es[0] || e in es[1..];
    }
  }

  /** Forgetting is sound when the counter restarts with it. */
  lemma ForgetAccount(es: seq<Entry>, odometer: nat, counter: nat)
    requires forall e :: e in es ==> Accounted(e, odometer, counter)
    ensures forall x :: x in ForgetAll(es) ==> Accounted(x, odometer, 0)
  {
    ForgetMembers(es);
  }

  /** When the counter runs on it is sound exactly for trips that can be forgotten. */
  lemma ForgetRefused(es: seq<Entry>, odometer: nat, counter: nat)
    requires forall e :: e in es ==> Accounted(e, odometer, counter)
    ensures (forall x :: x in ForgetAll(es) ==> Accounted(x, odometer, counter))
       <==> (forall e :: e in es ==> Forgettable(e, odometer, counter))
  {
    ForgetMembers(es);
    forall e | e in es
      ensures Accounted(ForgetEntry(e), odometer, counter) <==> Forgettable(e, odometer, counter)
    {
      assert Loss(ForgetEntry(e), odometer, counter)
          == e.trip.atRestart + Loss(e, odometer, counter) - e.trip.total - e.trip.ongoing;
    }
  }

  lemma CountedTotalExact(e: Entry, value: nat, odometer: nat, counter: nat)
    requires Accounted(e, odometer, counter) && odometer < UINT32
    requires e.trip.ongoing <= value <= counter
    ensures CountedTotal(e.trip, value) == Credit(e.trip, value)
  {
  }

  /** The 32-bit total is at most the distance travelled exactly when the value is not older than the
      counter at which the trip joined: an older one wraps around. */
  lemma StaleValueExact(e: Entry, value: nat, odometer: nat, counter: nat)
    requires Accounted(e, odometer, counter) && value <= counter <= odometer < UINT32
    ensures CountedTotal(e.trip, value) <= odometer - e.start <==> e.trip.ongoing <= value
  {
    if value < e.trip.ongoing {
      assert Sub32(value, e.trip.ongoing) == value - e.trip.ongoing + UINT32;
    }
  }

  lemma {:induction false} CreditAccount(es: seq<Entry>, value: nat, odometer: nat, counter: nat)
    requires odometer < UINT32 && value <= counter
    requires forall e :: e in es ==> Accounted(e, odometer, counter) && e.trip.ongoing <= value
    ensures forall e :: e in CreditAll(es, value) ==> Accounted(e, odometer, 0)
  {
    if es != [] {
      CreditAccount(es[1..], value, odometer, counter);
      assert es[0] in es;
      CountedTotalExact(es[0], value, odometer, counter);
    }
  }

  lemma FreshEntry(e: Entry, value: nat, odometer: nat, counter: nat)
    requires value <= counter <= odometer < UINT32
    requires Accounted(e, odometer, counter) && FreshFor(e, value, counter)
    ensures Completes(e, value) ==> e.trip.distance <= odometer - e.start
    ensures !Completes(e, value) ==> Accounted(Counted(e, value), odometer, counter) && e.trip.ongoing <= value
  {
    StaleValueExact(e, value, odometer, counter);
    if e.trip.ongoing <= value {
      CountedTotalExact(e, value, odometer, counter);
    }
  }

  lemma {:induction false} ReportAccount(es: seq<Entry>, value: nat, odometer: nat, counter: nat)
    requires value <= counter <= odometer < UINT32
    requires forall e :: e in es ==> Accounted(e, odometer, counter) && FreshFor(e, value, counter)
    ensures forall e :: e in Uncompleted(es, value) ==>
                          Accounted(e, odometer, counter) && e.trip.ongoing <= value
    ensures forall c :: c in CompletedNow(es, value, odometer) ==> c.distance <= c.travelled
  {
    if es != [] {
      ReportAccount(es[1..], value, odometer, counter);
      assert es[0] in es;
      FreshEntry(es[0], value, odometer, counter);
    }
  }

  /** A trip the value is too old for completes early or is kept with more than it travelled. */
  lemma {:induction false} StaleReport(es: seq<Entry>, bad: Entry, value: nat, odometer: nat, counter: nat)
    requires bad in es && Accounted(bad, odometer, counter) && value <= counter <= odometer < UINT32
    requires !FreshFor(bad, value, counter)
    ensures || (exists c :: c in CompletedNow(es, value, odometer) && c.travelled < c.distance)
            || (Counted(bad, value) in Uncompleted(es, value) && odometer - bad.start < CountedTotal(bad.trip, value))
  {
    if es[0] == bad {
      StaleValueExact(bad, value, odometer, counter);
      if Completes(bad, value) {
        assert CompletedNow(es, value, odometer)[0] == Completion(bad.id, bad.trip.distance, odometer - bad.start);
      } else {
        assert Uncompleted(es, value)[0] == Counted(bad, value);
      }
    } else {
      StaleReport(es[1..], bad, value, odometer, counter);
    }
  }

  lemma {:induction false} CreditMember(es: seq<Entry>, e: Entry, value: nat)
    requires e in es
    ensures CreditEntry(e, value) in CreditAll(es, value)
  {
    if es[0] != e {
      CreditMember(es[1..], e, value);
    }
  }

  lemma FirstTripAccount(s: State, key: Key, o: Options, ok: bool)
    requires AccountOk(s) && s.trips == []
    ensures AccountOk(StartFirstTrip(s, key, o, ok))
  {
    PutMembers(s.trips, NewTrip(s, key.id, 0, o));
    EraseMembers(Put(s.trips, NewTrip(s, key.id, 0, o)), key.id);
  }

  lemma JoinedAccount(s: State, key: Key, o: Options, queryOk: bool)
    requires AccountOk(s) && s.trips != []
    ensures Joined(s, key, o, queryOk) != []
    ensures forall e :: e in Joined(s, key, o, queryOk) ==> Accounted(e, s.odometer, Counter(s))
  {
    PutMembers(s.trips, NewTrip(s, key.id, Counter(s), o));
  }

  /** A joining trip keeps the accounting exactly when no restart is asked for, the modem accepts it, or all
      trips can be forgotten without it; while nothing is lost that can be read off the records. */
  lemma JoinExact(s: State, key: Key, o: Options, modem: Modem)
    requires AccountOk(s) && s.trips != []
    ensures AccountOk(JoinTrips(s, key, o, modem)) <==>
              || !JoinRestarts(s, o, modem.queryOk) || modem.startRestartOk
              || forall e :: e in Joined(s, key, o, modem.queryOk) ==> Forgettable(e, s.odometer, Counter(s))
    ensures NothingLost(s) ==>
              (AccountOk(JoinTrips(s, key, o, modem)) <==>
                 || !JoinRestarts(s, o, modem.queryOk) || modem.startRestartOk
                 || forall e :: e in Joined(s, key, o, modem.queryOk) ==> Untold(e))
  {
    var trips := Joined(s, key, o, modem.queryOk);
    JoinedAccount(s, key, o, modem.queryOk);
    ForgetAccount(trips, s.odometer, Counter(s));
    ForgetRefused(trips, s.odometer, Counter(s));
    if NothingLost(s) {
      JoinedUntold(s, key, o, modem.queryOk);
    }
  }

  /** Nothing of the present batch was reported to the trip, which was there when the batch began. */
  predicate Untold(e: Entry) {
    e.trip.total + e.trip.ongoing <= e.trip.atRestart
  }

  ghost predicate NothingLost(s: State) {
    forall e :: e in s.trips ==> Loss(e, s.odometer, Counter(s)) <= 0
  }

  lemma JoinedUntold(s: State, key: Key, o: Options, queryOk: bool)
    requires AccountOk(s) && NothingLost(s)
    ensures forall e :: e in Joined(s, key, o, queryOk) ==>
              && Loss(e, s.odometer, Counter(s)) == 0
              && (Forgettable(e, s.odometer, Counter(s)) <==> Untold(e))
  {
    PutMembers(s.trips, NewTrip(s, key.id, Counter(s), o));
  }

  lemma RestartTripsAccount(s: State, value: nat, restartOk: bool)
    requires AccountOk(s) && s.odometer < UINT32 && value <= Counter(s)
    requires forall e :: e in s.trips ==> e.trip.ongoing <= value
    ensures AccountOk(RestartTrips(s, value, restartOk))
  {
    CreditAccount(s.trips, value, s.odometer, Counter(s));
  }

  lemma StopTripAccount(s: State, id: nat, modem: Modem)
    requires AccountOk(s) && s.odometer < UINT32 && IsTrip(s.trips, id)
    ensures AccountOk(StopTrip(s, id, modem)) && StopTrip(s, id, modem).odometer == s.odometer
  {
    EraseMembers(s.trips, id);
    var s1 := DropTrip(UnregisterIf(s, |s.trips| == 1 && modem.stopOk && AutoCount(s) == 1), id);
    RestartTripsAccount(s1, Counter(s1), modem.restartOk);
  }

  lemma StartAgainExact(s: State, key: Key, o: Options, modem: Modem)
    requires AccountOk(s)
    ensures AccountOk(StartAgain(s, key, o, modem)) <==> JoinSafe(s, key, o, modem)
  {
    if o.mode == TripMode {
      if s.trips == [] {
        FirstTripAccount(s, key, o, modem.startOk);
      } else {
        JoinExact(s, key, o, modem);
      }
    }
  }

  lemma SessionsPlayNoPart(s: State, sessions: map<Key, Options>, batchFull: bool, key: Key, o: Options, modem: Modem)
    ensures var r := s.(sessions := sessions, batchFull := batchFull);
            && (JoinSafe(r, key, o, modem) <==> JoinSafe(s, key, o, modem))
            && (JoinLossless(r, key, o, modem) <==> JoinLossless(s, key, o, modem))
  {
    var r := s.(sessions := sessions, batchFull := batchFull);
    assert Joined(r, key, o, modem.queryOk) == Joined(s, key, o, modem.queryOk);
  }

  lemma UpdateTripAccount(s: State, key: Key, o: Options, modem: Modem)
    requires AccountOk(s) && s.odometer < UINT32 && IsTrip(s.trips, key.id)
    ensures AccountOk(StopTripAndRestart(s, key, o, modem)) <==> JoinSafe(StopTrip(s, key.id, modem), key, o, modem)
  {
    StopTripAccount(s, key.id, modem);
    var s1 := StopTrip(s, key.id, modem);
    SessionsPlayNoPart(s1, Without(s1.sessions, key), s1.batchFull, key, o, modem);
    StartAgainExact(s1.(sessions := Without(s1.sessions, key)), key, o, modem);
  }

  lemma UpdatePlainAccount(s: State, key: Key, o: Options, modem: Modem)
    requires AccountOk(s) && key in s.sessions
    ensures AccountOk(StopBatching(s, key, true, o, modem)) <==> !modem.stopOk || JoinSafe(s, key, o, modem)
  {
    var s1 := s.(sessions := Without(s.sessions, key));
    var s2 := UnregisterIf(s1, AutoCount(s1) == 0 && s.sessions[key].mode != NoAutoReport);
    SessionsPlayNoPart(s, s2.sessions, s2.batchFull, key, o, modem);
    StartAgainExact(s2, key, o, modem);
  }

  lemma FreshReport(s: State, value: nat, modem: Modem)
    requires AccountOk(s) && value <= Counter(s) && s.odometer < UINT32
    requires forall e :: e in s.trips ==> FreshFor(e, value, Counter(s))
    ensures AccountOk(OnReport(s, value, modem))
  {
    ReportAccount(s.trips, value, s.odometer, Counter(s));
    RestartTripsAccount(TakeCompleted(s, value), value, modem.restartOk);
  }

  /** A trip kept with more than it travelled stays wrong through the restart. */
  lemma WrongStays(s: State, bad: Entry, value: nat, restartOk: bool)
    requires bad in s.trips && s.odometer - bad.start < bad.trip.total == CountedTotal(bad.trip, value)
    ensures !AccountOk(RestartTrips(s, value, restartOk))
  {
    CreditMember(s.trips, bad, value);
  }

  lemma StaleReportWrong(s: State, bad: Entry, value: nat, modem: Modem)
    requires AccountOk(s) && value <= Counter(s) && s.odometer < UINT32
    requires bad in s.trips && !FreshFor(bad, value, Counter(s))
    ensures !AccountOk(OnReport(s, value, modem))
  {
    var s1 := TakeCompleted(s, value);
    StaleReport(s.trips, bad, value, s.odometer, Counter(s));
    if c :| c in CompletedNow(s.trips, value, s.odometer) && c.travelled < c.distance {
      assert c in OnReport(s, value, modem).completed;
    } else {
      WrongStays(s1, Counted(bad, value), value, modem.restartOk);
    }
  }

  lemma OnReportExact(s: State, value: nat, modem: Modem)
    requires AccountOk(s) && value <= Counter(s) && s.odometer < UINT32
    ensures AccountOk(OnReport(s, value, modem)) <==> forall e :: e in s.trips ==> FreshFor(e, value, Counter(s))
  {
    if e :| e in s.trips && !FreshFor(e, value, Counter(s)) {
      StaleReportWrong(s, e, value, modem);
    } else {
      FreshReport(s, value, modem);
    }
  }

  /** One step keeps the accounting exactly when it is faithful. */
  lemma StepExact(s: State, e: Event)
    requires AccountOk(s) && s.odometer < UINT32 && RealReport(s, e)
    ensures AccountOk(Step(s, e)) <==> Faithful(s, e)
  {
    match e
    case Start(key, o, modem) => StartAgainExact(s, key, o, modem);
    case Update(key, o, modem) =>
      if key in s.sessions && o.mode != UnknownMode {
        if IsTrip(s.trips, key.id) {
          UpdateTripAccount(s, key, o, modem);
        } else {
          UpdatePlainAccount(s, key, o, modem);
        }
      }
    case Stop(key, modem) =>
      if key in s.sessions && IsTrip(s.trips, key.id) {
        StopTripAccount(s, key.id, modem);
      }
    case Report(value, modem) => OnReportExact(s, value, modem);
    case EngineUp(modem) =>
      EngineUpExact(s, modem.startOk);
    case _ =>
  }

  /** The engine coming up again keeps the accounting exactly when no trip had joined its batch late. */
  lemma EngineUpExact(s: State, startOk: bool)
    requires AccountOk(s)
    ensures AccountOk(OnEngineUp(s, startOk)) <==> forall e :: e in s.trips ==> e.trip.ongoing == 0
  {
    if s.trips != [] && forall e :: e in s.trips ==> e.trip.ongoing == 0 {
      assert forall e :: e in s.trips ==> Loss(e, s.odometer, 0) == Loss(e, s.odometer, Counter(s)) + Counter(s);
    }
  }

  /** Over every faithful run below 2^32 metres no trip is ever credited more than it really travelled, and no
      trip was ever declared complete before its distance was covered. */
  lemma {:induction false} NoEarlyCompletion(es: seq<Event>)
    requires FaithfulRun(es) && Run(es).odometer < UINT32
    ensures AccountOk(Run(es))
  {
    if es != [] {
      var before := es[..|es| - 1];
      assert Step(Run(before), es[|es| - 1]).odometer >= Run(before).odometer;
      NoEarlyCompletion(before);
      StepExact(Run(before), es[|es| - 1]);
    }
  }

  ghost predicate RealReports(es: seq<Event>) {
    es == [] || (RealReports(es[..|es| - 1]) && RealReport(Run(es[..|es| - 1]), es[|es| - 1]))
  }

  ghost predicate AlwaysAccounted(es: seq<Event>) {
    AccountOk(Run(es)) && (es == [] || AlwaysAccounted(es[..|es| - 1]))
  }

  /** The accounting holds throughout a run exactly when every step is faithful. */
  lemma {:induction false} FaithfulRunsExact(es: seq<Event>)
    requires RealReports(es) && Run(es).odometer < UINT32
    ensures AlwaysAccounted(es) <==> FaithfulRun(es)
  {
    if es != [] {
      var before := es[..|es| - 1];
      assert Step(Run(before), es[|es| - 1]).odometer >= Run(before).odometer;
      FaithfulRunsExact(before);
      if AccountOk(Run(before)) {
        StepExact(Run(before), es[|es| - 1]);
      }
    }
  }

  /** A report of the present counter completes a trip exactly when its credit covers the distance, that is
      when the distance travelled less what was lost does: never early, and late by the loss. */
  lemma CompletionExact(s: State, e: Entry)
    requires AccountOk(s) && s.odometer < UINT32 && e in s.trips
    ensures Completes(e, Counter(s)) <==> e.trip.distance <= Credit(e.trip, Counter(s))
    ensures Completes(e, Counter(s)) <==>
              e.trip.distance + Loss(e, s.odometer, Counter(s)) <= s.odometer - e.start
  {
    CountedTotalExact(e, Counter(s), s.odometer, Counter(s));
  }

  /** A restart done by restartTripBatching changes no trip's credit or start. */
  lemma {:induction false} CreditConserves(es: seq<Entry>, odometer: nat, counter: nat)
    requires odometer < UINT32
    requires forall e :: e in es ==> Accounted(e, odometer, counter)
    ensures |CreditAll(es, counter)| == |es|
    ensures forall i :: 0 <= i < |es| ==>
              var after := CreditAll(es, counter)[i];
              && after == es[i].(trip := after.trip)
              && after.trip.distance == es[i].trip.distance && after.trip.tbf == es[i].trip.tbf
              && Credit(after.trip, 0) == Credit(es[i].trip, counter) == after.trip.total
  {
    if es != [] {
      CreditConserves(es[1..], odometer, counter);
      assert es[0] in es;
      CountedTotalExact(es[0], counter, odometer, counter);
    }
  }

  lemma RestartConservesCredit(s: State, restartOk: bool)
    requires AccountOk(s) && s.odometer < UINT32
    ensures var r := RestartTrips(s, Counter(s), restartOk);
            && |r.trips| == |s.trips|
            && forall i :: 0 <= i < |s.trips| ==>
                 && r.trips[i] == s.trips[i].(trip := r.trips[i].trip)
                 && r.trips[i].trip.distance == s.trips[i].trip.distance
                 && Credit(r.trips[i].trip, Counter(r)) == Credit(s.trips[i].trip, Counter(s))
  {
    CreditConserves(s.trips, s.odometer, Counter(s));
  }

  // ---------------------------------------------------------------- when the accounting is exact

  /** A join whose restart the modem accepts finds every total up to date. */
  predicate JoinLossless(s: State, key: Key, o: Options, modem: Modem) {
    o.mode == TripMode && s.trips != [] && JoinRestarts(s, o, modem.queryOk) && modem.startRestartOk ==>
      forall e :: e in Joined(s, key, o, modem.queryOk) ==> Credit(e.trip, Counter(s)) == e.trip.total
  }

  predicate Restarts(s: State, value: nat, restartOk: bool) {
    s.trips != [] && (DistanceRestarts(s, value) || TbfRestarts(s)) && restartOk
  }

  /** Whether the batch restarts after a report, because a trip completed. */
  predicate ReportRestarts(s: State, value: nat, modem: Modem) {
    var s1 := TakeCompleted(s, value);
    s1.completed != s.completed && Restarts(s1, value, modem.restartOk)
  }

  /** Steps that lose nothing: joins that restart the batch find every total up to date, reports that
      restart it are of the present counter, the engine restarts with the counter at zero or without trips. */
  predicate Lossless(s: State, e: Event) {
    match e
    case Start(key, o, modem) => JoinLossless(s, key, o, modem)
    case Update(key, o, modem) =>
      key in s.sessions && o.mode != UnknownMode ==>
        if IsTrip(s.trips, key.id) then JoinLossless(StopTrip(s, key.id, modem), key, o, modem)
        else modem.stopOk ==> JoinLossless(s, key, o, modem)
    case Report(value, modem) => ReportRestarts(s, value, modem) ==> value == Counter(s)
    case EngineUp(_) => s.trips == [] || Counter(s) == 0
    case _ => true
  }

  ghost predicate LosslessRun(es: seq<Event>) {
    es == [] || (LosslessRun(es[..|es| - 1]) && Lossless(Run(es[..|es| - 1]), es[|es| - 1]))
  }

  lemma {:induction false} CountedKeepsLoss(es: seq<Entry>, value: nat, odometer: nat, counter: nat)
    requires forall e :: e in es ==> Loss(e, odometer, counter) <= 0
    ensures forall e :: e in Uncompleted(es, value) ==> Loss(e, odometer, counter) <= 0
  {
    if es != [] {
      CountedKeepsLoss(es[1..], value, odometer, counter);
      assert es[0] in es;
    }
  }

  lemma RestartLosesNothing(s: State, restartOk: bool)
    requires AccountOk(s) && s.odometer < UINT32 && NothingLost(s)
    ensures NothingLost(RestartTrips(s, Counter(s), restartOk))
  {
    RestartConservesCredit(s, restartOk);
    var r := RestartTrips(s, Counter(s), restartOk);
    forall e | e in r.trips
      ensures Loss(e, r.odometer, Counter(r)) <= 0
    {
      var i :| 0 <= i < |r.trips| && r.trips[i] == e;
      assert s.trips[i] in s.trips;
    }
  }

  lemma StopLosesNothing(s: State, id: nat, modem: Modem)
    requires AccountOk(s) && s.odometer < UINT32 && NothingLost(s) && IsTrip(s.trips, id)
    ensures NothingLost(StopTrip(s, id, modem))
  {
    EraseMembers(s.trips, id);
    var s1 := DropTrip(UnregisterIf(s, |s.trips| == 1 && modem.stopOk && AutoCount(s) == 1), id);
    RestartLosesNothing(s1, modem.restartOk);
  }

  /** Forgetting loses nothing when the counter runs on, and otherwise exactly when totals are up to date. */
  lemma ForgetLoss(es: seq<Entry>, odometer: nat, counter: nat)
    requires forall e :: e in es ==> Accounted(e, odometer, counter) && Loss(e, odometer, counter) <= 0
    ensures forall x :: x in ForgetAll(es) ==> Loss(x, odometer, counter) <= 0
    ensures (forall x :: x in ForgetAll(es) ==> Loss(x, odometer, 0) <= 0)
       <==> (forall e :: e in es ==> Credit(e.trip, counter) == e.trip.total)
  {
    ForgetMembers(es);
    forall e | e in es
      ensures Loss(ForgetEntry(e), odometer, 0) <= 0 <==> Credit(e.trip, counter) == e.trip.total
    {
      assert Loss(ForgetEntry(e), odometer, 0) == Credit(e.trip, counter) - e.trip.total;
    }
  }

  /** A joining trip loses nothing of the others exactly when no restart is asked for, the modem refuses it, or
      every total is up to date: the code restarts from the totals of the last report. */
  lemma JoinLossExact(s: State, key: Key, o: Options, modem: Modem)
    requires AccountOk(s) && NothingLost(s) && s.trips != []
    ensures NothingLost(JoinTrips(s, key, o, modem)) <==>
              || !JoinRestarts(s, o, modem.queryOk) || !modem.startRestartOk
              || forall e :: e in Joined(s, key, o, modem.queryOk) ==> Credit(e.trip, Counter(s)) == e.trip.total
  {
    JoinedAccount(s, key, o, modem.queryOk);
    JoinedUntold(s, key, o, modem.queryOk);
    ForgetLoss(Joined(s, key, o, modem.queryOk), s.odometer, Counter(s));
  }

  lemma StartAgainLoss(s: State, key: Key, o: Options, modem: Modem)
    requires AccountOk(s) && NothingLost(s)
    ensures NothingLost(StartAgain(s, key, o, modem)) <==> JoinLossless(s, key, o, modem)
  {
    if o.mode == TripMode {
      if s.trips == [] {
        PutMembers(s.trips, NewTrip(s, key.id, 0, o));
        EraseMembers(Put(s.trips, NewTrip(s, key.id, 0, o)), key.id);
      } else {
        JoinLossExact(s, key, o, modem);
      }
    }
  }

  lemma UpdateTripLoss(s: State, key: Key, o: Options, modem: Modem)
    requires AccountOk(s) && s.odometer < UINT32 && NothingLost(s) && IsTrip(s.trips, key.id)
    ensures NothingLost(StopTripAndRestart(s, key, o, modem))
       <==> JoinLossless(StopTrip(s, key.id, modem), key, o, modem)
  {
    StopTripAccount(s, key.id, modem);
    StopLosesNothing(s, key.id, modem);
    var s1 := StopTrip(s, key.id, modem);
    SessionsPlayNoPart(s1, Without(s1.sessions, key), s1.batchFull, key, o, modem);
    StartAgainLoss(s1.(sessions := Without(s1.sessions, key)), key, o, modem);
  }

  lemma UpdatePlainLoss(s: State, key: Key, o: Options, modem: Modem)
    requires AccountOk(s) && NothingLost(s) && key in s.sessions
    ensures NothingLost(StopBatching(s, key, true, o, modem)) <==> !modem.stopOk || JoinLossless(s, key, o, modem)
  {
    var s1 := s.(sessions := Without(s.sessions, key));
    var s2 := UnregisterIf(s1, AutoCount(s1) == 0 && s.sessions[key].mode != NoAutoReport);
    SessionsPlayNoPart(s, s2.sessions, s2.batchFull, key, o, modem);
    StartAgainLoss(s2, key, o, modem);
  }

  lemma {:induction false} CreditLoss(es: seq<Entry>, value: nat, odometer: nat, counter: nat)
    requires value <= counter <= odometer < UINT32 && es != []
    requires forall e :: e in es ==>
               Accounted(e, odometer, counter) && e.trip.ongoing <= value && Loss(e, odometer, counter) <= 0
    ensures (forall e :: e in CreditAll(es, value) ==> Loss(e, odometer, 0) <= 0) <==> value == counter
  {
    assert es[0] in es;
    CountedTotalExact(es[0], value, odometer, counter);
    var first, rest := CreditEntry(es[0], value), CreditAll(es[1..], value);
    assert Loss(first, odometer, 0) == counter - value;
    assert forall e :: e in CreditAll(es, value) <==> e == first || e in rest;
    if es[1..] != [] {
      CreditLoss(es[1..], value, odometer, counter);
    }
  }

  lemma ReportLoss(s: State, value: nat, modem: Modem)
    requires AccountOk(s) && s.odometer < UINT32 && NothingLost(s) && Faithful(s, Report(value, modem))
    ensures NothingLost(OnReport(s, value, modem)) <==> (ReportRestarts(s, value, modem) ==> value == Counter(s))
  {
    CountedKeepsLoss(s.trips, value, s.odometer, Counter(s));
    ReportAccount(s.trips, value, s.odometer, Counter(s));
    var s1 := TakeCompleted(s, value);
    if s1.trips != [] {
      CreditLoss(s1.trips, value, s.odometer, Counter(s));
    }
  }

  lemma EngineLoss(s: State, startOk: bool)
    requires AccountOk(s) && NothingLost(s)
    ensures NothingLost(OnEngineUp(s, startOk)) <==> s.trips == [] || Counter(s) == 0
  {
    if s.trips != [] {
      var e := s.trips[0];
      assert e in s.trips && Loss(e, s.odometer, 0) == Loss(e, s.odometer, Counter(s)) + Counter(s);
    }
  }

  /** A faithful step loses nothing exactly when it is lossless. */
  lemma StepLossExact(s: State, e: Event)
    requires AccountOk(s) && s.odometer < UINT32 && NothingLost(s) && Faithful(s, e)
    ensures NothingLost(Step(s, e)) <==> Lossless(s, e)
  {
    match e
    case Start(key, o, modem) => StartAgainLoss(s, key, o, modem);
    case Update(key, o, modem) =>
      if key in s.sessions && o.mode != UnknownMode {
        if IsTrip(s.trips, key.id) {
          UpdateTripLoss(s, key, o, modem);
        } else {
          UpdatePlainLoss(s, key, o, modem);
        }
      }
    case Stop(key, modem) =>
      if key in s.sessions && IsTrip(s.trips, key.id) {
        StopLosesNothing(s, key.id, modem);
      }
    case Report(value, modem) => ReportLoss(s, value, modem);
    case EngineUp(modem) => EngineLoss(s, modem.startOk);
    case _ =>
  }

  /** Over lossless runs the credit of every trip is exactly the distance travelled since it began. */
  lemma {:induction false} LosslessRunsAreExact(es: seq<Event>, e: Entry)
    requires FaithfulRun(es) && LosslessRun(es) && Run(es).odometer < UINT32 && e in Run(es).trips
    ensures Credit(e.trip, Counter(Run(es))) == Run(es).odometer - e.start
    ensures Completes(e, Counter(Run(es))) <==> e.trip.distance <= Run(es).odometer - e.start
  {
    RunLosesNothing(es);
    NoEarlyCompletion(es);
    CompletionExact(Run(es), e);
  }

  ghost predicate NeverLost(es: seq<Event>) {
    NothingLost(Run(es)) && (es == [] || NeverLost(es[..|es| - 1]))
  }

  /** A faithful run never loses a distance exactly when every step is lossless. */
  lemma {:induction false} RunLosesNothing(es: seq<Event>)
    requires FaithfulRun(es) && Run(es).odometer < UINT32
    ensures NeverLost(es) <==> LosslessRun(es)
  {
    if es != [] {
      var before := es[..|es| - 1];
      assert Step(Run(before), es[|es| - 1]).odometer >= Run(before).odometer;
      RunLosesNothing(before);
      NoEarlyCompletion(before);
      if NothingLost(Run(before)) {
        StepLossExact(Run(before), es[|es| - 1]);
      }
    }
  }

  // ---------------------------------------------------------------- conditions on what is on record

  /** A join that keeps the accounting exact: nothing was reported since the batch began when the modem
      refuses the restart, everything travelled was reported when it accepts. */
  predicate JoinRecorded(s: State, key: Key, o: Options, modem: Modem) {
    o.mode == TripMode && s.trips != [] && JoinRestarts(s, o, modem.queryOk) ==>
      forall e :: e in Joined(s, key, o, modem.queryOk) ==>
        if modem.startRestartOk then Credit(e.trip, Counter(s)) == e.trip.total else Untold(e)
  }

  /** All this can be read off the adapter's records, the modem's counter and its answers. */
  predicate Recorded(s: State, e: Event) {
    match e
    case Start(key, o, modem) => JoinRecorded(s, key, o, modem)
    case Update(key, o, modem) =>
      key in s.sessions && o.mode != UnknownMode ==>
        if IsTrip(s.trips, key.id) then JoinRecorded(StopTrip(s, key.id, modem), key, o, modem)
        else modem.stopOk ==> JoinRecorded(s, key, o, modem)
    case Report(value, modem) =>
      && (forall t :: t in s.trips ==> FreshFor(t, value, Counter(s)))
      && (ReportRestarts(s, value, modem) ==> value == Counter(s))
    case EngineUp(_) => s.trips == [] || Counter(s) == 0
    case _ => true
  }

  ghost predicate RecordedRun(es: seq<Event>) {
    es == [] || (RecordedRun(es[..|es| - 1]) && Recorded(Run(es[..|es| - 1]), es[|es| - 1]))
  }

  /** Every trip is credited with exactly what it travelled. */
  ghost predicate Exact(s: State) {
    AccountOk(s) && NothingLost(s)
  }

  lemma JoinRecordedExact(s: State, key: Key, o: Options, modem: Modem)
    requires Exact(s)
    ensures JoinRecorded(s, key, o, modem) <==> JoinSafe(s, key, o, modem) && JoinLossless(s, key, o, modem)
  {
    JoinedUntold(s, key, o, modem.queryOk);
  }

  lemma RecordedIsFaithful(s: State, e: Event)
    requires Exact(s) && s.odometer < UINT32 && RealReport(s, e)
    ensures Recorded(s, e) <==> Faithful(s, e) && Lossless(s, e)
  {
    match e
    case Start(key, o, modem) => JoinRecordedExact(s, key, o, modem);
    case Update(key, o, modem) =>
      JoinRecordedExact(s, key, o, modem);
      if key in s.sessions && IsTrip(s.trips, key.id) {
        StopTripAccount(s, key.id, modem);
        StopLosesNothing(s, key.id, modem);
        JoinRecordedExact(StopTrip(s, key.id, modem), key, o, modem);
      }
    case _ =>
  }

  /** One step keeps the credits exact exactly when what is on record allows it. */
  lemma RecordedStepExact(s: State, e: Event)
    requires Exact(s) && s.odometer < UINT32 && RealReport(s, e)
    ensures Exact(Step(s, e)) <==> Recorded(s, e)
  {
    RecordedIsFaithful(s, e);
    StepExact(s, e);
    if Faithful(s, e) {
      StepLossExact(s, e);
    }
  }

  ghost predicate AlwaysExact(es: seq<Event>) {
    Exact(Run(es)) && (es == [] || AlwaysExact(es[..|es| - 1]))
  }

  /** Every trip is credited with exactly what it travelled throughout a run exactly when every step meets the
      condition on what is on record. */
  lemma {:induction false} RecordedRunsExact(es: seq<Event>)
    requires RealReports(es) && Run(es).odometer < UINT32
    ensures AlwaysExact(es) <==> RecordedRun(es)
  {
    if es != [] {
      var before := es[..|es| - 1];
      assert Step(Run(before), es[|es| - 1]).odometer >= Run(before).odometer;
      RecordedRunsExact(before);
      if Exact(Run(before)) {
        RecordedStepExact(Run(before), es[|es| - 1]);
      }
    }
  }

  // ---------------------------------------------------------------- runs that go wrong

  const ALL_OK := Modem(true, true, true, true, true, true)

  lemma Extended(es: seq<Event>, e: Event)
    ensures Run(es + [e]) == Step(Run(es), e)
    ensures FaithfulRun(es + [e]) <==> FaithfulRun(es) && Faithful(Run(es), e)
    ensures RealReports(es + [e]) <==> RealReports(es) && RealReport(Run(es), e)
  {
    assert (es + [e])[..|es|] == es;
  }

  const FIRST := Entry(1, Trip(0, 0, 0, 1000, 10), 0)

  /** One trip of 1000 metres after 400 of them. */
  const ONE_TRIP := State(map[Key(1, 1) := Options(TripMode, 1000, 10)], [FIRST], 1000, 10, false, false, true,
                          400, 0, [])

  lemma OneTripTravelled() returns (es: seq<Event>)
    ensures Run(es) == ONE_TRIP && FaithfulRun(es) && RealReports(es)
  {
    var o := Options(TripMode, 1000, 10);
    var start := Start(Key(1, 1), o, ALL_OK);
    assert AutoSessions(map[]) == {};
    assert Run([]) == INITIAL && FaithfulRun([]) && RealReports([]);
    assert Put([], FIRST) == [FIRST];
    Extended([], start);
    assert [] + [start] == [start];
    Extended([start], Travel(400));
    es := [start] + [Travel(400)];
  }

  function SecondStart(distance: nat, restartOk: bool): Event {
    Start(Key(1, 2), Options(TripMode, distance, 10), ALL_OK.(startRestartOk := restartOk))
  }

  /** A trip that joins ONE_TRIP restarts the batch when its distance is below the 600 metres left. */
  ghost predicate AfterSecond(s: State, distance: nat, restartOk: bool) {
    && s.trips == (if distance < 600 then [FIRST, Entry(2, Trip(0, 0, 0, distance, 10), 400)]
                   else [FIRST, Entry(2, Trip(400, 0, 0, distance, 10), 400)])
    && s.odometer == 400 && s.completed == [] && s.sessions == ONE_TRIP.sessions
    && s.base == if distance < 600 && restartOk then 400 else 0
  }

  lemma SecondJoins(distance: nat, restartOk: bool)
    ensures AfterSecond(Step(ONE_TRIP, SecondStart(distance, restartOk)), distance, restartOk)
  {
    var second := Entry(2, Trip(400, 0, 0, distance, 10), 400);
    assert Sub32(1000, 400) == 600;
    assert [FIRST][1..] == [] && Put([FIRST], second) == [FIRST, second];
    ForgetTwo(FIRST, second);
  }

  lemma ForgetTwo(e1: Entry, e2: Entry)
    ensures ForgetAll([e1, e2]) == [ForgetEntry(e1), ForgetEntry(e2)]
  {
    assert [e1, e2][1..] == [e2];
    assert [e2][1..] == [];
    assert ForgetAll([e2]) == [ForgetEntry(e2)];
  }

  lemma JoinRun(distance: nat, restartOk: bool) returns (before: seq<Event>, es: seq<Event>)
    ensures FaithfulRun(before) && es == before + [SecondStart(distance, restartOk)] && RealReports(es)
    ensures FaithfulRun(es) <==> distance >= 600 || restartOk
    ensures AfterSecond(Run(es), distance, restartOk)
  {
    before := OneTripTravelled();
    Extended(before, SecondStart(distance, restartOk));
    assert Sub32(1000, 400) == 600;
    PutMembers([FIRST], Entry(2, Trip(400, 0, 0, distance, 10), 400));
    SecondJoins(distance, restartOk);
    es := before + [SecondStart(distance, restartOk)];
  }

  const COUNTED := Entry(1, Trip(0, 400, 0, 1000, 10), 0)

  lemma CountFirst(s: State)
    requires s.trips == [FIRST] && s.completed == []
    ensures OnReport(s, 400, ALL_OK) == s.(trips := [COUNTED])
  {
    assert [FIRST][1..] == [] && !Completes(FIRST, 400) && Counted(FIRST, 400) == COUNTED;
    assert Uncompleted([FIRST], 400) == [COUNTED] && CompletedNow([FIRST], 400, s.odometer) == [];
    assert !DropsTbf([FIRST][1..], 400, s.ongoingTbf) && !DropsDistance([FIRST][1..], 400, s.ongoingDistance);
  }

  const REPORTED := ONE_TRIP.(trips := [COUNTED])

  lemma ReportedRun() returns (es: seq<Event>)
    ensures FaithfulRun(es) && Run(es) == REPORTED
  {
    var before := OneTripTravelled();
    CountFirst(ONE_TRIP);
    Extended(before, Report(400, ALL_OK));
    es := before + [Report(400, ALL_OK)];
  }

  /** The same records after an engine restart that lost 400 metres. */
  lemma ReportedAgain() returns (es: seq<Event>)
    ensures FaithfulRun(es) && Run(es) == REPORTED.(odometer := 800, base := 400)
  {
    var before := OneTripTravelled();
    var down := ONE_TRIP.(base := 400);
    assert [FIRST][1..] == [] && FIRST in [FIRST];
    assert Remaining(FIRST.trip) == 1000 && MinRemaining([], 1000) == 1000 && MinTbf([], 10) == 10;
    assert MinRemaining([FIRST], 0) == 1000 && MinTbf([FIRST], 0) == 10;
    assert Step(ONE_TRIP, EngineUp(ALL_OK)) == down;
    Extended(before, EngineUp(ALL_OK));
    Extended(before + [EngineUp(ALL_OK)], Travel(400));
    var up := before + [EngineUp(ALL_OK)] + [Travel(400)];
    assert Run(up) == down.(odometer := 800);
    CountFirst(Run(up));
    Extended(up, Report(400, ALL_OK));
    es := up + [Report(400, ALL_OK)];
  }

  /** One trip, 400 metres into its batch, all of them reported. */
  ghost predicate Reported(s: State, e: Entry) {
    && s.trips == [e] && e.trip.ongoing == e.trip.atRestart == e.start == 0 && e.trip.total == 400
    && s.ongoingDistance == 1000 && s.completed == [] && s.odometer - s.base == 400
  }

  lemma RefusedJoin(s: State, e: Entry, o: Options, refused: Modem)
    requires Reported(s, e)
    requires o == Options(TripMode, 100, 10) && !refused.queryOk && !refused.startRestartOk
    ensures AccountOk(Step(s, Start(Key(1, 2), o, refused))) <==> s.odometer >= 800
  {
    assert Accounted(e, s.odometer, 400) && AccountOk(s);
    JoinExact(s, Key(1, 2), o, refused);
    assert e in s.trips && Joined(s, Key(1, 2), o, false) == s.trips;
    assert Forgettable(e, s.odometer, 400) <==> s.odometer >= 800;
  }

  /** The start of a second trip, the query and the restart both refused. */
  lemma RefusedStart(s: State, t: State, e: Entry) returns (start: Event)
    requires Reported(s, e) && s.odometer < 800 && Reported(t, e) && t.odometer >= 800
    ensures start.Start? && !start.modem.startRestartOk
    ensures !AccountOk(Step(s, start)) && AccountOk(Step(t, start))
  {
    var o, refused := Options(TripMode, 100, 10), ALL_OK.(queryOk := false, startRestartOk := false);
    start := Start(Key(1, 2), o, refused);
    RefusedJoin(s, e, o, refused);
    RefusedJoin(t, e, o, refused);
  }

  /** Everything the adapter holds and the modem can tell. */
  ghost predicate SameRecords(s: State, t: State) {
    && s.sessions == t.sessions && s.trips == t.trips && Counter(s) == Counter(t)
    && s.ongoingDistance == t.ongoingDistance && s.ongoingTbf == t.ongoingTbf
    && s.tbfDropped == t.tbfDropped && s.distanceDropped == t.distanceDropped && s.batchFull == t.batchFull
    && s.completed == t.completed
  }

  /** Once something was lost, no condition on the records, the counter and the modem's answers can decide a
      refused join: these two faithful runs agree on all of them, and it breaks only one. */
  lemma RecordsDoNotDecide() returns (a: seq<Event>, b: seq<Event>, start: Event)
    ensures FaithfulRun(a) && FaithfulRun(b)
    ensures SameRecords(Run(a), Run(b))
    ensures !AccountOk(Step(Run(a), start)) && AccountOk(Step(Run(b), start))
  {
    a := ReportedRun();
    b := ReportedAgain();
    start := RefusedStart(Run(a), Run(b), COUNTED);
  }

  /** A trip that joins with a shorter distance restarts the batch from the totals of the last report:
      what the others travelled since is lost to them. */
  lemma JoiningLosesDistance() returns (es: seq<Event>)
    ensures FaithfulRun(es) && Run(es).odometer < UINT32
    ensures exists e :: e in Run(es).trips && Loss(e, Run(es).odometer, Counter(Run(es))) > 0
  {
    var before;
    before, es := JoinRun(100, true);
    assert Run(es).trips[0] == FIRST;
    assert FIRST in Run(es).trips && Loss(FIRST, 400, 0) == 400;
  }

  /** Reports carry no more than the counter, and yet some trip was declared complete too early. */
  ghost predicate CompletesEarly(es: seq<Event>) {
    RealReports(es) && Run(es).odometer < UINT32 && CompletedEarly(Run(es))
  }

  ghost predicate CompletedEarly(s: State) {
    exists c :: c in s.completed && c.travelled < c.distance
  }

  lemma {:induction false} CompletedMember(es: seq<Entry>, e: Entry, value: nat, odometer: nat)
    requires e in es && Completes(e, value)
    ensures Completion(e.id, e.trip.distance, odometer - e.start) in CompletedNow(es, value, odometer)
  {
    if es[0] != e {
      CompletedMember(es[1..], e, value, odometer);
    }
  }

  lemma ReportCompletes(s: State, e: Entry, value: nat)
    requires e in s.trips && Completes(e, value) && s.odometer - e.start < e.trip.distance
    ensures CompletedEarly(OnReport(s, value, ALL_OK))
  {
    CompletedMember(s.trips, e, value, s.odometer);
    assert Completion(e.id, e.trip.distance, s.odometer - e.start) in OnReport(s, value, ALL_OK).completed;
  }

  lemma EarlyReport(es: seq<Event>, e: Entry, value: nat)
    requires RealReports(es) && Run(es).odometer < UINT32 && value <= Counter(Run(es))
    requires e in Run(es).trips && Completes(e, value) && Run(es).odometer - e.start < e.trip.distance
    ensures CompletesEarly(es + [Report(value, ALL_OK)])
  {
    var s, all := Run(es), es + [Report(value, ALL_OK)];
    Extended(es, Report(value, ALL_OK));
    ReportCompletes(s, e, value);
    assert Run(all) == OnReport(s, value, ALL_OK) && Run(all).odometer == s.odometer;
  }

  /** After a join whose restart the modem refused, a trip just joined completes without any travel. */
  lemma RefusedRestartCompletesEarly() returns (es: seq<Event>, start: Event)
    ensures FaithfulRun(es) && start.Start? && !start.modem.startRestartOk
    ensures CompletesEarly(es + [start] + [Report(Counter(Run(es + [start])), ALL_OK)])
  {
    var all;
    es, all := JoinRun(100, false);
    start := SecondStart(100, false);
    var second := Entry(2, Trip(0, 0, 0, 100, 10), 400);
    assert Run(all).trips[1] == second;
    EarlyReport(all, second, 400);
  }

  /** A report of an earlier value, 100 metres, completes a trip that joined at 400 metres at once. */
  lemma StaleReportCompletesEarly() returns (es: seq<Event>, value: nat)
    ensures FaithfulRun(es) && value <= Counter(Run(es))
    ensures CompletesEarly(es + [Report(value, ALL_OK)])
  {
    es := LateJoin();
    value := 100;
    EarlyReport(es, Run(es).trips[1], value);
  }

  lemma LateJoin() returns (es: seq<Event>)
    ensures FaithfulRun(es) && RealReports(es)
    ensures Run(es).trips == [FIRST, Entry(2, Trip(400, 0, 0, 2000, 10), 400)]
    ensures Run(es).odometer == 400 && Run(es).base == 0 && Run(es).completed == []
    ensures Run(es).sessions == ONE_TRIP.sessions
  {
    var before;
    before, es := JoinRun(2000, true);
  }

  lemma EngineMakesLate(s: State, second: Entry)
    requires s.trips == [FIRST, second] && second.trip.ongoing > second.trip.atRestart == 0
    requires s.odometer - second.start < second.trip.distance <= UINT32 - second.trip.ongoing
    ensures var r := Step(s, EngineUp(ALL_OK));
            && second in r.trips && Completes(second, 0)
            && r.odometer == s.odometer && r.odometer - second.start < second.trip.distance
  {
    assert s.trips[1] == second;
    assert Sub32(0, second.trip.ongoing) == UINT32 - second.trip.ongoing;
  }

  lemma EngineThenReport(es: seq<Event>, second: Entry)
    requires RealReports(es) && Run(es).odometer < UINT32
    requires Run(es).trips == [FIRST, second] && second.trip.ongoing > second.trip.atRestart == 0
    requires Run(es).odometer - second.start < second.trip.distance <= UINT32 - second.trip.ongoing
    ensures CompletesEarly(es + [EngineUp(ALL_OK)] + [Report(0, ALL_OK)])
  {
    var s, down := Run(es), es + [EngineUp(ALL_OK)];
    Extended(es, EngineUp(ALL_OK));
    EngineMakesLate(s, second);
    assert Run(down) == Step(s, EngineUp(ALL_OK)) && RealReports(down);
    EarlyReport(down, second, 0);
  }

  /** After an engine restart the next report, of the counter at zero, completes a trip that had joined late. */
  lemma EngineUpCompletesEarly() returns (es: seq<Event>)
    ensures FaithfulRun(es)
    ensures CompletesEarly(es + [EngineUp(ALL_OK)] + [Report(0, ALL_OK)])
  {
    es := LateJoin();
    EngineThenReport(es, Entry(2, Trip(400, 0, 0, 2000, 10), 400));
  }

  // ---------------------------------------------------------------- trips their client cannot reach

  /** A started trip is saved as a session, so that its client can stop or update it, exactly when it is the
      first and the modem accepts it, or its client had saved it before. */
  lemma StartSavesExact(s: State, key: Key, o: Options, modem: Modem)
    requires o.mode == TripMode
    ensures key in Step(s, Start(key, o, modem)).sessions
       <==> if s.trips == [] then modem.startOk else key in s.sessions
  {
  }

  /** Without a session neither has any effect. */
  lemma UnsavedTripStays(s: State, key: Key, o: Options, modem: Modem)
    requires key !in s.sessions
    ensures Step(s, Stop(key, modem)) == s && Step(s, Update(key, o, modem)) == s
  {
  }

  /** A second trip that its client stops goes on. */
  lemma LateJoinerCannotStop() returns (es: seq<Event>)
    ensures FaithfulRun(es) && IsTrip(Run(es).trips, 2)
    ensures forall modem :: Run(es + [Stop(Key(1, 2), modem)]) == Run(es)
  {
    es := LateJoin();
    assert Run(es).trips[1] in Run(es).trips;
    forall modem
      ensures Run(es + [Stop(Key(1, 2), modem)]) == Run(es)
    {
      Extended(es, Stop(Key(1, 2), modem));
      UnsavedTripStays(Run(es), Key(1, 2), DEFAULT_OPTIONS, modem);
    }
  }

  // ---------------------------------------------------------------- the batch-full event

  /** Whoever wants batches reported is registered for the batch-full event. */
  ghost predicate Registered(s: State) {
    AutoCount(s) > 0 ==> s.batchFull
  }

  /** Stops of batching sessions succeed, or leave the event registered or nobody who wants it. */
  ghost predicate StopsSafe(s: State, e: Event) {
    match e
    case Update(key, o, modem) =>
      key in s.sessions && !IsTrip(s.trips, key.id) && o.mode != UnknownMode && !modem.stopOk ==>
        s.batchFull || o.mode == NoAutoReport
    case Stop(key, modem) =>
      key in s.sessions && !IsTrip(s.trips, key.id) && !modem.stopOk ==> s.batchFull
    case _ => true
  }

  ghost predicate StopsSafeRun(es: seq<Event>) {
    es == [] || (StopsSafeRun(es[..|es| - 1]) && StopsSafe(Run(es[..|es| - 1]), es[|es| - 1]))
  }

  lemma FewerSessions(sessions: map<Key, Options>, key: Key)
    ensures AutoSessions(Without(sessions, key)) == AutoSessions(sessions) - {key}
  {
  }

  lemma MoreSessions(sessions: map<Key, Options>, key: Key, o: Options)
    ensures AutoSessions(sessions[key := o])
         == if o.mode == NoAutoReport then AutoSessions(sessions) - {key} else AutoSessions(sessions) + {key}
  {
  }

  lemma StartBatchingRegisters(s: State, key: Key, o: Options, ok: bool)
    requires Registered(s)
    ensures Registered(StartBatching(s, key, o, ok))
  {
    MoreSessions(s.sessions, key, o);
    FewerSessions(s.sessions[key := o], key);
    if AutoCount(s) == 0 {
      assert AutoSessions(s.sessions) == {};
    }
  }

  lemma StartFirstTripRegisters(s: State, key: Key, o: Options, ok: bool)
    requires Registered(s) && s.trips == []
    ensures Registered(StartFirstTrip(s, key, o, ok))
  {
    MoreSessions(s.sessions, key, o);
    FewerSessions(s.sessions[key := o], key);
    var started := NewTrip(s, key.id, 0, o);
    assert Put([], started) == [started] && Erase([started], key.id) == [];
  }

  lemma StartAgainRegisters(s: State, key: Key, o: Options, modem: Modem)
    requires Registered(s)
    ensures Registered(StartAgain(s, key, o, modem))
  {
    StartBatchingRegisters(s, key, o, modem.batchStartOk);
    if s.trips == [] {
      StartFirstTripRegisters(s, key, o, modem.startOk);
    }
  }

  lemma {:induction false} SameLength(es: seq<Entry>, value: nat)
    ensures |CreditAll(es, value)| == |es|
  {
    if es != [] {
      SameLength(es[1..], value);
    }
  }

  lemma StopTripRegisters(s: State, id: nat, modem: Modem)
    requires Registered(s) && IsTrip(s.trips, id)
    ensures Registered(StopTrip(s, id, modem))
  {
    EraseMembers(s.trips, id);
    SameLength(Erase(s.trips, id), Counter(s));
    if |s.trips| == 1 {
      assert s.trips[0] in s.trips;
      assert Erase(s.trips, id) == [];
    }
  }

  lemma StopBatchingRegisters(s: State, key: Key, restart: bool, o: Options, modem: Modem)
    requires Registered(s) && key in s.sessions && modem.stopOk
    ensures Registered(StopBatching(s, key, restart, o, modem))
  {
    FewerSessions(s.sessions, key);
    var s1 := s.(sessions := Without(s.sessions, key));
    StartAgainRegisters(UnregisterIf(s1, AutoCount(s1) == 0 && s.sessions[key].mode != NoAutoReport), key, o, modem);
  }

  /** A failed plain stop comes back as a routine session, so it leaves the event registered exactly when
      it was registered before. */
  lemma FailedStopExact(s: State, key: Key, modem: Modem)
    requires Registered(s) && key in s.sessions && !IsTrip(s.trips, key.id) && !modem.stopOk
    ensures Registered(Step(s, Stop(key, modem))) <==> s.batchFull
  {
    MoreSessions(s.sessions, key, DEFAULT_OPTIONS);
    assert key in AutoSessions(s.sessions[key := DEFAULT_OPTIONS]);
  }

  /** A failed stop inside an option update comes back with the new options. */
  lemma FailedUpdateExact(s: State, key: Key, o: Options, modem: Modem)
    requires Registered(s) && key in s.sessions && !IsTrip(s.trips, key.id) && !modem.stopOk
    requires o.mode != UnknownMode
    ensures Registered(Step(s, Update(key, o, modem))) <==> s.batchFull || o.mode == NoAutoReport
  {
    MoreSessions(s.sessions, key, o);
    if o.mode == NoAutoReport {
      assert |AutoSessions(s.sessions) - {key}| <= |AutoSessions(s.sessions)|;
    } else {
      assert key in AutoSessions(s.sessions[key := o]);
    }
  }

  lemma UpdateRegisters(s: State, key: Key, o: Options, modem: Modem)
    requires Registered(s) && key in s.sessions && o.mode != UnknownMode
    requires IsTrip(s.trips, key.id) || modem.stopOk
    ensures Registered(Step(s, Update(key, o, modem)))
  {
    if IsTrip(s.trips, key.id) {
      StopTripRegisters(s, key.id, modem);
      var s1 := StopTrip(s, key.id, modem);
      FewerSessions(s1.sessions, key);
      StartAgainRegisters(s1.(sessions := Without(s1.sessions, key)), key, o, modem);
    } else {
      StopBatchingRegisters(s, key, true, o, modem);
    }
  }

  /** One step keeps the event registered exactly when its stops are safe. */
  lemma StepRegisters(s: State, e: Event)
    requires Registered(s)
    ensures Registered(Step(s, e)) <==> StopsSafe(s, e)
  {
    match e {
      case Start(key, o, modem) => StartAgainRegisters(s, key, o, modem);
      case Update(key, o, modem) =>
        if key in s.sessions && o.mode != UnknownMode {
          if IsTrip(s.trips, key.id) || modem.stopOk {
            UpdateRegisters(s, key, o, modem);
          } else {
            FailedUpdateExact(s, key, o, modem);
          }
        }
      case Stop(key, modem) =>
        if key in s.sessions {
          if IsTrip(s.trips, key.id) {
            StopTripRegisters(s, key.id, modem);
          } else if modem.stopOk {
            StopBatchingRegisters(s, key, false, DEFAULT_OPTIONS, modem);
          } else {
            FailedStopExact(s, key, modem);
          }
        }
      case Report(value, modem) => SameLength(Uncompleted(s.trips, value), value);
      case _ =>
    }
  }

  ghost predicate AlwaysRegistered(es: seq<Event>) {
    Registered(Run(es)) && (es == [] || AlwaysRegistered(es[..|es| - 1]))
  }

  /** Through starts that fail or not, stops, updates, completed trips, engine restarts and client
      changes, the batch-full bit is set while any trip or auto-report session exists: exactly in the runs
      whose stops are safe. */
  lemma {:induction false} BatchFullRegistered(es: seq<Event>)
    ensures StopsSafeRun(es) <==> AlwaysRegistered(es)
  {
    if es != [] {
      BatchFullRegistered(es[..|es| - 1]);
      if Registered(Run(es[..|es| - 1])) {
        StepRegisters(Run(es[..|es| - 1]), es[|es| - 1]);
      }
    }
  }

  /** A session without auto reports whose stop fails comes back with them, and nobody registers it. */
  lemma FailedStopUnregistered() returns (es: seq<Event>, stop: Event)
    ensures AlwaysRegistered(es) && stop.Stop? && !stop.modem.stopOk && !Registered(Run(es + [stop]))
  {
    var key, o := Key(1, 1), Options(NoAutoReport, 0, 0);
    var start := Start(key, o, ALL_OK);
    stop := Stop(key, ALL_OK.(stopOk := false));
    es := [start];
    assert Run([]) == INITIAL && StopsSafeRun([]);
    assert [] + [start] == [start];
    Extended([], start);
    Extended(es, stop);
    assert AutoSessions(map[]) == {};
    assert es[..0] == [] && StopsSafeRun(es);
    BatchFullRegistered(es);
    assert AlwaysRegistered(es);
    FailedStopExact(Run(es), key, stop.modem);
  }
}

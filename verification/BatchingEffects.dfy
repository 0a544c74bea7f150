/** What one message does to the trips, the sessions and the batch asked of the modem: told trip by trip,
    without the searches and walks that compute it. */
module BatchingEffects {
  import opened BatchingSpec

  // ---------------------------------------------------------------- the least of the trips

  /** What the last total left to travel, in 32 bits. */
  function ToGo(e: Entry): int {
    (e.trip.distance - e.trip.total) % 0x1_0000_0000
  }

  /** The trips after the last one with nothing to go: a search that comes to such a one begins anew, since zero
      stands for "none yet". All of them when each has something to go. */
  ghost function Going(es: seq<Entry>): seq<Entry> {
    if exists e :: e in es && ToGo(e) == 0 then Going(es[1..]) else es
  }

  /** The same for trips without an interval. */
  ghost function Timed(es: seq<Entry>): seq<Entry> {
    if exists e :: e in es && e.trip.tbf == 0 then Timed(es[1..]) else es
  }

  lemma {:induction false} SearchGoing(es: seq<Entry>, least: nat)
    requires exists e :: e in es && ToGo(e) == 0
    ensures MinRemaining(es, least) == MinRemaining(Going(es), 0)
  {
    assert forall e :: e in es <==> e == es[0] || e in es[1..];
    assert Remaining(es[0].trip) == ToGo(es[0]);
    if exists e :: e in es[1..] && ToGo(e) == 0 {
      SearchGoing(es[1..], if least == 0 || least > ToGo(es[0]) then ToGo(es[0]) else least);
    }
  }

  lemma {:induction false} SearchTimed(es: seq<Entry>, least: nat)
    requires exists e :: e in es && e.trip.tbf == 0
    ensures MinTbf(es, least) == MinTbf(Timed(es), 0)
  {
    assert forall e :: e in es <==> e == es[0] || e in es[1..];
    if exists e :: e in es[1..] && e.trip.tbf == 0 {
      SearchTimed(es[1..], if least == 0 || least > es[0].trip.tbf then es[0].trip.tbf else least);
    }
  }

  lemma {:induction false} LeastToGo(es: seq<Entry>, least: nat)
    requires es != [] || least > 0
    requires forall e :: e in es ==> ToGo(e) > 0
    ensures var r := MinRemaining(es, least);
            && r > 0 && (least > 0 ==> r <= least)
            && (forall e :: e in es ==> r <= ToGo(e))
            && ((least > 0 && r == least) || exists e :: e in es && ToGo(e) == r)
  {
    if es != [] {
      assert es[0] in es && Remaining(es[0].trip) == ToGo(es[0]);
      var next := if least == 0 || least > ToGo(es[0]) then ToGo(es[0]) else least;
      LeastToGo(es[1..], next);
    }
  }

  lemma {:induction false} LeastTbf(es: seq<Entry>, least: nat)
    requires es != [] || least > 0
    requires forall e :: e in es ==> e.trip.tbf > 0
    ensures var r := MinTbf(es, least);
            && r > 0 && (least > 0 ==> r <= least)
            && (forall e :: e in es ==> r <= e.trip.tbf)
            && ((least > 0 && r == least) || exists e :: e in es && e.trip.tbf == r)
  {
    if es != [] {
      assert es[0] in es;
      var next := if least == 0 || least > es[0].trip.tbf then es[0].trip.tbf else least;
      LeastTbf(es[1..], next);
    }
  }

  /** The value is a trip's remaining distance and no trip has less; zero when there is none. */
  ghost predicate IsLeastToGo(es: seq<Entry>, target: int) {
    if es == [] then target == 0
    else target > 0 && (forall e :: e in es ==> target <= ToGo(e)) && exists e :: e in es && ToGo(e) == target
  }

  ghost predicate IsLeastTbf(es: seq<Entry>, interval: int) {
    if es == [] then interval == 0
    else
      && interval > 0 && (forall e :: e in es ==> interval <= e.trip.tbf)
      && exists e :: e in es && e.trip.tbf == interval
  }

  lemma {:induction false} GoingGo(es: seq<Entry>)
    ensures forall e :: e in Going(es) ==> e in es && ToGo(e) > 0
  {
    if exists e :: e in es && ToGo(e) == 0 {
      GoingGo(es[1..]);
    }
  }

  lemma {:induction false} TimedTime(es: seq<Entry>)
    ensures forall e :: e in Timed(es) ==> e in es && e.trip.tbf > 0
  {
    if exists e :: e in es && e.trip.tbf == 0 {
      TimedTime(es[1..]);
    }
  }

  lemma GoingFound(es: seq<Entry>)
    ensures IsLeastToGo(Going(es), MinRemaining(es, 0))
  {
    GoingGo(es);
    if exists e :: e in es && ToGo(e) == 0 {
      SearchGoing(es, 0);
    }
    if Going(es) != [] {
      LeastToGo(Going(es), 0);
    }
  }

  lemma TimedFound(es: seq<Entry>)
    ensures IsLeastTbf(Timed(es), MinTbf(es, 0))
  {
    TimedTime(es);
    if exists e :: e in es && e.trip.tbf == 0 {
      SearchTimed(es, 0);
    }
    if Timed(es) != [] {
      LeastTbf(Timed(es), 0);
    }
  }

  // ---------------------------------------------------------------- the batch asked for by a restart

  /** What the modem's batch still has to go, in 32 bits. */
  function BatchLeft(s: State, value: nat): nat {
    (s.ongoingDistance - value) % 0x1_0000_0000
  }

  /** Some trip ends before the batch does, or the batch is at its end or belongs to a trip that is gone; also
      when the last trip has nothing to go while the batch has. */
  ghost predicate WantsDistance(s: State, value: nat) {
    if s.distanceDropped || BatchLeft(s, value) == 0 then Going(s.trips) != []
    else Going(s.trips) == [] || exists e :: e in Going(s.trips) && ToGo(e) < BatchLeft(s, value)
  }

  /** A trip wants fixes more often, or the trip that wanted them so often is gone and all others want fewer; also
      when the last trip has no interval while the batch has. */
  ghost predicate WantsTbf(s: State) {
    if Timed(s.trips) == [] then s.ongoingTbf > 0
    else
      || (exists e :: e in Timed(s.trips) && e.trip.tbf < s.ongoingTbf)
      || (s.tbfDropped && forall e :: e in Timed(s.trips) ==> e.trip.tbf > s.ongoingTbf)
  }

  lemma WantsMean(s: State, value: nat)
    ensures TbfRestarts(s) <==> WantsTbf(s)
    ensures DistanceRestarts(s, value) <==> WantsDistance(s, value)
    ensures WantsDistance(s, value) ==> RestartDistance(s, value) == MinRemaining(s.trips, 0)
    ensures !WantsDistance(s, value) ==> RestartDistance(s, value) == s.ongoingDistance
  {
    GoingFound(s.trips);
    TimedFound(s.trips);
    assert BatchLeft(s, value) == Sub32(s.ongoingDistance, value);
  }

  /** The adapter after a restart of the batch, but for what the batch is asked for. */
  ghost predicate Restarted(s: State, value: nat, r: State) {
    && r.base == r.odometer == s.odometer
    && r.trips == CreditAll(s.trips, value)
    && r.tbfDropped == s.tbfDropped && r.distanceDropped == s.distanceDropped
    && r.sessions == s.sessions && r.batchFull == s.batchFull && r.completed == s.completed
  }

  /** A batch is restarted exactly when some trip wants it, and then with the least distance and interval that
      any trip has left; what nobody wants changed stays. */
  lemma RestartAsks(s: State, value: nat, restartOk: bool)
    requires s.trips != []
    ensures var r := RestartTrips(s, value, restartOk);
            && (!restartOk || !(WantsDistance(s, value) || WantsTbf(s)) ==> r == s)
            && (restartOk && (WantsDistance(s, value) || WantsTbf(s)) ==>
                  && Restarted(s, value, r)
                  && (if WantsDistance(s, value) then IsLeastToGo(Going(s.trips), r.ongoingDistance)
                      else r.ongoingDistance == s.ongoingDistance)
                  && (if WantsTbf(s) then IsLeastTbf(Timed(s.trips), r.ongoingTbf)
                      else r.ongoingTbf == s.ongoingTbf))
  {
    GoingFound(s.trips);
    TimedFound(s.trips);
    WantsMean(s, value);
  }

  /** The engine comes up with the least of all, or with nothing when the modem refuses. */
  lemma EngineUpAsks(s: State, startOk: bool)
    requires s.trips != []
    ensures var r := OnEngineUp(s, startOk);
            && r.base == r.odometer == s.odometer && r.trips == s.trips && r.sessions == s.sessions
            && (startOk ==>
                  IsLeastToGo(Going(s.trips), r.ongoingDistance) && IsLeastTbf(Timed(s.trips), r.ongoingTbf))
            && (!startOk ==> r.ongoingDistance == r.ongoingTbf == 0)
  {
    GoingFound(s.trips);
    TimedFound(s.trips);
  }

  /** A report that completes trips restarts the batch for trips that all have something to go. */
  lemma UncompletedGo(es: seq<Entry>, value: nat)
    requires forall e :: e in es ==> e.trip.distance < 0x1_0000_0000
    ensures Going(Uncompleted(es, value)) == Uncompleted(es, value)
  {
    UncompletedExact(es, value);
    forall x | x in Uncompleted(es, value)
      ensures ToGo(x) > 0
    {
      var e :| e in es && !Due(e, value) && x == Counted(e, value);
    }
  }

  function Least(a: int, b: int): int { if a < b then a else b }

  /** A joining trip asks for the smaller of its distance and what the batch has left (all of it when the modem
      cannot tell), and for the smaller interval; it asks for nothing when both are what the batch has. */
  lemma JoinAsks(s: State, key: Key, o: Options, modem: Modem)
    requires s.trips != [] && s.base <= s.odometer
    ensures var left := if modem.queryOk then BatchLeft(s, s.odometer - s.base) else s.ongoingDistance;
            var asks := o.minDistance < left || o.minInterval < s.ongoingTbf;
            var r := JoinTrips(s, key, o, modem);
            && r.ongoingDistance == (if asks then Least(o.minDistance, left) else s.ongoingDistance)
            && r.ongoingTbf == (if asks then Least(o.minInterval, s.ongoingTbf) else s.ongoingTbf)
            && r.base == (if asks && modem.startRestartOk then s.odometer else s.base)
            && r.trips == (if asks then ForgetAll(Joined(s, key, o, modem.queryOk))
                           else Joined(s, key, o, modem.queryOk))
  {
  }

  /** The first trip asks for just itself. */
  lemma FirstAsks(s: State, key: Key, o: Options)
    requires s.trips == []
    ensures var r := StartFirstTrip(s, key, o, true);
            && r.ongoingDistance == o.minDistance && r.ongoingTbf == o.minInterval && r.base == s.odometer
            && r.trips == [Entry(key.id, Trip(0, 0, 0, o.minDistance, o.minInterval), s.odometer)]
  {
    assert Put([], NewTrip(s, key.id, 0, o)) == [NewTrip(s, key.id, 0, o)];
  }

  // ---------------------------------------------------------------- who remains

  /** What stays the same of a trip as long as it lives. */
  datatype Plan = Plan(id: nat, distance: nat, tbf: nat, start: nat)

  function PlanOf(e: Entry): Plan {
    Plan(e.id, e.trip.distance, e.trip.tbf, e.start)
  }

  function Plans(es: seq<Entry>): set<Plan> {
    set e | e in es :: PlanOf(e)
  }

  ghost predicate Ordered(es: seq<Entry>) {
    forall i, j :: 0 <= i < j < |es| ==> es[i].id < es[j].id
  }

  lemma OrderedTail(e: Entry, es: seq<Entry>)
    requires Ordered([e] + es)
    ensures Ordered(es) && forall x :: x in es ==> e.id < x.id
  {
    var all := [e] + es;
    forall i | 0 <= i < |es|
      ensures e.id < es[i].id
    {
      assert all[0].id < all[i + 1].id;
    }
    forall i, j | 0 <= i < j < |es|
      ensures es[i].id < es[j].id
    {
      assert all[i + 1].id < all[j + 1].id;
    }
  }

  lemma OrderedFirst(e: Entry, es: seq<Entry>)
    ensures Ordered([e] + es) <==> Ordered(es) && forall x :: x in es ==> e.id < x.id
    ensures forall x :: x in [e] + es <==> x == e || x in es
  {
    if Ordered([e] + es) {
      OrderedTail(e, es);
    }
  }

  lemma {:induction false} PutExact(es: seq<Entry>, e: Entry)
    requires Ordered(es)
    ensures Ordered(Put(es, e))
    ensures forall x :: x in Put(es, e) <==> x == e || (x in es && x.id != e.id)
  {
    if es == [] {
      assert Put(es, e) == [e] + [];
    } else {
      assert es == [es[0]] + es[1..];
      OrderedFirst(es[0], es[1..]);
      if e.id < es[0].id {
        OrderedFirst(e, es);
      } else if e.id == es[0].id {
        OrderedFirst(e, es[1..]);
      } else {
        PutExact(es[1..], e);
        OrderedFirst(es[0], Put(es[1..], e));
      }
    }
  }

  lemma {:induction false} EraseExact(es: seq<Entry>, id: nat)
    requires Ordered(es)
    ensures Ordered(Erase(es, id))
    ensures forall x :: x in Erase(es, id) <==> x in es && x.id != id
  {
    if es != [] {
      assert es == [es[0]] + es[1..];
      OrderedFirst(es[0], es[1..]);
      EraseExact(es[1..], id);
      OrderedFirst(es[0], Erase(es[1..], id));
      assert es[0].id == id ==> Erase(es, id) == Erase(es[1..], id);
    }
  }

  /** The same plans in the same order. */
  ghost predicate SamePlans(a: seq<Entry>, b: seq<Entry>) {
    |a| == |b| && forall i :: 0 <= i < |a| ==> PlanOf(a[i]) == PlanOf(b[i])
  }

  lemma SamePlansMean(a: seq<Entry>, b: seq<Entry>)
    requires SamePlans(a, b)
    ensures Plans(a) == Plans(b) && (Ordered(a) ==> Ordered(b))
  {
    forall i | 0 <= i < |a|
      ensures PlanOf(b[i]) in Plans(a) && PlanOf(a[i]) in Plans(b) && a[i].id == b[i].id
    {
      assert a[i] in a && b[i] in b;
      assert PlanOf(a[i]).id == a[i].id && PlanOf(b[i]).id == b[i].id;
    }
  }

  lemma {:induction false} RestartsKeepPlans(es: seq<Entry>, value: nat)
    ensures SamePlans(es, ForgetAll(es)) && SamePlans(es, CreditAll(es, value))
  {
    if es != [] {
      RestartsKeepPlans(es[1..], value);
    }
  }

  lemma RestartKeepsPlans(s: State, value: nat, restartOk: bool)
    ensures Plans(RestartTrips(s, value, restartOk).trips) == Plans(s.trips)
    ensures Ordered(s.trips) ==> Ordered(RestartTrips(s, value, restartOk).trips)
    ensures RestartTrips(s, value, restartOk).completed == s.completed
    ensures RestartTrips(s, value, restartOk).sessions == s.sessions
  {
    RestartsKeepPlans(s.trips, value);
    SamePlansMean(s.trips, CreditAll(s.trips, value));
  }

  /** The trip's 32-bit total at the reported value covers its distance. */
  ghost predicate Due(e: Entry, value: nat) {
    e.trip.distance <= (e.trip.atRestart + (value - e.trip.ongoing) % 0x1_0000_0000) % 0x1_0000_0000
  }

  lemma {:induction false} UncompletedExact(es: seq<Entry>, value: nat)
    ensures forall x :: x in Uncompleted(es, value) ==> exists e :: e in es && !Due(e, value) && x == Counted(e, value)
    ensures forall e :: e in es && !Due(e, value) ==> Counted(e, value) in Uncompleted(es, value)
    ensures Ordered(es) ==> Ordered(Uncompleted(es, value))
  {
    if es != [] {
      UncompletedExact(es[1..], value);
      assert forall e :: e in es <==> e == es[0] || e in es[1..];
      assert Due(es[0], value) <==> Completes(es[0], value);
      if Ordered(es) {
        assert es == [es[0]] + es[1..];
        OrderedFirst(es[0], es[1..]);
        OrderedFirst(Counted(es[0], value), Uncompleted(es[1..], value));
      }
      assert Due(es[0], value) ==> Uncompleted(es, value) == Uncompleted(es[1..], value);
    }
  }

  lemma {:induction false} CompletedExact(es: seq<Entry>, value: nat, odometer: nat)
    ensures forall c :: c in CompletedNow(es, value, odometer) <==>
              exists e :: e in es && Due(e, value) && c == Completion(e.id, e.trip.distance, odometer - e.start)
    ensures |CompletedNow(es, value, odometer)| + |Uncompleted(es, value)| == |es|
  {
    if es != [] {
      CompletedExact(es[1..], value, odometer);
      assert forall e :: e in es <==> e == es[0] || e in es[1..];
      assert Due(es[0], value) <==> Completes(es[0], value);
    }
  }

  /** A report takes exactly the trips that are due, tells exactly those complete, each once, and leaves the
      others their plans; the flags say whether one of them had the batch's interval or distance. */
  lemma ReportTells(s: State, value: nat, modem: Modem)
    requires Ordered(s.trips)
    ensures var r := OnReport(s, value, modem);
            && Plans(r.trips) == (set e | e in s.trips && !Due(e, value) :: PlanOf(e))
            && Ordered(r.trips) && r.sessions == s.sessions
            && s.completed <= r.completed && |r.completed| + |r.trips| == |s.completed| + |s.trips|
            && (forall c :: c in r.completed[|s.completed|..] <==>
                  exists e :: e in s.trips && Due(e, value)
                              && c == Completion(e.id, e.trip.distance, s.odometer - e.start))
  {
    var s1, r := TakeCompleted(s, value), OnReport(s, value, modem);
    UncompletedExact(s.trips, value);
    CompletedExact(s.trips, value, s.odometer);
    RestartKeepsPlans(s1, value, modem.restartOk);
    RestartsKeepPlans(s1.trips, value);
    assert |r.trips| == |s1.trips|;
    assert s1.completed[|s.completed|..] == CompletedNow(s.trips, value, s.odometer);
    forall p | p in Plans(s1.trips)
      ensures exists e :: e in s.trips && !Due(e, value) && PlanOf(e) == p
    {
      var x :| x in s1.trips && PlanOf(x) == p;
    }
    forall e | e in s.trips && !Due(e, value)
      ensures PlanOf(e) in Plans(s1.trips)
    {
      assert PlanOf(Counted(e, value)) == PlanOf(e);
    }
  }

  // ---------------------------------------------------------------- starts and stops

  /** The plans after a trip start: the first needs the modem's consent, a later one the modem's counter. */
  function PlansStarted(plans: set<Plan>, key: Key, o: Options, odometer: nat, first: bool, modem: Modem): set<Plan>
  {
    if first then (if modem.startOk then {Plan(key.id, o.minDistance, o.minInterval, odometer)} else {})
    else if modem.queryOk
    then Others(plans, key.id) + {Plan(key.id, o.minDistance, o.minInterval, odometer)}
    else plans
  }

  lemma PutPlans(es: seq<Entry>, e: Entry)
    requires Ordered(es)
    ensures Plans(Put(es, e)) == Others(Plans(es), e.id) + {PlanOf(e)}
  {
    PutExact(es, e);
    forall x | x in es && x.id != e.id
      ensures PlanOf(x) in Plans(Put(es, e))
    {
      assert x in Put(es, e);
    }
    assert e in Put(es, e);
  }

  lemma ErasePlans(es: seq<Entry>, id: nat)
    requires Ordered(es)
    ensures Plans(Erase(es, id)) == Others(Plans(es), id)
  {
    EraseExact(es, id);
    forall x | x in es && x.id != id
      ensures PlanOf(x) in Plans(Erase(es, id))
    {
      assert x in Erase(es, id);
    }
  }

  lemma FirstPlans(s: State, key: Key, o: Options, modem: Modem)
    requires s.trips == []
    ensures var r := StartFirstTrip(s, key, o, modem.startOk);
            && Ordered(r.trips) && r.completed == s.completed
            && Plans(r.trips) == PlansStarted({}, key, o, s.odometer, true, modem)
  {
    var first := NewTrip(s, key.id, 0, o);
    assert Put([], first) == [first] && Erase([first], key.id) == [];
    assert first in [first] && Plans([first]) == {PlanOf(first)} && Plans([]) == {};
  }

  lemma JoinPlans(s: State, key: Key, o: Options, modem: Modem)
    requires Ordered(s.trips) && s.trips != []
    ensures var r := JoinTrips(s, key, o, modem);
            && Ordered(r.trips) && r.completed == s.completed
            && Plans(r.trips) == PlansStarted(Plans(s.trips), key, o, s.odometer, false, modem)
  {
    var joined, trips := NewTrip(s, key.id, Counter(s), o), Joined(s, key, o, modem.queryOk);
    PutPlans(s.trips, joined);
    PutExact(s.trips, joined);
    RestartsKeepPlans(trips, 0);
    SamePlansMean(trips, ForgetAll(trips));
  }

  lemma StartPlans(s: State, key: Key, o: Options, modem: Modem)
    requires Ordered(s.trips)
    ensures var r := StartAgain(s, key, o, modem);
            && Ordered(r.trips) && r.completed == s.completed
            && Plans(r.trips) == if o.mode == TripMode
                                 then PlansStarted(Plans(s.trips), key, o, s.odometer, s.trips == [], modem)
                                 else Plans(s.trips)
  {
    if o.mode == TripMode {
      if s.trips == [] {
        FirstPlans(s, key, o, modem);
      } else {
        JoinPlans(s, key, o, modem);
      }
    }
  }

  lemma StopPlans(s: State, id: nat, modem: Modem)
    requires Ordered(s.trips) && IsTrip(s.trips, id)
    ensures var r := StopTrip(s, id, modem);
            && Ordered(r.trips) && r.completed == s.completed && r.sessions == s.sessions
            && Plans(r.trips) == Others(Plans(s.trips), id)
  {
    var s1 := DropTrip(UnregisterIf(s, |s.trips| == 1 && modem.stopOk && AutoCount(s) == 1), id);
    EraseExact(s.trips, id);
    ErasePlans(s.trips, id);
    RestartKeepsPlans(s1, Counter(s1), modem.restartOk);
  }

  function Others(plans: set<Plan>, id: nat): set<Plan> {
    set p | p in plans && p.id != id
  }

  lemma OthersNone(plans: set<Plan>, id: nat)
    ensures Others(plans, id) == {} <==> forall p :: p in plans ==> p.id == id
    ensures (forall p :: p in plans ==> p.id != id) ==> Others(plans, id) == plans
  {
    if p :| p in plans && p.id != id {
      assert p in Others(plans, id);
    }
  }

  /** The plans after any message but a report. */
  function PlansAfter(s: State, e: Event): set<Plan> {
    var plans := Plans(s.trips);
    match e
    case Start(key, o, modem) =>
      if o.mode == TripMode then PlansStarted(plans, key, o, s.odometer, s.trips == [], modem) else plans
    case Update(key, o, modem) =>
      if key !in s.sessions || o.mode == UnknownMode then plans
      else
        var trip := exists p :: p in plans && p.id == key.id;
        var others := Others(plans, key.id);
        if o.mode == TripMode && (trip || modem.stopOk)
        then PlansStarted(others, key, o, s.odometer, others == {}, modem)
        else others
    case Stop(key, _) => if key in s.sessions then Others(plans, key.id) else plans
    case _ => plans
  }

  lemma PlansOfNone(es: seq<Entry>, id: nat)
    ensures es == [] <==> Plans(es) == {}
    ensures IsTrip(es, id) <==> exists p :: p in Plans(es) && p.id == id
    ensures !IsTrip(es, id) ==> Others(Plans(es), id) == Plans(es)
  {
    if es != [] {
      assert es[0] in es && PlanOf(es[0]) in Plans(es);
    }
    if IsTrip(es, id) {
      var e :| e in es && e.id == id;
      assert PlanOf(e) in Plans(es);
    }
  }

  lemma UpdateTripPlans(s: State, key: Key, o: Options, modem: Modem)
    requires Ordered(s.trips) && IsTrip(s.trips, key.id)
    ensures var r, others := StopTripAndRestart(s, key, o, modem), Others(Plans(s.trips), key.id);
            && Ordered(r.trips) && r.completed == s.completed
            && Plans(r.trips) == if o.mode == TripMode
                                 then PlansStarted(others, key, o, s.odometer, others == {}, modem) else others
  {
    var s1 := StopTrip(s, key.id, modem);
    var s2 := s1.(sessions := Without(s1.sessions, key));
    StopPlans(s, key.id, modem);
    PlansOfNone(s2.trips, key.id);
    StartPlans(s2, key, o, modem);
  }

  lemma UpdatePlainPlans(s: State, key: Key, o: Options, modem: Modem)
    requires Ordered(s.trips) && key in s.sessions && o.mode != UnknownMode && !IsTrip(s.trips, key.id)
    ensures var r := StopBatching(s, key, true, o, modem);
            Ordered(r.trips) && r.completed == s.completed && Plans(r.trips) == PlansAfter(s, Update(key, o, modem))
  {
    PlansOfNone(s.trips, key.id);
    var s1 := s.(sessions := Without(s.sessions, key));
    StartPlans(UnregisterIf(s1, AutoCount(s1) == 0 && s.sessions[key].mode != NoAutoReport), key, o, modem);
  }

  /** Every message but a report leaves exactly these trips, with their distance, interval and start. */
  lemma StepPlans(s: State, e: Event)
    requires Ordered(s.trips) && !e.Report?
    ensures Ordered(Step(s, e).trips) && Step(s, e).completed == s.completed
    ensures Plans(Step(s, e).trips) == PlansAfter(s, e)
  {
    match e
    case Start(key, o, modem) => StartPlans(s, key, o, modem);
    case Update(key, o, modem) =>
      if key in s.sessions && o.mode != UnknownMode {
        if IsTrip(s.trips, key.id) {
          PlansOfNone(s.trips, key.id);
          UpdateTripPlans(s, key, o, modem);
        } else {
          UpdatePlainPlans(s, key, o, modem);
        }
      }
    case Stop(key, modem) =>
      PlansOfNone(s.trips, key.id);
      if key in s.sessions && IsTrip(s.trips, key.id) {
        StopPlans(s, key.id, modem);
      }
    case _ =>
  }

  lemma {:induction false} RunOrdered(es: seq<Event>)
    ensures Ordered(Run(es).trips)
  {
    if es != [] {
      var s, e := Run(es[..|es| - 1]), es[|es| - 1];
      RunOrdered(es[..|es| - 1]);
      if e.Report? {
        ReportTells(s, e.value, e.modem);
      } else {
        StepPlans(s, e);
      }
    }
  }

  // ---------------------------------------------------------------- sessions

  /** The sessions after a start: a trip that joins others is never saved. */
  function SessionsStarted(sessions: map<Key, Options>, key: Key, o: Options, first: bool, modem: Modem)
    : map<Key, Options>
  {
    match o.mode
    case TripMode => if !first then sessions else if modem.startOk then sessions[key := o] else sessions - {key}
    case UnknownMode => sessions
    case _ => if modem.batchStartOk then sessions[key := o] else sessions - {key}
  }

  /** A stopped trip stays saved, a failed plain stop is saved with the options of the call. */
  function SessionsAfter(s: State, e: Event): map<Key, Options> {
    match e
    case Start(key, o, modem) => SessionsStarted(s.sessions, key, o, s.trips == [], modem)
    case Update(key, o, modem) =>
      if key !in s.sessions || o.mode == UnknownMode then s.sessions
      else if exists p :: p in Plans(s.trips) && p.id == key.id
      then SessionsStarted(s.sessions - {key}, key, o, forall p :: p in Plans(s.trips) ==> p.id == key.id, modem)
      else if modem.stopOk then SessionsStarted(s.sessions - {key}, key, o, s.trips == [], modem)
      else s.sessions[key := o]
    case Stop(key, modem) =>
      if key !in s.sessions || exists p :: p in Plans(s.trips) && p.id == key.id then s.sessions
      else if modem.stopOk then s.sessions - {key}
      else s.sessions[key := Options(Routine, 0, 0)]
    case _ => s.sessions
  }

  lemma StartSessions(s: State, key: Key, o: Options, modem: Modem)
    ensures StartAgain(s, key, o, modem).sessions == SessionsStarted(s.sessions, key, o, s.trips == [], modem)
  {
    assert s.sessions[key := o] - {key} == s.sessions - {key};
  }

  lemma UpdateTripSessions(s: State, key: Key, o: Options, modem: Modem)
    requires Ordered(s.trips) && key in s.sessions && o.mode != UnknownMode && IsTrip(s.trips, key.id)
    ensures StopTripAndRestart(s, key, o, modem).sessions == SessionsAfter(s, Update(key, o, modem))
  {
    var s1 := StopTrip(s, key.id, modem);
    StopPlans(s, key.id, modem);
    PlansOfNone(s.trips, key.id);
    PlansOfNone(s1.trips, key.id);
    OthersNone(Plans(s.trips), key.id);
    StartSessions(s1.(sessions := s1.sessions - {key}), key, o, modem);
  }

  lemma UpdatePlainSessions(s: State, key: Key, o: Options, modem: Modem)
    requires Ordered(s.trips) && key in s.sessions && o.mode != UnknownMode && !IsTrip(s.trips, key.id)
    ensures StopBatching(s, key, true, o, modem).sessions == SessionsAfter(s, Update(key, o, modem))
  {
    PlansOfNone(s.trips, key.id);
    var s1 := s.(sessions := s.sessions - {key});
    StartSessions(UnregisterIf(s1, AutoCount(s1) == 0 && s.sessions[key].mode != NoAutoReport), key, o, modem);
  }

  /** Every message leaves exactly these sessions. */
  lemma StepSessions(s: State, e: Event)
    requires Ordered(s.trips)
    ensures Step(s, e).sessions == SessionsAfter(s, e)
  {
    match e
    case Start(key, o, modem) => StartSessions(s, key, o, modem);
    case Update(key, o, modem) =>
      if key in s.sessions && o.mode != UnknownMode {
        if IsTrip(s.trips, key.id) {
          UpdateTripSessions(s, key, o, modem);
        } else {
          UpdatePlainSessions(s, key, o, modem);
        }
      }
    case Stop(key, modem) =>
      PlansOfNone(s.trips, key.id);
      if key in s.sessions && IsTrip(s.trips, key.id) {
        StopPlans(s, key.id, modem);
      }
    case Report(value, modem) => ReportTells(s, value, modem);
    case _ =>
  }

  // ---------------------------------------------------------------- the batch-full bit and the flags

  /** Someone wants batches reported. */
  ghost predicate Wanted(s: State) {
    s.trips != [] || exists k :: k in s.sessions && s.sessions[k].mode != NoAutoReport
  }

  lemma WantedCounts(s: State)
    ensures Wanted(s) <==> AutoCount(s) > 0
  {
    if k :| k in s.sessions && s.sessions[k].mode != NoAutoReport {
      assert k in AutoSessions(s.sessions);
    } else {
      assert AutoSessions(s.sessions) == {};
    }
  }

  lemma StartBit(s: State, key: Key, o: Options, modem: Modem)
    ensures var r := StartAgain(s, key, o, modem);
            (r.batchFull && !s.batchFull ==> Wanted(r)) && (!r.batchFull && s.batchFull ==> !Wanted(r))
  {
    var r := StartAgain(s, key, o, modem);
    WantedCounts(s);
    WantedCounts(r);
    if (o.mode == Routine || o.mode == NoAutoReport) && modem.batchStartOk && o.mode != NoAutoReport {
      assert r.sessions[key].mode != NoAutoReport;
    }
    if o.mode == TripMode && s.trips == [] {
      var first := NewTrip(s, key.id, 0, o);
      assert Put([], first) == [first] && Erase([first], key.id) == [];
    }
  }

  /** The bit is only ever set for somebody and only ever cleared when nobody is left. */
  lemma StepBit(s: State, e: Event)
    requires Ordered(s.trips) && Registered(s) && StopsSafe(s, e)
    ensures var r := Step(s, e);
            (r.batchFull && !s.batchFull ==> Wanted(r)) && (!r.batchFull && s.batchFull ==> !Wanted(r))
  {
    var r := Step(s, e);
    WantedCounts(s);
    WantedCounts(r);
    StepRegisters(s, e);
    match e
    case Start(key, o, modem) => StartBit(s, key, o, modem);
    case Update(key, o, modem) =>
      if key in s.sessions && o.mode != UnknownMode {
        UpdateBit(s, key, o, modem);
      }
    case Stop(key, modem) =>
      if key in s.sessions && IsTrip(s.trips, key.id) {
        StopBit(s, key.id, modem);
      }
    case Report(value, modem) =>
      WantedCounts(TakeCompleted(s, value));
    case _ =>
  }

  lemma UpdateBit(s: State, key: Key, o: Options, modem: Modem)
    requires key in s.sessions && o.mode != UnknownMode
    ensures var r := Step(s, Update(key, o, modem)); r.batchFull && !s.batchFull ==> Wanted(r)
  {
    if IsTrip(s.trips, key.id) {
      var s1 := StopTrip(s, key.id, modem);
      StopBit(s, key.id, modem);
      StartBit(s1.(sessions := Without(s1.sessions, key)), key, o, modem);
    } else {
      var s1 := s.(sessions := Without(s.sessions, key));
      StartBit(UnregisterIf(s1, AutoCount(s1) == 0 && s.sessions[key].mode != NoAutoReport), key, o, modem);
    }
  }

  lemma StopBit(s: State, id: nat, modem: Modem)
    requires IsTrip(s.trips, id)
    ensures var r := StopTrip(s, id, modem);
            && (r.batchFull ==> s.batchFull)
            && (!r.batchFull && s.batchFull ==> !Wanted(r))
  {
    var r := StopTrip(s, id, modem);
    WantedCounts(s);
    WantedCounts(r);
    EraseMembers(s.trips, id);
    if |s.trips| == 1 {
      assert s.trips[0] in s.trips && Erase(s.trips, id) == [];
    }
  }

  /** Once set, the flags say that a trip with the batch's interval or distance has gone; nothing clears them. */
  lemma {:induction false} DropsExact(es: seq<Entry>, value: nat, x: nat)
    ensures DropsTbf(es, value, x) <==> exists e :: e in es && Due(e, value) && e.trip.tbf == x
    ensures DropsDistance(es, value, x) <==> exists e :: e in es && Due(e, value) && e.trip.distance == x
  {
    if es != [] {
      DropsExact(es[1..], value, x);
      assert forall e :: e in es <==> e == es[0] || e in es[1..];
      assert Due(es[0], value) <==> Completes(es[0], value);
    }
  }

  lemma ReportFlags(s: State, value: nat, modem: Modem)
    ensures var r := OnReport(s, value, modem);
            && (r.tbfDropped <==>
                  s.tbfDropped || exists e :: e in s.trips && Due(e, value) && e.trip.tbf == s.ongoingTbf)
            && (r.distanceDropped <==>
                  s.distanceDropped
                  || exists e :: e in s.trips && Due(e, value) && e.trip.distance == s.ongoingDistance)
  {
    DropsExact(s.trips, value, s.ongoingTbf);
    DropsExact(s.trips, value, s.ongoingDistance);
  }

  lemma {:induction false} FoundTrip(es: seq<Entry>, id: nat)
    requires IsTrip(es, id)
    ensures exists e :: e in es && e.id == id && FindTrip(es, id) == e.trip
  {
    if es[0].id != id {
      FoundTrip(es[1..], id);
      var e :| e in es[1..] && e.id == id && FindTrip(es[1..], id) == e.trip;
      assert e in es;
    }
  }

  lemma StopFlags(s: State, id: nat, modem: Modem, e: Entry)
    requires Ordered(s.trips) && e in s.trips && e.id == id
    ensures var r := StopTrip(s, id, modem);
            && (r.tbfDropped <==> s.tbfDropped || e.trip.tbf == s.ongoingTbf)
            && (r.distanceDropped <==> s.distanceDropped || e.trip.distance == s.ongoingDistance)
  {
    FoundTrip(s.trips, id);
    assert forall x :: x in s.trips && x.id == id ==> x == e;
  }
}

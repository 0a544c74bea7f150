/** How the GNSS adapter multiplexes all time-based tracking sessions into the one session the modem
    runs, and how the modem's interval relates to the sessions over every run. */
module TrackingSpec {
  import opened Wrappers

  const MIN_TRACKING_INTERVAL := 100

  const POWER_MODE_INVALID := 0

  datatype Options = Options(interval: nat, power: nat)

  /** A session; keys stand for the order in which the map iterates. */
  datatype Session = Session(key: nat, options: Options)

  datatype Modem = Stopped | Running(options: Options)

  /** `suspended` only records that a suspension has not been resumed yet; no operation reads it. */
  datatype State = State(sessions: seq<Session>, nHzNeeded: bool, atHighest: bool, modem: Modem, suspended: bool)

  datatype Event =
    | Start(key: nat, options: Options)
    | Update(key: nat, options: Options)
    | Stop(key: nat)
    | Suspend
    | Resume
    | EngineRestart
    | NHzChanged(needed: bool)

  // ---------------------------------------------------------------- the session map

  function Save(ss: seq<Session>, s: Session): seq<Session> {
    if ss == [] then [s]
    else if s.key < ss[0].key then [s] + ss
    else if s.key == ss[0].key then [s] + ss[1..]
    else [ss[0]] + Save(ss[1..], s)
  }

  function Others(ss: seq<Session>, key: nat): seq<Session> {
    if ss == [] then []
    else (if ss[0].key == key then [] else [ss[0]]) + Others(ss[1..], key)
  }

  /** The sessions a search looks at: all, or all but one. */
  function Searched(ss: seq<Session>, skip: Option<nat>): seq<Session> {
    if skip.Some? then Others(ss, skip.value) else ss
  }

  predicate IsSession(ss: seq<Session>, key: nat) {
    exists s :: s in ss && s.key == key
  }

  function Lookup(ss: seq<Session>, key: nat): Options
    requires IsSession(ss, key)
  {
    if ss[0].key == key then ss[0].options else Lookup(ss[1..], key)
  }

  // ---------------------------------------------------------------- the search loops

  /** The options of the first session with the smallest interval. */
  function Smallest(ss: seq<Session>, best: Option<Options>): Option<Options> {
    if ss == [] then best
    else
      var o := ss[0].options;
      Smallest(ss[1..], if best.None? || o.interval < best.value.interval then Some(o) else best)
  }

  /** The smallest power mode; the invalid mode stands for "none yet". */
  function LeastPower(ss: seq<Session>, least: nat): nat {
    if ss == [] then least
    else
      var p := ss[0].options.power;
      LeastPower(ss[1..], if least == POWER_MODE_INVALID || p < least then p else least)
  }

  /** The restart's own search: it never takes an invalid power mode over another. */
  function HighestPower(ss: seq<Session>, best: Option<Options>): Option<Options> {
    if ss == [] then best
    else
      var o := ss[0].options;
      HighestPower(ss[1..],
        if best.None? || (o.power != POWER_MODE_INVALID && o.power < best.value.power) then Some(o) else best)
  }

  const UNSET := Options(0, POWER_MODE_INVALID)

  function OrUnset(o: Option<Options>): Options {
    if o.Some? then o.value else UNSET
  }

  // ---------------------------------------------------------------- operations

  function Clamp(o: Options): Options {
    if o.interval < MIN_TRACKING_INTERVAL then o.(interval := MIN_TRACKING_INTERVAL) else o
  }

  /** Asks the modem to track, at the highest rate where that is needed and not yet so. */
  function Send(s: State, o: Options): State {
    if !s.nHzNeeded then s.(modem := Running(o))
    else if s.atHighest then s
    else if o.interval > MIN_TRACKING_INTERVAL then
      s.(modem := Running(o.(interval := MIN_TRACKING_INTERVAL)), atHighest := true)
    else s.(modem := Running(o))
  }

  /** Whether options ask for more than the best found so far. */
  predicate AsksMore(o: Options, best: Options, power: nat) {
    o.interval < best.interval || o.power < power
  }

  function Merged(o: Options, best: Options, power: nat): Options {
    Options(if o.interval < best.interval then o.interval else best.interval,
            if o.power < power then o.power else best.power)
  }

  predicate StartNeedsSend(s: State, o: Options) {
    s.sessions == [] || AsksMore(o, OrUnset(Smallest(s.sessions, None)), LeastPower(s.sessions, 0))
  }

  function StartOptions(s: State, o: Options): Options {
    if s.sessions == [] then o else Merged(o, OrUnset(Smallest(s.sessions, None)), LeastPower(s.sessions, 0))
  }

  function StartMultiplex(s: State, o: Options): State {
    if StartNeedsSend(s, o) then Send(s, StartOptions(s, o)) else s
  }

  predicate UpdateNeedsSend(s: State, key: nat, o: Options)
    requires IsSession(s.sessions, key)
  {
    var others := Others(s.sessions, key);
    && Lookup(s.sessions, key) != o
    && (AsksMore(o, OrUnset(Smallest(others, None)), LeastPower(others, 0)) || |s.sessions| == 1)
  }

  function UpdateOptions(s: State, key: nat, o: Options): Options {
    var others := Others(s.sessions, key);
    if |s.sessions| == 1 then o else Merged(o, OrUnset(Smallest(others, None)), LeastPower(others, 0))
  }

  function UpdateMultiplex(s: State, key: nat, o: Options): State
    requires IsSession(s.sessions, key)
  {
    if UpdateNeedsSend(s, key, o) then Send(s, UpdateOptions(s, key, o)) else s
  }

  function StopMultiplex(s: State, key: nat): State
    requires IsSession(s.sessions, key)
  {
    if |s.sessions| == 1 then s.(modem := Stopped, atHighest := false)
    else
      var others, own := Others(s.sessions, key), Lookup(s.sessions, key);
      var best, power := OrUnset(Smallest(others, None)), LeastPower(others, 0);
      if AsksMore(own, best, power)
      then Send(s, best.(power := power))
      else s
  }

  function Restart(s: State): State {
    var s1 := s.(atHighest := false, suspended := false);
    if s.sessions == [] then s1
    else
      Send(s1, Options(OrUnset(Smallest(s.sessions, None)).interval, OrUnset(HighestPower(s.sessions, None)).power))
  }

  function Step(s: State, e: Event): State {
    match e
    case Start(key, o) =>
      StartMultiplex(s, Clamp(o)).(sessions := Save(s.sessions, Session(key, Clamp(o))))
    case Update(key, o) =>
      if IsSession(s.sessions, key)
      then UpdateMultiplex(s, key, Clamp(o)).(sessions := Save(s.sessions, Session(key, Clamp(o))))
      else s
    case Stop(key) =>
      if IsSession(s.sessions, key) then StopMultiplex(s, key).(sessions := Others(s.sessions, key)) else s
    case Suspend => if s.sessions == [] then s else s.(modem := Stopped, atHighest := false, suspended := true)
    case Resume => Restart(s)
    case EngineRestart => Restart(s.(modem := Stopped))
    case NHzChanged(needed) => if s.nHzNeeded == needed then s else Restart(s.(nHzNeeded := needed))
  }

  const INITIAL := State([], false, false, Stopped, false)

  function Run(es: seq<Event>): State {
    if es == [] then INITIAL else Step(Run(es[..|es| - 1]), es[|es| - 1])
  }

  // ---------------------------------------------------------------- facts about the map and the searches

  ghost predicate Sorted(ss: seq<Session>) {
    forall i, j :: 0 <= i < j < |ss| ==> ss[i].key < ss[j].key
  }

  lemma SortedTail(s: Session, ss: seq<Session>)
    requires Sorted([s] + ss)
    ensures Sorted(ss) && forall t :: t in ss ==> s.key < t.key
  {
    var all := [s] + ss;
    forall i | 0 <= i < |ss|
      ensures s.key < ss[i].key
    {
      assert all[0].key < all[i + 1].key;
    }
    forall i, j | 0 <= i < j < |ss|
      ensures ss[i].key < ss[j].key
    {
      assert all[i + 1].key < all[j + 1].key;
    }
  }

  lemma SortedFirst(s: Session, ss: seq<Session>)
    ensures Sorted([s] + ss) <==> Sorted(ss) && forall t :: t in ss ==> s.key < t.key
    ensures forall t :: t in [s] + ss <==> t == s || t in ss
  {
    if Sorted([s] + ss) {
      SortedTail(s, ss);
    }
  }

  lemma {:induction false} SaveMembers(ss: seq<Session>, s: Session)
    requires Sorted(ss)
    ensures Sorted(Save(ss, s))
    ensures forall t :: t in Save(ss, s) <==> t == s || (t in ss && t.key != s.key)
  {
    if ss != [] {
      SortedFirst(ss[0], ss[1..]);
      if s.key > ss[0].key {
        SaveMembers(ss[1..], s);
        SortedFirst(ss[0], Save(ss[1..], s));
      } else if s.key == ss[0].key {
        SortedFirst(s, ss[1..]);
      } else {
        SortedFirst(s, ss);
      }
    }
  }

  lemma {:induction false} OthersMembers(ss: seq<Session>, key: nat)
    requires Sorted(ss)
    ensures Sorted(Others(ss, key))
    ensures forall t :: t in Others(ss, key) <==> t in ss && t.key != key
  {
    if ss != [] {
      OthersMembers(ss[1..], key);
      SortedFirst(ss[0], ss[1..]);
      SortedFirst(ss[0], Others(ss[1..], key));
      assert ss == [ss[0]] + ss[1..];
      if ss[0].key == key {
        assert Others(ss, key) == Others(ss[1..], key);
      }
    }
  }

  lemma {:induction false} OthersLength(ss: seq<Session>, key: nat)
    requires Sorted(ss)
    ensures !IsSession(ss, key) ==> Others(ss, key) == ss
    ensures IsSession(ss, key) ==> |Others(ss, key)| == |ss| - 1
  {
    if ss != [] {
      OthersLength(ss[1..], key);
      SortedFirst(ss[0], ss[1..]);
      assert ss == [ss[0]] + ss[1..];
    }
  }

  lemma {:induction false} LookupMember(ss: seq<Session>, key: nat)
    requires IsSession(ss, key)
    ensures Session(key, Lookup(ss, key)) in ss
    ensures Sorted(ss) ==> forall s :: s in ss && s.key == key ==> s.options == Lookup(ss, key)
  {
    assert forall t :: t in ss <==> t == ss[0] || t in ss[1..];
    if ss[0].key != key {
      LookupMember(ss[1..], key);
    } else {
      assert ss[0] == Session(key, Lookup(ss, key));
    }
  }

  ghost predicate LowerBound(bound: nat, ss: seq<Session>) {
    forall s :: s in ss ==> bound <= s.options.interval
  }

  ghost predicate Attained(bound: nat, ss: seq<Session>) {
    exists s :: s in ss && s.options.interval == bound
  }

  /** The search finds the true minimum of the intervals, starting from a candidate or from nothing. */
  lemma {:induction false} SmallestIsLeast(ss: seq<Session>, best: Option<Options>)
    requires ss != [] || best.Some?
    ensures var r := Smallest(ss, best);
            && r.Some?
            && LowerBound(r.value.interval, ss)
            && (best.Some? ==> r.value.interval <= best.value.interval)
            && (Attained(r.value.interval, ss) || r == best)
  {
    if ss != [] {
      var o := ss[0].options;
      assert forall t :: t in ss <==> t == ss[0] || t in ss[1..];
      SmallestIsLeast(ss[1..], if best.None? || o.interval < best.value.interval then Some(o) else best);
    }
  }

  lemma LeastInterval(ss: seq<Session>) returns (least: nat)
    requires ss != []
    ensures least == OrUnset(Smallest(ss, None)).interval
    ensures LowerBound(least, ss) && Attained(least, ss)
  {
    SmallestIsLeast(ss, None);
    least := OrUnset(Smallest(ss, None)).interval;
  }

  // ---------------------------------------------------------------- invariants

  /** The modem, while it runs, is at least as fast as every session wants; the highest-rate flag means
      the modem runs at the minimum interval because it must. */
  ghost predicate Inv(s: State) {
    && Sorted(s.sessions)
    && LowerBound(MIN_TRACKING_INTERVAL, s.sessions)
    && (s.sessions == [] ==> s.modem == Stopped)
    && (s.modem.Running? ==>
          && MIN_TRACKING_INTERVAL <= s.modem.options.interval
          && LowerBound(s.modem.options.interval, s.sessions))
    && (s.atHighest ==> s.nHzNeeded && s.modem.Running?)
    && (s.nHzNeeded && s.modem.Running? ==> s.modem.options.interval == MIN_TRACKING_INTERVAL)
    && (s.sessions != [] && !s.suspended ==> s.modem.Running?)
  }

  /** The modem is no faster than needed: some session wants exactly its interval. */
  ghost predicate Exact(s: State) {
    s.modem.Running? && !s.nHzNeeded ==> Attained(s.modem.options.interval, s.sessions)
  }

  /** Sending options no slower than any session of a well-formed map restores the invariant. */
  lemma SendKeeps(s: State, o: Options, ss: seq<Session>)
    requires s.atHighest ==> s.nHzNeeded && s.modem.Running? && s.modem.options.interval == MIN_TRACKING_INTERVAL
    requires Sorted(ss) && ss != [] && LowerBound(MIN_TRACKING_INTERVAL, ss)
    requires MIN_TRACKING_INTERVAL <= o.interval && LowerBound(o.interval, ss)
    ensures Inv(Send(s, o).(sessions := ss))
    ensures Send(s, o).modem.Running?
    ensures Send(s, o).modem.options.interval == if s.nHzNeeded then MIN_TRACKING_INTERVAL else o.interval
  {
  }

  function SendIf(s: State, needed: bool, o: Options, ss: seq<Session>): State {
    (if needed then Send(s, o) else s).(sessions := ss)
  }

  /** A command that sends suitable options, or keeps the modem when it already suits the new sessions. */
  lemma SendIfKeeps(s: State, needed: bool, o: Options, ss: seq<Session>)
    requires Inv(s) && Sorted(ss) && ss != [] && LowerBound(MIN_TRACKING_INTERVAL, ss)
    requires needed ==> MIN_TRACKING_INTERVAL <= o.interval && LowerBound(o.interval, ss)
    requires !needed ==>
               && s.sessions != []
               && (s.modem.Running? ==> LowerBound(s.modem.options.interval, ss))
    ensures Inv(SendIf(s, needed, o, ss))
    ensures needed && Attained(o.interval, ss) ==> Exact(SendIf(s, needed, o, ss))
  {
  }

  lemma StartKeeps(s: State, key: nat, o: Options)
    requires Inv(s) && o.interval >= MIN_TRACKING_INTERVAL
    ensures Inv(StartMultiplex(s, o).(sessions := Save(s.sessions, Session(key, o))))
    ensures Exact(s) && !IsSession(s.sessions, key) ==>
              Exact(StartMultiplex(s, o).(sessions := Save(s.sessions, Session(key, o))))
  {
    var ss := Save(s.sessions, Session(key, o));
    SaveMembers(s.sessions, Session(key, o));
    assert Session(key, o) in ss;
    if s.sessions != [] {
      var least := LeastInterval(s.sessions);
    }
    SendIfKeeps(s, StartNeedsSend(s, o), StartOptions(s, o), ss);
  }

  /** A session and the others. */
  lemma SplitSession(ss: seq<Session>, key: nat) returns (own: Session, others: seq<Session>)
    requires Sorted(ss) && IsSession(ss, key)
    ensures own == Session(key, Lookup(ss, key)) && others == Others(ss, key)
    ensures Sorted(others) && |others| == |ss| - 1
    ensures forall t :: t in ss <==> t == own || t in others
  {
    own, others := Session(key, Lookup(ss, key)), Others(ss, key);
    OthersMembers(ss, key);
    OthersLength(ss, key);
    LookupMember(ss, key);
  }

  /** The sessions after an update are the others and the updated one. */
  lemma UpdatedSessions(ss: seq<Session>, key: nat, o: Options)
    requires Sorted(ss)
    ensures Sorted(Save(ss, Session(key, o)))
    ensures forall t :: t in Save(ss, Session(key, o)) <==> t == Session(key, o) || t in Others(ss, key)
  {
    SaveMembers(ss, Session(key, o));
    OthersMembers(ss, key);
  }

  /** Changing one session's options: `own` becomes `changed`, `others` stay, `best` is what they need. */
  lemma ChangeKeeps(s: State, own: Session, changed: Session, others: seq<Session>, ss: seq<Session>,
                    best: Options, power: nat)
    requires Inv(s) && Sorted(ss) && changed.options.interval >= MIN_TRACKING_INTERVAL
    requires forall t :: t in s.sessions <==> t == own || t in others
    requires forall t :: t in ss <==> t == changed || t in others
    requires others == [] <==> |s.sessions| == 1
    requires others != [] ==> LowerBound(best.interval, others) && Attained(best.interval, others)
    ensures var o := changed.options;
            var needed := own.options != o && (AsksMore(o, best, power) || others == []);
            var r := SendIf(s, needed, if others == [] then o else Merged(o, best, power), ss);
            && Inv(r)
            && (Exact(s) && s.modem.Running? && !s.nHzNeeded ==>
                  (Exact(r) <==>
                     needed || o.interval == own.options.interval
                     || (others != [] && best.interval <= own.options.interval)))
  {
    var o := changed.options;
    var needed := own.options != o && (AsksMore(o, best, power) || others == []);
    assert own in s.sessions && changed in ss;
    SendIfKeeps(s, needed, if others == [] then o else Merged(o, best, power), ss);
  }

  lemma UpdateKeeps(s: State, key: nat, o: Options)
    requires Inv(s) && IsSession(s.sessions, key) && o.interval >= MIN_TRACKING_INTERVAL
    ensures Inv(UpdateMultiplex(s, key, o).(sessions := Save(s.sessions, Session(key, o))))
  {
    var own, others := SplitSession(s.sessions, key);
    UpdatedSessions(s.sessions, key, o);
    if others != [] {
      var least := LeastInterval(others);
    }
    ChangeKeeps(s, own, Session(key, o), others, Save(s.sessions, Session(key, o)),
                OrUnset(Smallest(others, None)), LeastPower(others, 0));
  }

  /** Removing one session: `own` leaves, `others` stay, `best` is what they need. */
  lemma RemovalKeeps(s: State, own: Session, others: seq<Session>, best: Options, power: nat)
    requires Inv(s) && Sorted(others) && others != []
    requires forall t :: t in s.sessions <==> t == own || t in others
    requires LowerBound(best.interval, others) && Attained(best.interval, others)
    ensures var r := SendIf(s, AsksMore(own.options, best, power), best.(power := power), others);
            Inv(r) && (Exact(s) ==> Exact(r))
  {
    SendIfKeeps(s, AsksMore(own.options, best, power), best.(power := power), others);
  }

  lemma StopKeeps(s: State, key: nat)
    requires Inv(s) && IsSession(s.sessions, key)
    ensures Inv(StopMultiplex(s, key).(sessions := Others(s.sessions, key)))
    ensures Exact(s) ==> Exact(StopMultiplex(s, key).(sessions := Others(s.sessions, key)))
  {
    var own, others := SplitSession(s.sessions, key);
    if others != [] {
      var least := LeastInterval(others);
      RemovalKeeps(s, own, others, OrUnset(Smallest(others, None)), LeastPower(others, 0));
    }
  }

  lemma RestartKeeps(s: State)
    requires Inv(s.(suspended := true, modem := Stopped, atHighest := false))
    requires s.sessions == [] ==> s.modem == Stopped
    ensures Inv(Restart(s))
    ensures s.sessions != [] ==> Restart(s).modem.Running?
    ensures s.sessions != [] && !s.nHzNeeded ==> Attained(Restart(s).modem.options.interval, s.sessions)
  {
    if s.sessions != [] {
      var least := LeastInterval(s.sessions);
      var o := Options(OrUnset(Smallest(s.sessions, None)).interval, OrUnset(HighestPower(s.sessions, None)).power);
      SendKeeps(s.(atHighest := false, suspended := false), o, s.sessions);
    }
  }

  lemma StepKeeps(s: State, e: Event)
    requires Inv(s)
    ensures Inv(Step(s, e))
  {
    match e {
      case Start(key, o) => StartKeeps(s, key, Clamp(o));
      case Update(key, o) =>
        if IsSession(s.sessions, key) {
          UpdateKeeps(s, key, Clamp(o));
        }
      case Stop(key) =>
        if IsSession(s.sessions, key) {
          StopKeeps(s, key);
        }
      case Suspend =>
      case Resume => RestartKeeps(s);
      case EngineRestart => RestartKeeps(s.(modem := Stopped));
      case NHzChanged(needed) => RestartKeeps(s.(nHzNeeded := needed));
    }
  }

  /** Over every run: while sessions exist and are not suspended the modem runs, at an interval no larger
      than any session's, and at the minimum when NHz output is needed. */
  lemma {:induction false} ModemFastEnough(es: seq<Event>)
    ensures Inv(Run(es))
  {
    if es != [] {
      ModemFastEnough(es[..|es| - 1]);
      StepKeeps(Run(es[..|es| - 1]), es[|es| - 1]);
    }
  }

  // ---------------------------------------------------------------- exactness

  ghost predicate NewKeys(es: seq<Event>) {
    es == [] ||
    (&& NewKeys(es[..|es| - 1])
     && (es[|es| - 1].Start? ==> !IsSession(Run(es[..|es| - 1]).sessions, es[|es| - 1].key)))
  }

  /** The update sends, keeps the session's interval, or leaves another session that wants the old one or a
      shorter one. */
  predicate UpdateTight(s: State, key: nat, o: Options)
    requires IsSession(s.sessions, key)
  {
    || UpdateNeedsSend(s, key, o)
    || o.interval == Lookup(s.sessions, key).interval
    || (|s.sessions| > 1
        && OrUnset(Smallest(Others(s.sessions, key), None)).interval <= Lookup(s.sessions, key).interval)
  }

  /** An update leaves the modem faster than needed exactly when it sends nothing although the session
      updated was the only one that wanted the modem's interval, and wants a slower one now. */
  lemma UpdateExact(s: State, key: nat, o: Options)
    requires Inv(s) && Exact(s) && IsSession(s.sessions, key) && o.interval >= MIN_TRACKING_INTERVAL
    ensures Exact(UpdateMultiplex(s, key, o).(sessions := Save(s.sessions, Session(key, o)))) <==>
              (s.modem.Running? && !s.nHzNeeded ==> UpdateTight(s, key, o))
  {
    var own, others := SplitSession(s.sessions, key);
    UpdatedSessions(s.sessions, key, o);
    if others != [] {
      var least := LeastInterval(others);
    }
    ChangeKeeps(s, own, Session(key, o), others, Save(s.sessions, Session(key, o)),
                OrUnset(Smallest(others, None)), LeastPower(others, 0));
  }

  /** Every update on a running modem, while NHz is not needed, is tight. */
  predicate Tight(s: State, e: Event) {
    e.Update? && IsSession(s.sessions, e.key) && s.modem.Running? && !s.nHzNeeded ==>
      UpdateTight(s, e.key, Clamp(e.options))
  }

  ghost predicate TightRun(es: seq<Event>) {
    es == [] || (TightRun(es[..|es| - 1]) && Tight(Run(es[..|es| - 1]), es[|es| - 1]))
  }

  ghost predicate AlwaysMinimal(es: seq<Event>) {
    Exact(Run(es)) && (es == [] || AlwaysMinimal(es[..|es| - 1]))
  }

  lemma UpdateStepExact(s: State, key: nat, o: Options)
    requires Inv(s) && Exact(s) && IsSession(s.sessions, key)
    ensures Exact(Step(s, Update(key, o))) <==> Tight(s, Update(key, o))
  {
    UpdateExact(s, key, Clamp(o));
  }

  lemma StepMinimal(s: State, e: Event)
    requires Inv(s) && Exact(s) && (e.Start? ==> !IsSession(s.sessions, e.key))
    ensures Exact(Step(s, e)) <==> Tight(s, e)
  {
    match e
    case Start(key, o) => StartKeeps(s, key, Clamp(o));
    case Update(key, o) =>
      if IsSession(s.sessions, key) {
        UpdateStepExact(s, key, o);
      }
    case Stop(key) =>
      if IsSession(s.sessions, key) {
        StopKeeps(s, key);
      }
    case Resume => RestartKeeps(s);
    case EngineRestart => RestartKeeps(s.(modem := Stopped));
    case NHzChanged(needed) => RestartKeeps(s.(nHzNeeded := needed));
    case _ =>
  }

  /** While NHz is not needed the modem's interval is the minimum of the sessions' throughout a run exactly
      when every update is tight. */
  lemma {:induction false} MinimalRunsExact(es: seq<Event>)
    requires NewKeys(es)
    ensures AlwaysMinimal(es) <==> TightRun(es)
  {
    if es != [] {
      var before := es[..|es| - 1];
      MinimalRunsExact(before);
      ModemFastEnough(before);
      if Exact(Run(before)) {
        StepMinimal(Run(before), es[|es| - 1]);
      }
    }
  }

  lemma OneSession(s: Session)
    ensures Smallest([s], None) == Some(s.options) && LeastPower([s], 0) == s.options.power
  {
    var none: seq<Session> := [];
    assert [s][1..] == none;
    assert Smallest(none, Some(s.options)) == Some(s.options);
    assert LeastPower(none, s.options.power) == s.options.power;
  }

  lemma TwoSessions(a: Session, b: Session)
    requires a.key < b.key && MIN_TRACKING_INTERVAL <= a.options.interval < b.options.interval
    requires a.options.power == b.options.power == 1
    ensures Step(Step(INITIAL, Start(a.key, a.options)), Start(b.key, b.options))
         == State([a, b], false, false, Running(a.options), false)
  {
    assert [a][1..] == [] && Save([a], b) == [a, b];
    OneSession(a);
    assert Step(INITIAL, Start(a.key, a.options)) == State([a], false, false, Running(a.options), false);
  }

  lemma TwoStarts(a: Session, b: Session)
    requires a == Session(1, Options(1000, 1)) && b == Session(2, Options(5000, 1))
    ensures Run([Start(1, a.options), Start(2, b.options)])
         == State([a, b], false, false, Running(a.options), false)
  {
    var es1, es2 := [Start(1, a.options)], [Start(1, a.options), Start(2, b.options)];
    assert es1[..0] == [] && es2[..1] == es1;
    assert Run([]) == INITIAL;
    TwoSessions(a, b);
    assert Run(es1) == Step(INITIAL, es1[0]);
    assert Run(es2) == Step(Run(es1), es2[1]);
  }

  lemma SlowFirst(a: Session, b: Session, slow: Session)
    requires a == Session(1, Options(1000, 1)) && b == Session(2, Options(5000, 1))
    requires slow == Session(1, Options(6000, 1))
    ensures Step(State([a, b], false, false, Running(a.options), false), Update(1, slow.options))
         == State([slow, b], false, false, Running(a.options), false)
  {
    assert a in [a, b] && [a, b][1..] == [b] && [b][1..] == [];
    assert Others([], 1) == [] && Others([b], 1) == [b] && Others([a, b], 1) == [b];
    OneSession(b);
  }

  /** Two sessions at 1000 and 5000 ms: slowing the first to 6000 ms leaves the modem at 1000 ms. */
  lemma UpdateCanWaste()
    ensures exists es :: Inv(Run(es)) && !Run(es).nHzNeeded && !Exact(Run(es))
  {
    var a, b, slow := Session(1, Options(1000, 1)), Session(2, Options(5000, 1)), Session(1, Options(6000, 1));
    var es2 := [Start(1, a.options), Start(2, b.options)];
    var es3 := es2 + [Update(1, slow.options)];
    assert es3[..2] == es2;
    TwoStarts(a, b);
    SlowFirst(a, b, slow);
    assert Run(es3) == State([slow, b], false, false, Running(a.options), false);
    ModemFastEnough(es3);
  }
}

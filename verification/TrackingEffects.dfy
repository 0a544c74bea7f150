/** Which sessions a run of tracking messages leaves, and what each message makes the modem do: told session
    by session, without the searches that compute it. */
module TrackingEffects {
  import opened Wrappers
  import opened TrackingSpec

  // ---------------------------------------------------------------- the sessions a run leaves

  /** What the clients have asked for: no faster than every 100 ms, the last word of each running session. */
  ghost function Asked(es: seq<Event>): map<nat, Options> {
    if es == [] then map[]
    else
      var before := Asked(es[..|es| - 1]);
      match es[|es| - 1]
      case Start(key, o) => before[key := Options(if o.interval < 100 then 100 else o.interval, o.power)]
      case Update(key, o) =>
        if key in before then before[key := Options(if o.interval < 100 then 100 else o.interval, o.power)] else before
      case Stop(key) => before - {key}
      case _ => before
  }

  ghost predicate Holds(ss: seq<Session>, asked: map<nat, Options>) {
    Sorted(ss) && forall t: Session :: t in ss <==> t.key in asked && asked[t.key] == t.options
  }

  lemma SaveHolds(ss: seq<Session>, asked: map<nat, Options>, key: nat, o: Options)
    requires Holds(ss, asked)
    ensures Holds(Save(ss, Session(key, o)), asked[key := o])
  {
    SaveMembers(ss, Session(key, o));
  }

  lemma HeldKeys(ss: seq<Session>, asked: map<nat, Options>, key: nat)
    requires Holds(ss, asked)
    ensures IsSession(ss, key) <==> key in asked
  {
    if key in asked {
      assert Session(key, asked[key]) in ss;
    }
  }

  lemma EraseHolds(ss: seq<Session>, asked: map<nat, Options>, key: nat)
    requires Holds(ss, asked)
    ensures Holds(Others(ss, key), asked - {key})
  {
    OthersMembers(ss, key);
  }

  lemma StepSessions(s: State, e: Event)
    ensures Step(s, e).sessions
         == match e
            case Start(key, o) => Save(s.sessions, Session(key, Clamp(o)))
            case Update(key, o) =>
              if IsSession(s.sessions, key) then Save(s.sessions, Session(key, Clamp(o))) else s.sessions
            case Stop(key) => if IsSession(s.sessions, key) then Others(s.sessions, key) else s.sessions
            case _ => s.sessions
  {
  }

  /** Over every run the session map holds exactly that. */
  lemma {:induction false} SessionsAsAsked(es: seq<Event>)
    ensures Sorted(Run(es).sessions)
    ensures forall t: Session :: t in Run(es).sessions <==> t.key in Asked(es) && Asked(es)[t.key] == t.options
  {
    if es != [] {
      var asked, ss, e := Asked(es[..|es| - 1]), Run(es[..|es| - 1]).sessions, es[|es| - 1];
      SessionsAsAsked(es[..|es| - 1]);
      assert Holds(ss, asked);
      StepSessions(Run(es[..|es| - 1]), e);
      match e {
        case Start(key, o) => SaveHolds(ss, asked, key, Clamp(o));
        case Update(key, o) =>
          HeldKeys(ss, asked, key);
          SaveHolds(ss, asked, key, Clamp(o));
        case Stop(key) =>
          HeldKeys(ss, asked, key);
          EraseHolds(ss, asked, key);
        case _ =>
      }
      assert Holds(Run(es).sessions, Asked(es));
    } else {
      assert Holds([], map[]);
    }
  }

  // ---------------------------------------------------------------- the modem and the flags

  ghost function NHzAsked(es: seq<Event>): bool {
    es != [] &&
    if es[|es| - 1].NHzChanged? then es[|es| - 1].needed else NHzAsked(es[..|es| - 1])
  }

  /** A suspension of sessions lasts until the sessions are restarted. */
  ghost function Paused(es: seq<Event>): bool {
    es != [] &&
    var before := es[..|es| - 1];
    match es[|es| - 1]
    case Suspend => Paused(before) || Asked(before) != map[]
    case Resume => false
    case EngineRestart => false
    case NHzChanged(needed) => Paused(before) && needed == NHzAsked(before)
    case _ => Paused(before)
  }

  lemma NobodyAsked(asked: map<nat, Options>, ss: seq<Session>)
    requires forall t: Session :: t in ss <==> t.key in asked && asked[t.key] == t.options
    ensures ss == [] ==> asked == map[]
  {
    forall k | k in asked
      ensures ss != []
    {
      assert Session(k, asked[k]) in ss;
    }
  }

  lemma StepFlags(s: State, e: Event)
    ensures Step(s, e).nHzNeeded == if e.NHzChanged? then e.needed else s.nHzNeeded
    ensures Step(s, e).suspended
         == match e
            case Suspend => s.suspended || s.sessions != []
            case Resume => false
            case EngineRestart => false
            case NHzChanged(needed) => s.suspended && needed == s.nHzNeeded
            case _ => s.suspended
  {
  }

  lemma {:induction false} FlagsAsAsked(es: seq<Event>)
    ensures Run(es).nHzNeeded == NHzAsked(es) && Run(es).suspended == Paused(es)
  {
    if es != [] {
      var before, s := es[..|es| - 1], Run(es[..|es| - 1]);
      FlagsAsAsked(before);
      SessionsAsAsked(before);
      NobodyAsked(Asked(before), s.sessions);
      assert s.sessions != [] ==> s.sessions[0] in s.sessions;
      StepFlags(s, es[|es| - 1]);
    }
  }

  /** A suspension of sessions stops the modem, and so does the last session's end. */
  lemma ModemStops(s: State, key: nat)
    requires Inv(s)
    ensures Step(s, Suspend).modem == Stopped || s.sessions == []
    ensures s.sessions == [] ==> Step(s, Suspend) == s && s.modem == Stopped
    ensures !Step(s, Suspend).atHighest || s.sessions == []
    ensures IsSession(s.sessions, key) && |s.sessions| == 1 ==>
              Step(s, Stop(key)).modem == Stopped && !Step(s, Stop(key)).atHighest
  {
  }

  /** What the modem runs after it is asked for some options: with NHz output needed 100 ms, asked for once. */
  lemma SendExact(s: State, o: Options)
    requires o.interval >= 100
    ensures var r := Send(s, o);
            && r == s.(modem := r.modem, atHighest := r.atHighest)
            && (!s.nHzNeeded ==> r.modem == Running(o) && r.atHighest == s.atHighest)
            && (s.nHzNeeded && s.atHighest ==> r == s)
            && (s.nHzNeeded && !s.atHighest ==>
                  r.modem == Running(Options(100, o.power)) && (r.atHighest <==> o.interval > 100))
  {
  }

  // ---------------------------------------------------------------- what is asked of the modem

  /** The options of the first session with the smallest interval: the head's, when no later one wants less,
      otherwise the first smallest of the rest, which wants less than the head. */
  ghost predicate FirstSmallest(ss: seq<Session>, o: Options) {
    ss != [] &&
    ((o == ss[0].options && LowerBound(o.interval, ss[1..]))
     || (o.interval < ss[0].options.interval && FirstSmallest(ss[1..], o)))
  }

  /** The sessions after the last one without a power mode: the search that comes to such a one begins anew, since
      zero stands for "none yet". All of them when each has a power mode. */
  ghost function Powered(ss: seq<Session>): seq<Session> {
    if exists s :: s in ss && s.options.power == 0 then Powered(ss[1..]) else ss
  }

  ghost predicate LeastOf(ss: seq<Session>, power: nat) {
    (exists s :: s in ss && s.options.power == power) && forall s :: s in ss ==> power <= s.options.power
  }

  /** The power that a start, an update and a stop find. */
  ghost predicate IsLeastPower(ss: seq<Session>, power: nat) {
    if Powered(ss) == [] then power == 0 else LeastOf(Powered(ss), power)
  }

  /** The power that a restart finds: the least there is, but none when the first session has none. */
  ghost predicate IsRestartPower(ss: seq<Session>, power: nat) {
    ss != [] &&
    if ss[0].options.power == 0 then power == 0
    else
      && power > 0 && (exists s :: s in ss && s.options.power == power)
      && forall s :: s in ss ==> s.options.power == 0 || power <= s.options.power
  }

  lemma {:induction false} SmallestFrom(ss: seq<Session>, best: Options, o: Options)
    requires (o == best && LowerBound(o.interval, ss)) || (o.interval < best.interval && FirstSmallest(ss, o))
    ensures Smallest(ss, Some(best)) == Some(o)
  {
    if ss != [] {
      var head := ss[0].options;
      assert ss[0] in ss && forall s :: s in ss[1..] ==> s in ss;
      SmallestFrom(ss[1..], if head.interval < best.interval then head else best, o);
    }
  }

  lemma SmallestFound(ss: seq<Session>, o: Options)
    requires FirstSmallest(ss, o)
    ensures Smallest(ss, None) == Some(o)
  {
    SmallestFrom(ss[1..], ss[0].options, o);
  }

  lemma {:induction false} SearchPowered(ss: seq<Session>, least: nat)
    requires exists s :: s in ss && s.options.power == 0
    ensures LeastPower(ss, least) == LeastPower(Powered(ss), 0)
  {
    var p := ss[0].options.power;
    assert forall s :: s in ss <==> s == ss[0] || s in ss[1..];
    if exists s :: s in ss[1..] && s.options.power == 0 {
      SearchPowered(ss[1..], if least == 0 || p < least then p else least);
    }
  }

  lemma {:induction false} PoweredHave(ss: seq<Session>)
    ensures forall s :: s in Powered(ss) ==> s in ss && s.options.power > 0
  {
    if exists s :: s in ss && s.options.power == 0 {
      PoweredHave(ss[1..]);
    }
  }

  lemma {:induction false} PowerFrom(ss: seq<Session>, least: nat)
    requires least > 0 && forall s :: s in ss ==> s.options.power > 0
    ensures var r := LeastPower(ss, least);
            r <= least && (forall s :: s in ss ==> r <= s.options.power)
            && (r == least || exists s :: s in ss && s.options.power == r)
  {
    if ss != [] {
      var p := ss[0].options.power;
      assert ss[0] in ss && forall s :: s in ss <==> s == ss[0] || s in ss[1..];
      PowerFrom(ss[1..], if p < least then p else least);
    }
  }

  lemma LeastUnique(ss: seq<Session>, p: nat, q: nat)
    requires LeastOf(ss, p) && LeastOf(ss, q)
    ensures p == q
  {
  }

  lemma PowerIsLeast(ss: seq<Session>)
    ensures IsLeastPower(ss, LeastPower(ss, 0))
  {
    var powered := Powered(ss);
    PoweredHave(ss);
    if exists s :: s in ss && s.options.power == 0 {
      SearchPowered(ss, 0);
    }
    if powered != [] {
      assert powered[0] in powered && forall s :: s in powered <==> s == powered[0] || s in powered[1..];
      PowerFrom(powered[1..], powered[0].options.power);
    }
  }

  lemma PowerFound(ss: seq<Session>, power: nat)
    requires IsLeastPower(ss, power)
    ensures LeastPower(ss, 0) == power
  {
    PowerIsLeast(ss);
    if Powered(ss) != [] {
      LeastUnique(Powered(ss), LeastPower(ss, 0), power);
    }
  }

  lemma {:induction false} RestartPowerFrom(ss: seq<Session>, best: Options)
    ensures var h := HighestPower(ss, Some(best));
            && h.Some? && h.value.power <= best.power
            && (best.power == 0 ==> h.value.power == 0) && (best.power > 0 ==> h.value.power > 0)
            && (best.power > 0 ==> forall s :: s in ss ==> s.options.power == 0 || h.value.power <= s.options.power)
            && (h.value == best || exists s :: s in ss && s.options == h.value)
  {
    if ss != [] {
      var o := ss[0].options;
      assert ss[0] in ss && forall s :: s in ss <==> s == ss[0] || s in ss[1..];
      RestartPowerFrom(ss[1..], if o.power != 0 && o.power < best.power then o else best);
    }
  }

  lemma RestartPowerIs(ss: seq<Session>)
    requires ss != []
    ensures IsRestartPower(ss, OrUnset(HighestPower(ss, None)).power)
  {
    assert ss[0] in ss && forall s :: s in ss <==> s == ss[0] || s in ss[1..];
    RestartPowerFrom(ss[1..], ss[0].options);
  }

  lemma RestartPowerFound(ss: seq<Session>, power: nat)
    requires IsRestartPower(ss, power)
    ensures OrUnset(HighestPower(ss, None)).power == power
  {
    RestartPowerIs(ss);
  }

  /** Given what the searches should find, they find it. */
  lemma Found(ss: seq<Session>, best: Options, power: nat)
    requires FirstSmallest(ss, best) && IsLeastPower(ss, power)
    ensures OrUnset(Smallest(ss, None)) == best && LeastPower(ss, 0) == power
  {
    SmallestFound(ss, best);
    PowerFound(ss, power);
  }

  /** There is always something to find. */
  lemma SomethingFound(ss: seq<Session>)
    requires ss != []
    ensures exists best, power :: FirstSmallest(ss, best) && IsLeastPower(ss, power)
    ensures exists best, power :: FirstSmallest(ss, best) && IsRestartPower(ss, power)
  {
    FastestExists(ss);
    PowerIsLeast(ss);
    RestartPowerIs(ss);
    var best :| FirstSmallest(ss, best);
    assert FirstSmallest(ss, best) && IsLeastPower(ss, LeastPower(ss, 0));
    assert FirstSmallest(ss, best) && IsRestartPower(ss, OrUnset(HighestPower(ss, None)).power);
  }

  lemma {:induction false} FastestExists(ss: seq<Session>)
    requires ss != []
    ensures exists best :: FirstSmallest(ss, best)
  {
    var head, rest := ss[0].options, ss[1..];
    if rest == [] {
      assert FirstSmallest(ss, head);
    } else {
      FastestExists(rest);
      var best :| FirstSmallest(rest, best);
      SmallestFound(rest, best);
      SmallestIsLeast(rest, None);
      if best.interval < head.interval {
        assert FirstSmallest(ss, best);
      } else {
        assert LowerBound(head.interval, rest);
        assert FirstSmallest(ss, head);
      }
    }
  }

  /** The modem's part of the state; the sessions and flags are those of `SessionsAsAsked` and `FlagsAsAsked`. */
  ghost predicate ModemAs(r: State, a: State) {
    r.modem == a.modem && r.atHighest == a.atHighest
  }

  function Limited(o: Options): Options {
    Options(if o.interval < 100 then 100 else o.interval, o.power)
  }

  /** The smaller interval, and the power asked for where it is less than every other, else the fastest's. */
  function Both(o: Options, best: Options, power: nat): Options {
    Options(if o.interval < best.interval then o.interval else best.interval,
            if o.power < power then o.power else best.power)
  }

  /** A start alone asks for itself. */
  lemma AloneAsks(s: State, key: nat, o: Options)
    requires s.sessions == []
    ensures ModemAs(Step(s, Start(key, o)), Send(s, Limited(o)))
    ensures ModemAs(Step(s, Resume), s.(atHighest := false))
  {
  }

  /** A start beside other sessions asks the modem exactly when it wants a smaller interval or power than all of
      them, and then for the smaller of each; the power falls back to the fastest session's. */
  lemma StartAsks(s: State, key: nat, o: Options, best: Options, power: nat)
    requires s.sessions != []
    requires FirstSmallest(s.sessions, best) && IsLeastPower(s.sessions, power)
    ensures var c := Limited(o);
            ModemAs(Step(s, Start(key, o)),
                    if c.interval < best.interval || c.power < power then Send(s, Both(c, best, power)) else s)
  {
    Found(s.sessions, best, power);
  }

  /** An update that changes something does the same against the other sessions, or asks for itself when there
      is no other. */
  lemma UpdateAsks(s: State, key: nat, o: Options, best: Options, power: nat)
    requires Sorted(s.sessions) && IsSession(s.sessions, key)
    requires var others := Others(s.sessions, key);
             others != [] ==> FirstSmallest(others, best) && IsLeastPower(others, power)
    ensures var c := Limited(o);
            ModemAs(Step(s, Update(key, o)),
                    if Session(key, c) in s.sessions then s
                    else if Others(s.sessions, key) == [] then Send(s, c)
                    else if c.interval < best.interval || c.power < power then Send(s, Both(c, best, power))
                    else s)
  {
    LookupMeans(s.sessions, key, Limited(o));
    OthersFound(s.sessions, key, best, power);
  }

  lemma OthersFound(ss: seq<Session>, key: nat, best: Options, power: nat)
    requires Sorted(ss) && IsSession(ss, key)
    requires Others(ss, key) != [] ==> FirstSmallest(Others(ss, key), best) && IsLeastPower(Others(ss, key), power)
    ensures |ss| == 1 <==> Others(ss, key) == []
    ensures Others(ss, key) != [] ==> OrUnset(Smallest(Others(ss, key), None)) == best
    ensures Others(ss, key) != [] ==> LeastPower(Others(ss, key), 0) == power
  {
    OthersMembers(ss, key);
    OthersLength(ss, key);
    if Others(ss, key) != [] {
      Found(Others(ss, key), best, power);
    }
  }

  lemma {:induction false} LookupMeans(ss: seq<Session>, key: nat, o: Options)
    requires Sorted(ss) && IsSession(ss, key)
    ensures Session(key, o) in ss <==> Lookup(ss, key) == o
  {
    assert ss == [ss[0]] + ss[1..];
    SortedTail(ss[0], ss[1..]);
    if ss[0].key != key {
      LookupMeans(ss[1..], key, o);
    }
  }

  /** A stop beside other sessions asks the modem exactly when the session wanted less than all others, and then
      for the least of theirs. */
  lemma StopAsks(s: State, key: nat, own: Options, best: Options, power: nat)
    requires Sorted(s.sessions) && Session(key, own) in s.sessions
    requires var others := Others(s.sessions, key);
             others != [] && FirstSmallest(others, best) && IsLeastPower(others, power)
    ensures ModemAs(Step(s, Stop(key)),
                    if own.interval < best.interval || own.power < power then Send(s, Options(best.interval, power))
                    else s)
  {
    LookupMeans(s.sessions, key, own);
    OthersFound(s.sessions, key, best, power);
  }

  /** A resumed suspension, an engine restart and a change of NHz output ask for the least of all. */
  lemma RestartAsks(s: State, best: Options, power: nat, needed: bool)
    requires s.sessions != []
    requires FirstSmallest(s.sessions, best) && IsRestartPower(s.sessions, power)
    ensures var o, off := Options(best.interval, power), s.(atHighest := false);
            && ModemAs(Step(s, Resume), Send(off, o))
            && ModemAs(Step(s, EngineRestart), Send(off.(modem := Stopped), o))
            && ModemAs(Step(s, NHzChanged(needed)),
                       if needed == s.nHzNeeded then s else Send(off.(nHzNeeded := needed), o))
  {
    SmallestFound(s.sessions, best);
    RestartPowerFound(s.sessions, power);
  }
}

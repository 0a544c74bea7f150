/** What every run leaves of the geofences: told key by key, without the two indexes that hold it. */
module GeofenceEffects {
  import opened GeofenceSpec

  /** A geofence as its client knows it. */
  datatype Fence = Fence(hwId: HwId, options: nat, paused: bool)

  ghost function After(before: map<Key, Fence>, e: Event): map<Key, Fence> {
    match e
    case Added(key, options, hwId) => before[key := Fence(hwId, options, false)]
    case Removed(hwId) => map k | k in before && before[k].hwId != hwId :: before[k]
    case StopClient(client) => map k | k in before && k.client != client :: before[k]
    case StopAnswered(_, _) => before
    case EngineRestart => map[]
    case Paused(hwId) =>
      map k | k in before :: if before[k].hwId == hwId then before[k].(paused := true) else before[k]
    case Resumed(hwId) =>
      map k | k in before :: if before[k].hwId == hwId then before[k].(paused := false) else before[k]
    case Modified(hwId, options) =>
      map k | k in before :: if before[k].hwId == hwId then before[k].(options := options) else before[k]
  }

  /** The geofences the clients have, by the messages alone. */
  ghost function Believed(es: seq<Event>): map<Key, Fence> {
    if es == [] then map[] else After(Believed(es[..|es| - 1]), es[|es| - 1])
  }

  /** The indexes hold exactly those. */
  ghost predicate Holds(s: State, believed: map<Key, Fence>) {
    && s.ids.Keys == believed.Keys
    && forall k :: k in s.ids ==>
         && s.ids[k] == believed[k].hwId && s.ids[k] in s.fences
         && s.fences[s.ids[k]] == Geofence(k, believed[k].options, believed[k].paused)
  }

  /** A geofence left behind whose key leads to a newer one. */
  predicate Stray(s: State, hwId: HwId) {
    hwId in s.fences && s.fences[hwId].key in s.ids && s.ids[s.fences[hwId].key] != hwId
  }

  predicate RemovesStray(s: State, e: Event) {
    e.Removed? && Stray(s, e.hwId)
  }

  lemma RemovedHolds(s: State, believed: map<Key, Fence>, hwId: HwId)
    requires Paired(s) && Holds(s, believed)
    ensures Holds(Remove(s, hwId), After(believed, Removed(hwId))) <==> !Stray(s, hwId)
  {
    var r, b := Remove(s, hwId), After(believed, Removed(hwId));
    if hwId in s.fences && s.fences[hwId].key in s.ids {
      var key := s.fences[hwId].key;
      assert forall k :: k in s.ids && s.ids[k] == hwId ==> k == key;
      assert key !in r.ids && (Stray(s, hwId) ==> key in b);
    }
  }

  lemma RestartHolds(s: State, believed: map<Key, Fence>)
    requires Paired(s) && Holds(s, believed)
    ensures Holds(Step(s, EngineRestart), map[])
  {
    assert s.fences == map[] ==> forall k :: k !in s.ids;
  }

  lemma StepHolds(s: State, believed: map<Key, Fence>, e: Event)
    requires Paired(s) && Holds(s, believed) && (e.Added? ==> Free(s, e.key, e.hwId))
    ensures Holds(Step(s, e), After(believed, e)) <==> !RemovesStray(s, e)
  {
    match e
    case Removed(hwId) => RemovedHolds(s, believed, hwId);
    case EngineRestart => RestartHolds(s, believed);
    case _ =>
  }

  ghost predicate NoStrays(es: seq<Event>) {
    es == [] || (NoStrays(es[..|es| - 1]) && !RemovesStray(Run(es[..|es| - 1]), es[|es| - 1]))
  }

  ghost predicate AlwaysHolds(es: seq<Event>) {
    Holds(Run(es), Believed(es)) && (es == [] || AlwaysHolds(es[..|es| - 1]))
  }

  /** With hardware ids given out while free, the indexes hold what the clients believe throughout exactly the
      runs that remove no stray. */
  lemma {:induction false} RunHolds(es: seq<Event>)
    requires FreeRun(es)
    ensures AlwaysHolds(es) <==> NoStrays(es)
  {
    if es != [] {
      var before := es[..|es| - 1];
      RunHolds(before);
      PairedRunsExact(before);
      if Holds(Run(before), Believed(before)) {
        StepHolds(Run(before), Believed(before), es[|es| - 1]);
      }
    }
  }

  /** Adding a key again under a new id and removing the old one takes the key from the new geofence. */
  lemma StrayRemoved() returns (es: seq<Event>)
    ensures FreeRun(es) && !Holds(Run(es), Believed(es))
  {
    var a := Key(1, 10);
    var es1, es2 := [Added(a, 0, 5)], [Added(a, 0, 5), Added(a, 0, 6)];
    es := [Added(a, 0, 5), Added(a, 0, 6), Removed(5)];
    assert es1[..0] == [] && es2[..1] == es1 && es[..2] == es2;
    assert Run([]) == INITIAL;
    assert Run(es1) == State(map[5 := Geofence(a, 0, false)], map[a := 5], {});
    assert Run(es2) == State(map[5 := Geofence(a, 0, false), 6 := Geofence(a, 0, false)], map[a := 6], {});
    assert FreeRun([]) && FreeRun(es1) && FreeRun(es2);
    assert Believed([]) == map[] && Believed(es1) == map[a := Fence(5, 0, false)];
    var before := Believed(es2);
    assert a in before && before[a] == Fence(6, 0, false);
    assert Believed(es) == After(before, Removed(5)) && a in After(before, Removed(5));
    assert Run(es) == Remove(Run(es2), 5);
    assert a !in Run(es).ids;
  }

  // ---------------------------------------------------------------- nothing is left over

  /** Every geofence has its key or is about to be removed. */
  ghost predicate NoLeftovers(s: State) {
    forall h :: h in s.fences ==> h in s.stopping || (s.fences[h].key in s.ids && s.ids[s.fences[h].key] == h)
  }

  /** A key is added again while it has a geofence, or the modem fails to remove one. */
  predicate Leaves(s: State, e: Event) {
    || (e.Added? && e.key in s.ids && s.ids[e.key] != e.hwId)
    || (e.StopAnswered? && !e.ok && e.hwId in s.stopping && e.hwId in s.fences)
  }

  lemma StepLeftovers(s: State, e: Event)
    requires Paired(s) && NoLeftovers(s) && (e.Added? ==> Free(s, e.key, e.hwId)) && !RemovesStray(s, e)
    ensures NoLeftovers(Step(s, e)) <==> !Leaves(s, e)
  {
    var r := Step(s, e);
    match e
    case Added(key, options, hwId) =>
      if key in s.ids && s.ids[key] != hwId {
        assert s.ids[key] in r.fences && r.fences[s.ids[key]].key == key;
      }
    case StopAnswered(hwId, ok) =>
      if Leaves(s, e) {
        assert hwId in r.fences && forall k :: k in s.ids ==> s.ids[k] != hwId;
      }
    case _ =>
  }

  ghost predicate TidyRun(es: seq<Event>) {
    es == [] ||
    var s, e := Run(es[..|es| - 1]), es[|es| - 1];
    && TidyRun(es[..|es| - 1])
    && !RemovesStray(s, e) && !Leaves(s, e)
  }

  /** Over runs without those no geofence is left that no client has. */
  lemma {:induction false} RunTidy(es: seq<Event>)
    requires FreeRun(es) && TidyRun(es)
    ensures NoLeftovers(Run(es))
  {
    if es != [] {
      RunTidy(es[..|es| - 1]);
      PairedRunsExact(es[..|es| - 1]);
      StepLeftovers(Run(es[..|es| - 1]), es[|es| - 1]);
    }
  }

  /** A leaving client's geofences, and only those, wait for an answer. */
  lemma StopsExact(s: State, e: Event, h: HwId)
    ensures h in Step(s, e).stopping <==>
              match e
              case StopClient(client) =>
                h in s.stopping || exists k :: k in s.ids && k.client == client && s.ids[k] == h
              case StopAnswered(hwId, _) => h in s.stopping && h != hwId
              case _ => h in s.stopping
  {
  }
}

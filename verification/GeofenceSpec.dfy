/** The geofence adapter's two indexes: from hardware id to geofence and from client key to hardware id.
    Responses of the modem come late, and the engine may restart in between. */
module GeofenceSpec {

  type HwId = nat
  type Client = nat

  datatype Key = Key(client: Client, id: nat)

  datatype Geofence = Geofence(key: Key, options: nat, paused: bool)

  /** `stopping` holds the hardware ids whose removal for a leaving client has not been answered. */
  datatype State = State(fences: map<HwId, Geofence>, ids: map<Key, HwId>, stopping: set<HwId>)

  datatype Event =
    | Added(key: Key, options: nat, hwId: HwId)
    | Removed(hwId: HwId)
    | StopClient(client: Client)
    | StopAnswered(hwId: HwId, ok: bool)
    | EngineRestart
    | Paused(hwId: HwId)
    | Resumed(hwId: HwId)
    | Modified(hwId: HwId, options: nat)

  function Save(s: State, key: Key, options: nat, hwId: HwId): State {
    s.(fences := s.fences[hwId := Geofence(key, options, false)], ids := s.ids[key := hwId])
  }

  /** Removes a geofence with its key's entry, whatever hardware id that entry holds. */
  function Remove(s: State, hwId: HwId): State {
    if hwId !in s.fences || s.fences[hwId].key !in s.ids then s
    else s.(ids := s.ids - {s.fences[hwId].key}, fences := s.fences - {hwId})
  }

  function KeysOf(s: State, client: Client): set<Key> {
    set k | k in s.ids && k.client == client
  }

  function HwIdsOf(s: State, client: Client): set<HwId> {
    set k | k in s.ids && k.client == client :: s.ids[k]
  }

  function Stop(s: State, client: Client): State {
    s.(ids := s.ids - KeysOf(s, client), stopping := s.stopping + HwIdsOf(s, client))
  }

  function Answer(s: State, hwId: HwId, ok: bool): State {
    if hwId !in s.stopping then s
    else s.(stopping := s.stopping - {hwId}, fences := if ok then s.fences - {hwId} else s.fences)
  }

  function Step(s: State, e: Event): State {
    match e
    case Added(key, options, hwId) => Save(s, key, options, hwId)
    case Removed(hwId) => Remove(s, hwId)
    case StopClient(client) => Stop(s, client)
    case StopAnswered(hwId, ok) => Answer(s, hwId, ok)
    case EngineRestart => if s.fences == map[] then s else s.(fences := map[], ids := map[])
    case Paused(hwId) =>
      if hwId in s.fences then s.(fences := s.fences[hwId := s.fences[hwId].(paused := true)]) else s
    case Resumed(hwId) =>
      if hwId in s.fences then s.(fences := s.fences[hwId := s.fences[hwId].(paused := false)]) else s
    case Modified(hwId, options) =>
      if hwId in s.fences then s.(fences := s.fences[hwId := s.fences[hwId].(options := options)]) else s
  }

  const INITIAL := State(map[], map[], {})

  function Run(es: seq<Event>): State {
    if es == [] then INITIAL else Step(Run(es[..|es| - 1]), es[|es| - 1])
  }

  // ---------------------------------------------------------------- the indexes agree

  /** Every key leads to a geofence carrying that key. */
  ghost predicate LeadsHome(s: State) {
    forall k :: k in s.ids ==> s.ids[k] in s.fences && s.fences[s.ids[k]].key == k
  }

  /** And never to one about to be removed. */
  ghost predicate Paired(s: State) {
    LeadsHome(s) && forall k :: k in s.ids ==> s.ids[k] !in s.stopping
  }

  lemma PairedIsInjective(s: State, a: Key, b: Key)
    requires Paired(s) && a in s.ids && b in s.ids && s.ids[a] == s.ids[b]
    ensures a == b
  {
    assert s.fences[s.ids[a]].key == a && s.fences[s.ids[b]].key == b;
  }

  /** The modem hands out a hardware id that no other key holds and no leaving client still waits on. */
  predicate Free(s: State, key: Key, hwId: HwId) {
    hwId !in s.stopping && forall k :: k in s.ids && k != key ==> s.ids[k] != hwId
  }

  /** An add keeps the indexes paired exactly when the hardware id is free. */
  lemma AddExact(s: State, key: Key, options: nat, hwId: HwId)
    requires Paired(s)
    ensures Paired(Save(s, key, options, hwId)) <==> Free(s, key, hwId)
  {
    var after := Save(s, key, options, hwId);
    assert key in after.ids && after.ids[key] == hwId;
    if k :| k in s.ids && k != key && s.ids[k] == hwId {
      assert after.ids[k] == hwId && after.fences[hwId].key == key;
    }
  }

  lemma StopKeepsPaired(s: State, client: Client)
    requires Paired(s)
    ensures Paired(Stop(s, client))
  {
    forall k | k in Stop(s, client).ids
      ensures s.ids[k] !in HwIdsOf(s, client)
    {
      if other :| other in s.ids && other.client == client && s.ids[other] == s.ids[k] {
        PairedIsInjective(s, k, other);
      }
    }
  }

  /** Right after an add every key leads home exactly when no other key holds the hardware id; when a leaving
      client still waits on it, the late answer will take the geofence away. */
  lemma AddThenAnswerExact(s: State, key: Key, options: nat, hwId: HwId)
    requires Paired(s)
    ensures var added := Save(s, key, options, hwId);
            && (LeadsHome(added) <==> forall k :: k in s.ids && k != key ==> s.ids[k] != hwId)
            && (LeadsHome(added) ==> (LeadsHome(Answer(added, hwId, true)) <==> hwId !in s.stopping))
            && (LeadsHome(added) && LeadsHome(Answer(added, hwId, true)) <==> Free(s, key, hwId))
  {
    AddExact(s, key, options, hwId);
    var added := Save(s, key, options, hwId);
    assert key in added.ids && added.ids[key] == hwId;
    if k :| k in s.ids && k != key && s.ids[k] == hwId {
      assert added.ids[k] == hwId && added.fences[hwId].key == key;
    }
    if hwId in s.stopping {
      assert hwId !in Answer(added, hwId, true).fences;
    }
  }

  /** A step keeps the indexes paired exactly when it adds under no id that is taken. */
  lemma StepPaired(s: State, e: Event)
    requires Paired(s)
    ensures Paired(Step(s, e)) <==> (e.Added? ==> Free(s, e.key, e.hwId))
  {
    match e {
      case Added(key, options, hwId) => AddExact(s, key, options, hwId);
      case StopClient(client) => StopKeepsPaired(s, client);
      case _ =>
    }
  }

  ghost predicate FreeRun(es: seq<Event>) {
    es == [] ||
    (&& FreeRun(es[..|es| - 1])
     && (es[|es| - 1].Added? ==> Free(Run(es[..|es| - 1]), es[|es| - 1].key, es[|es| - 1].hwId)))
  }

  ghost predicate AlwaysPaired(es: seq<Event>) {
    Paired(Run(es)) && (es == [] || AlwaysPaired(es[..|es| - 1]))
  }

  /** The indexes stay paired throughout exactly the runs that add under free ids only. */
  lemma {:induction false} PairedRunsExact(es: seq<Event>)
    ensures AlwaysPaired(es) <==> FreeRun(es)
  {
    if es != [] {
      PairedRunsExact(es[..|es| - 1]);
      if Paired(Run(es[..|es| - 1])) {
        StepPaired(Run(es[..|es| - 1]), es[|es| - 1]);
      }
    }
  }

  /** Hardware ids granted so far. */
  ghost function Granted(es: seq<Event>): set<HwId> {
    set i | 0 <= i < |es| && es[i].Added? :: es[i].hwId
  }

  /** No hardware id is ever granted twice. */
  ghost predicate NeverReused(es: seq<Event>) {
    forall i, j :: 0 <= i < j < |es| && es[i].Added? && es[j].Added? ==> es[i].hwId != es[j].hwId
  }

  ghost predicate GrantedOnly(s: State, granted: set<HwId>) {
    && (forall k :: k in s.ids ==> s.ids[k] in granted)
    && s.stopping <= granted
  }

  lemma StepGranted(s: State, e: Event, granted: set<HwId>)
    requires GrantedOnly(s, granted)
    ensures GrantedOnly(Step(s, e), granted + (if e.Added? then {e.hwId} else {}))
  {
  }

  /** When hardware ids are never reused, over every run of adds, removals, client stops with late answers
      and engine restarts each key leads to its own geofence. */
  lemma {:induction false} KeysLeadHome(es: seq<Event>)
    requires NeverReused(es)
    ensures Paired(Run(es)) && GrantedOnly(Run(es), Granted(es))
  {
    if es != [] {
      var before, e := es[..|es| - 1], es[|es| - 1];
      KeysLeadHome(before);
      assert Granted(es) == Granted(before) + (if e.Added? then {e.hwId} else {}) by {
        if e.Added? {
          assert es[|es| - 1].Added?;
        }
        assert forall i :: 0 <= i < |before| ==> before[i] == es[i];
      }
      if e.Added? {
        assert e.hwId !in Granted(before);
      }
      StepPaired(Run(before), e);
      StepGranted(Run(before), e, Granted(before));
    }
  }

  /** A late answer for a reused id deletes the geofence of another client and leaves its key dangling. */
  lemma ReuseLeavesDanglingKey()
    ensures exists es :: !Paired(Run(es)) && exists k :: k in Run(es).ids && Run(es).ids[k] !in Run(es).fences
  {
    var a, b := Key(1, 10), Key(2, 20);
    var es1 := [Added(a, 0, 5)];
    var es2 := es1 + [StopClient(1)];
    var es3 := es2 + [EngineRestart];
    var es4 := es3 + [Added(b, 0, 5)];
    var es5 := es4 + [StopAnswered(5, true)];
    assert es1[..0] == [] && es2[..1] == es1 && es3[..2] == es2 && es4[..3] == es3 && es5[..4] == es4;
    assert Run([]) == INITIAL;
    assert Run(es1) == State(map[5 := Geofence(a, 0, false)], map[a := 5], {});
    assert KeysOf(Run(es1), 1) == {a} && HwIdsOf(Run(es1), 1) == {5};
    assert Run(es2) == State(map[5 := Geofence(a, 0, false)], map[], {5});
    assert Run(es3) == State(map[], map[], {5});
    assert Run(es4) == State(map[5 := Geofence(b, 0, false)], map[b := 5], {5});
    assert Run(es5) == State(map[], map[b := 5], {});
    assert b in Run(es5).ids;
  }

  // ---------------------------------------------------------------- breach reports

  /** The ids told to one client: those of its own geofences among the hardware ids, in order. */
  function ClientIds(fences: map<HwId, Geofence>, hwIds: seq<HwId>, client: Client): seq<nat> {
    if hwIds == [] then []
    else
      var h := hwIds[|hwIds| - 1];
      ClientIds(fences, hwIds[..|hwIds| - 1], client)
      + (if h in fences && fences[h].key.client == client then [fences[h].key.id] else [])
  }

  /** Each client with a breach callback is told its ids when it has any. */
  function Breach(fences: map<HwId, Geofence>, hwIds: seq<HwId>, listeners: set<Client>): map<Client, seq<nat>> {
    map c | c in listeners && ClientIds(fences, hwIds, c) != [] :: ClientIds(fences, hwIds, c)
  }

  /** The hardware ids some keys lead to. */
  function Reported(s: State, ks: seq<Key>): (hwIds: seq<HwId>)
    requires forall k :: k in ks ==> k in s.ids
    ensures |hwIds| == |ks| && forall i :: 0 <= i < |ks| ==> hwIds[i] == s.ids[ks[i]]
  {
    seq(|ks|, i requires 0 <= i < |ks| => s.ids[ks[i]])
  }

  /** The ids of one client's keys, in order. */
  function OwnIds(ks: seq<Key>, client: Client): seq<nat> {
    if ks == [] then []
    else OwnIds(ks[..|ks| - 1], client) + (if ks[|ks| - 1].client == client then [ks[|ks| - 1].id] else [])
  }

  /** A report of any listed geofences reaches each client with exactly the ids of its own keys, in the
      order reported. */
  lemma {:induction false} BreachReachesOwners(s: State, ks: seq<Key>, c: Client)
    requires Paired(s) && forall k :: k in ks ==> k in s.ids
    ensures ClientIds(s.fences, Reported(s, ks), c) == OwnIds(ks, c)
  {
    if ks != [] {
      var front, last := ks[..|ks| - 1], ks[|ks| - 1];
      assert last in ks && s.fences[s.ids[last]].key == last;
      BreachReachesOwners(s, front, c);
      assert Reported(s, ks)[..|ks| - 1] == Reported(s, front);
    }
  }

  /** Exactly the listening clients that own a reported geofence are told, each all its ids in order. */
  lemma BreachTells(s: State, ks: seq<Key>, listeners: set<Client>, c: Client)
    requires Paired(s) && forall k :: k in ks ==> k in s.ids
    ensures var told := Breach(s.fences, Reported(s, ks), listeners);
            && (c in told <==> c in listeners && OwnIds(ks, c) != [])
            && (c in told ==> told[c] == OwnIds(ks, c))
  {
    BreachReachesOwners(s, ks, c);
  }

  function Total(fences: map<HwId, Geofence>, hwIds: seq<HwId>, clients: seq<Client>): nat {
    if clients == [] then 0
    else |ClientIds(fences, hwIds, clients[0])| + Total(fences, hwIds, clients[1..])
  }

  function Known(fences: map<HwId, Geofence>, hwIds: seq<HwId>, clients: seq<Client>): nat {
    if hwIds == [] then 0
    else
      var h := hwIds[|hwIds| - 1];
      Known(fences, hwIds[..|hwIds| - 1], clients) + (if h in fences && fences[h].key.client in clients then 1 else 0)
  }

  /** Every known geofence in the report is told exactly once: the counts over all clients add up. */
  lemma {:induction false} BreachConserves(fences: map<HwId, Geofence>, hwIds: seq<HwId>, clients: seq<Client>)
    requires forall i, j :: 0 <= i < j < |clients| ==> clients[i] != clients[j]
    ensures Total(fences, hwIds, clients) == Known(fences, hwIds, clients)
  {
    if hwIds == [] {
      TotalOfNothing(fences, clients);
    } else {
      BreachConserves(fences, hwIds[..|hwIds| - 1], clients);
      TotalNext(fences, hwIds, clients);
    }
  }

  lemma {:induction false} TotalOfNothing(fences: map<HwId, Geofence>, clients: seq<Client>)
    ensures Total(fences, [], clients) == 0
  {
    if clients != [] {
      TotalOfNothing(fences, clients[1..]);
    }
  }

  lemma {:induction false} TotalNext(fences: map<HwId, Geofence>, hwIds: seq<HwId>, clients: seq<Client>)
    requires hwIds != [] && forall i, j :: 0 <= i < j < |clients| ==> clients[i] != clients[j]
    ensures var h := hwIds[|hwIds| - 1];
            Total(fences, hwIds, clients) == Total(fences, hwIds[..|hwIds| - 1], clients)
                                             + (if h in fences && fences[h].key.client in clients then 1 else 0)
  {
    if clients != [] {
      TotalNext(fences, hwIds, clients[1..]);
    }
  }
}

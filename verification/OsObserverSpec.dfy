/** The data-item observer: a client-to-items map and an item-to-clients map that should mirror each
    other, the items subscribed with the framework, and who is told what. */
module OsObserverSpec {
  import opened SetMapSpec

  type Client = nat
  type Item = nat

  /** `framework` is the set of items subscribed with the present subscription object. */
  datatype State = State(
    items: SetMap<Client, Item>, clients: SetMap<Item, Client>, connected: bool, framework: set<Item>,
    cache: map<Item, int>)

  /** A data item and whether system status accepts it. */
  datatype DataItem = DataItem(id: Item, value: int, accepted: bool)

  datatype Event =
    | Subscribe(items: set<Item>, client: Client)
    | RequestData(items: set<Item>, client: Client)
    | UpdateSubscription(items: set<Item>, client: Client)
    | Unsubscribe(items: set<Item>, client: Client)
    | UnsubscribeAll(client: Client)
    | SetSubscriptionObj
    | Notify(data: seq<DataItem>)

  // ---------------------------------------------------------------- steps

  function OnSubscribe(s: State, items: set<Item>, client: Client, requestData: bool): State {
    var added := NewKeys(s.clients, items, {client});
    s.(clients := Add(s.clients, items, {client}),
       items := Add(s.items, {client}, items),
       framework := if s.connected && !requestData then s.framework + added else s.framework)
  }

  function OnUpdate(s: State, items: set<Item>, client: Client): State {
    var returned, left := UpdateReturn(s.items, client, items), UpdateLeft(s.items, client, items);
    var trimmed := Trim(s.clients, returned, {client});
    s.(items := Update(s.items, client, items),
       clients := Add(trimmed, left, {client}),
       framework := if s.connected
                    then s.framework + NewKeys(trimmed, left, {client}) - GoneKeys(s.clients, returned, {client})
                    else s.framework)
  }

  function OnUnsubscribe(s: State, items: set<Item>, client: Client): State {
    var unused := GoneVals(s.items, {client}, items);
    s.(items := Trim(s.items, {client}, items),
       clients := Trim(s.clients, unused, {client}),
       framework := if s.connected then s.framework - GoneKeys(s.clients, unused, {client}) else s.framework)
  }

  function OnUnsubscribeAll(s: State, client: Client): State {
    var all := ValSet(s.items, client);
    if all == {} then s
    else
      s.(items := s.items - {client},
         clients := Trim(s.clients, all, {client}),
         framework := if s.connected then s.framework - GoneKeys(s.clients, all, {client}) else s.framework)
  }

  predicate Refreshes(cache: map<Item, int>, d: DataItem) {
    d.accepted && (d.id !in cache || cache[d.id] != d.value)
  }

  function Cached(cache: map<Item, int>, d: DataItem): map<Item, int> {
    if Refreshes(cache, d) then cache[d.id := d.value] else cache
  }

  function CacheAll(cache: map<Item, int>, data: seq<DataItem>): map<Item, int> {
    if data == [] then cache else Cached(CacheAll(cache, data[..|data| - 1]), data[|data| - 1])
  }

  /** The items some data item of the notification refreshed. */
  function Updated(cache: map<Item, int>, data: seq<DataItem>): set<Item> {
    if data == [] then {}
    else
      var before, d := data[..|data| - 1], data[|data| - 1];
      Updated(cache, before) + (if Refreshes(CacheAll(cache, before), d) then {d.id} else {})
  }

  function ClientsOf(clients: SetMap<Item, Client>, items: set<Item>): set<Client> {
    set i, c | i in items && i in clients && c in clients[i] :: c
  }

  /** What each client is told: its own items that were updated, when there are any. */
  function Told(s: State, data: seq<DataItem>): map<Client, set<Item>> {
    var updated := Updated(s.cache, data);
    map c | c in ClientsOf(s.clients, updated) && ValSet(s.items, c) * updated != {} :: ValSet(s.items, c) * updated
  }

  function Step(s: State, e: Event): State {
    match e
    case Subscribe(items, client) => if items == {} then s else OnSubscribe(s, items, client, false)
    case RequestData(items, client) => if items == {} then s else OnSubscribe(s, items, client, true)
    case UpdateSubscription(items, client) => if items == {} then s else OnUpdate(s, items, client)
    case Unsubscribe(items, client) => if items == {} then s else OnUnsubscribe(s, items, client)
    case UnsubscribeAll(client) => OnUnsubscribeAll(s, client)
    case SetSubscriptionObj => s.(connected := true, framework := s.clients.Keys)
    case Notify(data) => s.(cache := CacheAll(s.cache, data))
  }

  const INITIAL := State(map[], map[], false, {}, map[])

  function Run(es: seq<Event>): State {
    if es == [] then INITIAL else Step(Run(es[..|es| - 1]), es[|es| - 1])
  }

  // ---------------------------------------------------------------- the client map is what was asked for

  /** What the interface promises each client: subscriptions add, an update replaces, unsubscribing removes. */
  ghost function Wanted(es: seq<Event>, client: Client): set<Item> {
    if es == [] then {}
    else
      var before := Wanted(es[..|es| - 1], client);
      match es[|es| - 1]
      case Subscribe(items, c) => if c == client then before + items else before
      case RequestData(items, c) => if c == client then before + items else before
      case UpdateSubscription(items, c) => if c == client && items != {} then items else before
      case Unsubscribe(items, c) => if c == client then before - items else before
      case UnsubscribeAll(c) => if c == client then {} else before
      case _ => before
  }

  lemma StepItems(s: State, e: Event, client: Client)
    ensures ValSet(Step(s, e).items, client) ==
            match e
            case Subscribe(items, c) => ValSet(s.items, client) + (if c == client then items else {})
            case RequestData(items, c) => ValSet(s.items, client) + (if c == client then items else {})
            case UpdateSubscription(items, c) =>
              if c == client && items != {} then items else ValSet(s.items, client)
            case Unsubscribe(items, c) => ValSet(s.items, client) - (if c == client then items else {})
            case UnsubscribeAll(c) => if c == client then {} else ValSet(s.items, client)
            case _ => ValSet(s.items, client)
  {
  }

  /** In every run the client map holds exactly what the interface promises. */
  lemma {:induction false} ItemsAsWanted(es: seq<Event>, client: Client)
    ensures ValSet(Run(es).items, client) == Wanted(es, client)
  {
    if es != [] {
      ItemsAsWanted(es[..|es| - 1], client);
      StepItems(Run(es[..|es| - 1]), es[|es| - 1], client);
    }
  }

  // ---------------------------------------------------------------- the two maps as transposes

  ghost predicate Transposed(s: State) {
    forall c, i :: i in ValSet(s.items, c) <==> c in ValSet(s.clients, i)
  }

  ghost predicate NoEmpties(s: State) {
    NoEmptySet(s.items) && NoEmptySet(s.clients)
  }

  lemma StepNoEmpties(s: State, e: Event)
    requires NoEmpties(s)
    ensures NoEmpties(Step(s, e))
  {
    match e {
      case Subscribe(items, client) => SubscribeNoEmpties(s, items, client);
      case RequestData(items, client) => SubscribeNoEmpties(s, items, client);
      case UpdateSubscription(items, client) =>
        var returned := UpdateReturn(s.items, client, items);
        TrimKeepsNonEmpty(s.clients, returned, {client});
        AddKeepsNonEmpty(Trim(s.clients, returned, {client}), UpdateLeft(s.items, client, items), {client});
      case Unsubscribe(items, client) =>
        TrimKeepsNonEmpty(s.items, {client}, items);
        TrimKeepsNonEmpty(s.clients, GoneVals(s.items, {client}, items), {client});
      case UnsubscribeAll(client) =>
        TrimKeepsNonEmpty(s.clients, ValSet(s.items, client), {client});
      case _ =>
    }
  }

  lemma SubscribeNoEmpties(s: State, items: set<Item>, client: Client)
    requires NoEmpties(s)
    ensures NoEmptySet(Add(s.clients, items, {client})) && NoEmptySet(Add(s.items, {client}, items))
  {
    AddKeepsNonEmpty(s.clients, items, {client});
    AddKeepsNonEmpty(s.items, {client}, items);
  }

  /** Who is listed under an item after an update: the client exactly when one of its old and new
      subscriptions, but not both, names the item. */
  lemma UpdateClients(s: State, items: set<Item>, client: Client, c: Client, i: Item)
    requires Transposed(s)
    ensures c in ValSet(OnUpdate(s, items, client).clients, i) <==>
            if c == client then (i in ValSet(s.items, c)) != (i in items) else i in ValSet(s.items, c)
  {
    var returned, left := UpdateReturn(s.items, client, items), UpdateLeft(s.items, client, items);
    TrimValSet(s.clients, returned, {client}, i);
    AddValSet(Trim(s.clients, returned, {client}), left, {client}, i);
    assert i in ValSet(s.items, c) <==> c in ValSet(s.clients, i);
  }

  /** An update keeps the maps transposed exactly when the client had no subscription before. */
  lemma UpdateExact(s: State, items: set<Item>, client: Client)
    requires Transposed(s) && items != {}
    ensures Transposed(OnUpdate(s, items, client)) <==> ValSet(s.items, client) == {}
  {
    var after := OnUpdate(s, items, client);
    if i :| i in ValSet(s.items, client) {
      UpdateClients(s, items, client, client, i);
      assert i in ValSet(after.items, client) <==> i in items;
    } else {
      forall c, i
        ensures i in ValSet(after.items, c) <==> c in ValSet(after.clients, i)
      {
        UpdateClients(s, items, client, c, i);
      }
    }
  }

  /** An update of a client that has subscriptions, by one that is not empty. */
  predicate Reupdates(s: State, e: Event) {
    e.UpdateSubscription? && e.items != {} && ValSet(s.items, e.client) != {}
  }

  lemma StepTransposed(s: State, e: Event)
    requires Transposed(s)
    ensures Transposed(Step(s, e)) <==> !Reupdates(s, e)
  {
    var after := Step(s, e);
    if e.UpdateSubscription? && e.items != {} {
      UpdateExact(s, e.items, e.client);
    } else {
      forall c, i
        ensures i in ValSet(after.items, c) <==> c in ValSet(after.clients, i)
      {
        assert i in ValSet(s.items, c) <==> c in ValSet(s.clients, i);
        StepItems(s, e, c);
        match e {
          case Unsubscribe(items, client) => TrimValSet(s.clients, GoneVals(s.items, {client}, items), {client}, i);
          case UnsubscribeAll(client) => TrimValSet(s.clients, ValSet(s.items, client), {client}, i);
          case _ =>
        }
      }
    }
  }

  /** Updates that are not empty only ever come from clients that have no subscription at the time. */
  ghost predicate FirstUpdates(es: seq<Event>) {
    es == [] ||
    (&& FirstUpdates(es[..|es| - 1])
     && (es[|es| - 1].UpdateSubscription? && es[|es| - 1].items != {} ==>
           Wanted(es[..|es| - 1], es[|es| - 1].client) == {}))
  }

  ghost predicate AlwaysTransposed(es: seq<Event>) {
    Transposed(Run(es)) && (es == [] || AlwaysTransposed(es[..|es| - 1]))
  }

  /** No run leaves an empty set in the maps, and they are transposes throughout exactly the runs of first
      updates. */
  lemma {:induction false} MapsStayTransposed(es: seq<Event>)
    ensures NoEmpties(Run(es))
    ensures AlwaysTransposed(es) <==> FirstUpdates(es)
  {
    if es != [] {
      var before, e := es[..|es| - 1], es[|es| - 1];
      MapsStayTransposed(before);
      if e.UpdateSubscription? {
        ItemsAsWanted(before, e.client);
      }
      StepNoEmpties(Run(before), e);
      if Transposed(Run(before)) {
        StepTransposed(Run(before), e);
      }
    }
  }

  // ---------------------------------------------------------------- the framework's subscriptions

  ghost predicate FrameworkSubset(s: State) {
    s.framework <= s.clients.Keys && (!s.connected ==> s.framework == {})
  }

  /** A request for data names no item that is new while a subscription object is set. */
  ghost predicate NoBlindRequest(s: State, e: Event) {
    e.RequestData? && s.connected ==> e.items <= s.clients.Keys
  }

  ghost predicate NoBlindRequests(es: seq<Event>) {
    es == [] || (NoBlindRequests(es[..|es| - 1]) && NoBlindRequest(Run(es[..|es| - 1]), es[|es| - 1]))
  }

  lemma StepFramework(s: State, e: Event)
    requires FrameworkSubset(s)
    ensures FrameworkSubset(Step(s, e))
    ensures (s.connected ==> s.framework == s.clients.Keys) ==>
              ((Step(s, e).connected ==> Step(s, e).framework == Step(s, e).clients.Keys) <==> NoBlindRequest(s, e))
  {
    match e {
      case UpdateSubscription(items, client) =>
        var returned, left := UpdateReturn(s.items, client, items), UpdateLeft(s.items, client, items);
        assert returned !! left;
        var trimmed := Trim(s.clients, returned, {client});
        assert trimmed.Keys == s.clients.Keys - GoneKeys(s.clients, returned, {client});
      case Unsubscribe(items, client) =>
        var unused := GoneVals(s.items, {client}, items);
        assert Trim(s.clients, unused, {client}).Keys == s.clients.Keys - GoneKeys(s.clients, unused, {client});
      case UnsubscribeAll(client) =>
        var all := ValSet(s.items, client);
        assert Trim(s.clients, all, {client}).Keys == s.clients.Keys - GoneKeys(s.clients, all, {client});
      case _ =>
    }
  }

  /** In every run the framework is subscribed to no item without clients; once a subscription object is
      set it is subscribed to every item with clients, unless data was requested blindly. */
  lemma {:induction false} FrameworkFollowsClients(es: seq<Event>)
    ensures FrameworkSubset(Run(es))
    ensures NoBlindRequests(es) && Run(es).connected ==> Run(es).framework == Run(es).clients.Keys
  {
    if es != [] {
      FrameworkFollowsClients(es[..|es| - 1]);
      StepFramework(Run(es[..|es| - 1]), es[|es| - 1]);
    }
  }

  // ---------------------------------------------------------------- notifications

  lemma {:induction false} UpdatedAreCached(cache: map<Item, int>, data: seq<DataItem>)
    ensures Updated(cache, data) <= CacheAll(cache, data).Keys
    ensures cache.Keys <= CacheAll(cache, data).Keys
  {
    if data != [] {
      UpdatedAreCached(cache, data[..|data| - 1]);
    }
  }

  /** With transposed maps, the clients told are exactly those that want some updated item, and each is
      told exactly its updated items. */
  lemma NotifyExact(s: State, data: seq<DataItem>, c: Client)
    requires Transposed(s)
    ensures c in Told(s, data) <==> ValSet(s.items, c) * Updated(s.cache, data) != {}
    ensures c in Told(s, data) ==> Told(s, data)[c] == ValSet(s.items, c) * Updated(s.cache, data)
  {
    var updated := Updated(s.cache, data);
    if i :| i in ValSet(s.items, c) * updated {
      assert c in ValSet(s.clients, i);
    }
  }

  /** Over every run whose updates are first subscriptions, exactly the clients that asked for some updated
      item are told, each exactly those items. */
  lemma NewsReachesWho(es: seq<Event>, data: seq<DataItem>, c: Client)
    requires FirstUpdates(es)
    ensures c in Told(Run(es), data) <==> Wanted(es, c) * Updated(Run(es).cache, data) != {}
    ensures c in Told(Run(es), data) ==> Told(Run(es), data)[c] == Wanted(es, c) * Updated(Run(es).cache, data)
  {
    MapsStayTransposed(es);
    ItemsAsWanted(es, c);
    NotifyExact(Run(es), data, c);
  }

  lemma UpdatedRun() returns (es: seq<Event>)
    ensures ValSet(Run(es).items, 7) == {2, 3} && 2 !in Run(es).clients && Run(es).cache == map[]
  {
    var es1 := [Subscribe({1, 2}, 7)];
    es := es1 + [UpdateSubscription({2, 3}, 7)];
    assert es1[..0] == [] && es[..1] == es1;
    assert Run([]) == INITIAL;
    var first := Step(INITIAL, es1[0]);
    assert Run(es1) == first && Run(es) == OnUpdate(first, {2, 3}, 7);
    assert ValSet(first.items, 7) == {1, 2} && 2 in first.clients && first.clients[2] == {7};
    assert UpdateReturn(first.items, 7, {2, 3}) == {2};
    assert 2 !in Trim(first.clients, {2}, {7});
  }

  /** After an update from items 1 and 2 to items 2 and 3, news of item 2 does not reach the client. */
  lemma UpdateMissesNews()
    ensures exists es, data, c ::
              ValSet(Run(es).items, c) * Updated(Run(es).cache, data) != {} && c !in Told(Run(es), data)
  {
    var es := UpdatedRun();
    var s, data := Run(es), [DataItem(2, 0, true)];
    assert data[..0] == [];
    assert Updated(s.cache, data) == {2};
    assert 2 in ValSet(s.items, 7) * Updated(s.cache, data);
    assert 7 !in Told(s, data);
  }
}

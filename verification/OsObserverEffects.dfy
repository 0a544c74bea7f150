/** What counts as news, and what the framework is subscribed to, without the cache and the container that
    compute it. */
module OsObserverEffects {
  import opened Wrappers
  import opened SetMapSpec
  import opened OsObserverSpec

  // ---------------------------------------------------------------- news

  function Known(cache: map<Item, int>, id: Item): Option<int> {
    if id in cache then Some(cache[id]) else None
  }

  /** The value system status accepted last for an item, starting from what was known. */
  function LastAccepted(known: Option<int>, data: seq<DataItem>, id: Item): Option<int> {
    if data == [] then known
    else
      var d := data[|data| - 1];
      if d.id == id && d.accepted then Some(d.value) else LastAccepted(known, data[..|data| - 1], id)
  }

  /** The notification changes the item: some accepted value differs from the last one accepted before it. */
  ghost predicate IsNews(known: Option<int>, data: seq<DataItem>, id: Item) {
    exists k :: 0 <= k < |data| && data[k].id == id && data[k].accepted
             && LastAccepted(known, data[..k], id) != Some(data[k].value)
  }

  lemma {:induction false} CacheExact(cache: map<Item, int>, data: seq<DataItem>, id: Item)
    ensures Known(CacheAll(cache, data), id) == LastAccepted(Known(cache, id), data, id)
  {
    if data != [] {
      CacheExact(cache, data[..|data| - 1], id);
    }
  }

  lemma NewsNext(known: Option<int>, data: seq<DataItem>, d: DataItem, id: Item)
    ensures IsNews(known, data + [d], id) <==>
              IsNews(known, data, id)
              || (d.id == id && d.accepted && LastAccepted(known, data, id) != Some(d.value))
  {
    var all := data + [d];
    assert all[|data|] == d && all[..|data|] == data;
    assert forall k :: 0 <= k < |data| ==> all[k] == data[k] && all[..k] == data[..k];
  }

  /** What the notification updates is exactly the news. */
  lemma {:induction false} UpdatedExact(cache: map<Item, int>, data: seq<DataItem>, id: Item)
    ensures id in Updated(cache, data) <==> IsNews(Known(cache, id), data, id)
  {
    if data != [] {
      var front, d := data[..|data| - 1], data[|data| - 1];
      UpdatedExact(cache, front, id);
      CacheExact(cache, front, id);
      NewsNext(Known(cache, id), front, d, id);
      assert data == front + [d];
    }
  }

  /** The value accepted last for an item in all notifications of a run. */
  ghost function LastHeard(es: seq<Event>, id: Item): Option<int> {
    if es == [] then None
    else
      var before := LastHeard(es[..|es| - 1], id);
      match es[|es| - 1]
      case Notify(data) => LastAccepted(before, data, id)
      case _ => before
  }

  lemma {:induction false} CacheAsHeard(es: seq<Event>, id: Item)
    ensures Known(Run(es).cache, id) == LastHeard(es, id)
  {
    if es != [] {
      CacheAsHeard(es[..|es| - 1], id);
      if es[|es| - 1].Notify? {
        CacheExact(Run(es[..|es| - 1]).cache, es[|es| - 1].data, id);
      }
    }
  }

  /** After every run of first updates a notification reaches exactly the clients that asked for some item that
      is news, and tells each exactly those; the cache then holds what was accepted last. */
  lemma NewsReachesAskers(es: seq<Event>, data: seq<DataItem>, c: Client, id: Item)
    requires FirstUpdates(es)
    ensures c in Told(Run(es), data) <==> exists i :: i in Wanted(es, c) && IsNews(LastHeard(es, i), data, i)
    ensures c in Told(Run(es), data) ==>
              (id in Told(Run(es), data)[c] <==> id in Wanted(es, c) && IsNews(LastHeard(es, id), data, id))
    ensures Known(Step(Run(es), Notify(data)).cache, id) == LastAccepted(LastHeard(es, id), data, id)
  {
    NewsReachesWho(es, data, c);
    forall i: Item
      ensures i in Updated(Run(es).cache, data) <==> IsNews(LastHeard(es, i), data, i)
    {
      CacheAsHeard(es, i);
      UpdatedExact(Run(es).cache, data, i);
    }
    CacheAsHeard(es, id);
    CacheExact(Run(es).cache, data, id);
    if i :| i in Wanted(es, c) && IsNews(LastHeard(es, i), data, i) {
      assert i in Wanted(es, c) * Updated(Run(es).cache, data);
    }
  }

  // ---------------------------------------------------------------- the framework

  lemma {:induction false} ConnectedOnce(es: seq<Event>)
    ensures Run(es).connected <==> SetSubscriptionObj in es
  {
    if es != [] {
      ConnectedOnce(es[..|es| - 1]);
      assert es == es[..|es| - 1] + [es[|es| - 1]];
    }
  }

  /** Setting a subscription object subscribes every item with clients; every other message, once there is one,
      drops the items left without clients and adds those that have their first, but for requests of data,
      which add none. */
  lemma StepSubscribes(s: State, e: Event)
    requires FrameworkSubset(s)
    ensures var r := Step(s, e);
            if e.SetSubscriptionObj? then r.framework == r.clients.Keys
            else if s.connected && !e.RequestData?
            then r.framework == (s.framework * r.clients.Keys) + (r.clients.Keys - s.clients.Keys)
            else r.framework == s.framework
  {
    match e {
      case UpdateSubscription(items, client) =>
        var returned, left := UpdateReturn(s.items, client, items), UpdateLeft(s.items, client, items);
        var trimmed := Trim(s.clients, returned, {client});
        assert trimmed.Keys == s.clients.Keys - GoneKeys(s.clients, returned, {client});
      case Unsubscribe(items, client) =>
        var unused := GoneVals(s.items, {client}, items);
        assert Trim(s.clients, unused, {client}).Keys == s.clients.Keys - GoneKeys(s.clients, unused, {client});
      case UnsubscribeAll(client) =>
        var all := ValSet(s.items, client);
        assert Trim(s.clients, all, {client}).Keys == s.clients.Keys - GoneKeys(s.clients, all, {client});
      case _ =>
    }
  }
}

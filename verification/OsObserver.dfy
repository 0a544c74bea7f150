/** The data-item observer as an object: messages that update the two containers and the cache in place.
    Every message is proved to be a step of OsObserverSpec. */
module OsObserver {
  import opened SetMapSpec
  import opened SetMapClass
  import opened OsObserverSpec

  class SystemStatusOsObserver {
    const clientToItems: LocUnorderedSetMap<Client, Item>
    const itemToClients: LocUnorderedSetMap<Item, Client>
    var connected: bool
    var cache: map<Item, int>
    ghost var framework: set<Item>

    ghost predicate Valid() {
      clientToItems != itemToClients
    }

    ghost function View(): State
      reads this, clientToItems, itemToClients
    {
      State(clientToItems.entries, itemToClients.entries, connected, framework, cache)
    }

    constructor ()
      ensures Valid() && View() == INITIAL
      ensures fresh(clientToItems) && fresh(itemToClients)
    {
      clientToItems := new LocUnorderedSetMap<Client, Item>();
      itemToClients := new LocUnorderedSetMap<Item, Client>();
      connected := false;
      cache := map[];
      framework := {};
    }

    method SetSubscriptionObj()
      modifies this
      ensures View() == Step(old(View()), OsObserverSpec.SetSubscriptionObj)
    {
      connected := true;
      framework := itemToClients.entries.Keys;
    }

    method Subscribe(items: set<Item>, client: Client, requestData: bool)
      requires Valid()
      modifies this, clientToItems, itemToClients
      ensures View() == Step(old(View()), if requestData then RequestData(items, client)
                                          else OsObserverSpec.Subscribe(items, client))
    {
      if items == {} {
        return;
      }
      var toSubscribe := itemToClients.Add(items, {client});
      var _ := clientToItems.Add({client}, items);
      if connected && !requestData {
        framework := framework + toSubscribe;
      }
    }

    method UpdateSubscription(items: set<Item>, client: Client)
      requires Valid()
      modifies this, clientToItems, itemToClients
      ensures View() == Step(old(View()), OsObserverSpec.UpdateSubscription(items, client))
    {
      if items == {} {
        return;
      }
      var returned, left := clientToItems.Update(client, items);
      var toUnsubscribe, _ := itemToClients.TrimOrRemove(returned, {client});
      var toSubscribe := itemToClients.Add(left, {client});
      if connected {
        framework := framework + toSubscribe;
        framework := framework - toUnsubscribe;
      }
    }

    method Unsubscribe(items: set<Item>, client: Client)
      requires Valid()
      modifies this, clientToItems, itemToClients
      ensures View() == Step(old(View()), OsObserverSpec.Unsubscribe(items, client))
    {
      if items == {} {
        return;
      }
      var _, unused := clientToItems.TrimOrRemove({client}, items);
      var toUnsubscribe, _ := itemToClients.TrimOrRemove(unused, {client});
      if connected {
        framework := framework - toUnsubscribe;
      }
    }

    method UnsubscribeAll(client: Client)
      requires Valid()
      modifies this, clientToItems, itemToClients
      ensures View() == Step(old(View()), OsObserverSpec.UnsubscribeAll(client))
    {
      var all := clientToItems.GetValSet(client);
      if all != {} {
        clientToItems.Remove(client);
        var toUnsubscribe, _ := itemToClients.TrimOrRemove(all, {client});
        if connected {
          framework := framework - toUnsubscribe;
        }
      }
    }

    method UpdateCache(d: DataItem) returns (updated: bool)
      modifies this`cache
      ensures cache == Cached(old(cache), d) && updated == Refreshes(old(cache), d)
    {
      updated := false;
      if d.accepted {
        if d.id !in cache {
          cache := cache[d.id := d.value];
          updated := true;
        } else if cache[d.id] != d.value {
          cache := cache[d.id := d.value];
          updated := true;
        }
      }
    }

    /** The clients under any of the items. */
    method CollectClients(updated: set<Item>) returns (clients: set<Client>)
      ensures clients == ClientsOf(itemToClients.entries, updated)
    {
      clients := {};
      var left := updated;
      while left != {}
        invariant left <= updated
        invariant clients == ClientsOf(itemToClients.entries, updated - left)
        decreases left
      {
        var i :| i in left;
        assert updated - (left - {i}) == updated - left + {i};
        if i in itemToClients.entries {
          clients := clients + itemToClients.entries[i];
        }
        left := left - {i};
      }
      assert updated - left == updated;
    }

    method Notify(data: seq<DataItem>) returns (told: map<Client, set<Item>>)
      modifies this`cache
      ensures View() == Step(old(View()), OsObserverSpec.Notify(data))
      ensures told == Told(old(View()), data)
    {
      var updated := {};
      var k := 0;
      while k < |data|
        invariant 0 <= k <= |data|
        invariant cache == CacheAll(old(cache), data[..k])
        invariant updated == Updated(old(cache), data[..k])
      {
        assert data[..k + 1][..k] == data[..k];
        var refreshed := UpdateCache(data[k]);
        if refreshed {
          updated := updated + {data[k].id};
        }
        k := k + 1;
      }
      assert data[..k] == data;
      UpdatedAreCached(old(cache), data);

      told := Deliver(updated);
    }

    /** Sends each client its updated items from the cache. */
    method Deliver(updated: set<Item>) returns (told: map<Client, set<Item>>)
      requires updated <= cache.Keys
      ensures told == map c | c in ClientsOf(itemToClients.entries, updated)
                              && ValSet(clientToItems.entries, c) * updated != {} ::
                        ValSet(clientToItems.entries, c) * updated
    {
      var clients := CollectClients(updated);
      told := map[];
      var left := clients;
      while left != {}
        invariant left <= clients
        invariant told == map c | c in clients - left && ValSet(clientToItems.entries, c) * updated != {} ::
                            ValSet(clientToItems.entries, c) * updated
        decreases left
      {
        var c :| c in left;
        var wanted := clientToItems.GetValSet(c);
        var forClient := SendCached(KeepOnly(wanted, updated));
        if forClient != {} {
          told := told[c := forClient];
        }
        left := left - {c};
      }
    }

    /** The items a client asked for that are among the updated ones. */
    function KeepOnly(wanted: set<Item>, updated: set<Item>): set<Item> {
      wanted * updated
    }

    /** Only items in the cache can be sent. */
    function SendCached(items: set<Item>): (sent: set<Item>)
      reads this
      ensures items <= cache.Keys ==> sent == items
    {
      set i | i in items && i in cache
    }
  }
}

/** The geofence adapter as an object: two maps edited by commands and late modem responses, and breach
    reports that fill an array for each client. */
module GeofenceAdapterModel {
  import opened GeofenceSpec

  class GeofenceAdapter {
    var fences: map<HwId, Geofence>
    var ids: map<Key, HwId>
    var stopping: set<HwId>

    ghost function View(): State
      reads this
    {
      State(fences, ids, stopping)
    }

    constructor ()
      ensures View() == INITIAL
    {
      fences, ids, stopping := map[], map[], {};
    }

    method SaveGeofenceItem(key: Key, options: nat, hwId: HwId)
      modifies this
      ensures View() == Step(old(View()), Added(key, options, hwId))
    {
      fences := fences[hwId := Geofence(key, options, false)];
      ids := ids[key := hwId];
    }

    method RemoveGeofenceItem(hwId: HwId)
      modifies this
      ensures View() == Step(old(View()), Removed(hwId))
    {
      if hwId in fences {
        var key := fences[hwId].key;
        if key in ids {
          ids := ids - {key};
          fences := fences - {hwId};
        }
      }
    }

    /** Erases the client's keys while walking the map and asks for each removal. */
    method StopClientSessions(client: Client)
      modifies this
      ensures View() == Step(old(View()), StopClient(client))
    {
      var left := ids.Keys;
      while left != {}
        invariant left <= old(ids).Keys
        invariant fences == old(fences)
        invariant ids == map k | k in old(ids) && (k in left || k.client != client) :: old(ids)[k]
        invariant stopping == old(stopping) + set k | k in old(ids) && k !in left && k.client == client :: old(ids)[k]
        decreases left
      {
        var key :| key in left;
        var hwId := ids[key];
        if key.client == client {
          ids := ids - {key};
          stopping := stopping + {hwId};
        }
        left := left - {key};
      }
    }

    /** The answer to one of those requests; an answer nobody waits for is not modelled. */
    method OnStopAnswered(hwId: HwId, ok: bool)
      requires hwId in stopping
      modifies this
      ensures View() == Step(old(View()), StopAnswered(hwId, ok))
    {
      stopping := stopping - {hwId};
      if ok {
        if hwId in fences {
          fences := fences - {hwId};
        }
      }
    }

    /** Forgets everything and returns what to add again under new hardware ids. */
    method RestartGeofences() returns (again: map<HwId, Geofence>)
      modifies this
      ensures View() == Step(old(View()), EngineRestart) && again == old(fences)
    {
      again := fences;
      if fences == map[] {
        return;
      }
      fences := map[];
      ids := map[];
    }

    method PauseGeofenceItem(hwId: HwId)
      modifies this
      ensures View() == Step(old(View()), Paused(hwId))
    {
      if hwId in fences {
        fences := fences[hwId := fences[hwId].(paused := true)];
      }
    }

    method ResumeGeofenceItem(hwId: HwId)
      modifies this
      ensures View() == Step(old(View()), Resumed(hwId))
    {
      if hwId in fences {
        fences := fences[hwId := fences[hwId].(paused := false)];
      }
    }

    method ModifyGeofenceItem(hwId: HwId, options: nat)
      modifies this
      ensures View() == Step(old(View()), Modified(hwId, options))
    {
      if hwId in fences {
        fences := fences[hwId := fences[hwId].(options := options)];
      }
    }

    /** Fills an array with the client's ids. */
    method CollectIds(hwIds: seq<HwId>, client: Client) returns (found: seq<nat>)
      ensures found == ClientIds(fences, hwIds, client)
    {
      var clientIds := new nat[|hwIds|];
      var index, i := 0, 0;
      while i < |hwIds|
        invariant 0 <= index <= i <= |hwIds|
        invariant clientIds[..index] == ClientIds(fences, hwIds[..i], client)
      {
        assert hwIds[..i + 1][..i] == hwIds[..i];
        if hwIds[i] in fences {
          var key := fences[hwIds[i]].key;
          if key.client == client {
            clientIds[index] := key.id;
            index := index + 1;
          }
        }
        i := i + 1;
      }
      assert hwIds[..i] == hwIds;
      found := clientIds[..index];
    }

    method GeofenceBreach(hwIds: seq<HwId>, listeners: set<Client>) returns (told: map<Client, seq<nat>>)
      ensures told == Breach(fences, hwIds, listeners)
    {
      told := map[];
      var left := listeners;
      while left != {}
        invariant left <= listeners
        invariant told == map c | c in listeners - left && ClientIds(fences, hwIds, c) != [] ::
                            ClientIds(fences, hwIds, c)
        decreases left
      {
        var client :| client in left;
        var clientIds := CollectIds(hwIds, client);
        if |clientIds| > 0 {
          told := told[client := clientIds];
        }
        left := left - {client};
      }
    }
  }
}

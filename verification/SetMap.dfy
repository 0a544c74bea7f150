/** The container as an object: loops over unordered sets that insert into and erase from the map. */
module SetMapClass {
  import opened SetMapSpec

  class LocUnorderedSetMap<K(==), V(==)> {
    var entries: SetMap<K, V>

    constructor ()
      ensures entries == map[]
    {
      entries := map[];
    }

    method GetValSet(key: K) returns (vals: set<V>)
      ensures vals == ValSet(entries, key)
    {
      vals := if key in entries then entries[key] else {};
    }

    method Remove(key: K)
      modifies this
      ensures entries == old(entries) - {key}
    {
      entries := entries - {key};
    }

    method AddOne(key: K, vals: set<V>) returns (added: bool)
      modifies this
      ensures entries == SetMapSpec.Add(old(entries), {key}, vals)
      ensures added == (vals != {} && key !in old(entries))
    {
      added := false;
      if vals != {} {
        if key in entries {
          entries := entries[key := entries[key] + vals];
        } else {
          assert {} + vals == vals;
          entries := entries[key := vals];
          added := true;
        }
      }
    }

    method Add(keys: set<K>, vals: set<V>) returns (newKeys: set<K>)
      modifies this
      ensures entries == SetMapSpec.Add(old(entries), keys, vals)
      ensures newKeys == NewKeys(old(entries), keys, vals)
    {
      newKeys := {};
      var left := keys;
      while left != {}
        invariant left <= keys
        invariant entries == SetMapSpec.Add(old(entries), keys - left, vals)
        invariant newKeys == NewKeys(old(entries), keys - left, vals)
        decreases left
      {
        var key :| key in left;
        assert keys - (left - {key}) == keys - left + {key};
        var added := AddOne(key, vals);
        if added {
          newKeys := newKeys + {key};
        }
        left := left - {key};
      }
      assert keys - left == keys;
    }

    /** Trims one entry; an entry left empty is erased. */
    method TrimOne(key: K, vals: set<V>) returns (gone: bool, goneVals: set<V>)
      requires key in entries
      modifies this
      ensures entries == Trim(old(entries), {key}, vals)
      ensures gone == (old(entries)[key] <= vals) && goneVals == old(entries)[key] * vals
    {
      goneVals := entries[key] * vals;
      entries := entries[key := entries[key] - vals];
      ghost var before := old(entries)[key];
      assert before - vals == {} <==> before <= vals by {
        assert forall v :: v in before && v !in vals ==> v in before - vals;
      }
      gone := entries[key] == {};
      if gone {
        entries := entries - {key};
      }
    }

    method TrimOrRemove(keys: set<K>, vals: set<V>) returns (goneKeys: set<K>, goneVals: set<V>)
      modifies this
      ensures entries == Trim(old(entries), keys, vals)
      ensures goneKeys == GoneKeys(old(entries), keys, vals)
      ensures goneVals == GoneVals(old(entries), keys, vals)
    {
      goneKeys, goneVals := {}, {};
      var left := keys;
      while left != {}
        invariant left <= keys
        invariant entries == Trim(old(entries), keys - left, vals)
        invariant goneKeys == GoneKeys(old(entries), keys - left, vals)
        invariant goneVals == GoneVals(old(entries), keys - left, vals)
        decreases left
      {
        var key :| key in left;
        assert keys - (left - {key}) == keys - left + {key};
        if key in entries {
          var gone, trimmed := TrimOne(key, vals);
          if gone {
            goneKeys := goneKeys + {key};
          }
          goneVals := goneVals + trimmed;
        }
        left := left - {key};
      }
      assert keys - left == keys;
    }

    /** Walks the new values, moving those already present out of both sets. */
    method Update(key: K, vals: set<V>) returns (returned: set<V>, left: set<V>)
      modifies this
      ensures entries == SetMapSpec.Update(old(entries), key, vals)
      ensures returned == UpdateReturn(old(entries), key, vals)
      ensures left == UpdateLeft(old(entries), key, vals)
    {
      if vals == {} {
        entries := entries - {key};
        return {}, {};
      }
      var current := if key in entries then entries[key] else {};
      entries := entries[key := vals];
      returned, left := {}, vals;
      var walk := vals;
      while walk != {}
        invariant walk <= vals
        invariant returned == ValSet(old(entries), key) * (vals - walk)
        invariant current == ValSet(old(entries), key) - returned && left == vals - returned
        decreases walk
      {
        var val :| val in walk;
        if val in current {
          returned := returned + {val};
          current := current - {val};
          left := left - {val};
        }
        walk := walk - {val};
      }
    }
  }
}

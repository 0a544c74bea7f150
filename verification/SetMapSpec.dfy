/** A map from keys to non-empty sets: what each operation of the paired-index container does. */
module SetMapSpec {

  type SetMap<K, V> = map<K, set<V>>

  function ValSet<K, V>(m: SetMap<K, V>, k: K): set<V> {
    if k in m then m[k] else {}
  }

  function Add<K, V>(m: SetMap<K, V>, keys: set<K>, vals: set<V>): SetMap<K, V> {
    if vals == {} then m
    else map k | k in m.Keys + keys :: if k in keys then ValSet(m, k) + vals else m[k]
  }

  function NewKeys<K, V>(m: SetMap<K, V>, keys: set<K>, vals: set<V>): set<K> {
    if vals == {} then {} else keys - m.Keys
  }

  /** Entries emptied by the trim are removed. */
  function Trim<K, V>(m: SetMap<K, V>, keys: set<K>, vals: set<V>): SetMap<K, V> {
    map k | k in m && !(k in keys && m[k] <= vals) :: if k in keys then m[k] - vals else m[k]
  }

  function GoneKeys<K, V>(m: SetMap<K, V>, keys: set<K>, vals: set<V>): set<K> {
    set k | k in m && k in keys && m[k] <= vals
  }

  function GoneVals<K, V>(m: SetMap<K, V>, keys: set<K>, vals: set<V>): set<V> {
    set k, v | k in m && k in keys && v in m[k] && v in vals :: v
  }

  /** Despite its description, the container's update returns the values that stay, not those that go. */
  function UpdateReturn<K, V>(m: SetMap<K, V>, k: K, vals: set<V>): set<V> {
    ValSet(m, k) * vals
  }

  function UpdateLeft<K, V>(m: SetMap<K, V>, k: K, vals: set<V>): set<V> {
    vals - ValSet(m, k)
  }

  function Update<K, V>(m: SetMap<K, V>, k: K, vals: set<V>): SetMap<K, V> {
    if vals == {} then m - {k} else m[k := vals]
  }

  ghost predicate NoEmptySet<K(!new), V>(m: SetMap<K, V>) {
    forall k :: k in m ==> m[k] != {}
  }

  lemma AddKeepsNonEmpty<K(!new), V>(m: SetMap<K, V>, keys: set<K>, vals: set<V>)
    requires NoEmptySet(m)
    ensures NoEmptySet(Add(m, keys, vals))
  {
    if vals != {} {
      var v :| v in vals;
      forall k | k in Add(m, keys, vals)
        ensures Add(m, keys, vals)[k] != {}
      {
        assert k in keys ==> v in Add(m, keys, vals)[k];
      }
    }
  }

  lemma TrimKeepsNonEmpty<K(!new), V>(m: SetMap<K, V>, keys: set<K>, vals: set<V>)
    requires NoEmptySet(m)
    ensures NoEmptySet(Trim(m, keys, vals))
  {
    forall k | k in Trim(m, keys, vals)
      ensures Trim(m, keys, vals)[k] != {}
    {
      if k in keys {
        var v :| v in m[k] && v !in vals;
        assert v in Trim(m, keys, vals)[k];
      }
    }
  }

  lemma AddValSet<K, V>(m: SetMap<K, V>, keys: set<K>, vals: set<V>, k: K)
    ensures ValSet(Add(m, keys, vals), k) == if k in keys then ValSet(m, k) + vals else ValSet(m, k)
  {
  }

  lemma TrimValSet<K, V>(m: SetMap<K, V>, keys: set<K>, vals: set<V>, k: K)
    ensures ValSet(Trim(m, keys, vals), k) == if k in keys then ValSet(m, k) - vals else ValSet(m, k)
  {
  }

  /** The keys given back are those that appeared or vanished, the values those some key really lost. */
  lemma GivenBack<K(!new), V(!new)>(m: SetMap<K, V>, keys: set<K>, vals: set<V>)
    ensures NewKeys(m, keys, vals) == Add(m, keys, vals).Keys - m.Keys
    ensures GoneKeys(m, keys, vals) == m.Keys - Trim(m, keys, vals).Keys
    ensures forall v :: v in GoneVals(m, keys, vals) <==>
              exists k :: v in ValSet(m, k) && v !in ValSet(Trim(m, keys, vals), k)
  {
    forall v | v in GoneVals(m, keys, vals)
      ensures exists k :: v in ValSet(m, k) && v !in ValSet(Trim(m, keys, vals), k)
    {
      var k :| k in m && k in keys && v in m[k] && v in vals;
      TrimValSet(m, keys, vals, k);
    }
    forall v, k | v in ValSet(m, k) && v !in ValSet(Trim(m, keys, vals), k)
      ensures v in GoneVals(m, keys, vals)
    {
      TrimValSet(m, keys, vals, k);
    }
  }

  /** An update gives back what stays, leaves what is new, and drops the rest. */
  lemma UpdateSplits<K, V>(m: SetMap<K, V>, k: K, vals: set<V>)
    ensures ValSet(Update(m, k, vals), k) == UpdateReturn(m, k, vals) + UpdateLeft(m, k, vals) == vals
    ensures UpdateReturn(m, k, vals) <= ValSet(m, k) && UpdateLeft(m, k, vals) !! ValSet(m, k)
    ensures forall x :: x != k ==> ValSet(Update(m, k, vals), x) == ValSet(m, x)
    ensures k in Update(m, k, vals) <==> vals != {}
  {
  }
}

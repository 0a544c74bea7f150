/** The array of adapters behind the modem interface: a dense prefix edited in place, whose removal loop
    moves its own index. */
module AdapterArray {

  const MAX_ADAPTERS := 10

  class LocAdapterBase {
    /** The bits of the event mask that are set. */
    var evtMask: set<nat>

    constructor (mask: set<nat>)
      ensures evtMask == mask
    {
      evtMask := mask;
    }
  }

  /** What the interface asks of the modem: open with new event masks, or close. */
  datatype Message = Open | Close

  // ---------------------------------------------------------------- the array as a list

  function Added<T(==)>(list: seq<T>, a: T): seq<T> {
    if a in list || |list| >= MAX_ADAPTERS then list else list + [a]
  }

  function IndexOf<T(==)>(list: seq<T>, a: T): (i: nat)
    ensures i <= |list| && (i < |list| ==> list[i] == a)
    ensures forall j :: 0 <= j < i ==> list[j] != a
  {
    if list == [] || list[0] == a then 0 else 1 + IndexOf(list[1..], a)
  }

  /** The last element takes the removed one's place. */
  function RemovedFrom<T(==)>(list: seq<T>, a: T): seq<T> {
    var i := IndexOf(list, a);
    if i == |list| then list else list[i := list[|list| - 1]][..|list| - 1]
  }

  ghost predicate Distinct<T>(list: seq<T>) {
    forall i, j :: 0 <= i < j < |list| ==> list[i] != list[j]
  }

  lemma AddedDistinct<T>(list: seq<T>, a: T)
    requires Distinct(list)
    ensures Distinct(Added(list, a))
    ensures forall x :: x in Added(list, a) <==> x in list || (x == a && |list| < 10)
  {
    if |list| < MAX_ADAPTERS && a !in list {
      assert a in list + [a];
    }
  }

  /** Removal takes out exactly the given adapter and keeps the others, each once. */
  lemma RemovedExactly<T>(list: seq<T>, a: T)
    requires Distinct(list)
    ensures Distinct(RemovedFrom(list, a))
    ensures forall x :: x in RemovedFrom(list, a) <==> x in list && x != a
    ensures |RemovedFrom(list, a)| == if a in list then |list| - 1 else |list|
  {
    var i, n, r := IndexOf(list, a), |list|, RemovedFrom(list, a);
    if i < n {
      forall x | x in list && x != a
        ensures x in r
      {
        var j :| 0 <= j < n && list[j] == x;
        assert r[if j == n - 1 then i else j] == x;
      }
    }
  }

  // ---------------------------------------------------------------- the object

  class LocApiBase {
    const adapters: array<LocAdapterBase?>
    const excludedMask: set<nat>
    ghost var count: nat
    ghost var sent: seq<Message>

    /** The first `count` slots hold distinct adapters, the others none. */
    ghost predicate Valid()
      reads this, adapters
    {
      && adapters.Length == MAX_ADAPTERS
      && count <= MAX_ADAPTERS
      && (forall i :: 0 <= i < count ==> adapters[i] != null)
      && (forall i :: count <= i < MAX_ADAPTERS ==> adapters[i] == null)
      && Distinct(adapters[..count])
    }

    ghost function List(): seq<LocAdapterBase?>
      reads this, adapters
      requires Valid()
    {
      adapters[..count]
    }

    constructor (excluded: set<nat>)
      ensures Valid() && fresh(adapters) && List() == [] && sent == []
    {
      adapters := new LocAdapterBase?[MAX_ADAPTERS](_ => null);
      excludedMask := excluded;
      count := 0;
      sent := [];
    }

    method AddAdapter(adapter: LocAdapterBase)
      requires Valid()
      modifies this, adapters
      ensures Valid() && List() == Added(old(List()), adapter)
      ensures sent == old(sent) + (if List() == old(List()) then [] else [Open])
    {
      AddedDistinct(List(), adapter);
      var i := 0;
      while i < MAX_ADAPTERS && adapters[i] != adapter
        invariant 0 <= i <= count
        invariant adapter !in adapters[..i]
        invariant adapters[..] == old(adapters[..]) && count == old(count) && sent == old(sent)
      {
        if adapters[i] == null {
          adapters[i] := adapter;
          count := count + 1;
          sent := sent + [Open];
          assert adapters[..count] == old(adapters[..count]) + [adapter];
          return;
        }
        i := i + 1;
      }
      assert i < MAX_ADAPTERS ==> adapters[i] in adapters[..count];
      assert i == MAX_ADAPTERS ==> |List()| == MAX_ADAPTERS;
    }

    /** Fills the hole at j with the last adapter and returns that one's old place, which stops the caller's
        loop. */
    method TakeOut(j: nat) returns (i: nat)
      requires Valid() && j < count
      modifies this, adapters
      ensures Valid() && List() == old(List()[j := List()[count - 1]][..count - 1])
      ensures i == count && sent == old(sent) + [if List() == [] then Close else Open]
    {
      ghost var list := List();
      RemovedExactly(list, list[j]);
      assert IndexOf(list, list[j]) == j;
      adapters[j] := null;
      i := j + 1;
      while i < MAX_ADAPTERS && adapters[i] != null
        invariant j < i <= count
        invariant adapters[..] == old(adapters[..])[j := null]
        invariant count == old(count) && sent == old(sent)
      {
        i := i + 1;
      }
      assert i == count;
      i := i - 1;
      adapters[j] := adapters[i];
      adapters[i] := null;
      count := count - 1;
      assert adapters[..count] == list[j := list[|list| - 1]][..|list| - 1];
      if i == 0 {
        sent := sent + [Close];
      } else {
        sent := sent + [Open];
      }
    }

    method RemoveAdapter(adapter: LocAdapterBase)
      requires Valid()
      modifies this, adapters
      ensures Valid() && List() == RemovedFrom(old(List()), adapter)
      ensures sent == old(sent) + (if adapter !in old(List()) then []
                                   else if List() == [] then [Close] else [Open])
    {
      ghost var list := List();
      RemovedExactly(list, adapter);
      ghost var removed := false;
      var i := 0;
      while i < MAX_ADAPTERS && adapters[i] != null
        invariant 0 <= i <= MAX_ADAPTERS
        invariant Valid()
        invariant !removed ==>
                    && adapters[..] == old(adapters[..]) && count == old(count) && sent == old(sent)
                    && i <= |list| == count && adapter !in list[..i]
        invariant removed ==>
                    && (i < MAX_ADAPTERS ==> adapters[i] == null)
                    && adapter in list && List() == RemovedFrom(list, adapter)
                    && sent == old(sent) + (if List() == [] then [Close] else [Open])
        decreases MAX_ADAPTERS - i
      {
        if adapters[i] == adapter {
          assert list[i] == adapter;
          assert IndexOf(list, adapter) == i;
          i := TakeOut(i);
          removed := true;
        }
        i := i + 1;
      }
      if !removed {
        assert list[..i] == list;
      }
    }

    /** The events any adapter wants, less the excluded ones. */
    method GetEvtMask() returns (mask: set<nat>)
      requires Valid()
      ensures forall event :: event in mask <==>
                event !in excludedMask && exists i :: 0 <= i < count && event in adapters[i].evtMask
    {
      mask := {};
      var i := 0;
      while i < MAX_ADAPTERS && adapters[i] != null
        invariant 0 <= i <= count
        invariant forall event :: event in mask <==> exists j :: 0 <= j < i && event in adapters[j].evtMask
      {
        mask := mask + adapters[i].evtMask;
        i := i + 1;
      }
      mask := mask - excludedMask;
    }
  }
}

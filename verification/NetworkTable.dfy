/** The table of connected networks: a fixed array kept dense by swap-delete, proved to behave as a map
    of bounded size from network handle to network type. */
module NetworkTable {
  import opened Wrappers

  const MAX_NETWORK_HANDLES := 10
  const UNKNOWN_HANDLE := 0xFFFF_FFFF_FFFF_FFFF
  const UNKNOWN_TYPE := 10

  datatype Slot = Slot(handle: nat, ntype: int)

  const EMPTY := Slot(UNKNOWN_HANDLE, UNKNOWN_TYPE)

  type Table = t: seq<Slot> | |t| == MAX_NETWORK_HANDLES witness seq(MAX_NETWORK_HANDLES, _ => EMPTY)

  /** A report of one network going up or down; `allTypes` is its set of network types as bits. */
  datatype Event = Event(handle: nat, ntype: int, connected: bool, allTypes: bv64)

  // ---------------------------------------------------------------- what one report does

  /** Where the search for a handle stops: at the handle, at the first free slot, or at the end. */
  function FirstStop(t: seq<Slot>, h: nat): (i: nat)
    ensures i <= |t|
  {
    if t == [] || t[0].handle == h || t[0].handle == UNKNOWN_HANDLE then 0 else 1 + FirstStop(t[1..], h)
  }

  function Connect(t: Table, h: nat, ty: int): Table {
    var i := FirstStop(t, h);
    if i == |t| || t[i].handle == h then t else t[i := Slot(h, ty)]
  }

  /** The number of slots before the first free one. */
  function Used(t: seq<Slot>): (n: nat)
    ensures n <= |t|
    ensures forall i :: 0 <= i < n ==> t[i].handle != UNKNOWN_HANDLE
    ensures n < |t| ==> t[n].handle == UNKNOWN_HANDLE
  {
    if t == [] || t[0].handle == UNKNOWN_HANDLE then 0 else 1 + Used(t[1..])
  }

  /** The last of the first n slots that holds exactly this handle and type. */
  function LastMatch(t: seq<Slot>, h: nat, ty: int, n: nat): (r: Option<nat>)
    requires n <= |t|
    ensures match r
            case None => forall i :: 0 <= i < n ==> t[i] != Slot(h, ty)
            case Some(d) => d < n && t[d] == Slot(h, ty)
  {
    if n == 0 then None
    else if t[n - 1] == Slot(h, ty) then Some(n - 1)
    else LastMatch(t, h, ty, n - 1)
  }

  function OthersOfType(t: seq<Slot>, h: nat, ty: int, n: nat): nat
    requires n <= |t|
  {
    if n == 0 then 0
    else OthersOfType(t, h, ty, n - 1) + (if t[n - 1].ntype == ty && t[n - 1].handle != h then 1 else 0)
  }

  function Disconnect(t: Table, h: nat, ty: int): Table {
    var n := Used(t);
    match LastMatch(t, h, ty, n)
    case None => t
    case Some(d) => var last := if n > 0 then n - 1 else 0; t[d := t[last]][last := EMPTY]
  }

  function TableStep(t: Table, e: Event): Table {
    if e.connected then Connect(t, e.handle, e.ntype)
    else if e.allTypes != 0 then Disconnect(t, e.handle, e.ntype)
    else t
  }

  function TypesKept(types: bv64, current: bv64, others: nat): bv64 {
    if others == 0 then current & !types else types
  }

  function AllTypesStep(t: Table, current: bv64, e: Event): bv64 {
    if e.connected then e.allTypes | current
    else if e.allTypes != 0 then TypesKept(e.allTypes, current, OthersOfType(t, e.handle, e.ntype, Used(t)))
    else e.allTypes
  }

  // ---------------------------------------------------------------- the object

  class NetworkInfo {
    const handles: array<Slot>
    const handle: nat
    const ntype: int
    const connected: bool
    var allTypes: bv64

    ghost predicate Valid()
      reads this
    {
      handles.Length == MAX_NETWORK_HANDLES
    }

    /** A fresh report lists its own network, whether that one went up or down. */
    constructor (e: Event)
      ensures Valid() && fresh(handles)
      ensures handle == e.handle && ntype == e.ntype && connected == e.connected && allTypes == e.allTypes
      ensures handles[..] == InitialTable(e)
    {
      handle, ntype, connected, allTypes := e.handle, e.ntype, e.connected, e.allTypes;
      var slots := new Slot[MAX_NETWORK_HANDLES](_ => EMPTY);
      slots[0] := Slot(e.handle, e.ntype);
      handles := slots;
    }

    /** A cached entry as an object to collate with. */
    constructor FromTable(table: Table, types: bv64)
      ensures Valid() && fresh(handles)
      ensures handles[..] == table && allTypes == types
    {
      handle, ntype, connected, allTypes := UNKNOWN_HANDLE, UNKNOWN_TYPE, false, types;
      handles := new Slot[MAX_NETWORK_HANDLES](i requires 0 <= i < |table| => table[i]);
    }

    ghost function AsEvent(): Event
      reads this
    {
      Event(handle, ntype, connected, allTypes)
    }

    method Insert()
      requires Valid()
      modifies handles
      ensures handles[..] == Connect(old(handles[..]), handle, ntype)
    {
      var i := 0;
      while i < MAX_NETWORK_HANDLES
        invariant 0 <= i <= MAX_NETWORK_HANDLES
        invariant handles[..] == old(handles[..])
        invariant FirstStop(handles[..], handle) == i + FirstStop(handles[i..], handle)
      {
        assert handles[i..][1..] == handles[i + 1..] && handles[i..][0] == handles[i] == handles[..][i];
        if handle == handles[i].handle {
          return;
        }
        if handles[i].handle == UNKNOWN_HANDLE {
          handles[i] := Slot(handle, ntype);
          return;
        }
        i := i + 1;
      }
    }

    /** Finds the slot to delete, the end of the used slots, and whether its type stays in use. */
    method FindSlot() returns (deleted: nat, used: nat, typeCount: nat)
      requires Valid()
      ensures used == Used(handles[..])
      ensures typeCount == OthersOfType(handles[..], handle, ntype, used)
      ensures match LastMatch(handles[..], handle, ntype, used)
              case None => deleted == MAX_NETWORK_HANDLES
              case Some(d) => deleted == d
    {
      deleted, used, typeCount := MAX_NETWORK_HANDLES, 0, 0;
      while used < MAX_NETWORK_HANDLES && handles[used].handle != UNKNOWN_HANDLE
        invariant 0 <= used <= MAX_NETWORK_HANDLES
        invariant Used(handles[..]) == used + Used(handles[used..])
        invariant typeCount == OthersOfType(handles[..], handle, ntype, used)
        invariant match LastMatch(handles[..], handle, ntype, used)
                  case None => deleted == MAX_NETWORK_HANDLES
                  case Some(d) => deleted == d
      {
        assert handles[used..][1..] == handles[used + 1..] && handles[used..][0] == handles[used] == handles[..][used];
        if ntype == handles[used].ntype {
          if handle == handles[used].handle {
            deleted := used;
          } else {
            typeCount := typeCount + 1;
          }
        }
        used := used + 1;
      }
    }

    method CopyTable(current: NetworkInfo)
      requires Valid() && current.Valid() && handles != current.handles
      modifies handles
      ensures handles[..] == current.handles[..]
    {
      var i := 0;
      while i < MAX_NETWORK_HANDLES
        invariant 0 <= i <= MAX_NETWORK_HANDLES
        invariant forall j :: 0 <= j < i ==> handles[j] == current.handles[j]
      {
        handles[i] := current.handles[i];
        i := i + 1;
      }
    }

    /** The last used slot moves into the deleted one. */
    method Delete() returns (typeCount: nat)
      requires Valid()
      modifies handles
      ensures handles[..] == Disconnect(old(handles[..]), handle, ntype)
      ensures typeCount == OthersOfType(old(handles[..]), handle, ntype, Used(old(handles[..])))
    {
      var deleted, used;
      deleted, used, typeCount := FindSlot();
      var last := if used > 0 then used - 1 else used;
      if deleted != MAX_NETWORK_HANDLES {
        handles[deleted] := handles[last];
        handles[last] := EMPTY;
      }
    }

    method Connected(types: bv64)
      requires Valid()
      modifies this, handles
      ensures handles[..] == Connect(old(handles[..]), handle, ntype)
      ensures allTypes == old(allTypes) | types
    {
      allTypes := allTypes | types;
      Insert();
    }

    /** The types are forgotten when no other handle has this one's. */
    method Disconnected(types: bv64)
      requires Valid()
      modifies this, handles
      ensures handles[..] == Disconnect(old(handles[..]), handle, ntype)
      ensures allTypes == TypesKept(old(allTypes), types,
                                    OthersOfType(old(handles[..]), handle, ntype, Used(old(handles[..]))))
    {
      var typeCount := Delete();
      if typeCount == 0 {
        allTypes := types & !allTypes;
      }
    }

    method Collate(current: NetworkInfo)
      requires Valid() && current.Valid() && handles != current.handles && this != current
      modifies this, handles
      ensures Valid() && handles[..] == TableStep(current.handles[..], old(AsEvent()))
      ensures allTypes == AllTypesStep(current.handles[..], current.allTypes, old(AsEvent()))
    {
      ghost var table, e := current.handles[..], AsEvent();
      var types := current.allTypes;
      CopyTable(current);
      assert handles[..] == table;
      if connected {
        Connected(types);
      } else if allTypes != 0 {
        Disconnected(types);
      }
      assert current.handles[..] == table && current.allTypes == types;
      assert handles[..] == TableStep(table, e);
      assert allTypes == AllTypesStep(table, types, e);
    }
  }

  // ---------------------------------------------------------------- the table as a bounded map

  /** The used slots are a dense prefix without a repeated handle. */
  ghost predicate WellFormed(t: Table) {
    && (forall i :: Used(t) <= i < |t| ==> t[i].handle == UNKNOWN_HANDLE)
    && (forall i, j :: 0 <= i < j < Used(t) ==> t[i].handle != t[j].handle)
  }

  /** The table lists exactly the entries of the map. */
  ghost predicate Represents(t: Table, m: map<nat, int>) {
    && WellFormed(t)
    && |m| == Used(t)
    && (forall i :: 0 <= i < Used(t) ==> t[i].handle in m && m[t[i].handle] == t[i].ntype)
    && (forall h :: h in m ==> exists i :: 0 <= i < Used(t) && t[i].handle == h)
  }

  /** A known handle keeps its type; a new one is added while there is room. */
  function MapConnect(m: map<nat, int>, h: nat, ty: int): map<nat, int> {
    if h in m || h == 0xFFFF_FFFF_FFFF_FFFF || |m| >= 10 then m else m[h := ty]
  }

  /** A handle is removed when it is known with this type. */
  function MapDisconnect(m: map<nat, int>, h: nat, ty: int): map<nat, int> {
    if h in m && m[h] == ty then m - {h} else m
  }

  function MapStep(m: map<nat, int>, e: Event): map<nat, int> {
    if e.connected then MapConnect(m, e.handle, e.ntype)
    else if e.allTypes != 0 then MapDisconnect(m, e.handle, e.ntype)
    else m
  }

  lemma {:induction false} FirstStopAt(t: seq<Slot>, h: nat)
    ensures forall i :: 0 <= i < FirstStop(t, h) ==> t[i].handle != h && t[i].handle != UNKNOWN_HANDLE
    ensures FirstStop(t, h) < |t| ==> t[FirstStop(t, h)].handle == h || t[FirstStop(t, h)].handle == UNKNOWN_HANDLE
  {
    if !(t == [] || t[0].handle == h || t[0].handle == UNKNOWN_HANDLE) {
      FirstStopAt(t[1..], h);
    }
  }

  lemma UsedIs(t: seq<Slot>, n: nat)
    requires n <= |t| && forall i :: 0 <= i < n ==> t[i].handle != UNKNOWN_HANDLE
    requires n < |t| ==> t[n].handle == UNKNOWN_HANDLE
    ensures Used(t) == n
  {
  }

  lemma FindHandle(t: Table, m: map<nat, int>, h: nat) returns (i: nat)
    requires Represents(t, m) && h in m
    ensures i < Used(t) && t[i] == Slot(h, m[h])
  {
    i :| 0 <= i < Used(t) && t[i].handle == h;
  }

  /** As many distinct handles as the map has keys are all of its keys. */
  lemma HandlesSuffice(t: Table, m: map<nat, int>)
    requires WellFormed(t) && |m| == Used(t)
    requires forall i :: 0 <= i < Used(t) ==> t[i].handle in m && m[t[i].handle] == t[i].ntype
    ensures Represents(t, m)
  {
    var keys := Handles(t, Used(t));
    assert keys <= m.Keys;
    if keys != m.Keys {
      SubsetSmaller(keys, m.Keys);
    }
    forall h | h in m.Keys
      ensures exists i :: 0 <= i < Used(t) && t[i].handle == h
    {
      assert h in keys;
    }
  }

  lemma SubsetSmaller(a: set<nat>, b: set<nat>)
    requires a < b
    ensures |a| < |b|
  {
    assert |b - a| == |b| - |a|;
    assert b - a != {};
  }

  /** The handles of the first n slots. */
  ghost function Handles(t: Table, n: nat): (keys: set<nat>)
    requires n <= |t| && forall i, j :: 0 <= i < j < n ==> t[i].handle != t[j].handle
    ensures |keys| == n && forall h :: h in keys <==> exists i :: 0 <= i < n && t[i].handle == h
  {
    if n == 0 then {} else Handles(t, n - 1) + {t[n - 1].handle}
  }

  lemma AddSlotShape(t: Table, h: nat, ty: int)
    requires WellFormed(t) && h != UNKNOWN_HANDLE && Used(t) < MAX_NETWORK_HANDLES
    requires forall i :: 0 <= i < Used(t) ==> t[i].handle != h
    ensures Used(t[Used(t) := Slot(h, ty)]) == Used(t) + 1
    ensures WellFormed(t[Used(t) := Slot(h, ty)])
  {
    UsedIs(t[Used(t) := Slot(h, ty)], Used(t) + 1);
  }

  lemma AddSlot(t: Table, m: map<nat, int>, h: nat, ty: int)
    requires Represents(t, m) && h !in m && h != UNKNOWN_HANDLE && Used(t) < MAX_NETWORK_HANDLES
    ensures Represents(t[Used(t) := Slot(h, ty)], m[h := ty])
  {
    var n, after, more := Used(t), t[Used(t) := Slot(h, ty)], m[h := ty];
    AddSlotShape(t, h, ty);
    forall i | 0 <= i < Used(after)
      ensures after[i].handle in more && more[after[i].handle] == after[i].ntype
    {
      assert i < n ==> after[i] == t[i];
    }
    HandlesSuffice(after, more);
  }

  lemma ConnectRefines(t: Table, m: map<nat, int>, h: nat, ty: int)
    requires Represents(t, m)
    ensures Represents(Connect(t, h, ty), MapConnect(m, h, ty))
  {
    FirstStopAt(t, h);
    var i, n := FirstStop(t, h), Used(t);
    if h in m {
      var j := FindHandle(t, m, h);
      assert t[i].handle == h;
    } else if h != UNKNOWN_HANDLE {
      assert i == n;
      if n < MAX_NETWORK_HANDLES {
        AddSlot(t, m, h, ty);
      }
    }
  }

  /** The used slot d is replaced by the last used one, which becomes free. */
  function SwapDelete(t: Table, d: nat): Table
    requires d < Used(t)
  {
    t[d := t[Used(t) - 1]][Used(t) - 1 := EMPTY]
  }

  lemma SwapDeleteSlots(t: Table, d: nat, i: nat)
    requires d < Used(t) && i < |t|
    ensures SwapDelete(t, d)[i] == if i == Used(t) - 1 then EMPTY else if i == d then t[Used(t) - 1] else t[i]
  {
  }

  lemma SwapDeleteShape(t: Table, d: nat)
    requires WellFormed(t) && d < Used(t)
    ensures var n, after := Used(t), SwapDelete(t, d);
            && Used(after) == n - 1
            && (forall i :: 0 <= i < n - 1 ==> after[i] == if i == d then t[n - 1] else t[i])
            && (forall i :: n - 1 <= i < |t| ==> after[i].handle == UNKNOWN_HANDLE)
  {
    var n, after := Used(t), SwapDelete(t, d);
    forall i | 0 <= i < |t|
      ensures after[i] == if i == n - 1 then EMPTY else if i == d then t[n - 1] else t[i]
    {
      SwapDeleteSlots(t, d, i);
    }
    UsedIs(after, n - 1);
  }

  lemma SwapDeleteDistinct(t: Table, d: nat, after: Table)
    requires WellFormed(t) && d < Used(t) && Used(after) == Used(t) - 1
    requires forall i :: 0 <= i < Used(t) - 1 ==> after[i] == if i == d then t[Used(t) - 1] else t[i]
    requires forall i :: Used(t) - 1 <= i < |t| ==> after[i].handle == UNKNOWN_HANDLE
    ensures WellFormed(after)
    ensures forall i :: 0 <= i < Used(after) ==> after[i].handle != t[d].handle
  {
  }

  lemma RemoveSlot(t: Table, m: map<nat, int>, d: nat)
    requires Represents(t, m) && d < Used(t)
    ensures Represents(SwapDelete(t, d), m - {t[d].handle})
  {
    var h, n, after, less := t[d].handle, Used(t), SwapDelete(t, d), m - {t[d].handle};
    SwapDeleteShape(t, d);
    SwapDeleteDistinct(t, d, after);
    assert |less| == |m| - 1 by {
      assert less.Keys == m.Keys - {h};
      assert |less.Keys| == |m.Keys| - 1;
    }
    forall i | 0 <= i < Used(after)
      ensures after[i].handle in less && less[after[i].handle] == after[i].ntype
    {
      assert after[i] == if i == d then t[n - 1] else t[i];
      assert after[i].handle in m && after[i].handle != h;
    }
    HandlesSuffice(after, less);
  }

  lemma DisconnectRefines(t: Table, m: map<nat, int>, h: nat, ty: int)
    requires Represents(t, m)
    ensures Represents(Disconnect(t, h, ty), MapDisconnect(m, h, ty))
  {
    match LastMatch(t, h, ty, Used(t))
    case None =>
      if h in m {
        var i := FindHandle(t, m, h);
      }
    case Some(d) => RemoveSlot(t, m, d);
  }

  /** Each report changes the table as it changes the map: same handles, same types, same capacity. */
  lemma TableRefinesMap(t: Table, m: map<nat, int>, e: Event)
    requires Represents(t, m)
    ensures Represents(TableStep(t, e), MapStep(m, e))
  {
    ConnectRefines(t, m, e.handle, e.ntype);
    DisconnectRefines(t, m, e.handle, e.ntype);
  }

  function Fold(t: Table, es: seq<Event>): Table {
    if es == [] then t else TableStep(Fold(t, es[..|es| - 1]), es[|es| - 1])
  }

  function MapFold(m: map<nat, int>, es: seq<Event>): map<nat, int> {
    if es == [] then m else MapStep(MapFold(m, es[..|es| - 1]), es[|es| - 1])
  }

  lemma {:induction false} FoldRefinesMap(t: Table, m: map<nat, int>, es: seq<Event>)
    requires Represents(t, m)
    ensures Represents(Fold(t, es), MapFold(m, es))
  {
    if es != [] {
      FoldRefinesMap(t, m, es[..|es| - 1]);
      TableRefinesMap(Fold(t, es[..|es| - 1]), MapFold(m, es[..|es| - 1]), es[|es| - 1]);
    }
  }

  /** The table of a first report: nothing is known before it. */
  function InitialTable(e: Event): Table {
    [Slot(e.handle, e.ntype)] + seq(MAX_NETWORK_HANDLES - 1, _ => EMPTY)
  }

  /** A first report lists its own network, so its table is right exactly when that network is up or unknown. */
  lemma FirstReportExact(e: Event)
    ensures Represents(InitialTable(e), MapStep(map[], e)) <==> e.connected || e.handle == UNKNOWN_HANDLE
  {
    var t := InitialTable(e);
    UsedIs(t, if e.handle == UNKNOWN_HANDLE then 0 else 1);
  }

  /** A first report that network 5 went down lists it as up. */
  lemma FirstReportOfLoss()
    ensures var e := Event(5, 1, false, 2); !Represents(InitialTable(e), MapStep(map[], e))
  {
    FirstReportExact(Event(5, 1, false, 2));
  }

  lemma {:induction false} OthersCounted(t: seq<Slot>, h: nat, ty: int, n: nat)
    requires n <= |t|
    ensures OthersOfType(t, h, ty, n) > 0 <==> exists i :: 0 <= i < n && t[i].ntype == ty && t[i].handle != h
  {
    if n > 0 {
      OthersCounted(t, h, ty, n - 1);
    }
  }

  lemma OthersListed(t: Table, m: map<nat, int>, h: nat, ty: int)
    requires Represents(t, m)
    ensures OthersOfType(t, h, ty, Used(t)) > 0 <==> exists x :: x in m && x != h && m[x] == ty
  {
    OthersCounted(t, h, ty, Used(t));
    if x :| x in m && x != h && m[x] == ty {
      var i := FindHandle(t, m, x);
    }
  }

  /** What is left of the types after a disconnection: nothing but its own while another handle of its type is
      connected, otherwise all but its own. */
  lemma TypesLeft(types: bv64, current: bv64, others: nat)
    ensures others > 0 ==> TypesKept(types, current, others) == types
    ensures others == 0 ==> TypesKept(types, current, others) == current & !types
  {
  }

  ghost predicate OtherUp(m: map<nat, int>, e: Event) {
    exists h :: h in m && h != e.handle && m[h] == e.ntype
  }

  lemma TypesLost(t: Table, current: bv64, e: Event, other: bool)
    requires !e.connected && e.allTypes != 0
    requires OthersOfType(t, e.handle, e.ntype, Used(t)) > 0 <==> other
    ensures AllTypesStep(t, current, e) == if other then e.allTypes else current & !e.allTypes
  {
    TypesLeft(e.allTypes, current, OthersOfType(t, e.handle, e.ntype, Used(t)));
  }

  /** The types after a report: its own added when a network comes up; when one goes, its own taken out or, while
      another network of its type is up, nothing but its own; none after a loss that names none. */
  lemma AllTypesExact(t: Table, m: map<nat, int>, current: bv64, e: Event)
    requires Represents(t, m)
    ensures AllTypesStep(t, current, e)
         == if e.connected then e.allTypes | current
            else if e.allTypes == 0 then 0
            else if OtherUp(m, e) then e.allTypes
            else current & !e.allTypes
  {
    if !e.connected && e.allTypes != 0 {
      OthersListed(t, m, e.handle, e.ntype);
      TypesLost(t, current, e, OtherUp(m, e));
    }
  }
}

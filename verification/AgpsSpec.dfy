/** What one AGPS connection state machine does to its state, its subscriber list
    and the messages it sends, and what holds over every run of it. */
module AgpsSpec {

  /** One ATL request, identified by its connection handle. */
  datatype Subscriber = Subscriber(handle: int, waitForClose: bool, inactive: bool, apnMask: bv32)

  datatype State = Released | Pending | Acquired | Releasing

  /** The data-call description a machine attaches to what it sends. */
  datatype Link = Link(agpsType: int, apnMask: bv32, apn: string, bearer: int)

  datatype Notice = NoticeGranted | NoticeDenied | NoticeClosed

  datatype Audience = AllSubscribers | InactiveSubscribers | ActiveSubscribers

  /** Everything a machine tells its environment, in order. */
  datatype Output =
    | AtlOpen(handle: int, success: bool, openLink: Link)
    | AtlClose(handle: int)
    | Framework(request: bool, agpsType: int, apnMask: bv32)

  datatype Machine = Machine(state: State, subs: seq<Subscriber>, link: Link, log: seq<Output>)

  datatype Event =
    | Configure(link: Link)
    | Subscribe(handle: int, waitForClose: bool, apnMask: bv32)
    | Unsubscribe(handle: int)
    | Granted
    | ReleasedByModem
    | Denied
    | ModemRestart

  // ---------------------------------------------------------------- list edits

  predicate Listed(subs: seq<Subscriber>, h: int) {
    exists s :: s in subs && s.handle == h
  }

  predicate AnyActive(subs: seq<Subscriber>) {
    exists s :: s in subs && !s.inactive
  }

  predicate Addressed(audience: Audience, s: Subscriber) {
    match audience
    case AllSubscribers => true
    case InactiveSubscribers => s.inactive
    case ActiveSubscribers => !s.inactive
  }

  function Callback(notice: Notice, h: int, link: Link): Output {
    match notice
    case NoticeGranted => AtlOpen(h, true, link)
    case NoticeDenied => AtlOpen(h, false, link)
    case NoticeClosed => AtlClose(h)
  }

  function Notices(subs: seq<Subscriber>, audience: Audience, notice: Notice, link: Link): seq<Output> {
    if subs == [] then []
    else
      var last := subs[|subs| - 1];
      Notices(subs[..|subs| - 1], audience, notice, link)
      + (if Addressed(audience, last) then [Callback(notice, last.handle, link)] else [])
  }

  /** The subscribers left after deleting the addressed ones. */
  function Unaddressed(subs: seq<Subscriber>, audience: Audience): seq<Subscriber> {
    if subs == [] then []
    else
      var last := subs[|subs| - 1];
      Unaddressed(subs[..|subs| - 1], audience) + (if Addressed(audience, last) then [] else [last])
  }

  /** The list after an announcement that does or does not delete whom it reaches. */
  function Remaining(subs: seq<Subscriber>, audience: Audience, delete: bool): seq<Subscriber> {
    if delete then Unaddressed(subs, audience) else subs
  }

  function Without(subs: seq<Subscriber>, h: int): seq<Subscriber> {
    if subs == [] then []
    else
      var last := subs[|subs| - 1];
      Without(subs[..|subs| - 1], h) + (if last.handle == h then [] else [last])
  }

  function WithSubscriber(subs: seq<Subscriber>, s: Subscriber): seq<Subscriber> {
    if Listed(subs, s.handle) then subs else subs + [s]
  }

  /** The first subscriber with the handle becomes inactive. */
  function Deactivate(subs: seq<Subscriber>, h: int): seq<Subscriber> {
    if subs == [] then []
    else if subs[0].handle == h then [subs[0].(inactive := true)] + subs[1..]
    else [subs[0]] + Deactivate(subs[1..], h)
  }

  /** The first subscriber with the handle. */
  function Find(subs: seq<Subscriber>, h: int): Subscriber
    requires Listed(subs, h)
  {
    if subs[0].handle == h then subs[0] else Find(subs[1..], h)
  }

  // ---------------------------------------------------------------- steps

  function Say(m: Machine, out: Output): Machine {
    m.(log := m.log + [out])
  }

  function TellFramework(m: Machine, request: bool): Machine {
    Say(m, Framework(request, m.link.agpsType, m.link.apnMask))
  }

  function NotifyAll(m: Machine, notice: Notice, delete: bool, audience: Audience): Machine {
    m.(log := m.log + Notices(m.subs, audience, notice, m.link),
       subs := Remaining(m.subs, audience, delete))
  }

  function OnSubscribe(m: Machine, s: Subscriber): Machine {
    var added := WithSubscriber(m.subs, s);
    match m.state
    case Released => TellFramework(m.(subs := added), true).(state := Pending)
    case Pending => m.(subs := added)
    case Acquired => Say(m, Callback(NoticeGranted, s.handle, m.link)).(subs := added)
    case Releasing => m.(subs := added)
  }

  /** The subscriber leaves, or waits inactive for the close. */
  function Withdraw(m: Machine, h: int): Machine
    requires Listed(m.subs, h)
  {
    if Find(m.subs, h).waitForClose then m.(subs := Deactivate(m.subs, h))
    else Say(m, AtlClose(h)).(subs := Without(m.subs, h))
  }

  function OnUnsubscribe(m: Machine, h: int): Machine
    requires Listed(m.subs, h)
  {
    match m.state
    case Released => Say(m, AtlClose(h))
    case Releasing =>
      var w := Withdraw(m, h);
      if w.subs == [] then w.(state := Released) else w
    case _ =>
      var w := Withdraw(m, h);
      if w.subs == [] then TellFramework(w, false).(state := Released)
      else if !AnyActive(w.subs) then TellFramework(w, false).(state := Releasing)
      else w
  }

  function OnGranted(m: Machine): Machine {
    if m.state == Pending
    then NotifyAll(m.(state := Acquired), NoticeGranted, false, ActiveSubscribers)
    else m
  }

  /** RELEASED and DENIED act alike while the connection is being released. */
  function FinishRelease(m: Machine): Machine {
    var n := NotifyAll(m, NoticeClosed, true, InactiveSubscribers);
    if AnyActive(n.subs) then TellFramework(n, true).(state := Pending) else n.(state := Released)
  }

  function OnReleased(m: Machine): Machine {
    match m.state
    case Acquired => NotifyAll(m.(state := Released), NoticeClosed, true, AllSubscribers)
    case Releasing => FinishRelease(m)
    case _ => m
  }

  function OnDenied(m: Machine): Machine {
    match m.state
    case Pending => NotifyAll(m.(state := Released), NoticeDenied, true, AllSubscribers)
    case Releasing => FinishRelease(m)
    case _ => m
  }

  function Step(m: Machine, e: Event): Machine {
    match e
    case Configure(link) => m.(link := link)
    case Subscribe(h, wait, mask) => OnSubscribe(m, Subscriber(h, wait, false, mask))
    case Unsubscribe(h) => if Listed(m.subs, h) then OnUnsubscribe(m, h) else m
    case Granted => OnGranted(m)
    case ReleasedByModem => OnReleased(m)
    case Denied => OnDenied(m)
    case ModemRestart => m.(subs := [])
  }

  function Initial(link: Link): Machine {
    Machine(Released, [], link, [])
  }

  function Run(link: Link, es: seq<Event>): Machine {
    if es == [] then Initial(link) else Step(Run(link, es[..|es| - 1]), es[|es| - 1])
  }

  // ---------------------------------------------------------------- list lemmas

  ghost predicate Distinct(subs: seq<Subscriber>) {
    forall i, j :: 0 <= i < j < |subs| ==> subs[i].handle != subs[j].handle
  }

  /** How many listed subscribers carry the handle. */
  ghost function Occurs(subs: seq<Subscriber>, h: int): nat {
    if subs == [] then 0
    else Occurs(subs[..|subs| - 1], h) + (if subs[|subs| - 1].handle == h then 1 else 0)
  }

  lemma {:induction false} OccursListed(subs: seq<Subscriber>, h: int)
    requires Distinct(subs)
    ensures Occurs(subs, h) == if Listed(subs, h) then 1 else 0
  {
    if subs != [] {
      OccursListed(subs[..|subs| - 1], h);
    }
  }

  /** Deleting the addressed subscribers keeps exactly the others, in order. */
  lemma {:induction false} UnaddressedMembers(subs: seq<Subscriber>, audience: Audience)
    ensures forall s :: s in Unaddressed(subs, audience) <==> s in subs && !Addressed(audience, s)
    ensures Distinct(subs) ==> Distinct(Unaddressed(subs, audience))
  {
    if subs != [] {
      var front, last := subs[..|subs| - 1], subs[|subs| - 1];
      assert subs == front + [last];
      UnaddressedMembers(front, audience);
      if Distinct(subs) {
        assert Distinct(front);
        assert forall s :: s in front ==> s.handle != last.handle;
      }
    }
  }

  lemma {:induction false} WithoutMembers(subs: seq<Subscriber>, h: int)
    ensures forall s :: s in Without(subs, h) <==> s in subs && s.handle != h
    ensures Distinct(subs) ==> Distinct(Without(subs, h))
  {
    if subs != [] {
      var front, last := subs[..|subs| - 1], subs[|subs| - 1];
      assert subs == front + [last];
      WithoutMembers(front, h);
      if Distinct(subs) {
        assert Distinct(front);
        assert forall s :: s in front ==> s.handle != last.handle;
      }
    }
  }

  /** Erasing while walking: the walk stands behind what it kept of the first k subscribers. */
  lemma WithoutOne(subs: seq<Subscriber>, k: nat, h: int)
    requires k < |subs|
    ensures var kept, now := Without(subs[..k], h), Without(subs[..k], h) + subs[k..];
            && now[|kept|] == subs[k]
            && Without(subs[..k + 1], h) == kept + (if subs[k].handle == h then [] else [subs[k]])
            && (if subs[k].handle == h then now[..|kept|] + now[|kept| + 1..] else now)
               == Without(subs[..k + 1], h) + subs[k + 1..]
  {
    assert subs[..k + 1][..k] == subs[..k];
    assert subs[k..] == [subs[k]] + subs[k + 1..];
  }

  lemma {:induction false} FindMember(subs: seq<Subscriber>, h: int)
    requires Listed(subs, h)
    ensures Find(subs, h) in subs && Find(subs, h).handle == h
  {
    if subs[0].handle != h {
      FindMember(subs[1..], h);
    }
  }

  lemma {:induction false} DeactivateAt(subs: seq<Subscriber>, h: int) returns (k: nat)
    requires Listed(subs, h)
    ensures k < |subs| && subs[k] == Find(subs, h) && subs[k].handle == h
    ensures forall j :: 0 <= j < k ==> subs[j].handle != h
    ensures Deactivate(subs, h) == subs[k := subs[k].(inactive := true)]
  {
    if subs[0].handle == h {
      k := 0;
    } else {
      var j := DeactivateAt(subs[1..], h);
      k := j + 1;
    }
  }

  lemma DeactivateMembers(subs: seq<Subscriber>, h: int)
    requires Listed(subs, h) && Distinct(subs)
    ensures Find(subs, h) in subs && Find(subs, h).handle == h
    ensures forall s :: s in subs && s.handle == h ==> s == Find(subs, h)
    ensures Distinct(Deactivate(subs, h))
    ensures forall s :: s in Deactivate(subs, h) <==>
                        (s in subs && s.handle != h) || s == Find(subs, h).(inactive := true)
  {
    var k := DeactivateAt(subs, h);
    var after := subs[k := subs[k].(inactive := true)];
    assert after[k] in after;
    forall s | s in subs && s.handle != h
      ensures s in after
    {
      var i :| 0 <= i < |subs| && subs[i] == s;
      assert after[i] == s;
    }
  }

  /** An announcement that has walked the first k subscribers and stands at position i. */
  ghost predicate Walked(m: Machine, notice: Notice, delete: bool, audience: Audience,
                         k: nat, i: nat, subs: seq<Subscriber>, log: seq<Output>) {
    && k <= |m.subs|
    && i == |Remaining(m.subs[..k], audience, delete)|
    && subs == Remaining(m.subs[..k], audience, delete) + m.subs[k..]
    && log == m.log + Notices(m.subs[..k], audience, notice, m.link)
  }

  /** What one turn of the walk does at position i. */
  function NextSubs(subs: seq<Subscriber>, i: nat, delete: bool, audience: Audience): seq<Subscriber>
    requires i < |subs|
  {
    subs[..i] + (if delete && Addressed(audience, subs[i]) then [] else [subs[i]]) + subs[i + 1..]
  }

  function NextLog(log: seq<Output>, s: Subscriber, notice: Notice, audience: Audience, link: Link): seq<Output> {
    log + if Addressed(audience, s) then [Callback(notice, s.handle, link)] else []
  }

  function NextAt(s: Subscriber, i: nat, delete: bool, audience: Audience): nat {
    if delete && Addressed(audience, s) then i else i + 1
  }

  /** Replacing the first element of the tail. */
  lemma SpliceAt<T>(done: seq<T>, tail: seq<T>, mid: seq<T>)
    requires tail != []
    ensures (done + tail)[..|done|] + mid + (done + tail)[|done| + 1..] == (done + mid) + tail[1..]
  {
    assert (done + tail)[..|done|] == done;
    assert (done + tail)[|done| + 1..] == tail[1..];
  }

  lemma WalkStart(m: Machine, notice: Notice, delete: bool, audience: Audience)
    ensures Walked(m, notice, delete, audience, 0, 0, m.subs, m.log)
  {
    assert m.subs[..0] == [] && m.subs[0..] == m.subs;
    assert m.log + [] == m.log;
  }

  lemma WalkOne(m: Machine, notice: Notice, delete: bool, audience: Audience,
                k: nat, i: nat, subs: seq<Subscriber>, log: seq<Output>)
    requires Walked(m, notice, delete, audience, k, i, subs, log) && i < |subs|
    ensures Walked(m, notice, delete, audience, k + 1, NextAt(subs[i], i, delete, audience),
                   NextSubs(subs, i, delete, audience), NextLog(log, subs[i], notice, audience, m.link))
  {
    var done := Remaining(m.subs[..k], audience, delete);
    assert subs[i] == m.subs[k];
    assert m.subs[..k + 1][..k] == m.subs[..k];
    var mid := if delete && Addressed(audience, m.subs[k]) then [] else [m.subs[k]];
    assert Remaining(m.subs[..k + 1], audience, delete) == done + mid;
    SpliceAt(done, m.subs[k..], mid);
    assert m.subs[k..][1..] == m.subs[k + 1..];
  }

  lemma WalkBound(m: Machine, notice: Notice, delete: bool, audience: Audience,
                  k: nat, i: nat, subs: seq<Subscriber>, log: seq<Output>)
    requires Walked(m, notice, delete, audience, k, i, subs, log) && i < |subs|
    ensures k < |m.subs|
  {
  }

  lemma WalkDone(m: Machine, notice: Notice, delete: bool, audience: Audience,
                 k: nat, i: nat, subs: seq<Subscriber>, log: seq<Output>)
    requires Walked(m, notice, delete, audience, k, i, subs, log) && i >= |subs|
    ensures m.(subs := subs, log := log) == NotifyAll(m, notice, delete, audience)
  {
    assert m.subs[..k] == m.subs;
  }

  // ---------------------------------------------------------------- invariants

  /** Handles are distinct and only a subscriber that waits for the close is ever inactive. */
  ghost predicate ListOk(subs: seq<Subscriber>) {
    && Distinct(subs)
    && (forall s :: s in subs && s.inactive ==> s.waitForClose)
  }

  ghost predicate Weak(m: Machine) {
    ListOk(m.subs) && (m.state == Released ==> m.subs == [])
  }

  ghost predicate Strong(m: Machine) {
    && ListOk(m.subs)
    && (m.state == Released <==> m.subs == [])
    && (m.state in {Pending, Acquired} ==> AnyActive(m.subs))
    && (m.state == Releasing ==> exists s :: s in m.subs && s.inactive)
  }

  /** Every modem restart finds the machine released. */
  ghost predicate CalmRestarts(link: Link, es: seq<Event>) {
    es == [] ||
    (&& CalmRestarts(link, es[..|es| - 1])
     && (es[|es| - 1] == ModemRestart ==> Run(link, es[..|es| - 1]).state == Released))
  }

  ghost predicate AlwaysStrong(link: Link, es: seq<Event>) {
    Strong(Run(link, es)) && (es == [] || AlwaysStrong(link, es[..|es| - 1]))
  }

  lemma {:induction false} EmptyIffNoMember(subs: seq<Subscriber>)
    ensures subs == [] <==> forall s :: s !in subs
  {
    if subs != [] {
      assert subs[0] in subs;
    }
  }

  lemma AddKeepsList(subs: seq<Subscriber>, s: Subscriber)
    requires ListOk(subs) && !s.inactive
    ensures ListOk(WithSubscriber(subs, s))
    ensures Listed(WithSubscriber(subs, s), s.handle)
    ensures forall t :: t in subs ==> t in WithSubscriber(subs, s)
  {
    if !Listed(subs, s.handle) {
      assert forall t :: t in subs ==> t.handle != s.handle;
      assert s in subs + [s];
    }
  }

  /** Withdrawing deletes the subscriber, or leaves it listed but inactive. */
  lemma WithdrawEffect(m: Machine, h: int)
    requires ListOk(m.subs) && Listed(m.subs, h)
    ensures ListOk(Withdraw(m, h).subs) && Withdraw(m, h).state == m.state
    ensures forall s :: s in m.subs && s.handle != h ==> s in Withdraw(m, h).subs
    ensures forall s :: s in m.subs && s.inactive ==> s in Withdraw(m, h).subs
    ensures forall s :: s in Withdraw(m, h).subs && s.handle == h ==> s.inactive
  {
    DeactivateMembers(m.subs, h);
    WithoutMembers(m.subs, h);
  }

  lemma FinishReleaseKeeps(m: Machine)
    requires ListOk(m.subs)
    ensures Strong(FinishRelease(m))
  {
    UnaddressedMembers(m.subs, InactiveSubscribers);
    EmptyIffNoMember(FinishRelease(m).subs);
  }

  lemma UnsubscribeKeeps(m: Machine, h: int)
    requires Weak(m) && Listed(m.subs, h)
    ensures Weak(OnUnsubscribe(m, h))
    ensures Strong(m) ==> Strong(OnUnsubscribe(m, h))
  {
    WithdrawEffect(m, h);
    EmptyIffNoMember(Withdraw(m, h).subs);
  }

  lemma GrantedKeeps(m: Machine)
    requires Weak(m)
    ensures Weak(OnGranted(m)) && (Strong(m) ==> Strong(OnGranted(m)))
  {
  }

  /** An announcement to all that deletes whom it reaches leaves nobody. */
  lemma DropAllKeeps(m: Machine, notice: Notice)
    ensures Strong(NotifyAll(m.(state := Released), notice, true, AllSubscribers))
  {
    UnaddressedMembers(m.subs, AllSubscribers);
    EmptyIffNoMember(Unaddressed(m.subs, AllSubscribers));
  }

  lemma ReleasedKeeps(m: Machine)
    requires Weak(m)
    ensures Weak(OnReleased(m)) && (Strong(m) ==> Strong(OnReleased(m)))
  {
    match m.state
    case Acquired => DropAllKeeps(m, NoticeClosed);
    case Releasing => FinishReleaseKeeps(m);
    case _ =>
  }

  lemma DeniedKeeps(m: Machine)
    requires Weak(m)
    ensures Weak(OnDenied(m)) && (Strong(m) ==> Strong(OnDenied(m)))
  {
    match m.state
    case Pending => DropAllKeeps(m, NoticeDenied);
    case Releasing => FinishReleaseKeeps(m);
    case _ =>
  }

  lemma StepKeeps(m: Machine, e: Event)
    requires Weak(m)
    ensures Weak(Step(m, e))
    ensures Strong(m) && e != ModemRestart ==> Strong(Step(m, e))
  {
    match e {
      case Subscribe(h, wait, mask) => AddKeepsList(m.subs, Subscriber(h, wait, false, mask));
      case Unsubscribe(h) =>
        if Listed(m.subs, h) {
          UnsubscribeKeeps(m, h);
        }
      case Granted => GrantedKeeps(m);
      case ReleasedByModem => ReleasedKeeps(m);
      case Denied => DeniedKeeps(m);
      case _ =>
    }
  }

  /** A restart keeps the strong invariant exactly when it finds the machine released: it empties the list
      and keeps the state. */
  lemma RestartExact(m: Machine)
    requires Strong(m)
    ensures Strong(Step(m, ModemRestart)) <==> m.state == Released
  {
  }

  /** Every run keeps the weak invariant; the strong one holds throughout exactly the runs whose restarts
      all find the machine released. */
  lemma {:induction false} RunInvariant(link: Link, es: seq<Event>)
    ensures Weak(Run(link, es))
    ensures AlwaysStrong(link, es) <==> CalmRestarts(link, es)
    ensures CalmRestarts(link, es) ==> Strong(Run(link, es))
  {
    if es != [] {
      var m := Run(link, es[..|es| - 1]);
      RunInvariant(link, es[..|es| - 1]);
      StepKeeps(m, es[|es| - 1]);
      if Strong(m) {
        RestartExact(m);
      }
    }
  }

  /** Without such a restart the list never becomes empty by an unsubscribe while releasing. */
  lemma ReleasingNeverEmpties(link: Link, es: seq<Event>, h: int)
    requires CalmRestarts(link, es)
    requires Run(link, es).state == Releasing && Listed(Run(link, es).subs, h)
    ensures Withdraw(Run(link, es), h).subs != []
  {
    RunInvariant(link, es);
    WithdrawEffect(Run(link, es), h);
  }

  lemma WaitingAlone(link: Link) returns (es: seq<Event>)
    ensures Run(link, es).state == Releasing
  {
    var es0 := [Subscribe(1, true, 0)];
    es := es0 + [Unsubscribe(1)];
    var first := Subscriber(1, true, false, 0);
    assert es0[..0] == [] && es[..1] == es0;
    assert Run(link, []) == Initial(link);
    assert Run(link, es0).subs == [first];
    assert first in [first];
    assert Run(link, es).subs == [first.(inactive := true)];
  }

  lemma LastOneLeaves(m: Machine)
    requires m.state == Releasing && m.subs == []
    ensures var r := Step(m, Subscribe(2, false, 0));
            r.state == Releasing && Listed(r.subs, 2) && Withdraw(r, 2).subs == []
  {
    var second := Subscriber(2, false, false, 0);
    assert Step(m, Subscribe(2, false, 0)).subs == [second];
    assert second in [second] && Without([second][..0], 2) == [];
  }

  /** A restart makes that branch live, and leaves a machine that is not released with nobody listed. */
  lemma RestartBreaksStrong(link: Link) returns (es: seq<Event>)
    ensures Run(link, es).state == Releasing && Listed(Run(link, es).subs, 2)
    ensures Withdraw(Run(link, es), 2).subs == []
  {
    var waiting := WaitingAlone(link);
    Extended(link, waiting, ModemRestart);
    Extended(link, waiting + [ModemRestart], Subscribe(2, false, 0));
    LastOneLeaves(Run(link, waiting + [ModemRestart]));
    es := waiting + [ModemRestart] + [Subscribe(2, false, 0)];
  }

  // ---------------------------------------------------------------- callback conservation

  predicate Terminal(out: Output, h: int) {
    out == AtlClose(h) || (out.AtlOpen? && out.handle == h && !out.success)
  }

  ghost function Terminals(log: seq<Output>, h: int): nat {
    if log == [] then 0
    else Terminals(log[..|log| - 1], h) + (if Terminal(log[|log| - 1], h) then 1 else 0)
  }

  /** Subscriptions that entered the list. */
  ghost function Accepted(link: Link, es: seq<Event>, h: int): nat {
    if es == [] then 0
    else
      var before, e := es[..|es| - 1], es[|es| - 1];
      Accepted(link, before, h)
      + (if e.Subscribe? && e.handle == h && !Listed(Run(link, before).subs, h) then 1 else 0)
  }

  /** Subscriptions forgotten by a modem restart. */
  ghost function Forgotten(link: Link, es: seq<Event>, h: int): nat {
    if es == [] then 0
    else
      var before, e := es[..|es| - 1], es[|es| - 1];
      Forgotten(link, before, h)
      + (if e == ModemRestart && Listed(Run(link, before).subs, h) then 1 else 0)
  }

  lemma SayTerminals(log: seq<Output>, out: Output, h: int)
    ensures Terminals(log + [out], h) == Terminals(log, h) + (if Terminal(out, h) then 1 else 0)
  {
    assert (log + [out])[..|log|] == log;
  }

  /** How many subscribers with the handle an announcement reaches. */
  ghost function Reached(subs: seq<Subscriber>, audience: Audience, h: int): nat {
    if subs == [] then 0
    else
      var last := subs[|subs| - 1];
      Reached(subs[..|subs| - 1], audience, h)
      + (if Addressed(audience, last) && last.handle == h then 1 else 0)
  }

  lemma {:induction false} ReachedAreDeleted(subs: seq<Subscriber>, audience: Audience, h: int)
    ensures Reached(subs, audience, h) + Occurs(Unaddressed(subs, audience), h) == Occurs(subs, h)
  {
    if subs != [] {
      var front, last := subs[..|subs| - 1], subs[|subs| - 1];
      ReachedAreDeleted(front, audience, h);
      var kept := Unaddressed(front, audience);
      assert (kept + [last])[..|kept|] == kept && kept + [] == kept;
    }
  }

  lemma NoticesLast(log: seq<Output>, subs: seq<Subscriber>, audience: Audience, notice: Notice, link: Link)
    requires subs != []
    ensures var front, last := subs[..|subs| - 1], subs[|subs| - 1];
            log + Notices(subs, audience, notice, link)
            == if Addressed(audience, last)
               then log + Notices(front, audience, notice, link) + [Callback(notice, last.handle, link)]
               else log + Notices(front, audience, notice, link)
  {
  }

  lemma NoticeTerminates(said: seq<Output>, notice: Notice, to: int, link: Link, h: int)
    ensures Terminals(said + [Callback(notice, to, link)], h)
         == Terminals(said, h) + (if notice != NoticeGranted && to == h then 1 else 0)
  {
    SayTerminals(said, Callback(notice, to, link), h);
  }

  lemma {:induction false} NoticesTerminate(log: seq<Output>, subs: seq<Subscriber>, audience: Audience,
                                            notice: Notice, link: Link, h: int)
    ensures Terminals(log + Notices(subs, audience, notice, link), h)
         == Terminals(log, h) + (if notice == NoticeGranted then 0 else Reached(subs, audience, h))
  {
    if subs == [] {
      assert log + [] == log;
    } else {
      var front, last := subs[..|subs| - 1], subs[|subs| - 1];
      NoticesTerminate(log, front, audience, notice, link, h);
      NoticeTerminates(log + Notices(front, audience, notice, link), notice, last.handle, link, h);
      NoticesLast(log, subs, audience, notice, link);
    }
  }

  /** The two sides of the account after one step: callbacks said plus handles still listed. */
  ghost function Settled(m: Machine, h: int): nat {
    Terminals(m.log, h) + (if Listed(m.subs, h) then 1 else 0)
  }

  lemma TellSettled(m: Machine, request: bool, h: int)
    ensures Settled(TellFramework(m, request), h) == Settled(m, h)
  {
    SayTerminals(m.log, Framework(request, m.link.agpsType, m.link.apnMask), h);
  }

  lemma WithdrawSettled(m: Machine, w: int, h: int)
    requires ListOk(m.subs) && Listed(m.subs, w)
    ensures Settled(Withdraw(m, w), h) == Settled(m, h)
  {
    DeactivateMembers(m.subs, w);
    WithoutMembers(m.subs, w);
    SayTerminals(m.log, AtlClose(w), h);
    if Find(m.subs, w).waitForClose {
      assert Listed(m.subs, h) ==> exists s :: s in m.subs && s.handle == h && s in m.subs;
      assert Find(m.subs, w).(inactive := true) in Deactivate(m.subs, w);
    }
  }

  lemma NotifySettled(m: Machine, notice: Notice, audience: Audience, h: int)
    requires ListOk(m.subs) && notice != NoticeGranted
    ensures Settled(NotifyAll(m, notice, true, audience), h) == Settled(m, h)
  {
    UnaddressedMembers(m.subs, audience);
    NoticesTerminate(m.log, m.subs, audience, notice, m.link, h);
    ReachedAreDeleted(m.subs, audience, h);
    OccursListed(m.subs, h);
    OccursListed(Unaddressed(m.subs, audience), h);
  }

  lemma FinishReleaseSettled(m: Machine, h: int)
    requires ListOk(m.subs)
    ensures Settled(FinishRelease(m), h) == Settled(m, h)
  {
    NotifySettled(m, NoticeClosed, InactiveSubscribers, h);
    TellSettled(NotifyAll(m, NoticeClosed, true, InactiveSubscribers), true, h);
  }

  lemma ListedAfterAdd(subs: seq<Subscriber>, s: Subscriber, h: int)
    ensures Listed(WithSubscriber(subs, s), h) <==> Listed(subs, h) || s.handle == h
  {
    if !Listed(subs, s.handle) {
      assert s in subs + [s];
      assert forall t :: t in subs ==> t in subs + [s];
    }
  }

  lemma SubscribeSettled(m: Machine, s: Subscriber, h: int)
    ensures Settled(OnSubscribe(m, s), h)
         == Settled(m, h) + (if s.handle == h && !Listed(m.subs, h) then 1 else 0)
  {
    ListedAfterAdd(m.subs, s, h);
    match m.state {
      case Released => TellSettled(m.(subs := WithSubscriber(m.subs, s)), true, h);
      case Acquired => SayTerminals(m.log, Callback(NoticeGranted, s.handle, m.link), h);
      case _ =>
    }
  }

  lemma UnsubscribeSettled(m: Machine, w: int, h: int)
    requires Weak(m) && Listed(m.subs, w)
    ensures Settled(OnUnsubscribe(m, w), h) == Settled(m, h)
  {
    WithdrawSettled(m, w, h);
    TellSettled(Withdraw(m, w), false, h);
  }

  lemma StepSettled(m: Machine, e: Event, h: int)
    requires Weak(m)
    ensures Settled(Step(m, e), h) + (if e == ModemRestart && Listed(m.subs, h) then 1 else 0)
         == Settled(m, h) + (if e.Subscribe? && e.handle == h && !Listed(m.subs, h) then 1 else 0)
  {
    match e {
      case Subscribe(s, wait, mask) => SubscribeSettled(m, Subscriber(s, wait, false, mask), h);
      case Unsubscribe(w) =>
        if Listed(m.subs, w) {
          UnsubscribeSettled(m, w, h);
        }
      case Granted =>
        NoticesTerminate(m.log, m.subs, ActiveSubscribers, NoticeGranted, m.link, h);
      case ReleasedByModem =>
        NotifySettled(m.(state := Released), NoticeClosed, AllSubscribers, h);
        FinishReleaseSettled(m, h);
      case Denied =>
        NotifySettled(m.(state := Released), NoticeDenied, AllSubscribers, h);
        FinishReleaseSettled(m, h);
      case _ =>
    }
  }

  /** Every accepted subscription is closed or refused exactly once, forgotten by a restart, or still listed. */
  lemma {:induction false} CallbackConservation(link: Link, es: seq<Event>, h: int)
    ensures Accepted(link, es, h)
         == Terminals(Run(link, es).log, h) + Forgotten(link, es, h)
            + (if Listed(Run(link, es).subs, h) then 1 else 0)
  {
    if es != [] {
      var before := es[..|es| - 1];
      CallbackConservation(link, before, h);
      RunInvariant(link, before);
      StepSettled(Run(link, before), es[|es| - 1], h);
    }
  }

  // ---------------------------------------------------------------- open successes

  /** Open successes told to the handle since its last terminal callback. */
  ghost function OpensSince(log: seq<Output>, h: int): nat {
    if log == [] then 0
    else
      var last, earlier := log[|log| - 1], log[..|log| - 1];
      if Terminal(last, h) then 0
      else OpensSince(earlier, h) + (if last.AtlOpen? && last.handle == h then 1 else 0)
  }

  lemma SayOpens(log: seq<Output>, out: Output, h: int)
    ensures OpensSince(log + [out], h)
         == if Terminal(out, h) then 0
            else OpensSince(log, h) + (if out.AtlOpen? && out.handle == h then 1 else 0)
  {
    assert (log + [out])[..|log|] == log;
  }

  lemma {:induction false} NoticesOpen(log: seq<Output>, subs: seq<Subscriber>, audience: Audience,
                                       notice: Notice, link: Link, h: int)
    ensures OpensSince(log + Notices(subs, audience, notice, link), h)
         == if notice == NoticeGranted then OpensSince(log, h) + Reached(subs, audience, h)
            else if Reached(subs, audience, h) > 0 then 0 else OpensSince(log, h)
  {
    if subs == [] {
      assert log + [] == log;
    } else {
      var front, last := subs[..|subs| - 1], subs[|subs| - 1];
      NoticesOpen(log, front, audience, notice, link, h);
      var said, out := log + Notices(front, audience, notice, link), Callback(notice, last.handle, link);
      SayOpens(said, out, h);
      assert log + Notices(subs, audience, notice, link)
          == if Addressed(audience, last) then said + [out] else said;
    }
  }

  ghost predicate ListedTo(subs: seq<Subscriber>, audience: Audience, h: int) {
    exists s :: s in subs && s.handle == h && Addressed(audience, s)
  }

  lemma {:induction false} ReachedOnce(subs: seq<Subscriber>, audience: Audience, h: int)
    requires Distinct(subs)
    ensures Reached(subs, audience, h) == if ListedTo(subs, audience, h) then 1 else 0
  {
    if subs != [] {
      var front, last := subs[..|subs| - 1], subs[|subs| - 1];
      assert subs == front + [last];
      ReachedOnce(front, audience, h);
    }
  }

  /** An active subscriber has one open success while the connection is up and none otherwise;
      an inactive one has at most one, a handle that is not listed none. */
  ghost predicate OpensOk(m: Machine, h: int) {
    && OpensSince(m.log, h) <= (if Listed(m.subs, h) then 1 else 0)
    && (ListedTo(m.subs, ActiveSubscribers, h) ==>
          OpensSince(m.log, h) == if m.state == Acquired then 1 else 0)
  }

  /** On a connection that is up no request repeats a listed handle that has heard a success. */
  ghost predicate FreshRequest(m: Machine, e: Event, h: int) {
    !(e.Subscribe? && e.handle == h && m.state == Acquired && Listed(m.subs, h) && OpensSince(m.log, h) > 0)
  }

  ghost predicate FreshRequests(link: Link, es: seq<Event>, h: int) {
    es == [] ||
    (&& FreshRequests(link, es[..|es| - 1], h)
     && FreshRequest(Run(link, es[..|es| - 1]), es[|es| - 1], h))
  }

  ghost predicate AlwaysOpensOk(link: Link, es: seq<Event>, h: int) {
    OpensOk(Run(link, es), h) && (es == [] || AlwaysOpensOk(link, es[..|es| - 1], h))
  }

  lemma SubscribeOpens(m: Machine, s: Subscriber, h: int)
    requires Strong(m) && OpensOk(m, h) && !s.inactive
    ensures OpensOk(OnSubscribe(m, s), h)
       <==> !(s.handle == h && m.state == Acquired && Listed(m.subs, h) && OpensSince(m.log, h) > 0)
  {
    ListedAfterAdd(m.subs, s, h);
    assert forall t :: t in WithSubscriber(m.subs, s) ==> t in m.subs || t == s;
    match m.state {
      case Released => SayOpens(m.log, Framework(true, m.link.agpsType, m.link.apnMask), h);
      case Acquired => SayOpens(m.log, Callback(NoticeGranted, s.handle, m.link), h);
      case _ =>
    }
  }

  lemma WithdrawOpens(m: Machine, w: int, h: int)
    requires ListOk(m.subs) && OpensOk(m, h) && Listed(m.subs, w)
    ensures OpensOk(Withdraw(m, w), h)
  {
    DeactivateMembers(m.subs, w);
    WithoutMembers(m.subs, w);
    SayOpens(m.log, AtlClose(w), h);
    if Find(m.subs, w).waitForClose {
      assert Find(m.subs, w).(inactive := true) in Deactivate(m.subs, w);
    }
  }

  lemma UnsubscribeOpens(m: Machine, w: int, h: int)
    requires Strong(m) && OpensOk(m, h) && Listed(m.subs, w)
    ensures OpensOk(OnUnsubscribe(m, w), h)
  {
    WithdrawOpens(m, w, h);
    WithdrawEffect(m, w);
    EmptyIffNoMember(Withdraw(m, w).subs);
    SayOpens(Withdraw(m, w).log, Framework(false, m.link.agpsType, m.link.apnMask), h);
  }

  lemma NotifyOpens(m: Machine, notice: Notice, audience: Audience, h: int)
    requires Distinct(m.subs) && notice != NoticeGranted
    ensures OpensSince(NotifyAll(m, notice, true, audience).log, h)
         == if ListedTo(m.subs, audience, h) then 0 else OpensSince(m.log, h)
  {
    ReachedOnce(m.subs, audience, h);
    NoticesOpen(m.log, m.subs, audience, notice, m.link, h);
  }

  lemma FinishReleaseOpens(m: Machine, h: int)
    requires Strong(m) && OpensOk(m, h) && m.state == Releasing
    ensures OpensOk(FinishRelease(m), h)
  {
    var n := NotifyAll(m, NoticeClosed, true, InactiveSubscribers);
    UnaddressedMembers(m.subs, InactiveSubscribers);
    NotifyOpens(m, NoticeClosed, InactiveSubscribers, h);
    SayOpens(n.log, Framework(true, m.link.agpsType, m.link.apnMask), h);
  }

  /** A step keeps the count of successes right exactly when it repeats no request that heard one. */
  lemma StepOpens(m: Machine, e: Event, h: int)
    requires Strong(m) && OpensOk(m, h) && (e == ModemRestart ==> m.state == Released)
    ensures OpensOk(Step(m, e), h) <==> FreshRequest(m, e, h)
  {
    UnaddressedMembers(m.subs, AllSubscribers);
    match e {
      case Subscribe(s, wait, mask) => SubscribeOpens(m, Subscriber(s, wait, false, mask), h);
      case Unsubscribe(w) =>
        if Listed(m.subs, w) {
          UnsubscribeOpens(m, w, h);
        }
      case Granted =>
        ReachedOnce(m.subs, ActiveSubscribers, h);
        NoticesOpen(m.log, m.subs, ActiveSubscribers, NoticeGranted, m.link, h);
      case Configure(_) =>
      case ModemRestart =>
      case _ => AnswerOpens(m, h);
    }
  }

  lemma AnswerOpens(m: Machine, h: int)
    requires Strong(m) && OpensOk(m, h)
    ensures OpensOk(OnReleased(m), h) && OpensOk(OnDenied(m), h)
  {
    UnaddressedMembers(m.subs, AllSubscribers);
    NotifyOpens(m.(state := Released), NoticeClosed, AllSubscribers, h);
    NotifyOpens(m.(state := Released), NoticeDenied, AllSubscribers, h);
    if m.state == Releasing {
      FinishReleaseOpens(m, h);
    }
  }

  /** When restarts find the machine released, a subscription hears at most one open success, and exactly
      one once it is active on a connection that is up, throughout exactly the runs without repeats of a
      request that heard one. */
  lemma {:induction false} OpenSuccessAtMostOnce(link: Link, es: seq<Event>, h: int)
    requires CalmRestarts(link, es)
    ensures AlwaysOpensOk(link, es, h) <==> FreshRequests(link, es, h)
  {
    if es != [] {
      var before := es[..|es| - 1];
      OpenSuccessAtMostOnce(link, before, h);
      RunInvariant(link, before);
      if OpensOk(Run(link, before), h) {
        StepOpens(Run(link, before), es[|es| - 1], h);
      }
    }
  }

  /** A repeated request on a connection that is up does tell the subscription a second success. */
  lemma RepeatedRequestRepeatsSuccess(m: Machine, h: int, wait: bool, mask: bv32)
    requires OpensOk(m, h) && m.state == Acquired && Listed(m.subs, h) && OpensSince(m.log, h) > 0
    ensures OpensSince(Step(m, Subscribe(h, wait, mask)).log, h) == 2
    ensures Step(m, Subscribe(h, wait, mask)).subs == m.subs
  {
    SayOpens(m.log, Callback(NoticeGranted, h, m.link), h);
  }

  lemma Extended(link: Link, es: seq<Event>, e: Event)
    ensures Run(link, es + [e]) == Step(Run(link, es), e)
    ensures CalmRestarts(link, es + [e])
       <==> CalmRestarts(link, es) && (e == ModemRestart ==> Run(link, es).state == Released)
  {
    assert (es + [e])[..|es|] == es;
  }

  /** Subscribing, being granted and subscribing again tells one subscription two successes. */
  lemma SuccessTwice(link: Link) returns (es: seq<Event>)
    ensures CalmRestarts(link, es) && OpensSince(Run(link, es).log, 1) == 2
  {
    var s := Subscriber(1, false, false, 0);
    assert CalmRestarts(link, []);
    Extended(link, [], Subscribe(1, false, 0));
    var es1 := [] + [Subscribe(1, false, 0)];
    assert Run(link, es1).subs == [s] && Run(link, es1).state == Pending;
    Extended(link, es1, Granted);
    var m := Run(link, es1 + [Granted]);
    assert Notices([s][..0], ActiveSubscribers, NoticeGranted, link) == [];
    assert m.subs == [s] && s in m.subs && m.state == Acquired;
    SayOpens([], Framework(true, link.agpsType, link.apnMask), 1);
    SayOpens(Run(link, es1).log, Callback(NoticeGranted, 1, link), 1);
    assert [] + [Framework(true, link.agpsType, link.apnMask)] == Run(link, es1).log;
    assert OpensSince(m.log, 1) == 1;
    es := es1 + [Granted] + [Subscribe(1, false, 0)];
    Extended(link, es1 + [Granted], Subscribe(1, false, 0));
    RepeatedRequestRepeatsSuccess(m, 1, false, 0);
  }

  // ---------------------------------------------------------------- framework protocol

  datatype LastCall = NoCall | Requested | ReleaseSent

  ghost function LastFramework(log: seq<Output>): LastCall {
    if log == [] then NoCall
    else
      match log[|log| - 1]
      case Framework(request, _, _) => if request then Requested else ReleaseSent
      case _ => LastFramework(log[..|log| - 1])
  }

  /** Every release follows a request with no other release in between. */
  ghost predicate Alternates(log: seq<Output>) {
    log == [] ||
    var last, earlier := log[|log| - 1], log[..|log| - 1];
    && Alternates(earlier)
    && (last.Framework? && !last.request ==> LastFramework(earlier) == Requested)
  }

  ghost predicate ProtocolOk(m: Machine) {
    && Alternates(m.log)
    && (m.state in {Pending, Acquired} ==> LastFramework(m.log) == Requested)
    && (m.state == Releasing ==> LastFramework(m.log) == ReleaseSent)
  }

  lemma SayProtocol(log: seq<Output>, out: Output)
    requires Alternates(log)
    requires out.Framework? && !out.request ==> LastFramework(log) == Requested
    ensures Alternates(log + [out])
    ensures LastFramework(log + [out])
         == if out.Framework? then (if out.request then Requested else ReleaseSent) else LastFramework(log)
  {
    assert (log + [out])[..|log|] == log;
  }

  lemma {:induction false} NoticesProtocol(log: seq<Output>, subs: seq<Subscriber>, audience: Audience,
                                           notice: Notice, link: Link)
    requires Alternates(log)
    ensures Alternates(log + Notices(subs, audience, notice, link))
    ensures LastFramework(log + Notices(subs, audience, notice, link)) == LastFramework(log)
  {
    if subs == [] {
      assert log + [] == log;
    } else {
      var front, last := subs[..|subs| - 1], subs[|subs| - 1];
      NoticesProtocol(log, front, audience, notice, link);
      SayProtocol(log + Notices(front, audience, notice, link), Callback(notice, last.handle, link));
      NoticesLast(log, subs, audience, notice, link);
    }
  }

  lemma WithdrawProtocol(m: Machine, h: int)
    requires ProtocolOk(m) && Listed(m.subs, h)
    ensures ProtocolOk(Withdraw(m, h)) && LastFramework(Withdraw(m, h).log) == LastFramework(m.log)
  {
    SayProtocol(m.log, AtlClose(h));
  }

  lemma UnsubscribeProtocol(m: Machine, h: int)
    requires ProtocolOk(m) && Listed(m.subs, h)
    ensures ProtocolOk(OnUnsubscribe(m, h))
  {
    if m.state == Released {
      SayProtocol(m.log, AtlClose(h));
    } else {
      WithdrawProtocol(m, h);
      if m.state != Releasing {
        SayProtocol(Withdraw(m, h).log, Framework(false, m.link.agpsType, m.link.apnMask));
      }
    }
  }

  lemma SubscribeProtocol(m: Machine, s: Subscriber)
    requires ProtocolOk(m)
    ensures ProtocolOk(OnSubscribe(m, s))
  {
    SayProtocol(m.log, Framework(true, m.link.agpsType, m.link.apnMask));
    SayProtocol(m.log, Callback(NoticeGranted, s.handle, m.link));
  }

  lemma NotifyProtocol(m: Machine, notice: Notice, delete: bool, audience: Audience)
    requires Alternates(m.log)
    ensures var n := NotifyAll(m, notice, delete, audience);
            Alternates(n.log) && LastFramework(n.log) == LastFramework(m.log)
  {
    NoticesProtocol(m.log, m.subs, audience, notice, m.link);
  }

  lemma AnswerProtocol(m: Machine)
    requires ProtocolOk(m)
    ensures ProtocolOk(OnGranted(m)) && ProtocolOk(OnReleased(m)) && ProtocolOk(OnDenied(m))
  {
    NotifyProtocol(m.(state := Acquired), NoticeGranted, false, ActiveSubscribers);
    NotifyProtocol(m.(state := Released), NoticeClosed, true, AllSubscribers);
    NotifyProtocol(m.(state := Released), NoticeDenied, true, AllSubscribers);
    FinishReleaseProtocol(m);
  }

  lemma StepProtocol(m: Machine, e: Event)
    requires ProtocolOk(m)
    ensures ProtocolOk(Step(m, e))
  {
    match e
    case Subscribe(h, wait, mask) => SubscribeProtocol(m, Subscriber(h, wait, false, mask));
    case Unsubscribe(h) =>
      if Listed(m.subs, h) {
        UnsubscribeProtocol(m, h);
      }
    case _ => AnswerProtocol(m);
  }

  lemma FinishReleaseProtocol(m: Machine)
    requires Alternates(m.log)
    ensures ProtocolOk(FinishRelease(m))
  {
    NotifyProtocol(m, NoticeClosed, true, InactiveSubscribers);
    SayProtocol(NotifyAll(m, NoticeClosed, true, InactiveSubscribers).log,
                Framework(true, m.link.agpsType, m.link.apnMask));
  }

  /** In every run, restarts included, requests and releases of the data connection alternate properly
      and the state says which came last. */
  lemma {:induction false} FrameworkProtocol(link: Link, es: seq<Event>)
    ensures ProtocolOk(Run(link, es))
  {
    if es != [] {
      FrameworkProtocol(link, es[..|es| - 1]);
      StepProtocol(Run(link, es[..|es| - 1]), es[|es| - 1]);
    }
  }

  // ---------------------------------------------------------------- subscribers that never wait

  /** Requests made through the manager never wait for the close to complete. */
  ghost predicate NeverWaits(es: seq<Event>) {
    forall e :: e in es && e.Subscribe? ==> !e.waitForClose
  }

  ghost predicate AllActive(m: Machine) {
    m.state != Releasing && forall s :: s in m.subs ==> !s.waitForClose && !s.inactive
  }

  lemma UnsubscribeActive(m: Machine, h: int)
    requires AllActive(m) && ListOk(m.subs) && Listed(m.subs, h)
    ensures AllActive(OnUnsubscribe(m, h))
  {
    DeactivateMembers(m.subs, h);
    WithoutMembers(m.subs, h);
    EmptyIffNoMember(Withdraw(m, h).subs);
  }

  lemma StepActive(m: Machine, e: Event)
    requires AllActive(m) && ListOk(m.subs) && (e.Subscribe? ==> !e.waitForClose)
    ensures AllActive(Step(m, e))
  {
    UnaddressedMembers(m.subs, AllSubscribers);
    if e.Unsubscribe? && Listed(m.subs, e.handle) {
      UnsubscribeActive(m, e.handle);
    }
  }

  /** Then nobody is ever inactive and the connection is never in the releasing state, restarts included. */
  lemma {:induction false} NeverReleasing(link: Link, es: seq<Event>)
    requires NeverWaits(es)
    ensures AllActive(Run(link, es))
  {
    if es != [] {
      var before, e := es[..|es| - 1], es[|es| - 1];
      assert e in es && forall x :: x in before ==> x in es;
      NeverReleasing(link, before);
      RunInvariant(link, before);
      StepActive(Run(link, before), e);
    }
  }
}

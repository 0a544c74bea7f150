/** The AGPS state machine and manager as the objects they are: fields updated in place, a
    subscriber list erased from while it is walked. Every method is proved to do to the
    abstract machine what AgpsSpec and AgpsManagerSpec say. */
module Agps {
  import opened Wrappers
  import opened AgpsSpec
  import opened AgpsManagerSpec

  class AgpsStateMachine {
    var state: State
    var subscribers: seq<Subscriber>
    var link: Link
    ghost var log: seq<Output>

    ghost function View(): Machine
      reads this
    {
      Machine(state, subscribers, link, log)
    }

    constructor (agpsType: int)
      ensures View() == Initial(FreshLink(agpsType))
    {
      state := Released;
      subscribers := [];
      link := FreshLink(agpsType);
      log := [];
    }

    method SetLink(newLink: Link)
      modifies this
      ensures View() == Step(old(View()), Configure(newLink))
    {
      link := newLink;
    }

    method GetSubscriber(h: int) returns (found: Option<Subscriber>)
      ensures found == if Listed(subscribers, h) then Some(Find(subscribers, h)) else None
    {
      var i := 0;
      while i < |subscribers|
        invariant 0 <= i <= |subscribers|
        invariant Listed(subscribers, h) <==> Listed(subscribers[i..], h)
        invariant Listed(subscribers, h) ==> Find(subscribers, h) == Find(subscribers[i..], h)
      {
        var rest := subscribers[i..];
        if subscribers[i].handle == h {
          assert rest[0] in rest;
          return Some(subscribers[i]);
        }
        assert rest == [rest[0]] + rest[1..] && rest[1..] == subscribers[i + 1..];
        i := i + 1;
      }
      return None;
    }

    method AddSubscriber(s: Subscriber)
      modifies this`subscribers
      ensures subscribers == WithSubscriber(old(subscribers), s)
    {
      var i := 0;
      while i < |subscribers|
        invariant 0 <= i <= |subscribers|
        invariant subscribers == old(subscribers)
        invariant !Listed(subscribers[..i], s.handle)
      {
        if subscribers[i].handle == s.handle {
          assert subscribers[i] in subscribers;
          return;
        }
        assert subscribers[..i + 1] == subscribers[..i] + [subscribers[i]];
        i := i + 1;
      }
      assert subscribers[..i] == subscribers;
      subscribers := subscribers + [s];
    }

    method DeleteSubscriber(h: int)
      modifies this`subscribers
      ensures subscribers == Without(old(subscribers), h)
    {
      ghost var all := subscribers;
      ghost var walked := 0;
      var i := 0;
      while i < |subscribers|
        invariant 0 <= walked <= |all|
        invariant i == |Without(all[..walked], h)|
        invariant subscribers == Without(all[..walked], h) + all[walked..]
        decreases |subscribers| - i
      {
        WithoutOne(all, walked, h);
        if subscribers[i].handle == h {
          subscribers := subscribers[..i] + subscribers[i + 1..];
        } else {
          i := i + 1;
        }
        walked := walked + 1;
      }
      assert all[..walked] == all;
    }

    method AnyActiveSubscribers() returns (active: bool)
      ensures active == AnyActive(subscribers)
    {
      var i := 0;
      while i < |subscribers|
        invariant 0 <= i <= |subscribers|
        invariant !AnyActive(subscribers[..i])
      {
        if !subscribers[i].inactive {
          assert subscribers[i] in subscribers;
          return true;
        }
        assert subscribers[..i + 1] == subscribers[..i] + [subscribers[i]];
        i := i + 1;
      }
      assert subscribers[..i] == subscribers;
      return false;
    }

    /** The current subscriber is the first listed one with its handle. */
    method DeactivateSubscriber(h: int)
      requires Listed(subscribers, h)
      modifies this`subscribers
      ensures subscribers == Deactivate(old(subscribers), h)
    {
      ghost var k := DeactivateAt(subscribers, h);
      var i := 0;
      while subscribers[i].handle != h
        invariant 0 <= i <= k < |subscribers|
        invariant subscribers == old(subscribers)
        decreases k - i
      {
        i := i + 1;
      }
      subscribers := subscribers[i := subscribers[i].(inactive := true)];
    }

    method DropAllSubscribers()
      modifies this`subscribers
      ensures subscribers == []
    {
      while |subscribers| > 0
        decreases |subscribers|
      {
        subscribers := subscribers[1..];
      }
    }

    method NotifyEventToSubscriber(notice: Notice, h: int, delete: bool)
      modifies this`log, this`subscribers
      ensures log == old(log) + [Callback(notice, h, link)]
      ensures subscribers == if delete then Without(old(subscribers), h) else old(subscribers)
    {
      log := log + [Callback(notice, h, link)];
      if delete {
        DeleteSubscriber(h);
      }
    }

    /** One turn of the walk: the iterator stays in place when it erases what it stands on. */
    method AnnounceAt(i: nat, notice: Notice, delete: bool, audience: Audience) returns (next: nat)
      requires i < |subscribers|
      modifies this`log, this`subscribers
      ensures log == NextLog(old(log), old(subscribers)[i], notice, audience, link)
      ensures subscribers == NextSubs(old(subscribers), i, delete, audience)
      ensures next == NextAt(old(subscribers)[i], i, delete, audience)
    {
      next := i;
      if Addressed(audience, subscribers[i]) {
        NotifyEventToSubscriber(notice, subscribers[i].handle, false);
        if delete {
          subscribers := subscribers[..i] + subscribers[i + 1..];
        } else {
          next := i + 1;
        }
      } else {
        next := i + 1;
      }
    }

    /** The same, with the account of the whole walk. */
    method WalkOn(ghost m: Machine, ghost k: nat, i: nat, notice: Notice, delete: bool, audience: Audience)
      returns (next: nat)
      requires i < |subscribers| && link == m.link
      requires Walked(m, notice, delete, audience, k, i, subscribers, log)
      modifies this`log, this`subscribers
      ensures Walked(m, notice, delete, audience, k + 1, next, subscribers, log)
    {
      WalkOne(m, notice, delete, audience, k, i, subscribers, log);
      next := AnnounceAt(i, notice, delete, audience);
    }

    method NotifyAllSubscribers(notice: Notice, delete: bool, audience: Audience)
      modifies this`log, this`subscribers
      ensures View() == NotifyAll(old(View()), notice, delete, audience)
    {
      ghost var m := View();
      ghost var walked := 0;
      WalkStart(m, notice, delete, audience);
      var i: nat := 0;
      while i < |subscribers|
        invariant Walked(m, notice, delete, audience, walked, i, subscribers, log)
        decreases |m.subs| - walked
      {
        WalkBound(m, notice, delete, audience, walked, i, subscribers, log);
        i := WalkOn(m, walked, i, notice, delete, audience);
        walked := walked + 1;
      }
      WalkDone(m, notice, delete, audience, walked, i, subscribers, log);
    }

    method RequestOrReleaseDataConn(request: bool)
      modifies this`log
      ensures View() == TellFramework(old(View()), request)
    {
      log := log + [Framework(request, link.agpsType, link.apnMask)];
    }

    method ProcessSubscribe(s: Subscriber)
      modifies this
      ensures View() == OnSubscribe(old(View()), s)
    {
      match state {
        case Released =>
          AddSubscriber(s);
          RequestOrReleaseDataConn(true);
          state := Pending;
        case Pending =>
          AddSubscriber(s);
        case Acquired =>
          NotifyEventToSubscriber(NoticeGranted, s.handle, false);
          AddSubscriber(s);
        case Releasing =>
          AddSubscriber(s);
      }
    }

    method WithdrawCurrent(current: Subscriber)
      requires Listed(subscribers, current.handle) && current == Find(subscribers, current.handle)
      modifies this`log, this`subscribers
      ensures View() == Withdraw(old(View()), current.handle)
    {
      if current.waitForClose {
        DeactivateSubscriber(current.handle);
      } else {
        NotifyEventToSubscriber(NoticeClosed, current.handle, true);
      }
    }

    method ProcessUnsubscribe(current: Subscriber)
      requires Listed(subscribers, current.handle) && current == Find(subscribers, current.handle)
      modifies this
      ensures View() == OnUnsubscribe(old(View()), current.handle)
    {
      match state {
        case Released =>
          NotifyEventToSubscriber(NoticeClosed, current.handle, false);
        case Releasing =>
          WithdrawCurrent(current);
          if |subscribers| == 0 {
            state := Released;
          }
        case _ =>
          WithdrawCurrent(current);
          var active := AnyActiveSubscribers();
          if |subscribers| == 0 {
            state := Released;
            RequestOrReleaseDataConn(false);
          } else if !active {
            state := Releasing;
            RequestOrReleaseDataConn(false);
          }
      }
    }

    method ProcessGranted()
      modifies this
      ensures View() == Step(old(View()), Granted)
    {
      if state == Pending {
        state := Acquired;
        NotifyAllSubscribers(NoticeGranted, false, ActiveSubscribers);
      }
    }

    method NotifyReleaseFinished()
      modifies this
      ensures View() == FinishRelease(old(View()))
    {
      NotifyAllSubscribers(NoticeClosed, true, InactiveSubscribers);
      var active := AnyActiveSubscribers();
      if active {
        state := Pending;
        RequestOrReleaseDataConn(true);
      } else {
        state := Released;
      }
    }

    method ProcessReleased()
      modifies this
      ensures View() == Step(old(View()), ReleasedByModem)
    {
      match state {
        case Acquired =>
          state := Released;
          NotifyAllSubscribers(NoticeClosed, true, AllSubscribers);
        case Releasing =>
          NotifyReleaseFinished();
        case _ =>
      }
    }

    method ProcessDenied()
      modifies this
      ensures View() == Step(old(View()), Denied)
    {
      match state {
        case Pending =>
          state := Released;
          NotifyAllSubscribers(NoticeDenied, true, AllSubscribers);
        case Releasing =>
          NotifyReleaseFinished();
        case _ =>
      }
    }
  }

  class AgpsManager {
    var agnssNif: AgpsStateMachine?
    var internetNif: AgpsStateMachine?
    ghost var refused: seq<Output>
    ghost var Repr: set<object>

    ghost predicate Valid()
      reads this, Repr
    {
      && this in Repr
      && (agnssNif != null ==> agnssNif in Repr)
      && (internetNif != null ==> internetNif in Repr)
      && (agnssNif != null ==> agnssNif != internetNif)
    }

    ghost function View(): Manager
      reads this, Repr
      requires Valid()
    {
      Manager(if agnssNif == null then None else Some(agnssNif.View()),
              if internetNif == null then None else Some(internetNif.View()),
              refused)
    }

    constructor ()
      ensures Valid() && fresh(Repr)
      ensures View() == ManagerRun([])
    {
      agnssNif, internetNif := null, null;
      refused := [];
      Repr := {this};
    }

    method CreateAgpsStateMachines(agpsCapable: bool, wwan: bool, supl: bool, suplEs: bool)
      requires Valid()
      modifies Repr
      ensures Valid() && fresh(Repr - old(Repr))
      ensures View() == ManagerStep(old(View()), Create(agpsCapable, wwan, supl, suplEs))
    {
      if internetNif == null && wwan {
        internetNif := new AgpsStateMachine(TYPE_WWAN_ANY);
        Repr := Repr + {internetNif};
      }
      if agpsCapable {
        if agnssNif == null && supl && suplEs {
          agnssNif := new AgpsStateMachine(TYPE_SUPL);
          Repr := Repr + {agnssNif};
        }
      }
    }

    method GetAgpsStateMachine(agpsType: int) returns (sm: AgpsStateMachine?)
      requires Valid()
      ensures sm == if RoutesToAgnss(agpsType) then agnssNif else internetNif
    {
      if agpsType == TYPE_INVALID || agpsType == TYPE_SUPL || agpsType == TYPE_SUPL_ES {
        sm := agnssNif;
      } else {
        sm := internetNif;
      }
    }

    /** Without an emergency PDN an emergency SUPL request becomes a plain one. */
    static method DowngradeEmergency(requestedType: int, requestedMask: bv32, emergencyPdn: bool)
      returns (agpsType: int, apnMask: bv32)
      ensures agpsType == EffectiveType(requestedType, emergencyPdn)
      ensures apnMask == EffectiveMask(requestedType, requestedMask, emergencyPdn)
    {
      agpsType, apnMask := requestedType, requestedMask;
      if !emergencyPdn && agpsType == TYPE_SUPL_ES {
        agpsType := TYPE_SUPL;
        apnMask := apnMask & !APN_MASK_EMERGENCY;
        apnMask := apnMask | APN_MASK_SUPL;
      }
    }

    method RequestAtl(h: int, requestedType: int, requestedMask: bv32, emergencyPdn: bool)
      requires Valid()
      modifies Repr
      ensures Valid() && Repr == old(Repr)
      ensures View() == ManagerStep(old(View()), AgpsManagerSpec.RequestAtl(h, requestedType, requestedMask,
                                                                            emergencyPdn))
    {
      var agpsType, apnMask := DowngradeEmergency(requestedType, requestedMask, emergencyPdn);
      var sm := GetAgpsStateMachine(agpsType);
      if sm == null {
        refused := refused + [AtlOpen(h, false, Link(agpsType, apnMask, "", BEARER_INVALID))];
        return;
      }
      sm.SetLink(sm.link.(agpsType := agpsType, apnMask := apnMask));
      sm.ProcessSubscribe(Subscriber(h, false, false, apnMask));
    }

    method ReleaseAtl(h: int)
      requires Valid()
      modifies Repr
      ensures Valid() && Repr == old(Repr)
      ensures View() == ManagerStep(old(View()), AgpsManagerSpec.ReleaseAtl(h))
    {
      var found: Option<Subscriber> := None;
      if agnssNif != null {
        found := agnssNif.GetSubscriber(h);
        if found.Some? {
          FindMember(agnssNif.subscribers, h);
          agnssNif.ProcessUnsubscribe(found.value);
          return;
        }
      }
      if internetNif != null {
        found := internetNif.GetSubscriber(h);
        if found.Some? {
          FindMember(internetNif.subscribers, h);
          internetNif.ProcessUnsubscribe(found.value);
        }
      }
    }

    /** The original dereferences the machine without looking, so it must exist. */
    method ReportAtlOpenSuccess(agpsType: int, apn: Option<string>, apnLen: int, bearer: int)
      requires Valid() && Routed(View(), agpsType).Some?
      modifies Repr
      ensures Valid() && Repr == old(Repr)
      ensures View() == ManagerStep(old(View()), ReportOpenSuccess(agpsType, apn, apnLen, bearer))
    {
      var sm := GetAgpsStateMachine(agpsType);
      sm.SetLink(sm.link.(apn := AcceptedApn(apn, apnLen), bearer := bearer));
      sm.ProcessGranted();
    }

    method ReportAtlOpenFailed(agpsType: int)
      requires Valid() && Routed(View(), agpsType).Some?
      modifies Repr
      ensures Valid() && Repr == old(Repr)
      ensures View() == ManagerStep(old(View()), ReportOpenFailed(agpsType))
    {
      var sm := GetAgpsStateMachine(agpsType);
      sm.ProcessDenied();
    }

    method ReportAtlClosed(agpsType: int)
      requires Valid() && Routed(View(), agpsType).Some?
      modifies Repr
      ensures Valid() && Repr == old(Repr)
      ensures View() == ManagerStep(old(View()), ReportClosed(agpsType))
    {
      var sm := GetAgpsStateMachine(agpsType);
      sm.ProcessReleased();
    }

    method HandleModemSsr()
      requires Valid()
      modifies Repr
      ensures Valid() && Repr == old(Repr)
      ensures View() == ManagerStep(old(View()), ModemSsr)
    {
      if agnssNif != null {
        agnssNif.DropAllSubscribers();
      }
      if internetNif != null {
        internetNif.DropAllSubscribers();
      }
    }
  }
}

/** What one message makes the AGPS machine say, to whom, and whom it leaves listed: told subscriber by
    subscriber, without the walks that compute it. */
module AgpsEffects {
  import opened Wrappers
  import opened AgpsSpec

  // ---------------------------------------------------------------- callbacks to one handle

  predicate To(out: Output, h: int) {
    (out.AtlOpen? && out.handle == h) || out == AtlClose(h)
  }

  /** What a handle has been told, in order. */
  ghost function About(log: seq<Output>, h: int): seq<Output> {
    if log == [] then []
    else About(log[..|log| - 1], h) + (if To(log[|log| - 1], h) then [log[|log| - 1]] else [])
  }

  function With(log: seq<Output>, out: Option<Output>): seq<Output> {
    match out
    case None => log
    case Some(o) => log + [o]
  }

  lemma AboutNext(log: seq<Output>, out: Output, h: int)
    ensures About(log + [out], h) == With(About(log, h), if To(out, h) then Some(out) else None)
  {
    assert (log + [out])[..|log|] == log;
    assert About(log, h) + [] == About(log, h);
  }

  ghost predicate Has(subs: seq<Subscriber>, h: int) {
    exists s :: s in subs && s.handle == h
  }

  ghost predicate HasActive(subs: seq<Subscriber>, h: int) {
    exists s :: s in subs && s.handle == h && !s.inactive
  }

  ghost predicate HasInactive(subs: seq<Subscriber>, h: int) {
    exists s :: s in subs && s.handle == h && s.inactive
  }

  /** A success when subscribing to or granting a connection, a failure when one is denied that was asked for,
      a close when the connection goes or the subscriber leaves without waiting. */
  ghost function Told(m: Machine, e: Event, h: int): Option<Output> {
    match e
    case Subscribe(x, _, _) => if x == h && m.state == Acquired then Some(AtlOpen(h, true, m.link)) else None
    case Unsubscribe(x) =>
      if x == h && exists s :: s in m.subs && s.handle == h && !s.waitForClose then Some(AtlClose(h)) else None
    case Granted => if m.state == Pending && HasActive(m.subs, h) then Some(AtlOpen(h, true, m.link)) else None
    case ReleasedByModem =>
      if m.state == Acquired && Has(m.subs, h) then Some(AtlClose(h))
      else if m.state == Releasing && HasInactive(m.subs, h) then Some(AtlClose(h))
      else None
    case Denied =>
      if m.state == Pending && Has(m.subs, h) then Some(AtlOpen(h, false, m.link))
      else if m.state == Releasing && HasInactive(m.subs, h) then Some(AtlClose(h))
      else None
    case _ => None
  }

  ghost function Said(notice: Notice, h: int, link: Link): Output {
    match notice
    case NoticeGranted => AtlOpen(h, true, link)
    case NoticeDenied => AtlOpen(h, false, link)
    case NoticeClosed => AtlClose(h)
  }

  lemma ListedToLast(front: seq<Subscriber>, last: Subscriber, audience: Audience, h: int)
    ensures ListedTo(front + [last], audience, h) <==>
              ListedTo(front, audience, h) || (last.handle == h && Addressed(audience, last))
    ensures Distinct(front + [last]) ==> Distinct(front)
    ensures Distinct(front + [last]) && last.handle == h ==> !ListedTo(front, audience, h)
  {
    var subs := front + [last];
    assert subs[|front|] == last && forall i :: 0 <= i < |front| ==> subs[i] == front[i];
    assert last in subs && forall s :: s in front ==> s in subs;
  }

  lemma NoticeAbout(said: seq<Output>, notice: Notice, to: int, link: Link, h: int)
    ensures About(said + [Callback(notice, to, link)], h)
         == With(About(said, h), if to == h then Some(Said(notice, h, link)) else None)
  {
    AboutNext(said, Callback(notice, to, link), h);
  }

  lemma {:induction false} NoticesAbout(log: seq<Output>, subs: seq<Subscriber>, audience: Audience,
                                        notice: Notice, link: Link, h: int)
    requires Distinct(subs)
    ensures About(log + Notices(subs, audience, notice, link), h)
         == With(About(log, h), if ListedTo(subs, audience, h) then Some(Said(notice, h, link)) else None)
  {
    if subs == [] {
      assert log + [] == log;
    } else {
      var front, last := subs[..|subs| - 1], subs[|subs| - 1];
      assert subs == front + [last];
      ListedToLast(front, last, audience, h);
      NoticesAbout(log, front, audience, notice, link, h);
      NoticesLast(log, subs, audience, notice, link);
      NoticeAbout(log + Notices(front, audience, notice, link), notice, last.handle, link, h);
    }
  }

  lemma NotifyTells(m: Machine, notice: Notice, delete: bool, audience: Audience, h: int)
    requires Distinct(m.subs)
    ensures About(NotifyAll(m, notice, delete, audience).log, h)
         == With(About(m.log, h), if ListedTo(m.subs, audience, h) then Some(Said(notice, h, m.link)) else None)
    ensures ListedTo(m.subs, AllSubscribers, h) <==> Has(m.subs, h)
    ensures ListedTo(m.subs, ActiveSubscribers, h) <==> HasActive(m.subs, h)
    ensures ListedTo(m.subs, InactiveSubscribers, h) <==> HasInactive(m.subs, h)
  {
    NoticesAbout(m.log, m.subs, audience, notice, m.link, h);
  }

  lemma CallsTellNobody(log: seq<Output>, request: bool, agpsType: int, apnMask: bv32, h: int)
    ensures About(log + [Framework(request, agpsType, apnMask)], h) == About(log, h)
  {
    AboutNext(log, Framework(request, agpsType, apnMask), h);
  }

  lemma FinishReleaseLog(m: Machine)
    ensures var n := NotifyAll(m, NoticeClosed, true, InactiveSubscribers);
            FinishRelease(m).log == if AnyActive(n.subs)
                                    then n.log + [Framework(true, m.link.agpsType, m.link.apnMask)] else n.log
  {
  }

  lemma FinishReleaseTells(m: Machine, h: int)
    requires Distinct(m.subs)
    ensures About(FinishRelease(m).log, h)
         == With(About(m.log, h), if HasInactive(m.subs, h) then Some(AtlClose(h)) else None)
  {
    var said := NotifyAll(m, NoticeClosed, true, InactiveSubscribers).log;
    NotifyTells(m, NoticeClosed, true, InactiveSubscribers, h);
    CallsTellNobody(said, true, m.link.agpsType, m.link.apnMask, h);
    FinishReleaseLog(m);
  }

  lemma WithdrawTells(m: Machine, x: int, h: int)
    requires ListOk(m.subs) && Listed(m.subs, x)
    ensures About(Withdraw(m, x).log, h)
         == With(About(m.log, h), if x == h && exists s :: s in m.subs && s.handle == h && !s.waitForClose
                                  then Some(AtlClose(h)) else None)
  {
    DeactivateMembers(m.subs, x);
    AboutNext(m.log, AtlClose(x), h);
  }

  lemma UnsubscribeLog(m: Machine, x: int)
    requires Weak(m) && Listed(m.subs, x)
    ensures var w := Withdraw(m, x);
            OnUnsubscribe(m, x).log
            == if m.state in {Pending, Acquired} && !AnyActive(w.subs)
               then w.log + [Framework(false, m.link.agpsType, m.link.apnMask)] else w.log
  {
    EmptyIffNoMember(m.subs);
    EmptyIffNoMember(Withdraw(m, x).subs);
  }

  lemma UnsubscribeTells(m: Machine, x: int, h: int)
    requires Weak(m) && Listed(m.subs, x)
    ensures About(OnUnsubscribe(m, x).log, h) == With(About(m.log, h), Told(m, Unsubscribe(x), h))
  {
    var said := Withdraw(m, x).log;
    WithdrawTells(m, x, h);
    CallsTellNobody(said, false, m.link.agpsType, m.link.apnMask, h);
    UnsubscribeLog(m, x);
  }

  lemma GrantedTells(m: Machine, h: int)
    requires Weak(m)
    ensures About(OnGranted(m).log, h) == With(About(m.log, h), Told(m, Granted, h))
  {
    if m.state == Pending {
      NotifyTells(m.(state := Acquired), NoticeGranted, false, ActiveSubscribers, h);
    }
  }

  lemma ReleasedTells(m: Machine, h: int)
    requires Weak(m)
    ensures About(OnReleased(m).log, h) == With(About(m.log, h), Told(m, ReleasedByModem, h))
  {
    match m.state
    case Acquired => NotifyTells(m.(state := Released), NoticeClosed, true, AllSubscribers, h);
    case Releasing => FinishReleaseTells(m, h);
    case _ =>
  }

  lemma DeniedTells(m: Machine, h: int)
    requires Weak(m)
    ensures About(OnDenied(m).log, h) == With(About(m.log, h), Told(m, Denied, h))
  {
    match m.state
    case Pending => NotifyTells(m.(state := Released), NoticeDenied, true, AllSubscribers, h);
    case Releasing => FinishReleaseTells(m, h);
    case _ =>
  }

  lemma SubscribeTells(m: Machine, s: Subscriber, h: int)
    ensures About(OnSubscribe(m, s).log, h)
         == With(About(m.log, h), if s.handle == h && m.state == Acquired then Some(AtlOpen(h, true, m.link)) else None)
  {
    match m.state
    case Released => CallsTellNobody(m.log, true, m.link.agpsType, m.link.apnMask, h);
    case Acquired => AboutNext(m.log, AtlOpen(s.handle, true, m.link), h);
    case _ =>
  }

  /** Each handle hears exactly that, with the link as it is. */
  lemma StepTells(m: Machine, e: Event, h: int)
    requires Weak(m)
    ensures About(Step(m, e).log, h) == With(About(m.log, h), Told(m, e, h))
  {
    match e
    case Subscribe(x, wait, mask) => SubscribeTells(m, Subscriber(x, wait, false, mask), h);
    case Unsubscribe(x) =>
      if Listed(m.subs, x) {
        UnsubscribeTells(m, x, h);
      }
    case Granted => GrantedTells(m, h);
    case ReleasedByModem => ReleasedTells(m, h);
    case Denied => DeniedTells(m, h);
    case _ =>
  }

  ghost function ToldInAll(link: Link, es: seq<Event>, h: int): seq<Output> {
    if es == [] then []
    else With(ToldInAll(link, es[..|es| - 1], h), Told(Run(link, es[..|es| - 1]), es[|es| - 1], h))
  }

  /** Over every run, restarts included, each handle hears exactly what its events say, in order. */
  lemma {:induction false} RunTells(link: Link, es: seq<Event>, h: int)
    ensures About(Run(link, es).log, h) == ToldInAll(link, es, h)
  {
    if es != [] {
      RunTells(link, es[..|es| - 1], h);
      RunInvariant(link, es[..|es| - 1]);
      StepTells(Run(link, es[..|es| - 1]), es[|es| - 1], h);
    }
  }

  // ---------------------------------------------------------------- closes and failures apart

  ghost function Closes(log: seq<Output>, h: int): nat {
    if log == [] then 0
    else Closes(log[..|log| - 1], h) + (if log[|log| - 1] == AtlClose(h) then 1 else 0)
  }

  ghost function Failures(log: seq<Output>, h: int): nat {
    if log == [] then 0
    else
      var out := log[|log| - 1];
      Failures(log[..|log| - 1], h) + (if out.AtlOpen? && out.handle == h && !out.success then 1 else 0)
  }

  lemma {:induction false} TerminalsApart(log: seq<Output>, h: int)
    ensures Terminals(log, h) == Closes(log, h) + Failures(log, h)
    ensures Failures(log, h) == Failures(About(log, h), h)
  {
    if log != [] {
      TerminalsApart(log[..|log| - 1], h);
      var about, out := About(log[..|log| - 1], h), log[|log| - 1];
      assert (about + [out])[..|about|] == about && about + [] == about;
    }
  }

  /** Denials of a connection asked for, while the handle was listed. */
  ghost function Denials(link: Link, es: seq<Event>, h: int): nat {
    if es == [] then 0
    else
      var m := Run(link, es[..|es| - 1]);
      Denials(link, es[..|es| - 1], h)
      + (if es[|es| - 1] == Denied && m.state == Pending && Has(m.subs, h) then 1 else 0)
  }

  lemma FailuresNext(about: seq<Output>, told: Option<Output>, h: int)
    ensures Failures(With(about, told), h)
         == Failures(about, h) + (if Fails(told, h) then 1 else 0)
  {
    if told.Some? {
      assert (about + [told.value])[..|about|] == about;
    }
  }

  lemma FailuresStep(m: Machine, e: Event, h: int)
    requires Weak(m)
    ensures Failures(Step(m, e).log, h)
         == Failures(m.log, h) + (if e == Denied && m.state == Pending && Has(m.subs, h) then 1 else 0)
  {
    StepTells(m, e, h);
    FailuresAfter(m.log, Step(m, e).log, Told(m, e, h), h);
    ToldFailure(m, e, h);
  }

  predicate Fails(told: Option<Output>, h: int) {
    told.Some? && told.value.AtlOpen? && told.value.handle == h && !told.value.success
  }

  lemma ToldFailure(m: Machine, e: Event, h: int)
    ensures Fails(Told(m, e, h), h) <==> e == Denied && m.state == Pending && Has(m.subs, h)
  {
  }

  lemma FailuresAfter(before: seq<Output>, after: seq<Output>, told: Option<Output>, h: int)
    requires About(after, h) == With(About(before, h), told)
    ensures Failures(after, h) == Failures(before, h) + (if Fails(told, h) then 1 else 0)
  {
    TerminalsApart(before, h);
    TerminalsApart(after, h);
    FailuresNext(About(before, h), told, h);
  }

  /** In every run a handle hears a failure exactly once for each denial it waited for, and a close for every
      other accepted subscription that is neither forgotten by a restart nor still listed. */
  lemma {:induction false} ClosesAndFailures(link: Link, es: seq<Event>, h: int)
    ensures Failures(Run(link, es).log, h) == Denials(link, es, h)
    ensures Closes(Run(link, es).log, h)
         == Accepted(link, es, h) - Denials(link, es, h) - Forgotten(link, es, h)
            - (if Listed(Run(link, es).subs, h) then 1 else 0)
  {
    FailuresExact(link, es, h);
    TerminalsApart(Run(link, es).log, h);
    CallbackConservation(link, es, h);
  }

  lemma {:induction false} FailuresExact(link: Link, es: seq<Event>, h: int)
    ensures Failures(Run(link, es).log, h) == Denials(link, es, h)
  {
    if es != [] {
      FailuresExact(link, es[..|es| - 1], h);
      RunInvariant(link, es[..|es| - 1]);
      FailuresStep(Run(link, es[..|es| - 1]), es[|es| - 1], h);
    }
  }

  // ---------------------------------------------------------------- calls of the framework

  ghost function Calls(log: seq<Output>): seq<Output> {
    if log == [] then []
    else Calls(log[..|log| - 1]) + (if log[|log| - 1].Framework? then [log[|log| - 1]] else [])
  }

  lemma CallsNext(log: seq<Output>, out: Output)
    ensures Calls(log + [out]) == With(Calls(log), if out.Framework? then Some(out) else None)
  {
    assert (log + [out])[..|log|] == log;
    assert Calls(log) + [] == Calls(log);
  }

  ghost predicate OthersActive(subs: seq<Subscriber>, x: int) {
    exists s :: s in subs && s.handle != x && !s.inactive
  }

  ghost predicate SomeActive(subs: seq<Subscriber>) {
    exists s :: s in subs && !s.inactive
  }

  /** The connection is requested for the first subscriber and for those still active after a release, and
      released when the last active one goes, always with the link's type and mask. */
  ghost function Called(m: Machine, e: Event): Option<Output> {
    var t, mask := m.link.agpsType, m.link.apnMask;
    match e
    case Subscribe(_, _, _) => if m.state == Released then Some(Framework(true, t, mask)) else None
    case Unsubscribe(x) =>
      if m.state in {Pending, Acquired} && Has(m.subs, x) && !OthersActive(m.subs, x)
      then Some(Framework(false, t, mask)) else None
    case ReleasedByModem => if m.state == Releasing && SomeActive(m.subs) then Some(Framework(true, t, mask)) else None
    case Denied => if m.state == Releasing && SomeActive(m.subs) then Some(Framework(true, t, mask)) else None
    case _ => None
  }

  lemma NoticeCalls(said: seq<Output>, notice: Notice, to: int, link: Link)
    ensures Calls(said + [Callback(notice, to, link)]) == Calls(said)
  {
    CallsNext(said, Callback(notice, to, link));
  }

  lemma {:induction false} NoticesCall(log: seq<Output>, subs: seq<Subscriber>, audience: Audience,
                                       notice: Notice, link: Link)
    ensures Calls(log + Notices(subs, audience, notice, link)) == Calls(log)
  {
    if subs == [] {
      assert log + [] == log;
    } else {
      var front, last := subs[..|subs| - 1], subs[|subs| - 1];
      NoticesCall(log, front, audience, notice, link);
      NoticesLast(log, subs, audience, notice, link);
      NoticeCalls(log + Notices(front, audience, notice, link), notice, last.handle, link);
    }
  }

  lemma NotifyCalls(m: Machine, notice: Notice, delete: bool, audience: Audience)
    ensures Calls(NotifyAll(m, notice, delete, audience).log) == Calls(m.log)
  {
    NoticesCall(m.log, m.subs, audience, notice, m.link);
  }

  lemma FinishReleaseCalls(m: Machine)
    ensures Calls(FinishRelease(m).log)
         == With(Calls(m.log), if SomeActive(m.subs)
                               then Some(Framework(true, m.link.agpsType, m.link.apnMask)) else None)
  {
    var n := NotifyAll(m, NoticeClosed, true, InactiveSubscribers);
    NotifyCalls(m, NoticeClosed, true, InactiveSubscribers);
    UnaddressedMembers(m.subs, InactiveSubscribers);
    CallsNext(n.log, Framework(true, m.link.agpsType, m.link.apnMask));
    assert AnyActive(n.subs) <==> SomeActive(m.subs);
  }

  lemma WithdrawCalls(m: Machine, x: int)
    requires ListOk(m.subs) && Listed(m.subs, x)
    ensures Calls(Withdraw(m, x).log) == Calls(m.log)
    ensures AnyActive(Withdraw(m, x).subs) <==> OthersActive(m.subs, x)
  {
    DeactivateMembers(m.subs, x);
    WithoutMembers(m.subs, x);
    CallsNext(m.log, AtlClose(x));
  }

  lemma ReleaseCalls(said: seq<Output>, t: int, mask: bv32)
    ensures Calls(said + [Framework(false, t, mask)]) == With(Calls(said), Some(Framework(false, t, mask)))
  {
    CallsNext(said, Framework(false, t, mask));
  }

  lemma UnsubscribeCalls(m: Machine, x: int)
    requires Weak(m) && Listed(m.subs, x)
    ensures Calls(OnUnsubscribe(m, x).log) == With(Calls(m.log), Called(m, Unsubscribe(x)))
  {
    var said := Withdraw(m, x).log;
    WithdrawCalls(m, x);
    ReleaseCalls(said, m.link.agpsType, m.link.apnMask);
    UnsubscribeLog(m, x);
  }

  lemma SubscribeCalls(m: Machine, s: Subscriber)
    ensures Calls(OnSubscribe(m, s).log)
         == With(Calls(m.log), Called(m, Subscribe(s.handle, s.waitForClose, s.apnMask)))
  {
    CallsNext(m.log, Framework(true, m.link.agpsType, m.link.apnMask));
    CallsNext(m.log, AtlOpen(s.handle, true, m.link));
  }

  lemma ReleasedCalls(m: Machine)
    ensures Calls(OnReleased(m).log) == With(Calls(m.log), Called(m, ReleasedByModem))
  {
    match m.state
    case Acquired => NotifyCalls(m.(state := Released), NoticeClosed, true, AllSubscribers);
    case Releasing => FinishReleaseCalls(m);
    case _ =>
  }

  lemma DeniedCalls(m: Machine)
    ensures Calls(OnDenied(m).log) == With(Calls(m.log), Called(m, Denied))
  {
    match m.state
    case Pending => NotifyCalls(m.(state := Released), NoticeDenied, true, AllSubscribers);
    case Releasing => FinishReleaseCalls(m);
    case _ =>
  }

  /** The framework is called exactly so. */
  lemma StepCalls(m: Machine, e: Event)
    requires Weak(m)
    ensures Calls(Step(m, e).log) == With(Calls(m.log), Called(m, e))
  {
    match e
    case Subscribe(x, wait, mask) => SubscribeCalls(m, Subscriber(x, wait, false, mask));
    case Unsubscribe(x) =>
      if Listed(m.subs, x) {
        UnsubscribeCalls(m, x);
      }
    case Granted => NotifyCalls(m.(state := Acquired), NoticeGranted, false, ActiveSubscribers);
    case ReleasedByModem => ReleasedCalls(m);
    case Denied => DeniedCalls(m);
    case _ =>
  }

  // ---------------------------------------------------------------- who is left, and in which state

  /** The subscriber is listed after the message. */
  ghost predicate Stays(m: Machine, e: Event, s: Subscriber) {
    match e
    case Subscribe(x, wait, mask) => s in m.subs || (!Has(m.subs, x) && s == Subscriber(x, wait, false, mask))
    case Unsubscribe(x) =>
      || (s in m.subs && s.handle != x)
      || (s.handle == x && s.waitForClose && s.inactive && (s in m.subs || s.(inactive := false) in m.subs))
    case ReleasedByModem => s in m.subs && (m.state == Acquired ==> false) && (m.state == Releasing ==> !s.inactive)
    case Denied => s in m.subs && (m.state == Pending ==> false) && (m.state == Releasing ==> !s.inactive)
    case ModemRestart => false
    case _ => s in m.subs
  }

  lemma WithdrawLeaves(m: Machine, x: int, s: Subscriber)
    requires ListOk(m.subs) && Listed(m.subs, x)
    ensures s in Withdraw(m, x).subs <==> Stays(m, Unsubscribe(x), s)
  {
    DeactivateMembers(m.subs, x);
    WithoutMembers(m.subs, x);
    var own := Find(m.subs, x);
    assert s.handle == x && (s in m.subs || s.(inactive := false) in m.subs) ==>
             s == own || s.(inactive := false) == own;
  }

  /** Nobody but those stays, and newcomers go to the end. */
  lemma StepLeaves(m: Machine, e: Event, s: Subscriber)
    requires Weak(m)
    ensures s in Step(m, e).subs <==> Stays(m, e, s)
    ensures e.Subscribe? ==> m.subs <= Step(m, e).subs
    ensures Step(m, e).link == if e.Configure? then e.link else m.link
  {
    UnaddressedMembers(m.subs, AllSubscribers);
    UnaddressedMembers(m.subs, InactiveSubscribers);
    if e.Unsubscribe? && Listed(m.subs, e.handle) {
      WithdrawLeaves(m, e.handle, s);
    }
  }

  /** The state after the message, by whom it leaves. */
  ghost function StateAfter(m: Machine, e: Event): AgpsSpec.State {
    match e
    case Subscribe(_, _, _) => if m.state == Released then Pending else m.state
    case Unsubscribe(x) =>
      if !Has(m.subs, x) then m.state
      else if forall s :: !Stays(m, e, s) then Released
      else if m.state in {Pending, Acquired} && !OthersActive(m.subs, x) then Releasing
      else m.state
    case Granted => if m.state == Pending then Acquired else m.state
    case ReleasedByModem =>
      if m.state == Acquired then Released
      else if m.state == Releasing then (if SomeActive(m.subs) then Pending else Released)
      else m.state
    case Denied =>
      if m.state == Pending then Released
      else if m.state == Releasing then (if SomeActive(m.subs) then Pending else Released)
      else m.state
    case _ => m.state
  }

  lemma UnsubscribeMoves(m: Machine, x: int)
    requires Weak(m) && Listed(m.subs, x)
    ensures OnUnsubscribe(m, x).state == StateAfter(m, Unsubscribe(x))
  {
    var w := Withdraw(m, x);
    WithdrawCalls(m, x);
    forall s: Subscriber
      ensures s in w.subs <==> Stays(m, Unsubscribe(x), s)
    {
      WithdrawLeaves(m, x, s);
    }
    EmptyIffNoMember(w.subs);
    EmptyIffNoMember(m.subs);
  }

  lemma StepMoves(m: Machine, e: Event)
    requires Weak(m)
    ensures Step(m, e).state == StateAfter(m, e)
  {
    if e.Unsubscribe? && Listed(m.subs, e.handle) {
      UnsubscribeMoves(m, e.handle);
    }
    UnaddressedMembers(m.subs, InactiveSubscribers);
    assert AnyActive(Unaddressed(m.subs, InactiveSubscribers)) <==> SomeActive(m.subs);
  }
}

/** The GPS lock: what the adapter stores, what it pushes to the modem, and that the two never drift
    apart although four commands and the engine restart compute it separately. */
module GpsLockSpec {

  /** The four lock values, two independent bits: mobile-originated positioning and network-initiated
      positioning. */
  datatype Lock = Lock(mo: bool, ni: bool)

  const LOCK_NONE := Lock(false, false)

  /** `control` is the session that enabled location, zero when it is disabled. `nfwControl` tells whether
      the framework controls network-initiated locations ('Q' behaviour) or not ('P' behaviour). */
  datatype State = State(lock: Lock, nfwControl: bool, control: nat, pushed: Lock)

  datatype Event =
    | Enable(sessionId: nat, isGnss: bool)
    | Disable(id: nat)
    | NfwControl(enable: bool)
    | Configure(lock: Lock)
    | EngineRestart

  /** The lock a full reconfiguration pushes. */
  function Target(s: State): Lock {
    if s.nfwControl || s.control == 0 then s.lock else LOCK_NONE
  }

  function OnEnable(s: State, sessionId: nat, isGnss: bool): State {
    if !isGnss || s.control > 0 then s
    else if s.nfwControl then
      s.(control := sessionId, lock := s.lock.(mo := false), pushed := s.lock.(mo := false))
    else s.(control := sessionId, pushed := LOCK_NONE)
  }

  function OnDisable(s: State, id: nat): State {
    if s.control != id then s
    else
      var lock := if s.nfwControl then s.lock.(mo := true) else s.lock;
      s.(control := 0, lock := lock, pushed := lock)
  }

  /** What the queued message does once the command has accepted it. */
  function ApplyNfwControl(s: State, enable: bool): State {
    var lock := s.lock.(ni := !enable);
    s.(lock := lock, pushed := lock)
  }

  function OnConfigure(s: State, requested: Lock): State {
    var lock := requested.(mo := true);
    State(lock, false, s.control,
          if s.control == 0 then lock else if s.nfwControl then LOCK_NONE else s.pushed)
  }

  function Step(s: State, e: Event): State {
    match e
    case Enable(sessionId, isGnss) => OnEnable(s, sessionId, isGnss)
    case Disable(id) => OnDisable(s, id)
    case NfwControl(enable) => if s.nfwControl then ApplyNfwControl(s, enable) else s
    case Configure(lock) => OnConfigure(s, lock)
    case EngineRestart => s.(pushed := Target(s))
  }

  function Run(s: State, es: seq<Event>): State {
    if es == [] then s else Step(Run(s, es[..|es| - 1]), es[|es| - 1])
  }

  /** Session ids are never zero. */
  ghost predicate RealSessions(es: seq<Event>) {
    forall e :: e in es && e.Enable? ==> e.sessionId > 0
  }

  ghost predicate InStep(s: State) {
    s.pushed == Target(s)
  }

  /** Location is enabled exactly when mobile-originated positioning is unlocked in the modem. */
  ghost predicate MoFollowsControl(s: State) {
    !s.pushed.mo <==> s.control > 0
  }

  /** The stored lock keeps mobile-originated positioning locked while location is disabled. */
  ghost predicate MoStored(s: State) {
    && (s.control == 0 || !s.nfwControl ==> s.lock.mo)
    && (s.control > 0 && s.nfwControl ==> !s.lock.mo)
  }

  lemma StepInStep(s: State, e: Event)
    requires InStep(s) && (e.Enable? ==> e.sessionId > 0)
    ensures InStep(Step(s, e))
  {
  }

  lemma StepMoStored(s: State, e: Event)
    requires MoStored(s) && (e.Enable? ==> e.sessionId > 0)
    ensures MoStored(Step(s, e))
  {
  }

  /** After a first full configuration the modem always holds what another one would push. */
  lemma {:induction false} PushedIsTarget(s: State, es: seq<Event>)
    requires RealSessions(es)
    ensures InStep(Run(Step(s, EngineRestart), es))
  {
    if es != [] {
      var before := es[..|es| - 1];
      assert es[|es| - 1] in es && forall e :: e in before ==> e in es;
      PushedIsTarget(s, before);
      StepInStep(Run(Step(s, EngineRestart), before), es[|es| - 1]);
    }
  }

  lemma {:induction false} RunMoStored(s: State, es: seq<Event>)
    requires MoStored(s) && RealSessions(es)
    ensures MoStored(Run(s, es))
  {
    if es != [] {
      var before := es[..|es| - 1];
      assert es[|es| - 1] in es && forall e :: e in before ==> e in es;
      RunMoStored(s, before);
      StepMoStored(Run(s, before), es[|es| - 1]);
    }
  }

  /** Starting disabled with mobile-originated positioning locked, the modem unlocks it exactly while
      location is enabled, in both behaviours and across the switch. */
  lemma ModemFollowsControl(s: State, es: seq<Event>)
    requires s.control == 0 && s.lock.mo && RealSessions(es)
    ensures MoFollowsControl(Run(Step(s, EngineRestart), es))
  {
    PushedIsTarget(s, es);
    RunMoStored(Step(s, EngineRestart), es);
  }

  /** The switch to 'P' behaviour lasts, and the stored lock keeps its MO bit from then on. */
  lemma {:induction false} SwitchIsPermanent(s: State, requested: Lock, es: seq<Event>)
    ensures var r := Run(Step(s, Configure(requested)), es); !r.nfwControl && r.lock.mo
  {
    if es != [] {
      SwitchIsPermanent(s, requested, es[..|es| - 1]);
    }
  }

  /** A control message queued before the switch and run after it leaves the modem right exactly when
      location is disabled. */
  lemma LateNfwControl(s: State, enable: bool)
    requires InStep(s) && !s.nfwControl && s.lock.mo
    ensures InStep(ApplyNfwControl(s, enable)) <==> s.control == 0
  {
  }

  /** Such a message can come: accepted before the switch, run after location was enabled and the switch made. */
  lemma LateNfwControlRun(s: State) returns (es: seq<Event>)
    requires s.nfwControl && s.control == 0
    ensures RealSessions(es) && InStep(Run(Step(s, EngineRestart), es))
    ensures !InStep(ApplyNfwControl(Run(Step(s, EngineRestart), es), true))
  {
    var start := Step(s, EngineRestart);
    var enable, configure := Enable(1, true), Configure(Lock(true, true));
    es := [enable, configure];
    assert es[..1] == [enable] && [enable][..0] == [];
    assert Run(start, []) == start;
    assert Run(start, [enable]) == Step(start, enable);
    assert Run(start, es) == Step(Step(start, enable), configure);
    PushedIsTarget(s, es);
    LateNfwControl(Run(start, es), true);
  }

  // ---------------------------------------------------------------- the locks by the messages alone

  /** The session that holds control: the first to enable, until it disables. */
  ghost function Controller(es: seq<Event>): nat {
    if es == [] then 0
    else
      var before := Controller(es[..|es| - 1]);
      match es[|es| - 1]
      case Enable(sessionId, isGnss) => if isGnss && before == 0 then sessionId else before
      case Disable(id) => if id == before then 0 else before
      case _ => before
  }

  ghost predicate Configured(es: seq<Event>) {
    exists e :: e in es && e.Configure?
  }

  /** Network-initiated positioning is locked by the last configuration, or before any by the framework's last
      word. */
  ghost function NiLocked(ni: bool, es: seq<Event>): bool {
    if es == [] then ni
    else
      var front := es[..|es| - 1];
      match es[|es| - 1]
      case NfwControl(enable) => if Configured(front) then NiLocked(ni, front) else !enable
      case Configure(requested) => requested.ni
      case _ => NiLocked(ni, front)
  }

  lemma ConfiguredNext(es: seq<Event>, e: Event)
    ensures Configured(es + [e]) <==> Configured(es) || e.Configure?
  {
    assert e in es + [e] && forall x :: x in es ==> x in es + [e];
  }

  /** Over every run both the stored and the modem's lock are what the messages say: mobile-originated
      positioning is unlocked in the modem exactly under control, network-initiated positioning as asked, but
      for 'P' behaviour under control, where nothing is locked. */
  lemma {:induction false} LocksAsAsked(s: State, es: seq<Event>)
    requires s.nfwControl && s.control == 0 && s.lock.mo && RealSessions(es)
    ensures var r := Run(Step(s, EngineRestart), es);
            var controlled, q := Controller(es) > 0, !Configured(es);
            && r.control == Controller(es) && r.nfwControl == q
            && r.lock == Lock(!(q && controlled), NiLocked(s.lock.ni, es))
            && r.pushed == (if controlled && !q then Lock(false, false)
                            else Lock(!controlled, NiLocked(s.lock.ni, es)))
  {
    if es != [] {
      var before, e := es[..|es| - 1], es[|es| - 1];
      assert e in es && forall x :: x in before ==> x in es;
      assert es == before + [e];
      ConfiguredNext(before, e);
      LocksAsAsked(s, before);
    }
  }
}

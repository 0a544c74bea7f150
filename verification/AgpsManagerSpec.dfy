/** The AGPS manager: two optional state machines, the routing of requests between them,
    and what every run of the manager keeps. */
module AgpsManagerSpec {
  import opened Wrappers
  import opened AgpsSpec

  const TYPE_INVALID := -1
  const TYPE_SUPL := 1
  const TYPE_WWAN_ANY := 3
  const TYPE_SUPL_ES := 5

  const APN_MASK_SUPL: bv32 := 0x10
  const APN_MASK_EMERGENCY: bv32 := 0x200

  const BEARER_INVALID := 0
  const MAX_APN_LEN := 100

  /** `refused` holds the open failures the manager itself answers when no machine exists. */
  datatype Manager = Manager(agnss: Option<Machine>, internet: Option<Machine>, refused: seq<Output>)

  datatype Command =
    | Create(agpsCapable: bool, wwan: bool, supl: bool, suplEs: bool)
    | RequestAtl(handle: int, agpsType: int, apnMask: bv32, emergencyPdn: bool)
    | ReleaseAtl(handle: int)
    | ReportOpenSuccess(agpsType: int, apn: Option<string>, apnLen: int, bearer: int)
    | ReportOpenFailed(agpsType: int)
    | ReportClosed(agpsType: int)
    | ModemSsr

  predicate RoutesToAgnss(agpsType: int) {
    agpsType in {TYPE_INVALID, TYPE_SUPL, TYPE_SUPL_ES}
  }

  function Routed(g: Manager, agpsType: int): Option<Machine> {
    if RoutesToAgnss(agpsType) then g.agnss else g.internet
  }

  function Reroute(g: Manager, agpsType: int, m: Machine): Manager {
    if RoutesToAgnss(agpsType) then g.(agnss := Some(m)) else g.(internet := Some(m))
  }

  /** An APN that is missing, empty, too long or of another length than announced counts as none. */
  function AcceptedApn(apn: Option<string>, len: int): (r: string)
    ensures |r| <= MAX_APN_LEN
  {
    if apn.Some? && 0 < len <= MAX_APN_LEN && |apn.value| == len then apn.value else ""
  }

  function EffectiveType(agpsType: int, emergencyPdn: bool): int {
    if !emergencyPdn && agpsType == TYPE_SUPL_ES then TYPE_SUPL else agpsType
  }

  function EffectiveMask(agpsType: int, apnMask: bv32, emergencyPdn: bool): bv32 {
    if !emergencyPdn && agpsType == TYPE_SUPL_ES
    then (apnMask & !APN_MASK_EMERGENCY) | APN_MASK_SUPL
    else apnMask
  }

  function FreshLink(agpsType: int): Link {
    Link(agpsType, 0, "", BEARER_INVALID)
  }

  function OnCreate(g: Manager, agpsCapable: bool, wwan: bool, supl: bool, suplEs: bool): Manager {
    g.(internet := if g.internet.None? && wwan then Some(Initial(FreshLink(TYPE_WWAN_ANY))) else g.internet,
       agnss := if agpsCapable && g.agnss.None? && supl && suplEs
                then Some(Initial(FreshLink(TYPE_SUPL))) else g.agnss)
  }

  function OnRequestAtl(g: Manager, h: int, agpsType: int, apnMask: bv32, emergencyPdn: bool): Manager {
    var t, k := EffectiveType(agpsType, emergencyPdn), EffectiveMask(agpsType, apnMask, emergencyPdn);
    match Routed(g, t)
    case None => g.(refused := g.refused + [AtlOpen(h, false, Link(t, k, "", BEARER_INVALID))])
    case Some(m) =>
      var configured := Step(m, Configure(m.link.(agpsType := t, apnMask := k)));
      Reroute(g, t, Step(configured, Subscribe(h, false, k)))
  }

  /** The AGNSS machine is searched first. */
  function OnReleaseAtl(g: Manager, h: int): Manager {
    if g.agnss.Some? && Listed(g.agnss.value.subs, h) then
      g.(agnss := Some(Step(g.agnss.value, Unsubscribe(h))))
    else if g.internet.Some? && Listed(g.internet.value.subs, h) then
      g.(internet := Some(Step(g.internet.value, Unsubscribe(h))))
    else g
  }

  /** A report that names a missing machine is left out of a run: the original dereferences a null pointer. */
  function OnReport(g: Manager, agpsType: int, e: Event): Manager {
    match Routed(g, agpsType)
    case None => g
    case Some(m) => Reroute(g, agpsType, Step(m, e))
  }

  function Restarted(m: Option<Machine>): Option<Machine> {
    match m
    case None => None
    case Some(machine) => Some(Step(machine, ModemRestart))
  }

  function ManagerStep(g: Manager, c: Command): Manager {
    match c
    case Create(capable, wwan, supl, suplEs) => OnCreate(g, capable, wwan, supl, suplEs)
    case RequestAtl(h, t, k, emergencyPdn) => OnRequestAtl(g, h, t, k, emergencyPdn)
    case ReleaseAtl(h) => OnReleaseAtl(g, h)
    case ReportOpenSuccess(t, apn, len, bearer) =>
      (match Routed(g, t)
       case None => g
       case Some(m) =>
         OnReport(OnReport(g, t, Configure(m.link.(apn := AcceptedApn(apn, len), bearer := bearer))), t, Granted))
    case ReportOpenFailed(t) => OnReport(g, t, Denied)
    case ReportClosed(t) => OnReport(g, t, ReleasedByModem)
    case ModemSsr => Manager(Restarted(g.agnss), Restarted(g.internet), g.refused)
  }

  function ManagerRun(cs: seq<Command>): Manager {
    if cs == [] then Manager(None, None, [])
    else ManagerStep(ManagerRun(cs[..|cs| - 1]), cs[|cs| - 1])
  }

  // ---------------------------------------------------------------- what the manager makes of its machines

  /** The machine went through some run in which no subscriber waits, and every restart found it released
      unless others are allowed. */
  ghost predicate Reached(m: Machine, restarts: bool) {
    exists link, es :: m == Run(link, es) && NeverWaits(es) && (restarts || CalmRestarts(link, es))
  }

  lemma ReachedStep(m: Machine, e: Event, restarts: bool)
    requires Reached(m, restarts)
    requires e.Subscribe? ==> !e.waitForClose
    requires e == ModemRestart ==> restarts || m.state == Released
    ensures Reached(Step(m, e), restarts)
  {
    var link, es :| m == Run(link, es) && NeverWaits(es) && (restarts || CalmRestarts(link, es));
    var longer := es + [e];
    assert longer[..|longer| - 1] == es;
    assert Step(m, e) == Run(link, longer) && NeverWaits(longer);
  }

  lemma ReachedInitial(link: Link, restarts: bool)
    ensures Reached(Initial(link), restarts)
  {
    assert Initial(link) == Run(link, []) && NeverWaits([]) && CalmRestarts(link, []);
  }

  ghost predicate AllReached(g: Manager, restarts: bool) {
    && (g.agnss.Some? ==> Reached(g.agnss.value, restarts))
    && (g.internet.Some? ==> Reached(g.internet.value, restarts))
  }

  predicate AllReleased(g: Manager) {
    && (g.agnss.Some? ==> g.agnss.value.state == Released)
    && (g.internet.Some? ==> g.internet.value.state == Released)
  }

  /** Every modem restart finds all machines released. */
  ghost predicate CalmSsrs(cs: seq<Command>) {
    cs == [] ||
    (&& CalmSsrs(cs[..|cs| - 1])
     && (cs[|cs| - 1] == ModemSsr ==> AllReleased(ManagerRun(cs[..|cs| - 1]))))
  }

  lemma ReportReached(g: Manager, agpsType: int, e: Event, restarts: bool)
    requires AllReached(g, restarts) && !e.Subscribe? && e != ModemRestart
    ensures AllReached(OnReport(g, agpsType, e), restarts)
  {
    if Routed(g, agpsType).Some? {
      ReachedStep(Routed(g, agpsType).value, e, restarts);
    }
  }

  lemma ManagerStepReached(g: Manager, c: Command, restarts: bool)
    requires AllReached(g, restarts)
    requires c == ModemSsr ==> restarts || AllReleased(g)
    ensures AllReached(ManagerStep(g, c), restarts)
  {
    match c {
      case Create(_, _, _, _) =>
        ReachedInitial(FreshLink(TYPE_WWAN_ANY), restarts);
        ReachedInitial(FreshLink(TYPE_SUPL), restarts);
      case RequestAtl(h, agpsType, apnMask, emergencyPdn) =>
        var t, k := EffectiveType(agpsType, emergencyPdn), EffectiveMask(agpsType, apnMask, emergencyPdn);
        if Routed(g, t).Some? {
          var m := Routed(g, t).value;
          var link := m.link.(agpsType := t, apnMask := k);
          ReachedStep(m, Configure(link), restarts);
          ReachedStep(Step(m, Configure(link)), Subscribe(h, false, k), restarts);
        }
      case ReleaseAtl(h) =>
        if g.agnss.Some? {
          ReachedStep(g.agnss.value, Unsubscribe(h), restarts);
        }
        if g.internet.Some? {
          ReachedStep(g.internet.value, Unsubscribe(h), restarts);
        }
      case ReportOpenSuccess(t, apn, len, bearer) =>
        if Routed(g, t).Some? {
          var configure := Configure(Routed(g, t).value.link.(apn := AcceptedApn(apn, len), bearer := bearer));
          ReportReached(g, t, configure, restarts);
          ReportReached(OnReport(g, t, configure), t, Granted, restarts);
        }
      case ReportOpenFailed(t) => ReportReached(g, t, Denied, restarts);
      case ReportClosed(t) => ReportReached(g, t, ReleasedByModem, restarts);
      case ModemSsr =>
        if g.agnss.Some? {
          ReachedStep(g.agnss.value, ModemRestart, restarts);
        }
        if g.internet.Some? {
          ReachedStep(g.internet.value, ModemRestart, restarts);
        }
    }
  }

  /** Every run of the manager drives each machine through a run of its own, so all that holds of
      machine runs holds inside the manager. */
  lemma {:induction false} ManagerRefinesMachines(cs: seq<Command>)
    ensures AllReached(ManagerRun(cs), true)
    ensures CalmSsrs(cs) ==> AllReached(ManagerRun(cs), false)
  {
    if cs != [] {
      var before := cs[..|cs| - 1];
      ManagerRefinesMachines(before);
      ManagerStepReached(ManagerRun(before), cs[|cs| - 1], true);
      if CalmSsrs(cs) {
        ManagerStepReached(ManagerRun(before), cs[|cs| - 1], false);
      }
    }
  }

  /** Inside the manager no machine is ever releasing, everyone listed is active, and the framework
      calls alternate, whatever the modem does. */
  lemma ManagedMachine(m: Machine)
    requires Reached(m, true)
    ensures m.state != Releasing && ProtocolOk(m) && Weak(m)
    ensures forall s :: s in m.subs ==> !s.waitForClose && !s.inactive
    ensures Reached(m, false) ==> (m.state == Released <==> m.subs == [])
  {
    var link, es :| m == Run(link, es) && NeverWaits(es);
    NeverReleasing(link, es);
    FrameworkProtocol(link, es);
    RunInvariant(link, es);
    if Reached(m, false) {
      var link', es' :| m == Run(link', es') && NeverWaits(es') && CalmRestarts(link', es');
      RunInvariant(link', es');
    }
  }

  predicate Holds(m: Option<Machine>, h: int) {
    m.Some? && Listed(m.value.subs, h)
  }

  lemma LeavesList(m: Machine, h: int)
    requires Reached(m, true) && Listed(m.subs, h)
    ensures !Listed(Step(m, Unsubscribe(h)).subs, h)
    ensures Terminals(Step(m, Unsubscribe(h)).log, h) == Terminals(m.log, h) + 1
  {
    ManagedMachine(m);
    FindMember(m.subs, h);
    WithoutMembers(m.subs, h);
    StepSettled(m, Unsubscribe(h), h);
  }

  /** A release closes the handle once; the handle is then gone from the manager exactly when
      it was not listed in both machines. */
  lemma ReleaseAtlExact(cs: seq<Command>, h: int)
    ensures var g, after := ManagerRun(cs), OnReleaseAtl(ManagerRun(cs), h);
            && (!Holds(g.agnss, h) && !Holds(g.internet, h) ==> after == g)
            && ((Holds(after.agnss, h) || Holds(after.internet, h)) <==>
                (Holds(g.agnss, h) && Holds(g.internet, h)))
            && (Holds(g.agnss, h) ==>
                  (&& after.internet == g.internet
                   && Terminals(after.agnss.value.log, h) == Terminals(g.agnss.value.log, h) + 1))
            && (!Holds(g.agnss, h) && Holds(g.internet, h) ==>
                  (&& after.agnss == g.agnss
                   && Terminals(after.internet.value.log, h) == Terminals(g.internet.value.log, h) + 1))
  {
    ManagerRefinesMachines(cs);
    var g := ManagerRun(cs);
    if Holds(g.agnss, h) {
      LeavesList(g.agnss.value, h);
    } else if Holds(g.internet, h) {
      LeavesList(g.internet.value, h);
    }
  }
}

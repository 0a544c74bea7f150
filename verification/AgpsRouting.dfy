/** Which machine each command of the AGPS manager reaches, by the numbers the interface gives the types. */
module AgpsRouting {
  import opened Wrappers
  import opened AgpsSpec
  import opened AgpsManagerSpec

  /** Invalid, SUPL and emergency SUPL requests are for the AGNSS machine, all others for the internet one. */
  predicate ForAgnss(agpsType: int) {
    agpsType == -1 || agpsType == 1 || agpsType == 5
  }

  /** An emergency request without an emergency PDN becomes a SUPL one: bit 9 of its mask goes, bit 4 comes. */
  function AskedType(agpsType: int, emergencyPdn: bool): int {
    if agpsType == 5 && !emergencyPdn then 1 else agpsType
  }

  function AskedMask(agpsType: int, apnMask: bv32, emergencyPdn: bool): bv32 {
    if agpsType == 5 && !emergencyPdn then (apnMask & 0xFFFF_FDFF) | 0x10 else apnMask
  }

  /** One machine after a request, or the failure told because there is none. */
  ghost predicate Requested(before: Option<Machine>, after: Option<Machine>, told: seq<Output>,
                            h: int, agpsType: int, apnMask: bv32) {
    match before
    case None => after == None && told == [AtlOpen(h, false, Link(agpsType, apnMask, "", 0))]
    case Some(m) =>
      && told == []
      && after == Some(Step(Step(m, Configure(m.link.(agpsType := agpsType, apnMask := apnMask))),
                            Subscribe(h, false, apnMask)))
  }

  /** A request reaches the machine its type names, and that one only. */
  lemma RequestReaches(g: Manager, h: int, agpsType: int, apnMask: bv32, emergencyPdn: bool)
    ensures var r := ManagerStep(g, RequestAtl(h, agpsType, apnMask, emergencyPdn));
            var t, k := AskedType(agpsType, emergencyPdn), AskedMask(agpsType, apnMask, emergencyPdn);
            && |g.refused| <= |r.refused| && r.refused[..|g.refused|] == g.refused
            && (ForAgnss(agpsType) ==>
                  r.internet == g.internet && Requested(g.agnss, r.agnss, r.refused[|g.refused|..], h, t, k))
            && (!ForAgnss(agpsType) ==>
                  r.agnss == g.agnss && Requested(g.internet, r.internet, r.refused[|g.refused|..], h, t, k))
  {
  }

  /** A report of the modem reaches the machine its type names, and that one only. */
  lemma ReportReaches(g: Manager, agpsType: int, c: Command, e: Event)
    requires (c == ReportOpenFailed(agpsType) && e == Denied) || (c == ReportClosed(agpsType) && e == ReleasedByModem)
    ensures var r := ManagerStep(g, c);
            && r.refused == g.refused
            && (ForAgnss(agpsType) ==>
                  r.internet == g.internet && (g.agnss.Some? ==> r.agnss == Some(Step(g.agnss.value, e))))
            && (!ForAgnss(agpsType) ==>
                  r.agnss == g.agnss && (g.internet.Some? ==> r.internet == Some(Step(g.internet.value, e))))
  {
  }

  /** A grant sets the bearer and the APN first; an APN that is missing, empty, longer than 100 or of another
      length than announced counts as none. */
  lemma GrantReaches(g: Manager, agpsType: int, apn: Option<string>, len: int, bearer: int)
    ensures var r := ManagerStep(g, ReportOpenSuccess(agpsType, apn, len, bearer));
            var name := if apn.Some? && |apn.value| == len && 1 <= len <= 100 then apn.value else "";
            && r.refused == g.refused
            && (ForAgnss(agpsType) && g.agnss.Some? ==>
                  && r.internet == g.internet
                  && r.agnss == Some(Step(Step(g.agnss.value,
                                               Configure(g.agnss.value.link.(apn := name, bearer := bearer))),
                                          Granted)))
            && (!ForAgnss(agpsType) && g.internet.Some? ==>
                  && r.agnss == g.agnss
                  && r.internet == Some(Step(Step(g.internet.value,
                                                  Configure(g.internet.value.link.(apn := name, bearer := bearer))),
                                             Granted)))
  {
  }

  /** Machines are made once: the internet one for WWAN, the AGNSS one when the capability and both SUPL kinds
      are there; a modem restart empties the lists of all and keeps their states. */
  lemma MachinesMade(g: Manager, capable: bool, wwan: bool, supl: bool, suplEs: bool)
    ensures var r := ManagerStep(g, Create(capable, wwan, supl, suplEs));
            && r.refused == g.refused
            && (g.internet.Some? ==> r.internet == g.internet) && (g.agnss.Some? ==> r.agnss == g.agnss)
            && (g.internet.None? ==> (r.internet.Some? <==> wwan))
            && (g.agnss.None? ==> (r.agnss.Some? <==> capable && supl && suplEs))
            && (g.internet.None? && wwan ==>
                  r.internet == Some(Machine(Released, [], Link(3, 0, "", 0), [])))
            && (g.agnss.None? && r.agnss.Some? ==>
                  r.agnss == Some(Machine(Released, [], Link(1, 0, "", 0), [])))
    ensures var r := ManagerStep(g, ModemSsr);
            && r.refused == g.refused
            && (g.agnss.Some? <==> r.agnss.Some?) && (g.internet.Some? <==> r.internet.Some?)
            && (g.agnss.Some? ==> r.agnss.value == g.agnss.value.(subs := []))
            && (g.internet.Some? ==> r.internet.value == g.internet.value.(subs := []))
  {
  }
}

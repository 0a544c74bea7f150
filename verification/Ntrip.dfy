/** The NTRIP part of the GNSS adapter and the observer it drives, each method proved to be its step of
    NtripSpec. */
module Ntrip {
  import opened NtripSpec

  /** The sender's side of the correction daemon: it keeps the start text to send again after a restart. */
  class XtraObserver {
    var ntripParamsString: string
    ghost var log: seq<Command>

    constructor ()
      ensures ntripParamsString == "" && log == []
    {
      ntripParamsString, log := "", [];
    }

    method StartDgnssSource(params: Params, nmea: string, ghost at: nat, ghost needed: bool)
      modifies this
      ensures ntripParamsString == StartText(params, nmea)
      ensures log == old(log) + [Start(ntripParamsString, at, needed)]
    {
      var c := params.connection;
      var s := "startDgnssSource\n";
      s := s + (if c.useSsl then "1" else "0") + "\n";
      s := s + c.host + "\n";
      s := s + Decimal(c.port) + "\n";
      s := s + c.mountPoint + "\n";
      s := s + c.username + "\n";
      s := s + c.password + "\n";
      if params.requiresNmea && nmea != "" {
        s := s + nmea + "\n";
      }
      log := log + [Start(s, at, needed)];
      ntripParamsString := s;
    }

    /** The daemon came back: it is told again what it was last told to run, if anything. */
    method RestartDgnssSource()
      modifies this
      ensures ntripParamsString == old(ntripParamsString)
      ensures log == old(log) + (if ntripParamsString == "" then [] else [Again(ntripParamsString)])
    {
      if ntripParamsString != "" {
        log := log + [Again(ntripParamsString)];
      }
    }

    method StopDgnssSource()
      modifies this
      ensures ntripParamsString == "" && log == old(log) + [Stop]
    {
      ntripParamsString := "";
      log := log + [Stop];
    }

    method UpdateNmeaToDgnssServer(nmea: string, ghost at: nat)
      modifies this
      ensures ntripParamsString == old(ntripParamsString) && log == old(log) + [Push(nmea, at)]
    {
      log := log + [Push(nmea, at)];
    }
  }

  class NtripAdapter {
    const observer: XtraObserver
    var enabled: bool
    var noPending: bool
    var started: bool
    var params: Params
    var nmea: string
    var consent: bool
    var sessions: set<nat>
    var last: nat
    ghost var clock: nat

    ghost function View(): State
      reads this, observer
    {
      State(enabled, noPending, started, params, nmea, consent, sessions, observer.ntripParamsString, last,
            clock, observer.log)
    }

    constructor (initial: Params)
      ensures View() == Initial(initial) && fresh(observer)
    {
      observer := new XtraObserver();
      enabled, noPending, started, params, nmea := false, false, false, initial, "";
      consent, sessions, last, clock := false, {}, 0, 0;
    }

    method CheckUpdateDgnssNtrip(isLocationValid: bool, curBootTime: nat)
      modifies this, observer
      ensures View() == CheckUpdate(old(View()), isLocationValid, curBootTime)
    {
      if sessions != {} {
        var required := consent && params.requiresNmea;
        if enabled && noPending && !started {
          started := true;
          observer.StartDgnssSource(params, nmea, curBootTime, required);
          if required {
            last := curBootTime;
          }
        } else if started && isLocationValid && required && (curBootTime - last) % TWO_64 > TEN_MINUTES {
          observer.UpdateNmeaToDgnssServer(nmea, curBootTime);
          last := curBootTime;
        }
      }
    }

    method StopDgnssNtrip()
      modifies this, observer
      ensures View() == StopSource(old(View()))
    {
      if started {
        started := false;
        observer.StopDgnssSource();
      }
    }

    method SaveTrackingSession(key: nat, timeBased: bool, now: nat)
      modifies this, observer
      ensures View() == Step(old(View()), Save(key, timeBased, now))
    {
      if timeBased {
        sessions := sessions + {key};
      }
      CheckUpdateDgnssNtrip(false, now);
      clock := now;
    }

    method EraseTrackingSession(key: nat)
      modifies this, observer
      ensures View() == Step(old(View()), Erase(key))
    {
      sessions := sessions - {key};
      if consent && params.requiresNmea {
        noPending := false;
        nmea := "";
      }
      StopDgnssNtrip();
    }

    /** The test for a repeated request: the last comparison is of the new value with itself. */
    method SameParams(requested: Params) returns (same: bool)
      ensures same == SameSource(View(), requested)
    {
      var p, q := params.connection, requested.connection;
      same := && p.useSsl == q.useSsl && p.host == q.host && p.port == q.port
              && p.mountPoint == q.mountPoint && p.username == q.username && p.password == q.password
              && requested.requiresNmea == requested.requiresNmea;
    }

    /** The state bits start over for a new source. */
    method Adopt(requested: Params)
      modifies this
      ensures View() == old(View()).(enabled := true, noPending := true, started := false, params := requested,
                                     nmea := "")
    {
      enabled, noPending, started := true, true, false;
      params := requested;
      nmea := "";
    }

    method HandleEnablePPENtrip(requested: Params, now: nat)
      modifies this, observer
      ensures View() == Step(old(View()), Enable(requested, now))
    {
      var same := SameParams(requested);
      if !same {
        Adopt(requested);
        if consent && params.requiresNmea {
          noPending := false;
          last := 0;
        } else {
          CheckUpdateDgnssNtrip(false, now);
        }
      }
      clock := now;
    }

    method HandleDisablePPENtrip()
      modifies this, observer
      ensures View() == Step(old(View()), Event.Disable)
    {
      params := NO_PARAMS;
      nmea := "";
      enabled := false;
      noPending := true;
      StopDgnssNtrip();
    }

    /** The daemon asks for the status again after it restarted. */
    method HandleStatusRequest()
      modifies observer
      ensures View() == Step(old(View()), DaemonRestart)
    {
      observer.RestartDgnssSource();
    }

    method UpdateConsent(given: bool)
      modifies this
      ensures View() == Step(old(View()), Consent(given))
    {
      consent := given;
    }

    method ReportPosition(sentence: string, isLocationValid: bool, now: nat)
      modifies this, observer
      ensures View() == Step(old(View()), Report(sentence, isLocationValid, now))
    {
      if consent && params.requiresNmea {
        noPending := true;
        nmea := sentence;
        CheckUpdateDgnssNtrip(isLocationValid, now);
      }
      clock := now;
    }
  }
}

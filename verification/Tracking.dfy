/** The tracking part of the GNSS adapter as an object: loops search the session map, commands update
    it and the modem. Every command is proved to be a step of TrackingSpec. */
module Tracking {
  import opened Wrappers
  import opened TrackingSpec

  class TrackingAdapter {
    var sessions: seq<Session>
    var nHzNeeded: bool
    var atHighest: bool
    var modem: Modem
    ghost var suspended: bool

    ghost function View(): State
      reads this
    {
      State(sessions, nHzNeeded, atHighest, modem, suspended)
    }

    constructor ()
      ensures View() == INITIAL
    {
      sessions, nHzNeeded, atHighest, modem := [], false, false, Stopped;
      suspended := false;
    }

    /** The smallest interval and power mode over all sessions but the one skipped, if any. */
    method FindSmallest(skip: Option<nat>) returns (best: Option<Options>, power: nat)
      ensures best == Smallest(Searched(sessions, skip), None)
      ensures power == LeastPower(Searched(sessions, skip), POWER_MODE_INVALID)
    {
      best, power := None, POWER_MODE_INVALID;
      var i := 0;
      while i < |sessions|
        invariant 0 <= i <= |sessions|
        invariant Smallest(Searched(sessions[i..], skip), best) == Smallest(Searched(sessions, skip), None)
        invariant LeastPower(Searched(sessions[i..], skip), power)
               == LeastPower(Searched(sessions, skip), POWER_MODE_INVALID)
      {
        var s := sessions[i];
        ghost var later := Searched(sessions[i + 1..], skip);
        assert sessions[i..][1..] == sessions[i + 1..];
        if skip.None? || s.key != skip.value {
          assert Searched(sessions[i..], skip) == [s] + later;
          if best.None? || s.options.interval < best.value.interval {
            best := Some(s.options);
          }
          if power == POWER_MODE_INVALID || s.options.power < power {
            power := s.options.power;
          }
        } else {
          assert Searched(sessions[i..], skip) == later;
        }
        i := i + 1;
      }
    }

    method FindHighestPower() returns (smallest: Option<Options>, highest: Option<Options>)
      ensures smallest == Smallest(sessions, None) && highest == HighestPower(sessions, None)
    {
      smallest, highest := None, None;
      var i := 0;
      while i < |sessions|
        invariant 0 <= i <= |sessions|
        invariant Smallest(sessions[i..], smallest) == Smallest(sessions, None)
        invariant HighestPower(sessions[i..], highest) == HighestPower(sessions, None)
      {
        var o := sessions[i].options;
        assert sessions[i..][1..] == sessions[i + 1..];
        if smallest.None? || o.interval < smallest.value.interval {
          smallest := Some(o);
        }
        if highest.None? || (o.power != POWER_MODE_INVALID && o.power < highest.value.power) {
          highest := Some(o);
        }
        i := i + 1;
      }
    }

    /** Whether the modem already runs at the highest rate; if it must start doing so, the options change. */
    method CheckHighestRate(o: Options) returns (already: bool, adjusted: Options)
      modifies this`atHighest
      ensures already == (nHzNeeded && old(atHighest))
      ensures !already ==> old(View()).(modem := Running(adjusted), atHighest := atHighest) == Send(old(View()), o)
      ensures already ==> View() == Send(old(View()), o)
    {
      already, adjusted := false, o;
      if !nHzNeeded {
      } else if atHighest {
        already := true;
      } else if o.interval > MIN_TRACKING_INTERVAL {
        adjusted := o.(interval := MIN_TRACKING_INTERVAL);
        atHighest := true;
      }
    }

    method StartTimeBasedTracking(o: Options)
      modifies this`atHighest, this`modem
      ensures View() == Send(old(View()), o)
    {
      var already, adjusted := CheckHighestRate(o);
      if !already {
        modem := Running(adjusted);
      }
    }

    method StartTracking(key: nat, requested: Options)
      modifies this
      ensures View() == Step(old(View()), Start(key, requested))
    {
      var o := requested;
      if o.interval < MIN_TRACKING_INTERVAL {
        o := o.(interval := MIN_TRACKING_INTERVAL);
      }
      if |sessions| == 0 {
        StartTimeBasedTracking(o);
      } else {
        var found, power := FindSmallest(None);
        var multiplexed, updateOptions := OrUnset(found), false;
        if o.interval < multiplexed.interval {
          multiplexed := multiplexed.(interval := o.interval);
          updateOptions := true;
        }
        if o.power < power {
          multiplexed := multiplexed.(power := o.power);
          updateOptions := true;
        }
        if updateOptions {
          StartTimeBasedTracking(multiplexed);
        }
      }
      sessions := Save(sessions, Session(key, o));
    }

    method UpdateTracking(key: nat, requested: Options)
      modifies this
      ensures View() == Step(old(View()), Update(key, requested))
    {
      if !IsSession(sessions, key) {
        return;
      }
      var o := requested;
      if o.interval < MIN_TRACKING_INTERVAL {
        o := o.(interval := MIN_TRACKING_INTERVAL);
      }
      var own := Lookup(sessions, key);
      if own.interval != o.interval || own.power != o.power {
        var found, power := FindSmallest(Some(key));
        var multiplexed, updateOptions := OrUnset(found), false;
        if o.interval < multiplexed.interval {
          multiplexed := multiplexed.(interval := o.interval);
          updateOptions := true;
        }
        if o.power < power {
          multiplexed := multiplexed.(power := o.power);
          updateOptions := true;
        }
        if |sessions| == 1 {
          multiplexed := o;
          updateOptions := true;
        }
        if updateOptions {
          StartTimeBasedTracking(multiplexed);
        }
      }
      sessions := Save(sessions, Session(key, o));
    }

    method StopTracking(key: nat)
      modifies this
      ensures View() == Step(old(View()), Stop(key))
    {
      if !IsSession(sessions, key) {
        return;
      }
      if |sessions| == 1 {
        modem := Stopped;
        atHighest := false;
      } else {
        var own := Lookup(sessions, key);
        var found, power := FindSmallest(Some(key));
        var multiplexed := OrUnset(found);
        if own.interval < multiplexed.interval || own.power < power {
          multiplexed := multiplexed.(power := power);
          StartTimeBasedTracking(multiplexed);
        }
      }
      sessions := Others(sessions, key);
    }

    method SuspendSessions()
      modifies this
      ensures View() == Step(old(View()), Suspend)
    {
      if |sessions| > 0 {
        modem := Stopped;
        atHighest := false;
        suspended := true;
      }
    }

    method RestartSessions()
      modifies this
      ensures View() == Restart(old(View()))
    {
      atHighest := false;
      suspended := false;
      if |sessions| > 0 {
        var smallest, highest := FindHighestPower();
        StartTimeBasedTracking(Options(OrUnset(smallest).interval, OrUnset(highest).power));
      }
    }

    method HandleEngineUp()
      modifies this
      ensures View() == Step(old(View()), EngineRestart)
    {
      modem := Stopped;
      RestartSessions();
    }

    method UpdateNHzRequirement(needed: bool)
      modifies this
      ensures View() == Step(old(View()), NHzChanged(needed))
    {
      if nHzNeeded != needed {
        nHzNeeded := needed;
        RestartSessions();
      }
    }
  }
}

/** The lock commands of the GNSS adapter as an object, each proved to be a step of GpsLockSpec. */
module GpsLock {
  import opened GpsLockSpec

  class LockAdapter {
    var lock: Lock
    var supportNfwControl: bool
    var afwControlId: nat
    var modemLock: Lock

    ghost function View(): State
      reads this
    {
      State(lock, supportNfwControl, afwControlId, modemLock)
    }

    constructor (configured: Lock, inModem: Lock)
      ensures View() == State(configured, true, 0, inModem)
    {
      lock, supportNfwControl, afwControlId, modemLock := configured, true, 0, inModem;
    }

    method SetConfig()
      modifies this
      ensures View() == Step(old(View()), EngineRestart)
    {
      if supportNfwControl || afwControlId == 0 {
        modemLock := lock;
      } else {
        modemLock := LOCK_NONE;
      }
    }

    method EnableCommand(sessionId: nat, isGnss: bool) returns (started: bool)
      modifies this
      ensures View() == Step(old(View()), Enable(sessionId, isGnss))
      ensures started == (isGnss && old(afwControlId) == 0)
    {
      if !isGnss || afwControlId > 0 {
        return false;
      }
      afwControlId := sessionId;
      var gpsLock := LOCK_NONE;
      if supportNfwControl {
        lock := lock.(mo := false);
        gpsLock := lock;
      }
      modemLock := gpsLock;
      started := true;
    }

    method DisableCommand(id: nat) returns (stopped: bool)
      modifies this
      ensures View() == Step(old(View()), Disable(id)) && stopped == (old(afwControlId) == id)
    {
      if afwControlId != id {
        return false;
      }
      afwControlId := 0;
      if supportNfwControl {
        lock := lock.(mo := true);
      }
      modemLock := lock;
      stopped := true;
    }

    method NfwControlCommand(enable: bool)
      modifies this
      ensures View() == Step(old(View()), NfwControl(enable))
    {
      if supportNfwControl {
        var gpsLock := lock;
        if enable {
          gpsLock := gpsLock.(ni := false);
        } else {
          gpsLock := gpsLock.(ni := true);
        }
        lock := gpsLock;
        modemLock := gpsLock;
      }
    }

    method UpdateConfig(requested: Lock)
      modifies this
      ensures View() == Step(old(View()), Configure(requested))
    {
      var newGpsLock, needEngineUpdate := requested.(mo := true), true;
      lock := newGpsLock;
      if afwControlId != 0 {
        if supportNfwControl {
          newGpsLock := LOCK_NONE;
        } else {
          needEngineUpdate := false;
        }
      }
      supportNfwControl := false;
      if needEngineUpdate {
        modemLock := newGpsLock;
      }
    }
  }
}

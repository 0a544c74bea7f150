/** The NTRIP correction source: two requests (a source to use, a position the source may need) and the
    tracking sessions decide together when the correction daemon is started, fed and stopped. */
module NtripSpec {

  const TEN_MINUTES: int := 600000
  const TWO_64: nat := 0x1_0000_0000_0000_0000

  /** Before any clock reading by more than ten minutes. */
  const LONG_AGO: int := -600001

  datatype Connection = Connection(useSsl: bool, host: string, port: nat, mountPoint: string,
                                   username: string, password: string)

  datatype Params = Params(connection: Connection, requiresNmea: bool)

  const NO_PARAMS := Params(Connection(false, "", 0, "", "", ""), false)

  /** What the daemon is sent. `needed` tells whether the source needed the position when it was started.
      `Again` is a start text repeated to a daemon that came back. */
  datatype Command =
    | Start(text: string, at: nat, needed: bool)
    | Stop
    | Push(nmea: string, at: nat)
    | Again(text: string)

  /** `enabled`, `noPending` and `started` are the three state bits, `sessions` the time-based tracking
      sessions, `saved` the text kept for a daemon restart, `last` when a position was last pushed.
      `clock` and `log` are bookkeeping: the latest reading of the clock and everything sent. */
  datatype State = State(enabled: bool, noPending: bool, started: bool, params: Params, nmea: string,
                         consent: bool, sessions: set<nat>, saved: string, last: nat, clock: nat,
                         log: seq<Command>)

  datatype Event =
    | Save(key: nat, timeBased: bool, now: nat)
    | Erase(key: nat)
    | Enable(params: Params, now: nat)
    | Disable
    | Consent(given: bool)
    | Report(nmea: string, valid: bool, now: nat)
    | DaemonRestart

  predicate Timed(e: Event) {
    e.Save? || e.Enable? || e.Report?
  }

  function Initial(params: Params): State {
    State(false, false, false, params, "", false, {}, "", 0, 0, [])
  }

  function Decimal(n: nat): string {
    (if n < 10 then "" else Decimal(n / 10)) + [(n % 10) as char + '0']
  }

  function StartText(params: Params, nmea: string): string {
    var c := params.connection;
    "startDgnssSource\n" + (if c.useSsl then "1" else "0") + "\n" + c.host + "\n" + Decimal(c.port) + "\n"
    + c.mountPoint + "\n" + c.username + "\n" + c.password + "\n"
    + if params.requiresNmea && nmea != "" then nmea + "\n" else ""
  }

  predicate NmeaRequired(s: State) {
    s.consent && s.params.requiresNmea
  }

  function Started(s: State, now: nat): State {
    var text := StartText(s.params, s.nmea);
    s.(started := true, saved := text, log := s.log + [Start(text, now, NmeaRequired(s))],
       last := if NmeaRequired(s) then now else s.last)
  }

  function Pushed(s: State, now: nat): State {
    s.(last := now, log := s.log + [Push(s.nmea, now)])
  }

  /** The 64-bit difference of two clock readings. */
  function Elapsed(s: State, now: nat): int {
    (now - s.last) % TWO_64
  }

  function CheckUpdate(s: State, valid: bool, now: nat): State {
    if s.sessions == {} then s
    else if s.enabled && s.noPending && !s.started then Started(s, now)
    else if s.started && valid && NmeaRequired(s) && Elapsed(s, now) > TEN_MINUTES then Pushed(s, now)
    else s
  }

  function StopSource(s: State): State {
    if s.started then s.(started := false, saved := "", log := s.log + [Stop]) else s
  }

  function OnErase(s: State, key: nat): State {
    var left := s.(sessions := s.sessions - {key});
    StopSource(if NmeaRequired(s) then left.(noPending := false, nmea := "") else left)
  }

  /** Whether the position is needed plays no part in telling a repeated request. */
  predicate SameSource(s: State, params: Params) {
    s.params.connection == params.connection
  }

  function OnEnable(s: State, params: Params, now: nat): State {
    if SameSource(s, params) then s
    else
      var asked := s.(enabled := true, noPending := true, started := false, params := params, nmea := "");
      if NmeaRequired(asked) then asked.(noPending := false, last := 0) else CheckUpdate(asked, false, now)
  }

  function OnDisable(s: State): State {
    StopSource(s.(params := NO_PARAMS, nmea := "", enabled := false, noPending := true))
  }

  function OnReport(s: State, nmea: string, valid: bool, now: nat): State {
    if !NmeaRequired(s) then s else CheckUpdate(s.(noPending := true, nmea := nmea), valid, now)
  }

  function OnSave(s: State, key: nat, timeBased: bool, now: nat): State {
    CheckUpdate(if timeBased then s.(sessions := s.sessions + {key}) else s, false, now)
  }

  function OnDaemonRestart(s: State): State {
    if s.saved == "" then s else s.(log := s.log + [Again(s.saved)])
  }

  function Step(s: State, e: Event): State {
    match e
    case Save(key, timeBased, now) => OnSave(s, key, timeBased, now).(clock := now)
    case Erase(key) => OnErase(s, key)
    case Enable(params, now) => OnEnable(s, params, now).(clock := now)
    case Disable => OnDisable(s)
    case Consent(given) => s.(consent := given)
    case Report(nmea, valid, now) => OnReport(s, nmea, valid, now).(clock := now)
    case DaemonRestart => OnDaemonRestart(s)
  }

  function Run(s: State, es: seq<Event>): State {
    if es == [] then s else Step(Run(s, es[..|es| - 1]), es[|es| - 1])
  }

  // ---------------------------------------------------------------- the started flag

  ghost predicate Sound(s: State) {
    s.started ==>
      && s.enabled && s.noPending && s.sessions != {}
      && s.saved != "" && exists nmea :: s.saved == StartText(s.params, nmea)
  }

  /** The text of the source the daemon was last told to run, empty when it was last told to stop; repeats do
      not count. */
  function Live(log: seq<Command>): string {
    if log == [] then ""
    else
      match log[|log| - 1]
      case Start(text, _, _) => text
      case Stop => ""
      case _ => Live(log[..|log| - 1])
  }

  /** Whatever was repeated was, at that time, the source the daemon was last told to run. */
  ghost predicate RepeatsLive(log: seq<Command>) {
    forall j :: 0 <= j < |log| && log[j].Again? ==> log[j].text == Live(log[..j]) != ""
  }

  lemma LiveAfter(log: seq<Command>, c: Command)
    ensures Live(log + [c]) == match c { case Start(text, _, _) => text case Stop => "" case _ => Live(log) }
    ensures RepeatsLive(log) && (c.Again? ==> c.text == Live(log) != "") ==> RepeatsLive(log + [c])
  {
    var r := log + [c];
    assert r[..|log|] == log;
    assert forall j :: 0 <= j < |log| ==> r[..j] == log[..j];
  }

  lemma TextNotEmpty(params: Params, nmea: string)
    ensures StartText(params, nmea) != ""
  {
    assert |StartText(params, nmea)| >= |"startDgnssSource\n"|;
  }

  ghost predicate Good(s: State) {
    Sound(s) && s.saved == Live(s.log) && RepeatsLive(s.log)
  }

  lemma CheckUpdateGood(s: State, valid: bool, now: nat)
    requires Good(s)
    ensures Good(CheckUpdate(s, valid, now))
  {
    var r := CheckUpdate(s, valid, now);
    TextNotEmpty(s.params, s.nmea);
    if r != s {
      LiveAfter(s.log, r.log[|r.log| - 1]);
    }
  }

  lemma StopSourceGood(s: State)
    requires s.saved == Live(s.log) && RepeatsLive(s.log)
    ensures Good(StopSource(s))
  {
    LiveAfter(s.log, Stop);
  }

  lemma EnableGood(s: State, params: Params, now: nat)
    requires Good(s)
    ensures Good(OnEnable(s, params, now))
  {
    CheckUpdateGood(s.(enabled := true, noPending := true, started := false, params := params, nmea := ""),
                    false, now);
  }

  lemma StepGood(s: State, e: Event)
    requires Good(s)
    ensures Good(Step(s, e))
  {
    match e
    case Save(key, timeBased, now) =>
      CheckUpdateGood(if timeBased then s.(sessions := s.sessions + {key}) else s, false, now);
    case Erase(key) =>
      var left := s.(sessions := s.sessions - {key});
      StopSourceGood(if NmeaRequired(s) then left.(noPending := false, nmea := "") else left);
    case Enable(params, now) => EnableGood(s, params, now);
    case Disable =>
      StopSourceGood(s.(params := NO_PARAMS, nmea := "", enabled := false, noPending := true));
    case Consent(given) =>
    case Report(nmea, valid, now) =>
      CheckUpdateGood(s.(noPending := true, nmea := nmea), valid, now);
    case DaemonRestart =>
      LiveAfter(s.log, Again(s.saved));
  }

  /** In every run a started source is enabled, has the position it waited for, serves a tracking session,
      and was started with the current parameters; and what every daemon restart sent again was exactly
      the source the daemon was last told to run. */
  lemma {:induction false} RunGood(params: Params, es: seq<Event>)
    ensures Good(Run(Initial(params), es))
  {
    if es != [] {
      RunGood(params, es[..|es| - 1]);
      StepGood(Run(Initial(params), es[..|es| - 1]), es[|es| - 1]);
    }
  }

  // ---------------------------------------------------------------- started whenever it should be

  ghost predicate Prompt(s: State) {
    s.started <==> s.enabled && s.noPending && s.sessions != {}
  }

  /** Erasing one of several sessions stops the source for all of them. */
  predicate Starves(s: State, e: Event) {
    e.Erase? && s.started && !NmeaRequired(s) && s.sessions - {e.key} != {}
  }

  /** The source runs whenever everything for it is there; the only step that breaks this is an erase that
      starves the sessions left. */
  lemma PromptExact(s: State, e: Event)
    requires Sound(s) && Prompt(s)
    ensures Prompt(Step(s, e)) <==> !Starves(s, e)
  {
  }

  /** The next saved session repairs it. */
  lemma SaveRepairs(s: State, key: nat, timeBased: bool, now: nat)
    requires Sound(s)
    ensures Prompt(Step(s, Save(key, timeBased, now)))
  {
  }

  ghost predicate NeverStarves(params: Params, es: seq<Event>) {
    es == [] ||
    (&& NeverStarves(params, es[..|es| - 1])
     && !Starves(Run(Initial(params), es[..|es| - 1]), es[|es| - 1]))
  }

  ghost predicate AlwaysPrompt(params: Params, es: seq<Event>) {
    Prompt(Run(Initial(params), es)) && (es == [] || AlwaysPrompt(params, es[..|es| - 1]))
  }

  /** The source runs whenever everything for it is there, throughout exactly the runs that starve nobody. */
  lemma {:induction false} RunPrompt(params: Params, es: seq<Event>)
    ensures AlwaysPrompt(params, es) <==> NeverStarves(params, es)
  {
    if es != [] {
      var front := es[..|es| - 1];
      RunPrompt(params, front);
      RunGood(params, front);
      if Prompt(Run(Initial(params), front)) {
        PromptExact(Run(Initial(params), front), es[|es| - 1]);
      }
    }
  }

  /** The daemon runs a source exactly when the flag says so. */
  ghost predicate DaemonFollows(s: State) {
    s.started <==> Live(s.log) != ""
  }

  /** A new source that must wait for a position clears the flag of the running one without stopping it. */
  predicate Orphans(s: State, e: Event) {
    e.Enable? && s.started && !SameSource(s, e.params) && s.consent && e.params.requiresNmea
  }

  lemma OrphanExact(s: State, e: Event)
    requires Good(s) && DaemonFollows(s)
    ensures DaemonFollows(Step(s, e)) <==> !Orphans(s, e)
  {
    StepGood(s, e);
    var r := Step(s, e);
    if e.Enable? && !SameSource(s, e.params) && !Orphans(s, e) && s.started {
      assert r.started;
    }
  }

  ghost predicate NeverOrphans(params: Params, es: seq<Event>) {
    es == [] ||
    (&& NeverOrphans(params, es[..|es| - 1])
     && !Orphans(Run(Initial(params), es[..|es| - 1]), es[|es| - 1]))
  }

  ghost predicate AlwaysFollows(params: Params, es: seq<Event>) {
    DaemonFollows(Run(Initial(params), es)) && (es == [] || AlwaysFollows(params, es[..|es| - 1]))
  }

  /** The daemon follows the flag throughout exactly the runs that orphan no source. */
  lemma {:induction false} RunFollows(params: Params, es: seq<Event>)
    ensures AlwaysFollows(params, es) <==> NeverOrphans(params, es)
  {
    if es != [] {
      var front := es[..|es| - 1];
      RunFollows(params, front);
      RunGood(params, front);
      if DaemonFollows(Run(Initial(params), front)) {
        OrphanExact(Run(Initial(params), front), es[|es| - 1]);
      }
    }
  }

  const SOURCE := Connection(false, "a", 1, "", "", "")
  const OTHER_SOURCE := SOURCE.(host := "b")

  lemma Extended(s: State, es: seq<Event>, e: Event)
    ensures Run(s, es + [e]) == Step(Run(s, es), e)
  {
    assert (es + [e])[..|es|] == es;
  }

  /** Two sessions, a source that needs no position, and one session erased: the other loses its source. */
  lemma EraseStarves() returns (es: seq<Event>, erase: Event)
    ensures Prompt(Run(Initial(NO_PARAMS), es)) && Starves(Run(Initial(NO_PARAMS), es), erase)
    ensures !Prompt(Run(Initial(NO_PARAMS), es + [erase]))
  {
    var s := Initial(NO_PARAMS);
    var enable := Enable(Params(SOURCE, false), 0);
    erase := Erase(1);
    es := [] + [enable] + [Save(1, true, 0)] + [Save(2, true, 0)];
    Extended(s, [], enable);
    Extended(s, [] + [enable], Save(1, true, 0));
    Extended(s, [] + [enable] + [Save(1, true, 0)], Save(2, true, 0));
    Extended(s, es, erase);
    assert 2 in Run(s, es).sessions - {1};
    RunGood(NO_PARAMS, es);
    PromptExact(Run(s, es), erase);
  }

  /** A started source replaced by one that must wait for a position: the daemon keeps the old one. */
  lemma EnableOrphans() returns (es: seq<Event>, enable: Event)
    ensures DaemonFollows(Run(Initial(NO_PARAMS), es)) && Orphans(Run(Initial(NO_PARAMS), es), enable)
    ensures !DaemonFollows(Run(Initial(NO_PARAMS), es + [enable]))
  {
    var s := Initial(NO_PARAMS);
    var first := Enable(Params(SOURCE, false), 0);
    enable := Enable(Params(OTHER_SOURCE, true), 0);
    es := [] + [Consent(true)] + [Save(1, true, 0)] + [first];
    Extended(s, [], Consent(true));
    Extended(s, [] + [Consent(true)], Save(1, true, 0));
    Extended(s, [] + [Consent(true)] + [Save(1, true, 0)], first);
    Extended(s, es, enable);
    assert 1 in Run(s, es).sessions && Run(s, es).started;
    RunGood(NO_PARAMS, es);
    OrphanExact(Run(s, es), enable);
  }

  // ---------------------------------------------------------------- ten minutes apart

  /** The clock never goes back and its readings fit 64 bits. */
  ghost predicate Clocked(s: State, es: seq<Event>) {
    es != [] ==>
      && Clocked(s, es[..|es| - 1])
      && (Timed(es[|es| - 1]) ==> Run(s, es[..|es| - 1]).clock <= es[|es| - 1].now < TWO_64)
  }

  /** When the next push counts from: the last push, or the start if it needed the position. */
  function Mark(log: seq<Command>): (t: int)
    ensures t >= LONG_AGO
  {
    if log == [] then LONG_AGO
    else
      match log[|log| - 1]
      case Start(_, at, needed) => if needed then at else LONG_AGO
      case Push(_, at) => at
      case _ => Mark(log[..|log| - 1])
  }

  ghost predicate Spaced(log: seq<Command>) {
    forall j :: 0 <= j < |log| && log[j].Push? ==> log[j].at - Mark(log[..j]) > TEN_MINUTES
  }

  ghost predicate Paced(s: State) {
    s.last <= s.clock && (s.started ==> Mark(s.log) <= s.last) && Spaced(s.log)
  }

  lemma SpacedAfter(log: seq<Command>, c: Command)
    requires Spaced(log) && (c.Push? ==> c.at - Mark(log) > TEN_MINUTES)
    ensures Spaced(log + [c])
    ensures Mark(log + [c])
         == match c {
            case Start(_, at, needed) => if needed then at else LONG_AGO
            case Push(_, at) => at
            case _ => Mark(log)
         }
  {
    var r := log + [c];
    assert r[..|log|] == log;
    forall j | 0 <= j < |r| && r[j].Push?
      ensures r[j].at - Mark(r[..j]) > TEN_MINUTES
    {
      if j < |log| {
        assert r[..j] == log[..j];
      }
    }
  }

  lemma CheckUpdatePaced(s: State, valid: bool, now: nat)
    requires Paced(s) && s.clock <= now < TWO_64
    ensures Paced(CheckUpdate(s, valid, now).(clock := now))
  {
    var r := CheckUpdate(s, valid, now);
    if |r.log| > |s.log| {
      assert Elapsed(s, now) == now - s.last;
      SpacedAfter(s.log, r.log[|r.log| - 1]);
    }
  }

  lemma StopSourcePaced(s: State)
    requires Paced(s)
    ensures Paced(StopSource(s))
  {
    SpacedAfter(s.log, Stop);
  }

  lemma EnablePaced(s: State, params: Params, now: nat)
    requires Paced(s) && s.clock <= now < TWO_64
    ensures Paced(OnEnable(s, params, now).(clock := now))
  {
    CheckUpdatePaced(s.(enabled := true, noPending := true, started := false, params := params, nmea := ""),
                     false, now);
  }

  lemma StepPaced(s: State, e: Event)
    requires Paced(s) && (Timed(e) ==> s.clock <= e.now < TWO_64)
    ensures Paced(Step(s, e))
  {
    match e
    case Save(key, timeBased, now) =>
      CheckUpdatePaced(if timeBased then s.(sessions := s.sessions + {key}) else s, false, now);
    case Erase(key) =>
      var left := s.(sessions := s.sessions - {key});
      StopSourcePaced(if NmeaRequired(s) then left.(noPending := false, nmea := "") else left);
    case Enable(params, now) => EnablePaced(s, params, now);
    case Disable =>
      StopSourcePaced(s.(params := NO_PARAMS, nmea := "", enabled := false, noPending := true));
    case Consent(given) =>
    case Report(nmea, valid, now) =>
      CheckUpdatePaced(s.(noPending := true, nmea := nmea), valid, now);
    case DaemonRestart =>
      SpacedAfter(s.log, Again(s.saved));
  }

  lemma {:induction false} RunPaced(params: Params, es: seq<Event>)
    requires Clocked(Initial(params), es)
    ensures Paced(Run(Initial(params), es))
  {
    if es != [] {
      RunPaced(params, es[..|es| - 1]);
      StepPaced(Run(Initial(params), es[..|es| - 1]), es[|es| - 1]);
    }
  }

  /** No source is started between the two positions in the log. */
  ghost predicate OneSession(log: seq<Command>, i: nat, j: nat) {
    i < j < |log| && forall k :: i < k < j ==> !log[k].Start?
  }

  lemma {:induction false} MarkGrows(log: seq<Command>, i: nat, j: nat)
    requires Spaced(log) && OneSession(log, i, j)
    requires log[i].Push? || (log[i].Start? && log[i].needed)
    ensures Mark(log[..j]) >= log[i].at
    decreases j
  {
    assert log[..j][..j - 1] == log[..j - 1];
    if i < j - 1 {
      MarkGrows(log, i, j - 1);
    }
  }

  /** Within one started session two pushed positions are more than ten minutes apart, and so are the start
      and the first push when the source needed the position from the start. */
  lemma PushesTenMinutesApart(params: Params, es: seq<Event>, i: nat, j: nat)
    requires Clocked(Initial(params), es)
    requires var log := Run(Initial(params), es).log;
             && OneSession(log, i, j) && log[j].Push?
             && (log[i].Push? || (log[i].Start? && log[i].needed))
    ensures var log := Run(Initial(params), es).log; log[j].at - log[i].at > TEN_MINUTES
  {
    RunPaced(params, es);
    MarkGrows(Run(Initial(params), es).log, i, j);
  }
}

/** What the messages ask of the NTRIP source, what each makes the daemon hear, and what the text that starts
    a source says. */
module NtripEffects {
  import opened Splitting
  import opened NtripSpec

  // ---------------------------------------------------------------- the settings by the messages alone

  ghost function ConsentGiven(es: seq<Event>): bool {
    es != [] && if es[|es| - 1].Consent? then es[|es| - 1].given else ConsentGiven(es[..|es| - 1])
  }

  ghost function Tracking(es: seq<Event>): set<nat> {
    if es == [] then {}
    else
      var before := Tracking(es[..|es| - 1]);
      match es[|es| - 1]
      case Save(key, timeBased, _) => if timeBased then before + {key} else before
      case Erase(key) => before - {key}
      case _ => before
  }

  /** The source asked for: a request for the same connection changes nothing, not even the need of a position. */
  ghost function Asked(initial: Params, es: seq<Event>): Params {
    if es == [] then initial
    else
      var before := Asked(initial, es[..|es| - 1]);
      match es[|es| - 1]
      case Enable(params, _) => if params.connection == before.connection then before else params
      case Disable => Params(Connection(false, "", 0, "", "", ""), false)
      case _ => before
  }

  ghost predicate Needed(initial: Params, es: seq<Event>) {
    ConsentGiven(es) && Asked(initial, es).requiresNmea
  }

  ghost predicate New(initial: Params, es: seq<Event>, e: Event) {
    e.Enable? && e.params.connection != Asked(initial, es).connection
  }

  ghost function Enabled(initial: Params, es: seq<Event>): bool {
    es != [] &&
    var front, e := es[..|es| - 1], es[|es| - 1];
    if New(initial, front, e) then true else if e.Disable? then false else Enabled(initial, front)
  }

  /** No position is waited for: one came, or none is needed. */
  ghost function Ready(initial: Params, es: seq<Event>): bool {
    es != [] &&
    var front, e := es[..|es| - 1], es[|es| - 1];
    if New(initial, front, e) then !(ConsentGiven(front) && e.params.requiresNmea)
    else if e.Disable? then true
    else if e.Erase? && Needed(initial, front) then false
    else if e.Report? && Needed(initial, front) then true
    else Ready(initial, front)
  }

  /** The last position reported for the source while it was needed. */
  ghost function Position(initial: Params, es: seq<Event>): string {
    if es == [] then ""
    else
      var front, e := es[..|es| - 1], es[|es| - 1];
      if New(initial, front, e) || e.Disable? || (e.Erase? && Needed(initial, front)) then ""
      else if e.Report? && Needed(initial, front) then e.nmea
      else Position(initial, front)
  }

  lemma {:induction false} SettingsAsAsked(initial: Params, es: seq<Event>)
    ensures var s := Run(Initial(initial), es);
            && s.consent == ConsentGiven(es) && s.sessions == Tracking(es) && s.params == Asked(initial, es)
            && s.enabled == Enabled(initial, es) && s.noPending == Ready(initial, es)
            && s.nmea == Position(initial, es)
  {
    if es != [] {
      SettingsAsAsked(initial, es[..|es| - 1]);
      StepSettings(Run(Initial(initial), es[..|es| - 1]), es[|es| - 1]);
      StepParams(Run(Initial(initial), es[..|es| - 1]), es[|es| - 1]);
      StepPosition(Run(Initial(initial), es[..|es| - 1]), es[|es| - 1]);
    }
  }

  predicate Renews(s: State, e: Event) {
    e.Enable? && e.params.connection != s.params.connection
  }

  predicate Need(s: State) {
    s.consent && s.params.requiresNmea
  }

  lemma StepSettings(s: State, e: Event)
    ensures var r := Step(s, e);
            && r.consent == (if e.Consent? then e.given else s.consent)
            && r.sessions == (if e.Save? && e.timeBased then s.sessions + {e.key}
                              else if e.Erase? then s.sessions - {e.key} else s.sessions)
  {
  }

  lemma StepParams(s: State, e: Event)
    ensures var r := Step(s, e);
            && r.params == (if Renews(s, e) then e.params
                            else if e.Disable? then Params(Connection(false, "", 0, "", "", ""), false) else s.params)
            && r.enabled == (if Renews(s, e) then true else if e.Disable? then false else s.enabled)
  {
  }

  lemma StepPosition(s: State, e: Event)
    ensures var r := Step(s, e);
            && r.noPending == (if Renews(s, e) then !(s.consent && e.params.requiresNmea)
                               else if e.Disable? then true
                               else if e.Erase? && Need(s) then false
                               else if e.Report? && Need(s) then true
                               else s.noPending)
            && r.nmea == (if Renews(s, e) || e.Disable? || (e.Erase? && Need(s)) then ""
                          else if e.Report? && Need(s) then e.nmea else s.nmea)
  {
  }

  // ---------------------------------------------------------------- what the daemon hears

  /** The source is started by a session, a new request or a report once everything for it is there. */
  ghost predicate Starts(s: State, e: Event) {
    var r := Step(s, e);
    && (e.Save? || Renews(s, e) || (e.Report? && Need(s)))
    && (!s.started || e.Enable?) && r.sessions != {} && r.enabled && r.noPending
  }

  ghost predicate Stops(s: State, e: Event) {
    s.started && (e.Erase? || e.Disable?)
  }

  /** A valid position reported in session to a started source that needs it is pushed when more than ten minutes
      have passed since the last one. */
  ghost predicate Pushes(s: State, e: Event) {
    && e.Report? && e.valid && Need(s) && s.started && s.sessions != {}
    && (e.now - s.last) % 0x1_0000_0000_0000_0000 > 600000
  }

  ghost function Said(s: State, e: Event): seq<Command> {
    var r := Step(s, e);
    if Starts(s, e) then [Start(StartText(r.params, r.nmea), e.now, r.consent && r.params.requiresNmea)]
    else if Stops(s, e) then [Stop]
    else if Pushes(s, e) then [Push(e.nmea, e.now)]
    else if e.DaemonRestart? && Live(s.log) != "" then [Again(Live(s.log))]
    else []
  }

  ghost predicate CheckStarts(s: State) {
    s.sessions != {} && s.enabled && s.noPending && !s.started
  }

  ghost predicate CheckPushes(s: State, valid: bool, now: nat) {
    s.sessions != {} && s.started && valid && Need(s) && (now - s.last) % 0x1_0000_0000_0000_0000 > 600000
  }

  lemma CheckSays(s: State, valid: bool, now: nat)
    ensures CheckUpdate(s, valid, now)
         == if CheckStarts(s)
            then s.(started := true, saved := StartText(s.params, s.nmea), last := if Need(s) then now else s.last,
                    log := s.log + [Start(StartText(s.params, s.nmea), now, Need(s))])
            else if CheckPushes(s, valid, now) then s.(last := now, log := s.log + [Push(s.nmea, now)])
            else s
  {
  }

  lemma EnableSays(s: State, params: Params, now: nat)
    requires Good(s)
    ensures Step(s, Enable(params, now)).log == s.log + Said(s, Enable(params, now))
    ensures Step(s, Enable(params, now)).started == (Starts(s, Enable(params, now))
                                                     || (s.started && !Renews(s, Enable(params, now))))
    ensures Step(s, Enable(params, now)).last
         == if Renews(s, Enable(params, now)) && s.consent && params.requiresNmea then 0
            else s.last
  {
    CheckSays(s.(enabled := true, noPending := true, started := false, params := params, nmea := ""), false, now);
  }

  lemma SaveSays(s: State, key: nat, timeBased: bool, now: nat)
    requires Good(s)
    ensures Step(s, Save(key, timeBased, now)).log == s.log + Said(s, Save(key, timeBased, now))
  {
    CheckSays(if timeBased then s.(sessions := s.sessions + {key}) else s, false, now);
  }

  lemma ReportSays(s: State, nmea: string, valid: bool, now: nat)
    requires Good(s)
    ensures Step(s, Report(nmea, valid, now)).log == s.log + Said(s, Report(nmea, valid, now))
  {
    CheckSays(s.(noPending := true, nmea := nmea), valid, now);
  }

  /** The daemon hears exactly that. */
  lemma StepSays(s: State, e: Event)
    requires Good(s)
    ensures Step(s, e).log == s.log + Said(s, e)
  {
    match e
    case Save(key, timeBased, now) => SaveSays(s, key, timeBased, now);
    case Enable(params, now) => EnableSays(s, params, now);
    case Report(nmea, valid, now) => ReportSays(s, nmea, valid, now);
    case _ =>
  }

  /** Started from then on. */
  lemma StepStarts(s: State, e: Event)
    requires Good(s)
    ensures Step(s, e).started == (Starts(s, e) || (s.started && !Stops(s, e) && !Renews(s, e)))
  {
    match e
    case Save(key, timeBased, now) =>
      CheckSays(if timeBased then s.(sessions := s.sessions + {key}) else s, false, now);
    case Enable(params, now) => EnableSays(s, params, now);
    case Report(nmea, valid, now) => CheckSays(s.(noPending := true, nmea := nmea), valid, now);
    case _ =>
  }

  /** And timed, when it needs positions. */
  lemma StepTimes(s: State, e: Event)
    requires Good(s)
    ensures Step(s, e).last == if (Starts(s, e) && Need(Step(s, e))) || Pushes(s, e) then e.now
                               else if Renews(s, e) && s.consent && e.params.requiresNmea then 0
                               else s.last
  {
    match e
    case Save(key, timeBased, now) =>
      CheckSays(if timeBased then s.(sessions := s.sessions + {key}) else s, false, now);
    case Enable(params, now) => EnableSays(s, params, now);
    case Report(nmea, valid, now) => CheckSays(s.(noPending := true, nmea := nmea), valid, now);
    case _ =>
  }

  // ---------------------------------------------------------------- the start text

  predicate Digit(c: char) {
    '0' <= c <= '9'
  }

  function DigitValue(c: char): nat {
    if Digit(c) then (c - '0') as nat else 0
  }

  function Value(digits: string): nat {
    if digits == "" then 0 else 10 * Value(digits[..|digits| - 1]) + DigitValue(digits[|digits| - 1])
  }

  lemma LastDigit(n: nat)
    ensures var c := (n % 10) as char + '0'; Digit(c) && DigitValue(c) == n % 10
  {
  }

  lemma ValueNext(digits: string, c: char)
    ensures Value(digits + [c]) == 10 * Value(digits) + DigitValue(c)
  {
    assert (digits + [c])[..|digits|] == digits;
  }

  lemma {:induction false} DecimalReads(n: nat)
    ensures forall c :: c in Decimal(n) ==> Digit(c)
    ensures Value(Decimal(n)) == n
  {
    var front := if n < 10 then "" else Decimal(n / 10);
    LastDigit(n);
    ValueNext(front, (n % 10) as char + '0');
    if n >= 10 {
      DecimalReads(n / 10);
    }
  }

  /** The lines of the text: the command, the connection, and the position when it is needed and known. */
  function Lines(params: Params, nmea: string): seq<string> {
    var c := params.connection;
    ["startDgnssSource", if c.useSsl then "1" else "0", c.host, Decimal(c.port), c.mountPoint, c.username, c.password]
    + (if params.requiresNmea && nmea != "" then [nmea] else [])
  }

  lemma Grouped(a: string, b: string, c: string)
    ensures a + (b + c) == a + b + c
  {
  }

  lemma GlueBehind(first: string, a: seq<string>, b: seq<string>, c: char)
    requires Glue(a + b, c) == Glue(a, c) + Glue(b, c)
    ensures Glue([first] + (a + b), c) == Glue([first] + a, c) + Glue(b, c)
  {
    GlueFirst(first, a + b, c);
    GlueFirst(first, a, c);
    Grouped(first + [c], Glue(a, c), Glue(b, c));
  }

  lemma {:induction false} GlueTwo(a: seq<string>, b: seq<string>, c: char)
    ensures Glue(a + b, c) == Glue(a, c) + Glue(b, c)
  {
    if a == [] {
      assert a + b == b && Glue(a, c) == "";
    } else {
      GlueTwo(a[1..], b, c);
      GlueBehind(a[0], a[1..], b, c);
      assert [a[0]] + (a[1..] + b) == a + b && [a[0]] + a[1..] == a;
    }
  }

  lemma GlueOne(line: string, c: char)
    ensures Glue([line], c) == line + [c]
  {
    assert [line][1..] == [];
  }

  lemma GlueLast(lines: seq<string>, line: string, c: char)
    ensures Glue(lines + [line], c) == Glue(lines, c) + line + [c]
  {
    GlueTwo(lines, [line], c);
    GlueOne(line, c);
  }

  lemma SevenLines(a: string, b: string, c: string, d: string, e: string, f: string, g: string)
    ensures Glue([a, b, c, d, e, f, g], '\n')
         == a + "\n" + b + "\n" + c + "\n" + d + "\n" + e + "\n" + f + "\n" + g + "\n"
  {
    GlueOne(a, '\n');
    GlueLast([a], b, '\n');
    GlueLast([a, b], c, '\n');
    GlueLast([a, b, c], d, '\n');
    GlueLast([a, b, c, d], e, '\n');
    GlueLast([a, b, c, d, e], f, '\n');
    GlueLast([a, b, c, d, e, f], g, '\n');
    assert [a] + [b] == [a, b] && [a, b] + [c] == [a, b, c] && [a, b, c] + [d] == [a, b, c, d];
    assert [a, b, c, d] + [e] == [a, b, c, d, e] && [a, b, c, d, e] + [f] == [a, b, c, d, e, f];
    assert [a, b, c, d, e, f] + [g] == [a, b, c, d, e, f, g];
  }

  lemma TextIsLines(params: Params, nmea: string)
    ensures StartText(params, nmea) == Glue(Lines(params, nmea), '\n')
  {
    var c := params.connection;
    var ssl := if c.useSsl then "1" else "0";
    var seven := ["startDgnssSource", ssl, c.host, Decimal(c.port), c.mountPoint, c.username, c.password];
    SevenLines("startDgnssSource", ssl, c.host, Decimal(c.port), c.mountPoint, c.username, c.password);
    GlueLast(seven, nmea, '\n');
    assert "startDgnssSource" + "\n" == "startDgnssSource\n";
    var text := Glue(seven, '\n');
    assert text + (nmea + "\n") == text + nmea + "\n" && text + "" == text && seven + [] == seven;
  }

  /** The daemon can read everything back: when no part has a line end the text splits into its lines, and the
      port into its number. */
  lemma TextReadsBack(params: Params, nmea: string)
    requires Free(Lines(params, nmea), '\n')
    ensures Pieces(StartText(params, nmea), '\n') == Lines(params, nmea)
    ensures forall c :: c in Decimal(params.connection.port) ==> Digit(c)
    ensures Value(Decimal(params.connection.port)) == params.connection.port
  {
    TextIsLines(params, nmea);
    PiecesOfGlue(Lines(params, nmea), "", '\n');
    assert StartText(params, nmea) + "" == StartText(params, nmea);
    DecimalReads(params.connection.port);
  }
}

/** The proprietary-files list: what sorting, cleaning and hashing do to its lines, and why running them
    again, or cleaning after hashing, gives nothing new. */
module Sha1SumsSpec {
  import opened Wrappers
  import opened Sorting

  type Line = string

  predicate IsHeader(line: Line) {
    line != "" && line[0] == '#'
  }

  predicate IsEntry(line: Line) {
    line != "" && line[0] != '#'
  }

  predicate HasText(line: string, part: string) {
    part <= line || (line != "" && HasText(line[1..], part))
  }

  /** The part before the first `c`, everything when there is none. */
  function Before(s: string, c: char): (r: string)
    ensures c !in r && (c !in s ==> r == s)
    ensures |r| <= |s| && r == s[..|r|] && (|r| < |s| ==> s[|r|] == c)
  {
    if s == "" || s[0] == c then "" else [s[0]] + Before(s[1..], c)
  }

  /** The part after the last `c`, everything when there is none. */
  function AfterLast(s: string, c: char): (r: string)
    ensures c !in r && |r| <= |s| && r == s[|s| - |r|..] && (|r| < |s| ==> s[|s| - |r| - 1] == c)
  {
    if s == "" || s[|s| - 1] == c then "" else AfterLast(s[..|s| - 1], c) + [s[|s| - 1]]
  }

  // ---------------------------------------------------------------- sections

  datatype Section = Section(name: Line, group: seq<Line>)

  /** Where reading is: the closed sections, and the open one, if its name is not empty. */
  datatype Reading = Reading(sections: seq<Section>, name: Line, group: seq<Line>)

  const START := Reading([], "", [])

  function Closed(r: Reading): seq<Section> {
    if r.name != "" && r.group != [] then r.sections + [Section(r.name, r.group)] else r.sections
  }

  predicate Ignored(line: Line, ignore: string) {
    ignore != "" && HasText(line, ignore)
  }

  function ReadLine(r: Reading, line: Line, ignore: string): Reading {
    if IsHeader(line) then
      Reading(Closed(r),
              if Ignored(line, ignore) then "" else line,
              if r.name != "" && r.group != [] then [] else r.group)
    else if line != "" && r.name != "" then r.(group := r.group + [line])
    else r
  }

  function Read(r: Reading, lines: seq<Line>, ignore: string): Reading {
    if lines == [] then r else ReadLine(Read(r, lines[..|lines| - 1], ignore), lines[|lines| - 1], ignore)
  }

  function Sections(lines: seq<Line>, ignore: string): seq<Section> {
    Closed(Read(START, lines, ignore))
  }

  /** A leading dash does not count when sorting. */
  function LineKey(line: Line): string {
    if line != "" && line[0] == '-' then line[1..] else line
  }

  function Tidy(s: Section): Section {
    s.(group := SortBy(s.group, LineKey))
  }

  function TidyAll(ss: seq<Section>): seq<Section> {
    seq(|ss|, i requires 0 <= i < |ss| => Tidy(ss[i]))
  }

  function NameKey(lower: string -> string): Section -> string {
    (s: Section) => lower(s.name)
  }

  function Shown(s: Section): seq<Line> {
    if s.group == [] then [] else [s.name] + s.group + [""]
  }

  function Print(ss: seq<Section>): seq<Line> {
    if ss == [] then [] else Print(ss[..|ss| - 1]) + Shown(ss[|ss| - 1])
  }

  function Arranged(lines: seq<Line>, ignore: string, lower: string -> string): seq<Section> {
    TidyAll(SortBy(Sections(lines, ignore), NameKey(lower)))
  }

  function Sorted(lines: seq<Line>, ignore: string, lower: string -> string): seq<Line> {
    Print(Arranged(lines, ignore, lower))
  }

  // ---------------------------------------------------------------- entries under headers

  /** The header in force after `lines`, empty at the top and under an ignored header. */
  function HeaderAfter(lines: seq<Line>, ignore: string): Line {
    if lines == [] then ""
    else
      var last := lines[|lines| - 1];
      if IsHeader(last) then (if Ignored(last, ignore) then "" else last)
      else HeaderAfter(lines[..|lines| - 1], ignore)
  }

  /** Each entry below a kept header, with that header, in file order. */
  function Entries(lines: seq<Line>, ignore: string): seq<(Line, Line)> {
    if lines == [] then []
    else
      var front, last := lines[..|lines| - 1], lines[|lines| - 1];
      Entries(front, ignore) +
      if IsEntry(last) && HeaderAfter(front, ignore) != "" then [(HeaderAfter(front, ignore), last)] else []
  }

  function Tagged(name: Line, group: seq<Line>): (r: seq<(Line, Line)>)
    ensures |r| == |group| && forall i :: 0 <= i < |r| ==> r[i] == (name, group[i])
  {
    seq(|group|, i requires 0 <= i < |group| => (name, group[i]))
  }

  function Flat(ss: seq<Section>): seq<(Line, Line)> {
    if ss == [] then [] else Flat(ss[..|ss| - 1]) + Tagged(ss[|ss| - 1].name, ss[|ss| - 1].group)
  }

  // ---------------------------------------------------------------- reading

  lemma FrontLast<T>(s: seq<T>)
    requires s != []
    ensures s == s[..|s| - 1] + [s[|s| - 1]]
  {
  }

  lemma FirstFront<T>(x: T, s: seq<T>)
    requires s != []
    ensures ([x] + s)[..|s|] == [x] + s[..|s| - 1] && ([x] + s)[|s|] == s[|s| - 1] && |[x] + s| == |s| + 1
  {
  }

  ghost predicate GoodSection(s: Section, ignore: string) {
    && IsHeader(s.name) && !Ignored(s.name, ignore)
    && s.group != [] && forall line :: line in s.group ==> IsEntry(line)
  }

  ghost predicate GoodSections(ss: seq<Section>, ignore: string) {
    forall s :: s in ss ==> GoodSection(s, ignore)
  }

  ghost predicate GoodReading(r: Reading, ignore: string) {
    && GoodSections(r.sections, ignore)
    && (r.name == "" ==> r.group == [])
    && (r.name != "" ==> IsHeader(r.name) && !Ignored(r.name, ignore))
    && (forall line :: line in r.group ==> IsEntry(line))
  }

  lemma {:induction false} ReadGood(lines: seq<Line>, ignore: string)
    ensures var r := Read(START, lines, ignore);
            GoodReading(r, ignore) && r.name == HeaderAfter(lines, ignore)
    ensures GoodSections(Sections(lines, ignore), ignore)
  {
    if lines != [] {
      ReadGood(lines[..|lines| - 1], ignore);
    }
  }

  lemma {:induction false} ReadTwo(r: Reading, a: seq<Line>, b: seq<Line>, ignore: string)
    ensures Read(r, a + b, ignore) == Read(Read(r, a, ignore), b, ignore)
  {
    if b == [] {
      assert a + b == a;
    } else {
      ReadTwo(r, a, b[..|b| - 1], ignore);
      assert (a + b)[..|a + b| - 1] == a + b[..|b| - 1];
    }
  }

  lemma {:induction false} ReadGroup(r: Reading, group: seq<Line>, ignore: string)
    requires r.name != "" && forall line :: line in group ==> IsEntry(line)
    ensures Read(r, group, ignore) == r.(group := r.group + group)
  {
    if group == [] {
      assert r.group + group == r.group;
    } else {
      var front, last := group[..|group| - 1], group[|group| - 1];
      ReadGroup(r, front, ignore);
      assert IsEntry(last);
      assert r.group + group == r.group + front + [last];
    }
  }

  lemma ReadOne(r: Reading, line: Line, ignore: string)
    ensures Read(r, [line], ignore) == ReadLine(r, line, ignore)
  {
    assert [line][..0] == [];
    assert Read(r, [], ignore) == r;
  }

  lemma ReadShown(r: Reading, s: Section, ignore: string)
    requires GoodReading(r, ignore) && GoodSection(s, ignore)
    ensures Read(r, Shown(s), ignore) == Reading(Closed(r), s.name, s.group)
  {
    var entered := Reading(Closed(r), s.name, []);
    ReadOne(r, s.name, ignore);
    ReadGroup(entered, s.group, ignore);
    assert [] + s.group == s.group;
    ReadTwo(r, [s.name], s.group, ignore);
    ReadTwo(r, [s.name] + s.group, [""], ignore);
    ReadOne(entered.(group := s.group), "", ignore);
  }

  lemma PrintAppended(front: seq<Section>, last: Section)
    ensures Print(front + [last]) == Print(front) + Shown(last)
  {
    assert (front + [last])[..|front|] == front;
  }

  lemma PrintReadsLast(front: seq<Section>, last: Section, ignore: string)
    requires GoodSection(last, ignore) && Sections(Print(front), ignore) == front
    ensures Sections(Print(front) + Shown(last), ignore) == front + [last]
  {
    ReadGood(Print(front), ignore);
    ReadShown(Read(START, Print(front), ignore), last, ignore);
    ReadTwo(START, Print(front), Shown(last), ignore);
  }

  /** Reading what was printed gives the sections back. */
  lemma {:induction false} PrintReads(ss: seq<Section>, ignore: string)
    requires GoodSections(ss, ignore)
    ensures Sections(Print(ss), ignore) == ss
  {
    if ss != [] {
      var front, last := ss[..|ss| - 1], ss[|ss| - 1];
      PrintReads(front, ignore);
      assert GoodSection(last, ignore);
      PrintReadsLast(front, last, ignore);
      FrontLast(ss);
    }
  }

  /** The entries read so far, the open section's last. */
  function Held(r: Reading): seq<(Line, Line)> {
    Flat(r.sections) + Tagged(r.name, r.group)
  }

  lemma TaggedLast(name: Line, group: seq<Line>, line: Line)
    ensures Tagged(name, group + [line]) == Tagged(name, group) + [(name, line)]
  {
  }

  lemma HeldNext(r: Reading, line: Line, ignore: string)
    requires GoodReading(r, ignore)
    ensures Held(ReadLine(r, line, ignore))
         == Held(r) + if IsEntry(line) && r.name != "" then [(r.name, line)] else []
  {
    FlatClosed(r, ignore);
    if IsEntry(line) && r.name != "" {
      TaggedLast(r.name, r.group, line);
    }
  }

  lemma {:induction false} ReadHolds(lines: seq<Line>, ignore: string)
    ensures Entries(lines, ignore) == Held(Read(START, lines, ignore))
  {
    if lines != [] {
      var front, last := lines[..|lines| - 1], lines[|lines| - 1];
      ReadHolds(front, ignore);
      ReadGood(front, ignore);
      HeldNext(Read(START, front, ignore), last, ignore);
    }
  }

  lemma SectionsHoldEntries(lines: seq<Line>, ignore: string)
    ensures Flat(Sections(lines, ignore)) == Entries(lines, ignore)
  {
    ReadHolds(lines, ignore);
    ReadGood(lines, ignore);
    FlatClosed(Read(START, lines, ignore), ignore);
  }

  lemma FlatClosed(r: Reading, ignore: string)
    requires GoodReading(r, ignore)
    ensures Flat(Closed(r)) == Flat(r.sections) + Tagged(r.name, r.group)
  {
    if r.group != [] {
      assert Closed(r)[..|r.sections|] == r.sections;
    }
  }

  // ---------------------------------------------------------------- sorting

  lemma ArrangedGood(lines: seq<Line>, ignore: string, lower: string -> string)
    ensures GoodSections(Arranged(lines, ignore, lower), ignore)
    ensures SortedBy(Arranged(lines, ignore, lower), NameKey(lower))
    ensures forall s :: s in Arranged(lines, ignore, lower) ==> SortedBy(s.group, LineKey)
  {
    var ss := Sections(lines, ignore);
    ReadGood(lines, ignore);
    SortSorts(ss, NameKey(lower));
    var sorted := SortBy(ss, NameKey(lower));
    forall i | 0 <= i < |sorted|
      ensures GoodSection(Tidy(sorted[i]), ignore) && SortedBy(Tidy(sorted[i]).group, LineKey)
    {
      assert sorted[i] in multiset(sorted);
      TidyGood(sorted[i], ignore);
    }
  }

  lemma TidyGood(s: Section, ignore: string)
    requires GoodSection(s, ignore)
    ensures GoodSection(Tidy(s), ignore) && SortedBy(Tidy(s).group, LineKey)
    ensures multiset(Tidy(s).group) == multiset(s.group)
  {
    SortSorts(s.group, LineKey);
    forall line | line in Tidy(s).group
      ensures IsEntry(line)
    {
      assert line in multiset(Tidy(s).group);
    }
    assert s.group[0] in multiset(s.group);
  }

  lemma ArrangedStays(ss: seq<Section>, lower: string -> string)
    requires SortedBy(ss, NameKey(lower)) && forall s :: s in ss ==> SortedBy(s.group, LineKey)
    ensures TidyAll(SortBy(ss, NameKey(lower))) == ss
  {
    SortedStays(ss, NameKey(lower));
    forall i | 0 <= i < |ss|
      ensures Tidy(ss[i]) == ss[i]
    {
      assert ss[i] in ss;
      SortedStays(ss[i].group, LineKey);
    }
  }

  /** Sorting a sorted file changes nothing. */
  lemma SortingTwice(lines: seq<Line>, ignore: string, lower: string -> string)
    ensures Sorted(Sorted(lines, ignore, lower), ignore, lower) == Sorted(lines, ignore, lower)
  {
    var ss := Arranged(lines, ignore, lower);
    ArrangedGood(lines, ignore, lower);
    PrintReads(ss, ignore);
    ArrangedStays(ss, lower);
  }

  lemma {:induction false} FlatInserted(s: Section, ss: seq<Section>, key: Section -> string)
    ensures multiset(Flat(Insert(s, ss, key))) == multiset(Tagged(s.name, s.group)) + multiset(Flat(ss))
  {
    if ss == [] || LexLe(key(s), key(ss[0])) {
      FlatFirst(s, ss);
    } else {
      FlatInserted(s, ss[1..], key);
      FlatFirst(ss[0], Insert(s, ss[1..], key));
      FlatFirst(ss[0], ss[1..]);
      assert ss == [ss[0]] + ss[1..];
    }
  }

  lemma {:induction false} FlatFirst(s: Section, ss: seq<Section>)
    ensures Flat([s] + ss) == Tagged(s.name, s.group) + Flat(ss)
  {
    if ss == [] {
      assert ([s] + ss)[..0] == [];
    } else {
      FlatFirst(s, ss[..|ss| - 1]);
      FirstFront(s, ss);
    }
  }

  lemma {:induction false} FlatSorted(ss: seq<Section>, key: Section -> string)
    ensures multiset(Flat(SortBy(ss, key))) == multiset(Flat(ss))
  {
    if ss != [] {
      FlatSorted(ss[1..], key);
      FlatInserted(ss[0], SortBy(ss[1..], key), key);
      FlatFirst(ss[0], ss[1..]);
      assert ss == [ss[0]] + ss[1..];
    }
  }

  lemma {:induction false} TaggedCount(name: Line, group: seq<Line>, entry: (Line, Line))
    ensures multiset(Tagged(name, group))[entry] == if entry.0 == name then multiset(group)[entry.1] else 0
  {
    if group != [] {
      TaggedCount(name, group[1..], entry);
      TaggedFirst(name, group[0], group[1..]);
      assert group == [group[0]] + group[1..];
    }
  }

  lemma TaggedFirst(name: Line, x: Line, rest: seq<Line>)
    ensures Tagged(name, [x] + rest) == [(name, x)] + Tagged(name, rest)
  {
  }

  lemma TaggedSame(name: Line, a: seq<Line>, b: seq<Line>)
    requires multiset(a) == multiset(b)
    ensures multiset(Tagged(name, a)) == multiset(Tagged(name, b))
  {
    forall entry: (Line, Line)
      ensures multiset(Tagged(name, a))[entry] == multiset(Tagged(name, b))[entry]
    {
      TaggedCount(name, a, entry);
      TaggedCount(name, b, entry);
    }
  }

  lemma {:induction false} FlatTidied(ss: seq<Section>)
    ensures multiset(Flat(TidyAll(ss))) == multiset(Flat(ss))
  {
    if ss != [] {
      var front, last := ss[..|ss| - 1], ss[|ss| - 1];
      FlatTidied(front);
      SortSorts(last.group, LineKey);
      TaggedSame(last.name, Tidy(last).group, last.group);
      assert TidyAll(ss)[..|ss| - 1] == TidyAll(front);
    }
  }

  /** Sorting keeps every entry under a kept header, under that header, as often as it was there, and
      drops all others. */
  lemma SortingKeepsEntries(lines: seq<Line>, ignore: string, lower: string -> string)
    ensures multiset(Entries(Sorted(lines, ignore, lower), ignore)) == multiset(Entries(lines, ignore))
  {
    var ss := Arranged(lines, ignore, lower);
    ArrangedGood(lines, ignore, lower);
    PrintReads(ss, ignore);
    SectionsHoldEntries(Print(ss), ignore);
    FlatTidied(SortBy(Sections(lines, ignore), NameKey(lower)));
    FlatSorted(Sections(lines, ignore), NameKey(lower));
    SectionsHoldEntries(lines, ignore);
  }

  // ---------------------------------------------------------------- cleaning and hashing

  function CleanLine(line: Line): Line {
    if line == "" || line[0] == '#' || '|' !in line then line else Before(line, '|')
  }

  function CleanAll(lines: seq<Line>): (r: seq<Line>)
    ensures |r| == |lines| && forall i :: 0 <= i < |r| ==> r[i] == CleanLine(lines[i])
  {
    seq(|lines|, i requires 0 <= i < |lines| => CleanLine(lines[i]))
  }

  function Cleaned(lines: seq<Line>): seq<Line> {
    CleanAll(lines) + [""]
  }

  /** `FlagUnset`: an entry comes before any header, so the flag is read before it is set.
      `EmptyPath`: an entry to be hashed names no file. `NoFile`: the file cannot be opened. */
  datatype Failure = FlagUnset | EmptyPath | NoFile

  datatype Result<+T> = Ok(value: T) | Failed(failure: Failure)

  function PathText(line: Line): string {
    AfterLast(Before(Before(line, '|'), ';'), ':')
  }

  function Path(line: Line): string {
    var text := PathText(line);
    if text != "" && text[0] == '-' then text[1..] else text
  }

  /** `hash` gives the digest of a file, none when it cannot be opened. */
  function HashLine(line: Line, hash: string -> Option<string>): Result<Line> {
    if PathText(line) == "" then Failed(EmptyPath)
    else
      match hash(Path(line))
      case None => Failed(NoFile)
      case Some(digest) => Ok(Before(line, '|') + "|" + digest)
  }

  function Flag(lines: seq<Line>): Option<bool> {
    if lines == [] then None
    else
      var last := lines[|lines| - 1];
      if IsHeader(last) then Some(HasText(last, " - from")) else Flag(lines[..|lines| - 1])
  }

  function UpdateLine(flag: Option<bool>, line: Line, hash: string -> Option<string>): Result<Line> {
    if !IsEntry(line) then Ok(line)
    else
      match flag
      case None => Failed(FlagUnset)
      case Some(need) => if need then HashLine(line, hash) else Ok(line)
  }

  function UpdateAll(lines: seq<Line>, hash: string -> Option<string>): Result<seq<Line>> {
    if lines == [] then Ok([])
    else
      var front, last := lines[..|lines| - 1], lines[|lines| - 1];
      match UpdateAll(front, hash)
      case Failed(failure) => Failed(failure)
      case Ok(done) =>
        match UpdateLine(Flag(front), last, hash)
        case Failed(failure) => Failed(failure)
        case Ok(line) => Ok(done + [line])
  }

  function Updated(lines: seq<Line>, hash: string -> Option<string>): Result<seq<Line>> {
    match UpdateAll(lines, hash)
    case Failed(failure) => Failed(failure)
    case Ok(done) => Ok(done + [""])
  }

  /** What hashing needs of the line at `i`. */
  ghost predicate Ready(lines: seq<Line>, i: nat, hash: string -> Option<string>)
    requires i < |lines|
  {
    IsEntry(lines[i]) ==>
      && (exists h :: 0 <= h < i && IsHeader(lines[h]))
      && (Flag(lines[..i]) == Some(true) ==> PathText(lines[i]) != "" && hash(Path(lines[i])).Some?)
  }

  lemma {:induction false} FlagSet(lines: seq<Line>)
    ensures Flag(lines).Some? <==> exists h :: 0 <= h < |lines| && IsHeader(lines[h])
  {
    if lines != [] {
      FlagSet(lines[..|lines| - 1]);
      assert forall h :: 0 <= h < |lines| - 1 ==> lines[..|lines| - 1][h] == lines[h];
    }
  }

  /** Hashing succeeds exactly when every entry follows some header and every file it must hash has a
      name and can be opened. */
  lemma {:induction false} UpdateSucceeds(lines: seq<Line>, hash: string -> Option<string>)
    ensures UpdateAll(lines, hash).Ok? <==> forall i :: 0 <= i < |lines| ==> Ready(lines, i, hash)
  {
    if lines != [] {
      var front, last := lines[..|lines| - 1], lines[|lines| - 1];
      UpdateSucceeds(front, hash);
      FlagSet(front);
      forall i | 0 <= i < |front|
        ensures Ready(front, i, hash) <==> Ready(lines, i, hash)
      {
        assert front[..i] == lines[..i];
        assert forall h :: 0 <= h < i ==> front[h] == lines[h];
      }
      assert forall h :: 0 <= h < |front| ==> front[h] == lines[h];
      assert Ready(lines, |front|, hash) <==> UpdateLine(Flag(front), last, hash).Ok?;
    }
  }

  lemma {:induction false} CutAtBar(base: string, digest: string)
    requires '|' !in base
    ensures Before(base + "|" + digest, '|') == base
  {
    if base != "" {
      CutAtBar(base[1..], digest);
      assert (base + "|" + digest)[1..] == base[1..] + "|" + digest;
    }
  }

  lemma HashedLine(line: Line, hash: string -> Option<string>)
    requires IsEntry(line) && HashLine(line, hash).Ok?
    ensures var r := HashLine(line, hash).value;
            && IsEntry(r) && CleanLine(r) == CleanLine(line)
            && HashLine(r, hash) == Ok(r)
  {
    var base, digest, r := Before(line, '|'), hash(Path(line)).value, HashLine(line, hash).value;
    CutAtBar(base, digest);
    assert base != "" && r[0] == line[0];
    assert '|' in r by {
      assert r[|base|] == '|';
    }
  }

  lemma UpdatedLine(flag: Option<bool>, line: Line, hash: string -> Option<string>)
    requires UpdateLine(flag, line, hash).Ok?
    ensures var r := UpdateLine(flag, line, hash).value;
            && CleanLine(r) == CleanLine(line) && UpdateLine(flag, r, hash) == Ok(r)
            && (if IsHeader(line) then r == line else !IsHeader(r))
  {
    if IsEntry(line) && flag == Some(true) {
      HashedLine(line, hash);
    }
  }

  lemma UpdateAppended(front: seq<Line>, last: Line, hash: string -> Option<string>)
    ensures Flag(front + [last]) == if IsHeader(last) then Some(HasText(last, " - from")) else Flag(front)
    ensures UpdateAll(front + [last], hash)
         == match UpdateAll(front, hash)
            case Failed(failure) => Failed(failure)
            case Ok(done) =>
              match UpdateLine(Flag(front), last, hash)
              case Failed(failure) => Failed(failure)
              case Ok(line) => Ok(done + [line])
  {
    assert (front + [last])[..|front|] == front;
  }

  /** The file that hashing makes has the same headers, cleans to the same file, and hashes to itself. */
  ghost predicate HashesTo(lines: seq<Line>, done: seq<Line>, hash: string -> Option<string>) {
    && UpdateAll(lines, hash) == Ok(done) && UpdateAll(done, hash) == Ok(done)
    && Flag(done) == Flag(lines) && CleanAll(done) == CleanAll(lines)
  }

  lemma UpdatedLast(front: seq<Line>, done: seq<Line>, last: Line, hash: string -> Option<string>)
    requires HashesTo(front, done, hash) && UpdateLine(Flag(front), last, hash).Ok?
    ensures HashesTo(front + [last], done + [UpdateLine(Flag(front), last, hash).value], hash)
  {
    var line := UpdateLine(Flag(front), last, hash).value;
    UpdatedLine(Flag(front), last, hash);
    UpdateAppended(front, last, hash);
    UpdateAppended(done, line, hash);
    CleanAppended(done, line);
    CleanAppended(front, last);
  }

  lemma {:induction false} UpdatedLines(lines: seq<Line>, hash: string -> Option<string>)
    requires UpdateAll(lines, hash).Ok?
    ensures HashesTo(lines, UpdateAll(lines, hash).value, hash)
  {
    if lines != [] {
      var front, last := lines[..|lines| - 1], lines[|lines| - 1];
      UpdatedLines(front, hash);
      UpdatedLast(front, UpdateAll(front, hash).value, last, hash);
      assert lines == front + [last];
    }
  }

  lemma CleanAppended(lines: seq<Line>, line: Line)
    ensures CleanAll(lines + [line]) == CleanAll(lines) + [CleanLine(line)]
  {
  }

  lemma CleaningTwice(lines: seq<Line>)
    ensures CleanAll(CleanAll(lines)) == CleanAll(lines)
  {
  }

  // ---------------------------------------------------------------- whole files

  /** The characters that end a line. Text read from a file holds no carriage return, since reading turns
      each line end into a line feed. */
  predicate Break(c: char) {
    c in ['\n', '\r', '\U{0B}', '\U{0C}', '\U{1C}', '\U{1D}', '\U{1E}', '\U{85}', '\U{2028}', '\U{2029}']
  }

  ghost predicate OneLine(line: Line) {
    forall c :: c in line ==> !Break(c)
  }

  ghost predicate OneLines(lines: seq<Line>) {
    forall line :: line in lines ==> OneLine(line)
  }

  function FirstBreak(text: string): (i: nat)
    ensures i <= |text| && (i < |text| ==> Break(text[i]))
    ensures OneLine(text[..i])
  {
    if text == "" || Break(text[0]) then 0 else
      assert text[..1 + FirstBreak(text[1..])] == [text[0]] + text[1..][..FirstBreak(text[1..])];
      1 + FirstBreak(text[1..])
  }

  lemma {:induction false} FirstBreakAt(line: Line, rest: string)
    requires OneLine(line)
    ensures FirstBreak(line) == |line| && FirstBreak(line + "\n" + rest) == |line|
  {
    if line != "" {
      assert !Break(line[0]);
      FirstBreakAt(line[1..], rest);
      assert (line + "\n" + rest)[1..] == line[1..] + "\n" + rest;
    }
  }

  function SplitLines(text: string): (lines: seq<Line>)
    ensures OneLines(lines)
    decreases |text|
  {
    if text == "" then []
    else
      var i := FirstBreak(text);
      if i == |text| then assert text[..i] == text; [text] else [text[..i]] + SplitLines(text[i + 1..])
  }

  function Join(lines: seq<Line>): string {
    if lines == [] then "" else if |lines| == 1 then lines[0] else lines[0] + "\n" + Join(lines[1..])
  }

  function WithoutBlankEnd(lines: seq<Line>): seq<Line> {
    if lines != [] && lines[|lines| - 1] == "" then lines[..|lines| - 1] else lines
  }

  lemma SplitFirst(line: Line, rest: string)
    requires OneLine(line)
    ensures SplitLines(line) == (if line == "" then [] else [line])
    ensures SplitLines(line + "\n" + rest) == [line] + SplitLines(rest)
  {
    FirstBreakAt(line, rest);
    var text := line + "\n" + rest;
    assert text[..|line|] == line && text[|line| + 1..] == rest;
  }

  lemma {:induction false} SplitJoined(lines: seq<Line>)
    requires OneLines(lines)
    ensures SplitLines(Join(lines)) == WithoutBlankEnd(lines)
  {
    if lines != [] {
      assert OneLine(lines[0]);
      SplitFirst(lines[0], Join(lines[1..]));
      if |lines| > 1 {
        SplitJoined(lines[1..]);
        BlankEndFirst(lines[0], lines[1..]);
      }
      assert lines == [lines[0]] + lines[1..];
    }
  }

  lemma BlankEndFirst(first: Line, rest: seq<Line>)
    requires rest != []
    ensures WithoutBlankEnd([first] + rest) == [first] + WithoutBlankEnd(rest)
  {
  }

  function SortedText(text: string, ignore: string, lower: string -> string): string {
    Join(Sorted(SplitLines(text), ignore, lower))
  }

  function CleanedText(text: string): string {
    Join(Cleaned(SplitLines(text)))
  }

  function UpdatedText(text: string, hash: string -> Option<string>): Result<string> {
    match Updated(SplitLines(text), hash)
    case Failed(failure) => Failed(failure)
    case Ok(lines) => Ok(Join(lines))
  }

  lemma {:induction false} PrintedLines(ss: seq<Section>)
    requires forall s :: s in ss ==> OneLine(s.name) && forall line :: line in s.group ==> OneLine(line)
    ensures forall line :: line in Print(ss) ==> OneLine(line)
  {
    if ss != [] {
      PrintedLines(ss[..|ss| - 1]);
      assert ss[|ss| - 1] in ss;
    }
  }

  lemma {:induction false} ReadLines(lines: seq<Line>, ignore: string)
    requires OneLines(lines)
    ensures var r := Read(START, lines, ignore);
            OneLine(r.name) && forall line :: line in r.group ==> OneLine(line)
    ensures forall s :: s in Read(START, lines, ignore).sections ==>
              OneLine(s.name) && forall line :: line in s.group ==> OneLine(line)
  {
    if lines != [] {
      ReadLines(lines[..|lines| - 1], ignore);
      assert lines[|lines| - 1] in lines;
    }
  }

  lemma TidyLines(s: Section)
    requires forall line :: line in s.group ==> OneLine(line)
    ensures forall line :: line in Tidy(s).group ==> OneLine(line)
  {
    SortSorts(s.group, LineKey);
    forall line | line in Tidy(s).group
      ensures OneLine(line)
    {
      assert line in multiset(Tidy(s).group);
    }
  }

  lemma SortedLines(lines: seq<Line>, ignore: string, lower: string -> string)
    requires OneLines(lines)
    ensures forall line :: line in Sorted(lines, ignore, lower) ==> OneLine(line)
  {
    var ss := Sections(lines, ignore);
    ReadLines(lines, ignore);
    SortSorts(ss, NameKey(lower));
    var sorted := SortBy(ss, NameKey(lower));
    forall s | s in TidyAll(sorted)
      ensures OneLine(s.name) && forall line :: line in s.group ==> OneLine(line)
    {
      var i :| 0 <= i < |sorted| && s == Tidy(sorted[i]);
      assert sorted[i] in multiset(sorted);
      TidyLines(sorted[i]);
    }
    PrintedLines(TidyAll(sorted));
  }

  lemma BlankEndUnread(lines: seq<Line>, ignore: string)
    ensures Sections(WithoutBlankEnd(lines), ignore) == Sections(lines, ignore)
  {
  }

  /** Running the sort on its own output writes the same file. */
  lemma SortFileTwice(text: string, ignore: string, lower: string -> string)
    ensures SortedText(SortedText(text, ignore, lower), ignore, lower) == SortedText(text, ignore, lower)
  {
    var sorted := Sorted(SplitLines(text), ignore, lower);
    SortedLines(SplitLines(text), ignore, lower);
    SplitJoined(sorted);
    BlankEndUnread(sorted, ignore);
    SortingTwice(SplitLines(text), ignore, lower);
  }

  lemma CleanedLines(lines: seq<Line>)
    requires OneLines(lines)
    ensures forall line :: line in Cleaned(lines) ==> OneLine(line)
  {
    forall i | 0 <= i < |lines|
      ensures OneLine(CleanLine(lines[i]))
    {
      assert OneLine(lines[i]);
    }
  }

  /** Running the cleanup on its own output writes the same file. */
  lemma CleanFileTwice(text: string)
    ensures CleanedText(CleanedText(text)) == CleanedText(text)
  {
    var lines := SplitLines(text);
    CleanedLines(lines);
    SplitJoined(Cleaned(lines));
    CleaningTwice(lines);
  }

  lemma BeforeOneLine(line: Line, c: char)
    requires OneLine(line)
    ensures OneLine(Before(line, c))
  {
    forall d | d in Before(line, c)
      ensures !Break(d)
    {
      assert d in line;
    }
  }

  lemma BarOneLine(a: Line, b: Line)
    requires OneLine(a) && OneLine(b)
    ensures OneLine(a + "|" + b)
  {
  }

  lemma UpdateLineOneLine(flag: Option<bool>, line: Line, hash: string -> Option<string>)
    requires OneLine(line) && UpdateLine(flag, line, hash).Ok?
    requires forall path: string :: hash(path).Some? ==> OneLine(hash(path).value)
    ensures OneLine(UpdateLine(flag, line, hash).value)
  {
    if IsEntry(line) && flag == Some(true) {
      BeforeOneLine(line, '|');
      BarOneLine(Before(line, '|'), hash(Path(line)).value);
    }
  }

  lemma OneLinesAppended(lines: seq<Line>, line: Line)
    ensures OneLines(lines + [line]) <==> OneLines(lines) && OneLine(line)
  {
    assert line in lines + [line];
    assert forall l :: l in lines ==> l in lines + [line];
  }

  lemma {:induction false} UpdatedOneLine(lines: seq<Line>, hash: string -> Option<string>)
    requires OneLines(lines)
    requires forall path: string :: hash(path).Some? ==> OneLine(hash(path).value)
    requires UpdateAll(lines, hash).Ok?
    ensures OneLines(UpdateAll(lines, hash).value)
  {
    if lines != [] {
      var front, last := lines[..|lines| - 1], lines[|lines| - 1];
      FrontLast(lines);
      OneLinesAppended(front, last);
      UpdatedOneLine(front, hash);
      UpdateLineOneLine(Flag(front), last, hash);
      OneLinesAppended(UpdateAll(front, hash).value, UpdateLine(Flag(front), last, hash).value);
    }
  }

  /** Cleaning the file that hashing wrote gives exactly what cleaning the original gives, and hashing it
      again writes the same file. */
  lemma CleanUndoesUpdate(text: string, hash: string -> Option<string>)
    requires forall path: string :: hash(path).Some? ==> OneLine(hash(path).value)
    requires UpdatedText(text, hash).Ok?
    ensures CleanedText(UpdatedText(text, hash).value) == CleanedText(text)
    ensures UpdatedText(UpdatedText(text, hash).value, hash) == UpdatedText(text, hash)
  {
    var lines := SplitLines(text);
    var done := UpdateAll(lines, hash).value;
    UpdatedOneLine(lines, hash);
    SplitJoined(done + [""]);
    UpdatedLines(lines, hash);
  }
}

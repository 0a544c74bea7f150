/** The script's three commands, editing the list of lines in place, each proved to compute its function in
    Sha1SumsSpec. */
module Sha1Sums {
  import opened Wrappers
  import opened Sorting
  import opened Sha1SumsSpec

  class Script {
    var lines: seq<Line>

    constructor (text: string)
      ensures lines == SplitLines(text)
    {
      lines := SplitLines(text);
    }

    method Apply(section: Section)
      modifies this
      ensures lines == old(lines) + Shown(Tidy(section))
    {
      ShownTidy(section);
      if section.group != [] {
        lines := lines + [section.name];
        lines := lines + SortBy(section.group, LineKey);
        lines := lines + [""];
      }
    }

    method ReadSections(ignoreSection: string) returns (sections: seq<Section>)
      ensures sections == Sections(lines, ignoreSection)
    {
      var grp: seq<Line>, name := [], "";
      sections := [];
      for i := 0 to |lines|
        invariant Reading(sections, name, grp) == Read(START, lines[..i], ignoreSection)
      {
        var line := lines[i];
        assert lines[..i + 1][..i] == lines[..i];
        if |line| != 0 {
          if line[0] == '#' {
            if name != "" && grp != [] {
              sections := sections + [Section(name, grp)];
              grp := [];
            }
            if ignoreSection != "" && HasText(line, ignoreSection) {
              name := "";
            } else {
              name := line;
            }
          } else if name != "" {
            grp := grp + [line];
          }
        }
      }
      assert lines[..|lines|] == lines;
      if name != "" && grp != [] {
        sections := sections + [Section(name, grp)];
      }
    }

    method SortFile(ignoreSection: string, lower: string -> string)
      modifies this
      ensures lines == Sorted(old(lines), ignoreSection, lower)
    {
      var sections := ReadSections(ignoreSection);
      lines := [];
      sections := SortBy(sections, NameKey(lower));
      for i := 0 to |sections|
        invariant lines == PrintFirst(sections, i)
      {
        PrintNext(sections, i);
        Apply(sections[i]);
      }
      PrintEnd(sections);
    }

    method Cleanup()
      modifies this
      ensures lines == Cleaned(old(lines))
    {
      ghost var before := lines;
      for index := 0 to |lines|
        invariant |lines| == |before|
        invariant forall k :: 0 <= k < index ==> lines[k] == CleanLine(before[k])
        invariant forall k :: index <= k < |lines| ==> lines[k] == before[k]
      {
        var line := lines[index];
        if |line| == 0 || line[0] == '#' || '|' !in line {
          continue;
        }
        lines := lines[index := Before(line, '|')];
      }
      assert lines == CleanAll(before);
      lines := lines + [""];
    }

    /** One entry, hashed if the flag says so; none is returned when it went well. */
    method UpdateEntry(index: nat, needSha1: Option<bool>, hash: string -> Option<string>)
      returns (failure: Option<Failure>)
      requires index < |lines| && IsEntry(lines[index])
      modifies this
      ensures match UpdateLine(needSha1, old(lines[index]), hash)
              case Ok(line) => failure == None && lines == old(lines)[index := line]
              case Failed(f) => failure == Some(f) && lines == old(lines)
    {
      if needSha1 == None {
        return Some(FlagUnset);
      }
      if needSha1.value {
        var line := Before(lines[index], '|');
        var filePath := AfterLast(Before(line, ';'), ':');
        if filePath == "" {
          return Some(EmptyPath);
        }
        if filePath[0] == '-' {
          filePath := filePath[1..];
        }
        match hash(filePath) {
          case None => return Some(NoFile);
          case Some(digest) => lines := lines[index := line + "|" + digest];
        }
      }
      failure := None;
    }

    /** On a failure the exception leaves the file unwritten, whatever was done to the list. */
    method Update(hash: string -> Option<string>) returns (failure: Option<Failure>)
      modifies this
      ensures match Updated(old(lines), hash)
              case Ok(done) => failure == None && lines == done
              case Failed(f) => failure == Some(f)
    {
      ghost var before := lines;
      var needSha1: Option<bool> := None;
      failure := None;
      HashedStart(before, hash);
      for index := 0 to |lines|
        invariant failure == None && |lines| == |before| && Hashed(before, lines, index, needSha1, hash)
      {
        var line := lines[index];
        HashedNext(before, lines, index, needSha1, hash);
        if |line| == 0 {
        } else if line[0] == '#' {
          needSha1 := Some(HasText(line, " - from"));
        } else {
          failure := UpdateEntry(index, needSha1, hash);
          if failure != None {
            return;
          }
        }
      }
      HashedEnd(before, lines, needSha1, hash);
      lines := lines + [""];
    }
  }

  /** The first `i` lines are done, the others untouched, and `flag` is what the headers so far say. */
  ghost predicate Hashed(before: seq<Line>, now: seq<Line>, i: nat, flag: Option<bool>,
                         hash: string -> Option<string>)
  {
    && i <= |before| == |now| && flag == Flag(before[..i])
    && UpdateAll(before[..i], hash) == Ok(now[..i])
    && now[i..] == before[i..]
  }

  lemma HashedStart(before: seq<Line>, hash: string -> Option<string>)
    ensures Hashed(before, before, 0, None, hash)
  {
  }

  function FlagAfter(flag: Option<bool>, line: Line): Option<bool> {
    if IsHeader(line) then Some(HasText(line, " - from")) else flag
  }

  lemma HashedNext(before: seq<Line>, now: seq<Line>, i: nat, flag: Option<bool>, hash: string -> Option<string>)
    requires i < |before| && Hashed(before, now, i, flag, hash)
    ensures i < |now| && now[i] == before[i]
    ensures match UpdateLine(flag, now[i], hash)
            case Ok(line) => Hashed(before, now[i := line], i + 1, FlagAfter(flag, now[i]), hash)
            case Failed(f) => UpdateAll(before, hash) == Failed(f)
    ensures !IsEntry(now[i]) ==> Hashed(before, now, i + 1, FlagAfter(flag, now[i]), hash)
  {
    assert now[i] == now[i..][0] && before[i] == before[i..][0];
    assert before[..i + 1][..i] == before[..i];
    match UpdateLine(flag, now[i], hash)
    case Ok(line) =>
      var next := now[i := line];
      assert next[..i + 1] == now[..i] + [line];
      assert next[i + 1..] == now[i..][1..] && before[i + 1..] == before[i..][1..];
      assert !IsEntry(now[i]) ==> next == now;
    case Failed(f) =>
      StaysFailed(before, i + 1, hash);
  }

  lemma HashedEnd(before: seq<Line>, now: seq<Line>, flag: Option<bool>, hash: string -> Option<string>)
    requires Hashed(before, now, |before|, flag, hash)
    ensures UpdateAll(before, hash) == Ok(now)
  {
    assert before[..|before|] == before && now[..|before|] == now;
  }

  lemma ShownTidy(s: Section)
    ensures Shown(Tidy(s)) == if s.group == [] then [] else [s.name] + SortBy(s.group, LineKey) + [""]
  {
    SortSorts(s.group, LineKey);
    if s.group != [] {
      assert s.group[0] in multiset(s.group);
    }
  }

  ghost function PrintFirst(ss: seq<Section>, i: nat): seq<Line>
    requires i <= |ss|
  {
    Print(TidyAll(ss)[..i])
  }

  lemma PrintNext(ss: seq<Section>, i: nat)
    requires i < |ss|
    ensures PrintFirst(ss, 0) == [] && PrintFirst(ss, i + 1) == PrintFirst(ss, i) + Shown(Tidy(ss[i]))
  {
    assert TidyAll(ss)[..i + 1] == TidyAll(ss)[..i] + [Tidy(ss[i])];
    PrintAppended(TidyAll(ss)[..i], Tidy(ss[i]));
  }

  lemma PrintEnd(ss: seq<Section>)
    ensures PrintFirst(ss, |ss|) == Print(TidyAll(ss))
  {
    assert TidyAll(ss)[..|ss|] == TidyAll(ss);
  }

  lemma {:induction false} StaysFailed(lines: seq<Line>, k: nat, hash: string -> Option<string>)
    requires k <= |lines| && UpdateAll(lines[..k], hash).Failed?
    ensures UpdateAll(lines, hash) == UpdateAll(lines[..k], hash)
  {
    if k == |lines| {
      assert lines[..k] == lines;
    } else {
      assert lines[..|lines| - 1][..k] == lines[..k];
      StaysFailed(lines[..|lines| - 1], k, hash);
    }
  }
}

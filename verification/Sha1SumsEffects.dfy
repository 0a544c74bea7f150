/** What the three commands do to single lines of the list, and in which order the sorted file comes out. */
module Sha1SumsEffects {
  import opened Wrappers
  import opened Sorting
  import opened Sha1SumsSpec

  // ---------------------------------------------------------------- words in a line

  lemma {:induction false} HasTextExact(line: string, part: string)
    ensures HasText(line, part) <==> exists before, after :: line == before + part + after
  {
    if part <= line {
      assert line == "" + part + line[|part|..];
    } else if line != "" {
      HasTextExact(line[1..], part);
      if HasText(line[1..], part) {
        var before, after :| line[1..] == before + part + after;
        assert line == ([line[0]] + before) + part + after;
      }
    }
    if before, after :| line == before + part + after {
      if before == "" {
        assert part <= line;
      } else {
        assert line[1..] == before[1..] + part + after;
      }
    }
  }

  lemma BeforeUnique(s: string, r: string, c: char)
    requires c !in r && r <= s && (|r| < |s| ==> s[|r|] == c)
    ensures Before(s, c) == r
  {
    var q := Before(s, c);
    assert forall i :: 0 <= i < |r| ==> s[i] == r[i];
    assert forall i :: 0 <= i < |q| ==> s[i] == q[i];
    assert |q| == |r|;
  }

  lemma BeforeTwo(head: string, tail: string, c: char)
    requires c !in head
    ensures Before(head + tail, c) == head + Before(tail, c)
  {
    var r := head + Before(tail, c);
    assert r <= head + tail;
    assert |r| < |head + tail| ==> (head + tail)[|r|] == tail[|r| - |head|];
    BeforeUnique(head + tail, r, c);
  }

  lemma BeforeCut(head: string, c: char, tail: string)
    requires c !in head
    ensures Before(head, c) == head && Before(head + [c] + tail, c) == head
  {
    BeforeUnique(head, head, c);
    BeforeUnique(head + [c] + tail, head, c);
  }

  /** An ending that reaches a place where there is `c` holds one. */
  lemma EndingHolds(s: string, r: string, c: char, n: nat)
    requires |r| <= |s| && s[|s| - |r|..] == r
    requires n < |s| && s[|s| - n - 1] == c
    ensures c in r || |r| <= n
  {
    if |r| > n {
      assert r[|r| - n - 1] == s[|s| - n - 1];
    }
  }

  predicate EndsAfter(s: string, r: string, c: char) {
    c !in r && |r| <= |s| && s[|s| - |r|..] == r && (|r| < |s| ==> s[|s| - |r| - 1] == c)
  }

  lemma EndingUnique(s: string, q: string, r: string, c: char)
    requires EndsAfter(s, q, c) && EndsAfter(s, r, c)
    ensures q == r
  {
    if |r| < |s| {
      EndingHolds(s, q, c, |r|);
    }
    if |q| < |s| {
      EndingHolds(s, r, c, |q|);
    }
  }

  lemma AfterUnique(s: string, r: string, c: char)
    requires EndsAfter(s, r, c)
    ensures AfterLast(s, c) == r
  {
    EndingUnique(s, AfterLast(s, c), r, c);
  }

  lemma AfterTwo(head: string, tail: string, c: char)
    requires c !in tail
    ensures AfterLast(head + [c] + tail, c) == tail && AfterLast(tail, c) == tail
  {
    AfterUnique(head + [c] + tail, tail, c);
    AfterUnique(tail, tail, c);
  }

  // ---------------------------------------------------------------- the file an entry names

  /** Nothing, or flags or a hash behind the path. */
  ghost predicate Ending(tail: string) {
    tail == "" || tail[0] == ';' || tail[0] == '|'
  }

  ghost predicate Plain(text: string) {
    '|' !in text && ';' !in text
  }

  lemma CutEnding(text: string, tail: string)
    requires Plain(text) && Ending(tail)
    ensures Before(Before(text + tail, '|'), ';') == text
  {
    BeforeTwo(text, tail, '|');
    BeforeTwo(text, Before(tail, '|'), ';');
    var kept := Before(tail, '|');
    BeforeUnique(kept, "", ';');
    assert text + "" == text;
  }

  lemma PathTextOf(source: string, path: string, tail: string)
    requires Plain(source) && Plain(path) && ':' !in path && Ending(tail)
    ensures PathText(source + ":" + path + tail) == path && PathText(path + tail) == path
  {
    var text := source + [':'] + path;
    assert source + ":" + path + tail == text + tail;
    assert Plain(text);
    CutEnding(text, tail);
    CutEnding(path, tail);
    AfterTwo(source, path, ':');
  }

  function Undashed(path: string): string
    requires path != ""
  {
    if path[0] == '-' then path[1..] else path
  }

  lemma PathFromText(line: Line)
    requires PathText(line) != ""
    ensures Path(line) == Undashed(PathText(line))
  {
  }

  /** An entry names the path behind its last colon, or all of it when it has none, up to the flags and the hash
      and without a leading dash. */
  lemma PathOfEntry(source: string, path: string, tail: string)
    requires Plain(source) && Plain(path) && ':' !in path && Ending(tail) && path != ""
    ensures Path(source + ":" + path + tail) == Undashed(path) && Path(path + tail) == Undashed(path)
  {
    PathTextOf(source, path, tail);
    PathFromText(source + ":" + path + tail);
    PathFromText(path + tail);
  }

  // ---------------------------------------------------------------- the lines after cleaning and hashing

  /** Cleaning cuts the hash off an entry and leaves headers, blank lines and entries without one. */
  lemma CleanExact(base: string, hash: string)
    requires '|' !in base
    ensures base != "" && base[0] != '#' ==> CleanLine(base + "|" + hash) == base && CleanLine(base) == base
    ensures CleanLine("") == "" && CleanLine("#" + hash) == "#" + hash
  {
    BeforeCut(base, '|', hash);
    assert base + ['|'] + hash == base + "|" + hash;
    assert (base + "|" + hash)[|base|] == '|';
  }

  /** The last header before a line. */
  ghost predicate HeaderOf(lines: seq<Line>, i: nat, h: nat)
    requires i <= |lines|
  {
    h < i && IsHeader(lines[h]) && forall j :: h < j < i ==> !IsHeader(lines[j])
  }

  lemma {:induction false} FlagOfHeader(lines: seq<Line>, h: nat)
    requires HeaderOf(lines, |lines|, h)
    ensures Flag(lines) == Some(HasText(lines[h], " - from"))
  {
    var front := lines[..|lines| - 1];
    if h < |lines| - 1 {
      assert !IsHeader(lines[|lines| - 1]);
      FlagOfHeader(front, h);
    }
  }

  lemma {:induction false} UpdatedAt(lines: seq<Line>, hash: string -> Option<string>, i: nat)
    requires UpdateAll(lines, hash).Ok? && i < |lines|
    ensures var done := UpdateAll(lines, hash).value;
            && |done| == |lines|
            && UpdateLine(Flag(lines[..i]), lines[i], hash) == Ok(done[i])
  {
    var front := lines[..|lines| - 1];
    if i < |front| {
      UpdatedAt(front, hash, i);
      assert front[..i] == lines[..i];
    } else {
      LengthKept(front, hash);
      assert lines[..i] == front;
    }
    LengthKept(front, hash);
  }

  lemma {:induction false} LengthKept(lines: seq<Line>, hash: string -> Option<string>)
    requires UpdateAll(lines, hash).Ok?
    ensures |UpdateAll(lines, hash).value| == |lines|
  {
    if lines != [] {
      LengthKept(lines[..|lines| - 1], hash);
    }
  }

  /** A successful update leaves headers and blank lines, and gives exactly the entries whose header says where
      they are from the digest of the file they name, behind a bar, in place of the one they had. */
  lemma UpdateExact(lines: seq<Line>, hash: string -> Option<string>, i: nat, h: nat)
    requires UpdateAll(lines, hash).Ok? && i < |lines|
    ensures |UpdateAll(lines, hash).value| == |lines|
    ensures !IsEntry(lines[i]) ==> UpdateAll(lines, hash).value[i] == lines[i]
    ensures IsEntry(lines[i]) && HeaderOf(lines, i, h) ==>
              if exists before, after :: lines[h] == before + " - from" + after
              then hash(Path(lines[i])).Some?
                   && UpdateAll(lines, hash).value[i] == Before(lines[i], '|') + "|" + hash(Path(lines[i])).value
              else UpdateAll(lines, hash).value[i] == lines[i]
  {
    UpdatedAt(lines, hash, i);
    if HeaderOf(lines, i, h) {
      assert HeaderOf(lines[..i], i, h);
      FlagOfHeader(lines[..i], h);
      HasTextExact(lines[h], " - from");
    }
  }

  // ---------------------------------------------------------------- the order of the sorted file

  /** A leading dash plays no part in the order. */
  lemma DashIgnored(line: string)
    ensures LineKey("-" + line) == line
    ensures line == "" || line[0] != '-' ==> LineKey(line) == line
  {
  }

  /** The sorted file lists its sections by lower-case name, and in each the entries by line but for a leading
      dash. */
  lemma SortedOrder(lines: seq<Line>, ignore: string, lower: string -> string)
    ensures var ss := Sections(Sorted(lines, ignore, lower), ignore);
            && (forall i, j :: 0 <= i < j < |ss| ==> LexLe(lower(ss[i].name), lower(ss[j].name)))
            && (forall s, i, j :: s in ss && 0 <= i < j < |s.group| ==>
                  LexLe(LineKey(s.group[i]), LineKey(s.group[j])))
  {
    var arranged := Arranged(lines, ignore, lower);
    ArrangedGood(lines, ignore, lower);
    PrintReads(arranged, ignore);
    assert forall i :: 0 <= i < |arranged| ==> NameKey(lower)(arranged[i]) == lower(arranged[i].name);
  }

  lemma LexStep(x: char, a: string, b: string)
    ensures LexLe([x] + a, [x] + b) <==> LexLe(a, b)
  {
    assert ([x] + a)[1..] == a && ([x] + b)[1..] == b;
  }

  lemma LexFirst(x: char, a: string, y: char, b: string)
    requires x < y
    ensures LexLe([x] + a, [y] + b) && !LexLe([y] + b, [x] + a)
  {
  }

  lemma {:induction false} LexCommon(common: string, a: string, b: string)
    ensures LexLe(common + a, common + b) <==> LexLe(a, b)
  {
    if common == "" {
      assert common + a == a && common + b == b;
    } else {
      LexCommon(common[1..], a, b);
      LexStep(common[0], common[1..] + a, common[1..] + b);
      assert common + a == [common[0]] + (common[1..] + a) && common + b == [common[0]] + (common[1..] + b);
    }
  }

  /** Code point by code point: the first difference decides, a beginning comes first. */
  lemma LexExact(common: string, x: char, a: string, y: char, b: string)
    ensures LexLe(common, common + a)
    ensures x < y ==>
              LexLe(common + ([x] + a), common + ([y] + b)) && !LexLe(common + ([y] + b), common + ([x] + a))
  {
    LexCommon(common, "", a);
    assert common + "" == common;
    if x < y {
      LexFirst(x, a, y, b);
      LexCommon(common, [x] + a, [y] + b);
      LexCommon(common, [y] + b, [x] + a);
    }
  }

  /** A header is kept unless it holds the text to ignore, and text is ignored only when there is some. */
  lemma IgnoredExact(line: Line, ignore: string)
    ensures Ignored(line, ignore) <==> ignore != "" && exists before, after :: line == before + ignore + after
  {
    HasTextExact(line, ignore);
  }
}

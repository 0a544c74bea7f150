/** The short histories of system status: five entries at most, consecutive equal reports merged. */
module History {
  import opened NetworkTable

  const MAX_ITEM := 5

  /** A cached report: when it was made and when it was last heard. */
  datatype Item<T> = Item(value: T, made: nat, heard: nat)

  function Trim<T>(report: seq<T>): seq<T> {
    if |report| > MAX_ITEM then report[1..] else report
  }

  function Last<T>(s: seq<T>): T
    requires s != []
  {
    s[|s| - 1]
  }

  // ---------------------------------------------------------------- plain histories

  /** One report put into a history. */
  function SetItem<T(==)>(report: seq<Item<T>>, s: Item<T>, ignored: bool): seq<Item<T>> {
    if ignored then report
    else if report != [] && Last(report).value == s.value then
      report[|report| - 1 := Last(report).(heard := s.heard)]
    else Trim(report + [s])
  }

  class ReportHistory<T(==)> {
    var report: seq<Item<T>>

    constructor ()
      ensures report == []
    {
      report := [];
    }

    method SetItemInReport(s: Item<T>, ignored: bool) returns (changed: bool)
      modifies this
      ensures report == SetItem(old(report), s, ignored)
      ensures changed == (!ignored && (old(report) == [] || Last(old(report)).value != s.value))
    {
      if ignored {
        return false;
      }
      if |report| > 0 && report[|report| - 1].value == s.value {
        report := report[|report| - 1 := report[|report| - 1].(heard := s.heard)];
        return false;
      }
      report := report + [s];
      if |report| > MAX_ITEM {
        report := report[1..];
      }
      return true;
    }

    method SetDefaultItemInReport(s: Item<T>)
      modifies this
      ensures report == Trim(old(report) + [s])
    {
      report := report + [s];
      if |report| > MAX_ITEM {
        report := report[1..];
      }
    }

    method GetItemInReport() returns (out: seq<Item<T>>)
      ensures out == if report == [] then [] else [Last(report)]
    {
      out := [];
      if |report| >= 1 {
        out := out + [report[|report| - 1]];
      }
    }
  }

  /** A report, or a default that is pushed whatever the newest entry says. */
  datatype Feed<T> = Report(item: Item<T>, ignored: bool) | Default(item: Item<T>)

  function FeedItem<T(==)>(report: seq<Item<T>>, feed: Feed<T>): seq<Item<T>> {
    match feed
    case Report(item, ignored) => SetItem(report, item, ignored)
    case Default(item) => Trim(report + [item])
  }

  function Fill<T(==)>(feeds: seq<Feed<T>>): seq<Item<T>> {
    if feeds == [] then [] else FeedItem(Fill(feeds[..|feeds| - 1]), Last(feeds))
  }

  /** An item that was not ignored, and whether it is a default. */
  datatype Mark<T> = Mark(item: Item<T>, default: bool)

  function Kept<T>(feeds: seq<Feed<T>>): seq<Mark<T>> {
    if feeds == [] then []
    else
      Kept(feeds[..|feeds| - 1]) +
      match Last(feeds)
      case Report(item, ignored) => if ignored then [] else [Mark(item, false)]
      case Default(item) => [Mark(item, true)]
  }

  /** The second continues the first: it is an equal report. */
  predicate Continues<T(==)>(a: Mark<T>, b: Mark<T>) {
    !b.default && a.item.value == b.item.value
  }

  function HeardAt<T>(m: Mark<T>, heard: nat): Mark<T> {
    m.(item := m.item.(heard := heard))
  }

  /** An item and the equal reports after it become one, made when the first was made and heard when the last
      was heard; a default always begins a new one. */
  function Merge<T(==)>(marks: seq<Mark<T>>): seq<Mark<T>>
    decreases |marks|
  {
    if |marks| <= 1 then marks
    else if Continues(marks[0], marks[1]) then Merge([HeardAt(marks[0], marks[1].item.heard)] + marks[2..])
    else [marks[0]] + Merge(marks[1..])
  }

  function LastFive<T>(s: seq<T>): seq<T> {
    if |s| > 5 then s[|s| - 5..] else s
  }

  function Items<T>(marks: seq<Mark<T>>): (r: seq<Item<T>>)
    ensures |r| == |marks| && forall i :: 0 <= i < |r| ==> r[i] == marks[i].item
  {
    seq(|marks|, i requires 0 <= i < |marks| => marks[i].item)
  }

  /** Merging one more item at the end. */
  function MergeNext<T(==)>(merged: seq<Mark<T>>, m: Mark<T>): seq<Mark<T>> {
    if merged != [] && Continues(Last(merged), m)
    then merged[|merged| - 1 := HeardAt(Last(merged), m.item.heard)]
    else merged + [m]
  }

  lemma {:induction false} MergeAppend<T>(marks: seq<Mark<T>>, m: Mark<T>)
    ensures (marks == [] <==> Merge(marks) == [])
    ensures marks != [] ==> Last(Merge(marks)).item.value == Last(marks).item.value
    ensures Merge(marks + [m]) == MergeNext(Merge(marks), m)
    decreases |marks|
  {
    if |marks| == 1 {
      assert marks + [m] == [marks[0], m];
      assert [HeardAt(marks[0], m.item.heard)] + (marks + [m])[2..] == [HeardAt(marks[0], m.item.heard)];
      assert (marks + [m])[1..] == [m];
    } else if |marks| > 1 {
      if Continues(marks[0], marks[1]) {
        var rest := [HeardAt(marks[0], marks[1].item.heard)] + marks[2..];
        MergeAppend(rest, m);
        assert [HeardAt(marks[0], marks[1].item.heard)] + (marks + [m])[2..] == rest + [m];
        assert Last(rest).item.value == Last(marks).item.value;
      } else {
        MergeAppend(marks[1..], m);
        assert (marks + [m])[1..] == marks[1..] + [m];
        assert Last(marks[1..]) == Last(marks);
      }
    } else {
      assert marks + [m] == [m];
    }
  }

  /** A history is exactly the last five merged items, reports and defaults mixed in any way. */
  lemma {:induction false} HistoryIsLastFiveMerged<T>(feeds: seq<Feed<T>>)
    ensures Fill(feeds) == Items(LastFive(Merge(Kept(feeds))))
  {
    if feeds != [] {
      var before, feed := feeds[..|feeds| - 1], Last(feeds);
      HistoryIsLastFiveMerged(before);
      if feed.Report? && feed.ignored {
        assert Kept(feeds) == Kept(before);
      } else {
        MergeAppend(Kept(before), Mark(feed.item, feed.Default?));
        LastFiveNext(Merge(Kept(before)), Mark(feed.item, feed.Default?));
      }
    }
  }

  lemma LastFivePush<T>(s: seq<T>, x: T)
    ensures Trim(LastFive(s) + [x]) == LastFive(s + [x])
  {
  }

  lemma LastFiveUpdate<T>(s: seq<T>, x: T)
    requires s != []
    ensures LastFive(s) != [] && Last(LastFive(s)) == Last(s)
    ensures LastFive(s)[|LastFive(s)| - 1 := x] == LastFive(s[|s| - 1 := x])
  {
  }

  lemma ItemsOfLastFive<T>(marks: seq<Mark<T>>)
    ensures Items(LastFive(marks)) == LastFive(Items(marks))
  {
  }

  lemma ItemsNext<T>(merged: seq<Mark<T>>, m: Mark<T>)
    ensures Items(MergeNext(merged, m))
         == if merged != [] && Continues(Last(merged), m)
            then Items(merged)[|merged| - 1 := Last(merged).item.(heard := m.item.heard)]
            else Items(merged) + [m.item]
  {
  }

  lemma SetLastFive<T>(items: seq<Item<T>>, item: Item<T>)
    ensures SetItem(LastFive(items), item, false)
         == LastFive(if items != [] && Last(items).value == item.value
                     then items[|items| - 1 := Last(items).(heard := item.heard)] else items + [item])
  {
    LastFivePush(items, item);
    if items != [] {
      LastFiveUpdate(items, Last(items).(heard := item.heard));
    }
  }

  lemma LastFiveNext<T>(merged: seq<Mark<T>>, m: Mark<T>)
    ensures FeedItem(Items(LastFive(merged)), if m.default then Default(m.item) else Report(m.item, false))
         == Items(LastFive(MergeNext(merged, m)))
  {
    var items := Items(merged);
    ItemsOfLastFive(merged);
    ItemsOfLastFive(MergeNext(merged, m));
    ItemsNext(merged, m);
    assert merged != [] ==> Last(items) == Last(merged).item;
    if m.default {
      LastFivePush(items, m.item);
    } else {
      SetLastFive(items, m.item);
    }
  }

  /** Two neighbours in a history differ unless the later one was pushed as a default. */
  lemma {:induction false} MergedDiffer<T>(marks: seq<Mark<T>>)
    ensures forall i :: 0 < i < |Merge(marks)| ==>
              Merge(marks)[i].default || Merge(marks)[i - 1].item.value != Merge(marks)[i].item.value
    ensures marks != [] ==>
              && Merge(marks) != [] && Merge(marks)[0].item.value == marks[0].item.value
              && Merge(marks)[0].default == marks[0].default
    decreases |marks|
  {
    if |marks| > 1 {
      if Continues(marks[0], marks[1]) {
        MergedDiffer([HeardAt(marks[0], marks[1].item.heard)] + marks[2..]);
      } else {
        MergedDiffer(marks[1..]);
      }
    }
  }

  // ---------------------------------------------------------------- the history of networks

  datatype NetworkEntry = NetworkEntry(table: Table, allTypes: bv64, connected: bool, heard: nat)

  /** A network report is collated with the newest entry; it is pushed when the table or the direction
      changes. */
  function Collated(newest: NetworkEntry, e: Event, heard: nat): NetworkEntry {
    NetworkEntry(TableStep(newest.table, e), AllTypesStep(newest.table, newest.allTypes, e), e.connected, heard)
  }

  predicate SameNetworks(a: NetworkEntry, b: NetworkEntry) {
    a.connected == b.connected && a.table == b.table
  }

  function SetNetwork(report: seq<NetworkEntry>, e: Event, heard: nat): seq<NetworkEntry> {
    if report == [] then [NetworkEntry(InitialTable(e), e.allTypes, e.connected, heard)]
    else
      var newest := Last(report);
      if SameNetworks(newest, Collated(newest, e, heard)) then report[|report| - 1 := newest.(heard := heard)]
      else Trim(report + [Collated(newest, e, heard)])
  }

  class NetworkHistory {
    var report: seq<NetworkEntry>

    constructor ()
      ensures report == []
    {
      report := [];
    }

    method CollateWith(newest: NetworkEntry, e: Event, heard: nat) returns (entry: NetworkEntry)
      ensures entry == Collated(newest, e, heard)
    {
      var s := new NetworkInfo(e);
      var current := new NetworkInfo.FromTable(newest.table, newest.allTypes);
      s.Collate(current);
      entry := NetworkEntry(s.handles[..], s.allTypes, s.connected, heard);
    }

    method SetItemInReport(e: Event, heard: nat) returns (changed: bool)
      modifies this
      ensures report == SetNetwork(old(report), e, heard)
      ensures changed == (old(report) == [] || !SameNetworks(Last(old(report)), Collated(Last(old(report)), e, heard)))
    {
      if |report| > 0 {
        var newest := report[|report| - 1];
        var entry := CollateWith(newest, e, heard);
        if SameNetworks(newest, entry) {
          report := report[|report| - 1 := newest.(heard := heard)];
          return false;
        }
        report := report + [entry];
      } else {
        var s := new NetworkInfo(e);
        report := [NetworkEntry(s.handles[..], s.allTypes, s.connected, heard)];
      }
      if |report| > MAX_ITEM {
        report := report[1..];
      }
      return true;
    }
  }

  datatype NetworkFeed = NetworkFeed(event: Event, heard: nat)

  function FillNetworks(report: seq<NetworkEntry>, feeds: seq<NetworkFeed>): seq<NetworkEntry> {
    if feeds == [] then report
    else SetNetwork(FillNetworks(report, feeds[..|feeds| - 1]), Last(feeds).event, Last(feeds).heard)
  }

  function Events(feeds: seq<NetworkFeed>): seq<Event> {
    if feeds == [] then [] else Events(feeds[..|feeds| - 1]) + [Last(feeds).event]
  }

  lemma NewestTableSteps(report: seq<NetworkEntry>, e: Event, heard: nat)
    requires 0 < |report| <= MAX_ITEM
    ensures 0 < |SetNetwork(report, e, heard)| <= MAX_ITEM
    ensures Last(SetNetwork(report, e, heard)).table == TableStep(Last(report).table, e)
  {
  }

  /** The newest entry's table is the fold of every report since, though unchanged ones are not pushed;
      it therefore lists exactly the networks the reports left connected. */
  lemma {:induction false} NewestTableIsFold(report: seq<NetworkEntry>, feeds: seq<NetworkFeed>, m: map<nat, int>)
    requires report != [] && |report| <= MAX_ITEM && Represents(Last(report).table, m)
    ensures 0 < |FillNetworks(report, feeds)| <= MAX_ITEM
    ensures Last(FillNetworks(report, feeds)).table == Fold(Last(report).table, Events(feeds))
    ensures Represents(Last(FillNetworks(report, feeds)).table, MapFold(m, Events(feeds)))
  {
    if feeds != [] {
      var before := feeds[..|feeds| - 1];
      NewestTableIsFold(report, before, m);
      var es, e := Events(before), Last(feeds).event;
      assert (es + [e])[..|es|] == es;
      NewestTableSteps(FillNetworks(report, before), e, Last(feeds).heard);
      TableRefinesMap(Fold(Last(report).table, es), MapFold(m, es), e);
    }
  }

  /** All that ever happened: each report that changes the table or the direction makes an entry, every other
      one is only heard by the newest. */
  function Timeline(feeds: seq<NetworkFeed>): seq<NetworkEntry> {
    if feeds == [] then []
    else
      var t, e, heard := Timeline(feeds[..|feeds| - 1]), Last(feeds).event, Last(feeds).heard;
      if t == [] then [NetworkEntry(InitialTable(e), e.allTypes, e.connected, heard)]
      else
        var newest := t[|t| - 1];
        var table := TableStep(newest.table, e);
        if table == newest.table && e.connected == newest.connected then t[|t| - 1 := newest.(heard := heard)]
        else t + [NetworkEntry(table, AllTypesStep(newest.table, newest.allTypes, e), e.connected, heard)]
  }

  lemma NetworkNext(t: seq<NetworkEntry>, e: Event, heard: nat)
    requires t != []
    ensures SetNetwork(LastFive(t), e, heard)
         == LastFive(if SameNetworks(Last(t), Collated(Last(t), e, heard)) then t[|t| - 1 := Last(t).(heard := heard)]
                     else t + [Collated(Last(t), e, heard)])
  {
    LastFiveUpdate(t, Last(t).(heard := heard));
    LastFivePush(t, Collated(Last(t), e, heard));
  }

  /** The history of networks is exactly the last five of them. */
  lemma {:induction false} NetworksAreLastFive(feeds: seq<NetworkFeed>)
    ensures FillNetworks([], feeds) == LastFive(Timeline(feeds))
  {
    if feeds != [] {
      var t, feed := Timeline(feeds[..|feeds| - 1]), Last(feeds);
      NetworksAreLastFive(feeds[..|feeds| - 1]);
      if t != [] {
        NetworkNext(t, feed.event, feed.heard);
      }
    }
  }
}

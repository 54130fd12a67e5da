/** What the list screen shows for its held sections (`render`, `renderContent`
    and `renderStatsChart` in screens/AccountListScreen.js): the empty-state
    rule, the bars of the statistics chart and their labels. */
module ListDisplay {
  import opened Wrappers
  import opened Sections

  /** The title of the placeholder section shown for an empty list. */
  const NoRecords: string := "无记录"

  /** The placeholder section: no records and a zero total. */
  const Placeholder: Section := Section(NoRecords, 0, [])

  /** What the screen body shows: before any list is held, a busy indicator while a
      fetch is in flight and nothing otherwise; once a list is held, a section list. */
  datatype Content = EmptyView(indicator: bool) | SectionListView(sections: seq<Section>)

  /** The content shown for the held sections. */
  function ContentFor(accounts: Option<seq<Section>>, refreshing: bool): (v: Content)
    ensures v.EmptyView? <==> accounts.None?
    ensures v.EmptyView? ==> (v.indicator <==> refreshing)
    ensures v.SectionListView? ==> |v.sections| >= 1
    ensures v.SectionListView? ==> Flatten(v.sections) == Flatten(accounts.value)
    ensures v.SectionListView? && accounts.value != [] ==> v.sections == accounts.value
    ensures accounts == Some([]) ==> v == SectionListView([Placeholder])
  {
    match accounts
    case None => EmptyView(refreshing)
    case Some(s) =>
      if s == [] then
        assert Flatten([Placeholder]) == [] + Flatten([]);
        SectionListView([Placeholder])
      else SectionListView(s)
  }

  /** `s` in reverse order (lodash `reverse`). */
  function Reverse<T>(s: seq<T>): (r: seq<T>)
    ensures |r| == |s|
    ensures forall i :: 0 <= i < |s| ==> r[i] == s[|s| - 1 - i]
  {
    if s == [] then [] else Reverse(s[1..]) + [s[0]]
  }

  /** At most the first `n` elements of `s` (lodash `take`). */
  function Take<T>(s: seq<T>, n: nat): seq<T> {
    if |s| <= n then s else s[..n]
  }

  /** At most the last `n` elements of `s` (lodash `takeRight`). */
  function TakeRight<T>(s: seq<T>, n: nat): seq<T> {
    if |s| <= n then s else s[|s| - n..]
  }

  /** The bars of the chart: the nine newest sections, oldest bar first. */
  function ChartData(accounts: seq<Section>): (bars: seq<Section>)
    ensures |bars| == if |accounts| < 9 then |accounts| else 9
    ensures forall i :: 0 <= i < |bars| ==> bars[i] == accounts[|bars| - 1 - i]
  {
    Reverse(Take(accounts, 9))
  }

  /** The number of occurrences of `c` in `s`. */
  function Occurrences(s: string, c: char): nat {
    if s == [] then 0 else (if s[0] == c then 1 else 0) + Occurrences(s[1..], c)
  }

  /** `s.split(sep)`: the maximal separator-free pieces, one more than there are
      separators; the empty string splits into one empty piece. */
  function Split(s: string, sep: char): (parts: seq<string>)
    ensures |parts| == Occurrences(s, sep) + 1
    ensures forall i :: 0 <= i < |parts| ==> sep !in parts[i]
  {
    if s == [] then [""]
    else
      var rest := Split(s[1..], sep);
      if s[0] == sep then [""] + rest
      else [[s[0]] + rest[0]] + rest[1..]
  }

  /** `parts.join(sep)`. */
  function Join(parts: seq<string>, sep: char): string {
    if |parts| == 0 then ""
    else if |parts| == 1 then parts[0]
    else parts[0] + [sep] + Join(parts[1..], sep)
  }

  /** The label of a title's bar: its last two `-`-separated fields, rejoined. It
      is the tail of the title after the second-to-last `-`: a title with at most
      one `-` ("2024-03") is its own label, a longer one loses exactly its leading
      fields and keeps one `-` ("2024-03-15" becomes "03-15"). */
  function ChartLabel(title: string): (text: string)
    ensures |text| <= |title| && title[|title| - |text|..] == text
    ensures Occurrences(text, '-') <= 1
    ensures Occurrences(title, '-') <= 1 ==> text == title
    ensures Occurrences(title, '-') >= 2 ==> Occurrences(text, '-') == 1 && title[|title| - |text| - 1] == '-'
  {
    var parts := Split(title, '-');
    JoinSplit(title, '-');
    JoinOccurrences(TakeRight(parts, 2), '-');
    if |parts| > 2 then
      var k := |parts| - 2;
      JoinAround(parts, '-', k);
      assert TakeRight(parts, 2) == parts[k..];
      var text := Join(parts[k..], '-');
      assert title == Join(parts[..k], '-') + ['-'] + text;
      assert title[|title| - |text| - 1] == '-';
      text
    else
      Join(TakeRight(parts, 2), '-')
  }

  /** Joining the pieces of a split gives back the string. */
  lemma {:induction false} JoinSplit(s: string, sep: char)
    ensures Join(Split(s, sep), sep) == s
  {
    if s != [] {
      var rest := Split(s[1..], sep);
      JoinSplit(s[1..], sep);
      if s[0] == sep {
        assert ([""] + rest)[1..] == rest;
        assert s == [sep] + s[1..];
      } else if |rest| == 1 {
        assert s == [s[0]] + s[1..];
      } else {
        var parts := [[s[0]] + rest[0]] + rest[1..];
        assert parts[1..] == rest[1..];
        assert Join(rest, sep) == rest[0] + [sep] + Join(rest[1..], sep);
        assert s == [s[0]] + s[1..];
      }
    }
  }

  /** Joining a list of pieces is joining a prefix and the rest around one separator. */
  lemma {:induction false} JoinAround(parts: seq<string>, sep: char, k: nat)
    requires 0 < k < |parts|
    ensures Join(parts, sep) == Join(parts[..k], sep) + [sep] + Join(parts[k..], sep)
  {
    if k > 1 {
      JoinAround(parts[1..], sep, k - 1);
      assert parts[1..][..k - 1] == parts[..k][1..];
      assert parts[1..][k - 1..] == parts[k..];
    }
  }

  lemma {:induction false} OccurrencesAppend(a: string, b: string, c: char)
    ensures Occurrences(a + b, c) == Occurrences(a, c) + Occurrences(b, c)
  {
    if a != [] {
      assert (a + b)[1..] == a[1..] + b;
      OccurrencesAppend(a[1..], b, c);
    } else {
      assert a + b == b;
    }
  }

  lemma {:induction false} OccurrencesAbsent(s: string, c: char)
    requires c !in s
    ensures Occurrences(s, c) == 0
  {
    if s != [] {
      OccurrencesAbsent(s[1..], c);
    }
  }

  /** Joining separator-free pieces puts exactly one separator between neighbours. */
  lemma {:induction false} JoinOccurrences(parts: seq<string>, sep: char)
    requires |parts| > 0
    requires forall i :: 0 <= i < |parts| ==> sep !in parts[i]
    ensures Occurrences(Join(parts, sep), sep) == |parts| - 1
  {
    OccurrencesAbsent(parts[0], sep);
    if |parts| > 1 {
      JoinOccurrences(parts[1..], sep);
      OccurrencesAppend(parts[0], [sep], sep);
      OccurrencesAppend(parts[0] + [sep], Join(parts[1..], sep), sep);
      assert Occurrences([sep], sep) == 1 by {
        assert [sep][1..] == [];
      }
    }
  }

  /** A separator-free prefix becomes the start of the first piece. */
  lemma {:induction false} SplitFreePrefix(a: string, t: string, sep: char)
    requires sep !in a
    ensures Split(a + t, sep) == [a + Split(t, sep)[0]] + Split(t, sep)[1..]
  {
    if a != [] {
      SplitFreePrefix(a[1..], t, sep);
      assert (a + t)[1..] == a[1..] + t;
      assert [a[0]] + (a[1..] + Split(t, sep)[0]) == a + Split(t, sep)[0];
    } else {
      var parts := Split(t, sep);
      assert a + t == t && a + parts[0] == parts[0];
      assert parts == [parts[0]] + parts[1..];
    }
  }

  /** Splitting the join of separator-free pieces gives back the pieces. */
  lemma {:induction false} SplitJoin(parts: seq<string>, sep: char)
    requires |parts| > 0
    requires forall i :: 0 <= i < |parts| ==> sep !in parts[i]
    ensures Split(Join(parts, sep), sep) == parts
  {
    if |parts| == 1 {
      SplitFreePrefix(parts[0], "", sep);
      assert parts[0] + "" == parts[0];
    } else {
      var rest := Join(parts[1..], sep);
      SplitJoin(parts[1..], sep);
      SplitFreePrefix(parts[0], [sep] + rest, sep);
      assert parts[0] + [sep] + rest == parts[0] + ([sep] + rest);
      assert ([sep] + rest)[1..] == rest;
      assert parts[0] + "" == parts[0];
    }
  }

  /** The label of a day title "yyyy-mm-dd" is "mm-dd"; that of a month title
      "yyyy-mm" is the title itself. */
  lemma ChartLabelOfDates(year: string, month: string, day: string)
    requires '-' !in year && '-' !in month && '-' !in day
    ensures ChartLabel(year + "-" + month + "-" + day) == month + "-" + day
    ensures ChartLabel(year + "-" + month) == year + "-" + month
  {
    var d := [year, month, day];
    assert Join(d, '-') == year + "-" + month + "-" + day by {
      assert d[1..] == [month, day];
      assert d[1..][1..] == [day];
      assert Join(d[1..], '-') == month + "-" + day;
      assert Join(d, '-') == year + "-" + (month + "-" + day);
    }
    SplitJoin(d, '-');
    assert TakeRight(d, 2) == [month, day];
    assert Join([month, day], '-') == month + "-" + day by {
      assert [month, day][1..] == [day];
    }
    var m := [year, month];
    assert Join(m, '-') == year + "-" + month by {
      assert m[1..] == [month];
    }
    SplitJoin(m, '-');
  }
}

/** The section merge of the bookkeeping list (`combineSections` in
    screens/AccountListScreen.js): a page of date sections fetched from the
    server is appended to the sections already held, fusing the two sections
    that meet at the page boundary when they carry the same date title. */
module Sections {
  import opened Wrappers

  /** A bookkeeping record as the server sends it. The merge never looks inside a
      record; amounts are whole numbers here (see README). */
  datatype Record = Record(
    id: int,
    accountType: string,
    subType: string,
    change: int,
    merchant: Option<string>,
    datetime: int,
    comments: Option<string>,
    username: string)

  /** A date bucket (a month "2024-03" or a day "2024-03-15") with the total the
      server computed for it and its records, newest first. */
  datatype Section = Section(title: string, total: int, data: seq<Record>)

  /** All records of a list of sections, in display order. */
  function Flatten(sections: seq<Section>): seq<Record> {
    if sections == [] then [] else sections[0].data + Flatten(sections[1..])
  }

  /** The sum of the amounts of some records. */
  function SumChanges(records: seq<Record>): int {
    if records == [] then 0 else records[0].change + SumChanges(records[1..])
  }

  /** No title occurs twice. */
  predicate DistinctTitles(sections: seq<Section>) {
    forall i, j :: 0 <= i < j < |sections| ==> sections[i].title != sections[j].title
  }

  /** The last held section and the first fetched section carry the same title:
      the server's page boundary split one bucket in two. */
  predicate BoundaryMatches(prev: seq<Section>, next: seq<Section>) {
    |prev| > 0 && |next| > 0 && prev[|prev| - 1].title == next[0].title
  }

  /** The held boundary section extended with the records of the fetched one; its
      title and total are the held section's. */
  function Fuse(held: Section, fetched: Section): Section {
    Section(held.title, held.total, held.data + fetched.data)
  }

  /** `combineSections(prev, next)`: `prev` is the list held on screen, which is
      `null` before the first fetch; `next` is the newly fetched page. An empty or
      missing `prev` yields `next`; a matching boundary fuses the two boundary
      sections, keeping the title and the total of the held one; otherwise the
      page is appended. */
  function CombineSections(prev: Option<seq<Section>>, next: seq<Section>): (r: seq<Section>)
    ensures |r| == |prev.GetOr([])| + |next| - (if BoundaryMatches(prev.GetOr([]), next) then 1 else 0)
  {
    match prev
    case None => next
    case Some(p) =>
      if p == [] then next
      else if |next| > 0 && p[|p| - 1].title == next[0].title then
        p[..|p| - 1] + [Fuse(p[|p| - 1], next[0])] + next[1..]
      else p + next
  }

  lemma {:induction false} FlattenAppend(a: seq<Section>, b: seq<Section>)
    ensures Flatten(a + b) == Flatten(a) + Flatten(b)
  {
    if a == [] {
      assert a + b == b;
    } else {
      assert (a + b)[1..] == a[1..] + b;
      FlattenAppend(a[1..], b);
    }
  }

  lemma {:induction false} SumAppend(a: seq<Record>, b: seq<Record>)
    ensures SumChanges(a + b) == SumChanges(a) + SumChanges(b)
  {
    if a == [] {
      assert a + b == b;
    } else {
      assert (a + b)[1..] == a[1..] + b;
      SumAppend(a[1..], b);
    }
  }

  /** A missing list and an empty list are the same to the merge (both are
      `_.isEmpty`), and merging into either yields the fetched page. */
  lemma CombineIntoNothing(next: seq<Section>)
    ensures CombineSections(None, next) == next
    ensures CombineSections(Some([]), next) == next
  {
  }

  /** Merging an empty page leaves a held list unchanged. */
  lemma CombineEmptyPage(prev: seq<Section>)
    ensures CombineSections(Some(prev), []) == prev
  {
  }

  /** The result is the plain concatenation exactly when the boundary titles differ
      (which includes an empty held list and an empty page). */
  lemma CombineIsConcatIff(prev: seq<Section>, next: seq<Section>)
    ensures CombineSections(Some(prev), next) == prev + next <==> !BoundaryMatches(prev, next)
  {
  }

  /** When the boundary titles match: every held section but the last is kept as
      it is, the fused section keeps the held title and total and lists the held
      records before the fetched ones, and the rest of the page follows unchanged. */
  lemma CombineFusesBoundary(prev: seq<Section>, next: seq<Section>)
    requires BoundaryMatches(prev, next)
    ensures var r := CombineSections(Some(prev), next);
      var n := |prev|;
      && |r| == n + |next| - 1
      && r[..n - 1] == prev[..n - 1]
      && r[n - 1] == Fuse(prev[n - 1], next[0])
      && r[n..] == next[1..]
  {
  }

  /** No record is dropped, duplicated or reordered: the records of the result are
      the held records followed by the fetched ones. */
  lemma CombinePreservesRecords(prev: Option<seq<Section>>, next: seq<Section>)
    ensures Flatten(CombineSections(prev, next)) == Flatten(prev.GetOr([])) + Flatten(next)
  {
    var p := prev.GetOr([]);
    if p == [] {
      assert Flatten(p) == [];
    } else if BoundaryMatches(p, next) {
      var n := |p|;
      var last := p[n - 1];
      var fused := Section(last.title, last.total, last.data + next[0].data);
      assert p == p[..n - 1] + [last];
      assert next == [next[0]] + next[1..];
      FlattenAppend(p[..n - 1], [last]);
      FlattenAppend([next[0]], next[1..]);
      FlattenAppend(p[..n - 1], [fused]);
      FlattenAppend(p[..n - 1] + [fused], next[1..]);
      assert Flatten([fused]) == last.data + next[0].data;
      assert Flatten([last]) == last.data;
      assert Flatten([next[0]]) == next[0].data;
    } else {
      FlattenAppend(p, next);
    }
  }

  /** Loading three pages in a row gives the same list however the merges are
      grouped, including when one section spans all three pages. */
  lemma CombineAssociative(a: seq<Section>, b: seq<Section>, c: seq<Section>)
    ensures CombineSections(Some(CombineSections(Some(a), b)), c)
         == CombineSections(Some(a), CombineSections(Some(b), c))
  {
    if a == [] || b == [] {
    } else if c == [] {
      CombineEmptyPage(CombineSections(Some(a), b));
    } else if |b| == 1 && BoundaryMatches(a, b) && BoundaryMatches(b, c) {
      AssociativeSpanningSection(a, b, c);
    } else if BoundaryMatches(a, b) && |b| == 1 {
      AssociativeFusedSingle(a, b, c);
    } else if BoundaryMatches(a, b) {
      AssociativeFusedLong(a, b, c);
    } else {
      AssociativeUnfused(a, b, c);
    }
  }

  /** One section spans the three pages: both groupings fuse all three parts. */
  lemma AssociativeSpanningSection(a: seq<Section>, b: seq<Section>, c: seq<Section>)
    requires |b| == 1 && BoundaryMatches(a, b) && BoundaryMatches(b, c)
    ensures CombineSections(Some(CombineSections(Some(a), b)), c)
         == CombineSections(Some(a), CombineSections(Some(b), c))
  {
    var n := |a|;
    var x, y, z := a[n - 1], b[0], c[0];
    var ab := CombineSections(Some(a), b);
    CombineFusesBoundary(a, b);
    assert |ab| == n && ab[n - 1] == Fuse(x, y) && ab[..n - 1] == a[..n - 1];
    var bc := CombineSections(Some(b), c);
    CombineFusesBoundary(b, c);
    assert bc[0] == Fuse(y, z) && bc[1..] == c[1..];
    CombineFusesBoundary(ab, c);
    CombineFusesBoundary(a, bc);
    var lhs := CombineSections(Some(ab), c);
    var rhs := CombineSections(Some(a), bc);
    assert (x.data + y.data) + z.data == x.data + (y.data + z.data);
    assert lhs[n - 1] == rhs[n - 1];
    assert lhs == lhs[..n - 1] + [lhs[n - 1]] + lhs[n..];
    assert rhs == rhs[..n - 1] + [rhs[n - 1]] + rhs[n..];
  }

  /** The held list fuses with a one-section middle page whose title differs from
      the last page's first title. */
  lemma AssociativeFusedSingle(a: seq<Section>, b: seq<Section>, c: seq<Section>)
    requires |b| == 1 && BoundaryMatches(a, b) && c != [] && !BoundaryMatches(b, c)
    ensures CombineSections(Some(CombineSections(Some(a), b)), c)
         == CombineSections(Some(a), CombineSections(Some(b), c))
  {
  }

  /** The held list fuses with a middle page of several sections, so the two
      boundaries are independent. */
  lemma AssociativeFusedLong(a: seq<Section>, b: seq<Section>, c: seq<Section>)
    requires |b| > 1 && BoundaryMatches(a, b) && c != []
    ensures CombineSections(Some(CombineSections(Some(a), b)), c)
         == CombineSections(Some(a), CombineSections(Some(b), c))
  {
  }

  /** The held list does not fuse with the middle page. */
  lemma AssociativeUnfused(a: seq<Section>, b: seq<Section>, c: seq<Section>)
    requires a != [] && b != [] && c != [] && !BoundaryMatches(a, b)
    ensures CombineSections(Some(CombineSections(Some(a), b)), c)
         == CombineSections(Some(a), CombineSections(Some(b), c))
  {
  }

  /** The fused section keeps the held section's total: it is not recomputed. If
      the held total was the sum of its records and the fetched boundary section
      has a non-zero sum, the fused section's total no longer matches its records. */
  lemma CombineKeepsHeldTotal(prev: seq<Section>, next: seq<Section>)
    requires BoundaryMatches(prev, next)
    requires prev[|prev| - 1].total == SumChanges(prev[|prev| - 1].data)
    requires SumChanges(next[0].data) != 0
    ensures var fused := CombineSections(Some(prev), next)[|prev| - 1];
      fused.total == prev[|prev| - 1].total && fused.total != SumChanges(fused.data)
  {
    CombineFusesBoundary(prev, next);
    SumAppend(prev[|prev| - 1].data, next[0].data);
  }

  /** Titles stay distinct when the two lists share at most the boundary title. */
  lemma CombineKeepsTitlesDistinct(prev: seq<Section>, next: seq<Section>)
    requires DistinctTitles(prev) && DistinctTitles(next)
    requires forall i, j :: 0 <= i < |prev| && 0 <= j < |next| && prev[i].title == next[j].title ==>
      i == |prev| - 1 && j == 0
    ensures DistinctTitles(CombineSections(Some(prev), next))
  {
  }
}

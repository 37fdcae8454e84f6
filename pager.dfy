/**
 * The results browser: records are shown newest first, ten to a page, each
 * numbered by its position in the whole list, with Previous, Next and
 * page-number controls when there is more than one page.
 */
module ResultsPager {
  import opened ResponseValues

  const ResultsPerPage: nat := 10

  /** `Math.ceil(totalResults / resultsPerPage)`: the fewest pages of ten that hold `n` records. */
  function TotalPages(n: nat): (t: nat)
    ensures t * ResultsPerPage >= n
    ensures t > 0 ==> (t - 1) * ResultsPerPage < n
  {
    (n + ResultsPerPage - 1) / ResultsPerPage
  }

  /** `startIndex` for a page numbered from 1. */
  function StartIndex(page: nat): nat
    requires page >= 1
  {
    (page - 1) * ResultsPerPage
  }

  /** `endIndex`: ten past the start, or the end of the list. */
  function EndIndex(page: nat, n: nat): (e: nat)
    requires page >= 1
    ensures e <= n && e <= StartIndex(page) + ResultsPerPage
    ensures e == n || e == StartIndex(page) + ResultsPerPage
  {
    Min(StartIndex(page) + ResultsPerPage, n)
  }

  /**
   * `currentResults.slice(startIndex, endIndex)`: the records of one page, in
   * order; a page past the last is empty, as `slice` gives.
   */
  function PageItems<T>(items: seq<T>, page: nat): (r: seq<T>)
    requires page >= 1
    ensures |r| <= ResultsPerPage
    ensures forall i :: 0 <= i < |r| ==> StartIndex(page) + i < |items| && r[i] == items[StartIndex(page) + i]
    ensures page <= TotalPages(|items|) ==> |r| == EndIndex(page, |items|) - StartIndex(page) > 0
    ensures page > TotalPages(|items|) ==> r == []
  {
    var start, end := StartIndex(page), EndIndex(page, |items|);
    if start >= end then [] else items[start..end]
  }

  /** `startIndex + index + 1`: the number shown for the record at `index` on `page`. */
  function GlobalIndex(page: nat, index: nat): (g: nat)
    requires page >= 1
    ensures g >= 1
  {
    StartIndex(page) + index + 1
  }

  /** The record shown as number `GlobalIndex(page, index)` is that record of the whole list. */
  lemma GlobalIndexNamesRecord<T>(items: seq<T>, page: nat, index: nat)
    requires page >= 1 && index < |PageItems(items, page)|
    ensures GlobalIndex(page, index) <= |items|
    ensures PageItems(items, page)[index] == items[GlobalIndex(page, index) - 1]
  {
  }

  /** Pages 1 to m, one after the other. */
  function PagesUpTo<T>(items: seq<T>, m: nat): seq<T>
  {
    if m == 0 then [] else PagesUpTo(items, m - 1) + PageItems(items, m)
  }

  lemma {:induction false} PagesUpToPrefix<T>(items: seq<T>, m: nat)
    requires m <= TotalPages(|items|)
    ensures PagesUpTo(items, m) == items[..Min(m * ResultsPerPage, |items|)]
  {
    if m > 0 {
      PagesUpToPrefix(items, m - 1);
      assert (m - 1) * ResultsPerPage < |items|;
      assert m * ResultsPerPage == StartIndex(m) + ResultsPerPage;
      var r := PageItems(items, m);
      assert r == items[StartIndex(m)..EndIndex(m, |items|)];
    }
  }

  /** Pages 1 to `totalPages` partition the records: together they are exactly the list, in order. */
  lemma PagesPartition<T>(items: seq<T>)
    ensures PagesUpTo(items, TotalPages(|items|)) == items
    ensures |items| == 0 <==> TotalPages(|items|) == 0
  {
    PagesUpToPrefix(items, TotalPages(|items|));
    assert items[..|items|] == items;
  }

  /** Twenty-five records make three pages; the third holds records 20 to 24. */
  lemma TwentyFiveRecords<T>(items: seq<T>)
    requires |items| == 25
    ensures TotalPages(|items|) == 3
    ensures PageItems(items, 1) == items[0..10]
    ensures PageItems(items, 3) == items[20..25]
  {
  }

  /** Which pagination controls are drawn. */
  datatype Controls = Controls(shown: bool, previous: bool, next: bool)

  /** The bar is drawn only for more than one page; Previous after page 1; Next before the last page. */
  function PageControls(n: nat, page: nat): (c: Controls)
    ensures c.shown <==> n > ResultsPerPage
    ensures 1 <= page <= TotalPages(n) ==> (c.previous <==> page > 1) && (c.next <==> page < TotalPages(n))
  {
    var totalPages := TotalPages(n);
    if n == 0 || totalPages <= 1 then Controls(false, false, false)
    else Controls(true, page > 1, page < totalPages)
  }

  /** One page-number button: its number and whether it is the current page. */
  datatype PageButton = PageButton(number: nat, active: bool)

  /** The page-number loop: a button for each page, the current one marked active. */
  method PageNumberButtons(totalPages: nat, page: nat) returns (buttons: seq<PageButton>)
    ensures |buttons| == totalPages
    ensures forall j :: 0 <= j < totalPages ==> buttons[j].number == j + 1
    ensures forall j :: 0 <= j < totalPages ==> (buttons[j].active <==> j + 1 == page)
    ensures (exists j :: 0 <= j < totalPages && buttons[j].active) <==> 1 <= page <= totalPages
  {
    buttons := [];
    var i := 1;
    while i <= totalPages
      invariant 1 <= i <= totalPages + 1
      invariant |buttons| == i - 1
      invariant forall j :: 0 <= j < i - 1 ==> buttons[j] == PageButton(j + 1, j + 1 == page)
    {
      buttons := buttons + [PageButton(i, i == page)];
      i := i + 1;
    }
    if 1 <= page <= totalPages {
      assert buttons[page - 1].active;
    }
  }

  /** What one rendering of the results screen shows. */
  datatype PageView<T> = PageView(
    chartsButton: bool,          // "Generate Charts", offered when there are results
    first: nat, last: nat,       // "Showing first-last of n"
    entries: seq<(nat, T)>,      // each record of the page with its global number
    controls: Controls,
    buttons: seq<PageButton>)

  /** What `displayResultsPage(page)` puts on screen for these records. */
  ghost predicate Renders<T>(view: PageView<T>, records: seq<T>, page: nat)
    requires page >= 1
  {
    && (view.chartsButton <==> |records| > 0)
    && view.first == StartIndex(page) + 1 && view.last == EndIndex(page, |records|)
    && (1 <= page <= TotalPages(|records|) ==> view.last - view.first + 1 == |view.entries|)
    && |view.entries| == |PageItems(records, page)|
    && (forall i :: 0 <= i < |view.entries| ==>
         view.entries[i] == (GlobalIndex(page, i), records[GlobalIndex(page, i) - 1]))
    && view.controls == PageControls(|records|, page)
    && (view.controls.shown ==> |view.buttons| == TotalPages(|records|))
    && (view.controls.shown ==>
         forall j :: 0 <= j < |view.buttons| ==> view.buttons[j] == PageButton(j + 1, j + 1 == page))
    && (!view.controls.shown ==> view.buttons == [])
  }

  /** `displayResultsPage(page)` over the current records. */
  method DisplayResultsPage<T>(records: seq<T>, page: nat) returns (view: PageView<T>)
    requires page >= 1
    ensures Renders(view, records, page)
  {
    var totalResults := |records|;
    var totalPages := TotalPages(totalResults);
    var startIndex := StartIndex(page);
    var endIndex := EndIndex(page, totalResults);
    var pageResults := PageItems(records, page);
    var entries: seq<(nat, T)> := [];
    for index := 0 to |pageResults|
      invariant |entries| == index
      invariant forall i :: 0 <= i < index ==> entries[i] == (GlobalIndex(page, i), records[GlobalIndex(page, i) - 1])
    {
      entries := entries + [(startIndex + index + 1, pageResults[index])];
    }
    var controls := PageControls(totalResults, page);
    var buttons: seq<PageButton> := [];
    if controls.shown {
      buttons := PageNumberButtons(totalPages, page);
    }
    view := PageView(totalResults > 0, startIndex + 1, endIndex, entries, controls, buttons);
  }

  /** Newest first: timestamps never increase along the list. */
  ghost predicate NewestFirst(s: seq<Record>)
  {
    forall i, j :: 0 <= i < j < |s| ==> s[i].timestamp >= s[j].timestamp
  }

  /** The first `n` records are newest first. */
  ghost predicate NewestFirstBelow(s: seq<Record>, n: int)
  {
    forall p, q :: 0 <= p < q < n && q < |s| ==> s[p].timestamp >= s[q].timestamp
  }

  /** Records `0..i` are newest first except for the one at `j`, which is newer than all after it. */
  ghost predicate SinkingAt(s: seq<Record>, i: int, j: int)
  {
    forall p, q :: 0 <= p < q <= i && q < |s| && q != j ==> s[p].timestamp >= s[q].timestamp
  }

  /** `results.sort((a, b) => b.timestamp - a.timestamp)`, in place. */
  method SortNewestFirst(a: array<Record>)
    modifies a
    ensures NewestFirst(a[..])
    ensures multiset(a[..]) == multiset(old(a[..]))
  {
    var i := 1;
    while i < a.Length
      invariant 1 <= i
      invariant NewestFirstBelow(a[..], i)
      invariant multiset(a[..]) == multiset(old(a[..]))
    {
      InsertNewest(a, i);
      i := i + 1;
    }
  }

  /** One insertion step: sinks `a[i]` into the sorted prefix before it. */
  method InsertNewest(a: array<Record>, i: nat)
    requires i < a.Length && NewestFirstBelow(a[..], i)
    modifies a
    ensures NewestFirstBelow(a[..], i + 1)
    ensures multiset(a[..]) == multiset(old(a[..]))
  {
    var j := i;
    while j > 0 && a[j - 1].timestamp < a[j].timestamp
      invariant 0 <= j <= i
      invariant SinkingAt(a[..], i, j)
      invariant multiset(a[..]) == multiset(old(a[..]))
    {
      ghost var s := a[..];
      SinkStep(s, i, j);
      a[j - 1], a[j] := a[j], a[j - 1];
      assert a[..] == s[j - 1 := s[j]][j := s[j - 1]];
      j := j - 1;
    }
    SinkDone(a[..], i, j);
  }

  /** Swapping the sinking record with an older one before it moves the gap one place down. */
  lemma SinkStep(s: seq<Record>, i: nat, j: nat)
    requires 0 < j <= i < |s| && SinkingAt(s, i, j)
    requires s[j - 1].timestamp < s[j].timestamp
    ensures SinkingAt(s[j - 1 := s[j]][j := s[j - 1]], i, j - 1)
  {
  }

  /** Once the record before it is at least as new, the sinking record is in place. */
  lemma SinkDone(s: seq<Record>, i: nat, j: nat)
    requires j <= i < |s| && SinkingAt(s, i, j)
    requires j == 0 || s[j - 1].timestamp >= s[j].timestamp
    ensures NewestFirstBelow(s, i + 1)
  {
  }
}

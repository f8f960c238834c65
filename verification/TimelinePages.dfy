/** Paging through a timeline by cursor: pages, a walk over all of them, and polling. */
module TimelinePages {
  import opened Basics
  import opened Timeline

  // ---- cursors ----

  /** What a cursor carries; the text around it is opaque here. */
  datatype Cursor = Cursor(cursorTime: int, source: Source, id: string)

  datatype RawCursor = Encoded(cursor: Cursor) | Malformed

  datatype CursorError = InvalidCursor

  function EncodeCursor(e: Entry): RawCursor
  {
    Encoded(Cursor(e.cursorTime, e.source, e.id))
  }

  function DecodeCursor(raw: RawCursor): Result<Cursor, CursorError>
  {
    if raw.Encoded? && raw.cursor.id != "" then Ok(raw.cursor) else Err(InvalidCursor)
  }

  predicate At(e: Entry, c: Cursor)
  {
    e.id == c.id && e.source == c.source && e.cursorTime == c.cursorTime
  }

  method ResolveCursorIndex(entries: seq<Entry>, c: Cursor) returns (index: int)
    ensures -1 <= index < |entries|
    ensures index == -1 ==> forall i: nat :: i < |entries| ==> !At(entries[i], c)
    ensures index >= 0 ==> At(entries[index], c) && forall i: nat :: i < index ==> !At(entries[i], c)
  {
    var i: nat := 0;
    while i < |entries|
      invariant i <= |entries|
      invariant forall k: nat :: k < i ==> !At(entries[k], c)
    {
      if entries[i].id != c.id || entries[i].source != c.source || entries[i].cursorTime != c.cursorTime {
        i := i + 1;
        continue;
      }
      return i;
    }
    return -1;
  }

  function FirstAt(entries: seq<Entry>, c: Cursor): (r: Option<nat>)
    ensures r.Some? ==> r.value < |entries|
  {
    if entries == [] then None
    else
      var r := FirstAt(entries[..|entries| - 1], c);
      if r.Some? then r else if At(entries[|entries| - 1], c) then Some(|entries| - 1) else None
  }

  lemma {:induction false} FirstAtSpec(entries: seq<Entry>, c: Cursor)
    ensures FirstAt(entries, c).None? <==> forall i: nat :: i < |entries| ==> !At(entries[i], c)
    ensures FirstAt(entries, c).Some? ==>
              At(entries[FirstAt(entries, c).value], c) && forall i: nat :: i < FirstAt(entries, c).value ==> !At(entries[i], c)
  {
    if entries != [] { FirstAtSpec(entries[..|entries| - 1], c); }
  }

  /** An entry's own cursor leads back to it. */
  lemma {:induction false} CursorRoundTrip(entries: seq<Entry>, k: nat)
    requires Distinct(entries) && k < |entries|
    ensures DecodeCursor(EncodeCursor(entries[k])).Ok?
    ensures FirstAt(entries, DecodeCursor(EncodeCursor(entries[k])).value) == Some(k)
  {
    var c := Cursor(entries[k].cursorTime, entries[k].source, entries[k].id);
    FirstAtSpec(entries, c);
    assert At(entries[k], c);
    var i := FirstAt(entries, c).value;
    assert i < k ==> Unlike(entries[i], entries[k]);
  }

  // ---- pages ----

  datatype Page = Page(entries: seq<Entry>, hasMore: bool, next: Option<RawCursor>, poll: Option<RawCursor>)

  function Min(a: nat, b: nat): nat
  {
    if a < b then a else b
  }

  /** The page of a cursor-ordered list that starts at start. */
  function PageOf(ordered: seq<Entry>, start: nat, after: Option<RawCursor>, limit: nat): Page
    requires start <= |ordered|
  {
    var end := Min(start + limit, |ordered|);
    var slice := ordered[start..end];
    Page(Sort(ByDisplay, slice), end < |ordered|,
         if end < |ordered| && slice != [] then Some(EncodeCursor(slice[|slice| - 1])) else None,
         if slice != [] then Some(EncodeCursor(slice[|slice| - 1])) else after)
  }

  /** Where the page after a cursor starts in the cursor order, if the cursor is valid. */
  function StartAfter(ordered: seq<Entry>, after: Option<RawCursor>): (r: Result<nat, CursorError>)
    ensures r.Ok? ==> r.value <= |ordered|
  {
    if after.None? then Ok(0)
    else
      var decoded := DecodeCursor(after.value);
      if decoded.Err? then Err(InvalidCursor)
      else
        var index := FirstAt(ordered, decoded.value);
        if index.None? then Err(InvalidCursor) else Ok(index.value + 1)
  }

  /** A page starts with the first entry, or right after the one that the cursor names; a cursor that names
      none is rejected, as is one that is malformed or has no id. */
  lemma {:induction false} StartAfterNamed(ordered: seq<Entry>, after: Option<RawCursor>)
    ensures after.None? ==> StartAfter(ordered, after) == Ok(0)
    ensures after == Some(Malformed) ==> StartAfter(ordered, after).Err?
    ensures after.Some? && after.value.Encoded? ==>
              var c := after.value.cursor;
              && (StartAfter(ordered, after).Ok? <==> c.id != "" && exists i: nat :: i < |ordered| && At(ordered[i], c))
              && (StartAfter(ordered, after).Ok? ==>
                    StartAfter(ordered, after).value > 0 && At(ordered[StartAfter(ordered, after).value - 1], c))
  {
    if after.Some? && after.value.Encoded? { FirstAtSpec(ordered, after.value.cursor); }
  }

  function Paginate(entries: seq<Entry>, after: Option<RawCursor>, limit: nat): Result<Page, CursorError>
  {
    var ordered := Sort(ByCursor, entries);
    var start := StartAfter(ordered, after);
    if start.Err? then Err(InvalidCursor) else Ok(PageOf(ordered, start.value, after, limit))
  }

  method PaginateTimelineEntries(entries: seq<Entry>, after: Option<RawCursor>, limit: nat) returns (res: Result<Page, CursorError>)
    ensures res == Paginate(entries, after, limit)
  {
    hide Sort, FirstAt;
    var cursorOrdered := Sort(ByCursor, entries);
    var startIndex := 0;
    if after.Some? {
      var decoded := DecodeCursor(after.value);
      if decoded.Err? {
        return Err(InvalidCursor);
      }
      var index := ResolveCursorIndex(cursorOrdered, decoded.value);
      FirstAtSpec(cursorOrdered, decoded.value);
      if index < 0 {
        return Err(InvalidCursor);
      }
      startIndex := index + 1;
    }
    if startIndex > |cursorOrdered| {
      startIndex := |cursorOrdered|;
    }
    var endIndex := startIndex + limit;
    if endIndex > |cursorOrdered| {
      endIndex := |cursorOrdered|;
    }
    var slice := cursorOrdered[startIndex..endIndex];
    var display := Sort(ByDisplay, slice);
    var hasMore := endIndex < |cursorOrdered|;
    var next := None;
    if hasMore && |slice| > 0 {
      next := Some(EncodeCursor(slice[|slice| - 1]));
    }
    var poll := after;
    if |slice| > 0 {
      poll := Some(EncodeCursor(slice[|slice| - 1]));
    }
    return Ok(Page(display, hasMore, next, poll));
  }

  // ---- walking the pages ----

  /** A page is followed by the one its next cursor leads to. */
  ghost predicate Follows(entries: seq<Entry>, limit: nat, a: Page, b: Page)
  {
    a.next.Some? && Paginate(entries, a.next, limit) == Ok(b)
  }

  /** The pages a reader gets from a cursor, or from none, by following each page's next cursor. */
  ghost predicate Walk(entries: seq<Entry>, limit: nat, from: Option<RawCursor>, pages: seq<Page>)
  {
    && pages != []
    && if |pages| == 1 then Paginate(entries, from, limit) == Ok(pages[0])
       else Walk(entries, limit, from, pages[..|pages| - 1]) && Follows(entries, limit, pages[|pages| - 2], pages[|pages| - 1])
  }

  /** Where a walk starts in the cursor order. */
  function Start(entries: seq<Entry>, from: Option<RawCursor>): nat
  {
    var start := StartAfter(Sort(ByCursor, entries), from);
    if start.Ok? then start.value else 0
  }

  lemma {:induction false} SortedDistinct(o: Order, entries: seq<Entry>)
    requires Distinct(entries)
    ensures Distinct(Sort(o, entries))
  {
    SortSpec(o, entries);
    DistinctPermuted(entries, Sort(o, entries));
  }

  lemma {:induction false} DistinctPermuted(a: seq<Entry>, b: seq<Entry>)
    requires Distinct(a) && |a| == |b| && multiset(a) == multiset(b)
    ensures Distinct(b)
  {
    forall i: nat | i < |b| ensures b[i].id != "" {
      assert b[i] in multiset(a);
    }
    forall i: nat, j: nat | i < j < |b| ensures Unlike(b[i], b[j]) {
      assert b[i] in multiset(a) && b[j] in multiset(a);
      if b[i] == b[j] {
        TwiceInMultiset(b, i, j);
        OnceInMultiset(a, b[i]);
      }
      var k: nat :| k < |a| && a[k] == b[i];
      var m: nat :| m < |a| && a[m] == b[j];
    }
  }

  lemma {:induction false} TwiceInMultiset(s: seq<Entry>, i: nat, j: nat)
    requires i < j < |s| && s[i] == s[j]
    ensures multiset(s)[s[i]] >= 2
  {
    assert s == s[..i] + [s[i]] + s[i + 1..j] + [s[j]] + s[j + 1..];
  }

  lemma {:induction false} OnceInMultiset(s: seq<Entry>, x: Entry)
    requires Distinct(s)
    ensures multiset(s)[x] <= 1
  {
    if s != [] {
      OnceInMultiset(s[1..], x);
      assert s == [s[0]] + s[1..];
      forall i: nat | i < |s| - 1 ensures s[1..][i] != s[0] {
        assert Unlike(s[0], s[i + 1]);
      }
    }
  }

  /** The next cursor of a page leads to where the page ends. */
  lemma {:induction false} NextStarts(ordered: seq<Entry>, start: nat, after: Option<RawCursor>, limit: nat)
    requires Distinct(ordered) && start <= |ordered| && limit > 0
    ensures var page := PageOf(ordered, start, after, limit);
            && (page.next.Some? <==> page.hasMore) && (page.hasMore <==> start + limit < |ordered|)
            && (page.hasMore ==> StartAfter(ordered, page.next) == Ok(start + limit))
  {
    if start + limit < |ordered| {
      var last := start + limit - 1;
      assert ordered[start..start + limit][limit - 1] == ordered[last];
      CursorRoundTrip(ordered, last);
    }
  }

  function Times(k: nat, limit: nat): nat
  {
    k * limit
  }

  lemma {:induction false} TimesNext(k: nat, limit: nat)
    ensures Times(k + 1, limit) == Times(k, limit) + limit && Times(0, limit) == 0
  {
  }

  function AfterPage(from: Option<RawCursor>, pages: seq<Page>, k: nat): Option<RawCursor>
    requires k <= |pages|
  {
    if k == 0 then from else pages[k - 1].next
  }

  /** The last page of a walk shows the next stretch of the cursor order. */
  lemma {:induction false} WalkSlices(entries: seq<Entry>, limit: nat, from: Option<RawCursor>, pages: seq<Page>)
    requires Distinct(entries) && limit > 0 && Walk(entries, limit, from, pages)
    ensures pages != [] && Start(entries, from) + Times(|pages| - 1, limit) <= |entries| == |Sort(ByCursor, entries)|
    ensures StartAfter(Sort(ByCursor, entries), from) == Ok(Start(entries, from))
    ensures var k := |pages| - 1; var start := Start(entries, from) + Times(k, limit);
            && pages[k] == PageOf(Sort(ByCursor, entries), start, AfterPage(from, pages, k), limit)
            && (pages[k].next.Some? <==> pages[k].hasMore) && (pages[k].hasMore <==> start + limit < |entries|)
            && (pages[k].hasMore ==> StartAfter(Sort(ByCursor, entries), pages[k].next) == Ok(start + limit))
  {
    hide StartAfter, PageOf, Sort, Distinct, Times;
    var k := |pages| - 1;
    SortSpec(ByCursor, entries);
    SortedDistinct(ByCursor, entries);
    if k > 0 {
      WalkSlices(entries, limit, from, pages[..k]);
      TimesNext(k - 1, limit);
    } else {
      TimesNext(0, limit);
    }
    NextStarts(Sort(ByCursor, entries), Start(entries, from) + Times(k, limit), AfterPage(from, pages, k), limit);
  }

  lemma {:induction false} FirstStart(entries: seq<Entry>)
    ensures Start(entries, None) == 0
  {
  }

  function Shown(pages: seq<Page>): seq<Entry>
  {
    if pages == [] then [] else Shown(pages[..|pages| - 1]) + pages[|pages| - 1].entries
  }

  /** The entries of a list from the first place to the second, or to its end. */
  function Stretch(s: seq<Entry>, from: nat, to: nat): seq<Entry>
    requires from <= |s|
  {
    if from <= to <= |s| then s[from..to] else s[from..]
  }

  lemma {:induction false} PageShows(ordered: seq<Entry>, first: nat, start: nat, after: Option<RawCursor>, limit: nat)
    requires first <= start <= |ordered|
    ensures var page := PageOf(ordered, start, after, limit);
            && Sorted(ByDisplay, page.entries)
            && multiset(Stretch(ordered, first, start + limit)) == multiset(Stretch(ordered, first, start)) + multiset(page.entries)
  {
    var end := Min(start + limit, |ordered|);
    SortSpec(ByDisplay, ordered[start..end]);
    hide Sort, Sorted, Stretch;
    StretchGrows(ordered, first, start, limit);
  }

  lemma {:induction false} StretchGrows(s: seq<Entry>, first: nat, start: nat, limit: nat)
    requires first <= start <= |s|
    ensures Stretch(s, first, start + limit) == Stretch(s, first, start) + s[start..Min(start + limit, |s|)]
  {
  }

  lemma {:induction false} ShownNext(entries: seq<Entry>, limit: nat, from: Option<RawCursor>, pages: seq<Page>)
    requires Distinct(entries) && limit > 0 && Walk(entries, limit, from, pages)
    ensures pages != [] && Start(entries, from) + Times(|pages| - 1, limit) <= |entries| == |Sort(ByCursor, entries)|
    ensures Sorted(ByDisplay, pages[|pages| - 1].entries)
    ensures var ordered := Sort(ByCursor, entries); var first := Start(entries, from);
            multiset(Stretch(ordered, first, first + Times(|pages|, limit)))
            == multiset(Stretch(ordered, first, first + Times(|pages| - 1, limit))) + multiset(pages[|pages| - 1].entries)
    ensures pages[|pages| - 1].next.None? ==> |entries| <= Start(entries, from) + Times(|pages|, limit)
  {
    hide StartAfter, PageOf, Sort, Walk, Distinct, Paginate, Sorted, Times, Stretch, Start;
    var n := |pages| - 1;
    WalkSlices(entries, limit, from, pages);
    var first := Start(entries, from);
    PageShows(Sort(ByCursor, entries), first, first + Times(n, limit), AfterPage(from, pages, n), limit);
    TimesNext(n, limit);
  }

  lemma {:induction false} ShownAppend(pages: seq<Page>)
    requires pages != []
    ensures multiset(Shown(pages)) == multiset(Shown(pages[..|pages| - 1])) + multiset(pages[|pages| - 1].entries)
  {
  }

  lemma {:induction false} EmptyStretch(s: seq<Entry>, from: nat)
    requires from <= |s|
    ensures Stretch(s, from, from) == []
  {
  }

  /** The pages so far have shown the first stretch after the cursor, each in display order. */
  lemma {:induction false} ShownSoFar(entries: seq<Entry>, limit: nat, from: Option<RawCursor>, pages: seq<Page>)
    requires Distinct(entries) && limit > 0 && Walk(entries, limit, from, pages)
    ensures Start(entries, from) <= |Sort(ByCursor, entries)|
    ensures var first := Start(entries, from);
            multiset(Shown(pages)) == multiset(Stretch(Sort(ByCursor, entries), first, first + Times(|pages|, limit)))
    ensures forall k: nat :: k < |pages| ==> Sorted(ByDisplay, pages[k].entries)
  {
    hide Sort, Distinct, Paginate, Sorted, Follows, Shown, Times, Stretch, Start;
    var n := |pages| - 1;
    ShownNext(entries, limit, from, pages);
    ShownAppend(pages);
    TimesNext(0, limit);
    if n == 0 {
      NothingShown(pages);
      EmptyStretch(Sort(ByCursor, entries), Start(entries, from));
    } else {
      assert Walk(entries, limit, from, pages[..n]);
      hide Walk;
      ShownSoFar(entries, limit, from, pages[..n]);
      forall k: nat | k < |pages| ensures Sorted(ByDisplay, pages[k].entries) {
        if k < n { assert pages[..n][k] == pages[k]; }
      }
    }
  }

  lemma {:induction false} NothingShown(pages: seq<Page>)
    requires |pages| == 1
    ensures Shown(pages[..0]) == []
  {
  }

  lemma {:induction false} WholeStretch(s: seq<Entry>, from: nat, to: nat)
    requires from <= |s| <= to
    ensures Stretch(s, from, to) == s[from..]
  {
  }

  /** A walk from any cursor that has no next page has shown every entry after it exactly once, in pages
      each in display order; and no walk is longer than the entries need. */
  lemma {:induction false} WalkShowsRest(entries: seq<Entry>, limit: nat, from: Option<RawCursor>, pages: seq<Page>)
    requires Distinct(entries) && limit > 0 && Walk(entries, limit, from, pages)
    ensures pages != [] && Start(entries, from) + Times(|pages| - 1, limit) <= |entries| == |Sort(ByCursor, entries)|
    ensures pages[|pages| - 1].next.None? ==> multiset(Shown(pages)) == multiset(Sort(ByCursor, entries)[Start(entries, from)..])
    ensures forall k: nat :: k < |pages| ==> Sorted(ByDisplay, pages[k].entries)
  {
    hide *;
    ShownNext(entries, limit, from, pages);
    ShownSoFar(entries, limit, from, pages);
    if pages[|pages| - 1].next.None? {
      WholeStretch(Sort(ByCursor, entries), Start(entries, from), Start(entries, from) + Times(|pages|, limit));
    }
  }

  /** In particular a walk from no cursor shows every entry. */
  lemma {:induction false} WalkShowsAllOnce(entries: seq<Entry>, limit: nat, pages: seq<Page>)
    requires Distinct(entries) && limit > 0 && Walk(entries, limit, None, pages)
    ensures pages != []
    ensures pages[|pages| - 1].next.None? ==> multiset(Shown(pages)) == multiset(entries)
    ensures forall k: nat :: k < |pages| ==> Sorted(ByDisplay, pages[k].entries)
    ensures Times(|pages| - 1, limit) <= |entries|
  {
    hide *;
    WalkShowsRest(entries, limit, None, pages);
    SortSpec(ByCursor, entries);
    FirstStart(entries);
    assert Sort(ByCursor, entries)[0..] == Sort(ByCursor, entries);
  }

  /** And following next cursors always comes to such an end. */
  lemma {:induction false} WalkEnds(entries: seq<Entry>, limit: nat, from: Option<RawCursor>, soFar: seq<Page>) returns (pages: seq<Page>)
    requires Distinct(entries) && limit > 0 && Walk(entries, limit, from, soFar)
    ensures Walk(entries, limit, from, pages) && soFar <= pages && pages[|pages| - 1].next.None?
    decreases |entries| + limit - Times(|soFar|, limit)
  {
    hide StartAfter, PageOf, Sort, Distinct, Times, Start;
    var n := |soFar| - 1;
    WalkSlices(entries, limit, from, soFar);
    TimesNext(n, limit);
    TimesNext(n + 1, limit);
    pages := soFar;
    if soFar[n].next.Some? {
      var page := Paginate(entries, soFar[n].next, limit).value;
      assert (soFar + [page])[..|soFar|] == soFar;
      pages := WalkEnds(entries, limit, from, soFar + [page]);
    }
  }

  // ---- polling ----

  /** The cursor that a reader who has seen all entries polls from. */
  function PollCursor(entries: seq<Entry>): Option<RawCursor>
  {
    var ordered := Sort(ByCursor, entries);
    if ordered == [] then None else Some(EncodeCursor(ordered[|ordered| - 1]))
  }

  /** Everything in added sorts after everything in entries. */
  ghost predicate AddedAfter(entries: seq<Entry>, added: seq<Entry>)
  {
    forall i: nat, j: nat :: i < |entries| && j < |added| ==> Compare(ByCursor, entries[i], added[j]) < 0
  }

  lemma {:induction false} JoinedSorted(entries: seq<Entry>, added: seq<Entry>, a: seq<Entry>, b: seq<Entry>)
    requires Sorted(ByCursor, a) && Sorted(ByCursor, b) && multiset(a) == multiset(entries) && multiset(b) == multiset(added)
    requires AddedAfter(entries, added)
    ensures Sorted(ByCursor, a + b)
  {
    hide Compare;
    forall i: nat, j: nat | i < |a| && j < |b| ensures Compare(ByCursor, a[i], b[j]) <= 0 {
      assert a[i] in multiset(entries) && b[j] in multiset(added);
    }
  }

  lemma {:induction false} AddedSortLast(entries: seq<Entry>, added: seq<Entry>)
    requires Distinct(entries + added) && AddedAfter(entries, added)
    ensures Sort(ByCursor, entries + added) == Sort(ByCursor, entries) + Sort(ByCursor, added)
  {
    hide Sort, Distinct, Compare, Sorted, AddedAfter;
    var a, b := Sort(ByCursor, entries), Sort(ByCursor, added);
    SortSpec(ByCursor, entries);
    SortSpec(ByCursor, added);
    JoinedSorted(entries, added, a, b);
    SortSpec(ByCursor, entries + added);
    SortedDistinct(ByCursor, entries + added);
    SortedUnique(ByCursor, Sort(ByCursor, entries + added), a + b);
  }

  lemma {:induction false} LastStarts(ordered: seq<Entry>, n: nat)
    requires Distinct(ordered) && 0 < n <= |ordered|
    ensures StartAfter(ordered, Some(EncodeCursor(ordered[n - 1]))) == Ok(n)
  {
    CursorRoundTrip(ordered, n - 1);
  }

  /** Polling starts where the entries read before end. */
  lemma {:induction false} PollStarts(entries: seq<Entry>, added: seq<Entry>)
    requires Distinct(entries + added) && AddedAfter(entries, added)
    ensures StartAfter(Sort(ByCursor, entries + added), PollCursor(entries)) == Ok(|entries|)
    ensures Start(entries + added, PollCursor(entries)) == |entries|
    ensures Sort(ByCursor, entries + added) == Sort(ByCursor, entries) + Sort(ByCursor, added)
    ensures |Sort(ByCursor, entries)| == |entries|
  {
    var a, b := Sort(ByCursor, entries), Sort(ByCursor, added);
    AddedSortLast(entries, added);
    SortSpec(ByCursor, entries);
    SortedDistinct(ByCursor, entries + added);
    hide Sort, Distinct, Compare, Sorted, AddedAfter;
    if a != [] {
      LastStarts(a + b, |a|);
      assert (a + b)[|a| - 1] == a[|a| - 1];
    }
  }

  /** When everything added since the last reading sorts after what was read, a poll that follows its
      pages to the end shows exactly the added entries, each once, and leaves the cursor for the next
      poll. The reading before may have been empty. */
  lemma {:induction false} PollShowsAdded(entries: seq<Entry>, added: seq<Entry>, limit: nat, pages: seq<Page>)
    requires Distinct(entries + added) && AddedAfter(entries, added) && limit > 0
    requires Walk(entries + added, limit, PollCursor(entries), pages) && pages[|pages| - 1].next.None?
    ensures multiset(Shown(pages)) == multiset(added)
    ensures forall k: nat :: k < |pages| ==> Sorted(ByDisplay, pages[k].entries)
    ensures pages[|pages| - 1].poll == PollCursor(entries + added)
    ensures Times(|pages| - 1, limit) <= |added|
  {
    hide Sort, Distinct, Compare, Sorted, AddedAfter, StartAfter, Walk, Shown, Start, Times, PollCursor;
    PollStarts(entries, added);
    WalkShowsRest(entries + added, limit, PollCursor(entries), pages);
    var a, b := Sort(ByCursor, entries), Sort(ByCursor, added);
    assert (a + b)[|a|..] == b;
    SortSpec(ByCursor, added);
    PollGoesOn(entries, added, limit, pages);
  }

  /** A page without a next one ends at the last entry, and one with nothing on it keeps the reader's cursor. */
  lemma {:induction false} LastPagePolls(ordered: seq<Entry>, start: nat, after: Option<RawCursor>, limit: nat)
    requires start <= |ordered| && limit > 0 && PageOf(ordered, start, after, limit).next.None?
    ensures PageOf(ordered, start, after, limit).poll ==
            if start < |ordered| then Some(EncodeCursor(ordered[|ordered| - 1])) else after
  {
    hide Sort, EncodeCursor;
    if start < |ordered| {
      assert Min(start + limit, |ordered|) == |ordered|;
      assert ordered[start..|ordered|][|ordered| - start - 1] == ordered[|ordered| - 1];
    }
  }

  /** The last page's poll cursor is that of a reader who has seen all. */
  lemma {:induction false} PollGoesOn(entries: seq<Entry>, added: seq<Entry>, limit: nat, pages: seq<Page>)
    requires Distinct(entries + added) && AddedAfter(entries, added) && limit > 0
    requires Walk(entries + added, limit, PollCursor(entries), pages) && pages[|pages| - 1].next.None?
    ensures pages[|pages| - 1].poll == PollCursor(entries + added)
  {
    hide Sort, Distinct, Compare, Sorted, AddedAfter, StartAfter, PageOf, Walk, Start, Times, EncodeCursor;
    var all, from, n := entries + added, PollCursor(entries), |pages| - 1;
    PollStarts(entries, added);
    WalkSlices(all, limit, from, pages);
    SortSpec(ByCursor, all);
    SortSpec(ByCursor, added);
    TimesNext(0, limit);
    if n > 0 { MorePages(all, limit, from, pages); }
    var ordered := Sort(ByCursor, all);
    var start := |entries| + Times(n, limit);
    LastPagePolls(ordered, start, AfterPage(from, pages, n), limit);
    if start == |ordered| {
      assert Sort(ByCursor, added) == [];
      assert ordered == Sort(ByCursor, entries);
    }
  }

  /** A page that another one leads to is not empty. */
  lemma {:induction false} MorePages(entries: seq<Entry>, limit: nat, from: Option<RawCursor>, pages: seq<Page>)
    requires Distinct(entries) && limit > 0 && Walk(entries, limit, from, pages) && |pages| > 1
    ensures Start(entries, from) + Times(|pages| - 1, limit) < |entries|
  {
    hide Sort, Distinct, StartAfter, PageOf, Start, Times;
    var n := |pages| - 1;
    WalkSlices(entries, limit, from, pages[..n]);
    TimesNext(n - 1, limit);
  }
}

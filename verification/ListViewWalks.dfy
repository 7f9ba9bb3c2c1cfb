/**
 Walking the list page by its own links: the pages add up to the list, the filter
 keeps its meaning, and nobody's region preference changes on the way.
 */
module ListViewWalks {
  import opened Wrappers
  import opened ListView

  lemma {:induction false} DigitsRead(n: nat)
    ensures Digits(n) != "" && (forall i | 0 <= i < |Digits(n)| :: IsDigit(Digits(n)[i])) && Value(Digits(n)) == n
  {
    if n < 10 {
      assert Digits(n)[..0] == "";
    } else {
      DigitsRead(n / 10);
      assert Digits(n)[..|Digits(n)| - 1] == Digits(n / 10);
    }
  }

  /** A page number survives being written into a link and read back. */
  lemma PageNumberRoundTrips(n: nat)
    ensures ParseInt(Digits(n)) == n
  {
    DigitsRead(n);
    assert IsDigit(Digits(n)[0]);
  }

  lemma {:induction false} FirstUsableIsUsable(columns: seq<Column>)
    ensures FirstUsable(columns) != "" ==> Usable(columns, FirstUsable(columns))
  {
    if columns != [] && columns[0].kind == I18nText {
      FirstUsableIsUsable(columns[1..]);
      if FirstUsable(columns) != "" {
        var i :| 0 <= i < |columns[1..]|
                 && columns[1..][i].name == FirstUsable(columns) && columns[1..][i].kind != I18nText;
        assert columns[i + 1] == columns[1..][i];
      }
    }
  }

  // ------------------------------------------------------------- the pin

  /** A link that carries this page's pin and no region switch. */
  predicate Pinned(site: Site, r: Request, q: Query) {
    Get(q, "qregion") == ReadingRegion(site, r) && "region" !in q
  }

  lemma ReadingRegionIsOffered(site: Site, r: Request)
    requires Consistent(site)
    ensures ReadingRegion(site, r) != "" && site.offered(ReadingRegion(site, r)) == Some(ReadingRegion(site, r))
  {
  }

  lemma EveryLinkIsPinned(site: Site, r: Request, a: Action)
    requires Follow(site, r, a).Some?
    ensures Pinned(site, r, Follow(site, r, a).value)
  {
  }

  lemma PinnedKeepsRegion(site: Site, r: Request, q: Query, cookie: string)
    requires Consistent(site) && Pinned(site, r, q)
    ensures ReadingRegion(site, Request(q, cookie)) == ReadingRegion(site, r)
    ensures StoredRegion(site, Request(q, cookie)) == None
  {
    ReadingRegionIsOffered(site, r);
  }

  /** A walk: at each step an action, and the cookie the next request happens to send. */
  datatype Step = Step(action: Action, cookie: string)

  function Walk(site: Site, r: Request, steps: seq<Step>): Option<Request>
    decreases |steps|
  {
    if steps == [] then Some(r)
    else
      var q := Follow(site, r, steps[0].action);
      if q.None? then None else Walk(site, Request(q.value, steps[0].cookie), steps[1..])
  }

  /** Wherever the links lead and whatever becomes of the region cookie, the filter text
      is read under the region it was first read under, and no step stores a region. */
  lemma {:induction false} WalkKeepsRegion(site: Site, r: Request, steps: seq<Step>)
    requires Consistent(site) && Walk(site, r, steps).Some?
    ensures var end := Walk(site, r, steps).value;
      ReadingRegion(site, end) == ReadingRegion(site, r) && (steps != [] ==> StoredRegion(site, end) == None)
    decreases |steps|
  {
    if steps != [] {
      var q := Follow(site, r, steps[0].action).value;
      EveryLinkIsPinned(site, r, steps[0].action);
      PinnedKeepsRegion(site, r, q, steps[0].cookie);
      WalkKeepsRegion(site, Request(q, steps[0].cookie), steps[1..]);
    }
  }

  // ------------------------------------------------ what links carry over

  /** Reading back what a page carries forward: the same column and text in force. */
  lemma CarriedIsInForce(site: Site, r: Request, r': Request)
    requires Consistent(site) && ReadingRegion(site, r') == ReadingRegion(site, r)
    requires Get(r'.query, "filter") == CarriedField(site, r) && Get(r'.query, "q") == CarriedText(site, r)
    ensures OptionsOf(site, r').filterField == OptionsOf(site, r).filterField
    ensures OptionsOf(site, r').filterValue == OptionsOf(site, r).filterValue
    ensures CarriedField(site, r') == CarriedField(site, r) && CarriedText(site, r') == CarriedText(site, r)
  {
    FirstUsableIsUsable(site.columns);
  }

  lemma SortIsInForce(site: Site, r: Request, r': Request)
    requires Get(r'.query, "sort") == OptionsOf(site, r).sortField
    requires Get(r'.query, "dir") == if OptionsOf(site, r).sortDesc then "desc" else ""
    ensures var o, o' := OptionsOf(site, r), OptionsOf(site, r');
      o'.sortField == o.sortField && o'.sortDesc == o.sortDesc && o'.sortNumeric == o.sortNumeric
  {
  }

  /** A link that carries the filter as it stands. */
  predicate KeepsFilter(site: Site, r: Request, q: Query) {
    Pinned(site, r, q) && Get(q, "filter") == CarriedField(site, r) && Get(q, "q") == CarriedText(site, r)
  }

  /** A link that carries the sort as it stands. */
  predicate KeepsSort(site: Site, r: Request, q: Query) {
    && Get(q, "sort") == OptionsOf(site, r).sortField
    && Get(q, "dir") == if OptionsOf(site, r).sortDesc then "desc" else ""
  }

  lemma CarriedTextNeedsField(site: Site, r: Request)
    requires Consistent(site)
    ensures CarriedText(site, r) != "" ==> CarriedField(site, r) != ""
  {
  }

  lemma CombinedLink(region: string, field: string, text: string, sort: string, desc: bool, page: string)
    requires text != "" ==> field != ""
    ensures var q := FilterMap(region, field, text) + SortMap(region, sort, desc)["page" := page];
      && Get(q, "qregion") == region && "region" !in q && Get(q, "filter") == field && Get(q, "q") == text
      && Get(q, "sort") == sort && Get(q, "dir") == (if sort != "" && desc then "desc" else "")
      && Get(q, "page") == page
  {
  }

  lemma PageLinkCarries(site: Site, r: Request, page: nat)
    requires Consistent(site)
    ensures var q := PageLink(site, r, page);
      KeepsFilter(site, r, q) && KeepsSort(site, r, q) && Get(q, "page") == Digits(page)
  {
    var o := OptionsOf(site, r);
    CarriedTextNeedsField(site, r);
    CombinedLink(ReadingRegion(site, r), CarriedField(site, r), CarriedText(site, r),
                 o.sortField, o.sortDesc, Digits(page));
  }

  lemma HeaderCarries(site: Site, r: Request, c: nat)
    requires Consistent(site) && c < |site.columns| && site.columns[c].kind != I18nText
    ensures var q, o := ColumnLink(site, r, site.columns[c].name), OptionsOf(site, r);
      && KeepsFilter(site, r, q) && Get(q, "sort") == site.columns[c].name
      && Get(q, "dir") == if o.sortField == site.columns[c].name && !o.sortDesc then "desc" else ""
  {
    CarriedTextNeedsField(site, r);
  }

  lemma CarriedOn(site: Site, r: Request, q: Query, cookie: string)
    requires Consistent(site) && KeepsFilter(site, r, q) && KeepsSort(site, r, q)
    ensures OptionsOf(site, Request(q, cookie)) == OptionsOf(site, r)
  {
    PinnedKeepsRegion(site, r, q, cookie);
    CarriedIsInForce(site, r, Request(q, cookie));
    SortIsInForce(site, r, Request(q, cookie));
  }

  /** A page link changes the page and nothing else. */
  lemma PageLinkKeepsOptions(site: Site, r: Request, page: nat, cookie: string)
    requires Consistent(site) && 1 <= page <= TotalPages(|site.select(OptionsOf(site, r))|)
    ensures var r' := Request(PageLink(site, r, page), cookie);
      OptionsOf(site, r') == OptionsOf(site, r) && PageOf(site, r') == page
  {
    PageLinkCarries(site, r, page);
    CarriedOn(site, r, PageLink(site, r, page), cookie);
    PageNumberRoundTrips(page);
  }

  /** A header sorts by its column, flipping the direction if it sorted already, and
      keeps the filter. */
  lemma HeaderSortsAndKeepsFilter(site: Site, r: Request, c: nat, cookie: string)
    requires Consistent(site) && c < |site.columns| && site.columns[c].kind != I18nText
    ensures var o := OptionsOf(site, r);
      var o' := OptionsOf(site, Request(ColumnLink(site, r, site.columns[c].name), cookie));
      && o'.sortField == site.columns[c].name && o'.sortDesc == (o.sortField == site.columns[c].name && !o.sortDesc)
      && o'.filterField == o.filterField && o'.filterValue == o.filterValue
  {
    var q := ColumnLink(site, r, site.columns[c].name);
    HeaderCarries(site, r, c);
    PinnedKeepsRegion(site, r, q, cookie);
    CarriedIsInForce(site, r, Request(q, cookie));
    assert Usable(site.columns, site.columns[c].name);
  }

  /** Clear drops the filter and keeps the sort. */
  lemma ClearKeepsSort(site: Site, r: Request, cookie: string)
    requires Consistent(site) && Follow(site, r, Clear).Some?
    ensures OptionsOf(site, Request(Follow(site, r, Clear).value, cookie)) ==
              OptionsOf(site, r).(filterField := "", filterValue := "")
  {
    SortIsInForce(site, r, Request(Follow(site, r, Clear).value, cookie));
  }

  /** A search keeps the sort and the column, and reads the new text as the old. */
  lemma SubmitKeepsSortAndColumn(site: Site, r: Request, text: string, cookie: string)
    requires Consistent(site) && text != "" && CarriedField(site, r) != ""
    ensures var field := CarriedField(site, r);
      OptionsOf(site, Request(Follow(site, r, Submit(text)).value, cookie)) ==
        OptionsOf(site, r).(filterField := field,
                            filterValue := Normalized(site, KindOf(site.columns, field), ReadingRegion(site, r), text))
  {
    var r' := Request(Follow(site, r, Submit(text)).value, cookie);
    EveryLinkIsPinned(site, r, Submit(text));
    PinnedKeepsRegion(site, r, r'.query, cookie);
    SortIsInForce(site, r, r');
  }

  // ---------------------------------------------------- the region picker

  /** The region text is read under is the one the page is displayed under exactly when
      no offered pin says otherwise. */
  lemma ReadAsDisplayedExactlyWhen(site: Site, r: Request)
    ensures ReadingRegion(site, r) == ActiveRegion(site, r) <==>
              (var pin := Get(r.query, "qregion");
               pin == "" || site.offered(pin).None? || site.offered(pin) == Some(ActiveRegion(site, r)))
  {
  }

  /** Choosing a region displays the page under it and drops the text, and leaves any
      pin in place: what is typed next is read as displayed exactly when the page had no
      offered pin or the pin is the region chosen. */
  lemma PickedRegionIsReadExactlyWhen(site: Site, r: Request, tag: string, cookie: string)
    requires Consistent(site) && tag != "" && site.offered(tag).Some?
    ensures var r', pin := Request(RegionLink(r, tag), cookie), Get(r.query, "qregion");
      && Some(ActiveRegion(site, r')) == site.offered(tag) == StoredRegion(site, r')
      && OptionsOf(site, r').filterField == "" && CarriedText(site, r') == ""
      && (ReadingRegion(site, r') == ActiveRegion(site, r') <==>
          pin == "" || site.offered(pin).None? || site.offered(pin) == site.offered(tag))
  {
    ReadAsDisplayedExactlyWhen(site, Request(RegionLink(r, tag), cookie));
  }

  /** So on any page the list's own links lead to, the picker changes what is displayed
      and not how text is read: a search typed under the chosen region is still read
      under the one the walk began with. */
  lemma PickerKeepsReading(site: Site, r: Request, steps: seq<Step>, tag: string, cookie: string, text: string)
    requires Consistent(site) && steps != [] && Walk(site, r, steps).Some?
    requires tag != "" && site.offered(tag).Some? && text != ""
    ensures var picked := Request(RegionLink(Walk(site, r, steps).value, tag), cookie);
      var field, found := CarriedField(site, picked), Request(Follow(site, picked, Submit(text)).value, cookie);
      && Some(ActiveRegion(site, picked)) == site.offered(tag)
      && ReadingRegion(site, picked) == ReadingRegion(site, found) == ReadingRegion(site, r)
      && (field != "" ==> OptionsOf(site, found).filterValue ==
                          Normalized(site, KindOf(site.columns, field), ReadingRegion(site, r), text))
  {
    var end := Walk(site, r, steps).value;
    var picked := Request(RegionLink(end, tag), cookie);
    WalkKeepsRegion(site, r, steps);
    WalkEndsPinned(site, r, steps);
    ReadingRegionIsOffered(site, r);
    EveryLinkIsPinned(site, picked, Submit(text));
    PinnedKeepsRegion(site, picked, Follow(site, picked, Submit(text)).value, cookie);
    if CarriedField(site, picked) != "" {
      SubmitKeepsSortAndColumn(site, picked, text, cookie);
    }
  }

  lemma {:induction false} WalkEndsPinned(site: Site, r: Request, steps: seq<Step>)
    requires Consistent(site) && steps != [] && Walk(site, r, steps).Some?
    ensures Get(Walk(site, r, steps).value.query, "qregion") == ReadingRegion(site, r)
    decreases |steps|
  {
    var r' := Request(Follow(site, r, steps[0].action).value, steps[0].cookie);
    EveryLinkIsPinned(site, r, steps[0].action);
    PinnedKeepsRegion(site, r, r'.query, steps[0].cookie);
    if |steps| > 1 {
      WalkEndsPinned(site, r', steps[1..]);
    }
  }

  /** A list with one date column, offered in two regions that order dates differently. */
  function Deliveries(): Site {
    Site([Column("due", Date)], tag => if tag in {"en-GB", "en-US"} then Some(tag) else None, "en-GB",
         (region, text) => None,
         (region, text) => if text != "04/03/2026" then None
                           else if region == "en-GB" then Some("2026-03-04") else Some("2026-04-03"),
         options => [])
  }

  /** Sort by the column, choose the other region, search for a date. */
  function Sorted(): Request {
    Request(map["qregion" := "en-GB", "sort" := "due"], "")
  }

  function Picked(): Request {
    Request(map["qregion" := "en-GB", "sort" := "due", "region" := "en-US"], "en-US")
  }

  function Found(): Request {
    Request(map["qregion" := "en-GB", "sort" := "due", "q" := "04/03/2026"], "en-US")
  }

  lemma DueIsUsable()
    ensures Usable(Deliveries().columns, "due") && KindOf(Deliveries().columns, "due") == Date
  {
    assert Deliveries().columns[0].name == "due";
  }

  /** Three clicks from the bare list. */
  lemma WrongDayClicks()
    ensures Follow(Deliveries(), Request(map[], ""), SortBy(0)) == Some(Sorted().query)
    ensures RegionLink(Sorted(), "en-US") == Picked().query
    ensures Follow(Deliveries(), Picked(), Submit("04/03/2026")) == Some(Found().query)
  {
    DueIsUsable();
    assert ColumnLink(Deliveries(), Request(map[], ""), "due") == Sorted().query;
    assert SortParams(Deliveries(), Picked()) == Sorted().query;
  }

  /** The page shows the chosen region's dates and finds the other day. */
  lemma WrongDayIsFound()
    ensures Consistent(Deliveries())
    ensures ActiveRegion(Deliveries(), Picked()) == ActiveRegion(Deliveries(), Found()) == "en-US"
    ensures Deliveries().readDate("en-US", "04/03/2026") == Some("2026-04-03")
    ensures OptionsOf(Deliveries(), Found()).filterField == "due"
    ensures OptionsOf(Deliveries(), Found()).filterValue == "2026-03-04"
  {
    DueIsUsable();
  }

  // ------------------------------------------------------ enumeration

  /** Requests each made by clicking Next on the page before, with any cookie. */
  predicate NextChain(site: Site, rs: seq<Request>) {
    rs != [] && forall i | 0 <= i < |rs| - 1 :: NextLink(site, rs[i]) == Some(rs[i + 1].query)
  }

  function Concat(pages: seq<seq<string>>): seq<string> {
    if pages == [] then [] else Concat(pages[..|pages| - 1]) + pages[|pages| - 1]
  }

  function Shown(site: Site, rs: seq<Request>): seq<seq<string>> {
    seq(|rs|, i requires 0 <= i < |rs| => Rows(site, rs[i]))
  }

  /** The i-th page of a list: a full one, or what is left for the last. */
  predicate IsPage(all: seq<string>, i: nat, last: bool, rows: seq<string>) {
    && i * PAGE_SIZE <= |all|
    && if last then rows == all[i * PAGE_SIZE..]
       else i * PAGE_SIZE + PAGE_SIZE <= |all| && rows == all[i * PAGE_SIZE..i * PAGE_SIZE + PAGE_SIZE]
  }

  lemma PagesCover(total: nat)
    ensures (TotalPages(total) - 1) * PAGE_SIZE <= total <= TotalPages(total) * PAGE_SIZE
  {
  }

  /** The rows of a page, and whether there are more. */
  lemma RowsOfPage(site: Site, r: Request)
    ensures IsPage(site.select(OptionsOf(site, r)), PageOf(site, r) - 1, NextLink(site, r).None?, Rows(site, r))
  {
    PagesCover(|site.select(OptionsOf(site, r))|);
  }

  /** One click on Next: the rows of this page, then the page after it. */
  lemma NextStep(site: Site, r: Request, r': Request)
    requires Consistent(site) && NextLink(site, r) == Some(r'.query)
    ensures OptionsOf(site, r') == OptionsOf(site, r) && PageOf(site, r') == PageOf(site, r) + 1
  {
    PageLinkKeepsOptions(site, r, PageOf(site, r) + 1, r'.cookie);
    assert r' == Request(PageLink(site, r, PageOf(site, r) + 1), r'.cookie);
  }

  lemma {:induction false} ChainPage(site: Site, rs: seq<Request>, i: nat)
    requires Consistent(site) && NextChain(site, rs) && PageOf(site, rs[0]) == 1 && i < |rs|
    ensures OptionsOf(site, rs[i]) == OptionsOf(site, rs[0]) && PageOf(site, rs[i]) == i + 1
  {
    if i > 0 {
      ChainPage(site, rs, i - 1);
      NextStep(site, rs[i - 1], rs[i]);
    }
  }

  lemma Slices(all: seq<string>, k: nat, m: nat)
    requires k <= m <= |all|
    ensures all[..k] + all[k..m] == all[..m] && all[..|all|] == all && all[k..|all|] == all[k..]
  {
  }

  lemma {:induction false} FullPages(pages: seq<seq<string>>, all: seq<string>)
    requires forall i | 0 <= i < |pages| :: IsPage(all, i, false, pages[i])
    ensures |pages| * PAGE_SIZE <= |all| && Concat(pages) == all[..|pages| * PAGE_SIZE]
  {
    if pages != [] {
      var n := |pages| - 1;
      FullPages(pages[..n], all);
      assert IsPage(all, n, false, pages[n]);
      Slices(all, n * PAGE_SIZE, n * PAGE_SIZE + PAGE_SIZE);
    }
  }

  lemma AllPages(pages: seq<seq<string>>, all: seq<string>)
    requires pages != [] && forall i | 0 <= i < |pages| :: IsPage(all, i, i == |pages| - 1, pages[i])
    ensures Concat(pages) == all
  {
    var n := |pages| - 1;
    FullPages(pages[..n], all);
    assert IsPage(all, n, true, pages[n]);
    Slices(all, n * PAGE_SIZE, |all|);
  }

  lemma ChainShows(site: Site, rs: seq<Request>, i: nat)
    requires Consistent(site) && NextChain(site, rs) && PageOf(site, rs[0]) == 1 && i < |rs|
    requires NextLink(site, rs[|rs| - 1]).None?
    ensures IsPage(site.select(OptionsOf(site, rs[0])), i, i == |rs| - 1, Rows(site, rs[i]))
  {
    ChainPage(site, rs, i);
    RowsOfPage(site, rs[i]);
    if i < |rs| - 1 {
      assert NextLink(site, rs[i]) == Some(rs[i + 1].query);
    }
    assert NextLink(site, rs[i]).None? == (i == |rs| - 1);
  }

  /** Next from the first page to the last shows the filtered, sorted list, each row
      once and in order, even if the region cookie changes at every click. */
  lemma NextEnumeratesTheList(site: Site, rs: seq<Request>)
    requires Consistent(site) && NextChain(site, rs) && PageOf(site, rs[0]) == 1
    requires NextLink(site, rs[|rs| - 1]).None?
    ensures Concat(Shown(site, rs)) == site.select(OptionsOf(site, rs[0]))
  {
    forall i | 0 <= i < |rs|
      ensures IsPage(site.select(OptionsOf(site, rs[0])), i, i == |rs| - 1, Shown(site, rs)[i])
    {
      ChainShows(site, rs, i);
    }
    AllPages(Shown(site, rs), site.select(OptionsOf(site, rs[0])));
  }

  /** And such a chain exists: it is one request for each page. */
  lemma {:induction false} NextGoesOn(site: Site, r: Request, cookies: nat -> string, n: nat) returns (rs: seq<Request>)
    requires Consistent(site) && PageOf(site, r) == 1 && 1 <= n <= TotalPages(|site.select(OptionsOf(site, r))|)
    ensures NextChain(site, rs) && |rs| == n && rs[0] == r
    ensures n == TotalPages(|site.select(OptionsOf(site, r))|) ==> NextLink(site, rs[n - 1]).None?
  {
    if n == 1 {
      rs := [r];
    } else {
      rs := NextGoesOn(site, r, cookies, n - 1);
      ChainPage(site, rs, n - 2);
      rs := rs + [Request(PageLink(site, rs[n - 2], n), cookies(n))];
      ChainPage(site, rs, n - 1);
    }
  }
}

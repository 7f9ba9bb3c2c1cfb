/**
 The record list page: options read from the query, one page of rows, and the links
 and form that lead from it. A pin in every link says under which region's rules the
 filter text is to be read.
 */
module ListView {
  import opened Wrappers

  const PAGE_SIZE := 25

  datatype Kind = Text | Number | Money | Date | I18nText

  datatype Column = Column(name: string, kind: Kind)

  type Query = map<string, string>

  /** `cookie` is the stored region preference, empty if there is none. */
  datatype Request = Request(query: Query, cookie: string)

  /** What the query asks of the data; `select` below answers it in full. */
  datatype Options = Options(sortField: string, sortDesc: bool, sortNumeric: bool,
                             filterField: string, filterValue: string)

  /** The visible columns; the regions offered for the active language, by any way of
      writing them, with its default; how a region reads numbers and dates; and the
      data, which is fixed. */
  datatype Site = Site(columns: seq<Column>, offered: string -> Option<string>, fallback: string,
                       readNumber: (string, string) -> Option<string>, readDate: (string, string) -> Option<string>,
                       select: Options -> seq<string>)

  /** An offered region's own tag is offered and stands for itself, and the default is offered. */
  ghost predicate Consistent(site: Site) {
    && (forall tag :: site.offered(tag).Some? ==>
          site.offered(site.offered(tag).value) == site.offered(tag) && site.offered(tag).value != "")
    && site.offered(site.fallback) == Some(site.fallback) && site.fallback != ""
    && (forall i, j | 0 <= i < j < |site.columns| :: site.columns[i].name != site.columns[j].name)
    && (forall i | 0 <= i < |site.columns| :: site.columns[i].name != "")
  }

  function Get(q: Query, key: string): string {
    if key in q then q[key] else ""
  }

  // ------------------------------------------------------------- regions

  function ActiveRegion(site: Site, r: Request): string {
    var asked, stored := Get(r.query, "region"), r.cookie;
    if asked != "" && site.offered(asked).Some? then site.offered(asked).value
    else if stored != "" && site.offered(stored).Some? then site.offered(stored).value
    else site.fallback
  }

  /** The region the filter text is read under: the pin if it is an offered one. */
  function ReadingRegion(site: Site, r: Request): string {
    var pin := Get(r.query, "qregion");
    if pin != "" && site.offered(pin).Some? then site.offered(pin).value else ActiveRegion(site, r)
  }

  /** The preference a request stores, if any. */
  function StoredRegion(site: Site, r: Request): Option<string> {
    var asked := Get(r.query, "region");
    if asked == "" then None else site.offered(asked)
  }

  // ------------------------------------------------------------- options

  predicate Usable(columns: seq<Column>, name: string) {
    exists i | 0 <= i < |columns| :: columns[i].name == name && columns[i].kind != I18nText
  }

  function KindOf(columns: seq<Column>, name: string): Kind {
    if columns == [] then Text else if columns[0].name == name then columns[0].kind else KindOf(columns[1..], name)
  }

  function FirstUsable(columns: seq<Column>): string {
    if columns == [] then "" else if columns[0].kind != I18nText then columns[0].name else FirstUsable(columns[1..])
  }

  function FilterField(site: Site, r: Request): string {
    var asked := Get(r.query, "filter");
    if asked != "" then asked else FirstUsable(site.columns)
  }

  predicate Filters(site: Site, r: Request) {
    Get(r.query, "q") != "" && Usable(site.columns, FilterField(site, r))
  }

  /** The text as typed, rewritten the way values of this kind are stored if it can be. */
  function Normalized(site: Site, kind: Kind, region: string, text: string): string {
    var read := match kind
      case Number => site.readNumber(region, text)
      case Date => site.readDate(region, text)
      case _ => None;
    if read.Some? then read.value else text
  }

  function OptionsOf(site: Site, r: Request): Options {
    var sort, field := Get(r.query, "sort"), FilterField(site, r);
    var sorts, filters := sort != "" && Usable(site.columns, sort), Filters(site, r);
    Options(
      if sorts then sort else "",
      sorts && Get(r.query, "dir") == "desc",
      sorts && KindOf(site.columns, sort) in {Number, Money},
      if filters then field else "",
      if filters then Normalized(site, KindOf(site.columns, field), ReadingRegion(site, r), Get(r.query, "q")) else "")
  }

  /** The filter column carried forward: the one in force, or one asked for explicitly. */
  function CarriedField(site: Site, r: Request): string {
    var asked := Get(r.query, "filter");
    if asked != "" && Usable(site.columns, asked) then asked
    else if Filters(site, r) then FilterField(site, r)
    else ""
  }

  function CarriedText(site: Site, r: Request): string {
    if Filters(site, r) then Get(r.query, "q") else ""
  }

  // --------------------------------------------------------------- pages

  function TotalPages(total: nat): nat {
    var pages := (total + PAGE_SIZE - 1) / PAGE_SIZE;
    if pages < 1 then 1 else pages
  }

  function Digits(n: nat): string {
    if n < 10 then [('0' as int + n) as char] else Digits(n / 10) + [('0' as int + n % 10) as char]
  }

  predicate IsDigit(c: char) {
    '0' <= c <= '9'
  }

  function Value(s: string): nat
    requires forall i | 0 <= i < |s| :: IsDigit(s[i])
  {
    if s == "" then 0
    else
      assert IsDigit(s[|s| - 1]);
      10 * Value(s[..|s| - 1]) + (s[|s| - 1] as int - '0' as int)
  }

  /** A decimal number with an optional sign, 0 for anything else. */
  function ParseInt(s: string): int {
    var body := if s != "" && (s[0] == '+' || s[0] == '-') then s[1..] else s;
    if body == "" || exists i | 0 <= i < |body| :: !IsDigit(body[i]) then 0
    else
      var n: int := Value(body);
      if s[0] == '-' then -n else n
  }

  function PageOf(site: Site, r: Request): (p: nat)
    ensures 1 <= p <= TotalPages(|site.select(OptionsOf(site, r))|)
  {
    var asked, last := ParseInt(Get(r.query, "page")), TotalPages(|site.select(OptionsOf(site, r))|);
    if asked < 1 then 1 else if asked > last then last else asked
  }

  function Rows(site: Site, r: Request): seq<string> {
    var all, start := site.select(OptionsOf(site, r)), (PageOf(site, r) - 1) * PAGE_SIZE;
    if start >= |all| then [] else if start + PAGE_SIZE >= |all| then all[start..] else all[start..start + PAGE_SIZE]
  }

  // --------------------------------------------------------------- links

  /** The pin and a sort. */
  function SortMap(region: string, field: string, desc: bool): Query {
    var q: Query := map["qregion" := region];
    if field == "" then q else if desc then q["sort" := field]["dir" := "desc"] else q["sort" := field]
  }

  function SortParams(site: Site, r: Request): Query {
    SortMap(ReadingRegion(site, r), OptionsOf(site, r).sortField, OptionsOf(site, r).sortDesc)
  }

  /** The pin and a filter, which every link but Clear carries. */
  function FilterMap(region: string, field: string, text: string): Query {
    var q: Query := map["qregion" := region];
    if field == "" then q else if text == "" then q["filter" := field] else q["filter" := field]["q" := text]
  }

  function FilterParams(site: Site, r: Request): Query {
    FilterMap(ReadingRegion(site, r), CarriedField(site, r), CarriedText(site, r))
  }

  function PageLink(site: Site, r: Request, page: nat): Query {
    FilterParams(site, r) + SortParams(site, r)["page" := Digits(page)]
  }

  function ColumnLink(site: Site, r: Request, name: string): Query {
    var o := OptionsOf(site, r);
    var sort: Query := map["sort" := name];
    FilterParams(site, r) + (if o.sortField == name && !o.sortDesc then sort["dir" := "desc"] else sort)
  }

  /** The filter form's hidden fields. */
  function FormParams(site: Site, r: Request): Query {
    var field := CarriedField(site, r);
    if field == "" then SortParams(site, r) else SortParams(site, r)["filter" := field]
  }

  /** A choice in the region picker: the query as it is, pin and all, without the text. */
  function RegionLink(r: Request, tag: string): Query {
    (r.query - {"q"})["region" := tag]
  }

  datatype Action = NextPage | PrevPage | Clear | SortBy(column: nat) | Submit(text: string)

  function NextLink(site: Site, r: Request): Option<Query> {
    var page, last := PageOf(site, r), TotalPages(|site.select(OptionsOf(site, r))|);
    if page < last then Some(PageLink(site, r, page + 1)) else None
  }

  /** Where an action on the page leads, if the page offers it. */
  function Follow(site: Site, r: Request, a: Action): Option<Query> {
    match a
    case NextPage => NextLink(site, r)
    case PrevPage => if PageOf(site, r) > 1 then Some(PageLink(site, r, PageOf(site, r) - 1)) else None
    case Clear => if CarriedText(site, r) != "" then Some(SortParams(site, r)) else None
    case SortBy(c) =>
      if c < |site.columns| && site.columns[c].kind != I18nText then Some(ColumnLink(site, r, site.columns[c].name))
      else None
    case Submit(text) => Some(FormParams(site, r)["q" := text])
  }

  /** The page as rendered. */
  datatype View = View(rows: seq<string>, page: nat, pages: nat, next: Option<Query>, prev: Option<Query>, clear: Query,
                       headers: seq<Option<Query>>, form: Query, stored: Option<string>)

  method Render(site: Site, r: Request) returns (v: View)
    ensures v.rows == Rows(site, r) && v.page == PageOf(site, r)
    ensures v.pages == TotalPages(|site.select(OptionsOf(site, r))|)
    ensures v.next == Follow(site, r, NextPage) && v.prev == Follow(site, r, PrevPage)
    ensures CarriedText(site, r) != "" ==> Follow(site, r, Clear) == Some(v.clear)
    ensures |v.headers| == |site.columns|
    ensures forall c | 0 <= c < |v.headers| :: v.headers[c] == Follow(site, r, SortBy(c))
    ensures forall text :: Follow(site, r, Submit(text)) == Some(v.form["q" := text])
    ensures v.stored == StoredRegion(site, r)
  {
    var o := OptionsOf(site, r);
    var all := site.select(o);
    var page, pages, rows := Paginate(site, r, all);
    var sort := BuildSort(o, ReadingRegion(site, r));
    var carried, keep := BuildFilter(site, r, o);
    var headers := BuildHeaders(site, r, keep);
    v := View(rows, page, pages,
              if page < pages then Some(keep + sort["page" := Digits(page + 1)]) else None,
              if page > 1 then Some(keep + sort["page" := Digits(page - 1)]) else None,
              sort, headers, if carried == "" then sort else sort["filter" := carried], StoredRegion(site, r));
  }

  function Distance(x: int, y: int): nat {
    if x < y then y - x else x - y
  }

  /** As few pages as hold all the rows, one even for none; the page shown is the one
      that exists nearest to the one asked for. */
  method ClampPage(asked: int, total: nat) returns (page: nat, pages: nat)
    ensures 1 <= page <= pages && total <= pages * PAGE_SIZE
    ensures pages == 1 || total > (pages - 1) * PAGE_SIZE
    ensures forall p | 1 <= p <= pages :: Distance(page, asked) <= Distance(p, asked)
  {
    pages := (total + PAGE_SIZE - 1) / PAGE_SIZE;
    if pages < 1 {
      pages := 1;
    }
    var p := asked;
    if p < 1 {
      p := 1;
    }
    if p > pages {
      p := pages;
    }
    page := p;
  }

  /** Which is TotalPages, and the page PageOf names. */
  lemma ClampedPage(asked: int, total: nat, page: nat, pages: nat)
    requires 1 <= page <= pages && total <= pages * PAGE_SIZE
    requires pages == 1 || total > (pages - 1) * PAGE_SIZE
    requires forall p | 1 <= p <= pages :: Distance(page, asked) <= Distance(p, asked)
    ensures pages == TotalPages(total)
    ensures page == if asked < 1 then 1 else if asked > pages then pages else asked
  {
    var nearest := if asked < 1 then 1 else if asked > pages then pages else asked;
    assert Distance(page, asked) <= Distance(nearest, asked);
  }

  method Paginate(site: Site, r: Request, all: seq<string>) returns (page: nat, pages: nat, rows: seq<string>)
    requires all == site.select(OptionsOf(site, r))
    ensures page == PageOf(site, r) && pages == TotalPages(|all|) && rows == Rows(site, r)
  {
    var asked := ParseInt(Get(r.query, "page"));
    page, pages := ClampPage(asked, |all|);
    ClampedPage(asked, |all|, page, pages);
    var start := (page - 1) * PAGE_SIZE;
    rows := if start >= |all| then []
            else if start + PAGE_SIZE >= |all| then all[start..]
            else all[start..start + PAGE_SIZE];
  }

  method BuildSort(o: Options, region: string) returns (q: Query)
    ensures q == SortMap(region, o.sortField, o.sortDesc)
  {
    q := map["qregion" := region];
    if o.sortField != "" {
      q := q["sort" := o.sortField];
      if o.sortDesc {
        q := q["dir" := "desc"];
      }
    }
  }

  method BuildFilter(site: Site, r: Request, o: Options) returns (carried: string, q: Query)
    requires o == OptionsOf(site, r)
    ensures carried == CarriedField(site, r) && q == FilterParams(site, r)
  {
    var explicit := Get(r.query, "filter");
    var field := explicit;
    if field == "" {
      field := FindUsable(site.columns);
    }
    var valid := Usable(site.columns, field);
    var text := "";
    if Get(r.query, "q") != "" && valid {
      text := Get(r.query, "q");
    }
    carried := o.filterField;
    if explicit != "" && valid {
      carried := explicit;
    }
    q := map["qregion" := ReadingRegion(site, r)];
    if carried != "" {
      q := q["filter" := carried];
      if text != "" {
        q := q["q" := text];
      }
    }
  }

  method BuildHeaders(site: Site, r: Request, keep: Query) returns (headers: seq<Option<Query>>)
    requires keep == FilterParams(site, r)
    ensures |headers| == |site.columns| && forall c | 0 <= c < |headers| :: headers[c] == Follow(site, r, SortBy(c))
  {
    var o := OptionsOf(site, r);
    headers := [];
    for c := 0 to |site.columns|
      invariant |headers| == c && forall k | 0 <= k < c :: headers[k] == Follow(site, r, SortBy(k))
    {
      var f := site.columns[c];
      if f.kind == I18nText {
        headers := headers + [None];
      } else {
        var params: Query := map["sort" := f.name];
        if o.sortField == f.name && !o.sortDesc {
          params := params["dir" := "desc"];
        }
        headers := headers + [Some(keep + params)];
      }
    }
  }

  /** The region picker: nothing to choose from one region, else a link for each. */
  method RegionOptions(r: Request, choices: seq<string>) returns (links: seq<Query>)
    ensures |links| == if |choices| < 2 then 0 else |choices|
    ensures forall i | 0 <= i < |links| :: links[i] == RegionLink(r, choices[i])
  {
    links := [];
    if |choices| < 2 {
      return;
    }
    var base := r.query - {"q"};
    for i := 0 to |choices|
      invariant |links| == i && forall k | 0 <= k < i :: links[k] == RegionLink(r, choices[k])
      invariant forall tag :: base["region" := tag] == RegionLink(r, tag)
    {
      base := base["region" := choices[i]];
      links := links + [base];
    }
  }

  method FindUsable(columns: seq<Column>) returns (name: string)
    ensures name == FirstUsable(columns)
  {
    for i := 0 to |columns|
      invariant FirstUsable(columns[i..]) == FirstUsable(columns)
    {
      if columns[i].kind != I18nText {
        return columns[i].name;
      }
      assert columns[i..][1..] == columns[i + 1..];
    }
    return "";
  }
}

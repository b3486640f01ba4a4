/** The submissions dashboard: its paging and sorting state, the request it
    derives from that state, and how it shows ids and values. */
module SubmissionPage {
  import opened Strings
  import opened Json
  import opened FormController

  datatype SortOrder = Asc | Desc

  /** The text sent as the `sortOrder` parameter. */
  function SortText(o: SortOrder): (s: string)
    ensures s == "asc" <==> o == Asc
  {
    match o
    case Asc => "asc"
    case Desc => "desc"
  }

  /** `prev === 'asc' ? 'desc' : 'asc'`. */
  function Flip(o: SortOrder): (r: SortOrder)
    ensures r != o
  {
    if o == Asc then Desc else Asc
  }

  lemma FlipTwice(o: SortOrder)
    ensures Flip(Flip(o)) == o
  {
  }

  /** `fetchSubmissions(page, limit, sortOrder)`. */
  datatype PageRequest = PageRequest(page: int, limit: int, sortOrder: SortOrder)

  /** The query string the request becomes, as the server reads it. */
  function AsQuery(r: PageRequest): Query {
    Query(Some(IntToString(r.page)), Some(IntToString(r.limit)), Some(SortText(r.sortOrder)), None)
  }

  class SubmissionsView {
    var pageIndex: int
    var pageSize: int
    var sortOrder: SortOrder

    /** Lines 17-18: the first page of 10, newest first. */
    constructor()
      ensures pageIndex == 0 && pageSize == 10 && sortOrder == Desc
    {
      pageIndex := 0;
      pageSize := 10;
      sortOrder := Desc;
    }

    /** The request the current state asks for: pages are 1-based on the server. */
    function Request(): (r: PageRequest)
      reads this
      ensures r.page == pageIndex + 1 && r.limit == pageSize && r.sortOrder == sortOrder
    {
      PageRequest(pageIndex + 1, pageSize, sortOrder)
    }

    /** A click on the date header flips the order and keeps the page. */
    method ClickDateHeader()
      modifies this
      ensures sortOrder == Flip(old(sortOrder))
      ensures pageIndex == old(pageIndex) && pageSize == old(pageSize)
    {
      sortOrder := Flip(sortOrder);
    }
  }

  /** The server reads back the page, the page size and the order the
      dashboard sends, for any page index and a positive page size. */
  lemma ServerReadsRequest(r: PageRequest)
    requires r.page >= 1 && r.limit > 0
    ensures ParseListQuery(AsQuery(r)) == ListParams(r.page, r.limit, r.sortOrder == Asc, None)
  {
    ParseIntOfIntToString(r.page);
    ParseIntOfIntToString(r.limit);
  }

  /** The dashboard's first request is the server's default query. */
  lemma InitialRequestIsServerDefault()
    ensures ParseListQuery(AsQuery(PageRequest(0 + 1, 10, Desc))) == ParseListQuery(Query(None, None, None, None))
  {
    ServerReadsRequest(PageRequest(1, 10, Desc));
  }

  /** Two clicks on the date header restore the request. */
  method ClickTwice(v: SubmissionsView)
    modifies v
    ensures v.Request() == old(v.Request())
  {
    v.ClickDateHeader();
    v.ClickDateHeader();
  }

  // ---------------------------------------------------------------------
  // Display

  /** A cell's content: plain text or a greyed-out hint. */
  datatype Display = Shown(text: string) | Hint(text: string)

  /** `String(value)`. */
  function ToText(v: Value): string {
    match v
    case Null => "null"
    case Bool(b) => if b then "true" else "false"
    case Num(n) => IntToString(n)
    case Str(s) => s
    case Arr(xs) => Join(xs, ",")
  }

  /** Lines 177-179. */
  function FormatValue(v: Value): (d: Display)
    ensures v.Arr? ==> (d == Hint("None selected") <==> v.items == [])
    ensures v.Arr? && v.items != [] ==> d == Shown(Join(v.items, ", "))
    ensures !v.Arr? ==> (d == Hint("Empty") <==> v == Str(""))
    ensures !v.Arr? && v != Str("") ==> d == Shown(ToText(v))
  {
    if v.Arr? then
      if |v.items| > 0 then Shown(Join(v.items, ", ")) else Hint("None selected")
    else
      var s := ToText(v);
      if s != "" then Shown(s) else Hint("Empty")
  }

  /** A hint is shown only for an empty selection or an empty string; a
      selection of one empty string shows as empty text, not as a hint. */
  lemma HintOnlyWhenEmpty(v: Value)
    ensures FormatValue(v).Hint? <==> v == Arr([]) || v == Str("")
    ensures FormatValue(Arr([""])) == Shown("")
  {
  }

  /** `id.slice(0, 8)`. */
  function ShortId(id: string): (s: string)
    ensures s <= id && |s| == if |id| < 8 then |id| else 8
  {
    if |id| <= 8 then id else id[..8]
  }
}

/** The submissions table and the four handlers that change or read it:
    create, list (search, order by creation time, one page), update and
    delete by id. */
module FormController {
  import opened Strings
  import opened Json
  import opened ApiError
  import opened ErrorHandler

  /** A row of `submissions(id TEXT PRIMARY KEY, data TEXT, createdAt TEXT)`.
      `data` is kept as the record whose `JSON.stringify` the column holds. */
  datatype Row = Row(id: string, data: Record, createdAt: string)

  predicate HasId(rows: seq<Row>, id: string) {
    exists i :: 0 <= i < |rows| && rows[i].id == id
  }

  /** The primary key: no two rows share an id. */
  predicate DistinctIds(rows: seq<Row>) {
    forall i, j :: 0 <= i < j < |rows| ==> rows[i].id != rows[j].id
  }

  /** The body of a successful answer, sent with `success: true`. */
  datatype Reply =
    | Created(id: string, createdAt: string)
    | Message(text: string)
    | Listing(data: seq<Row>, total: nat, page: int, limit: int, totalPages: int)

  /** A handler either answers with a status code and a body or passes an
      error to the error handler. */
  datatype Outcome = Answer(statusCode: int, reply: Reply) | Raise(error: Thrown)

  /** The exception the driver throws when an INSERT repeats a primary key. */
  const PrimaryKeyViolation := Thrown(Some("SqliteError"), Some("UNIQUE constraint failed: submissions.id"),
    None, None, None, false, Some("SQLITE_CONSTRAINT_PRIMARYKEY"))

  const NotFound := FromAppError(NewAppError("No submission found with that ID", 404, None))

  // ---------------------------------------------------------------------
  // The list query

  /** `req.query`; `None` is a parameter that is not given. */
  datatype Query = Query(page: Option<string>, limit: Option<string>, sortOrder: Option<string>, search: Option<string>)

  datatype ListParams = ListParams(page: int, limit: int, ascending: bool, search: Option<string>)

  /** `parseInt(x) || fallback`: `NaN` and 0 both give the fallback. */
  function IntOr(x: Option<string>, fallback: int): (n: int)
    requires fallback != 0
    ensures n != 0
    ensures x.Some? && ParseInt(x.value).Some? && ParseInt(x.value).value != 0 ==> n == ParseInt(x.value).value
    ensures x.None? || ParseInt(x.value).None? || ParseInt(x.value) == Some(0) ==> n == fallback
  {
    if x.Some? && ParseInt(x.value).Some? && ParseInt(x.value).value != 0 then ParseInt(x.value).value else fallback
  }

  /** Lines 25-28 and 32: page and limit default to 1 and 10, the order is
      ascending only for `'asc'`, and an empty search is no search. */
  function ParseListQuery(q: Query): (p: ListParams)
    ensures p.page != 0 && p.limit != 0
    ensures p.ascending <==> q.sortOrder == Some("asc")
    ensures p.search.Some? <==> q.search.Some? && q.search.value != ""
    ensures p.search.Some? ==> p.search == q.search
  {
    ListParams(IntOr(q.page, 1), IntOr(q.limit, 10), q.sortOrder == Some("asc"),
               if q.search.Some? && q.search.value != "" then q.search else None)
  }

  /** Missing parameters, or ones that are not numbers, select page 1 of 10,
      newest first, unfiltered. */
  lemma DefaultQuery(page: Option<string>, limit: Option<string>)
    requires page.None? || ParseInt(page.value).None?
    requires limit.None? || ParseInt(limit.value).None?
    ensures ParseListQuery(Query(page, limit, None, None)) == ListParams(1, 10, false, None)
  {
  }

  /** Without a radix, `parseInt` reads `?page=0x10` as page 16. */
  lemma HexPage()
    ensures ParseListQuery(Query(Some("0x10"), None, None, None)).page == 16
  {
    ParseIntHex();
  }

  /** `WHERE data LIKE '%search%'`, read as substring search in the stored text. */
  predicate Matches(r: Row, search: Option<string>) {
    search.None? || Contains(Stringify(r.data), search.value)
  }

  /** The rows the WHERE clause keeps, in table order. */
  function Filtered(rows: seq<Row>, search: Option<string>): (r: seq<Row>)
    ensures |r| <= |rows|
    ensures forall x :: x in r <==> x in rows && Matches(x, search)
    ensures search.None? ==> r == rows
    ensures multiset(r) <= multiset(rows)
  {
    if rows == [] then []
    else
      var rest := Filtered(rows[1..], search);
      assert rows == [rows[0]] + rows[1..];
      if Matches(rows[0], search) then [rows[0]] + rest else rest
  }

  /** `ORDER BY createdAt ASC` or `DESC`: `a` may come before `b`. */
  predicate Before(a: Row, b: Row, ascending: bool) {
    if ascending then LexLe(a.createdAt, b.createdAt) else LexLe(b.createdAt, a.createdAt)
  }

  predicate Sorted(rows: seq<Row>, ascending: bool) {
    forall i, j :: 0 <= i < j < |rows| ==> Before(rows[i], rows[j], ascending)
  }

  lemma BeforeTotal(a: Row, b: Row, ascending: bool)
    ensures Before(a, b, ascending) || Before(b, a, ascending)
  {
    LexLeTotal(a.createdAt, b.createdAt);
  }

  lemma BeforeTransitive(a: Row, b: Row, c: Row, ascending: bool)
    requires Before(a, b, ascending) && Before(b, c, ascending)
    ensures Before(a, c, ascending)
  {
    if ascending {
      LexLeTransitive(a.createdAt, b.createdAt, c.createdAt);
    } else {
      LexLeTransitive(c.createdAt, b.createdAt, a.createdAt);
    }
  }

  /** A row that goes before every row of a sorted run can head it. */
  lemma SortedCons(x: Row, rows: seq<Row>, ascending: bool)
    requires Sorted(rows, ascending)
    requires forall y :: y in rows ==> Before(x, y, ascending)
    ensures Sorted([x] + rows, ascending)
  {
    var r := [x] + rows;
    forall i, j | 0 <= i < j < |r| ensures Before(r[i], r[j], ascending) {
      assert r[j] == rows[j - 1];
      if i == 0 {
        assert rows[j - 1] in rows;
      } else {
        assert r[i] == rows[i - 1];
      }
    }
  }

  /** The head of a sorted run goes before the rest of it. */
  lemma SortedHead(rows: seq<Row>, ascending: bool)
    requires Sorted(rows, ascending) && rows != []
    ensures Sorted(rows[1..], ascending)
    ensures forall y :: y in rows[1..] ==> Before(rows[0], y, ascending)
  {
    forall y | y in rows[1..] ensures Before(rows[0], y, ascending) {
      var j :| 0 <= j < |rows[1..]| && rows[1..][j] == y;
      assert rows[j + 1] == y;
    }
  }

  function Insert(x: Row, rows: seq<Row>, ascending: bool): (r: seq<Row>)
    requires Sorted(rows, ascending)
    ensures Sorted(r, ascending)
    ensures multiset(r) == multiset(rows) + multiset{x}
  {
    if rows == [] then [x]
    else if Before(x, rows[0], ascending) then
      SortedHead(rows, ascending);
      forall y | y in rows ensures Before(x, y, ascending) {
        if y != rows[0] {
          assert rows == [rows[0]] + rows[1..];
          BeforeTransitive(x, rows[0], y, ascending);
        }
      }
      SortedCons(x, rows, ascending);
      [x] + rows
    else
      SortedHead(rows, ascending);
      var rest := Insert(x, rows[1..], ascending);
      BeforeTotal(x, rows[0], ascending);
      forall y | y in rest ensures Before(rows[0], y, ascending) {
        assert y in multiset(rest);
      }
      SortedCons(rows[0], rest, ascending);
      assert rows == [rows[0]] + rows[1..];
      [rows[0]] + rest
  }

  /** The rows in the order the query asks for. SQL leaves the order of
      equal timestamps open; this is one admissible order. */
  function Ordered(rows: seq<Row>, ascending: bool): (r: seq<Row>)
    ensures Sorted(r, ascending)
    ensures multiset(r) == multiset(rows)
  {
    if rows == [] then []
    else
      assert rows == [rows[0]] + rows[1..];
      Insert(rows[0], Ordered(rows[1..], ascending), ascending)
  }

  /** `LIMIT limit OFFSET offset` as SQLite reads them: a negative limit is
      no limit and a negative offset is 0. */
  function Window(rows: seq<Row>, limit: int, offset: int): seq<Row> {
    var start := if offset < 0 then 0 else if offset > |rows| then |rows| else offset;
    var stop := if limit < 0 || start + limit > |rows| then |rows| else start + limit;
    rows[start..stop]
  }

  /** A window is a run of consecutive rows: it keeps their order and holds
      nothing else. */
  lemma WindowIsSlice(rows: seq<Row>, limit: int, offset: int, ascending: bool)
    ensures forall x :: x in Window(rows, limit, offset) ==> x in rows
    ensures limit >= 0 ==> |Window(rows, limit, offset)| <= limit
    ensures Sorted(rows, ascending) ==> Sorted(Window(rows, limit, offset), ascending)
  {
    var start := if offset < 0 then 0 else if offset > |rows| then |rows| else offset;
    var w := Window(rows, limit, offset);
    assert forall i :: 0 <= i < |w| ==> w[i] == rows[start + i];
  }

  /** `Math.ceil(total / limit)`. */
  function TotalPages(total: nat, limit: int): (n: int)
    requires limit != 0
    ensures limit > 0 ==> (n - 1) * limit < total <= n * limit
    ensures limit < 0 ==> n * limit <= total < (n - 1) * limit
  {
    if limit > 0 then (total + limit - 1) / limit else -(total / -limit)
  }

  /** The rows of the pages 1 to `n`, one after the other. */
  function PagesUpTo(rows: seq<Row>, limit: int, n: nat): seq<Row>
    requires limit > 0
  {
    if n == 0 then [] else PagesUpTo(rows, limit, n - 1) + Window(rows, limit, (n - 1) * limit)
  }

  lemma {:induction false} PagesUpToPrefix(rows: seq<Row>, limit: int, n: nat)
    requires limit > 0
    ensures PagesUpTo(rows, limit, n) == rows[..if n * limit < |rows| then n * limit else |rows|]
  {
    if n > 0 {
      PagesUpToPrefix(rows, limit, n - 1);
      var offset := (n - 1) * limit;
      PageOffset(n, limit);
      var a := if offset < |rows| then offset else |rows|;
      var b := if offset + limit < |rows| then offset + limit else |rows|;
      PrefixThenSlice(rows, a, b);
    }
  }

  lemma PageOffset(n: nat, limit: int)
    requires n > 0 && limit > 0
    ensures (n - 1) * limit >= 0 && (n - 1) * limit + limit == n * limit
  {
  }

  lemma PrefixThenSlice<T>(xs: seq<T>, a: nat, b: nat)
    requires a <= b <= |xs|
    ensures xs[..a] + xs[a..b] == xs[..b]
  {
  }

  /** With a positive limit the pages 1 to `totalPages` hold every row once,
      in order, and every page after them is empty. */
  lemma PagesCoverRows(rows: seq<Row>, limit: int, page: int)
    requires limit > 0 && page > TotalPages(|rows|, limit)
    ensures PagesUpTo(rows, limit, TotalPages(|rows|, limit)) == rows
    ensures Window(rows, limit, (page - 1) * limit) == []
  {
    var n := TotalPages(|rows|, limit);
    assert n >= 0;
    PagesUpToPrefix(rows, limit, n);
    assert |rows| <= n * limit;
    assert rows[..|rows|] == rows;
    assert n <= page - 1;
    MulMonotone(n, page - 1, limit);
  }

  lemma MulMonotone(a: int, b: int, c: int)
    requires a <= b && c > 0
    ensures a * c <= b * c
  {
  }

  /** A page before the last is full; the last holds what is left over. */
  lemma PageSizes(rows: seq<Row>, limit: int, page: int)
    requires limit > 0 && 1 <= page <= TotalPages(|rows|, limit)
    ensures page < TotalPages(|rows|, limit) ==> |Window(rows, limit, (page - 1) * limit)| == limit
    ensures page == TotalPages(|rows|, limit) ==> |Window(rows, limit, (page - 1) * limit)| == |rows| - (page - 1) * limit > 0
  {
    var n := TotalPages(|rows|, limit);
    assert (page - 1) * limit + limit == page * limit;
    if page < n {
      assert page * limit <= (n - 1) * limit;
    }
  }

  /** 15 rows at 10 per page make 2 pages, and page 2 holds 5 rows. */
  lemma FifteenRowsTwoPages(rows: seq<Row>)
    requires |rows| == 15
    ensures TotalPages(|rows|, 10) == 2
    ensures |Window(rows, 10, (2 - 1) * 10)| == 5
  {
  }

  /** A negative limit lifts the limit: page 1 and every later page (whose
      offset is negative) return all rows. */
  lemma NegativeLimit(rows: seq<Row>, limit: int, page: int)
    requires limit < 0 && page >= 1
    ensures Window(rows, limit, (page - 1) * limit) == rows
  {
    assert (page - 1) * limit <= 0;
  }

  /** A row holding a search string among its values (without characters
      that serialisation escapes) is among the rows the search keeps. */
  lemma SearchFindsValue(rows: seq<Row>, i: nat, key: string, s: string)
    requires i < |rows| && Get(rows[i].data, key) == Some(Str(s))
    requires forall c :: 0 <= c < |s| ==> Plain(s[c])
    ensures rows[i] in Filtered(rows, Some(s))
  {
    StringifyContainsPlainValue(rows[i].data, key, s);
  }

  // ---------------------------------------------------------------------
  // UPDATE and DELETE as operations on the row sequence

  /** `UPDATE submissions SET data = ? WHERE id = ?`. */
  function UpdateRows(rows: seq<Row>, id: string, data: Record): (r: seq<Row>)
    ensures |r| == |rows|
    ensures forall i :: 0 <= i < |rows| ==>
              r[i] == if rows[i].id == id then rows[i].(data := data) else rows[i]
  {
    seq(|rows|, i requires 0 <= i < |rows| => if rows[i].id == id then rows[i].(data := data) else rows[i])
  }

  /** `DELETE FROM submissions WHERE id = ?`. */
  function DeleteRows(rows: seq<Row>, id: string): (r: seq<Row>)
    ensures forall x :: x in r <==> x in rows && x.id != id
    ensures !HasId(rows, id) ==> r == rows
    ensures |r| <= |rows|
  {
    if rows == [] then []
    else
      var rest := DeleteRows(rows[1..], id);
      assert rows == [rows[0]] + rows[1..];
      assert !HasId(rows, id) ==> !HasId(rows[1..], id) by {
        if HasId(rows[1..], id) {
          var i :| 0 <= i < |rows[1..]| && rows[1..][i].id == id;
          assert rows[i + 1].id == id;
        }
      }
      if rows[0].id == id then rest else [rows[0]] + rest
  }

  /** With distinct ids, deleting an existing id removes exactly that row and
      keeps the others in order. */
  lemma {:induction false} DeleteRowsAt(rows: seq<Row>, k: nat)
    requires DistinctIds(rows) && k < |rows|
    ensures DeleteRows(rows, rows[k].id) == rows[..k] + rows[k + 1..]
  {
    if k == 0 {
      DeleteRowsFirst(rows);
    } else {
      DistinctIdsTail(rows);
      DeleteRowsAt(rows[1..], k - 1);
      assert rows[1..][k - 1] == rows[k];
      DeleteRowsLater(rows, k);
    }
  }

  /** Deleting the first row's id leaves the rest when ids are distinct. */
  lemma DeleteRowsFirst(rows: seq<Row>)
    requires DistinctIds(rows) && rows != []
    ensures DeleteRows(rows, rows[0].id) == rows[1..]
  {
    var id := rows[0].id;
    forall i | 0 <= i < |rows[1..]| ensures rows[1..][i].id != id {
      assert rows[1..][i] == rows[i + 1];
    }
    assert !HasId(rows[1..], id);
  }

  /** One step of the induction: a later row's deletion keeps the first. */
  lemma DeleteRowsLater(rows: seq<Row>, k: nat)
    requires 0 < k < |rows| && rows[0].id != rows[k].id
    requires DeleteRows(rows[1..], rows[k].id) == rows[1..][..k - 1] + rows[1..][k..]
    ensures DeleteRows(rows, rows[k].id) == rows[..k] + rows[k + 1..]
  {
    SliceAround(rows, k);
  }

  lemma SliceAround<T>(xs: seq<T>, k: nat)
    requires 0 < k < |xs|
    ensures xs[..k] + xs[k + 1..] == [xs[0]] + (xs[1..][..k - 1] + xs[1..][k..])
  {
    var tail := xs[1..];
    assert tail[..k - 1] == xs[1..k];
    assert tail[k..] == xs[k + 1..];
    assert xs[..k] == [xs[0]] + xs[1..k];
  }

  lemma DistinctIdsTail(rows: seq<Row>)
    requires DistinctIds(rows) && rows != []
    ensures DistinctIds(rows[1..])
  {
    forall i, j | 0 <= i < j < |rows[1..]| ensures rows[1..][i].id != rows[1..][j].id {
      assert rows[1..][i] == rows[i + 1] && rows[1..][j] == rows[j + 1];
    }
  }

  lemma DistinctIdsSubsequence(rows: seq<Row>, k: nat)
    requires DistinctIds(rows) && k < |rows|
    ensures DistinctIds(rows[..k] + rows[k + 1..])
  {
    var r := rows[..k] + rows[k + 1..];
    forall i, j | 0 <= i < j < |r| ensures r[i].id != r[j].id {
      var i' := if i < k then i else i + 1;
      var j' := if j < k then j else j + 1;
      assert r[i] == rows[i'] && r[j] == rows[j'];
    }
  }

  // ---------------------------------------------------------------------
  // The table

  class SubmissionStore {
    var rows: seq<Row>

    ghost predicate Valid()
      reads this
    {
      DistinctIds(rows)
    }

    constructor()
      ensures rows == [] && Valid()
    {
      rows := [];
    }

    /** `submitForm`: insert a row under the fresh id and timestamp the
        caller drew, and answer 201 with them. A repeated id violates the
        primary key, leaves the table as it was and raises the driver's error. */
    method Create(id: string, data: Record, createdAt: string) returns (o: Outcome)
      requires Valid()
      modifies this
      ensures Valid()
      ensures !HasId(old(rows), id) ==> rows == old(rows) + [Row(id, data, createdAt)] && o == Answer(201, Created(id, createdAt))
      ensures HasId(old(rows), id) ==> rows == old(rows) && o == Raise(PrimaryKeyViolation)
    {
      if HasId(rows, id) {
        return Raise(PrimaryKeyViolation);
      }
      rows := rows + [Row(id, data, createdAt)];
      o := Answer(201, Created(id, createdAt));
    }

    /** `getSubmissions`: count the matching rows and fetch one page of
        them, in the requested order. */
    method List(q: Query) returns (o: Outcome)
      ensures var p := ParseListQuery(q);
              var matching := Filtered(rows, p.search);
              o == Answer(200, Listing(Window(Ordered(matching, p.ascending), p.limit, (p.page - 1) * p.limit),
                                       |matching|, p.page, p.limit, TotalPages(|matching|, p.limit)))
      ensures o.Answer? && o.reply.Listing?
      ensures forall x :: x in o.reply.data ==> x in rows && Matches(x, ParseListQuery(q).search)
      ensures Sorted(o.reply.data, ParseListQuery(q).ascending)
    {
      var p := ParseListQuery(q);
      var matching := Filtered(rows, p.search);
      var total := |matching|;
      var ordered := Ordered(matching, p.ascending);
      var offset := (p.page - 1) * p.limit;
      var page := Window(ordered, p.limit, offset);
      WindowIsSlice(ordered, p.limit, offset, p.ascending);
      forall x | x in page ensures x in rows && Matches(x, p.search) {
        assert x in multiset(ordered);
      }
      o := Answer(200, Listing(page, total, p.page, p.limit, TotalPages(total, p.limit)));
    }

    /** `updateSubmission`: replace the data of the row with that id, keeping
        its id and timestamp; 404 when there is none. */
    method Update(id: string, data: Record) returns (o: Outcome)
      requires Valid()
      modifies this
      ensures Valid()
      ensures rows == UpdateRows(old(rows), id, data)
      ensures HasId(old(rows), id) ==> o == Answer(200, Message("Updated successfully"))
      ensures !HasId(old(rows), id) ==> rows == old(rows) && o == Raise(NotFound)
    {
      var changed := HasId(rows, id);
      rows := UpdateRows(rows, id, data);
      assert forall i, j :: 0 <= i < j < |rows| ==> rows[i].id == old(rows)[i].id && rows[j].id == old(rows)[j].id;
      if !changed {
        assert rows == old(rows);
        return Raise(NotFound);
      }
      o := Answer(200, Message("Updated successfully"));
    }

    /** `deleteSubmission`: remove the row with that id; 404 when there is none. */
    method Delete(id: string) returns (o: Outcome)
      requires Valid()
      modifies this
      ensures Valid()
      ensures rows == DeleteRows(old(rows), id)
      ensures HasId(old(rows), id) ==> exists k :: 0 <= k < |old(rows)| && old(rows)[k].id == id
                                        && rows == old(rows)[..k] + old(rows)[k + 1..]
      ensures HasId(old(rows), id) ==> o == Answer(200, Message("Deleted successfully"))
      ensures !HasId(old(rows), id) ==> rows == old(rows) && o == Raise(NotFound)
    {
      if !HasId(rows, id) {
        return Raise(NotFound);
      }
      var k :| 0 <= k < |rows| && rows[k].id == id;
      DeleteRowsAt(rows, k);
      DistinctIdsSubsequence(rows, k);
      rows := DeleteRows(rows, id);
      o := Answer(200, Message("Deleted successfully"));
    }
  }
}

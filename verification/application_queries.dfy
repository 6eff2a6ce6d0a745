/** The read-only queries of backend/src/routes/application.ts over the
    application table: the owner-scoped filter that every `find` and
    `countDocuments` uses, the sort/skip/limit of the list route with its
    pagination block, and the statistics of /stats/overview. */
module ApplicationQueries {
  import opened Wrappers
  import opened JobApplication
  import Text

  /** The application collection: record id to record. */
  type Table = map<nat, Application>

  /** Every record is stored under its own id. */
  predicate IdsConsistent(table: Table) {
    forall k :: k in table ==> table[k].id == k
  }

  /** ... and every id is below the next id to be handed out. */
  predicate WellKeyed(table: Table, bound: nat) {
    forall k :: k in table ==> k < bound && table[k].id == k
  }

  // ------------------------------------------------------------- filtering

  /** `{ userId }` plus `status` when the query's status is truthy. */
  predicate MatchesFilter(a: Application, caller: nat, status: Option<string>)
    ensures MatchesFilter(a, caller, status) <==>
              a.userId == caller && (status.None? || status.value == "" || ParseStatus(status.value) == Some(a.status))
  {
    EnumNamesRoundTrip(a.status, Medium);
    a.userId == caller && (status.None? || status.value == "" || StatusName(a.status) == status.value)
  }

  /** The ids the database matches for a filter. */
  function MatchingIds(table: Table, caller: nat, status: Option<string>): set<nat> {
    set k | k in table && MatchesFilter(table[k], caller, status)
  }

  /** `a` is the stored record of one of the caller's matching ids. */
  predicate Listed(a: Application, table: Table, caller: nat, status: Option<string>) {
    a.id in MatchingIds(table, caller, status) && table[a.id] == a && a.userId == caller
  }

  /** The matching records with id below `n`, in ascending id order. */
  function RowsBelow(table: Table, caller: nat, status: Option<string>, n: nat): seq<Application> {
    if n == 0 then []
    else
      RowsBelow(table, caller, status, n - 1) +
      (if n - 1 in table && MatchesFilter(table[n - 1], caller, status) then [table[n - 1]] else [])
  }

  /** Each row is a matching stored record below `n`, and the ids ascend. */
  predicate SoundRows(r: seq<Application>, table: Table, caller: nat, status: Option<string>, n: nat) {
    && (forall i :: 0 <= i < |r| ==>
          r[i].id < n && r[i].id in table && table[r[i].id] == r[i] && MatchesFilter(r[i], caller, status))
    && (forall i, j :: 0 <= i < j < |r| ==> r[i].id < r[j].id)
  }

  lemma {:induction false} RowsBelowSound(table: Table, caller: nat, status: Option<string>, n: nat)
    requires IdsConsistent(table)
    ensures SoundRows(RowsBelow(table, caller, status, n), table, caller, status, n)
  {
    if n > 0 {
      RowsBelowSound(table, caller, status, n - 1);
      var prev := RowsBelow(table, caller, status, n - 1);
      assert SoundRows(prev, table, caller, status, n - 1);
      var ext := if n - 1 in table && MatchesFilter(table[n - 1], caller, status) then [table[n - 1]] else [];
      var r := prev + ext;
      assert r == RowsBelow(table, caller, status, n);
      forall i | 0 <= i < |r|
        ensures r[i].id < n && r[i].id in table && table[r[i].id] == r[i] && MatchesFilter(r[i], caller, status)
      {
        if i < |prev| { assert r[i] == prev[i]; } else { assert r[i] == table[n - 1]; }
      }
      forall i, j | 0 <= i < j < |r| ensures r[i].id < r[j].id {
        if j < |prev| {
          assert r[i] == prev[i] && r[j] == prev[j];
        } else {
          assert r[i] == prev[i] && r[j] == table[n - 1];
        }
      }
    }
  }

  /** Every matching record with id below `n` is among the rows. */
  lemma {:induction false} RowsBelowComplete(table: Table, caller: nat, status: Option<string>, n: nat, k: nat)
    requires k in table && k < n && MatchesFilter(table[k], caller, status)
    ensures table[k] in RowsBelow(table, caller, status, n)
  {
    if k < n - 1 {
      RowsBelowComplete(table, caller, status, n - 1, k);
    }
  }

  /** The ids below `n` that match. */
  function MatchingBelow(table: Table, caller: nat, status: Option<string>, n: nat): set<nat> {
    set k | k in table && k < n && MatchesFilter(table[k], caller, status)
  }

  lemma MatchingBelowStep(table: Table, caller: nat, status: Option<string>, n: nat)
    requires n > 0
    ensures n - 1 in table && MatchesFilter(table[n - 1], caller, status) ==>
              MatchingBelow(table, caller, status, n) == MatchingBelow(table, caller, status, n - 1) + {n - 1}
    ensures !(n - 1 in table && MatchesFilter(table[n - 1], caller, status)) ==>
              MatchingBelow(table, caller, status, n) == MatchingBelow(table, caller, status, n - 1)
  {
  }

  /** The number of rows is the number of matching ids: `countDocuments`. */
  lemma {:induction false} RowsBelowCount(table: Table, caller: nat, status: Option<string>, n: nat)
    ensures |RowsBelow(table, caller, status, n)| == |MatchingBelow(table, caller, status, n)|
  {
    if n > 0 {
      RowsBelowCount(table, caller, status, n - 1);
      MatchingBelowStep(table, caller, status, n);
    } else {
      assert MatchingBelow(table, caller, status, n) == {};
    }
  }

  /** The rows of the whole table that match, in ascending id order. */
  function Rows(table: Table, bound: nat, caller: nat, status: Option<string>): (r: seq<Application>)
    requires WellKeyed(table, bound)
    ensures |r| == |MatchingIds(table, caller, status)|
    ensures forall i :: 0 <= i < |r| ==> r[i].id in MatchingIds(table, caller, status) && table[r[i].id] == r[i]
    ensures forall i, j :: 0 <= i < j < |r| ==> r[i].id < r[j].id
  {
    RowsBelowCount(table, caller, status, bound);
    RowsBelowSound(table, caller, status, bound);
    assert MatchingBelow(table, caller, status, bound) == MatchingIds(table, caller, status);
    RowsBelow(table, caller, status, bound)
  }

  /** Every matching record is among the rows. */
  lemma RowsComplete(table: Table, bound: nat, caller: nat, status: Option<string>, k: nat)
    requires WellKeyed(table, bound)
    requires k in MatchingIds(table, caller, status)
    ensures table[k] in Rows(table, bound, caller, status)
  {
    RowsBelowComplete(table, caller, status, bound, k);
  }

  // --------------------------------------------------------------- sorting

  /** A field's value as the database compares it when sorting: missing
      values first, then numbers, then strings, then dates. */
  datatype SortValue = Absent | Num(n: int) | Str(s: string) | Time(y: int, m: int, d: int)

  function OptText(v: Option<string>): SortValue {
    if v.Some? then Str(v.value) else Absent
  }

  function OptDate(v: Option<Date>): SortValue {
    if v.Some? then Time(v.value.year, v.value.month, v.value.day) else Absent
  }

  /** The scalar paths of the schema a list can be sorted by. */
  const SortableFields: set<string> :=
    {"_id", "jobTitle", "company", "status", "priority", "jobDescription", "applicationUrl", "location",
     "jobType", "source", "notes", "appliedDate", "deadline", "createdAt", "updatedAt"}

  /** The sortable paths every stored record holds a value for. */
  const AlwaysSetFields: set<string> :=
    {"_id", "jobTitle", "company", "status", "priority", "createdAt", "updatedAt"}

  /** The value of the field named by `sortBy`. Names that are not a scalar
      field of the schema behave as a field that every record lacks. */
  function SortValueOf(a: Application, field: string): (r: SortValue)
    ensures field !in SortableFields ==> r == Absent
    ensures field in AlwaysSetFields ==> !r.Absent?
    ensures field == "status" ==> r == Str(StatusName(a.status))
    ensures field == "appliedDate" ==> (r.Absent? <==> a.appliedDate.None?)
    ensures field == "deadline" ==> (r.Absent? <==> a.deadline.None?)
  {
    if field == "_id" then Num(a.id)
    else if field == "jobTitle" then Str(a.jobTitle)
    else if field == "company" then Str(a.company)
    else if field == "status" then Str(StatusName(a.status))
    else if field == "priority" then Str(PriorityName(a.priority))
    else if field == "jobDescription" then OptText(a.jobDescription)
    else if field == "applicationUrl" then OptText(a.applicationUrl)
    else if field == "location" then OptText(a.location)
    else if field == "jobType" then OptText(a.jobType)
    else if field == "source" then OptText(a.source)
    else if field == "notes" then OptText(a.notes)
    else if field == "appliedDate" then OptDate(a.appliedDate)
    else if field == "deadline" then OptDate(a.deadline)
    else if field == "createdAt" then Time(a.createdAt, 0, 0)
    else if field == "updatedAt" then Time(a.updatedAt, 0, 0)
    else Absent
  }

  function TypeRank(v: SortValue): int {
    match v
    case Absent => 0
    case Num(_) => 1
    case Str(_) => 2
    case Time(_, _, _) => 3
  }

  function IntCmp(x: int, y: int): int {
    if x < y then -1 else if y < x then 1 else 0
  }

  /** Three-way comparison of sort values. */
  function CompareValues(x: SortValue, y: SortValue): (r: int)
    ensures -1 <= r <= 1
    ensures TypeRank(x) < TypeRank(y) ==> r < 0
    ensures x.Num? && y.Num? ==> (r < 0 <==> x.n < y.n)
    ensures x.Time? && y.Time? ==> (r < 0 <==> x.y < y.y || (x.y == y.y && (x.m < y.m || (x.m == y.m && x.d < y.d))))
  {
    if TypeRank(x) != TypeRank(y) then IntCmp(TypeRank(x), TypeRank(y))
    else match x
      case Absent => 0
      case Num(n) => IntCmp(n, y.n)
      case Str(s) => Text.StrCmp(s, y.s)
      case Time(a, b, c) =>
        if a != y.y then IntCmp(a, y.y) else if b != y.m then IntCmp(b, y.m) else IntCmp(c, y.d)
  }

  lemma CompareAntisymmetric(x: SortValue, y: SortValue)
    ensures CompareValues(x, y) == -CompareValues(y, x)
  {
    if TypeRank(x) == TypeRank(y) && x.Str? {
      Text.StrCmpAntisymmetric(x.s, y.s);
    }
  }

  lemma CompareTransitive(x: SortValue, y: SortValue, z: SortValue)
    requires CompareValues(x, y) <= 0 && CompareValues(y, z) <= 0
    ensures CompareValues(x, z) <= 0
  {
    if TypeRank(x) == TypeRank(y) == TypeRank(z) && x.Str? {
      Text.StrCmpTransitive(x.s, y.s, z.s);
    }
  }

  lemma CompareZero(x: SortValue, y: SortValue)
    ensures CompareValues(x, y) == 0 <==> x == y
  {
    if TypeRank(x) == TypeRank(y) && x.Str? {
      Text.StrCmpZero(x.s, y.s);
    }
  }

  /** The order of the list route: by the sort field, reversed when
      descending, with ties in ascending id order (the database leaves the
      order of ties unspecified; this model fixes one). */
  predicate Precedes(a: Application, b: Application, field: string, desc: bool) {
    var c := CompareValues(SortValueOf(a, field), SortValueOf(b, field));
    var d := if desc then -c else c;
    d < 0 || (d == 0 && a.id < b.id)
  }

  predicate NotAfter(a: Application, b: Application, field: string, desc: bool) {
    !Precedes(b, a, field, desc)
  }

  lemma PrecedesAsymmetric(a: Application, b: Application, field: string, desc: bool)
    ensures !(Precedes(a, b, field, desc) && Precedes(b, a, field, desc))
  {
    CompareAntisymmetric(SortValueOf(a, field), SortValueOf(b, field));
  }

  lemma NotAfterTransitive(a: Application, b: Application, c: Application, field: string, desc: bool)
    requires NotAfter(a, b, field, desc) && NotAfter(b, c, field, desc)
    ensures NotAfter(a, c, field, desc)
  {
    var va, vb, vc := SortValueOf(a, field), SortValueOf(b, field), SortValueOf(c, field);
    CompareAntisymmetric(va, vb);
    CompareAntisymmetric(vb, vc);
    CompareAntisymmetric(va, vc);
    CompareAntisymmetric(vc, va);
    CompareZero(va, vb);
    CompareZero(vb, vc);
    CompareZero(va, vc);
    if desc {
      // b's value is at most a's, and c's at most b's
      assert CompareValues(vb, va) <= 0 && CompareValues(vc, vb) <= 0;
      CompareTransitive(vc, vb, va);
    } else {
      assert CompareValues(va, vb) <= 0 && CompareValues(vb, vc) <= 0;
      CompareTransitive(va, vb, vc);
    }
  }

  predicate Sorted(s: seq<Application>, field: string, desc: bool) {
    forall i, j :: 0 <= i < j < |s| ==> NotAfter(s[i], s[j], field, desc)
  }

  function Insert(x: Application, s: seq<Application>, field: string, desc: bool): (r: seq<Application>)
    ensures multiset(r) == multiset(s) + multiset{x}
  {
    if s == [] then [x]
    else if Precedes(s[0], x, field, desc) then
      assert s == [s[0]] + s[1..];
      [s[0]] + Insert(x, s[1..], field, desc)
    else [x] + s
  }

  lemma {:induction false} InsertSorted(x: Application, s: seq<Application>, field: string, desc: bool)
    requires Sorted(s, field, desc)
    ensures Sorted(Insert(x, s, field, desc), field, desc)
  {
    var r := Insert(x, s, field, desc);
    if s == [] {
    } else if Precedes(s[0], x, field, desc) {
      InsertSorted(x, s[1..], field, desc);
      var tail := Insert(x, s[1..], field, desc);
      PrecedesAsymmetric(s[0], x, field, desc);
      forall j | 0 <= j < |tail| ensures NotAfter(s[0], tail[j], field, desc) {
        assert tail[j] in multiset(tail);
        if tail[j] != x {
          assert tail[j] in multiset(s[1..]);
          var k :| 0 <= k < |s[1..]| && s[1..][k] == tail[j];
          assert s[k + 1] == tail[j];
        }
      }
      assert r == [s[0]] + tail;
    } else {
      forall j | 0 <= j < |s| ensures NotAfter(x, s[j], field, desc) {
        if j > 0 {
          NotAfterTransitive(x, s[0], s[j], field, desc);
        }
      }
      assert r == [x] + s;
    }
  }

  /** The records in the list route's order. */
  function SortRows(s: seq<Application>, field: string, desc: bool): (r: seq<Application>)
    ensures multiset(r) == multiset(s)
    ensures |r| == |s|
    ensures Sorted(r, field, desc)
  {
    if s == [] then []
    else
      var rest := SortRows(s[1..], field, desc);
      InsertSorted(s[0], rest, field, desc);
      assert s == [s[0]] + s[1..];
      Insert(s[0], rest, field, desc)
  }

  // ------------------------------------------------------------ pagination

  function Min(x: int, y: int): int {
    if x <= y then x else y
  }

  /** `Math.ceil(total / limit)` for a positive limit. */
  function CeilDiv(total: nat, limit: nat): (pages: nat)
    requires limit >= 1
    ensures pages * limit >= total
    ensures pages > 0 ==> (pages - 1) * limit < total
    ensures pages == 0 <==> total == 0
  {
    var q := (total + limit - 1) / limit;
    var rem := (total + limit - 1) % limit;
    assert total + limit - 1 == q * limit + rem;
    assert q > 0 ==> (q - 1) * limit == q * limit - limit;
    q
  }

  /** The number of records that page `page` skips. */
  function Skip(page: int, limit: int): nat
    requires page >= 1 && limit >= 1
  {
    (page - 1) * limit
  }

  /** `.skip((page - 1) * limit).limit(limit)` on an ordered result. */
  function Window(s: seq<Application>, page: int, limit: int): (r: seq<Application>)
    requires page >= 1 && limit >= 1
    ensures |r| <= limit
    ensures r == s[Min(Skip(page, limit), |s|)..Min(Skip(page, limit) + limit, |s|)]
  {
    s[Min(Skip(page, limit), |s|)..Min(Skip(page, limit) + limit, |s|)]
  }

  /** Pages 1 to `p`, read one after another. */
  function PagesUpTo(s: seq<Application>, limit: int, p: nat): seq<Application>
    requires limit >= 1
  {
    if p == 0 then [] else PagesUpTo(s, limit, p - 1) + Window(s, p, limit)
  }

  /** Reading pages 1 to `p` in order yields the first `p * limit` records
      exactly once each. */
  lemma {:induction false} PagesTile(s: seq<Application>, limit: int, p: nat)
    requires limit >= 1
    ensures PagesUpTo(s, limit, p) == s[..Min(p * limit, |s|)]
  {
    if p > 0 {
      PagesTile(s, limit, p - 1);
      assert (p - 1) * limit + limit == p * limit;
      assert (p - 1) * limit >= 0;
      var a := Min((p - 1) * limit, |s|);
      var b := Min(p * limit, |s|);
      assert a <= b;
      assert s[..a] + s[a..b] == s[..b];
    }
  }

  /** Reading every page that the pagination block announces yields the
      whole ordered result, and the next page is empty. */
  lemma AllPagesCoverResult(s: seq<Application>, limit: int)
    requires limit >= 1
    ensures PagesUpTo(s, limit, CeilDiv(|s|, limit)) == s
    ensures Window(s, CeilDiv(|s|, limit) + 1, limit) == []
  {
    var p := CeilDiv(|s|, limit);
    PagesTile(s, limit, p);
    assert s[..|s|] == s;
  }

  // ------------------------------------------------------------- list route

  /** The query string with the route's defaults applied. */
  datatype RawQuery = RawQuery(status: Option<string>, page: Option<int>, limit: Option<int>, sortBy: Option<string>, sortOrder: Option<string>)
  datatype ListQuery = ListQuery(status: Option<string>, page: int, limit: int, sortBy: string, sortOrder: string)

  function WithDefaults(q: RawQuery): (r: ListQuery)
    ensures q.page.None? ==> r.page == 1
    ensures q.limit.None? ==> r.limit == 10
    ensures q.sortBy.None? ==> r.sortBy == "updatedAt"
    ensures q.sortOrder.None? ==> r.sortOrder == "desc"
    ensures q.page.Some? ==> r.page == q.page.value
    ensures q.limit.Some? ==> r.limit == q.limit.value
    ensures q.sortBy.Some? ==> r.sortBy == q.sortBy.value
    ensures q.sortOrder.Some? ==> r.sortOrder == q.sortOrder.value
    ensures r.status == q.status
  {
    ListQuery(q.status, q.page.GetOr(1), q.limit.GetOr(10), q.sortBy.GetOr("updatedAt"), q.sortOrder.GetOr("desc"))
  }

  /** Any sort order other than "desc" sorts ascending. */
  predicate Descending(q: ListQuery) {
    q.sortOrder == "desc"
  }

  datatype Pagination = Pagination(page: int, limit: int, total: nat, pages: nat)
  datatype ListResult = ListResult(data: seq<Application>, pagination: Pagination)

  /** The ordered result of the list route before paging: the caller's
      matching records, each once, in the requested order. */
  function Ordered(table: Table, bound: nat, caller: nat, q: ListQuery): (r: seq<Application>)
    requires WellKeyed(table, bound)
    ensures |r| == |MatchingIds(table, caller, q.status)|
    ensures Sorted(r, q.sortBy, Descending(q))
    ensures multiset(r) == multiset(Rows(table, bound, caller, q.status))
    ensures forall i :: 0 <= i < |r| ==> Listed(r[i], table, caller, q.status)
  {
    var rows := Rows(table, bound, caller, q.status);
    var r := SortRows(rows, q.sortBy, Descending(q));
    forall i | 0 <= i < |r|
      ensures Listed(r[i], table, caller, q.status)
    {
      assert r[i] in multiset(r);
      assert r[i] in multiset(rows);
      var k :| 0 <= k < |rows| && rows[k] == r[i];
    }
    r
  }

  lemma SliceSorted(s: seq<Application>, lo: nat, hi: nat, field: string, desc: bool)
    requires lo <= hi <= |s| && Sorted(s, field, desc)
    ensures Sorted(s[lo..hi], field, desc)
  {
    forall i, j | 0 <= i < j < hi - lo ensures NotAfter(s[lo..hi][i], s[lo..hi][j], field, desc) {
      assert s[lo..hi][i] == s[lo + i] && s[lo..hi][j] == s[lo + j];
    }
  }

  /** GET /applications: one page of the caller's (optionally status-filtered)
      records in the requested order, and the pagination block: the total
      is the number of matching records, the page count covers it, and the
      page holds the records after the skipped ones, at most `limit`. */
  function List(table: Table, bound: nat, caller: nat, q: ListQuery): (r: ListResult)
    requires q.page >= 1 && q.limit >= 1
    requires WellKeyed(table, bound)
    ensures r.pagination.page == q.page && r.pagination.limit == q.limit
    ensures r.pagination.total == |MatchingIds(table, caller, q.status)|
    ensures r.pagination.pages == CeilDiv(r.pagination.total, q.limit)
    ensures |r.data| <= q.limit
    ensures |r.data| == if Skip(q.page, q.limit) >= r.pagination.total then 0
                        else Min(q.limit, r.pagination.total - Skip(q.page, q.limit))
    ensures r.data == Window(Ordered(table, bound, caller, q), q.page, q.limit)
  {
    var ordered := Ordered(table, bound, caller, q);
    ListResult(Window(ordered, q.page, q.limit),
               Pagination(q.page, q.limit, |ordered|, CeilDiv(|ordered|, q.limit)))
  }

  /** Every listed record is one of the caller's stored records that the
      status filter matches. */
  lemma ListPageMatches(table: Table, bound: nat, caller: nat, q: ListQuery)
    requires q.page >= 1 && q.limit >= 1
    requires WellKeyed(table, bound)
    ensures var data := List(table, bound, caller, q).data;
      forall i :: 0 <= i < |data| ==> Listed(data[i], table, caller, q.status)
  {
    var ordered := Ordered(table, bound, caller, q);
    var lo := Min(Skip(q.page, q.limit), |ordered|);
    var hi := Min(Skip(q.page, q.limit) + q.limit, |ordered|);
    SliceListed(ordered, lo, hi, table, caller, q.status);
  }

  lemma SliceListed(s: seq<Application>, lo: nat, hi: nat, table: Table, caller: nat, status: Option<string>)
    requires lo <= hi <= |s|
    requires forall i :: 0 <= i < |s| ==> Listed(s[i], table, caller, status)
    ensures forall i :: 0 <= i < hi - lo ==> Listed(s[lo..hi][i], table, caller, status)
  {
    forall i | 0 <= i < hi - lo ensures Listed(s[lo..hi][i], table, caller, status) {
      assert s[lo..hi][i] == s[lo + i];
    }
  }

  /** The page is in the requested order. */
  lemma ListPageSorted(table: Table, bound: nat, caller: nat, q: ListQuery)
    requires q.page >= 1 && q.limit >= 1
    requires WellKeyed(table, bound)
    ensures Sorted(List(table, bound, caller, q).data, q.sortBy, Descending(q))
  {
    var ordered := Ordered(table, bound, caller, q);
    var lo := Min(Skip(q.page, q.limit), |ordered|);
    var hi := Min(Skip(q.page, q.limit) + q.limit, |ordered|);
    SliceSorted(ordered, lo, hi, q.sortBy, Descending(q));
  }

  /** A caller without records gets an empty first page with total 0 and
      page count 0 under the default query. */
  lemma EmptyListing(table: Table, bound: nat, caller: nat)
    requires WellKeyed(table, bound)
    requires forall k :: k in table ==> table[k].userId != caller
    ensures List(table, bound, caller, WithDefaults(RawQuery(None, None, None, None, None))) ==
            ListResult([], Pagination(1, 10, 0, 0))
  {
    var q := WithDefaults(RawQuery(None, None, None, None, None));
    assert MatchingIds(table, caller, q.status) == {};
  }

  // ------------------------------------------------------------ statistics

  /** Number of rows with a given status. */
  function CountStatus(rows: seq<Application>, s: Status): nat {
    if rows == [] then 0 else (if rows[0].status == s then 1 else 0) + CountStatus(rows[1..], s)
  }

  datatype StatusCount = StatusCount(status: Status, count: nat)

  /** `$group` by status over the caller's records: one entry per status
      that occurs, in the order of `statuses`. */
  function Breakdown(statuses: seq<Status>, rows: seq<Application>): (r: seq<StatusCount>)
    ensures forall i :: 0 <= i < |r| ==>
              r[i].count > 0 && r[i].count == CountStatus(rows, r[i].status) && r[i].status in statuses
  {
    if statuses == [] then []
    else
      var c := CountStatus(rows, statuses[0]);
      var rest := Breakdown(statuses[1..], rows);
      assert forall s :: s in statuses[1..] ==> s in statuses;
      (if c > 0 then [StatusCount(statuses[0], c)] else []) + rest
  }

  /** Every status that occurs has an entry. */
  lemma {:induction false} BreakdownComplete(statuses: seq<Status>, rows: seq<Application>, s: Status)
    requires s in statuses && CountStatus(rows, s) > 0
    ensures exists i :: 0 <= i < |Breakdown(statuses, rows)| && Breakdown(statuses, rows)[i].status == s
  {
    var c := CountStatus(rows, statuses[0]);
    var head := if c > 0 then [StatusCount(statuses[0], c)] else [];
    var rest := Breakdown(statuses[1..], rows);
    assert Breakdown(statuses, rows) == head + rest;
    if statuses[0] == s {
      assert Breakdown(statuses, rows)[0].status == s;
    } else {
      assert s in statuses[1..];
      BreakdownComplete(statuses[1..], rows, s);
      var i :| 0 <= i < |rest| && rest[i].status == s;
      assert (head + rest)[|head| + i] == rest[i];
    }
  }

  /** No status has two entries. */
  lemma {:induction false} BreakdownDistinct(statuses: seq<Status>, rows: seq<Application>)
    requires forall i, j :: 0 <= i < j < |statuses| ==> statuses[i] != statuses[j]
    ensures forall i, j :: 0 <= i < j < |Breakdown(statuses, rows)| ==>
              Breakdown(statuses, rows)[i].status != Breakdown(statuses, rows)[j].status
  {
    if statuses != [] {
      var c := CountStatus(rows, statuses[0]);
      var rest := Breakdown(statuses[1..], rows);
      var r := Breakdown(statuses, rows);
      BreakdownDistinct(statuses[1..], rows);
      assert statuses[0] !in statuses[1..] by {
        forall j | 0 <= j < |statuses[1..]| ensures statuses[1..][j] != statuses[0] {
          assert statuses[1..][j] == statuses[j + 1];
        }
      }
      if c > 0 {
        assert r == [StatusCount(statuses[0], c)] + rest;
        forall i, j | 0 <= i < j < |r| ensures r[i].status != r[j].status {
          assert r[j] == rest[j - 1];
          if i > 0 { assert r[i] == rest[i - 1]; }
        }
      } else {
        assert r == rest;
      }
    }
  }

  function SumCounts(bd: seq<StatusCount>): nat {
    if bd == [] then 0 else bd[0].count + SumCounts(bd[1..])
  }

  function SumStatuses(statuses: seq<Status>, rows: seq<Application>): nat {
    if statuses == [] then 0 else CountStatus(rows, statuses[0]) + SumStatuses(statuses[1..], rows)
  }

  lemma {:induction false} SumCountsAppend(a: seq<StatusCount>, b: seq<StatusCount>)
    ensures SumCounts(a + b) == SumCounts(a) + SumCounts(b)
  {
    if a == [] {
      assert a + b == b;
    } else {
      assert (a + b)[0] == a[0];
      assert (a + b)[1..] == a[1..] + b;
      SumCountsAppend(a[1..], b);
    }
  }

  lemma {:induction false} BreakdownSum(statuses: seq<Status>, rows: seq<Application>)
    ensures SumCounts(Breakdown(statuses, rows)) == SumStatuses(statuses, rows)
  {
    if statuses != [] {
      var c := CountStatus(rows, statuses[0]);
      var head := if c > 0 then [StatusCount(statuses[0], c)] else [];
      BreakdownSum(statuses[1..], rows);
      SumCountsAppend(head, Breakdown(statuses[1..], rows));
      assert SumCounts(head) == c by {
        if c > 0 { assert head[1..] == []; }
      }
    }
  }

  lemma {:induction false} SumStatusesCons(statuses: seq<Status>, x: Application, rest: seq<Application>)
    ensures SumStatuses(statuses, [x] + rest) == SumStatuses(statuses, rest) + Text.Occurrences(statuses, x.status)
  {
    assert ([x] + rest)[0] == x;
    assert ([x] + rest)[1..] == rest;
    if statuses != [] {
      SumStatusesCons(statuses[1..], x, rest);
    }
  }

  lemma EveryStatusListedOnce(s: Status)
    ensures Text.Occurrences(AllStatuses, s) == 1
  {
    var ss := AllStatuses;
    assert ss[1..][1..][1..][1..][1..][1..] == [];
  }

  /** Every record has exactly one status, so the per-status counts add up
      to the number of records. */
  lemma {:induction false} StatusCountsPartition(rows: seq<Application>)
    ensures SumStatuses(AllStatuses, rows) == |rows|
  {
    if rows == [] {
      SumStatusesEmpty(AllStatuses);
    } else {
      assert [rows[0]] + rows[1..] == rows;
      StatusCountsPartition(rows[1..]);
      SumStatusesCons(AllStatuses, rows[0], rows[1..]);
      EveryStatusListedOnce(rows[0].status);
    }
  }

  lemma {:induction false} SumStatusesEmpty(statuses: seq<Status>)
    ensures SumStatuses(statuses, []) == 0
  {
    if statuses != [] {
      SumStatusesEmpty(statuses[1..]);
    }
  }

  lemma StatusNameInjective(a: Status, b: Status)
    requires StatusName(a) == StatusName(b)
    ensures a == b
  {
    EnumNamesRoundTrip(a, Low);
    EnumNamesRoundTrip(b, Low);
  }

  lemma {:induction false} CountStatusAppend(a: seq<Application>, b: seq<Application>, s: Status)
    ensures CountStatus(a + b, s) == CountStatus(a, s) + CountStatus(b, s)
  {
    if a == [] {
      assert a + b == b;
    } else {
      assert (a + b)[0] == a[0];
      assert (a + b)[1..] == a[1..] + b;
      CountStatusAppend(a[1..], b, s);
    }
  }

  /** Counting a status among the caller's records is counting the caller's
      records that the status filter matches. */
  lemma {:induction false} CountStatusIsFilteredCount(table: Table, caller: nat, s: Status, n: nat)
    ensures CountStatus(RowsBelow(table, caller, None, n), s) ==
            |RowsBelow(table, caller, Some(StatusName(s)), n)|
  {
    if n > 0 {
      CountStatusIsFilteredCount(table, caller, s, n - 1);
      var prev := RowsBelow(table, caller, None, n - 1);
      var owned := n - 1 in table && table[n - 1].userId == caller;
      var ext := if owned then [table[n - 1]] else [];
      assert RowsBelow(table, caller, None, n) == prev + ext;
      CountStatusAppend(prev, ext, s);
      if owned {
        var a := table[n - 1];
        assert ext[1..] == [];
        if StatusName(a.status) == StatusName(s) {
          StatusNameInjective(a.status, s);
        }
      }
    }
  }

  /** Year and month of a record's applied date, when it has one. */
  datatype MonthKey = MonthKey(year: int, month: int)
  datatype MonthCount = MonthCount(key: MonthKey, count: nat)

  function MonthOf(a: Application): Option<MonthKey> {
    if a.appliedDate.Some? then Some(MonthKey(a.appliedDate.value.year, a.appliedDate.value.month)) else None
  }

  predicate KeyLess(a: MonthKey, b: MonthKey) {
    a.year < b.year || (a.year == b.year && a.month < b.month)
  }

  /** `$sort: { '_id.year': 1, '_id.month': 1 }` on distinct groups. */
  predicate Ascending(b: seq<MonthCount>) {
    forall i, j :: 0 <= i < j < |b| ==> KeyLess(b[i].key, b[j].key)
  }

  predicate AllPositive(b: seq<MonthCount>) {
    forall i :: 0 <= i < |b| ==> b[i].count > 0
  }

  /** The count that a bucket list holds for a month (0 when it has none). */
  function CountOf(b: seq<MonthCount>, k: MonthKey): nat {
    if b == [] then 0 else (if b[0].key == k then b[0].count else 0) + CountOf(b[1..], k)
  }

  /** The number of rows applied in a month. */
  function DatedCount(rows: seq<Application>, k: MonthKey): nat {
    if rows == [] then 0 else (if MonthOf(rows[0]) == Some(k) then 1 else 0) + DatedCount(rows[1..], k)
  }

  /** Every key of `b` is later than `k`. */
  predicate AllAfter(b: seq<MonthCount>, k: MonthKey) {
    forall i :: 0 <= i < |b| ==> KeyLess(k, b[i].key)
  }

  /** Adds one record applied in month `k` to an ascending bucket list. */
  function AddMonth(b: seq<MonthCount>, k: MonthKey): (r: seq<MonthCount>)
    requires Ascending(b) && AllPositive(b)
    ensures Ascending(r) && AllPositive(r)
    ensures forall k' :: CountOf(r, k') == CountOf(b, k') + (if k' == k then 1 else 0)
    ensures forall k' :: AllAfter(b, k') && KeyLess(k', k) ==> AllAfter(r, k')
  {
    if b == [] then [MonthCount(k, 1)]
    else if b[0].key == k then
      var r := [b[0].(count := b[0].count + 1)] + b[1..];
      assert r[1..] == b[1..];
      r
    else if KeyLess(k, b[0].key) then
      var r := [MonthCount(k, 1)] + b;
      assert r[1..] == b;
      r
    else
      var rest := AddMonth(b[1..], k);
      assert AllAfter(b[1..], b[0].key);
      var r := [b[0]] + rest;
      assert r[1..] == rest;
      r
  }

  /** `$match` on `appliedDate` existing, `$group` by (year, month),
      `$sort` ascending: the buckets, ascending and positive, hold for each
      month the number of records applied in it. */
  function Monthly(rows: seq<Application>): (r: seq<MonthCount>)
    ensures Ascending(r) && AllPositive(r)
    ensures forall k :: CountOf(r, k) == DatedCount(rows, k)
  {
    if rows == [] then []
    else
      var rest := Monthly(rows[1..]);
      if MonthOf(rows[0]).Some? then AddMonth(rest, MonthOf(rows[0]).value) else rest
  }

  lemma {:induction false} AbsentAfter(b: seq<MonthCount>, k: MonthKey)
    requires AllAfter(b, k)
    ensures CountOf(b, k) == 0
  {
    if b != [] {
      AbsentAfter(b[1..], k);
    }
  }

  /** In an ascending bucket list each month occurs once, so its entry holds
      the month's count. */
  lemma {:induction false} EntryHoldsCount(b: seq<MonthCount>, i: nat)
    requires Ascending(b) && i < |b|
    ensures CountOf(b, b[i].key) == b[i].count
  {
    if i == 0 {
      AbsentAfter(b[1..], b[0].key);
    } else {
      assert b[0].key != b[i].key by { assert KeyLess(b[0].key, b[i].key); }
      EntryHoldsCount(b[1..], i - 1);
    }
  }

  lemma {:induction false} PositiveCountHasEntry(b: seq<MonthCount>, k: MonthKey)
    requires CountOf(b, k) > 0
    ensures exists i :: 0 <= i < |b| && b[i].key == k
  {
    if b[0].key != k {
      PositiveCountHasEntry(b[1..], k);
      var i :| 0 <= i < |b[1..]| && b[1..][i].key == k;
      assert b[i + 1].key == k;
    }
  }

  lemma {:induction false} DatedRowCounted(rows: seq<Application>, i: nat)
    requires i < |rows| && MonthOf(rows[i]).Some?
    ensures DatedCount(rows, MonthOf(rows[i]).value) > 0
  {
    if i > 0 {
      DatedRowCounted(rows[1..], i - 1);
    }
  }

  datatype Summary = Summary(total: nat, applied: nat, interviews: nat, offers: nat, rejected: nat)
  datatype Stats = Stats(summary: Summary, statusBreakdown: seq<StatusCount>, monthlyApplications: seq<MonthCount>)

  /** `countDocuments({ userId, status })`. */
  function CountWithStatus(table: Table, bound: nat, caller: nat, s: Status): (n: nat)
    requires WellKeyed(table, bound)
    ensures n == |MatchingIds(table, caller, Some(StatusName(s)))|
  {
    |Rows(table, bound, caller, Some(StatusName(s)))|
  }

  /** GET /applications/stats/overview: the summary counts are the sizes of
      the caller's records and of its applied, interview, offer and rejected
      records. */
  function Overview(table: Table, bound: nat, caller: nat): (r: Stats)
    requires WellKeyed(table, bound)
    ensures r.summary.total == |MatchingIds(table, caller, None)|
    ensures r.summary.applied == |MatchingIds(table, caller, Some("applied"))|
    ensures r.summary.interviews == |MatchingIds(table, caller, Some("interview"))|
    ensures r.summary.offers == |MatchingIds(table, caller, Some("offer"))|
    ensures r.summary.rejected == |MatchingIds(table, caller, Some("rejected"))|
  {
    var rows := Rows(table, bound, caller, None);
    Stats(
      Summary(|rows|,
              CountWithStatus(table, bound, caller, Applied),
              CountWithStatus(table, bound, caller, Interview),
              CountWithStatus(table, bound, caller, Offer),
              CountWithStatus(table, bound, caller, Rejected)),
      Breakdown(AllStatuses, rows), Monthly(rows))
  }

  /** A status's count within the caller's records is that status's
      `countDocuments`. */
  lemma StatusCountIsFiltered(table: Table, bound: nat, caller: nat, s: Status)
    requires WellKeyed(table, bound)
    ensures CountStatus(Rows(table, bound, caller, None), s) == |MatchingIds(table, caller, Some(StatusName(s)))|
  {
    CountStatusIsFilteredCount(table, caller, s, bound);
    RowsBelowCount(table, caller, Some(StatusName(s)), bound);
    assert MatchingBelow(table, caller, Some(StatusName(s)), bound) == MatchingIds(table, caller, Some(StatusName(s)));
  }

  /** The status breakdown partitions the caller's records: each entry is
      positive and equal to that status's `countDocuments`, and the counts
      add up to the total. */
  lemma OverviewBreakdown(table: Table, bound: nat, caller: nat)
    requires WellKeyed(table, bound)
    ensures var r := Overview(table, bound, caller);
      && SumCounts(r.statusBreakdown) == r.summary.total
      && (forall i :: 0 <= i < |r.statusBreakdown| ==>
            r.statusBreakdown[i].count > 0 &&
            r.statusBreakdown[i].count == |MatchingIds(table, caller, Some(StatusName(r.statusBreakdown[i].status)))|)
  {
    var rows := Rows(table, bound, caller, None);
    var bd := Breakdown(AllStatuses, rows);
    assert Overview(table, bound, caller).statusBreakdown == bd;
    BreakdownSum(AllStatuses, rows);
    StatusCountsPartition(rows);
    forall i | 0 <= i < |bd|
      ensures bd[i].count == |MatchingIds(table, caller, Some(StatusName(bd[i].status)))|
    {
      StatusCountIsFiltered(table, bound, caller, bd[i].status);
    }
  }

  /** The status breakdown lists each status at most once, and every status
      the caller has a record with. */
  lemma OverviewBreakdownCovers(table: Table, bound: nat, caller: nat)
    requires WellKeyed(table, bound)
    ensures var r := Overview(table, bound, caller);
      && (forall i, j :: 0 <= i < j < |r.statusBreakdown| ==> r.statusBreakdown[i].status != r.statusBreakdown[j].status)
      && (forall s: Status :: |MatchingIds(table, caller, Some(StatusName(s)))| > 0 ==>
            exists i :: 0 <= i < |r.statusBreakdown| && r.statusBreakdown[i].status == s)
  {
    var rows := Rows(table, bound, caller, None);
    var bd := Breakdown(AllStatuses, rows);
    assert Overview(table, bound, caller).statusBreakdown == bd;
    BreakdownDistinct(AllStatuses, rows);
    forall s: Status | |MatchingIds(table, caller, Some(StatusName(s)))| > 0
      ensures exists i :: 0 <= i < |bd| && bd[i].status == s
    {
      StatusCountIsFiltered(table, bound, caller, s);
      match s
      case Draft => BreakdownComplete(AllStatuses, rows, s);
      case Applied => BreakdownComplete(AllStatuses, rows, s);
      case Interview => BreakdownComplete(AllStatuses, rows, s);
      case Rejected => BreakdownComplete(AllStatuses, rows, s);
      case Offer => BreakdownComplete(AllStatuses, rows, s);
      case Accepted => BreakdownComplete(AllStatuses, rows, s);
    }
  }

  /** The monthly series is in ascending (year, month) order, each entry
      counts the caller's records applied in that month, and every month in
      which one of them was applied has an entry. */
  lemma OverviewMonthly(table: Table, bound: nat, caller: nat)
    requires WellKeyed(table, bound)
    ensures var r := Overview(table, bound, caller);
      && Ascending(r.monthlyApplications)
      && (forall i :: 0 <= i < |r.monthlyApplications| ==>
            r.monthlyApplications[i].count > 0 &&
            r.monthlyApplications[i].count == DatedCount(Rows(table, bound, caller, None), r.monthlyApplications[i].key))
      && (forall k :: k in MatchingIds(table, caller, None) && table[k].appliedDate.Some? ==>
            exists i :: 0 <= i < |r.monthlyApplications| && Some(r.monthlyApplications[i].key) == MonthOf(table[k]))
  {
    var rows := Rows(table, bound, caller, None);
    var monthly := Monthly(rows);
    forall i | 0 <= i < |monthly|
      ensures monthly[i].count == DatedCount(rows, monthly[i].key)
    {
      EntryHoldsCount(monthly, i);
    }
    forall k | k in MatchingIds(table, caller, None) && table[k].appliedDate.Some?
      ensures exists i :: 0 <= i < |monthly| && Some(monthly[i].key) == MonthOf(table[k])
    {
      RowsComplete(table, bound, caller, None, k);
      var j :| 0 <= j < |rows| && rows[j] == table[k];
      DatedRowCounted(rows, j);
      PositiveCountHasEntry(monthly, MonthOf(table[k]).value);
    }
  }

  /** A caller without records gets all-zero counts and empty series. */
  lemma EmptyOverview(table: Table, bound: nat, caller: nat)
    requires WellKeyed(table, bound)
    requires forall k :: k in table ==> table[k].userId != caller
    ensures Overview(table, bound, caller) == Stats(Summary(0, 0, 0, 0, 0), [], [])
  {
    assert MatchingIds(table, caller, None) == {};
    forall s: Status ensures MatchingIds(table, caller, Some(StatusName(s))) == {} {
    }
    assert Breakdown(AllStatuses, []) == [] by {
      var ss := AllStatuses;
      assert ss[1..][1..][1..][1..][1..][1..] == [];
    }
  }

  // ------------------------------------------- the aggregate `$match` as written

  /** A value a filter compares `userId` with. The schema stores `userId` as
      a string; the signed-in account's `_id` is an object id. `find`,
      `findOne` and `countDocuments` cast a filter value to the schema's type
      first; an `aggregate` pipeline's `$match` compares it as given. */
  datatype IdValue = ObjectId(n: nat) | IdString(n: nat)

  /** Whether `$match: { userId: v }` selects the record, without a cast. */
  predicate StoredIdIs(a: Application, v: IdValue) {
    IdString(a.userId) == v
  }

  /** The records with id below `n` that `$match: { userId: v }` selects, in
      ascending id order. */
  function AggregateRowsBelow(table: Table, v: IdValue, n: nat): seq<Application> {
    if n == 0 then []
    else
      AggregateRowsBelow(table, v, n - 1) +
      (if n - 1 in table && StoredIdIs(table[n - 1], v) then [table[n - 1]] else [])
  }

  /** Matched against the account's object id, as the route writes it, the
      aggregate selects no record at all. */
  lemma {:induction false} UncastMatchSelectsNothing(table: Table, caller: nat, n: nat)
    ensures AggregateRowsBelow(table, ObjectId(caller), n) == []
  {
    if n > 0 {
      UncastMatchSelectsNothing(table, caller, n - 1);
    }
  }

  /** Matched against the id cast to the schema's string, the aggregate
      selects exactly the caller's rows, as `find({ userId })` does. */
  lemma {:induction false} CastMatchSelectsCallerRows(table: Table, caller: nat, n: nat)
    ensures AggregateRowsBelow(table, IdString(caller), n) == RowsBelow(table, caller, None, n)
  {
    if n > 0 {
      CastMatchSelectsCallerRows(table, caller, n - 1);
    }
  }

  /** With no records to group, the breakdown has no entry. */
  lemma BreakdownOfNothing(statuses: seq<Status>)
    ensures Breakdown(statuses, []) == []
  {
  }

  /** GET /applications/stats/overview as written: the counts come from the
      cast `countDocuments`, the two series from the uncast aggregates. */
  function OverviewAsWritten(table: Table, bound: nat, caller: nat): (r: Stats)
    requires WellKeyed(table, bound)
    ensures r.summary == Overview(table, bound, caller).summary
    ensures r.statusBreakdown == [] && r.monthlyApplications == []
  {
    var matched := AggregateRowsBelow(table, ObjectId(caller), bound);
    UncastMatchSelectsNothing(table, caller, bound);
    BreakdownOfNothing(AllStatuses);
    Overview(table, bound, caller).(statusBreakdown := Breakdown(AllStatuses, matched),
                                    monthlyApplications := Monthly(matched))
  }

  /** A caller with one record or more gets a breakdown, as written, that
      does not add up to the reported total, and an empty monthly series
      even when the record has an applied date. */
  lemma OverviewAsWrittenFallsShort(table: Table, bound: nat, caller: nat, k: nat)
    requires WellKeyed(table, bound)
    requires k in table && table[k].userId == caller
    ensures SumCounts(OverviewAsWritten(table, bound, caller).statusBreakdown) == 0
    ensures OverviewAsWritten(table, bound, caller).summary.total > 0
    ensures table[k].appliedDate.Some? ==> Overview(table, bound, caller).monthlyApplications != []
  {
    assert k in MatchingIds(table, caller, None);
    if table[k].appliedDate.Some? {
      OverviewMonthly(table, bound, caller);
      RowsComplete(table, bound, caller, None, k);
      var rows := Rows(table, bound, caller, None);
      var i :| 0 <= i < |rows| && rows[i] == table[k];
      DatedRowCounted(rows, i);
      PositiveCountHasEntry(Monthly(rows), MonthOf(rows[i]).value);
    }
  }

  /** The corrected overview computes its two series from the aggregate
      matched against the caller's id cast to a string. */
  lemma OverviewIsCastAggregate(table: Table, bound: nat, caller: nat)
    requires WellKeyed(table, bound)
    ensures var matched := AggregateRowsBelow(table, IdString(caller), bound);
      && Overview(table, bound, caller).statusBreakdown == Breakdown(AllStatuses, matched)
      && Overview(table, bound, caller).monthlyApplications == Monthly(matched)
  {
    CastMatchSelectsCallerRows(table, caller, bound);
  }
}

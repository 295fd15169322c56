/** `getContentByCategory` (src/api/mongodb.ts): the category query over
    the availability cache — filter, descending sort, skip and limit. */
module ContentQuery {
  import opened Prelude
  import opened Catalog
  import opened ContentCache

  /** A sort key as the database orders values of mixed type: a missing
      field below every number, every number below every string. */
  datatype SortKey = Missing | NumKey(n: real) | StrKey(s: string)

  /** Lexicographic order of strings by character code. */
  predicate StrBelow(a: string, b: string)
    decreases |a|
  {
    if |a| == 0 then |b| > 0
    else if |b| == 0 then false
    else if a[0] != b[0] then a[0] < b[0]
    else StrBelow(a[1..], b[1..])
  }

  lemma {:induction false} StrBelowAsymmetric(a: string, b: string)
    ensures !(StrBelow(a, b) && StrBelow(b, a))
    decreases |a|
  {
    if |a| > 0 && |b| > 0 && a[0] == b[0] {
      StrBelowAsymmetric(a[1..], b[1..]);
    }
  }

  lemma {:induction false} StrBelowTotal(a: string, b: string)
    ensures a == b || StrBelow(a, b) || StrBelow(b, a)
    decreases |a|
  {
    if |a| > 0 && |b| > 0 && a[0] == b[0] {
      StrBelowTotal(a[1..], b[1..]);
      if a[1..] == b[1..] {
        assert a == [a[0]] + a[1..] && b == [b[0]] + b[1..];
      }
    }
  }

  lemma {:induction false} StrBelowTransitive(a: string, b: string, c: string)
    requires StrBelow(a, b) && StrBelow(b, c)
    ensures StrBelow(a, c)
    decreases |a|
  {
    if |a| > 0 && a[0] == b[0] && b[0] == c[0] {
      StrBelowTransitive(a[1..], b[1..], c[1..]);
    }
  }

  /** The strict order of sort keys. */
  predicate KeyBelow(a: SortKey, b: SortKey)
  {
    match (a, b)
    case (Missing, Missing) => false
    case (Missing, _) => true
    case (NumKey(x), NumKey(y)) => x < y
    case (NumKey(_), StrKey(_)) => true
    case (StrKey(x), StrKey(y)) => StrBelow(x, y)
    case _ => false
  }

  /** Sort keys are totally ordered. */
  lemma KeyOrder(a: SortKey, b: SortKey, c: SortKey)
    ensures !(KeyBelow(a, b) && KeyBelow(b, a))
    ensures a == b || KeyBelow(a, b) || KeyBelow(b, a)
    ensures KeyBelow(a, b) && KeyBelow(b, c) ==> KeyBelow(a, c)
  {
    if a.StrKey? && b.StrKey? {
      StrBelowAsymmetric(a.s, b.s);
      StrBelowTotal(a.s, b.s);
      if c.StrKey? && KeyBelow(a, b) && KeyBelow(b, c) {
        StrBelowTransitive(a.s, b.s, c.s);
      }
    }
  }

  /** The key of a record under a metadata field. */
  function KeyOf(rec: Record, field: string): SortKey
  {
    if field !in rec.data.fields then Missing
    else match rec.data.fields[field]
      case Num(n) => NumKey(n)
      case Str(s) => StrKey(s)
  }

  /** Descending by `field`: no record is below a later one. */
  predicate SortedDesc(rs: seq<Record>, field: string)
  {
    forall i, j :: 0 <= i < j < |rs| ==> !KeyBelow(KeyOf(rs[i], field), KeyOf(rs[j], field))
  }

  /** Puts `x` after every record whose key is at least its own. */
  function Insert(s: seq<Record>, x: Record, field: string): (r: seq<Record>)
    ensures multiset(r) == multiset(s) + multiset{x}
  {
    if |s| == 0 then [x]
    else if KeyBelow(KeyOf(s[0], field), KeyOf(x, field)) then [x] + s
    else
      assert s == [s[0]] + s[1..];
      [s[0]] + Insert(s[1..], x, field)
  }

  lemma {:induction false} InsertSorted(s: seq<Record>, x: Record, field: string)
    requires SortedDesc(s, field)
    ensures SortedDesc(Insert(s, x, field), field)
  {
    if |s| > 0 {
      if KeyBelow(KeyOf(s[0], field), KeyOf(x, field)) {
        forall j | 0 <= j < |s|
          ensures !KeyBelow(KeyOf(x, field), KeyOf(s[j], field))
        {
          if j > 0 {
            KeyOrder(KeyOf(s[j], field), KeyOf(s[0], field), KeyOf(x, field));
          }
          KeyOrder(KeyOf(s[j], field), KeyOf(x, field), KeyOf(s[0], field));
        }
        ConsSorted(x, s, field);
      } else {
        InsertSorted(s[1..], x, field);
        HeadAboveInsert(s, x, field);
        ConsSorted(s[0], Insert(s[1..], x, field), field);
      }
    }
  }

  /** A record no later record is above can go first. */
  lemma ConsSorted(y: Record, rest: seq<Record>, field: string)
    requires SortedDesc(rest, field)
    requires forall j :: 0 <= j < |rest| ==> !KeyBelow(KeyOf(y, field), KeyOf(rest[j], field))
    ensures SortedDesc([y] + rest, field)
  {
    var r := [y] + rest;
    forall i, j | 0 <= i < j < |r|
      ensures !KeyBelow(KeyOf(r[i], field), KeyOf(r[j], field))
    {
      assert r[j] == rest[j - 1];
      if i > 0 {
        assert r[i] == rest[i - 1];
      }
    }
  }

  /** The head of a sorted list that `x` does not pass stays above
      everything the insertion into the tail yields. */
  lemma HeadAboveInsert(s: seq<Record>, x: Record, field: string)
    requires SortedDesc(s, field) && |s| > 0 && !KeyBelow(KeyOf(s[0], field), KeyOf(x, field))
    ensures forall j :: 0 <= j < |Insert(s[1..], x, field)| ==>
      !KeyBelow(KeyOf(s[0], field), KeyOf(Insert(s[1..], x, field)[j], field))
  {
    var rest := Insert(s[1..], x, field);
    forall j | 0 <= j < |rest|
      ensures !KeyBelow(KeyOf(s[0], field), KeyOf(rest[j], field))
    {
      assert rest[j] in multiset(rest);
      if rest[j] != x {
        assert rest[j] in multiset(s[1..]);
        var k :| 0 <= k < |s[1..]| && s[1..][k] == rest[j];
        assert s[k + 1] == rest[j];
      }
    }
  }

  /** A stable descending sort by `field`. */
  function SortDesc(rs: seq<Record>, field: string): (r: seq<Record>)
    ensures multiset(r) == multiset(rs)
  {
    if |rs| == 0 then []
    else
      assert rs == rs[..|rs| - 1] + [rs[|rs| - 1]];
      Insert(SortDesc(rs[..|rs| - 1], field), rs[|rs| - 1], field)
  }

  /** The sort orders and only reorders. */
  lemma {:induction false} SortDescSorted(rs: seq<Record>, field: string)
    ensures SortedDesc(SortDesc(rs, field), field)
  {
    if |rs| > 0 {
      SortDescSorted(rs[..|rs| - 1], field);
      InsertSorted(SortDesc(rs[..|rs| - 1], field), rs[|rs| - 1], field);
    }
  }

  /** The field a category filters on: none for the empty category. `latest`
      names the movie release date for shows too. */
  function FilterField(category: string): (f: Option<string>)
    ensures f.None? <==> category == ""
  {
    if category == "popular" then Some("popularity")
    else if category == "latest" then Some("release_date")
    else if category == "top_rated" then Some("vote_average")
    else if category == "" then None
    else Some(category)
  }

  /** The field a category sorts on: popularity unless one of the three
      named categories says otherwise. */
  function SortField(category: string): (f: string)
    ensures category in {"popular", "latest", "top_rated"} ==> f == FilterField(category).value
    ensures category !in {"latest", "top_rated"} ==> f == "popularity"
  {
    if category == "latest" then "release_date"
    else if category == "top_rated" then "vote_average"
    else "popularity"
  }

  /** `{type, available: true, 'data.<field>': {$exists: true}}`. */
  predicate Matches(rec: Record, kind: ContentType, filter: Option<string>)
  {
    rec.kind == kind && rec.available && (filter.None? || filter.value in rec.data.fields)
  }

  /** The matching records in natural order. */
  function Matching(store: Store, kind: ContentType, filter: Option<string>): (r: seq<Record>)
    ensures |r| <= |store|
    ensures forall rec :: rec in r <==> rec in store && Matches(rec, kind, filter)
  {
    if |store| == 0 then []
    else
      var rest := Matching(store[1..], kind, filter);
      assert forall rec :: rec in store <==> rec == store[0] || rec in store[1..];
      if Matches(store[0], kind, filter) then [store[0]] + rest else rest
  }

  /** The rows `skip(skip).limit(take)` returns; no take means no limit. */
  function Window(s: seq<Record>, skip: nat, take: Option<nat>): (r: seq<Record>)
    ensures take.Some? ==> |r| <= take.value
    ensures |r| <= |s|
    ensures forall i :: 0 <= i < |r| ==> skip + i < |s| && r[i] == s[skip + i]
    ensures skip < |s| && (take.None? || skip + take.value <= |s|) ==>
      |r| == if take.Some? then take.value else |s| - skip
    ensures skip >= |s| ==> r == []
    ensures skip <= |s| ==> r == if take.Some? then s[skip..Min(skip + take.value, |s|)] else s[skip..]
  {
    var lo := Min(skip, |s|);
    var hi := if take.Some? then Min(skip + take.value, |s|) else |s|;
    s[lo..Max(lo, hi)]
  }

  /** A zero limit means no limit; a negative one is taken by magnitude. */
  function Take(limit: int): Option<nat>
  {
    if limit == 0 then None else if limit > 0 then Some(limit) else Some(-limit)
  }

  /** `Math.ceil(total / limit)`, `None` where it is not finite. */
  function TotalPages(total: nat, limit: int): (r: Option<int>)
    ensures r.None? <==> limit == 0
    ensures limit > 0 ==> (r.value - 1) * limit < total <= r.value * limit
    ensures limit < 0 ==> r.value <= 0 && -r.value * -limit <= total < (-r.value + 1) * -limit
  {
    if limit > 0 then
      CeilingDivision(total, limit);
      Some((total + limit - 1) / limit)
    else if limit == 0 then None
    else
      FloorDivision(total, -limit);
      Some(-(total / -limit))
  }

  lemma CeilingDivision(total: nat, d: int)
    requires d > 0
    ensures ((total + d - 1) / d - 1) * d < total <= ((total + d - 1) / d) * d
  {
    var q, m := (total + d - 1) / d, (total + d - 1) % d;
    assert total + d - 1 == q * d + m && 0 <= m < d;
    assert (q - 1) * d == q * d - d;
  }

  lemma FloorDivision(total: nat, d: int)
    requires d > 0
    ensures 0 <= total / d
    ensures (total / d) * d <= total < (total / d + 1) * d
  {
    var q, m := total / d, total % d;
    assert total == q * d + m && 0 <= m < d;
    assert (q + 1) * d == q * d + d;
  }

  datatype CategoryPage = CategoryPage(content: seq<Content>, total: nat, totalPages: Option<int>, currentPage: int)

  /** The database refuses a negative skip. */
  datatype QueryError = NegativeSkip

  function DataOf(rs: seq<Record>): (r: seq<Content>)
    ensures |r| == |rs| && forall i :: 0 <= i < |rs| ==> r[i] == rs[i].data
  {
    seq(|rs|, i requires 0 <= i < |rs| => rs[i].data)
  }

  /** The records of one page. */
  function PageRecords(store: Store, kind: ContentType, category: string, skip: nat, limit: int): seq<Record>
  {
    Window(SortDesc(Matching(store, kind, FilterField(category)), SortField(category)), skip, Take(limit))
  }

  /** `getContentByCategory(type, category, page, limit)`. */
  function GetContentByCategory(store: Store, kind: ContentType, category: string, page: int, limit: int): (r: Result<CategoryPage, QueryError>)
    ensures r.Failure? <==> (page - 1) * limit < 0
    ensures r.Success? ==>
      && r.value.total == |Matching(store, kind, FilterField(category))|
      && r.value.totalPages == TotalPages(r.value.total, limit)
      && r.value.currentPage == page
      && r.value.content == DataOf(PageRecords(store, kind, category, (page - 1) * limit, limit))
      && (limit != 0 ==> |r.value.content| <= if limit > 0 then limit else -limit)
    ensures page >= 1 && limit > 0 ==>
      var sorted := SortDesc(Matching(store, kind, FilterField(category)), SortField(category));
      var skip := (page - 1) * limit;
      && r.Success?
      && (skip <= |sorted| ==> r.value.content == DataOf(sorted[skip..Min(skip + limit, |sorted|)]))
      && (page > r.value.totalPages.value ==> r.value.content == [])
  {
    var skip := (page - 1) * limit;
    if skip < 0 then Failure(NegativeSkip)
    else
      var matches := Matching(store, kind, FilterField(category));
      var content := DataOf(PageRecords(store, kind, category, skip, limit));
      if page >= 1 && limit > 0 then
        PagesTile(store, kind, category, page, limit);
        PastTheEndEmpty(store, kind, category, page, limit);
        Success(CategoryPage(content, |matches|, TotalPages(|matches|, limit), page))
      else
        Success(CategoryPage(content, |matches|, TotalPages(|matches|, limit), page))
  }

  /** Every record of a page matches the query, comes from the collection,
      and the page is in descending order of the category's sort field. */
  lemma PageRecordsSpec(store: Store, kind: ContentType, category: string, skip: nat, limit: int)
    ensures var rs := PageRecords(store, kind, category, skip, limit);
      && SortedDesc(rs, SortField(category))
      && (forall rec :: rec in rs ==> rec in store && Matches(rec, kind, FilterField(category)))
  {
    var matching, field := Matching(store, kind, FilterField(category)), SortField(category);
    var sorted := SortDesc(matching, field);
    SortDescSorted(matching, field);
    WindowSorted(sorted, skip, Take(limit), field);
    forall rec | rec in sorted ensures rec in matching {
      assert rec in multiset(matching);
    }
  }

  /** A window of a sorted sequence is sorted and holds only its entries. */
  lemma WindowSorted(s: seq<Record>, skip: nat, take: Option<nat>, field: string)
    requires SortedDesc(s, field)
    ensures SortedDesc(Window(s, skip, take), field)
    ensures forall rec :: rec in Window(s, skip, take) ==> rec in s
  {
    var r := Window(s, skip, take);
    forall rec | rec in r ensures rec in s {
      var i :| 0 <= i < |r| && r[i] == rec;
      assert s[skip + i] == rec;
    }
  }

  /** With a positive limit, consecutive pages follow each other in the
      sorted matches: page `p` holds the matches from `(p - 1) * limit` up to
      `p * limit`. */
  lemma PagesTile(store: Store, kind: ContentType, category: string, page: int, limit: int)
    requires page >= 1 && limit > 0
    ensures (page - 1) * limit >= 0
    ensures var sorted := SortDesc(Matching(store, kind, FilterField(category)), SortField(category));
      var skip := (page - 1) * limit;
      skip <= |sorted| ==> PageRecords(store, kind, category, skip, limit) == sorted[skip..Min(skip + limit, |sorted|)]
  {
    NextPageStart(page, limit);
    PageSlice(store, kind, category, (page - 1) * limit, limit);
  }

  lemma PageSlice(store: Store, kind: ContentType, category: string, skip: nat, limit: int)
    requires limit > 0
    ensures var sorted := SortDesc(Matching(store, kind, FilterField(category)), SortField(category));
      skip <= |sorted| ==> PageRecords(store, kind, category, skip, limit) == sorted[skip..Min(skip + limit, |sorted|)]
  {
    var sorted := SortDesc(Matching(store, kind, FilterField(category)), SortField(category));
    PageWindow(store, kind, category, skip, limit);
    WindowSlice(sorted, skip, limit);
  }

  /** Every page after the last one is empty. */
  lemma PagesPastTheEnd(store: Store, kind: ContentType, category: string, page: int, limit: int)
    requires page >= 1 && limit > 0
    requires page > TotalPages(|Matching(store, kind, FilterField(category))|, limit).value
    ensures PageRecords(store, kind, category, (page - 1) * limit, limit) == []
  {
    var sorted := SortDesc(Matching(store, kind, FilterField(category)), SortField(category));
    var total := |sorted|;
    assert total == |Matching(store, kind, FilterField(category))| by {
      assert multiset(sorted) == multiset(Matching(store, kind, FilterField(category)));
    }
    NextPageStart(page, limit);
    var skip := (page - 1) * limit;
    BeyondLastPage(total, limit, page, TotalPages(total, limit).value);
    PageWindow(store, kind, category, skip, limit);
    WindowSlice(sorted, skip, limit);
  }

  /** `PagesPastTheEnd`, stated for every page. */
  lemma PastTheEndEmpty(store: Store, kind: ContentType, category: string, page: int, limit: int)
    requires page >= 1 && limit > 0
    ensures page > TotalPages(|Matching(store, kind, FilterField(category))|, limit).value ==>
      PageRecords(store, kind, category, (page - 1) * limit, limit) == []
  {
    if page > TotalPages(|Matching(store, kind, FilterField(category))|, limit).value {
      PagesPastTheEnd(store, kind, category, page, limit);
    }
  }

  lemma NextPageStart(page: int, limit: int)
    requires page >= 1 && limit > 0
    ensures (page - 1) * limit >= 0 && page * limit == (page - 1) * limit + limit
  {
  }

  lemma PageWindow(store: Store, kind: ContentType, category: string, skip: nat, limit: int)
    requires limit > 0
    ensures PageRecords(store, kind, category, skip, limit)
      == Window(SortDesc(Matching(store, kind, FilterField(category)), SortField(category)), skip, Some(limit))
  {
  }

  lemma WindowSlice(s: seq<Record>, skip: nat, take: nat)
    ensures skip <= |s| ==> Window(s, skip, Some(take)) == s[skip..Min(skip + take, |s|)]
    ensures skip >= |s| ==> Window(s, skip, Some(take)) == []
  {
  }

  lemma BeyondLastPage(total: nat, limit: int, page: int, t: int)
    requires limit > 0 && t == TotalPages(total, limit).value && page > t
    ensures (page - 1) * limit >= total
  {
    var extra := page - 1 - t;
    assert extra >= 0;
    assert (page - 1) * limit == t * limit + extra * limit;
    assert extra * limit >= 0;
  }

  /* The steps of `PopularExample` below, each a lemma of its own so that
     every proof stays small. */

  lemma ExampleMatching(ra: Record, rb: Record, rc: Record, f: string)
    requires ra.kind == rb.kind == rc.kind == Movie && ra.available && rb.available && rc.available
    requires f in ra.data.fields && f in rb.data.fields && f in rc.data.fields
    ensures Matching([ra, rb, rc], Movie, Some(f)) == [ra, rb, rc]
  {
    assert [ra, rb, rc][1..] == [rb, rc] && [rb, rc][1..] == [rc] && [rc][1..] == [];
    assert Matching([rc], Movie, Some(f)) == [rc];
    assert Matching([rb, rc], Movie, Some(f)) == [rb, rc];
  }

  lemma ExampleSort(ra: Record, rb: Record, rc: Record, f: string)
    requires KeyOf(ra, f) == NumKey(10.0) && KeyOf(rb, f) == NumKey(50.0) && KeyOf(rc, f) == NumKey(30.0)
    ensures SortDesc([ra, rb, rc], f) == [rb, rc, ra]
  {
    ExampleSortTwo(ra, rb, f);
    assert [ra, rb] + [rc] == [ra, rb, rc];
    SortStep([ra, rb], rc, f);
    ExampleInsert(ra, rb, rc, f);
  }

  lemma ExampleSortTwo(ra: Record, rb: Record, f: string)
    requires KeyOf(ra, f) == NumKey(10.0) && KeyOf(rb, f) == NumKey(50.0)
    ensures SortDesc([ra, rb], f) == [rb, ra]
  {
    SortOne(ra, f);
    assert [ra] + [rb] == [ra, rb];
    SortStep([ra], rb, f);
    InsertFirst([ra], rb, f);
  }

  lemma ExampleInsert(ra: Record, rb: Record, rc: Record, f: string)
    requires KeyOf(ra, f) == NumKey(10.0) && KeyOf(rb, f) == NumKey(50.0) && KeyOf(rc, f) == NumKey(30.0)
    ensures Insert([rb, ra], rc, f) == [rb, rc, ra]
  {
    InsertPast([rb, ra], rc, f);
    assert [rb, ra][1..] == [ra];
    InsertFirst([ra], rc, f);
    assert [rb] + [rc, ra] == [rb, rc, ra];
  }

  lemma SortOne(x: Record, f: string)
    ensures SortDesc([x], f) == [x]
  {
    assert [x][..0] == [];
  }

  lemma SortStep(s: seq<Record>, x: Record, f: string)
    ensures SortDesc(s + [x], f) == Insert(SortDesc(s, f), x, f)
  {
    assert (s + [x])[..|s|] == s;
  }

  lemma InsertFirst(s: seq<Record>, x: Record, f: string)
    requires |s| > 0 && KeyBelow(KeyOf(s[0], f), KeyOf(x, f))
    ensures Insert(s, x, f) == [x] + s
  {
  }

  lemma InsertPast(s: seq<Record>, x: Record, f: string)
    requires |s| > 0 && !KeyBelow(KeyOf(s[0], f), KeyOf(x, f))
    ensures Insert(s, x, f) == [s[0]] + Insert(s[1..], x, f)
  {
  }

  lemma PopularExampleRecords(ra: Record, rb: Record, rc: Record)
    requires ra.kind == rb.kind == rc.kind == Movie && ra.available && rb.available && rc.available
    requires ra.data.fields == map["popularity" := Num(10.0)]
    requires rb.data.fields == map["popularity" := Num(50.0)]
    requires rc.data.fields == map["popularity" := Num(30.0)]
    ensures |Matching([ra, rb, rc], Movie, FilterField("popular"))| == 3
    ensures PageRecords([ra, rb, rc], Movie, "popular", 0, 2) == [rb, rc]
  {
    var f := "popularity";
    assert FilterField("popular") == Some(f) && SortField("popular") == f;
    ExampleMatching(ra, rb, rc, f);
    ExampleSort(ra, rb, rc, f);
    assert Take(2) == Some(2);
    FirstTwo(rb, rc, ra);
  }

  lemma FirstTwo(x: Record, y: Record, z: Record)
    ensures Window([x, y, z], 0, Some(2)) == [x, y]
  {
    assert [x, y, z][0..2] == [x, y];
  }

  /** Three available movies with popularity 10, 50 and 30: the first page
      of two holds the titles with 50 and 30, of three matches on two pages. */
  lemma PopularExample(a: Content, b: Content, c: Content, now: int)
    requires a.fields == map["popularity" := Num(10.0)]
    requires b.fields == map["popularity" := Num(50.0)]
    requires c.fields == map["popularity" := Num(30.0)]
    ensures var store := [Record(1, Movie, a, true, now, None), Record(2, Movie, b, true, now, None),
                          Record(3, Movie, c, true, now, None)];
      GetContentByCategory(store, Movie, "popular", 1, 2) == Success(CategoryPage([b, c], 3, Some(2), 1))
  {
    var ra, rb, rc := Record(1, Movie, a, true, now, None), Record(2, Movie, b, true, now, None),
                      Record(3, Movie, c, true, now, None);
    var store := [ra, rb, rc];
    PopularExampleRecords(ra, rb, rc);
    ExampleDataAndPages(rb, rc);
    assert GetContentByCategory(store, Movie, "popular", 1, 2)
      == Success(CategoryPage(DataOf(PageRecords(store, Movie, "popular", 0, 2)), 3, TotalPages(3, 2), 1));
  }

  lemma ExampleDataAndPages(rb: Record, rc: Record)
    ensures DataOf([rb, rc]) == [rb.data, rc.data]
    ensures TotalPages(3, 2) == Some(2)
  {
    CeilingDivision(3, 2);
  }
}

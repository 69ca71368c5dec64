/** The paged query for sample entities (Application/Features/Sample/Queries/GetPagedSamplesQuery.cs):
    a `NameFilter` added to the cache key, and the handler's filter that keeps
    the entities whose name holds that text. An entity's `Name` is read with
    `name(entity)`, `None` for null. */
module PagedSamplesQuery {
  import opened Wrappers
  import opened Text
  import Q = PagedEntitiesQuery

  /** The request as the samples handler receives it: a plain paged query, or
      a GetPagedSamplesQuery with its `NameFilter`. */
  datatype Request = Plain(query: Q.PagedQuery) | Samples(query: Q.PagedQuery, nameFilter: Option<string>)

  /** A fresh GetPagedSamplesQuery: the generic defaults and no name filter. */
  function NewSamplesQuery(): (r: Request)
    ensures r.Samples? && r.query == Q.NewQuery("SampleEntity") && r.nameFilter == None
  {
    Samples(Q.NewQuery("SampleEntity"), None)
  }

  /** The `CacheKey` the request carries: GetPagedSamplesQuery appends `_` and
      the filter (nothing for null) to the generic key. */
  function CacheKey(r: Request): (key: string)
    ensures Q.CacheKey(r.query) <= key
    ensures r.Plain? ==> key == Q.CacheKey(r.query)
    ensures r.Samples? ==> key[|Q.CacheKey(r.query)|..] == "_" + r.nameFilter.GetOr("")
  {
    match r
    case Plain(q) => Q.CacheKey(q)
    case Samples(q, f) =>
      var generic := Q.CacheKey(q);
      var key := generic + ("_" + f.GetOr(""));
      assert key[|generic|..] == "_" + f.GetOr("");
      key
  }

  /** A null filter and an empty one give the same key. */
  lemma NullAndEmptyFilterCollide(q: Q.PagedQuery)
    ensures CacheKey(Samples(q, None)) == CacheKey(Samples(q, Some("")))
  {
  }

  /** For one base query, the samples key determines the filter text, and
      for one entity it still determines the page number and size. */
  lemma SamplesKeyDeterminesFields(q1: Q.PagedQuery, f1: Option<string>, q2: Q.PagedQuery, f2: Option<string>)
    requires q1.entityName == q2.entityName
    requires CacheKey(Samples(q1, f1)) == CacheKey(Samples(q2, f2))
    ensures q1.pageNumber == q2.pageNumber && q1.pageSize == q2.pageSize
    ensures q1 == q2 ==> f1.GetOr("") == f2.GetOr("")
  {
    assert Q.CacheKey(q1) + ("_" + f1.GetOr("")) == CacheKey(Samples(q1, f1));
    assert Q.CacheKey(q2) + ("_" + f2.GetOr("")) == CacheKey(Samples(q2, f2));
    Q.CacheKeySeparatesPages(q1, q2, "_" + f1.GetOr(""), "_" + f2.GetOr(""));
    if q1 == q2 {
      var k := CacheKey(Samples(q1, f1));
      var n := |Q.CacheKey(q1)| + 1;
      assert f1.GetOr("") == k[n..];
      assert f2.GetOr("") == k[n..];
    }
  }

  /** The key of a fresh samples query. */
  lemma DefaultSamplesKey()
    ensures CacheKey(NewSamplesQuery()) == "GetPaged_SampleEntity_1_10__False_"
  {
    Q.DefaultCacheKey();
  }

  /** `Where(keep)`: the rows that satisfy `keep`, in their original order. */
  function Where<E>(rows: seq<E>, keep: E -> bool): (r: seq<E>)
    ensures |r| <= |rows|
    ensures forall i :: 0 <= i < |r| ==> r[i] in rows && keep(r[i])
    ensures forall i :: 0 <= i < |rows| && keep(rows[i]) ==> rows[i] in r
    ensures multiset(r) <= multiset(rows)
  {
    if |rows| == 0 then []
    else
      assert rows == [rows[0]] + rows[1..];
      (if keep(rows[0]) then [rows[0]] else []) + Where(rows[1..], keep)
  }

  /** Filtering keeps relative order: the survivors of a concatenation are the
      survivors of the first part followed by those of the second. */
  lemma {:induction false} WhereConcat<E>(a: seq<E>, b: seq<E>, keep: E -> bool)
    ensures Where(a + b, keep) == Where(a, keep) + Where(b, keep)
  {
    if |a| > 0 {
      assert (a + b)[1..] == a[1..] + b;
      WhereConcat(a[1..], b, keep);
    } else {
      assert a + b == b;
    }
  }

  /** `e.Name != null && e.Name.Contains(filter)`. */
  predicate NameMatches<E>(e: E, filter: string, name: E -> Option<string>)
  {
    name(e).Some? && Contains(name(e).value, filter)
  }

  /** The samples handler's `ApplyFilters`: the base filters, then, only for a
      GetPagedSamplesQuery with a non-empty `NameFilter`, the name test. */
  function ApplyFilters<E>(rows: seq<E>, request: Request, name: E -> Option<string>): (r: seq<E>)
    ensures multiset(r) <= multiset(rows)
  {
    var filtered := Q.ApplyFilters(rows, request.query);
    if request.Samples? && request.nameFilter.Some? && request.nameFilter.value != "" then
      Where(filtered, (e: E) => NameMatches(e, request.nameFilter.value, name))
    else filtered
  }

  /** What the filter promises: with no usable filter the rows are unchanged;
      otherwise exactly the rows whose name is non-null and holds the filter
      text survive, none is added, and their order is kept. */
  lemma ApplyFiltersSpec<E>(rows: seq<E>, request: Request, name: E -> Option<string>)
    ensures !(request.Samples? && request.nameFilter.Some? && request.nameFilter.value != "") ==>
      ApplyFilters(rows, request, name) == rows
    ensures request.Samples? && request.nameFilter.Some? && request.nameFilter.value != "" ==>
      var r := ApplyFilters(rows, request, name);
      && (forall x :: x in r <==> x in rows && NameMatches(x, request.nameFilter.value, name))
      && multiset(r) <= multiset(rows)
      && forall i :: 0 <= i <= |rows| ==>
           r == ApplyFilters(rows[..i], request, name) + ApplyFilters(rows[i..], request, name)
  {
    if request.Samples? && request.nameFilter.Some? && request.nameFilter.value != "" {
      var keep := (e: E) => NameMatches(e, request.nameFilter.value, name);
      forall i | 0 <= i <= |rows|
        ensures Where(rows, keep) == Where(rows[..i], keep) + Where(rows[i..], keep)
      {
        assert rows == rows[..i] + rows[i..];
        WhereConcat(rows[..i], rows[i..], keep);
      }
    }
  }

  /** A plain paged query is never name-filtered, even when sent to the samples handler. */
  lemma PlainRequestUnfiltered<E>(rows: seq<E>, q: Q.PagedQuery, name: E -> Option<string>)
    ensures ApplyFilters(rows, Plain(q), name) == rows
  {
  }

  /** The samples handler's `ApplyIncludes`: the base includes, nothing more. */
  function ApplyIncludes<E>(rows: seq<E>, request: Request): (r: seq<E>)
    ensures r == rows
  {
    Q.ApplyIncludes(rows, request.query)
  }
}

/** The generic paged query (Application/Features/Generic/Queries/GetPagedEntitiesQuery.cs):
    its defaults, its cache key and tags, and the handler's in-memory
    filter, sort and include steps over a sequence of entities.

    An entity type is known by its name and the names of its public
    properties; the value of a property, for ordering, is an integer rank
    given by `rank(entity, property)`. */
module PagedEntitiesQuery {
  import opened Wrappers
  import opened Text

  /** GetPagedEntitiesQuery<TEntity, TDto>, with `typeof(TEntity).Name`. */
  datatype PagedQuery = PagedQuery(
    entityName: string,
    pageNumber: Int32,
    pageSize: Int32,
    sortBy: Option<string>,
    sortDescending: bool)

  /** A freshly constructed query: page 1 of 10, unsorted, ascending. */
  function NewQuery(entityName: string): (q: PagedQuery)
    ensures q.entityName == entityName
    ensures q.pageNumber == 1 && q.pageSize == 10 && q.sortBy == None && !q.sortDescending
  {
    PagedQuery(entityName, 1, 10, None, false)
  }

  /** `CacheKey`: the interpolation
      `GetPaged_{entity}_{PageNumber}_{PageSize}_{SortBy}_{SortDescending}`,
      where a null `SortBy` renders as nothing. */
  function CacheKey(q: PagedQuery): (key: string)
    ensures "GetPaged_" + q.entityName + "_" <= key
    ensures BoolToString(q.sortDescending) <= key[|key| - |BoolToString(q.sortDescending)|..]
  {
    "GetPaged_" + q.entityName + "_" + IntToString(q.pageNumber) + "_" + IntToString(q.pageSize)
    + "_" + KeyTail(q)
  }

  /** `Tags`: the entity type name alone. */
  function Tags(q: PagedQuery): (tags: seq<string>)
    ensures tags == [q.entityName]
  {
    [q.entityName]
  }

  /** The key of a fresh query for `SampleEntity`. */
  lemma DefaultCacheKey()
    ensures CacheKey(NewQuery("SampleEntity")) == "GetPaged_SampleEntity_1_10__False"
  {
    var q := NewQuery("SampleEntity");
    DefaultPageTexts();
    assert KeyTail(q) == "_False";
  }

  /** The default page number and page size as text. */
  lemma DefaultPageTexts()
    ensures IntToString(1) == "1" && IntToString(10) == "10"
  {
    assert NatToString(10) == NatToString(1) + [DigitChar(0)];
  }

  /** An integer field followed by `_` determines both the integer and what
      follows it. */
  lemma IntFieldDetermines(a: int, b: int, rest1: string, rest2: string)
    requires IntToString(a) + ['_'] + rest1 == IntToString(b) + ['_'] + rest2
    ensures a == b && rest1 == rest2
  {
    IntToStringChars(a, '_');
    IntToStringChars(b, '_');
    FirstFieldOf(IntToString(a), '_', rest1);
    FirstFieldOf(IntToString(b), '_', rest2);
    IntToStringRoundTrip(a);
    IntToStringRoundTrip(b);
    var k := IntToString(a) + ['_'] + rest1;
    assert rest1 == k[|IntToString(a)| + 1..];
    assert rest2 == k[|IntToString(b)| + 1..];
  }

  /** Two queries for the same entity whose keys agree (even with anything
      appended to both) ask for the same page number and page size: the two
      integer fields are separated by `_`, which integer text never holds. */
  lemma CacheKeySeparatesPages(q1: PagedQuery, q2: PagedQuery, suffix1: string, suffix2: string)
    requires q1.entityName == q2.entityName
    requires CacheKey(q1) + suffix1 == CacheKey(q2) + suffix2
    ensures q1.pageNumber == q2.pageNumber && q1.pageSize == q2.pageSize
  {
    var prefix := "GetPaged_" + q1.entityName + "_";
    var c1 := KeyTail(q1) + suffix1;
    var c2 := KeyTail(q2) + suffix2;
    var b1 := IntToString(q1.pageSize) + ['_'] + c1;
    var b2 := IntToString(q2.pageSize) + ['_'] + c2;
    var a1 := IntToString(q1.pageNumber) + ['_'] + b1;
    var a2 := IntToString(q2.pageNumber) + ['_'] + b2;
    CacheKeyFields(q1, suffix1);
    CacheKeyFields(q2, suffix2);
    assert a1 == (prefix + a1)[|prefix|..];
    assert a2 == (prefix + a2)[|prefix|..];
    IntFieldDetermines(q1.pageNumber, q2.pageNumber, b1, b2);
    IntFieldDetermines(q1.pageSize, q2.pageSize, c1, c2);
  }

  /** The part of the key after the page size and its separator. */
  function KeyTail(q: PagedQuery): string
  {
    q.sortBy.GetOr("") + "_" + BoolToString(q.sortDescending)
  }

  /** The key, regrouped field by field. */
  lemma CacheKeyFields(q: PagedQuery, suffix: string)
    ensures CacheKey(q) + suffix
      == ("GetPaged_" + q.entityName + "_")
       + (IntToString(q.pageNumber) + ['_'] + (IntToString(q.pageSize) + ['_'] + (KeyTail(q) + suffix)))
  {
    Regroup("GetPaged_" + q.entityName + "_", IntToString(q.pageNumber), IntToString(q.pageSize), KeyTail(q), suffix);
  }

  /** Five pieces joined by two separators, regrouped to the right. */
  lemma Regroup(e: string, a: string, b: string, t: string, s: string)
    ensures e + a + "_" + b + "_" + t + s == e + (a + ['_'] + (b + ['_'] + (t + s)))
  {
    assert e + a + "_" + b + "_" + t + s == e + a + "_" + b + "_" + (t + s);
    assert e + a + "_" + b + "_" + (t + s) == e + a + "_" + (b + ['_'] + (t + s));
    assert e + a + "_" + (b + ['_'] + (t + s)) == e + (a + ['_'] + (b + ['_'] + (t + s)));
  }

  /** A null `SortBy` and an empty one give the same key. */
  lemma NullAndEmptySortByCollide(q: PagedQuery)
    ensures CacheKey(q.(sortBy := None)) == CacheKey(q.(sortBy := Some("")))
  {
  }

  // ---------------------------------------------------------------------
  // The handler's query steps
  // ---------------------------------------------------------------------

  /** The base `ApplyFilters`: no filter. */
  function ApplyFilters<E>(rows: seq<E>, q: PagedQuery): (r: seq<E>)
    ensures r == rows
  {
    rows
  }

  /** The base `ApplyIncludes`: no eager loading, so the rows are unchanged. */
  function ApplyIncludes<E>(rows: seq<E>, q: PagedQuery): (r: seq<E>)
    ensures r == rows
  {
    rows
  }

  /** `x` may come before `y` in the requested direction. */
  predicate Precedes(x: int, y: int, descending: bool)
  {
    if descending then x >= y else x <= y
  }

  /** Each element may precede the next. */
  predicate Sorted<E>(s: seq<E>, key: E -> int, descending: bool)
  {
    forall i :: 0 <= i < |s| - 1 ==> Precedes(key(s[i]), key(s[i + 1]), descending)
  }

  /** Places `x` into a sorted sequence ahead of every element it may precede. */
  function Insert<E>(x: E, s: seq<E>, key: E -> int, descending: bool): (r: seq<E>)
    requires Sorted(s, key, descending)
    ensures Sorted(r, key, descending)
    ensures multiset(r) == multiset(s) + multiset{x}
    ensures |r| == |s| + 1 && (r[0] == x || (|s| > 0 && r[0] == s[0]))
  {
    if |s| == 0 then [x]
    else if Precedes(key(x), key(s[0]), descending) then [x] + s
    else
      assert s == [s[0]] + s[1..];
      assert Sorted(s[1..], key, descending);
      var rest := Insert(x, s[1..], key, descending);
      assert Precedes(key(s[0]), key(rest[0]), descending);
      var r := [s[0]] + rest;
      assert forall i :: 1 <= i < |r| ==> r[i] == rest[i - 1];
      r
  }

  /** `OrderBy(key)` or `OrderByDescending(key)`: the same rows, ordered by key. */
  function SortByKey<E>(s: seq<E>, key: E -> int, descending: bool): (r: seq<E>)
    ensures Sorted(r, key, descending)
    ensures multiset(r) == multiset(s)
  {
    if |s| == 0 then []
    else
      assert s == [s[0]] + s[1..];
      Insert(s[0], SortByKey(s[1..], key, descending), key, descending)
  }

  /** Order between neighbours extends to every pair. */
  lemma {:induction false} SortedAllPairs<E>(s: seq<E>, key: E -> int, descending: bool, i: int, j: int)
    requires Sorted(s, key, descending) && 0 <= i < j < |s|
    ensures Precedes(key(s[i]), key(s[j]), descending)
    decreases j - i
  {
    if i + 1 < j {
      SortedAllPairs(s, key, descending, i + 1, j);
    }
  }

  /** `ApplySorting`: unsorted when `SortBy` is null, empty or names no
      property of the entity; otherwise ordered by that property, descending
      exactly when `SortDescending` is set. */
  function ApplySorting<E>(rows: seq<E>, q: PagedQuery, properties: set<string>, rank: (E, string) -> int): (r: seq<E>)
    ensures multiset(r) == multiset(rows)
  {
    if q.sortBy.None? || q.sortBy.value == "" then rows
    else if q.sortBy.value !in properties then rows
    else SortByKey(rows, (e: E) => rank(e, q.sortBy.value), q.sortDescending)
  }

  /** What `ApplySorting` promises: the same rows, unchanged when there is no
      usable `SortBy`, and otherwise in the requested order of that property. */
  lemma ApplySortingSpec<E>(rows: seq<E>, q: PagedQuery, properties: set<string>, rank: (E, string) -> int)
    ensures multiset(ApplySorting(rows, q, properties, rank)) == multiset(rows)
    ensures q.sortBy.None? || q.sortBy.value == "" || q.sortBy.value !in properties ==>
      ApplySorting(rows, q, properties, rank) == rows
    ensures q.sortBy.Some? && q.sortBy.value != "" && q.sortBy.value in properties ==>
      var r := ApplySorting(rows, q, properties, rank);
      forall i, j :: 0 <= i < j < |r| ==>
        if q.sortDescending then rank(r[i], q.sortBy.value) >= rank(r[j], q.sortBy.value)
        else rank(r[i], q.sortBy.value) <= rank(r[j], q.sortBy.value)
  {
    if q.sortBy.Some? && q.sortBy.value != "" && q.sortBy.value in properties {
      var r := ApplySorting(rows, q, properties, rank);
      var key := (e: E) => rank(e, q.sortBy.value);
      forall i, j | 0 <= i < j < |r|
        ensures Precedes(key(r[i]), key(r[j]), q.sortDescending)
      {
        SortedAllPairs(r, key, q.sortDescending, i, j);
      }
    }
  }
}

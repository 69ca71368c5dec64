/** One page of a query result (Application/Models/PagedList.cs): the page's
    items plus the paging arithmetic derived from the total count. The source
    query is a sequence; `CountAsync` is its length and `Skip`/`Take` are the
    LINQ operators over it. */
module PagedList {
  import opened Wrappers
  import opened Text

  /** `(int)` of a double: values beyond `int`'s range saturate. */
  function Saturate32(x: int): (r: Int32)
    ensures MinInt32 <= x <= MaxInt32 ==> r == x
  {
    if x < MinInt32 then MinInt32 else if x > MaxInt32 then MaxInt32 else x
  }

  /** The exact ceiling of `a / b`. */
  function CeilDiv(a: int, b: int): int
    requires b != 0
  {
    if b > 0 then -((-a) / b) else -(a / (-b))
  }

  /** `CeilDiv` is the least multiple count that covers `a`. */
  lemma CeilDivBounds(a: int, b: int)
    requires b > 0
    ensures (CeilDiv(a, b) - 1) * b < a <= CeilDiv(a, b) * b
  {
    var q := (-a) / b;
    assert -a == q * b + (-a) % b;
  }

  /** `(int)Math.Ceiling(count / (double)pageSize)`. A zero page size divides
      into positive or negative infinity (saturating) or, for a zero count,
      not-a-number (which converts to zero). Either way, with a page size of
      zero or more there are pages exactly when there are items. */
  function TotalPages(count: Int32, pageSize: Int32): (pages: Int32)
    ensures pageSize >= 0 ==> (pages > 0 <==> count > 0)
  {
    if pageSize == 0 then
      (if count > 0 then MaxInt32 else if count < 0 then MinInt32 else 0)
    else
      var c := CeilDiv(count, pageSize);
      if pageSize > 0 then
        CeilDivBounds(count, pageSize);
        ScaleAwayFromZero(c, pageSize);
        ScaleAwayFromZero(c - 1, pageSize);
        Saturate32(c)
      else Saturate32(c)
  }

  datatype PagedList<T> = PagedList(
    items: seq<T>,
    pageNumber: Int32,
    totalPages: Int32,
    totalCount: Int32,
    pageSize: Int32)
  {
    predicate HasPreviousPage() { pageNumber > 1 }
    predicate HasNextPage() { pageNumber < totalPages }
  }

  /** The `PagedList` constructor: stores what it is given and derives `TotalPages`. */
  function NewPagedList<T>(items: seq<T>, count: Int32, pageNumber: Int32, pageSize: Int32): (p: PagedList<T>)
    ensures p.items == items && p.totalCount == count && p.pageNumber == pageNumber && p.pageSize == pageSize
    ensures p.HasPreviousPage() <==> pageNumber > 1
    ensures p.HasNextPage() <==> pageNumber < p.totalPages
  {
    PagedList(items, pageNumber, TotalPages(count, pageSize), count, pageSize)
  }

  /** Multiplying by a positive number moves away from zero. */
  lemma ScaleAwayFromZero(k: int, b: int)
    requires b >= 1
    ensures k >= 0 ==> k * b >= k
    ensures k < 0 ==> k * b <= k
  {
    assert k * b - k == k * (b - 1);
  }

  /** For a positive page size, the total page count covers the items with
      no page to spare: it is the integer ceiling of count / pageSize. */
  lemma TotalPagesIsCeiling(count: Int32, pageSize: Int32)
    requires pageSize > 0
    ensures var t := TotalPages(count, pageSize);
      (t - 1) * pageSize < count <= t * pageSize
  {
    var c := CeilDiv(count, pageSize);
    CeilDivBounds(count, pageSize);
    ScaleAwayFromZero(c, pageSize);
    ScaleAwayFromZero(c - 1, pageSize);
    assert MinInt32 <= c <= MaxInt32;
  }

  /** For a positive page size and a count of zero or more, a page after page
      `p` exists exactly when the first `p` pages do not hold every item; an
      empty result never has a next page from page zero on. */
  lemma HasNextPageIffMoreItems<T>(items: seq<T>, count: Int32, p: Int32, pageSize: Int32)
    requires pageSize > 0 && count >= 0
    ensures NewPagedList(items, count, p, pageSize).HasNextPage() <==> p * pageSize < count
    ensures count == 0 ==> (NewPagedList(items, count, p, pageSize).HasNextPage() <==> p < 0)
  {
    var list := NewPagedList(items, count, p, pageSize);
    TotalPagesIsCeiling(count, pageSize);
    CeilingOrder(p, list.totalPages, pageSize, count);
    assert list.HasNextPage() <==> p * pageSize < count;
    ScaleAwayFromZero(p, pageSize);
  }

  /** Between the multiples of a positive step around `count`, the pages
      before page `t` are exactly those that end short of `count`. */
  lemma CeilingOrder(p: int, t: int, step: int, count: int)
    requires step >= 1 && (t - 1) * step < count <= t * step
    ensures p < t <==> p * step < count
  {
    if p < t {
      ScaleMonotone(p, t - 1, step);
    } else {
      ScaleMonotone(t, p, step);
    }
  }

  /** Scaling by a positive number keeps the order. */
  lemma ScaleMonotone(a: int, b: int, c: int)
    requires a <= b && c >= 1
    ensures a * c <= b * c
  {
    ScaleAwayFromZero(b - a, c);
    assert (b - a) * c == b * c - a * c;
  }

  /** `Enumerable.Skip`: a count of zero or less skips nothing. */
  function Skip<S>(s: seq<S>, n: int): (r: seq<S>)
    ensures n <= 0 ==> r == s
    ensures n >= |s| ==> r == []
    ensures 0 <= n <= |s| ==> r == s[n..]
  {
    if n <= 0 then s else if n >= |s| then [] else s[n..]
  }

  /** `Enumerable.Take`: a count of zero or less takes nothing. */
  function Take<S>(s: seq<S>, n: int): (r: seq<S>)
    ensures n <= 0 ==> r == []
    ensures n >= |s| ==> r == s
    ensures 0 <= n <= |s| ==> r == s[..n]
  {
    if n <= 0 then [] else if n >= |s| then s else s[..n]
  }

  /** SQLite's `LIMIT`, which EF Core emits for `Take`: a negative limit
      means no limit at all, a limit of zero returns no row. */
  function Limit<S>(s: seq<S>, n: int): (r: seq<S>)
    ensures n < 0 ==> r == s
    ensures 0 <= n <= |s| ==> r == s[..n]
    ensures n >= |s| ==> r == s
  {
    if n < 0 || n >= |s| then s else s[..n]
  }

  /** Where the query of `CreateAsync` runs: in memory, with the LINQ
      operators, or translated to SQL for the SQLite database the application
      registers. `OFFSET` clamps a negative count to zero as `Skip` does, so
      only `Take` differs. */
  datatype Provider = InMemory | Sqlite

  function TakeOn<S>(provider: Provider, s: seq<S>, n: int): (r: seq<S>)
    ensures n >= 0 ==> r == Take(s, n)
    ensures n < 0 ==> r == (if provider.InMemory? then [] else s)
  {
    match provider
    case InMemory => Take(s, n)
    case Sqlite => Limit(s, n)
  }

  /** `items.Select(map)`. */
  function MapAll<S, T>(s: seq<S>, f: S -> T): (r: seq<T>)
    ensures |r| == |s| && forall i :: 0 <= i < |s| ==> r[i] == f(s[i])
  {
    seq(|s|, i requires 0 <= i < |s| => f(s[i]))
  }

  /** The number of rows `Skip` passes over: `(pageNumber - 1) * pageSize` in
      unchecked `int` arithmetic. */
  function Offset(pageNumber: Int32, pageSize: Int32): Int32
  {
    Wrap32(Wrap32(pageNumber - 1) * pageSize)
  }

  /** `PagedList.CreateAsync`: count the source, take one page of it, map each
      element. `CountAsync` overflows past `int.MaxValue` rows. */
  function CreateAsync<S, T>(provider: Provider, source: seq<S>, pageNumber: Int32, pageSize: Int32, selector: S -> T): (r: Outcome<PagedList<T>>)
    ensures |source| > MaxInt32 <==> r == Thrown(Overflow)
    ensures r.Ok? ==> r.value.totalCount == |source| && r.value.pageNumber == pageNumber && r.value.pageSize == pageSize
    ensures r.Ok? ==> r.value.totalPages == TotalPages(|source|, pageSize)
  {
    if |source| > MaxInt32 then Thrown(Overflow)
    else
      var count := |source|;
      var items := TakeOn(provider, Skip(source, Offset(pageNumber, pageSize)), pageSize);
      Ok(NewPagedList(MapAll(items, selector), count, pageNumber, pageSize))
  }

  /** A page never holds more than a page size of zero or more. A negative
      page size gives an empty page in memory, but on SQLite every row after
      the offset. */
  lemma PageSizeBound<S, T>(provider: Provider, source: seq<S>, pageNumber: Int32, pageSize: Int32, selector: S -> T)
    requires CreateAsync(provider, source, pageNumber, pageSize, selector).Ok?
    ensures var items := CreateAsync(provider, source, pageNumber, pageSize, selector).value.items;
      && (pageSize >= 0 ==> |items| <= pageSize)
      && (pageSize < 0 && provider.InMemory? ==> items == [])
      && (pageSize < 0 && provider.Sqlite? ==> |items| == |Skip(source, Offset(pageNumber, pageSize))|)
  {
  }

  /** When `(pageNumber - 1) * pageSize` does not overflow, the page holds the
      mapped source elements at positions `[(p-1)*s, (p-1)*s + s)` clipped to
      the source, in source order, on either provider. */
  lemma PageIsSlice<S, T>(provider: Provider, source: seq<S>, pageNumber: Int32, pageSize: Int32, selector: S -> T)
    requires |source| <= MaxInt32 && pageSize > 0
    requires MinInt32 <= (pageNumber - 1) * pageSize <= MaxInt32
    ensures var start := if (pageNumber - 1) * pageSize < 0 then 0 else (pageNumber - 1) * pageSize;
      var end := if start + pageSize < |source| then start + pageSize else |source|;
      var items := CreateAsync(provider, source, pageNumber, pageSize, selector).value.items;
      && |items| == (if start < end then end - start else 0)
      && forall i :: 0 <= i < |items| ==> items[i] == selector(source[start + i])
  {
    assert MinInt32 <= pageNumber - 1;
    assert Offset(pageNumber, pageSize) == (pageNumber - 1) * pageSize;
  }

  /** The pages of a source of ten rows with three per page: the fourth page
      holds the last row and has no next page. */
  lemma PagingExample(provider: Provider, source: seq<int>)
    requires |source| == 10
    ensures var p := CreateAsync(provider, source, 4, 3, (x: int) => x).value;
      && p.totalPages == 4 && p.items == [source[9]]
      && p.HasPreviousPage() && !p.HasNextPage()
  {
    assert Offset(4, 3) == 9;
    assert TotalPages(10, 3) == 4;
  }
}

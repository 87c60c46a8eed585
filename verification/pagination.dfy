/** The offset pagination shared by the agenda query and the user listing:
    `skip = (page - 1) * limit`, `take = limit`,
    `totalPages = Math.ceil(total / limit)`. */
module Pagination {
  import opened Results

  const DefaultPage := 1
  const DefaultLimit := 10

  /** The page number after the destructuring default `page = 1`, which
      applies only when the field is absent. */
  function ResolvePage(page: Option<int>): (p: int)
    ensures page.None? ==> p == 1
    ensures page.Some? ==> p == page.value
  {
    page.GetOr(DefaultPage)
  }

  /** The page size after the destructuring default `limit = 10`, which
      applies only when the field is absent. */
  function ResolveLimit(limit: Option<int>): (l: int)
    ensures limit.None? ==> l == 10
    ensures limit.Some? ==> l == limit.value
  {
    limit.GetOr(DefaultLimit)
  }

  /** The smaller of `a` and `b`. */
  function Min(a: int, b: int): (m: int)
    ensures m <= a && m <= b && (m == a || m == b)
  {
    if a <= b then a else b
  }

  /** Number of rows skipped before page `page`: exactly `page - 1` whole
      pages, so page 1 starts at the first row. */
  function Skip(page: int, limit: int): (k: nat)
    requires page >= 1 && limit >= 1
    ensures k % limit == 0 && k / limit == page - 1
  {
    WholePages(page - 1, limit);
    (page - 1) * limit
  }

  /** `q` whole pages of `d` rows divide back into exactly `q` pages. */
  lemma WholePages(q: nat, d: int)
    requires d >= 1
    ensures (q * d) % d == 0 && (q * d) / d == q
  {
    var a := q * d;
    var q', r := a / d, a % d;
    assert a == q' * d + r && 0 <= r < d;
    assert (q - q') * d == r;
    if q - q' >= 1 {
      MulAtLeast(q - q', d);
    } else if q - q' <= -1 {
      MulAtLeast(q' - q, d);
    }
  }

  lemma MulAtLeast(x: int, d: int)
    requires x >= 1 && d >= 1
    ensures x * d >= d
  {
  }

  /** `Math.ceil(total / limit)`: the fewest pages of `limit` rows that hold
      `total` rows. */
  function TotalPages(total: nat, limit: int): (n: nat)
    requires limit >= 1
    ensures n * limit >= total
    ensures n == 0 || (n - 1) * limit < total
  {
    var n := (total + limit - 1) / limit;
    var m := (total + limit - 1) % limit;
    assert total + limit - 1 == n * limit + m;
    assert (n - 1) * limit == n * limit - limit;
    n
  }

  /** The rows the database returns for `skip`/`take` over the ordered
      result set `rows`. */
  function Page<T>(rows: seq<T>, skip: nat, take: nat): (p: seq<T>)
    ensures |p| <= take
    ensures skip < |rows| ==> |p| == Min(take, |rows| - skip)
    ensures skip >= |rows| ==> p == []
    ensures forall i :: 0 <= i < |p| ==> skip + i < |rows| && p[i] == rows[skip + i]
  {
    if skip >= |rows| then [] else rows[skip..Min(skip + take, |rows|)]
  }

  /** The rows of pages 1 to `n`, concatenated in order. */
  function FirstPages<T>(rows: seq<T>, limit: int, n: nat): (r: seq<T>)
    requires limit >= 1
  {
    if n == 0 then [] else FirstPages(rows, limit, n - 1) + Page(rows, Skip(n, limit), limit)
  }

  /** The prefix up to `k` followed by the page at offset `k` is the prefix
      up to `k + take`. */
  lemma PrefixThenPage<T>(rows: seq<T>, k: nat, take: nat)
    ensures rows[..Min(k, |rows|)] + Page(rows, k, take) == rows[..Min(k + take, |rows|)]
  {
    if k < |rows| {
      assert rows[..Min(k + take, |rows|)] == rows[..k] + rows[k..Min(k + take, |rows|)];
    }
  }

  lemma PageEnd(n: nat, limit: int)
    requires n >= 1 && limit >= 1
    ensures Skip(n, limit) + limit == n * limit
  {
  }

  /** Paging through the first `n` pages reads the rows in order, with no
      row skipped or repeated. */
  lemma {:induction false} FirstPagesArePrefix<T>(rows: seq<T>, limit: int, n: nat)
    requires limit >= 1
    ensures FirstPages(rows, limit, n) == rows[..Min(n * limit, |rows|)]
  {
    if n > 0 {
      FirstPagesArePrefix(rows, limit, n - 1);
      PageEnd(n, limit);
      PrefixThenPage(rows, Skip(n, limit), limit);
    }
  }

  /** Pages 1 to `totalPages` together are exactly the result set. */
  lemma AllPagesCoverRows<T>(rows: seq<T>, limit: int)
    requires limit >= 1
    ensures FirstPages(rows, limit, TotalPages(|rows|, limit)) == rows
  {
    FirstPagesArePrefix(rows, limit, TotalPages(|rows|, limit));
  }

  /** A page is non-empty exactly when its number is between 1 and
      `totalPages`. */
  lemma PageNonEmptyIff<T>(rows: seq<T>, page: int, limit: int)
    requires page >= 1 && limit >= 1
    ensures |Page(rows, Skip(page, limit), limit)| > 0 <==> page <= TotalPages(|rows|, limit)
  {
    var n := TotalPages(|rows|, limit);
    var k := Skip(page, limit);
    assert k == (page - 1) * limit;
    if page <= n {
      assert (page - 1) * limit <= (n - 1) * limit;
    } else {
      assert (page - 1) * limit >= n * limit;
    }
  }

  /** Everything a listing states about page `page` of `limit` rows: it
      starts `page - 1` whole pages into `rows`, holds at most `limit` rows,
      holds exactly `limit` rows or the rest of `rows` when it starts inside
      them, reads `rows` in order from its start, and is non-empty exactly when
      `page` is at most `Math.ceil(|rows| / limit)`. */
  lemma ListingShape<T>(rows: seq<T>, page: int, limit: int)
    requires page >= 1 && limit >= 1
    ensures Skip(page, limit) == (page - 1) * limit
    ensures |Page(rows, Skip(page, limit), limit)| <= limit
    ensures Skip(page, limit) < |rows| ==>
              |Page(rows, Skip(page, limit), limit)| == Min(limit, |rows| - Skip(page, limit))
    ensures forall i :: 0 <= i < |Page(rows, Skip(page, limit), limit)| ==>
              Skip(page, limit) + i < |rows|
              && Page(rows, Skip(page, limit), limit)[i] == rows[Skip(page, limit) + i]
    ensures |Page(rows, Skip(page, limit), limit)| > 0 <==> page <= TotalPages(|rows|, limit)
  {
    PageNonEmptyIff(rows, page, limit);
  }

  /** 25 rows with 10 per page make 3 pages, the last holding 5 rows. */
  lemma TwentyFiveRowsExample<T>(rows: seq<T>)
    requires |rows| == 25
    ensures TotalPages(|rows|, DefaultLimit) == 3
    ensures |Page(rows, Skip(3, DefaultLimit), DefaultLimit)| == 5
  {
  }
}

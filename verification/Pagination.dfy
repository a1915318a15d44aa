/** Page arithmetic, internal/repository/repository.go:170-235. */
module Pagination {
  import opened Wrappers
  import opened Counting

  datatype Params = Params(page: int, limit: int, sortOrder: string)

  datatype Page = Page(page: int, limit: int, total: int, totalPages: int, hasNext: bool, hasPrevious: bool)

  predicate Normal(p: Params) {
    1 <= p.page && 1 <= p.limit <= 100 && (p.sortOrder == "ASC" || p.sortOrder == "DESC")
  }

  /** Each field of `p` is the field of `raw` if that was good, and its default or its bound otherwise. */
  predicate NormalFormOf(raw: Params, p: Params) {
    && Normal(p)
    && (if raw.page >= 1 then p.page == raw.page else p.page == 1)
    && (if raw.limit < 1 then p.limit == 20 else p.limit == if raw.limit > 100 then 100 else raw.limit)
    && (if raw.sortOrder == "ASC" || raw.sortOrder == "DESC" then p.sortOrder == raw.sortOrder
        else p.sortOrder == "DESC")
  }

  method ValidatePaginationParams(params: Params) returns (p: Params)
    ensures NormalFormOf(params, p)
    ensures Normal(params) <==> p == params
  {
    p := params;
    if p.page <= 0 {
      p := p.(page := 1);
    }
    if p.limit <= 0 {
      p := p.(limit := 20);
    }
    if p.limit > 100 {
      p := p.(limit := 100);
    }
    if p.sortOrder != "ASC" && p.sortOrder != "DESC" {
      p := p.(sortOrder := "DESC");
    }
  }

  function Offset(p: Params): int {
    (p.page - 1) * p.limit
  }

  function Magnitude(x: int): nat {
    if x < 0 then -x else x
  }

  /** Go's `/` and `%` truncate towards zero; dividing by zero panics. */
  function Quotient(total: nat, limit: int): int
    requires limit != 0
  {
    if limit > 0 then total / limit else -(total / Magnitude(limit))
  }

  function TotalPages(total: nat, limit: int): int
    requires limit != 0
  {
    Quotient(total, limit) + if total % Magnitude(limit) > 0 then 1 else 0
  }

  /** None: the division by zero of a limit that nobody normalised. */
  function BuildPaginatedResult(total: nat, p: Params): Option<Page> {
    if p.limit == 0 then None
    else
      var pages := TotalPages(total, p.limit);
      Some(Page(p.page, p.limit, total, pages, p.page < pages, p.page > 1))
  }

  /** Record `i` is on page `n`: the query's OFFSET and LIMIT select it. */
  predicate OnPage(i: int, n: int, p: Params) {
    var q := p.(page := n);
    Offset(q) <= i < Offset(q) + q.limit
  }

  lemma CeilingBounds(total: nat, limit: int)
    requires 1 <= limit
    ensures var n := TotalPages(total, limit); 0 <= n && (n - 1) * limit < total <= n * limit
  {
    assert total == limit * (total / limit) + total % limit;
  }

  /** Every record is on a page of 1..TotalPages ... */
  lemma RecordHasPage(total: nat, p: Params, i: nat)
    requires Normal(p) && i < total
    ensures var n := i / p.limit + 1; 1 <= n <= TotalPages(total, p.limit) && OnPage(i, n, p)
  {
    var n := i / p.limit + 1;
    assert i == p.limit * (i / p.limit) + i % p.limit;
    assert Offset(p.(page := n)) == p.limit * (i / p.limit);
    NoEmptyPage(total, p, n);
  }

  /** ... and on no other: the pages tile the records. */
  lemma RecordHasOnePage(p: Params, i: nat, n: int, m: int)
    requires Normal(p) && OnPage(i, n, p) && OnPage(i, m, p)
    ensures n == m
  {
    if m < n {
      MulMonotone(m, n - 1, p.limit);
    } else if m > n {
      MulMonotone(n, m - 1, p.limit);
    }
  }

  /** No page of 1..TotalPages is empty, and none of them starts beyond the last record. */
  lemma NoEmptyPage(total: nat, p: Params, n: int)
    requires Normal(p) && 1 <= n
    ensures n <= TotalPages(total, p.limit) <==> Offset(p.(page := n)) < total
  {
    CeilingBounds(total, p.limit);
    var pages := TotalPages(total, p.limit);
    if n <= pages {
      MulMonotone(n - 1, pages - 1, p.limit);
    } else {
      MulMonotone(pages, n - 1, p.limit);
    }
  }

  /** There is a next page exactly when records are left after this one. */
  lemma HasNextIff(total: nat, p: Params)
    requires Normal(p)
    ensures BuildPaginatedResult(total, p).Some?
    ensures BuildPaginatedResult(total, p).value.hasNext <==> Offset(p) + p.limit < total
  {
    NoEmptyPage(total, p, p.page + 1);
  }

  /** There is a page before exactly when records were passed over, and the rest of the metadata says what was asked. */
  lemma MetadataIs(total: nat, p: Params)
    requires Normal(p)
    ensures BuildPaginatedResult(total, p).Some?
    ensures var m := BuildPaginatedResult(total, p).value;
            && (m.hasPrevious <==> 0 < Offset(p))
            && m.page == p.page && m.limit == p.limit && m.total == total
            && 0 <= m.totalPages && (m.totalPages - 1) * p.limit < total <= m.totalPages * p.limit
            && (m.totalPages == 0 <==> total == 0)
  {
    CeilingBounds(total, p.limit);
    if p.page > 1 {
      MulMonotone(1, p.page - 1, p.limit);
    }
  }

  /**
    The services build the metadata from the parameters as they came, while the repositories normalise a copy for
    the query. The two agree on every total exactly when page and limit were normal to begin with.
   */
  lemma RawMetadataMatchesIff(raw: Params, p: Params)
    requires NormalFormOf(raw, p)
    ensures (forall total: nat :: BuildPaginatedResult(total, raw) == BuildPaginatedResult(total, p))
            <==> 1 <= raw.page && 1 <= raw.limit <= 100
  {
    if 1 <= raw.page && 1 <= raw.limit <= 100 {
      assert forall total: nat :: BuildPaginatedResult(total, raw) == BuildPaginatedResult(total, p);
    } else {
      assert BuildPaginatedResult(0, raw) != BuildPaginatedResult(0, p);
    }
  }
}

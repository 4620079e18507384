/** `findAll`: one page of a fixed, ordered result list, and its metadata. */
module Pagination {
  datatype Meta = Meta(page: nat, limit: nat, total: nat, totalPages: nat, hasNext: bool, hasPrev: bool)

  function Min(a: nat, b: nat): nat { if a < b then a else b }

  /** `Math.ceil(total / limit)`. */
  function TotalPages(total: nat, limit: nat): nat
    requires limit >= 1
  {
    (total + limit - 1) / limit
  }

  /** `findMany` with skip and take. */
  function Slice<T>(rows: seq<T>, skip: nat, take: nat): seq<T> {
    rows[Min(skip, |rows|)..Min(skip + take, |rows|)]
  }

  function Page<T>(rows: seq<T>, page: nat, limit: nat): seq<T>
    requires page >= 1
  {
    Slice(rows, (page - 1) * limit, limit)
  }

  function MetaOf(total: nat, page: nat, limit: nat): Meta
    requires page >= 1 && limit >= 1
  {
    Meta(page, limit, total, TotalPages(total, limit), page < TotalPages(total, limit), page > 1)
  }

  /** Pages 1 to n, one after another. */
  function Pages<T>(rows: seq<T>, limit: nat, n: nat): seq<T> {
    if n == 0 then [] else Pages(rows, limit, n - 1) + Page(rows, n, limit)
  }

  lemma CeilBounds(total: nat, limit: nat)
    requires limit >= 1
    ensures (TotalPages(total, limit) - 1) * limit < total <= TotalPages(total, limit) * limit || (total == 0 && TotalPages(total, limit) == 0)
  {
  }

  lemma {:induction false} PagesArePrefix<T>(rows: seq<T>, limit: nat, n: nat)
    requires limit >= 1
    ensures Pages(rows, limit, n) == rows[..Min(n * limit, |rows|)]
  {
    if n > 0 {
      PagesArePrefix(rows, limit, n - 1);
      assert (n - 1) * limit + limit == n * limit;
    }
  }

  /** Pages partition the result: 1 to totalPages, joined, are the whole list with
      every record once, and every later page is empty. */
  lemma {:induction false} PagesPartition<T>(rows: seq<T>, limit: nat)
    requires limit >= 1
    ensures Pages(rows, limit, TotalPages(|rows|, limit)) == rows
    ensures forall page: nat | page > TotalPages(|rows|, limit) :: Page(rows, page, limit) == []
  {
    var n := TotalPages(|rows|, limit);
    CeilBounds(|rows|, limit);
    PagesArePrefix(rows, limit, n);
    assert n * limit >= |rows|;
    forall page: nat | page > n ensures Page(rows, page, limit) == [] {
      Monotone(n, page - 1, limit);
    }
  }

  lemma Monotone(a: nat, b: nat, limit: nat)
    requires a <= b
    ensures a * limit <= b * limit
  {
  }

  /** `hasNext` holds exactly when a record lies past the current page, and
      `hasPrev` on every page but the first; every page up to the last is nonempty. */
  lemma {:induction false} HasNextIff<T>(rows: seq<T>, page: nat, limit: nat)
    requires page >= 1 && limit >= 1
    ensures MetaOf(|rows|, page, limit).hasNext <==> page * limit < |rows|
    ensures MetaOf(|rows|, page, limit).hasNext <==> Page(rows, page + 1, limit) != []
    ensures page <= TotalPages(|rows|, limit) ==> Page(rows, page, limit) != []
    ensures var meta := MetaOf(|rows|, page, limit);
            meta.total == |rows| && meta.page == page && meta.limit == limit && (meta.hasPrev <==> page != 1)
            && (meta.totalPages == 0 <==> rows == [])
  {
    var n := TotalPages(|rows|, limit);
    CeilBounds(|rows|, limit);
    if page < n { Monotone(page, n - 1, limit); } else { Monotone(n, page, limit); }
    if page <= n { Monotone(page - 1, n - 1, limit); }
  }

  lemma QuotientIsUnique(q: nat, offset: nat, limit: nat)
    requires limit >= 1 && offset < limit
    ensures (q * limit + offset) / limit == q && (q * limit + offset) % limit == offset
  {
    var i := q * limit + offset;
    var r := i / limit;
    assert i == r * limit + i % limit;
    if q < r { Monotone(q + 1, r, limit); }
    if r < q { Monotone(r + 1, q, limit); }
  }

  /** Record `i` is on page `i / limit + 1` at offset `i % limit`, and on no other. */
  lemma {:induction false} RecordIsOnOnePage<T>(rows: seq<T>, i: nat, page: nat, offset: nat, limit: nat)
    requires i < |rows| && page >= 1 && limit >= 1 && offset < limit
    ensures (page - 1) * limit + offset == i <==> page == i / limit + 1 && offset == i % limit
    ensures page == i / limit + 1 && offset == i % limit ==>
              offset < |Page(rows, page, limit)| && Page(rows, page, limit)[offset] == rows[i]
  {
    QuotientIsUnique(page - 1, offset, limit);
    assert i == (i / limit) * limit + i % limit;
  }
}

/** `offset((page - 1) * limit).limit(limit)` over an ordered result. */
module Paging {

  function Min(a: int, b: int): int {
    if a <= b then a else b
  }

  /** Number of entries before 1-based page `page` of size `limit`. */
  function Skip(page: nat, limit: nat): nat
    requires page >= 1
  {
    (page - 1) * limit
  }

  /** The entries of `s` on 1-based page `page` of size `limit`. */
  function Page<T>(s: seq<T>, page: nat, limit: nat): (r: seq<T>)
    requires page >= 1 && limit >= 1
    ensures |r| <= limit
    ensures |r| == if Skip(page, limit) >= |s| then 0 else Min(limit, |s| - Skip(page, limit))
    ensures forall k :: 0 <= k < |r| ==> r[k] == s[Skip(page, limit) + k]
  {
    var skip := Skip(page, limit);
    s[Min(skip, |s|)..Min(skip + limit, |s|)]
  }

  /** The 1-based page that shows entry `j` when pages hold `limit` entries. */
  function PageOf(j: nat, limit: nat): (r: nat)
    requires limit >= 1
    ensures r >= 1
  {
    j / limit + 1
  }

  /** The position of entry `j` on its page. */
  function SlotOf(j: nat, limit: nat): nat
    requires limit >= 1
  {
    j % limit
  }

  /** Every entry of `s` is shown exactly where paging puts it: entry j is
      entry `SlotOf(j, limit)` of page `PageOf(j, limit)`. */
  lemma OnItsPage<T>(s: seq<T>, j: nat, limit: nat)
    requires j < |s| && limit >= 1
    ensures SlotOf(j, limit) < |Page(s, PageOf(j, limit), limit)|
    ensures Page(s, PageOf(j, limit), limit)[SlotOf(j, limit)] == s[j]
  {
    var page := PageOf(j, limit);
    assert Skip(page, limit) == (j / limit) * limit;
    assert Skip(page, limit) + j % limit == j;
  }
}

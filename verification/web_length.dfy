/**
The length a web search read reports (engine-py/python/rust_orm_shim.py): taken from the page when the
page settles it, counted otherwise, and never counted past the cap a client set.
*/
module WebLength {
  import opened Wrappers

  function Min(a: nat, b: nat): nat
  {
    if a < b then a else b
  }

  function Capped(cap: Option<nat>, n: nat): nat
  {
    if cap.None? then n else Min(cap.value, n)
  }

  /** The records of the page a search of `total` records returns. */
  function PageSize(total: nat, offset: nat, limit: Option<nat>): nat
  {
    Capped(limit, if offset < total then total - offset else 0)
  }

  /** The reported length for a page of `n` records.  `count` asks the kernel, which counts up to a cap. */
  function LengthOf(n: nat, offset: nat, limit: Option<nat>, countLimit: Option<nat>, force: bool,
                    count: Option<nat> -> nat): nat
  {
    if n == 0 then if offset == 0 then 0 else count(countLimit)
    else
      var current := n + offset;
      var limitReached := limit == Some(n);
      var countLimitReached := countLimit.Some? && countLimit.value > 0 && countLimit.value <= current;
      if limit.Some? && limit.value > 0 && ((limitReached && !countLimitReached) || force) then count(countLimit)
      else current
  }

  /** The kernel counts the records of the search, up to the cap. */
  ghost predicate Counts(count: Option<nat> -> nat, total: nat)
  {
    forall cap :: count(cap) == Capped(cap, total)
  }

  /** As far as the client counts. */
  predicate Agrees(length: nat, total: nat, countLimit: Option<nat>)
  {
    Capped(countLimit, length) == Capped(countLimit, total)
  }

  /** A page of no records is asked for, at the front of a search that finds some and is counted. */
  predicate AsksForNothing(total: nat, offset: nat, limit: Option<nat>, countLimit: Option<nat>)
  {
    limit == Some(0) && offset == 0 && total > 0 && countLimit != Some(0)
  }

  /** The reported length and the true total agree as far as the client counts, and are equal when it
      sets no cap, exactly unless an empty page was asked for. */
  lemma LengthIsTotal(total: nat, offset: nat, limit: Option<nat>, countLimit: Option<nat>, force: bool,
                      count: Option<nat> -> nat)
    requires Counts(count, total)
    ensures var length := LengthOf(PageSize(total, offset, limit), offset, limit, countLimit, force, count);
            && (Agrees(length, total, countLimit) <==> !AsksForNothing(total, offset, limit, countLimit))
            && (countLimit.None? ==> (Agrees(length, total, countLimit) <==> length == total))
  {
    var page := PageSize(total, offset, limit);
    if page > 0 && limit != Some(page) {
      assert page + offset == total;
    }
  }

  /** The kernel is spared the count when the page is not full, or reaches the client's cap, and the count
      is not forced: whatever it would say, the length is where the page ends. */
  lemma CountSpared(n: nat, offset: nat, limit: Option<nat>, countLimit: Option<nat>, count: Option<nat> -> nat)
    requires n > 0
    requires limit == None || n < limit.value || (countLimit.Some? && 0 < countLimit.value <= n + offset)
    ensures LengthOf(n, offset, limit, countLimit, false, count) == n + offset
  {
  }
}

/** The capped pagination loop shared by the featured-playlist listing (cap 100) and
    the playlist-item listing (cap 200): the first page is always taken, and another
    page is requested while the last one has a next cursor and fewer than `cap` items
    are held. A whole page is appended each time, so the total can pass the cap by
    up to one page.

    The service is the chain of answers it would give: the answer to the first call,
    then to each `next` call in turn. */
module Pagination {
  import opened Records

  /** The chain goes on exactly while a page arrives that has a next cursor. */
  predicate WellFormedChain<T>(chain: seq<Fetch<T>>) {
    && |chain| > 0
    && forall i :: 0 <= i < |chain| ==>
         ((chain[i].Got? && chain[i].page.hasNext) <==> i + 1 < |chain|)
  }

  /** The items of the first n pages, in order. */
  function Held<T>(chain: seq<Fetch<T>>, n: nat): seq<T>
    requires n <= |chain|
    requires forall i :: 0 <= i < n ==> chain[i].Got?
  {
    if n == 0 then [] else Held(chain, n - 1) + chain[n - 1].page.items
  }

  /** Once answer j has arrived, no further call is made: it raised, it has no next
      cursor, or the items held reach the cap. */
  predicate StopsAfter<T>(chain: seq<Fetch<T>>, cap: nat, j: nat)
    requires WellFormedChain(chain) && j < |chain|
  {
    chain[j].Raised? || !chain[j].page.hasNext || cap <= |Held(chain, j + 1)|
  }

  /** Exactly n calls are made: none of the first n - 1 answers ends the loop, the n-th does. */
  predicate StopsAt<T>(chain: seq<Fetch<T>>, cap: nat, n: nat)
    requires WellFormedChain(chain)
  {
    && 1 <= n <= |chain|
    && (forall j :: 0 <= j < n - 1 ==> !StopsAfter(chain, cap, j))
    && StopsAfter(chain, cap, n - 1)
  }

  /** The number of calls made, searching from answer `from` on. */
  function CallsFrom<T>(chain: seq<Fetch<T>>, cap: nat, from: nat): (n: nat)
    requires WellFormedChain(chain) && from < |chain|
    requires forall j :: 0 <= j < from ==> !StopsAfter(chain, cap, j)
    ensures StopsAt(chain, cap, n)
    decreases |chain| - from
  {
    if StopsAfter(chain, cap, from) then from + 1 else CallsFrom(chain, cap, from + 1)
  }

  function Calls<T>(chain: seq<Fetch<T>>, cap: nat): nat
    requires WellFormedChain(chain)
  {
    CallsFrom(chain, cap, 0)
  }

  /** What the loop hands back: the exception of the call that raised, or every
      item of every page fetched. */
  function Collected<T>(chain: seq<Fetch<T>>, cap: nat): Result<seq<T>>
    requires WellFormedChain(chain)
  {
    var n := Calls(chain, cap);
    if chain[n - 1].Raised? then Err(chain[n - 1].error) else Ok(Held(chain, n))
  }

  /** The number of calls is determined by the chain and the cap. */
  lemma StopsAtUnique<T>(chain: seq<Fetch<T>>, cap: nat, n: nat, m: nat)
    requires WellFormedChain(chain)
    requires StopsAt(chain, cap, n) && StopsAt(chain, cap, m)
    ensures n == m
  {
  }

  /** Whatever number of calls satisfies StopsAt is the one Collected describes. */
  lemma CollectedAt<T>(chain: seq<Fetch<T>>, cap: nat, n: nat)
    requires WellFormedChain(chain) && StopsAt(chain, cap, n)
    ensures Calls(chain, cap) == n
    ensures chain[n - 1].Raised? ==> Collected(chain, cap) == Err(chain[n - 1].error)
    ensures chain[n - 1].Got? ==> Collected(chain, cap) == Ok(Held(chain, n))
  {
    StopsAtUnique(chain, cap, n, Calls(chain, cap));
  }

  /** When every page has at most `limit` items and the loop did not fail, the total
      passes the cap by less than one page. */
  lemma {:induction false} OverrunBound<T>(chain: seq<Fetch<T>>, cap: nat, limit: nat, n: nat)
    requires WellFormedChain(chain) && 0 < cap
    requires forall i :: 0 <= i < |chain| && chain[i].Got? ==> |chain[i].page.items| <= limit
    requires StopsAt(chain, cap, n) && chain[n - 1].Got?
    ensures |Held(chain, n)| < cap + limit
  {
    if n > 1 {
      assert !StopsAfter(chain, cap, n - 2);
      assert Held(chain, n) == Held(chain, n - 1) + chain[n - 1].page.items;
    } else {
      assert Held(chain, 1) == Held(chain, 0) + chain[0].page.items;
    }
  }

  /** The loop of `get_featured_playlists` and `get_tracks_from_playlist`; `calls` is
      the number of requests made. */
  method FetchPages<T>(chain: seq<Fetch<T>>, cap: nat) returns (result: Result<seq<T>>, calls: nat)
    requires WellFormedChain(chain)
    ensures StopsAt(chain, cap, calls)
    ensures chain[calls - 1].Raised? ==> result == Err(chain[calls - 1].error)
    ensures chain[calls - 1].Got? ==> result == Ok(Held(chain, calls))
  {
    calls := 1;
    if chain[0].Raised? {
      return Err(chain[0].error), calls;
    }
    var held := chain[0].page.items;
    var last := chain[0].page;
    assert Held(chain, 1) == Held(chain, 0) + chain[0].page.items;
    while last.hasNext && |held| < cap
      invariant 1 <= calls <= |chain|
      invariant forall i :: 0 <= i < calls ==> chain[i].Got?
      invariant last == chain[calls - 1].page
      invariant held == Held(chain, calls)
      invariant forall j :: 0 <= j < calls - 1 ==> !StopsAfter(chain, cap, j)
      decreases |chain| - calls
    {
      var answer := chain[calls];
      calls := calls + 1;
      if answer.Raised? {
        return Err(answer.error), calls;
      }
      held := held + answer.page.items;
      last := answer.page;
    }
    result := Ok(held);
  }
}

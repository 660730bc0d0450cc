/**
 * The "load more" pagination of src/components/IconGenerator/IconGallery.tsx.
 * The gallery keeps every result fetched so far (`allResults`), the prefix it
 * shows (`icons`), the last page shown (`page`) and whether the "Load More"
 * button is offered (`hasMore`). A search result is an input: the first load
 * receives `searchIcons(query)` and a load that runs past the fetched results
 * receives `searchIcons(query, {}, page + 1)`.
 */
module Gallery {
  import opened Icons

  /** `ICONS_PER_PAGE`. */
  const PageSize: nat := 100

  function Min(a: nat, b: nat): nat { if a <= b then a else b }

  /** The first `PageSize` items of a list (`slice(0, ICONS_PER_PAGE)`). */
  function FirstPage(s: seq<Icon>): (r: seq<Icon>)
    ensures r <= s && |r| == Min(PageSize, |s|)
  {
    s[..Min(PageSize, |s|)]
  }

  datatype GalleryState = GalleryState(icons: seq<Icon>, allResults: seq<Icon>, page: nat, hasMore: bool)

  /** The state the component starts in, before its first search has answered. */
  const Start := GalleryState([], [], 1, true)

  /** `fetchIcons`: a new search resets the gallery to the first page of its results. */
  function Loaded(results: seq<Icon>): (s: GalleryState)
    ensures s.page == 1 && s.allResults == results
    ensures s.icons <= results && |s.icons| == Min(PageSize, |results|)
    ensures s.hasMore <==> |results| > PageSize
  {
    GalleryState(FirstPage(results), results, 1, |results| > PageSize)
  }

  /** The reuse branch of `loadMore` applies: the next page lies inside the fetched results. */
  predicate NextPageFetched(s: GalleryState)
  {
    |s.allResults| >= (s.page + 1) * PageSize
  }

  /**
   * `loadMore`. When the next page is already fetched it is appended from
   * `allResults`; otherwise `more` (the provider answer for the next page) is
   * appended to `allResults` and its first page to `icons`. Either way the
   * page advances and the old lists are kept as prefixes of the new ones.
   */
  function LoadedMore(s: GalleryState, more: seq<Icon>): (t: GalleryState)
    ensures t.page == s.page + 1
    ensures s.icons <= t.icons && s.allResults <= t.allResults
  {
    var nextPage := s.page + 1;
    if |s.allResults| >= nextPage * PageSize then
      var t := GalleryState(s.icons + s.allResults[(nextPage - 1) * PageSize..nextPage * PageSize],
                            s.allResults, nextPage, nextPage * PageSize < |s.allResults|);
      assert t.icons[..|s.icons|] == s.icons;
      t
    else
      var t := GalleryState(s.icons + FirstPage(more), s.allResults + more, nextPage, |more| > 0);
      assert t.icons[..|s.icons|] == s.icons;
      assert t.allResults[..|s.allResults|] == s.allResults;
      t
  }

  /** The shown icons are exactly the pages `1..page` of the fetched results. */
  predicate Aligned(s: GalleryState)
  {
    s.icons == s.allResults[..Min(s.page * PageSize, |s.allResults|)]
  }

  /**
   * Reuse branch: nothing is fetched, the shown list grows by exactly the
   * page `page + 1` of the fetched results, and more is offered iff results
   * remain beyond it.
   */
  lemma ReuseBranch(s: GalleryState, more: seq<Icon>)
    requires NextPageFetched(s)
    ensures var t := LoadedMore(s, more);
      && t.allResults == s.allResults
      && t.icons == s.icons + s.allResults[s.page * PageSize..(s.page + 1) * PageSize]
      && |t.icons| == |s.icons| + PageSize
      && (t.hasMore <==> (s.page + 1) * PageSize < |s.allResults|)
  {
  }

  /**
   * Fetch branch: the new answer is appended without removing duplicates, the
   * shown list grows by at most one page of it, and more is offered iff the
   * answer was non-empty.
   */
  lemma FetchBranch(s: GalleryState, more: seq<Icon>)
    requires !NextPageFetched(s)
    ensures var t := LoadedMore(s, more);
      && t.allResults == s.allResults + more
      && |t.allResults| == |s.allResults| + |more|
      && t.icons == s.icons + more[..Min(PageSize, |more|)]
      && (t.hasMore <==> more != [])
  {
  }

  /** The first load is aligned with the pages. */
  lemma LoadedAligned(results: seq<Icon>)
    ensures Aligned(Loaded(results))
  {
  }

  /** A reuse step keeps the shown list aligned with the pages. */
  lemma ReuseKeepsAligned(s: GalleryState, more: seq<Icon>)
    requires Aligned(s) && NextPageFetched(s)
    ensures Aligned(LoadedMore(s, more))
  {
    var t := LoadedMore(s, more);
    var n := s.page * PageSize;
    assert Min(n, |s.allResults|) == n;
    assert Min(t.page * PageSize, |t.allResults|) == n + PageSize;
    assert s.allResults[..n] + s.allResults[n..n + PageSize] == s.allResults[..n + PageSize];
  }

  /**
   * When the fetched results end strictly inside the next page, the fetch
   * branch runs and the results already fetched past the shown pages are
   * never shown: the positions they hold in `allResults` hold the new answer
   * in `icons`.
   */
  lemma FetchSkipsFetchedTail(s: GalleryState, more: seq<Icon>)
    requires Aligned(s)
    requires s.page * PageSize < |s.allResults| < (s.page + 1) * PageSize
    ensures var t := LoadedMore(s, more);
      && t.icons == s.allResults[..s.page * PageSize] + more[..Min(PageSize, |more|)]
      && t.allResults[s.page * PageSize..|s.allResults|] == s.allResults[s.page * PageSize..]
      && |t.allResults| - |t.icons| >= |s.allResults| - s.page * PageSize > 0
  {
    var n := s.page * PageSize;
    assert Min(n, |s.allResults|) == n;
    var t := LoadedMore(s, more);
    assert t.allResults[n..|s.allResults|] == s.allResults[n..];
  }

  /** A sequence of loads that never fetches keeps the shown list aligned. */
  lemma {:induction false} ReuseOnlyAligned(s: GalleryState, n: nat)
    requires Aligned(s)
    requires forall k :: 0 <= k < n ==> NextPageFetched(ReusedTimes(s, k))
    ensures Aligned(ReusedTimes(s, n))
  {
    if n > 0 {
      ReuseOnlyAligned(s, n - 1);
      ReuseKeepsAligned(ReusedTimes(s, n - 1), []);
    }
  }

  /** `n` loads from `s` with no new answers. */
  function ReusedTimes(s: GalleryState, n: nat): GalleryState
  {
    if n == 0 then s else LoadedMore(ReusedTimes(s, n - 1), [])
  }

  /** The gallery component's pagination state. */
  class IconGallery {
    var icons: seq<Icon>
    var allResults: seq<Icon>
    var page: nat
    var hasMore: bool

    function State(): GalleryState
      reads this
    {
      GalleryState(icons, allResults, page, hasMore)
    }

    /** The initial `useState` values. */
    constructor ()
      ensures State() == Start
    {
      icons := [];
      allResults := [];
      page := 1;
      hasMore := true;
    }

    /** `fetchIcons` with the search answer `results`. */
    method FetchIcons(results: seq<Icon>)
      modifies this
      ensures State() == Loaded(results)
    {
      page := 1;
      icons := results[..Min(PageSize, |results|)];
      hasMore := |results| > PageSize;
      allResults := results;
    }

    /** `loadMore`; `more` is the answer used only when the next page is not yet fetched. */
    method LoadMore(more: seq<Icon>)
      modifies this
      ensures State() == LoadedMore(old(State()), more)
    {
      var nextPage := page + 1;
      var startIndex := (nextPage - 1) * PageSize;
      var endIndex := nextPage * PageSize;
      if |allResults| >= endIndex {
        var newIcons := allResults[startIndex..endIndex];
        icons := icons + newIcons;
        page := nextPage;
        hasMore := endIndex < |allResults|;
      } else {
        allResults := allResults + more;
        icons := icons + more[..Min(PageSize, |more|)];
        page := nextPage;
        hasMore := |more| > 0;
      }
    }
  }
}

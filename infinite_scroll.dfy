/** The scroll container: an intersection observer on a sentinel below the
    list asks the controller for the next page, and a retry button is shown
    with the error. The observer and the DOM are left out; a batch of
    entries is given as the `isIntersecting` flags of its entries. */
module InfiniteScroll {
  import opened PostSchema
  import opened PostsContext
  import opened InitialPostsLoader

  datatype ObserverEntry = ObserverEntry(isIntersecting: bool)

  /** What `handleIntersection` does with a batch: call `loadNextPage()`,
      do nothing, or throw on reading the first entry of an empty batch. */
  datatype IntersectionOutcome = CallsLoad | Ignored | ThrowsOnEmptyBatch

  function HandleIntersection(entries: seq<ObserverEntry>, s: PostsState): (r: IntersectionOutcome)
    ensures entries == [] <==> r == ThrowsOnEmptyBatch
    ensures r == CallsLoad <==>
      entries != [] && entries[0].isIntersecting && s.hasMore && !s.loading && s.initialLoaded
  {
    if entries == [] then ThrowsOnEmptyBatch
    else
      var entry := entries[0];
      if entry.isIntersecting && s.hasMore && !s.loading && s.initialLoaded then CallsLoad else Ignored
  }

  /** Only the first entry of a batch matters. */
  lemma {:induction false} OnlyFirstEntryCounts(entries: seq<ObserverEntry>, s: PostsState)
    requires entries != []
    ensures HandleIntersection(entries, s) == HandleIntersection(entries[..1], s)
  {
  }

  /** The observer's callback together with the call it makes: the
      controller's state afterwards and what the call did. */
  function OnIntersection(entries: seq<ObserverEntry>, s: PostsState, outcome: FetchOutcome): (r: LoadResult)
    ensures HandleIntersection(entries, s) != CallsLoad ==> r == LoadResult(s, Skipped)
    ensures HandleIntersection(entries, s) == CallsLoad ==> r == LoadStep(s, false, outcome)
  {
    if HandleIntersection(entries, s) == CallsLoad then LoadStep(s, false, outcome) else LoadResult(s, Skipped)
  }

  /** Without a seed the sentinel never loads anything; with an empty
      initial list the loader never seeds, so scrolling never loads. */
  lemma {:induction false} NoSeedNoLoad(s: PostsState, entries: seq<ObserverEntry>, totalPosts: int, outcome: FetchOutcome)
    requires !s.initialLoaded
    ensures var t := RunEffect(s, [], totalPosts);
      OnIntersection(entries, t, outcome) == LoadResult(t, Skipped)
  {
  }

  /** The retry button can be pressed only while no load is running. */
  predicate RetryEnabled(s: PostsState)
  {
    !s.loading
  }

  /** A press of the retry button: `loadNextPage()` without forcing. */
  function OnRetryClick(s: PostsState, outcome: FetchOutcome): (r: LoadResult)
    requires RetryEnabled(s)
    ensures s.retryCount >= 3 ==> r == LoadResult(s, Skipped)
    ensures s.retryCount < 3 && s.hasMore ==> r.effect.Fetched? && r.effect.page == s.currentPage
  {
    LoadStep(s, false, outcome)
  }

  /** After three failures the button stays visible but does nothing. */
  lemma {:induction false} RetryButtonInertAfterThreeFailures(s: PostsState, outcome: FetchOutcome)
    requires RetryEnabled(s) && s.retryCount >= 3
    ensures OnRetryClick(s, outcome).state == s
  {
  }
}

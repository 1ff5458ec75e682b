/** The client-side controller of the infinite post list: its state, the
    reducer over five actions and `loadNextPage`, which guards, picks the
    backoff delay and the request, and turns the fetch's outcome into an
    action. The fetch's outcome is an input; timers and cancellation are
    left out, and the delays and the auto-retry decision are returned as
    values. */
module PostsContext {
  import opened Common
  import opened PostSchema

  type Positive = n: int | n > 0 witness 1

  datatype PostsState = PostsState(
    posts: seq<PostSummary>,
    currentPage: nat,
    hasMore: bool,
    loading: bool,
    error: Option<string>,
    postsPerPage: Positive,
    initialLoaded: bool,
    totalPosts: Option<int>,
    retryCount: nat,
    maxPostsInMemory: Positive)

  const InitialState := PostsState([], 0, true, false, None, 5, false, None, 0, 50)

  datatype PostsAction =
    | LoadStart
    | LoadSuccess(posts: seq<PostSummary>, hasMore: bool, totalPosts: Option<int>)
    | LoadError(message: string)
    | SetInitial(initialPosts: seq<PostSummary>, total: int)
    | Reset

  // ---------------------------------------------------------------------
  // Sequence helpers

  /** `xs` can be obtained from `ys` by deleting elements. */
  predicate IsSubsequence<T(==)>(xs: seq<T>, ys: seq<T>)
    decreases |ys|
  {
    xs == [] || (ys != [] && if xs[0] == ys[0] then IsSubsequence(xs[1..], ys[1..]) else IsSubsequence(xs, ys[1..]))
  }

  lemma {:induction false} SubsequenceOfItself<T>(xs: seq<T>)
    ensures IsSubsequence(xs, xs)
    decreases |xs|
  {
    if xs != [] {
      SubsequenceOfItself(xs[1..]);
    }
  }

  lemma {:induction false} SlugsOfPrefix(x: PostSummary, ps: seq<PostSummary>)
    ensures Slugs([x] + ps) == {x.slug} + Slugs(ps)
  {
    var xs := [x] + ps;
    assert xs[0].slug == x.slug;
    forall s | s in Slugs(xs) ensures s in {x.slug} + Slugs(ps) {
      var i :| 0 <= i < |xs| && xs[i].slug == s;
      if i > 0 {
        assert ps[i - 1].slug == s;
      }
    }
    forall s | s in Slugs(ps) ensures s in Slugs(xs) {
      var i :| 0 <= i < |ps| && ps[i].slug == s;
      assert xs[i + 1].slug == s;
    }
  }

  /** The payload filter of `LOAD_SUCCESS`: the fetched posts whose slug is
      not held, in payload order. Duplicates inside the payload stay. */
  function FreshPosts(held: seq<PostSummary>, fetched: seq<PostSummary>): (r: seq<PostSummary>)
    ensures |r| <= |fetched|
    decreases |fetched|
  {
    if fetched == [] then []
    else if fetched[0].slug in Slugs(held) then FreshPosts(held, fetched[1..])
    else [fetched[0]] + FreshPosts(held, fetched[1..])
  }

  /** A fetched post is kept exactly when its slug is not held. */
  lemma {:induction false} FreshPostsMembers(held: seq<PostSummary>, fetched: seq<PostSummary>)
    ensures forall p :: p in FreshPosts(held, fetched) <==> p in fetched && p.slug !in Slugs(held)
    decreases |fetched|
  {
    if fetched != [] {
      FreshPostsMembers(held, fetched[1..]);
      assert fetched == [fetched[0]] + fetched[1..];
    }
  }

  /** Every fetched post whose slug is not held is kept as often as it
      occurs in the payload; the others are dropped entirely. */
  lemma {:induction false} FreshPostsCounts(held: seq<PostSummary>, fetched: seq<PostSummary>)
    ensures forall p ::
      multiset(FreshPosts(held, fetched))[p] == (if p.slug in Slugs(held) then 0 else multiset(fetched)[p])
    decreases |fetched|
  {
    if fetched != [] {
      FreshPostsCounts(held, fetched[1..]);
      assert fetched == [fetched[0]] + fetched[1..];
      assert multiset(fetched) == multiset([fetched[0]]) + multiset(fetched[1..]);
    }
  }

  /** The kept posts are in payload order. */
  lemma {:induction false} FreshPostsSubsequence(held: seq<PostSummary>, fetched: seq<PostSummary>)
    ensures IsSubsequence(FreshPosts(held, fetched), fetched)
    decreases |fetched|
  {
    if fetched != [] {
      var rest := FreshPosts(held, fetched[1..]);
      FreshPostsSubsequence(held, fetched[1..]);
      if fetched[0].slug in Slugs(held) {
        if rest != [] {
          SkipHead(rest, fetched);
        }
      } else {
        assert ([fetched[0]] + rest)[1..] == rest;
      }
    }
  }

  /** A payload with no held slug is kept whole. */
  lemma {:induction false} FreshPostsAllNew(held: seq<PostSummary>, fetched: seq<PostSummary>)
    requires forall i :: 0 <= i < |fetched| ==> fetched[i].slug !in Slugs(held)
    ensures FreshPosts(held, fetched) == fetched
    decreases |fetched|
  {
    if fetched != [] {
      FreshPostsAllNew(held, fetched[1..]);
      assert fetched == [fetched[0]] + fetched[1..];
    }
  }

  /** No kept post shares a slug with a held one. */
  lemma {:induction false} FreshPostsDisjoint(held: seq<PostSummary>, fetched: seq<PostSummary>)
    ensures Slugs(FreshPosts(held, fetched)) !! Slugs(held)
  {
    var r := FreshPosts(held, fetched);
    FreshPostsMembers(held, fetched);
    forall i | 0 <= i < |r| ensures r[i].slug !in Slugs(held) {
      assert r[i] in r;
    }
  }

  /** A payload with distinct slugs gives kept posts with distinct slugs. */
  lemma {:induction false} FreshPostsDistinct(held: seq<PostSummary>, fetched: seq<PostSummary>)
    requires DistinctSlugs(fetched)
    ensures DistinctSlugs(FreshPosts(held, fetched))
    decreases |fetched|
  {
    if fetched != [] {
      var tail := fetched[1..];
      var rest := FreshPosts(held, tail);
      assert DistinctSlugs(tail) by {
        forall i, j | 0 <= i < j < |tail| ensures tail[i].slug != tail[j].slug {
          assert tail[i] == fetched[i + 1] && tail[j] == fetched[j + 1];
        }
      }
      FreshPostsDistinct(held, tail);
      if fetched[0].slug !in Slugs(held) {
        FreshPostsMembers(held, tail);
        var r := [fetched[0]] + rest;
        forall i, j | 0 <= i < j < |r| ensures r[i].slug != r[j].slug {
          if i == 0 {
            assert r[j] == rest[j - 1] && rest[j - 1] in tail;
            var k :| 0 <= k < |tail| && tail[k] == rest[j - 1];
            assert fetched[k + 1] == tail[k];
          } else {
            assert r[i] == rest[i - 1] && r[j] == rest[j - 1];
          }
        }
      }
    }
  }

  /** Dropping a head that is not needed keeps a subsequence. */
  lemma {:induction false} SkipHead<T>(xs: seq<T>, ys: seq<T>)
    requires ys != [] && IsSubsequence(xs, ys[1..])
    ensures IsSubsequence(xs, ys)
    decreases |ys|, 1
  {
    if xs != [] && xs[0] == ys[0] {
      SubsequenceTail(xs, ys[1..]);
    }
  }

  /** A subsequence stays one when its head is dropped. */
  lemma {:induction false} SubsequenceTail<T>(xs: seq<T>, ys: seq<T>)
    requires xs != [] && IsSubsequence(xs, ys)
    ensures IsSubsequence(xs[1..], ys)
    decreases |ys|, 2
  {
    if xs[0] == ys[0] {
      if xs[1..] != [] {
        SkipHead(xs[1..], ys);
      }
    } else {
      SubsequenceTail(xs, ys[1..]);
      if xs[1..] != [] {
        SkipHead(xs[1..], ys);
      }
    }
  }

  lemma {:induction false} AppendKeepsDistinct(held: seq<PostSummary>, newOnes: seq<PostSummary>)
    requires DistinctSlugs(held) && DistinctSlugs(newOnes) && Slugs(held) !! Slugs(newOnes)
    ensures DistinctSlugs(held + newOnes)
  {
    var xs := held + newOnes;
    forall i, j | 0 <= i < j < |xs| ensures xs[i].slug != xs[j].slug {
      if i < |held| && j >= |held| {
        assert xs[i].slug in Slugs(held);
        assert xs[j] == newOnes[j - |held|];
        assert xs[j].slug in Slugs(newOnes);
      }
    }
  }

  /** `xs.length > max ? xs.slice(-max) : xs`: the newest `max` items. */
  function KeepNewest<T>(xs: seq<T>, max: Positive): (r: seq<T>)
    ensures |r| == Min(|xs|, max)
  {
    if |xs| > max then xs[|xs| - max..] else xs
  }

  /** What is dropped is the oldest part: the list is the dropped prefix
      followed by the kept items, in their order. */
  lemma {:induction false} KeepNewestIsSuffix<T>(xs: seq<T>, max: Positive)
    ensures var r := KeepNewest(xs, max); |r| <= |xs| && xs == xs[..|xs| - |r|] + r
  {
  }

  lemma {:induction false} SuffixKeepsDistinct(xs: seq<PostSummary>, d: nat)
    requires d <= |xs| && DistinctSlugs(xs)
    ensures DistinctSlugs(xs[d..])
  {
    var r := xs[d..];
    forall i, j | 0 <= i < j < |r| ensures r[i].slug != r[j].slug {
      assert r[i] == xs[d + i];
      assert r[j] == xs[d + j];
    }
  }

  /** `Math.ceil(n / d)` for a count and a positive page size. */
  function CeilDiv(n: nat, d: Positive): (q: nat)
    ensures (q - 1) * d < n <= q * d
  {
    if n == 0 then 0
    else
      var q := (n - 1) / d + 1;
      assert (n - 1) / d * d <= n - 1 < ((n - 1) / d + 1) * d;
      q
  }

  // ---------------------------------------------------------------------
  // The reducer

  /** `LOAD_SUCCESS`: append the fetched posts whose slug is not held,
      keep the newest `maxPostsInMemory`, advance the page, take `hasMore`,
      keep the old total when none is given, and clear the failure state. */
  function AfterLoadSuccess(s: PostsState, fetched: seq<PostSummary>, hasMore: bool, totalPosts: Option<int>): (r: PostsState)
    ensures |r.posts| <= s.maxPostsInMemory
    ensures r.posts == KeepNewest(s.posts + FreshPosts(s.posts, fetched), s.maxPostsInMemory)
    ensures r.currentPage == s.currentPage + 1
    ensures r.hasMore == hasMore
    ensures r.totalPosts == (if totalPosts.Some? then totalPosts else s.totalPosts)
    ensures !r.loading && r.error.None? && r.retryCount == 0
    ensures r.initialLoaded == s.initialLoaded
    ensures r.postsPerPage == s.postsPerPage && r.maxPostsInMemory == s.maxPostsInMemory
  {
    var newPosts := s.posts + FreshPosts(s.posts, fetched);
    s.(loading := false, posts := KeepNewest(newPosts, s.maxPostsInMemory), currentPage := s.currentPage + 1,
       hasMore := hasMore, totalPosts := if totalPosts.Some? then totalPosts else s.totalPosts,
       retryCount := 0, error := None)
  }

  /** `SET_INITIAL`: take the seeded list, point the page cursor at the
      first page not wholly covered by it, and set `hasMore` by comparing
      with the total; loading and failure state are untouched. */
  function AfterSetInitial(s: PostsState, posts: seq<PostSummary>, total: int): (r: PostsState)
    ensures r.posts == posts
    ensures (r.currentPage - 1) * s.postsPerPage < |posts| <= r.currentPage * s.postsPerPage
    ensures r.initialLoaded
    ensures r.hasMore == (|posts| < total)
    ensures r.totalPosts == Some(total)
    ensures r.loading == s.loading && r.error == s.error && r.retryCount == s.retryCount
    ensures r.postsPerPage == s.postsPerPage && r.maxPostsInMemory == s.maxPostsInMemory
  {
    s.(posts := posts, currentPage := CeilDiv(|posts|, s.postsPerPage), initialLoaded := true,
       hasMore := |posts| < total, totalPosts := Some(total))
  }

  /** `postsReducer`. */
  function Reduce(s: PostsState, a: PostsAction): (r: PostsState)
    ensures a.LoadStart? ==> r == s.(loading := true, error := None)
    ensures a.LoadSuccess? ==> r == AfterLoadSuccess(s, a.posts, a.hasMore, a.totalPosts)
    ensures a.LoadError? ==> r == s.(loading := false, error := Some(a.message), retryCount := s.retryCount + 1)
    ensures a.SetInitial? ==> r == AfterSetInitial(s, a.initialPosts, a.total)
    ensures a.Reset? ==> r == InitialState
  {
    match a
    case LoadStart => s.(loading := true, error := None)
    case LoadSuccess(fetched, hasMore, totalPosts) => AfterLoadSuccess(s, fetched, hasMore, totalPosts)
    case LoadError(message) => s.(loading := false, error := Some(message), retryCount := s.retryCount + 1)
    case SetInitial(posts, total) => AfterSetInitial(s, posts, total)
    case Reset => InitialState
  }

  /** Appending the new posts and trimming keeps slugs distinct. */
  lemma {:induction false} DistinctAfterSuccess(s: PostsState, fetched: seq<PostSummary>, hasMore: bool, totalPosts: Option<int>)
    requires DistinctSlugs(s.posts) && DistinctSlugs(fetched)
    ensures DistinctSlugs(AfterLoadSuccess(s, fetched, hasMore, totalPosts).posts)
  {
    var newOnes := FreshPosts(s.posts, fetched);
    FreshPostsDisjoint(s.posts, fetched);
    FreshPostsDistinct(s.posts, fetched);
    AppendKeepsDistinct(s.posts, newOnes);
    var xs := s.posts + newOnes;
    SuffixKeepsDistinct(xs, |xs| - |KeepNewest(xs, s.maxPostsInMemory)|);
  }

  /** Duplicates inside one payload are not removed. */
  lemma {:induction false} PayloadDuplicatesKept(s: PostsState, p: PostSummary)
    requires p.slug !in Slugs(s.posts)
    ensures |s.posts| + 2 <= s.maxPostsInMemory ==> Reduce(s, LoadSuccess([p, p], true, None)).posts == s.posts + [p, p]
  {
    FreshPostsAllNew(s.posts, [p, p]);
  }

  /** Seeding ten posts with five per page makes page 2 (posts 10 to 14)
      the next one requested. */
  lemma {:induction false} TenSeededPostsNextPageIsTwo(s: PostsState, posts: seq<PostSummary>, total: int)
    requires |posts| == 10 && s.postsPerPage == 5
    ensures Reduce(s, SetInitial(posts, total)).currentPage == 2
  {
    var q := Reduce(s, SetInitial(posts, total)).currentPage;
    assert (q - 1) * 5 < 10 <= q * 5;
  }

  /** `SET_INITIAL` does not look at `initialLoaded`: the reducer would
      seed again; only the loader's guard prevents it. */
  lemma {:induction false} SetInitialIgnoresInitialLoaded(s: PostsState, posts: seq<PostSummary>, total: int)
    ensures Reduce(s.(initialLoaded := true), SetInitial(posts, total))
      == Reduce(s.(initialLoaded := false), SetInitial(posts, total))
  {
  }

  // ---------------------------------------------------------------------
  // loadNextPage

  /** The parsed JSON body; `None` is a missing field (or, for `posts`, a
      value that is not an array). */
  datatype ResponseBody = ResponseBody(posts: Option<seq<PostSummary>>, hasMore: Option<bool>, totalPosts: Option<int>)

  /** What was thrown: a `TypeError` (a network failure), another `Error`,
      or a value that is not an `Error`. */
  datatype Thrown = NetworkError(message: string) | OtherError(message: string) | NotAnError

  /** How the request ended: an HTTP answer with its body, or an exception
      from `fetch` or `response.json()`. */
  datatype FetchOutcome = Responded(status: nat, body: ResponseBody) | Threw(error: Thrown)

  const BadFormat := "잘못된 API 응답 형식입니다"
  const UnknownError := "알 수 없는 오류가 발생했습니다"

  function HttpFailure(status: nat): string
  {
    "HTTP " + NatToString(status) + ": 포스트 로딩에 실패했습니다"
  }

  /** `response.ok`. */
  predicate IsOk(status: nat)
  {
    200 <= status <= 299
  }

  /** The action the try/catch dispatches after the request. */
  function OutcomeAction(o: FetchOutcome): (a: PostsAction)
    ensures a.LoadSuccess? || a.LoadError?
    ensures a.LoadSuccess? <==> o.Responded? && IsOk(o.status) && o.body.posts.Some?
    ensures a.LoadSuccess? ==>
      && a.posts == o.body.posts.value
      && a.hasMore == (o.body.hasMore == Some(true))
      && a.totalPosts == o.body.totalPosts
    ensures o.Responded? && !IsOk(o.status) ==> a == LoadError(HttpFailure(o.status))
    ensures o.Threw? && !o.error.NotAnError? ==> a == LoadError(o.error.message)
    ensures o.Threw? && o.error.NotAnError? ==> a == LoadError(UnknownError)
  {
    match o
    case Responded(status, body) =>
      if !IsOk(status) then LoadError(HttpFailure(status))
      else if body.posts.None? then LoadError(BadFormat)
      else LoadSuccess(body.posts.value, if body.hasMore.Some? then body.hasMore.value else false, body.totalPosts)
    case Threw(e) =>
      LoadError(if e.NotAnError? then UnknownError else e.message)
  }

  /** The guard of `loadNextPage`. */
  predicate ShouldLoad(s: PostsState, forceRetry: bool)
  {
    !(s.loading || (!s.hasMore && !forceRetry)) && !(!forceRetry && s.retryCount >= 3)
  }

  function Pow2(n: nat): (p: nat)
    ensures p >= 1
  {
    if n == 0 then 1 else 2 * Pow2(n - 1)
  }

  /** `Math.min(1000 * Math.pow(2, r), 10000)`. */
  function BackoffDelay(retryCount: nat): (ms: nat)
    ensures ms <= 10000
    ensures 1000 * Pow2(retryCount) <= 10000 ==> ms == 1000 * Pow2(retryCount)
    ensures retryCount >= 4 ==> ms == 10000
  {
    CapAt16(retryCount);
    Min(1000 * Pow2(retryCount), 10000)
  }

  lemma {:induction false} CapAt16(n: nat)
    ensures n >= 4 ==> Pow2(n) >= 16
  {
    if n > 4 {
      CapAt16(n - 1);
    }
  }

  /** The delay before the request: only for a non-forced call after a
      failure. */
  function Backoff(s: PostsState, forceRetry: bool): Option<nat>
  {
    if s.retryCount > 0 && !forceRetry then Some(BackoffDelay(s.retryCount)) else None
  }

  /** What one call did: nothing, or a request for a page after an optional
      delay, and whether a retry was scheduled in 2 s. */
  datatype LoadEffect = Skipped | Fetched(delay: Option<nat>, page: nat, limit: nat, autoRetry: bool)

  datatype LoadResult = LoadResult(state: PostsState, effect: LoadEffect)

  /** One call of `loadNextPage` with the outcome its request meets. */
  function LoadStep(s: PostsState, forceRetry: bool, o: FetchOutcome): (r: LoadResult)
    ensures !ShouldLoad(s, forceRetry) ==> r == LoadResult(s, Skipped)
    ensures ShouldLoad(s, forceRetry) ==>
      && r.effect.Fetched?
      && r.effect.page == s.currentPage && r.effect.limit == s.postsPerPage
      && r.effect.delay == (if s.retryCount > 0 && !forceRetry then Some(if s.retryCount == 1 then 2000 else 4000) else None)
      && (r.effect.autoRetry <==> o.Threw? && o.error.NetworkError? && s.retryCount < 2 && !forceRetry)
      && r.state == Reduce(s.(loading := true, error := None), OutcomeAction(o))
      && !r.state.loading
  {
    if !ShouldLoad(s, forceRetry) then LoadResult(s, Skipped)
    else
      var action := OutcomeAction(o);
      var retry := action.LoadError? && s.retryCount < 2 && !forceRetry && o.Threw? && o.error.NetworkError?;
      assert Pow2(1) == 2 && Pow2(2) == 4;
      LoadResult(Reduce(Reduce(s, LoadStart), action),
                 Fetched(Backoff(s, forceRetry), s.currentPage, s.postsPerPage, retry))
  }

  /** A failed load keeps the list, the page and `hasMore`, and counts one
      more failure. */
  lemma {:induction false} FailedLoadCountsUp(s: PostsState, forceRetry: bool, o: FetchOutcome)
    requires ShouldLoad(s, forceRetry) && !OutcomeAction(o).LoadSuccess?
    ensures var t := LoadStep(s, forceRetry, o).state;
      && t.retryCount == s.retryCount + 1
      && t.posts == s.posts && t.currentPage == s.currentPage && t.hasMore == s.hasMore
      && t.error.Some? && !t.loading
  {
  }

  /** After three failed unforced calls in a row, each reading the state the
      previous one left, a fourth unforced call does nothing, whatever its
      request would have met. */
  lemma {:induction false} ThreeFailuresStopUnforcedCalls(s: PostsState, o1: FetchOutcome, o2: FetchOutcome, o3: FetchOutcome, o4: FetchOutcome)
    requires !s.loading && s.hasMore && s.retryCount == 0
    requires !OutcomeAction(o1).LoadSuccess? && !OutcomeAction(o2).LoadSuccess? && !OutcomeAction(o3).LoadSuccess?
    ensures var s1 := LoadStep(s, false, o1).state;
      var s2 := LoadStep(s1, false, o2).state;
      var s3 := LoadStep(s2, false, o3).state;
      s3.retryCount == 3 && LoadStep(s3, false, o4) == LoadResult(s3, Skipped)
  {
    FailedLoadCountsUp(s, false, o1);
    var s1 := LoadStep(s, false, o1).state;
    FailedLoadCountsUp(s1, false, o2);
    var s2 := LoadStep(s1, false, o2).state;
    FailedLoadCountsUp(s2, false, o3);
  }

  /** The state the reducer reaches when `k` scheduled retries each start a
      load and each fail with `msg`. */
  function AfterFailedRetries(live: PostsState, msg: string, k: nat): PostsState
    decreases k
  {
    if k == 0 then live else Reduce(Reduce(AfterFailedRetries(live, msg, k - 1), LoadStart), LoadError(msg))
  }

  /** The retry scheduled after a network failure calls the callback it was
      created in, which still holds the state of that first call. Its guard
      and its retry decision therefore read a failure count of 0 on every
      attempt: while the network keeps failing it schedules another retry
      every time, while the live failure count climbs past the three-failure
      limit that stops calls reading the live state. */
  lemma {:induction false} StaleRetryNeverStops(captured: PostsState, live: PostsState, msg: string, k: nat)
    requires ShouldLoad(captured, false) && captured.retryCount == 0
    ensures LoadStep(captured, false, Threw(NetworkError(msg))).effect.autoRetry
    ensures AfterFailedRetries(live, msg, k).retryCount == live.retryCount + k
    ensures k >= 3 ==> !ShouldLoad(AfterFailedRetries(live, msg, k), false)
    decreases k
  {
    if k > 0 {
      StaleRetryNeverStops(captured, live, msg, k - 1);
    }
  }

  /** The provider: the reducer's state and the callbacks it hands out. */
  class PostsProvider {
    var state: PostsState

    constructor ()
      ensures state == InitialState
    {
      state := InitialState;
    }

    method Dispatch(action: PostsAction)
      modifies this
      ensures state == Reduce(old(state), action)
    {
      state := Reduce(state, action);
    }

    /** `loadNextPage(forceRetry)`, where `outcome` is what its request
        meets. The decisions read the state as it was when called. */
    method LoadNextPage(forceRetry: bool, outcome: FetchOutcome) returns (effect: LoadEffect)
      modifies this
      ensures LoadResult(state, effect) == LoadStep(old(state), forceRetry, outcome)
    {
      var s := state;
      if s.loading || (!s.hasMore && !forceRetry) {
        return Skipped;
      }
      if !forceRetry && s.retryCount >= 3 {
        return Skipped;
      }
      Dispatch(LoadStart);
      var delay: Option<nat> := None;
      if s.retryCount > 0 && !forceRetry {
        delay := Some(BackoffDelay(s.retryCount));
      }
      var action: PostsAction;
      var autoRetry := false;
      match outcome {
        case Responded(status, body) =>
          if !IsOk(status) {
            action := LoadError(HttpFailure(status));
          } else if body.posts.None? {
            action := LoadError(BadFormat);
          } else {
            var hasMore := if body.hasMore.Some? then body.hasMore.value else false;
            action := LoadSuccess(body.posts.value, hasMore, body.totalPosts);
          }
        case Threw(e) =>
          action := LoadError(if e.NotAnError? then UnknownError else e.message);
          if s.retryCount < 2 && !forceRetry && e.NetworkError? {
            autoRetry := true;
          }
      }
      Dispatch(action);
      effect := Fetched(delay, s.currentPage, s.postsPerPage, autoRetry);
    }

    /** `setInitialPosts`. */
    method SetInitialPosts(posts: seq<PostSummary>, totalPosts: int)
      modifies this
      ensures state == Reduce(old(state), SetInitial(posts, totalPosts))
    {
      Dispatch(SetInitial(posts, totalPosts));
    }

    /** `reset`. */
    method ResetPosts()
      modifies this
      ensures state == InitialState
    {
      Dispatch(Reset);
    }
  }
}

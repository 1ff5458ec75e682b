/** The controller and the listing endpoint together: a scroll session in
    which every request of the controller is answered by `GET /api/posts`
    over a fixed post list. The invariant `InSync` says the controller
    holds exactly the newest posts of the pages loaded so far. */
module ScrollSession {
  import opened Common
  import opened PostSchema
  import opened PostsApi
  import opened PostsContext
  import opened InitialPostsLoader

  /** The endpoint's answer to `?page=&limit=`, as the controller reads it. */
  function ServerOutcome(page: nat, limit: nat, all: seq<Post>): FetchOutcome
  {
    match Get(Query(Some(page), Some(limit)), Some(all))
    case PageOf(posts, pagination) =>
      Responded(200, ResponseBody(Some(posts), Some(pagination.hasMore), Some(pagination.totalPosts)))
    case Failed(status, _) => Responded(status, ResponseBody(None, None, None))
  }

  /** One sentinel-triggered load answered by the endpoint. */
  function Round(s: PostsState, all: seq<Post>): PostsState
  {
    LoadStep(s, false, ServerOutcome(s.currentPage, s.postsPerPage, all)).state
  }

  function Rounds(s: PostsState, all: seq<Post>, k: nat): PostsState
    decreases k
  {
    if k == 0 then s else Rounds(Round(s, all), all, k - 1)
  }

  /** Where page `page` starts: `page * size`, counted page by page. */
  function PageStart(page: nat, size: nat): nat
  {
    if page == 0 then 0 else PageStart(page - 1, size) + size
  }

  lemma {:induction false} PageStartIsProduct(page: nat, size: nat)
    ensures PageStart(page, size) == page * size
  {
    if page > 0 {
      PageStartIsProduct(page - 1, size);
    }
  }

  /** The controller holds the newest posts of the pages of the listing
      `S` loaded so far and knows whether more follow. */
  predicate InSync(s: PostsState, S: seq<PostSummary>)
  {
    && !s.loading
    && s.retryCount == 0
    && s.posts == KeepNewest(S[..Min(PageStart(s.currentPage, s.postsPerPage), |S|)], s.maxPostsInMemory)
    && s.hasMore == (PageStart(s.currentPage, s.postsPerPage) < |S|)
  }

  /** Trimming before appending gives what trimming after appending gives. */
  lemma {:induction false} KeepNewestAppend(xs: seq<PostSummary>, ys: seq<PostSummary>, max: Positive)
    ensures KeepNewest(KeepNewest(xs, max) + ys, max) == KeepNewest(xs + ys, max)
  {
    var k := KeepNewest(xs, max);
    if |xs| > max {
      var left := KeepNewest(k + ys, max);
      var right := KeepNewest(xs + ys, max);
      assert |left| == max == |right|;
      forall i | 0 <= i < max ensures left[i] == right[i] {
        var j := |k + ys| - max + i;
        assert left[i] == (k + ys)[j];
        if j < |k| {
          assert (k + ys)[j] == xs[|xs| - max + j];
          assert right[i] == (xs + ys)[|xs + ys| - max + i];
        } else {
          assert (k + ys)[j] == ys[j - |k|];
        }
      }
    }
  }

  /** A page of a list with distinct slugs shares no slug with anything held
      from the pages before it. */
  lemma {:induction false} PageIsNew(S: seq<PostSummary>, start: nat, end: nat, max: Positive)
    requires start <= end <= |S| && DistinctSlugs(S)
    ensures var held := KeepNewest(S[..start], max);
      forall i :: 0 <= i < end - start ==> S[start..end][i].slug !in Slugs(held)
  {
    var held := KeepNewest(S[..start], max);
    var d := start - |held|;
    forall i | 0 <= i < end - start ensures S[start..end][i].slug !in Slugs(held) {
      forall j | 0 <= j < |held| ensures held[j].slug != S[start + i].slug {
        assert held[j] == S[d + j];
      }
    }
  }

  /** A load answered by the endpoint keeps the controller in sync and
      moves it one page on, or, when nothing follows, does nothing. */
  lemma {:induction false} RoundKeepsSync(s: PostsState, all: seq<Post>)
    requires InSync(s, Summaries(all)) && DistinctSlugs(Summaries(all))
    ensures InSync(Round(s, all), Summaries(all))
    ensures s.hasMore ==> Round(s, all).currentPage == s.currentPage + 1
    ensures !s.hasMore ==> Round(s, all) == s
  {
    if s.hasMore {
      RoundLoadsNextPage(s, all);
    } else {
      RoundWhenDone(s, all);
    }
  }

  lemma {:induction false} RoundWhenDone(s: PostsState, all: seq<Post>)
    requires !s.hasMore
    ensures Round(s, all) == s
  {
    assert !ShouldLoad(s, false);
  }

  lemma {:induction false} RoundLoadsNextPage(s: PostsState, all: seq<Post>)
    requires InSync(s, Summaries(all)) && DistinctSlugs(Summaries(all)) && s.hasMore
    ensures InSync(Round(s, all), Summaries(all))
    ensures Round(s, all).currentPage == s.currentPage + 1
  {
    var S := Summaries(all);
    var start := PageStart(s.currentPage, s.postsPerPage);
    PageStartIsProduct(s.currentPage, s.postsPerPage);
    RoundIsLoadSuccess(s, all, start);
    SuccessKeepsSync(s, S, start);
  }

  /** The state after the next page of the listing arrived is in sync
      again. */
  lemma {:induction false} SuccessKeepsSync(s: PostsState, S: seq<PostSummary>, start: nat)
    requires InSync(s, S) && DistinctSlugs(S)
    requires start == PageStart(s.currentPage, s.postsPerPage) && start < |S|
    ensures var t := AfterLoadSuccess(s.(loading := true, error := None),
                                      S[start..Min(start + s.postsPerPage, |S|)],
                                      start + s.postsPerPage < |S|, Some(|S|));
      InSync(t, S) && t.currentPage == s.currentPage + 1
  {
    var u := s.(loading := true, error := None);
    var end := Min(start + s.postsPerPage, |S|);
    HeldAfterPage(u, S, start, end, start + s.postsPerPage < |S|, Some(|S|));
    NextPageInSync(u, S, start);
  }

  lemma {:induction false} NextPageInSync(u: PostsState, S: seq<PostSummary>, start: nat)
    requires start == PageStart(u.currentPage, u.postsPerPage) && start < |S|
    requires var end := Min(start + u.postsPerPage, |S|);
      AfterLoadSuccess(u, S[start..end], start + u.postsPerPage < |S|, Some(|S|)).posts
        == KeepNewest(S[..end], u.maxPostsInMemory)
    ensures var t := AfterLoadSuccess(u, S[start..Min(start + u.postsPerPage, |S|)],
                                      start + u.postsPerPage < |S|, Some(|S|));
      InSync(t, S) && t.currentPage == u.currentPage + 1
  {
    var L := u.postsPerPage;
    var t := AfterLoadSuccess(u, S[start..Min(start + L, |S|)], start + L < |S|, Some(|S|));
    InSyncAfterPage(t, S, start);
  }

  /** A state one page past `start`, holding the newest posts up to the end
      of that page, idle and with `hasMore` telling whether posts follow it,
      is in sync. */
  lemma {:induction false} InSyncAfterPage(t: PostsState, S: seq<PostSummary>, start: nat)
    requires t.currentPage >= 1 && start == PageStart(t.currentPage - 1, t.postsPerPage)
    requires !t.loading && t.retryCount == 0 && t.hasMore == (start + t.postsPerPage < |S|)
    requires t.posts == KeepNewest(S[..Min(start + t.postsPerPage, |S|)], t.maxPostsInMemory)
    ensures InSync(t, S)
  {
    InSyncAt(t, S, start + t.postsPerPage);
  }

  /** `InSync` with the product of page and page size given. */
  lemma {:induction false} InSyncAt(t: PostsState, S: seq<PostSummary>, p: nat)
    requires p == PageStart(t.currentPage, t.postsPerPage)
    requires !t.loading && t.retryCount == 0 && t.hasMore == (p < |S|)
    requires t.posts == KeepNewest(S[..Min(p, |S|)], t.maxPostsInMemory)
    ensures InSync(t, S)
  {
  }

  /** The posts held after a page that follows the held ones arrived. */
  lemma {:induction false} HeldAfterPage(u: PostsState, S: seq<PostSummary>, start: nat, end: nat,
                                         hasMore: bool, total: Option<int>)
    requires start <= end <= |S| && DistinctSlugs(S)
    requires u.posts == KeepNewest(S[..start], u.maxPostsInMemory)
    ensures AfterLoadSuccess(u, S[start..end], hasMore, total).posts == KeepNewest(S[..end], u.maxPostsInMemory)
  {
    SyncedPosts(S, start, end, u.posts, u.maxPostsInMemory);
  }

  /** The next page appended to what is held is what is held after it. */
  lemma {:induction false} SyncedPosts(S: seq<PostSummary>, start: nat, end: nat, held: seq<PostSummary>, max: Positive)
    requires start <= end <= |S| && DistinctSlugs(S) && held == KeepNewest(S[..start], max)
    ensures KeepNewest(held + FreshPosts(held, S[start..end]), max) == KeepNewest(S[..end], max)
  {
    var window := S[start..end];
    calc {
      KeepNewest(held + FreshPosts(held, window), max);
      { WindowIsFresh(S, start, end, held, max); }
      KeepNewest(held + window, max);
      { KeepNewestAppend(S[..start], window, max); }
      KeepNewest(S[..start] + window, max);
      { assert S[..start] + window == S[..end]; }
      KeepNewest(S[..end], max);
    }
  }

  lemma {:induction false} WindowIsFresh(S: seq<PostSummary>, start: nat, end: nat, held: seq<PostSummary>, max: Positive)
    requires start <= end <= |S| && DistinctSlugs(S) && held == KeepNewest(S[..start], max)
    ensures FreshPosts(held, S[start..end]) == S[start..end]
  {
    PageIsNew(S, start, end, max);
    FreshPostsAllNew(held, S[start..end]);
  }

  /** With more to load, an idle controller loads the next page. */
  lemma {:induction false} RoundIsLoadSuccess(s: PostsState, all: seq<Post>, start: nat)
    requires !s.loading && s.hasMore && s.retryCount < 3
    requires start == s.currentPage * s.postsPerPage && start < |all|
    ensures var S := Summaries(all);
      Round(s, all) == AfterLoadSuccess(s.(loading := true, error := None), S[start..Min(start + s.postsPerPage, |S|)],
                                        start + s.postsPerPage < |S|, Some(|S|))
  {
    var L := s.postsPerPage;
    var S := Summaries(all);
    var window := S[start..Min(start + L, |S|)];
    var o := ServerOutcome(s.currentPage, L, all);
    ServerAnswersPage(all, s.currentPage, L, start);
    assert OutcomeAction(o) == LoadSuccess(window, start + L < |S|, Some(|S|));
    assert ShouldLoad(s, false);
  }

  /** The endpoint's answer to a page that starts inside the list. */
  lemma {:induction false} ServerAnswersPage(all: seq<Post>, page: nat, limit: nat, start: nat)
    requires start == page * limit && start < |all|
    ensures ServerOutcome(page, limit, all)
      == Responded(200, ResponseBody(Some(Summaries(all)[start..Min(start + limit, |all|)]),
                                     Some(start + limit < |all|), Some(|all|)))
  {
    GetAnswersPage(all, page, limit, start);
  }

  lemma {:induction false} GetAnswersPage(all: seq<Post>, page: nat, limit: nat, start: nat)
    requires start == page * limit && start < |all|
    ensures Get(Query(Some(page), Some(limit)), Some(all))
      == PageOf(Summaries(all)[start..Min(start + limit, |all|)],
                Pagination(page, |all|, start + limit < |all|, limit, Min(start + limit, |all|)))
  {
    var q := Query(Some(page), Some(limit));
    assert PageParam(q) == page && LimitParam(q) == limit;
  }

  lemma {:induction false} RoundsKeepSync(s: PostsState, all: seq<Post>, k: nat)
    requires InSync(s, Summaries(all)) && DistinctSlugs(Summaries(all))
    ensures InSync(Rounds(s, all, k), Summaries(all))
    decreases k
  {
    if k > 0 {
      var r := Round(s, all);
      assert Rounds(s, all, k) == Rounds(r, all, k - 1);
      assert InSync(r, Summaries(all)) by {
        RoundKeepsSync(s, all);
      }
      RoundsKeepSync(r, all, k - 1);
    }
  }

  /** An idle controller without failures stays so after a round, and the
      round moves the page cursor one page on exactly when more follows. */
  lemma {:induction false} RoundMovesCursor(s: PostsState, all: seq<Post>)
    requires !s.loading && s.retryCount == 0
    ensures var r := Round(s, all);
      && !r.loading && r.retryCount == 0
      && (s.hasMore ==> r.currentPage == s.currentPage + 1)
      && (!s.hasMore ==> r == s)
  {
    if !s.hasMore {
      assert !ShouldLoad(s, false);
    }
  }

  /** While more follows, every round moves the page cursor one page on. */
  lemma {:induction false} RoundsCountPages(s: PostsState, all: seq<Post>, k: nat)
    requires !s.loading && s.retryCount == 0
    ensures Rounds(s, all, k).hasMore ==> Rounds(s, all, k).currentPage == s.currentPage + k
    decreases k
  {
    if k > 0 {
      var r := Round(s, all);
      assert Rounds(s, all, k) == Rounds(r, all, k - 1);
      RoundMovesCursor(s, all);
      RoundsCountPages(r, all, k - 1);
      if !s.hasMore {
        RoundsIdle(s, all, k - 1);
      }
    }
  }

  lemma {:induction false} RoundsIdle(s: PostsState, all: seq<Post>, k: nat)
    requires !s.loading && s.retryCount == 0 && !s.hasMore
    ensures Rounds(s, all, k) == s
    decreases k
  {
    if k > 0 {
      RoundMovesCursor(s, all);
      RoundsIdle(s, all, k - 1);
    }
  }

  /** Once enough pages have been asked for, the controller holds the
      newest posts of the whole list and asks for no more. */
  lemma {:induction false} EverythingLoads(s: PostsState, all: seq<Post>, k: nat)
    requires InSync(s, Summaries(all)) && DistinctSlugs(Summaries(all))
    requires (s.currentPage + k) * s.postsPerPage >= |all|
    ensures var t := Rounds(s, all, k);
      !t.hasMore && t.posts == KeepNewest(Summaries(all), s.maxPostsInMemory)
  {
    RoundsKeepSync(s, all, k);
    RoundsCountPages(s, all, k);
    var t := Rounds(s, all, k);
    PostsPerPageKept(s, all, k);
    PageStartIsProduct(s.currentPage + k, s.postsPerPage);
    assert Summaries(all)[..|all|] == Summaries(all);
  }

  lemma {:induction false} PostsPerPageKept(s: PostsState, all: seq<Post>, k: nat)
    ensures Rounds(s, all, k).postsPerPage == s.postsPerPage
    ensures Rounds(s, all, k).maxPostsInMemory == s.maxPostsInMemory
    decreases k
  {
    if k > 0 {
      PostsPerPageKept(Round(s, all), all, k - 1);
    }
  }

  /** A fresh controller is in sync with any non-empty list. */
  lemma {:induction false} InitialStateInSync(all: seq<Post>)
    requires |all| > 0
    ensures InSync(InitialState, Summaries(all))
  {
  }

  /** Seeding an unseeded, idle controller with the first `m` posts keeps it
      in sync when `m` is a whole number of pages or the whole list, and
      fits in memory. */
  lemma {:induction false} AlignedSeedInSync(s: PostsState, all: seq<Post>, m: nat)
    requires !s.initialLoaded && !s.loading && s.retryCount == 0
    requires 0 < m <= |all| && m <= s.maxPostsInMemory
    requires m % s.postsPerPage == 0 || m == |all|
    ensures InSync(RunEffect(s, Summaries(all)[..m], |all|), Summaries(all))
  {
    var L := s.postsPerPage;
    var S := Summaries(all);
    var t := RunEffect(s, S[..m], |all|);
    assert t == AfterSetInitial(s, S[..m], |all|);
    var q := t.currentPage;
    assert (q - 1) * L < m <= q * L;
    if m % L == 0 {
      var k := m / L;
      assert m == k * L + m % L;
      MultipleBetween(q, k, L);
      assert q * L == m;
    }
    PageStartIsProduct(q, L);
    assert Min(PageStart(q, L), |all|) == m;
    assert KeepNewest(S[..m], s.maxPostsInMemory) == S[..m];
  }

  /** Between consecutive multiples of `L` there is no other multiple. */
  lemma {:induction false} MultipleBetween(q: int, k: int, L: Positive)
    requires (q - 1) * L < k * L <= q * L
    ensures q == k
  {
    if k <= q - 1 {
      MulMono(k, q - 1, L);
    }
    if k >= q + 1 {
      MulMono(q + 1, k, L);
    }
  }

  lemma {:induction false} MulMono(a: int, b: int, L: Positive)
    requires a <= b
    ensures a * L <= b * L
  {
  }

  /** A count that is not a multiple of `L` is no product with `L`. */
  lemma {:induction false} NotAMultiple(q: int, m: nat, L: Positive)
    requires m % L != 0
    ensures q * L != m
  {
    var d := m / L;
    assert m == d * L + m % L;
    if q * L == m {
      assert (q - d) * L == m % L;
      if q - d >= 1 {
        MulMono(1, q - d, L);
      } else {
        MulMono(q - d, 0, L);
      }
    }
  }

  /** The home page seeds the first ten posts; with five per page the next
      request is page 2, which brings posts 10 to 14. */
  lemma {:induction false} HomePageSeedThenPageTwo(all: seq<Post>)
    requires |all| > 10 && DistinctSlugs(Summaries(all))
    ensures var t := RunEffect(InitialState, Summaries(all)[..10], |all|);
      && InSync(t, Summaries(all))
      && t.currentPage == 2
      && ServerOutcome(t.currentPage, t.postsPerPage, all).body.posts == Some(Summaries(all)[10..Min(15, |all|)])
  {
    AlignedSeedInSync(InitialState, all, 10);
    TenSeededPostsNextPageIsTwo(InitialState, Summaries(all)[..10], |all|);
  }

  /** A seed that is not a whole number of pages makes the next request
      start past the seeded posts: the posts between are never loaded. */
  lemma {:induction false} MisalignedSeedSkipsPosts(s: PostsState, all: seq<Post>, m: nat)
    requires !s.initialLoaded && 0 < m < |all| && m % s.postsPerPage != 0
    ensures var t := RunEffect(s, Summaries(all)[..m], |all|);
      t.currentPage * t.postsPerPage > m
  {
    var t := RunEffect(s, Summaries(all)[..m], |all|);
    assert t == AfterSetInitial(s, Summaries(all)[..m], |all|);
    assert m <= t.currentPage * s.postsPerPage;
    NotAMultiple(t.currentPage, m, s.postsPerPage);
  }
}

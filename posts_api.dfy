/** The paginated listing endpoint `GET /api/posts?page=&limit=`: a window
    of the post list, stripped of bodies, with pagination metadata. The
    query values are given already parsed; `None` is a missing or empty
    parameter. The post list is `None` when reading it threw. */
module PostsApi {
  import opened Common
  import opened PostSchema

  datatype Query = Query(page: Option<nat>, limit: Option<nat>)

  const DefaultPage: nat := 0
  const DefaultLimit: nat := 5
  const LoadingFailed := "포스트 로딩 중 오류가 발생했습니다"

  datatype Pagination = Pagination(currentPage: nat, totalPosts: nat, hasMore: bool, postsPerPage: nat, loadedCount: nat)

  datatype PostsResponse =
    | PageOf(posts: seq<PostSummary>, pagination: Pagination)
    | Failed(status: nat, error: string)

  function PageParam(q: Query): nat
  {
    if q.page.Some? then q.page.value else DefaultPage
  }

  function LimitParam(q: Query): nat
  {
    if q.limit.Some? then q.limit.value else DefaultLimit
  }

  /** `({ content, ...rest }) => rest`: the post without its body. */
  function Summary(p: Post): (s: PostSummary)
    ensures s.slug == p.slug && s.title == p.title && s.date == p.date && s.tag.None?
  {
    PostSummary(p.slug, p.title, p.date, None)
  }

  function Summaries(ps: seq<Post>): (r: seq<PostSummary>)
    ensures |r| == |ps| && forall i :: 0 <= i < |ps| ==> r[i] == Summary(ps[i])
  {
    if ps == [] then [] else [Summary(ps[0])] + Summaries(ps[1..])
  }

  lemma {:induction false} SummariesSlice(ps: seq<Post>, i: nat, j: nat)
    requires i <= j <= |ps|
    ensures Summaries(ps[i..j]) == Summaries(ps)[i..j]
  {
    var l, r := Summaries(ps[i..j]), Summaries(ps)[i..j];
    forall k | 0 <= k < j - i ensures l[k] == r[k] {
      assert ps[i..j][k] == ps[i + k];
    }
  }

  /** `Array.prototype.slice(start, end)` for non-negative bounds: bounds
      past the end are clamped, and an empty range gives nothing. */
  function Slice<T>(xs: seq<T>, start: nat, end: nat): (r: seq<T>)
    ensures start < |xs| ==> r == xs[start..Min(Max(start, end), |xs|)]
    ensures start >= |xs| ==> r == []
  {
    var s := Min(start, |xs|);
    var e := Min(Max(start, end), |xs|);
    xs[s..e]
  }

  function Max(a: int, b: int): int
  {
    if a < b then b else a
  }

  /** The handler. The window starts at `page * limit` and has at most
      `limit` posts; `hasMore` says whether posts follow it, and
      `loadedCount` is where it ends (or its start when it lies past the
      end). */
  function Get(q: Query, store: Option<seq<Post>>): (r: PostsResponse)
    ensures store.None? <==> r == Failed(500, LoadingFailed)
    ensures store.Some? ==>
      var all := store.value;
      var page := PageParam(q);
      var limit := LimitParam(q);
      var start := page * limit;
      && r.PageOf?
      && |r.posts| <= limit
      && (start < |all| ==> r.posts == Summaries(all)[start..Min(start + limit, |all|)])
      && (start >= |all| ==> r.posts == [])
      && r.pagination == Pagination(page, |all|, start + limit < |all|, limit,
                                    if start <= |all| then Min(start + limit, |all|) else start)
  {
    match store
    case None => Failed(500, LoadingFailed)
    case Some(all) =>
      var page := PageParam(q);
      var limit := LimitParam(q);
      var startIndex := page * limit;
      var endIndex := startIndex + limit;
      var paginated := Slice(all, startIndex, endIndex);
      var metadata := Summaries(paginated);
      SummariesSlice(all, Min(startIndex, |all|), Min(endIndex, |all|));
      PageOf(metadata, Pagination(page, |all|, endIndex < |all|, limit, startIndex + |metadata|))
  }

  /** The posts of pages `0 .. k-1` with a fixed limit. */
  function PagesUpTo(all: seq<Post>, limit: nat, k: nat): seq<PostSummary>
  {
    if k == 0 then []
    else PagesUpTo(all, limit, k - 1) + Get(Query(Some(k - 1), Some(limit)), Some(all)).posts
  }

  /** One page as a window of the summaries, with its bounds clamped. */
  lemma {:induction false} PageWindow(all: seq<Post>, limit: nat, page: nat, start: nat)
    requires start == page * limit
    ensures Get(Query(Some(page), Some(limit)), Some(all)).posts
      == Summaries(all)[Min(start, |all|)..Min(start + limit, |all|)]
  {
    var q := Query(Some(page), Some(limit));
    assert PageParam(q) == page && LimitParam(q) == limit;
  }

  /** Walking the pages from 0 yields the post list in order, without gaps
      or repeats: the first `k` pages are the first `k * limit` posts. */
  lemma {:induction false} PagesTileTheList(all: seq<Post>, limit: nat, k: nat, end: nat)
    requires end == k * limit
    ensures PagesUpTo(all, limit, k) == Summaries(all)[..Min(end, |all|)]
  {
    if k > 0 {
      var start := (k - 1) * limit;
      MulSucc(k, limit, start);
      PagesTileTheList(all, limit, k - 1, start);
      var before := PagesUpTo(all, limit, k - 1);
      var window := Get(Query(Some(k - 1), Some(limit)), Some(all)).posts;
      assert PagesUpTo(all, limit, k) == before + window;
      PageWindow(all, limit, k - 1, start);
      Tile(Summaries(all), before, window, start, limit);
    }
  }

  lemma {:induction false} MulSucc(k: nat, limit: nat, start: nat)
    requires k > 0 && start == (k - 1) * limit
    ensures k * limit == start + limit
  {
  }

  lemma {:induction false} Tile(S: seq<PostSummary>, before: seq<PostSummary>, window: seq<PostSummary>, start: nat, limit: nat)
    requires before == S[..Min(start, |S|)]
    requires window == S[Min(start, |S|)..Min(start + limit, |S|)]
    ensures before + window == S[..Min(start + limit, |S|)]
  {
  }

  /** The last page is the one `hasMore` turns false on. */
  lemma {:induction false} HasMoreIffPostsFollow(q: Query, all: seq<Post>)
    ensures var r := Get(q, Some(all));
      r.pagination.hasMore <==> r.pagination.loadedCount < |all|
  {
  }
}

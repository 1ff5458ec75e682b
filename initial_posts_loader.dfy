/** The component that seeds the controller with the server-rendered first
    posts: its effect dispatches `SET_INITIAL` only while the controller is
    unseeded and the list it was given is non-empty. */
module InitialPostsLoader {
  import opened Common
  import opened PostSchema
  import opened PostsContext

  /** The effect's condition. */
  predicate ShouldSeed(s: PostsState, initialPosts: seq<PostSummary>)
  {
    !s.initialLoaded && |initialPosts| > 0
  }

  /** One run of the effect: the state afterwards. The props go into the
      action unchanged. */
  function RunEffect(s: PostsState, initialPosts: seq<PostSummary>, totalPosts: int): (r: PostsState)
    ensures ShouldSeed(s, initialPosts) ==> r == Reduce(s, SetInitial(initialPosts, totalPosts))
    ensures ShouldSeed(s, initialPosts) ==> r.initialLoaded && r.posts == initialPosts && r.totalPosts == Some(totalPosts)
    ensures !ShouldSeed(s, initialPosts) ==> r == s
  {
    if !s.initialLoaded && |initialPosts| > 0 then Reduce(s, SetInitial(initialPosts, totalPosts)) else s
  }

  /** The effect runs again whenever its dependencies change; once it has
      seeded, running it again with any props does nothing. */
  lemma {:induction false} SeedingIsOneShot(s: PostsState, initialPosts: seq<PostSummary>, totalPosts: int,
                         laterPosts: seq<PostSummary>, laterTotal: int)
    requires ShouldSeed(s, initialPosts)
    ensures var seeded := RunEffect(s, initialPosts, totalPosts);
      RunEffect(seeded, laterPosts, laterTotal) == seeded
  {
  }

  /** Every action other than `RESET` keeps a seeded controller seeded, so
      seeding does not repeat while the controller lives. */
  lemma {:induction false} SeededStaysSeeded(s: PostsState, a: PostsAction)
    requires s.initialLoaded && !a.Reset?
    ensures Reduce(s, a).initialLoaded
  {
  }

  /** Running the effect twice with the same props is running it once. */
  lemma {:induction false} RunEffectIdempotent(s: PostsState, initialPosts: seq<PostSummary>, totalPosts: int)
    ensures RunEffect(RunEffect(s, initialPosts, totalPosts), initialPosts, totalPosts)
      == RunEffect(s, initialPosts, totalPosts)
  {
  }

  /** An empty list seeds nothing and leaves the controller unseeded. */
  lemma {:induction false} EmptyListSeedsNothing(s: PostsState, totalPosts: int)
    ensures RunEffect(s, [], totalPosts) == s
    ensures !s.initialLoaded ==> !RunEffect(s, [], totalPosts).initialLoaded
  {
  }
}

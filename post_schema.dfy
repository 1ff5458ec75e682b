/** The post records shared by the store, the pagination endpoint and the
    client: the record `getAllPosts` builds per file, and the summary the
    client holds (a post without its body). Dates are kept as the text the
    front matter gives. */
module PostSchema {
  import opened Common

  datatype Post = Post(slug: string, content: string, title: string, date: string)

  datatype PostSummary = PostSummary(slug: string, title: string, date: string, tag: Option<seq<string>>)

  function Slugs(ps: seq<PostSummary>): set<string>
  {
    set i | 0 <= i < |ps| :: ps[i].slug
  }

  /** No two summaries share a slug. */
  predicate DistinctSlugs(ps: seq<PostSummary>)
  {
    forall i, j :: 0 <= i < j < |ps| ==> ps[i].slug != ps[j].slug
  }
}

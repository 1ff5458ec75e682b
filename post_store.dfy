/** The post store: one record per file of the posts directory, lookup by
    slug, and the markdown rendering used by that lookup with its
    code-block rewrite. The file system, the front-matter parser, the
    markdown parser and serializer and the highlighter are functions the
    caller supplies; their behaviour is not modelled. */
module PostStore {
  import opened Common
  import opened PostSchema

  /** What `matter(text)` yields that the store uses: the body and the
      `title` and `date` front-matter values. */
  datatype FrontMatter = FrontMatter(content: string, title: string, date: string)

  /** A node of the markdown tree, as the visitor sees it. The tree is
      given as its nodes in visiting order; only `code` nodes are touched. */
  datatype MdNode = MdNode(kind: string, value: string, lang: Option<string>)

  /** The collaborators of the store. `highlight(code, language)` is `None`
      where highlight.js throws (an unknown language, for one). */
  datatype ContentEnv = ContentEnv(
    fileNames: seq<string>,
    readFile: string -> string,
    matter: string -> FrontMatter,
    parse: string -> seq<MdNode>,
    highlight: (string, string) -> Option<string>,
    toHtml: seq<MdNode> -> string)

  // ---------------------------------------------------------------------
  // Listing

  predicate HasMarkdownSuffix(name: string)
  {
    |name| >= 3 && name[|name| - 3..] == ".md"
  }

  /** `fileName.replace(/\.md$/, "")`. */
  function SlugOf(fileName: string): string
  {
    if HasMarkdownSuffix(fileName) then fileName[..|fileName| - 3] else fileName
  }

  /** The suffix goes exactly once: `a.md` gives `a`, `a.md.md` gives `a.md`. */
  lemma {:induction false} SlugOfMarkdownFile(name: string)
    ensures SlugOf(name + ".md") == name
  {
    assert (name + ".md")[|name|..] == ".md";
  }

  lemma {:induction false} SlugOfOtherFile(name: string)
    requires !HasMarkdownSuffix(name)
    ensures SlugOf(name) == name
  {
  }

  function Reverse<T>(s: seq<T>): (r: seq<T>)
    ensures |r| == |s| && forall i :: 0 <= i < |s| ==> r[i] == s[|s| - 1 - i]
  {
    if s == [] then [] else Reverse(s[1..]) + [s[0]]
  }

  /** The record for one file: slug from the name, body, title and date
      from its front matter. */
  function PostFor(env: ContentEnv, fileName: string): (p: Post)
    ensures p.slug == SlugOf(fileName)
  {
    var fm := env.matter(env.readFile(fileName));
    Post(SlugOf(fileName), fm.content, fm.title, fm.date)
  }

  function PostsFor(env: ContentEnv, names: seq<string>): (ps: seq<Post>)
    ensures |ps| == |names| && forall i :: 0 <= i < |names| ==> ps[i] == PostFor(env, names[i])
  {
    if names == [] then [] else [PostFor(env, names[0])] + PostsFor(env, names[1..])
  }

  /** `getAllPosts`: one record per directory entry, in reverse listing
      order; nothing is filtered out. */
  function GetAllPosts(env: ContentEnv): (ps: seq<Post>)
    ensures |ps| == |env.fileNames|
    ensures forall i :: 0 <= i < |ps| ==> ps[i] == PostFor(env, env.fileNames[|env.fileNames| - 1 - i])
  {
    PostsFor(env, Reverse(env.fileNames))
  }

  /** `posts.find(p => p.slug === slug)`, as the index found. */
  function FindBySlug(ps: seq<Post>, slug: string): (r: Option<nat>)
    ensures r.None? <==> forall i :: 0 <= i < |ps| ==> ps[i].slug != slug
    ensures r.Some? ==>
      && r.value < |ps|
      && ps[r.value].slug == slug
      && (forall j :: 0 <= j < r.value ==> ps[j].slug != slug)
  {
    if ps == [] then None
    else if ps[0].slug == slug then Some(0)
    else match FindBySlug(ps[1..], slug)
      case None => None
      case Some(i) => Some(i + 1)
  }

  /** `getPost`: null when no listed post has the slug; otherwise the first
      such post with its body replaced by the rendered HTML. */
  function GetPost(env: ContentEnv, slug: string): (r: Option<Post>)
    ensures var all := GetAllPosts(env);
      r.None? <==> forall i :: 0 <= i < |all| ==> all[i].slug != slug
    ensures var all := GetAllPosts(env);
      r.Some? ==> exists i ::
                    && 0 <= i < |all|
                    && all[i].slug == slug
                    && (forall j :: 0 <= j < i ==> all[j].slug != slug)
                    && r.value == all[i].(content := ProcessMarkdown(env, all[i].content))
  {
    var posts := GetAllPosts(env);
    match FindBySlug(posts, slug)
    case None => None
    case Some(i) => Some(posts[i].(content := ProcessMarkdown(env, posts[i].content)))
  }

  // ---------------------------------------------------------------------
  // Rendering

  const PlainText := "plaintext"

  /** `node.lang || 'plaintext'`: a missing or empty language is plain text. */
  function LanguageOf(node: MdNode): (lang: string)
    ensures lang != ""
    ensures node.lang.Some? && node.lang.value != "" ==> lang == node.lang.value
    ensures node.lang.None? || node.lang.value == "" ==> lang == PlainText
  {
    if node.lang.Some? && node.lang.value != "" then node.lang.value else PlainText
  }

  /** The markup a highlighted block becomes; the language is inserted as
      it is, without escaping. */
  function CodeBlockHtml(lang: string, highlighted: string): string
  {
    "<pre class=\"hljs\"><code class=\"language-" + lang + "\">" + highlighted + "</code></pre>"
  }

  /** The visitor's callback for one node: a code node whose highlighting
      succeeds becomes an `html` node holding the highlighted block; a
      failure leaves it as it was; other nodes are not visited. */
  function HighlightNode(highlight: (string, string) -> Option<string>, node: MdNode): (r: MdNode)
    ensures node.kind != "code" ==> r == node
    ensures node.kind == "code" && highlight(node.value, LanguageOf(node)).None? ==> r == node
    ensures node.kind == "code" && highlight(node.value, LanguageOf(node)).Some? ==>
      r.kind == "html" && r.lang == node.lang
      && r.value == CodeBlockHtml(LanguageOf(node), highlight(node.value, LanguageOf(node)).value)
  {
    if node.kind != "code" then node
    else match highlight(node.value, LanguageOf(node))
      case None => node
      case Some(h) => node.(kind := "html", value := CodeBlockHtml(LanguageOf(node), h))
  }

  /** The whole walk: every node is handled on its own, so one failure
      neither stops the walk nor affects another node. */
  function HighlightAll(highlight: (string, string) -> Option<string>, nodes: seq<MdNode>): (r: seq<MdNode>)
    ensures |r| == |nodes|
    ensures forall i :: 0 <= i < |nodes| ==> r[i] == HighlightNode(highlight, nodes[i])
  {
    if nodes == [] then [] else [HighlightNode(highlight, nodes[0])] + HighlightAll(highlight, nodes[1..])
  }

  /** Highlighting an already highlighted tree changes nothing: rewritten
      nodes are no longer code, and failed ones fail again. */
  lemma {:induction false} HighlightIdempotent(highlight: (string, string) -> Option<string>, nodes: seq<MdNode>)
    ensures HighlightAll(highlight, HighlightAll(highlight, nodes)) == HighlightAll(highlight, nodes)
  {
  }

  /** A code block without a language is highlighted as plain text. */
  lemma {:induction false} MissingLanguageIsPlainText(highlight: (string, string) -> Option<string>, code: string)
    requires highlight(code, PlainText).Some?
    ensures HighlightNode(highlight, MdNode("code", code, None))
      == MdNode("html", CodeBlockHtml(PlainText, highlight(code, PlainText).value), None)
  {
  }

  /** `remarkHighlight`: the tree walk that rewrites the code nodes in place. */
  method RemarkHighlight(tree: array<MdNode>, highlight: (string, string) -> Option<string>)
    modifies tree
    ensures tree[..] == HighlightAll(highlight, old(tree[..]))
  {
    var i := 0;
    while i < tree.Length
      invariant 0 <= i <= tree.Length
      invariant forall j :: 0 <= j < i ==> tree[j] == HighlightNode(highlight, old(tree[j]))
      invariant forall j :: i <= j < tree.Length ==> tree[j] == old(tree[j])
    {
      var node := tree[i];
      if node.kind == "code" {
        var lang := if node.lang.Some? && node.lang.value != "" then node.lang.value else PlainText;
        var highlighted := highlight(node.value, lang);
        if highlighted.Some? {
          tree[i] := node.(kind := "html", value := CodeBlockHtml(lang, highlighted.value));
        }
      }
      i := i + 1;
    }
  }

  /** `processMarkdown` as a function: parse, rewrite the code nodes,
      serialize without sanitizing. */
  function ProcessMarkdown(env: ContentEnv, markdown: string): string
  {
    env.toHtml(HighlightAll(env.highlight, env.parse(markdown)))
  }

  /** `processMarkdown` as the pipeline runs it, with the walk in place. */
  method RenderMarkdown(env: ContentEnv, markdown: string) returns (html: string)
    ensures html == ProcessMarkdown(env, markdown)
  {
    var nodes := env.parse(markdown);
    var tree := new MdNode[|nodes|](i requires 0 <= i < |nodes| => nodes[i]);
    assert tree[..] == nodes;
    RemarkHighlight(tree, env.highlight);
    html := env.toHtml(tree[..]);
  }
}

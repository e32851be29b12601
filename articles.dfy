/** The blog content client: the query filter, the mapping of content-API
    posts to the records the pages render, the four fetchers, and the
    two-pass HTML rewrite that makes article images lazy-loaded. The HTTP
    GET is a parameter (`get`), and so is the locale-dependent date
    formatting (`localeDate`). */
module Articles {

  import opened JsText

  const DefaultGhostUrl: string := "https://blog.apromarketing.com"
  const FilterPrefix: string := "&filter=tag:"

  /** The blog's base url: the `GHOST_URL` environment variable when it is
      set and not empty, the company blog otherwise. */
  function GhostUrl(env: Option<string>): (url: string)
    ensures Truthy(env) ==> url == env.value
    ensures !Truthy(env) ==> url == DefaultGhostUrl
  {
    OrEmpty(Or(env, Some(DefaultGhostUrl)))
  }

  /** The tag filter appended to the post-list query: nothing for a missing
      or empty category or for `all`, otherwise `&filter=tag:<category>`. */
  function BuildFilter(category: Option<string>): (f: string)
    ensures f == "" <==> !Truthy(category) || category.value == "all"
    ensures f != "" ==> StartsWith(f, FilterPrefix) && f[|FilterPrefix|..] == category.value
  {
    if !Truthy(category) || category.value == "all" then "" else FilterPrefix + category.value
  }

  datatype Author = Author(
    id: Option<string>,
    name: Option<string>,
    profileImage: Option<string>,
    bio: Option<string>)

  datatype Tag = Tag(id: string, name: string, slug: string)

  /** A post as the content API returns it; `None` is a field that is
      missing or `null`. */
  datatype Post = Post(
    id: Option<string>,
    title: Option<string>,
    slug: Option<string>,
    excerpt: Option<string>,
    html: Option<string>,
    publishedAt: Option<string>,
    updatedAt: Option<string>,
    featureImage: Option<string>,
    featureImageAlt: Option<string>,
    primaryAuthor: Option<Author>,
    tags: Option<seq<Tag>>)

  /** The response body: `posts` and `meta.pagination.pages`, either of
      which may be missing. */
  datatype Data = Data(posts: Option<seq<Post>>, pages: Option<int>)

  /** The outcome of `axios.get`: a rejected request, or the parsed body. */
  datatype Fetch = Failed | Fetched(data: Data)

  /** A function that resolves to `undefined`, to `null`, or to a value. */
  datatype Lookup<T> = Undefined | Null | Found(value: T)

  /** The record `getArticles` makes of one post. */
  datatype Card = Card(
    totalPages: int,
    id: Option<string>,
    title: string,
    author: string,
    publishedDate: string,
    date: string,
    summary: string,
    slug: string,
    img: string,
    medImg: string,
    smImg: string,
    imgAlt: string,
    authorImg: string,
    authorDescription: string,
    authorId: string,
    terms: seq<Tag>)

  /** The record `getArticle` makes of a post; `translations` and `lang`
      stand for the two fields the source sets to `null`. */
  datatype Detail = Detail(
    id: Option<string>,
    title: Option<string>,
    excerpt: string,
    content: string,
    modified: Option<string>,
    slug: Option<string>,
    date: string,
    translations: Option<string>,
    lang: Option<string>,
    img: string,
    author: string,
    authorImg: string)

  /** A field of the post's primary author, absent when there is no author. */
  function AuthorField(post: Post, field: Author -> Option<string>): (r: Option<string>)
    ensures post.primaryAuthor.None? ==> r.None?
    ensures post.primaryAuthor.Some? ==> r == field(post.primaryAuthor.value)
  {
    match post.primaryAuthor
    case None => None
    case Some(a) => field(a)
  }

  /** The page count the blog reports, or 1 when it reports none (or 0). */
  function TotalPages(pages: Option<int>): (n: int)
    ensures n != 0
    ensures pages.Some? && pages.value != 0 ==> n == pages.value
    ensures pages.None? || pages.value == 0 ==> n == 1
  {
    match pages
    case Some(p) => if p != 0 then p else 1
    case None => 1
  }

  /** One post as a list record: missing text fields become `''`, missing
      tags `[]`, and the three image fields are the feature image. */
  function ToCard(post: Post, totalPages: int, localeDate: Option<string> -> string): (c: Card)
    ensures c.totalPages == totalPages && c.id == post.id
    ensures c.img == c.medImg && c.medImg == c.smImg
    ensures c.publishedDate == c.date && c.date == localeDate(post.publishedAt)
    ensures post.title.None? ==> c.title == ""
    ensures post.title.Some? ==> c.title == post.title.value
    ensures post.slug.None? ==> c.slug == ""
    ensures post.slug.Some? ==> c.slug == post.slug.value
    ensures post.excerpt.None? ==> c.summary == ""
    ensures post.excerpt.Some? ==> c.summary == post.excerpt.value
    ensures post.featureImage.None? ==> c.img == ""
    ensures post.featureImage.Some? ==> c.img == post.featureImage.value
    ensures post.featureImageAlt.None? ==> c.imgAlt == ""
    ensures post.featureImageAlt.Some? ==> c.imgAlt == post.featureImageAlt.value
    ensures post.primaryAuthor.None? ==>
      c.author == "" && c.authorImg == "" && c.authorDescription == "" && c.authorId == ""
    ensures post.primaryAuthor.Some? ==>
      c.author == OrEmpty(post.primaryAuthor.value.name)
      && c.authorImg == OrEmpty(post.primaryAuthor.value.profileImage)
      && c.authorDescription == OrEmpty(post.primaryAuthor.value.bio)
      && c.authorId == OrEmpty(post.primaryAuthor.value.id)
    ensures post.tags.None? ==> c.terms == []
    ensures post.tags.Some? ==> c.terms == post.tags.value
  {
    var image := OrEmpty(post.featureImage);
    var date := localeDate(post.publishedAt);
    Card(
      totalPages,
      post.id,
      OrEmpty(post.title),
      OrEmpty(AuthorField(post, (a: Author) => a.name)),
      date,
      date,
      OrEmpty(post.excerpt),
      OrEmpty(post.slug),
      image,
      image,
      image,
      OrEmpty(post.featureImageAlt),
      OrEmpty(AuthorField(post, (a: Author) => a.profileImage)),
      OrEmpty(AuthorField(post, (a: Author) => a.bio)),
      OrEmpty(AuthorField(post, (a: Author) => a.id)),
      match post.tags case Some(ts) => ts case None => [])
  }

  /** The post as an article page record: the body goes through the
      lazy-load rewrite, `title`, `slug` and the dates pass through, and the
      translation fields are `null`. */
  function ToDetail(post: Post, localeDate: Option<string> -> string): (d: Detail)
    ensures d.id == post.id && d.title == post.title && d.slug == post.slug
    ensures d.modified == post.updatedAt && d.date == localeDate(post.publishedAt)
    ensures d.translations.None? && d.lang.None?
    ensures d.content == ApplyLazyLoad(post.html)
    ensures post.excerpt.None? ==> d.excerpt == ""
    ensures post.excerpt.Some? ==> d.excerpt == post.excerpt.value
    ensures post.featureImage.None? ==> d.img == ""
    ensures post.featureImage.Some? ==> d.img == post.featureImage.value
    ensures post.primaryAuthor.None? ==> d.author == "" && d.authorImg == ""
    ensures post.primaryAuthor.Some? ==>
      d.author == OrEmpty(post.primaryAuthor.value.name)
      && d.authorImg == OrEmpty(post.primaryAuthor.value.profileImage)
  {
    Detail(
      post.id,
      post.title,
      OrEmpty(post.excerpt),
      ApplyLazyLoad(post.html),
      post.updatedAt,
      post.slug,
      localeDate(post.publishedAt),
      None,
      None,
      OrEmpty(post.featureImage),
      OrEmpty(AuthorField(post, (a: Author) => a.name)),
      OrEmpty(AuthorField(post, (a: Author) => a.profileImage)))
  }

  /** The post-list request: fifteen posts of page `page`, with authors and
      tags, and the category filter last. */
  function ListUrl(base: string, key: string, page: string, category: Option<string>): (url: string)
    ensures StartsWith(url, base + "/ghost/api/content/posts/?key=" + key)
    ensures |BuildFilter(category)| <= |url| && url[|url| - |BuildFilter(category)|..] == BuildFilter(category)
    ensures var head := base + "/ghost/api/content/posts/?key=" + key;
      url[|head|..] == "&include=authors,tags&limit=15&page=" + page + BuildFilter(category)
  {
    var head := base + "/ghost/api/content/posts/?key=" + key;
    var middle := "&include=authors,tags&limit=15&page=" + page;
    var filter := BuildFilter(category);
    assert (head + middle + filter)[..|head|] == head;
    assert (head + middle + filter)[|head|..] == middle + filter;
    head + middle + filter
  }

  /** The single-post request. */
  function SlugUrl(base: string, key: string, slug: string): (url: string)
    ensures StartsWith(url, base + "/ghost/api/content/posts/slug/" + slug + "/?key=" + key)
    ensures var head := base + "/ghost/api/content/posts/slug/" + slug + "/?key=" + key;
      url[|head|..] == "&include=authors,tags"
  {
    var head := base + "/ghost/api/content/posts/slug/" + slug + "/?key=" + key;
    assert (head + "&include=authors,tags")[..|head|] == head;
    assert (head + "&include=authors,tags")[|head|..] == "&include=authors,tags";
    head + "&include=authors,tags"
  }

  /** `getArticles`: one record per post of the requested page, in order,
      all carrying the same page count; `undefined` when the request fails
      or the body has no `posts` (the `map` throws, and the error is
      swallowed). The locale argument is not used. */
  function GetArticles(get: string -> Fetch, base: string, key: string, lang: Option<string>,
                       page: string, category: Option<string>, localeDate: Option<string> -> string)
    : (r: Option<seq<Card>>)
    ensures r.Some? <==> get(ListUrl(base, key, page, category)).Fetched?
                         && get(ListUrl(base, key, page, category)).data.posts.Some?
    ensures r.Some? ==>
      var data := get(ListUrl(base, key, page, category)).data;
      |r.value| == |data.posts.value|
      && forall i :: 0 <= i < |r.value| ==>
           r.value[i] == ToCard(data.posts.value[i], TotalPages(data.pages), localeDate)
  {
    match get(ListUrl(base, key, page, category))
    case Failed => None
    case Fetched(data) =>
      match data.posts
      case None => None
      case Some(posts) =>
        var total := TotalPages(data.pages);
        Some(seq(|posts|, i requires 0 <= i < |posts| => ToCard(posts[i], total, localeDate)))
  }

  /** `getArticlesRaw`: the `posts` of the body as they are. */
  function GetArticlesRaw(get: string -> Fetch, base: string, key: string, lang: Option<string>,
                          page: string, category: Option<string>): (r: Option<seq<Post>>)
    ensures get(ListUrl(base, key, page, category)).Failed? ==> r.None?
    ensures get(ListUrl(base, key, page, category)).Fetched? ==>
      r == get(ListUrl(base, key, page, category)).data.posts
  {
    match get(ListUrl(base, key, page, category))
    case Failed => None
    case Fetched(data) => data.posts
  }

  /** `getArticle`: `null` when the body has no posts, the first post as an
      article record otherwise, and `undefined` when the request fails. */
  function GetArticle(get: string -> Fetch, base: string, key: string, slug: string,
                      localeDate: Option<string> -> string): (r: Lookup<Detail>)
    ensures r.Undefined? <==> get(SlugUrl(base, key, slug)).Failed?
    ensures r.Null? <==> get(SlugUrl(base, key, slug)).Fetched?
                         && (get(SlugUrl(base, key, slug)).data.posts.None?
                             || get(SlugUrl(base, key, slug)).data.posts.value == [])
  {
    match get(SlugUrl(base, key, slug))
    case Failed => Undefined
    case Fetched(data) =>
      match data.posts
      case None => Null
      case Some(posts) => if |posts| == 0 then Null else Found(ToDetail(posts[0], localeDate))
  }

  /** `getArticleRaw`: the `posts` of the body as they are. */
  function GetArticleRaw(get: string -> Fetch, base: string, key: string, slug: string)
    : (r: Option<seq<Post>>)
    ensures get(SlugUrl(base, key, slug)).Failed? ==> r.None?
    ensures get(SlugUrl(base, key, slug)).Fetched? ==> r == get(SlugUrl(base, key, slug)).data.posts
  {
    match get(SlugUrl(base, key, slug))
    case Failed => None
    case Fetched(data) => data.posts
  }

  /** The mapped list and the raw list agree: both are present together,
      and the records are the raw posts mapped one to one, in order. */
  lemma ArticlesMapRaw(get: string -> Fetch, base: string, key: string, lang: Option<string>,
                       page: string, category: Option<string>, localeDate: Option<string> -> string)
    ensures var cards := GetArticles(get, base, key, lang, page, category, localeDate);
      var raw := GetArticlesRaw(get, base, key, lang, page, category);
      (cards.Some? <==> raw.Some?)
      && (cards.Some? ==>
            (|cards.value| == |raw.value|
             && forall i :: 0 <= i < |raw.value| ==>
                  (cards.value[i].slug == OrEmpty(raw.value[i].slug) && cards.value[i].id == raw.value[i].id)))
  {
  }

  /** Every record of a page carries the same page count, never zero. */
  lemma SamePageCount(get: string -> Fetch, base: string, key: string, lang: Option<string>,
                      page: string, category: Option<string>, localeDate: Option<string> -> string)
    ensures var cards := GetArticles(get, base, key, lang, page, category, localeDate);
      cards.Some? ==> forall i, j :: 0 <= i < |cards.value| && 0 <= j < |cards.value| ==>
        cards.value[i].totalPages == cards.value[j].totalPages && cards.value[i].totalPages != 0
  {
  }

  /** The article found by slug is the first post of the raw answer. */
  lemma ArticleIsFirstRaw(get: string -> Fetch, base: string, key: string, slug: string,
                          localeDate: Option<string> -> string)
    ensures var r := GetArticle(get, base, key, slug, localeDate);
      var raw := GetArticleRaw(get, base, key, slug);
      (r.Found? <==> raw.Some? && |raw.value| > 0)
      && (r.Found? ==> r.value == ToDetail(raw.value[0], localeDate))
  {
  }

  const DataImageSrc: string := "src=\"data:image/"
  const NoscriptOpen: string := "<noscript>"
  const NoscriptClose: string := "</noscript>"
  const LazyAttr: string := " loading=\"lazy\">"
  const BlurUp: string := " blur-up"
  const DefaultClass: string := " class=\"blur-up lazyload\" loading=\"lazy\">"

  /** `src="data:image/` starts somewhere in `s[k..q]` with at least one
      character on each side of it before `q`. */
  function DataSrcFrom(s: string, k: nat, q: nat): bool
    decreases q - k
  {
    k + 16 < q && (OccursAt(s, DataImageSrc, k) || DataSrcFrom(s, k + 1, q))
  }

  /** Where an `<img` tag starting at `p` ends (just past its `>`) when its
      attributes hold an inline `src="data:image/` source; `None` otherwise. */
  function DataImageAt(s: string, p: nat): (e: Option<nat>)
    ensures e.Some? ==> p < e.value <= |s|
  {
    if !OccursAt(s, "<img", p) then None
    else match IndexOfFrom(s, '>', p + 4)
      case None => None
      case Some(q) => if DataSrcFrom(s, p + 5, q) then Some(q + 1) else None
  }

  /** Where the first `</noscript>` after a `<noscript>` at `p` starts. */
  function NoscriptAt(s: string, p: nat): (k: Option<nat>)
    ensures k.Some? ==> p + 10 <= k.value && k.value + 11 <= |s|
  {
    if !OccursAt(s, NoscriptOpen, p) then None
    else FindFrom(s, NoscriptClose, p + 10)
  }

  /** The first pass, from position `i` on: an `<img` tag whose source is
      an inline `data:image/` URI is deleted, a `<noscript>` element is
      replaced by its content, and every other character is copied. It
      only deletes: the result is never longer than what it scans. */
  function Pass1From(s: string, i: nat): (r: string)
    decreases |s| - i
    ensures i <= |s| ==> |r| <= |s| - i
  {
    if i >= |s| then []
    else match DataImageAt(s, i)
      case Some(e) => Pass1From(s, e)
      case None =>
        match NoscriptAt(s, i)
        case Some(k) => s[i + 10..k] + Pass1From(s, k + 11)
        case None => [s[i]] + Pass1From(s, i + 1)
  }

  predicate IsLineTerminator(c: char)
  {
    c == '\n' || c == '\r' || c == '\U{2028}' || c == '\U{2029}'
  }

  function SkipSpaces(a: string, i: nat): (j: nat)
    decreases |a| - i
    ensures i <= j
  {
    if i < |a| && IsSpace(a[i]) then SkipSpaces(a, i + 1) else i
  }

  /** At `k`, the word `class`, optional spaces, `=`, optional spaces and a
      quote: the position of that quote. */
  function ClassQuoteAt(a: string, k: nat): (b: Option<nat>)
    ensures b.Some? ==> b.value < |a| && (a[b.value] == '"' || a[b.value] == '\'')
  {
    if !OccursAt(a, "class", k) then None
    else
      var j := SkipSpaces(a, k + 5);
      if j < |a| && a[j] == '=' then
        var b := SkipSpaces(a, j + 1);
        if b < |a| && (a[b] == '"' || a[b] == '\'') then Some(b) else None
      else None
  }

  /** The quote `qc` closes on the same line, from `i` on. */
  function ClosesOnLine(a: string, i: nat, qc: char): bool
    decreases |a| - i
  {
    i < |a| && (a[i] == qc || (!IsLineTerminator(a[i]) && ClosesOnLine(a, i + 1, qc)))
  }

  /** The attributes `a` hold, from `k` on, a `class=` whose quoted value is
      closed by the same quote on the same line. */
  function HasClassFrom(a: string, k: nat): bool
    decreases |a| - k
  {
    k < |a| &&
    ((match ClassQuoteAt(a, k) case Some(b) => ClosesOnLine(a, b + 1, a[b]) case None => false)
     || HasClassFrom(a, k + 1))
  }

  function QuoteFrom(a: string, i: nat): (r: Option<nat>)
    decreases |a| - i
    ensures r.Some? ==> i <= r.value < |a| && (a[r.value] == '"' || a[r.value] == '\'')
  {
    if i >= |a| then None
    else if a[i] == '"' || a[i] == '\'' then Some(i)
    else QuoteFrom(a, i + 1)
  }

  /** The first `class=` from `k` on whose quoted value holds no quote:
      where the quote that closes it is. */
  function ClassCloseFrom(m: string, k: nat): (c: Option<nat>)
    decreases |m| - k
    ensures c.Some? ==> c.value < |m| && (m[c.value] == '"' || m[c.value] == '\'')
  {
    if k >= |m| then None
    else match ClassQuoteAt(m, k)
      case Some(b) =>
        (match QuoteFrom(m, b + 1) case Some(c) => Some(c) case None => ClassCloseFrom(m, k + 1))
      case None => ClassCloseFrom(m, k + 1)
  }

  function AddBlurUp(m: string): string
  {
    match ClassCloseFrom(m, 0)
    case Some(c) => m[..c] + BlurUp + m[c..]
    case None => m
  }

  function ReplaceFirstGt(m: string): string
  {
    match IndexOfFrom(m, '>', 0)
    case Some(k) => m[..k] + LazyAttr + m[k + 1..]
    case None => m
  }

  function RewriteImg(m: string, attrs: string): string
  {
    if HasClassFrom(attrs, 0) then ReplaceFirstGt(AddBlurUp(m))
    else "<img" + attrs + DefaultClass
  }

  predicate IsImgOpen(s: string, p: nat)
  {
    p + 4 <= |s| && s[p] == '<' && ToLowerChar(s[p + 1]) == 'i' && ToLowerChar(s[p + 2]) == 'm' && ToLowerChar(s[p + 3]) == 'g'
  }

  /** Where a tag of the second pass starts at `p`, and the `>` that ends it:
      `<img` in any letter case, then either `>` at once or a space, at
      least one more character and the first `>` after it. */
  function ImgTagAt(s: string, p: nat): (q: Option<nat>)
    ensures q.Some? ==> p + 4 <= q.value < |s| && s[q.value] == '>'
    ensures q.Some? ==> IsImgOpen(s, p) && (q.value == p + 4 || (IsSpace(s[p + 4]) && q.value >= p + 6))
                        && forall k :: p + 4 <= k < q.value ==> s[k] != '>'
    ensures forall e ::
              (IsImgOpen(s, p) && p + 4 <= e < |s| && s[e] == '>'
               && (forall k :: p + 4 <= k < e ==> s[k] != '>')
               && (e == p + 4 || (IsSpace(s[p + 4]) && e >= p + 6)))
              ==> q == Some(e)
  {
    IndexOfFromFirst(s, '>', p + 4);
    if !IsImgOpen(s, p) then None
    else match IndexOfFrom(s, '>', p + 4)
      case None => None
      case Some(q) => if q == p + 4 || (IsSpace(s[p + 4]) && q >= p + 6) then Some(q) else None
  }

  /** The second pass, from position `i` on: each `<img>` or `<img` tag
      with attributes after a space (in any letter case) is handed to
      `replacer` with its attribute text; other characters are copied. */
  function ReplaceImgTags(s: string, i: nat, replacer: (string, string) -> string): string
    decreases |s| - i
  {
    if i >= |s| then []
    else match ImgTagAt(s, i)
      case Some(q) => replacer(s[i..q + 1], s[i + 4..q]) + ReplaceImgTags(s, q + 1, replacer)
      case None => [s[i]] + ReplaceImgTags(s, i + 1, replacer)
  }

  function ApplyLazyLoad(html: Option<string>): string
  {
    ReplaceImgTags(Pass1From(OrEmpty(html), 0), 0, RewriteImg)
  }

  /** `replacer` makes every tag it is given longer. */
  ghost predicate Lengthens(replacer: (string, string) -> string)
  {
    forall m, attrs :: |m| == |attrs| + 5 && m[|m| - 1] == '>' ==> |replacer(m, attrs)| > |m|
  }

  /** Where no match of either alternative starts, the first pass copies the text. */
  lemma {:induction false} Pass1Identity(s: string, i: nat)
    requires i <= |s|
    requires forall k :: i <= k < |s| ==> DataImageAt(s, k).None? && NoscriptAt(s, k).None?
    ensures Pass1From(s, i) == s[i..]
    decreases |s| - i
  {
    if i < |s| {
      Pass1Identity(s, i + 1);
      assert s[i..] == [s[i]] + s[i + 1..];
    }
  }

  /** Where no `<img` tag starts, the second pass copies the text. */
  lemma {:induction false} Pass2Identity(s: string, i: nat, replacer: (string, string) -> string)
    requires i <= |s|
    requires forall k :: i <= k < |s| ==> ImgTagAt(s, k).None?
    ensures ReplaceImgTags(s, i, replacer) == s[i..]
    decreases |s| - i
  {
    if i < |s| {
      Pass2Identity(s, i + 1, replacer);
      assert s[i..] == [s[i]] + s[i + 1..];
    }
  }

  /** A rewritten tag is longer than the tag it replaces. */
  lemma RewriteImgLonger(m: string, attrs: string)
    requires |m| == |attrs| + 5 && m[|m| - 1] == '>'
    ensures |RewriteImg(m, attrs)| > |m|
  {
    if HasClassFrom(attrs, 0) {
      var b := AddBlurUp(m);
      assert |b| >= |m| && b[|b| - 1] == '>';
      IndexOfFromFirst(b, '>', 0);
    }
  }

  lemma RewriteImgLengthens()
    ensures Lengthens(RewriteImg)
  {
    forall m, attrs | |m| == |attrs| + 5 && m[|m| - 1] == '>'
      ensures |RewriteImg(m, attrs)| > |m|
    {
      RewriteImgLonger(m, attrs);
    }
  }

  /** With a replacer that lengthens tags, the second pass is never shorter
      than its input. */
  lemma {:induction false} Pass2Grows(s: string, i: nat, replacer: (string, string) -> string)
    requires Lengthens(replacer)
    ensures |ReplaceImgTags(s, i, replacer)| >= |s| - i
    decreases |s| - i
  {
    if i < |s| {
      match ImgTagAt(s, i)
      case Some(q) =>
        var m, attrs := s[i..q + 1], s[i + 4..q];
        assert |m| == |attrs| + 5 && m[|m| - 1] == '>';
        assert |replacer(m, attrs)| > |m|;
        assert ReplaceImgTags(s, i, replacer) == replacer(m, attrs) + ReplaceImgTags(s, q + 1, replacer);
        Pass2Grows(s, q + 1, replacer);
      case None =>
        assert ReplaceImgTags(s, i, replacer) == [s[i]] + ReplaceImgTags(s, i + 1, replacer);
        Pass2Grows(s, i + 1, replacer);
    }
  }

  /** ... and strictly longer when a tag starts where it begins. */
  lemma Pass2GrowsAtTag(s: string, i: nat, replacer: (string, string) -> string)
    requires Lengthens(replacer)
    requires i < |s| && ImgTagAt(s, i).Some?
    ensures |ReplaceImgTags(s, i, replacer)| > |s| - i
  {
    var q := ImgTagAt(s, i).value;
    var m, attrs := s[i..q + 1], s[i + 4..q];
    assert |m| == |attrs| + 5 && m[|m| - 1] == '>';
    assert |replacer(m, attrs)| > |m|;
    Pass2Grows(s, q + 1, replacer);
  }

  /** What the second pass makes of a bare `<img>`. */
  const Rewritten: string := "<img" + DefaultClass

  /** No match of either pass starts at a character other than `<`. */
  lemma NoTagStart(s: string, k: nat)
    requires k < |s| && s[k] != '<'
    ensures DataImageAt(s, k).None? && NoscriptAt(s, k).None? && ImgTagAt(s, k).None?
  {
    assert "<img"[0] == '<';
    assert k + 4 <= |s| ==> s[k..k + 4][0] == s[k];
    assert NoscriptOpen == "<" + NoscriptOpen[1..];
    assert k + 10 <= |s| ==> s[k..k + 10][0] == s[k];
  }

  lemma BareImgPass1()
    ensures Pass1From("<img>", 0) == "<img>"
  {
    var s := "<img>";
    assert IndexOfFrom(s, '>', 4) == Some(4);
    assert DataImageAt(s, 0).None?;
    assert NoscriptAt(s, 0).None? by {
      assert !OccursAt(s, NoscriptOpen, 0);
    }
    forall k | 1 <= k < |s|
      ensures DataImageAt(s, k).None? && NoscriptAt(s, k).None?
    {
      NoTagStart(s, k);
    }
    Pass1Identity(s, 0);
    assert s[0..] == s;
  }

  lemma BareImgPass2()
    ensures ReplaceImgTags("<img>", 0, RewriteImg) == Rewritten
  {
    var s := "<img>";
    assert IndexOfFrom(s, '>', 4) == Some(4);
    assert ImgTagAt(s, 0) == Some(4);
    assert !HasClassFrom("", 0);
    assert RewriteImg(s, "") == Rewritten;
    assert ReplaceImgTags(s, 5, RewriteImg) == [];
  }

  lemma RewrittenEnd()
    ensures IndexOfFrom(Rewritten, '>', 4) == Some(44)
  {
    assert forall j :: 4 <= j < 44 ==> Rewritten[j] != '>';
    IndexOfFromAt(Rewritten, '>', 4, 44);
  }

  lemma RewrittenPass1()
    ensures Pass1From(Rewritten, 0) == Rewritten
  {
    var t := Rewritten;
    assert forall k :: 0 < k < |t| ==> t[k] != '<';
    forall k | 0 < k < |t|
      ensures DataImageAt(t, k).None? && NoscriptAt(t, k).None?
    {
      NoTagStart(t, k);
    }
    assert DataImageAt(t, 0).None? by {
      RewrittenEnd();
      assert forall j :: 5 <= j < 44 ==> t[j] != ':';
      NoDataSrc(t, 5, 44);
    }
    assert !OccursAt(t, NoscriptOpen, 0) by { assert t[1] != NoscriptOpen[1]; }
    Pass1Identity(t, 0);
    assert t[0..] == t;
  }

  /** A tag opened by `<img` and a space. */
  lemma ImgSpaceOpens(rest: string)
    requires |rest| > 0 && rest[0] == ' '
    ensures IsImgOpen("<img" + rest, 0) && IsSpace(("<img" + rest)[4])
  {
    var t := "<img" + rest;
    assert t[0] == '<' && t[1] == 'i' && t[2] == 'm' && t[3] == 'g' && t[4] == rest[0];
  }

  lemma DefaultClassSpace()
    ensures |DefaultClass| > 0 && DefaultClass[0] == ' '
  {
    assert DefaultClass == " " + DefaultClass[1..];
  }

  lemma RewrittenOpens()
    ensures IsImgOpen(Rewritten, 0) && IsSpace(Rewritten[4])
  {
    DefaultClassSpace();
    ImgSpaceOpens(DefaultClass);
  }

  lemma RewrittenTag()
    ensures ImgTagAt(Rewritten, 0).Some?
  {
    RewrittenOpens();
    RewrittenEnd();
  }

  /** Applying the rewrite twice is not applying it once: every pass adds
      to every tag it matches. */
  lemma NotIdempotent()
    ensures ApplyLazyLoad(Some(ApplyLazyLoad(Some("<img>")))) != ApplyLazyLoad(Some("<img>"))
  {
    BareImgPass1();
    BareImgPass2();
    RewrittenPass1();
    RewrittenTag();
    RewriteImgLengthens();
    Pass2GrowsAtTag(Rewritten, 0, RewriteImg);
  }

  lemma {:induction false} NoDataSrc(s: string, k: nat, q: nat)
    requires q <= |s|
    requires forall j :: k <= j < q ==> s[j] != ':'
    ensures !DataSrcFrom(s, k, q)
    decreases q - k
  {
    if k + 16 < q {
      assert !OccursAt(s, DataImageSrc, k) by {
        assert s[k + 9] != ':' && DataImageSrc[9] == ':';
        assert s[k..k + 16][9] == s[k + 9];
      }
      NoDataSrc(s, k + 1, q);
    }
  }

  lemma BlurUpNoGt()
    ensures forall k :: 0 <= k < |BlurUp| ==> BlurUp[k] != '>'
  {
    assert BlurUp == " " + BlurUp[1..];
  }

  /** Inserting ` blur-up` before a quote of a tag whose only `>` ends it
      leaves that `>` the first one. */
  lemma InsertKeepsFirstGt(m: string, c: nat)
    requires |m| > 0 && m[|m| - 1] == '>' && forall j :: 0 <= j < |m| - 1 ==> m[j] != '>'
    requires c < |m| - 1
    ensures IndexOfFrom(m[..c] + BlurUp + m[c..], '>', 0) == Some(|m| + 7)
  {
    var b := m[..c] + BlurUp + m[c..];
    BlurUpNoGt();
    assert |b| == |m| + 8;
    forall j | 0 <= j < |m| + 7 ensures b[j] != '>' {
      if j < c { assert b[j] == m[j]; }
      else if j < c + 8 { assert b[j] == BlurUp[j - c]; }
      else { assert b[j] == m[j - 8]; }
    }
    assert b[|m| + 7] == m[|m| - 1];
    IndexOfFromAt(b, '>', 0, |m| + 7);
  }

  /** A tag with a class attribute: ` blur-up` goes in front of the quote
      that closes the first class value, and ` loading="lazy"` takes the
      place of the tag's `>`. */
  lemma RewriteImgWithClass(m: string, attrs: string)
    requires HasClassFrom(attrs, 0)
    requires |m| > 0 && m[|m| - 1] == '>' && forall j :: 0 <= j < |m| - 1 ==> m[j] != '>'
    requires ClassCloseFrom(m, 0).Some?
    ensures var c := ClassCloseFrom(m, 0).value;
      RewriteImg(m, attrs) == m[..c] + BlurUp + m[c..|m| - 1] + LazyAttr
  {
    var c := ClassCloseFrom(m, 0).value;
    var b := m[..c] + BlurUp + m[c..];
    assert AddBlurUp(m) == b;
    InsertKeepsFirstGt(m, c);
    assert b[..|m| + 7] == m[..c] + BlurUp + m[c..|m| - 1];
    assert b[|m| + 8..] == [];
  }

  /** A tag without one keeps its attributes and gets the default class and
      `loading="lazy"` in place of its `>`. */
  lemma RewriteImgWithoutClass(m: string, attrs: string)
    requires !HasClassFrom(attrs, 0)
    requires m == "<img" + attrs + ">"
    ensures RewriteImg(m, attrs) == m[..|m| - 1] + DefaultClass
  {
    assert m[..|m| - 1] == "<img" + attrs;
  }

  /** Text in which no tag starts comes out of both passes unchanged. */
  lemma PlainTextUnchanged(s: string)
    requires '<' !in s
    ensures ApplyLazyLoad(Some(s)) == s
  {
    forall k | 0 <= k < |s|
      ensures DataImageAt(s, k).None? && NoscriptAt(s, k).None? && ImgTagAt(s, k).None?
    {
      NoTagStart(s, k);
    }
    Pass1Identity(s, 0);
    Pass2Identity(s, 0, RewriteImg);
    assert s[0..] == s;
  }

  /** An absent body becomes the empty string. */
  lemma AbsentBodyEmpty()
    ensures ApplyLazyLoad(None) == ""
  {
  }

  /** An image whose source is inline data is deleted. */
  lemma DataImageDeleted()
    ensures ApplyLazyLoad(Some("<img src=\"data:image/x\">")) == ""
  {
    var s := "<img src=\"data:image/x\">";
    DataImageMatched();
    assert Pass1From(s, 0) == Pass1From(s, 24) == "";
  }

  /** The whole of `<img src="data:image/x">` is one match of the first
      alternative. */
  lemma DataImageMatched()
    ensures DataImageAt("<img src=\"data:image/x\">", 0) == Some(24)
  {
    var s := "<img src=\"data:image/x\">";
    assert s == "<img" + " " + DataImageSrc + "x\">";
    assert OccursAt(s, "<img", 0);
    assert OccursAt(s, DataImageSrc, 5);
    assert forall j :: 4 <= j < 23 ==> s[j] != '>';
    IndexOfFromAt(s, '>', 4, 23);
  }

  /** A `<noscript>` wrapper is replaced by what it wraps. */
  lemma NoscriptUnwrapped()
    ensures ApplyLazyLoad(Some("<noscript>x</noscript>")) == "x"
  {
    var s := "<noscript>x</noscript>";
    assert s == NoscriptOpen + "x" + NoscriptClose;
    assert !OccursAt(s, "<img", 0) by { assert s[1] != "<img"[1]; }
    assert !OccursAt(s, NoscriptClose, 10) by { assert s[10] == 'x'; }
    assert OccursAt(s, NoscriptClose, 11);
    assert NoscriptAt(s, 0) == Some(11);
    assert Pass1From(s, 0) == "x" + Pass1From(s, 22);
    PlainTextUnchanged("x");
    assert ApplyLazyLoad(Some("x")) == ReplaceImgTags("x", 0, RewriteImg);
  }

  /** An occurrence of `src="data:image/` at `m` with a character on each
      side of it inside `s[k..q]` is found by the scan. */
  lemma {:induction false} DataSrcFromAt(s: string, k: nat, q: nat, m: nat)
    requires k <= m && m + |DataImageSrc| < q && OccursAt(s, DataImageSrc, m)
    ensures DataSrcFrom(s, k, q)
    decreases m - k
  {
    if k < m {
      DataSrcFromAt(s, k + 1, q, m);
    }
  }

  /** Every `<img ...>` tag whose attributes hold `src="data:image/` after at
      least one character, and before at least one more, is deleted by the
      first pass, which resumes just past its `>`. */
  lemma DataImageDeletedAt(s: string, i: nat, attrs: string, rest: string, j: nat)
    requires i <= |s| && s[i..] == "<img" + attrs + ">" + rest
    requires '>' !in attrs
    requires 1 <= j && j + |DataImageSrc| < |attrs| && OccursAt(attrs, DataImageSrc, j)
    ensures Pass1From(s, i) == Pass1From(s, i + |attrs| + 5)
  {
    var t := s[i..];
    var q := i + 4 + |attrs|;
    assert s[i..i + 4] == t[..4] == "<img";
    assert s[i + 4..q] == t[4..4 + |attrs|] == attrs;
    assert s[q] == t[4 + |attrs|] == '>';
    assert forall k :: i + 4 <= k < q ==> s[k] != '>' by {
      forall k | i + 4 <= k < q
        ensures s[k] != '>'
      {
        assert s[k] == s[i + 4..q][k - i - 4];
      }
    }
    IndexOfFromAt(s, '>', i + 4, q);
    assert s[i + 4 + j..i + 4 + j + 16] == s[i + 4..q][j..j + 16];
    DataSrcFromAt(s, i + 5, q, i + 4 + j);
    assert DataImageAt(s, i) == Some(q + 1);
  }

  /** No `</noscript>` starts inside `x` when `x` holds none and is followed
      by one: the closing tag has no other `<` that could overlap. */
  lemma NoCloseInside(s: string, lo: nat, x: string, j: nat)
    requires lo + |x| + 11 <= |s| && s[lo..lo + |x|] == x && s[lo + |x|..lo + |x| + 11] == NoscriptClose
    requires forall k :: !OccursAt(x, NoscriptClose, k)
    requires lo <= j < lo + |x|
    ensures !OccursAt(s, NoscriptClose, j)
  {
    var c := lo + |x|;
    if j + 11 <= c {
      assert s[j..j + 11] == x[j - lo..j - lo + 11];
      assert !OccursAt(x, NoscriptClose, j - lo);
    } else {
      assert s[c] == s[c..c + 11][0] == '<';
      assert NoscriptClose[c - j] != '<' by {
        assert NoscriptClose == "<" + "/noscript>";
      }
      assert s[j..j + 11][c - j] == s[c];
    }
  }

  /** A `<noscript>` at `i`, then `x` holding no `</noscript>`, then one:
      the element is matched, and its closing tag is the one after `x`. */
  lemma NoscriptMatched(s: string, i: nat, x: string)
    requires i + 21 + |x| <= |s|
    requires s[i..i + 10] == NoscriptOpen && s[i + 10..i + 10 + |x|] == x
    requires s[i + 10 + |x|..i + 21 + |x|] == NoscriptClose
    requires forall k :: !OccursAt(x, NoscriptClose, k)
    ensures DataImageAt(s, i).None? && NoscriptAt(s, i) == Some(i + 10 + |x|)
  {
    var c := i + 10 + |x|;
    assert !OccursAt(s, "<img", i) by { assert s[i + 1] == s[i..i + 10][1] == NoscriptOpen[1] != "<img"[1]; }
    forall j | i + 10 <= j < c
      ensures !OccursAt(s, NoscriptClose, j)
    {
      NoCloseInside(s, i + 10, x, j);
    }
    FindFromAt(s, NoscriptClose, i + 10, c);
  }

  /** Every `<noscript>` element is replaced by its content, up to the first
      `</noscript>`, and the first pass resumes just past that closing tag. */
  lemma NoscriptUnwrappedAt(s: string, i: nat, x: string, rest: string)
    requires i <= |s| && s[i..] == NoscriptOpen + x + NoscriptClose + rest
    requires forall k :: !OccursAt(x, NoscriptClose, k)
    ensures Pass1From(s, i) == x + Pass1From(s, i + |x| + 21)
  {
    NoscriptParts(s, i, x, rest);
    NoscriptMatched(s, i, x);
    Pass1AtNoscript(s, i, i + 10 + |x|);
  }

  /** The first pass at a matched `<noscript>` element keeps its content. */
  lemma Pass1AtNoscript(s: string, i: nat, c: nat)
    requires i < |s| && DataImageAt(s, i).None? && NoscriptAt(s, i) == Some(c)
    ensures i + 10 <= c && Pass1From(s, i) == s[i + 10..c] + Pass1From(s, c + 11)
  {
  }

  /** The three parts of a `<noscript>` element laid out from `i`. */
  lemma NoscriptParts(s: string, i: nat, x: string, rest: string)
    requires i <= |s| && s[i..] == NoscriptOpen + x + NoscriptClose + rest
    ensures i + 21 + |x| <= |s|
    ensures s[i..i + 10] == NoscriptOpen && s[i + 10..i + 10 + |x|] == x
    ensures s[i + 10 + |x|..i + 21 + |x|] == NoscriptClose
  {
    var t := s[i..];
    assert s[i..i + 10] == t[..10];
    assert s[i + 10..i + 10 + |x|] == t[10..10 + |x|];
    assert s[i + 10 + |x|..i + 21 + |x|] == t[10 + |x|..21 + |x|];
  }
}

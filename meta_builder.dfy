/** The structured-data builders: schema.org JSON-LD for the article list
    pages, the article page and the home page, and the tag stripping applied
    to summaries and bodies. HTML entity decoding is the parameter
    `decode`. Only the fields that vary are modelled; the `@context` and
    `@type` members are constants. */
module MetaBuilder {

  import opened JsText

  const Site: string := "https://a-pro.ai"

  /** Where a tag starting at `i` ends: a `<` followed
      by a character other than `>` opens a tag, which runs to the first
      `>` or to the end of the input. */
  function TagEnd(s: string, i: nat): (e: Option<nat>)
    ensures e.Some? ==> i + 2 <= e.value <= |s|
    ensures e.Some? <==> i + 1 < |s| && s[i] == '<' && s[i + 1] != '>'
    ensures e.Some? ==> (forall k :: i + 1 <= k < e.value - 1 ==> s[k] != '>')
                        && (e.value < |s| ==> s[e.value - 1] == '>')
  {
    if i + 1 < |s| && s[i] == '<' && s[i + 1] != '>' then
      IndexOfFromFirst(s, '>', i + 1);
      match IndexOfFrom(s, '>', i + 1)
      case Some(q) => Some(q + 1)
      case None => Some(|s|)
    else None
  }

  /** Every tag from position `i` on deleted, other characters copied. */
  function StripTagsFrom(s: string, i: nat): (r: string)
    decreases |s| - i
  {
    if i >= |s| then []
    else match TagEnd(s, i)
      case Some(e) => StripTagsFrom(s, e)
      case None => [s[i]] + StripTagsFrom(s, i + 1)
  }

  function StripTags(s: string): string
  {
    StripTagsFrom(s, 0)
  }

  /** `removeHtmlTags(input)`: `undefined` for a missing or empty input,
      otherwise the input without its tags, entity-decoded. */
  function RemoveHtmlTags(input: Option<string>, decode: string -> string): (r: Option<string>)
    ensures r.None? <==> !Truthy(input)
    ensures r.Some? ==> r.value == decode(StripTags(input.value))
  {
    if !Truthy(input) then None else Some(decode(StripTags(input.value)))
  }

  /** No tag starts anywhere in `s`: every `<` is the last character or is
      followed by `>`. */
  predicate TagFree(s: string)
  {
    forall k :: 0 <= k < |s| - 1 && s[k] == '<' ==> s[k + 1] == '>'
  }

  /** Stripping only deletes: the result is never longer. */
  lemma {:induction false} StripShrinks(s: string, i: nat)
    requires i <= |s|
    ensures |StripTagsFrom(s, i)| <= |s| - i
    decreases |s| - i
  {
    if i < |s| {
      match TagEnd(s, i)
      case Some(e) => StripShrinks(s, e);
      case None => StripShrinks(s, i + 1);
    }
  }

  /** In a tag-free string no match starts, so stripping copies it. */
  lemma {:induction false} StripTagFree(s: string, i: nat)
    requires i <= |s| && TagFree(s)
    ensures StripTagsFrom(s, i) == s[i..]
    decreases |s| - i
  {
    if i < |s| {
      assert TagEnd(s, i).None?;
      StripTagFree(s, i + 1);
      assert s[i..] == [s[i]] + s[i + 1..];
    }
  }

  /** Where no tag starts, the first character is kept. */
  lemma StripKeepsFirst(s: string, i: nat)
    requires i < |s| && s[i] != '<'
    ensures |StripTagsFrom(s, i)| > 0 && StripTagsFrom(s, i)[0] == s[i]
  {
  }

  /** What stripping leaves is tag-free. */
  lemma {:induction false} StripLeavesNoTag(s: string, i: nat)
    requires i <= |s|
    ensures TagFree(StripTagsFrom(s, i))
    decreases |s| - i
  {
    if i < |s| {
      match TagEnd(s, i)
      case Some(e) => StripLeavesNoTag(s, e);
      case None =>
        var rest := StripTagsFrom(s, i + 1);
        StripLeavesNoTag(s, i + 1);
        var r := [s[i]] + rest;
        assert r == StripTagsFrom(s, i);
        if s[i] == '<' && rest != [] {
          assert s[i + 1] == '>';
          StripKeepsFirst(s, i + 1);
        }
        assert forall k :: 1 <= k < |r| ==> r[k] == rest[k - 1];
    }
  }

  /** Stripping twice is stripping once. */
  lemma StripIdempotent(s: string)
    ensures StripTags(StripTags(s)) == StripTags(s)
  {
    var t := StripTags(s);
    StripLeavesNoTag(s, 0);
    StripTagFree(t, 0);
    assert t[0..] == t;
  }

  /** A tagged paragraph keeps only its text. */
  lemma StripExample()
    ensures StripTags("<p>Hi</p>") == "Hi"
  {
    var s := "<p>Hi</p>";
    assert IndexOfFrom(s, '>', 1) == Some(2);
    assert IndexOfFrom(s, '>', 6) == Some(8);
    assert StripTagsFrom(s, 0) == StripTagsFrom(s, 3);
    assert StripTagsFrom(s, 3) == "H" + StripTagsFrom(s, 4);
    assert StripTagsFrom(s, 4) == "i" + StripTagsFrom(s, 5);
    assert StripTagsFrom(s, 5) == StripTagsFrom(s, 9);
  }

  /** An article as the templates hand it over; a field the record does
      not have is `None`. */
  datatype Article = Article(
    title: string,
    summary: Option<string>,
    content: Option<string>,
    author: Option<string>,
    medImg: Option<string>,
    slug: string,
    publishedDate: Option<string>,
    date: Option<string>,
    description: Option<string>)

  /** The `Article` object inside a list item. */
  datatype Item = Item(
    headline: string,
    abstractText: Option<string>,
    authorName: Option<string>,
    image: Option<string>,
    url: string,
    datePublished: Option<string>,
    description: Option<string>)

  datatype ListItem = ListItem(position: nat, item: Item)

  /** The `CollectionPage` of an article list page. */
  datatype CollectionPage = CollectionPage(name: string, url: string, items: seq<ListItem>)

  /** The `Article` object of an article page. */
  datatype ArticlePage = ArticlePage(
    headline: string,
    abstractText: Option<string>,
    articleBody: Option<string>,
    authorName: Option<string>,
    image: Option<string>,
    url: string,
    datePublished: Option<string>,
    dateModified: Option<string>,
    description: Option<string>)

  /** The `WebPage` of the home page. */
  datatype WebPage = WebPage(name: string, url: string, description: string, publisherName: string,
                             logoUrl: string, items: seq<ListItem>)

  /** The language part of a url: nothing for exactly `en`, `/<lang>`
      otherwise; an absent language prints as `undefined`. */
  function LangSegment(lang: Option<string>): (seg: string)
    ensures lang == Some("en") ==> seg == ""
    ensures lang.Some? && lang.value != "en" ==> seg == "/" + lang.value
    ensures lang.None? ==> seg == "/undefined"
  {
    match lang
    case Some(l) => if l == "en" then "" else "/" + l
    case None => "/undefined"
  }

  /** The url of an article under a language. */
  function ItemUrl(lang: Option<string>, slug: string): string
  {
    Site + LangSegment(lang) + "/article/" + slug
  }

  function ToItem(article: Article, lang: Option<string>, decode: string -> string): (it: Item)
    ensures it.url == ItemUrl(lang, article.slug)
    ensures it.headline == decode(article.title)
    ensures it.abstractText == RemoveHtmlTags(article.summary, decode)
    ensures it.authorName == article.author && it.image == article.medImg
    ensures it.datePublished == article.publishedDate && it.description == article.description
  {
    Item(decode(article.title), RemoveHtmlTags(article.summary, decode), article.author,
         article.medImg, ItemUrl(lang, article.slug), article.publishedDate, article.description)
  }

  /** One list element per article, in order, at positions 1, 2, …. */
  function ItemList(articles: seq<Article>, lang: Option<string>, decode: string -> string): (items: seq<ListItem>)
    ensures |items| == |articles|
    ensures forall i :: 0 <= i < |items| ==>
      items[i].position == i + 1 && items[i].item == ToItem(articles[i], lang, decode)
  {
    seq(|articles|, i requires 0 <= i < |articles| => ListItem(i + 1, ToItem(articles[i], lang, decode)))
  }

  /** The list positions count from 1 without gaps, so they are distinct
      and the last one is the number of articles. */
  lemma PositionsDistinct(articles: seq<Article>, lang: Option<string>, decode: string -> string)
    ensures var items := ItemList(articles, lang, decode);
      (forall i, j :: 0 <= i < j < |items| ==> items[i].position < items[j].position)
      && (|items| > 0 ==> items[|items| - 1].position == |articles|)
  {
  }

  /** `articleListJSONLD(category, page, lang, articles)`. */
  function ArticleListJsonLd(category: string, page: string, lang: Option<string>, articles: seq<Article>,
                             decode: string -> string): (c: CollectionPage)
    ensures c.url == Site + LangSegment(lang) + "/articles/" + category + "/" + page
    ensures c.items == ItemList(articles, lang, decode)
    ensures c.name == "Articles"
  {
    CollectionPage("Articles", Site + LangSegment(lang) + "/articles/" + category + "/" + page,
                   ItemList(articles, lang, decode))
  }

  /** `articleJSONLD(article)`: the url carries no language. */
  function ArticleJsonLd(article: Article, decode: string -> string): (a: ArticlePage)
    ensures a.url == Site + "/article/" + article.slug
    ensures a.headline == decode(article.title)
    ensures a.abstractText == RemoveHtmlTags(article.summary, decode)
    ensures a.articleBody == RemoveHtmlTags(article.content, decode)
    ensures a.description == RemoveHtmlTags(article.description, decode)
    ensures a.datePublished == article.publishedDate && a.dateModified == article.date
    ensures a.authorName == article.author && a.image == article.medImg
  {
    ArticlePage(decode(article.title), RemoveHtmlTags(article.summary, decode),
                RemoveHtmlTags(article.content, decode), article.author, article.medImg,
                Site + "/article/" + article.slug, article.publishedDate, article.date,
                RemoveHtmlTags(article.description, decode))
  }

  const HomeName: string := "A-Pro | Your SEO Companion"
  const HomeDescription: string :=
    "A-Pro is your ultimate partner for digital marketing success. Discover cutting-edge SEO strategies, expert marketing insights, and AI-driven tools."
  const Publisher: string := "A-Pro"

  /** `indexPageJSONLD(articles, lang)`: the page url is the site itself
      whatever the language; the items follow the language. */
  function IndexPageJsonLd(articles: seq<Article>, lang: Option<string>, decode: string -> string): (w: WebPage)
    ensures w.url == Site
    ensures w.items == ItemList(articles, lang, decode)
    ensures w.logoUrl == Site + "/images/logo.png"
  {
    WebPage(HomeName, Site, HomeDescription, Publisher, Site + "/images/logo.png", ItemList(articles, lang, decode))
  }

  /** The English list page and its items have no language segment; every
      other language, an absent one included, puts `/<lang>` right after
      the site. */
  lemma ListUrls(category: string, page: string, lang: Option<string>, articles: seq<Article>,
                 decode: string -> string, i: nat)
    requires i < |articles|
    ensures var c := ArticleListJsonLd(category, page, lang, articles, decode);
      (lang == Some("en") ==>
         c.url == Site + "/articles/" + category + "/" + page
         && c.items[i].item.url == Site + "/article/" + articles[i].slug)
      && (lang != Some("en") ==>
         StartsWith(c.url, Site + "/" + OrEmpty(lang) + (if lang.None? then "undefined" else ""))
         && StartsWith(c.items[i].item.url, Site + "/" + OrEmpty(lang) + (if lang.None? then "undefined" else "")))
  {
    var c := ArticleListJsonLd(category, page, lang, articles, decode);
    var pre := Site + "/" + OrEmpty(lang) + (if lang.None? then "undefined" else "");
    if lang != Some("en") {
      assert pre == Site + LangSegment(lang);
      assert c.url == pre + ("/articles/" + category + "/" + page);
      assert c.items[i].item.url == pre + ("/article/" + articles[i].slug);
    }
  }
}

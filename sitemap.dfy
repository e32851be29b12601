/** The sitemap generator: a module-level list of sitemap entries, seeded
    with the static pages of the four locales, to which every run appends one
    entry per blog post, fetched page by page. */
module Sitemap {

  import opened JsText

  /** `changeFreq` values used by the list. */
  datatype ChangeFreq = Weekly | Monthly | Never

  /** `lastMod`: `new Date()` when the module is loaded, or `new Date(text)`. */
  datatype LastMod = LoadTime | Date(text: string)

  /** One sitemap entry; `priority` is in tenths (`0.5` is 5). */
  datatype Entry = Entry(url: string, priority: nat, lastMod: LastMod, changeFreq: ChangeFreq)

  /** A post as the blog's post list returns it (the fields used). */
  datatype Post = Post(slug: string, modified: string)

  /** The answer to one page request: a non-ok status, or the page's posts. */
  datatype Page = NotOk(status: int) | Posts(posts: seq<Post>)

  const PerPage: nat := 100

  const EnSeed: seq<Entry> := [
    Entry("/", 10, Date("2025-02-20"), Weekly),
    Entry("/about", 8, Date("2025-02-22"), Monthly),
    Entry("/contact", 5, Date("2025-02-22"), Never),
    Entry("/pricing", 5, Date("2025-02-22"), Monthly),
    Entry("/faq", 5, Date("2025-06-13"), Monthly),
    Entry("/articles/all/1", 9, LoadTime, Weekly)]

  const ZhSeed: seq<Entry> := [
    Entry("/zh", 10, Date("2025-02-22"), Weekly),
    Entry("/zh/about", 8, Date("2025-02-22"), Monthly),
    Entry("/zh/pricing", 5, Date("2025-02-22"), Monthly),
    Entry("/zh/faq", 5, Date("2025-06-13"), Monthly),
    Entry("/zh/contact", 5, Date("2025-02-22"), Never),
    Entry("/zh/articles/all/1", 9, LoadTime, Weekly)]

  const JaSeed: seq<Entry> := [
    Entry("/ja", 10, LoadTime, Weekly),
    Entry("/ja/about", 8, LoadTime, Monthly),
    Entry("/ja/pricing", 5, LoadTime, Monthly),
    Entry("/ja/faq", 5, LoadTime, Monthly),
    Entry("/ja/contact", 5, LoadTime, Never),
    Entry("/ja/articles/all/1", 9, LoadTime, Weekly)]

  const EsSeed: seq<Entry> := [
    Entry("/es", 10, LoadTime, Weekly),
    Entry("/es/about", 8, LoadTime, Monthly),
    Entry("/es/pricing", 5, LoadTime, Monthly),
    Entry("/es/faq", 5, LoadTime, Monthly),
    Entry("/es/contact", 5, LoadTime, Never),
    Entry("/es/articles/all/1", 9, LoadTime, Weekly)]

  /** The static list the module starts with. */
  const Seed: seq<Entry> := EnSeed + ZhSeed + JaSeed + EsSeed

  /** Every entry of `es` has a url under `/<lang>`. */
  predicate AllUnder(es: seq<Entry>, lang: string)
  {
    forall i :: 0 <= i < |es| ==> StartsWith(es[i].url, "/" + lang)
  }

  /** The seed list has 24 entries, six for each locale, English first and
      then Chinese, Japanese and Spanish. */
  lemma SeedShape()
    ensures |Seed| == 24
    ensures Seed[..6] == EnSeed && Seed[6..12] == ZhSeed && Seed[12..18] == JaSeed && Seed[18..] == EsSeed
  {
    assert |EnSeed| == 6 && |ZhSeed| == 6 && |JaSeed| == 6 && |EsSeed| == 6;
    assert Seed == EnSeed + ZhSeed + JaSeed + EsSeed;
  }

  /** The Chinese entries are under `/zh`. */
  lemma ZhSeedUnder()
    ensures AllUnder(ZhSeed, "zh")
  {
  }

  /** The Japanese entries are under `/ja`. */
  lemma JaSeedUnder()
    ensures AllUnder(JaSeed, "ja")
  {
  }

  /** The Spanish entries are under `/es`. */
  lemma EsSeedUnder()
    ensures AllUnder(EsSeed, "es")
  {
  }

  /** The url prefix of a post entry; a language other than the four leaves
      it `undefined`, which the template literal prints. */
  function Prefix(lang: string): (p: string)
    ensures lang == "en" ==> p == "/article/"
    ensures lang in {"zh", "ja", "es"} ==> p == "/" + lang + "/article/"
    ensures lang !in {"en", "zh", "ja", "es"} ==> p == "undefined"
  {
    if lang == "en" then "/article/"
    else if lang == "zh" then "/zh/article/"
    else if lang == "ja" then "/ja/article/"
    else if lang == "es" then "/es/article/"
    else "undefined"
  }

  /** The entries one page of posts adds, in page order. */
  function Entries(posts: seq<Post>, prefix: string): (es: seq<Entry>)
    ensures |es| == |posts|
  {
    if posts == [] then []
    else [Entry(prefix + posts[0].slug, 5, Date(posts[0].modified), Monthly)] + Entries(posts[1..], prefix)
  }

  /** Each post gives the entry `prefix + slug`, priority 0.5, its
      modification date and a monthly change frequency, at its own index. */
  lemma {:induction false} EntriesAt(posts: seq<Post>, prefix: string)
    ensures forall i :: 0 <= i < |posts| ==>
      Entries(posts, prefix)[i] == Entry(prefix + posts[i].slug, 5, Date(posts[i].modified), Monthly)
  {
    if posts != [] {
      EntriesAt(posts[1..], prefix);
    }
  }

  /** The answer to the request for page `page` (counted from 1); the blog
      has no posts past its last page. */
  function PageAt(pages: seq<Page>, page: nat): Page
  {
    if 1 <= page <= |pages| then pages[page - 1] else Posts([])
  }

  /** A page after which the loop asks for the next one. */
  predicate Full(p: Page)
  {
    p.Posts? && |p.posts| >= PerPage
  }

  /** What the pagination does from page `page` on: the entries it adds,
      whether it ends in a non-ok answer, and the last page it requests. */
  datatype Harvest = Harvest(added: seq<Entry>, failed: bool, last: nat)

  function HarvestFrom(pages: seq<Page>, page: nat, prefix: string): (h: Harvest)
    requires page >= 1
    decreases |pages| + 1 - page
    ensures h.last >= page
  {
    match PageAt(pages, page)
    case NotOk(_) => Harvest([], true, page)
    case Posts(posts) =>
      if Full(PageAt(pages, page)) then
        var rest := HarvestFrom(pages, page + 1, prefix);
        Harvest(Entries(posts, prefix) + rest.added, rest.failed, rest.last)
      else Harvest(Entries(posts, prefix), false, page)
  }

  /** The pagination requests pages one after another: every page before
      the last one it asks for is full, the last one is not, and the run
      fails exactly when that last answer is not ok. */
  lemma {:induction false} HarvestStops(pages: seq<Page>, page: nat, prefix: string)
    requires page >= 1
    decreases |pages| + 1 - page
    ensures var h := HarvestFrom(pages, page, prefix);
      (forall k :: page <= k < h.last ==> Full(PageAt(pages, k)))
      && !Full(PageAt(pages, h.last))
      && (h.failed <==> PageAt(pages, h.last).NotOk?)
  {
    if Full(PageAt(pages, page)) {
      HarvestStops(pages, page + 1, prefix);
    }
  }

  /** The posts of pages `page` up to `last`, in page order (a non-ok answer
      contributes none). */
  function PostsBetween(pages: seq<Page>, page: nat, last: nat): (ps: seq<Post>)
    decreases last + 1 - page
  {
    if page > last then []
    else
      (match PageAt(pages, page) case Posts(posts) => posts case NotOk(_) => [])
      + PostsBetween(pages, page + 1, last)
  }

  lemma {:induction false} EntriesAppend(a: seq<Post>, b: seq<Post>, prefix: string)
    ensures Entries(a + b, prefix) == Entries(a, prefix) + Entries(b, prefix)
  {
    var l := Entries(a + b, prefix);
    var r := Entries(a, prefix) + Entries(b, prefix);
    EntriesAt(a + b, prefix);
    EntriesAt(a, prefix);
    EntriesAt(b, prefix);
    assert |l| == |r|;
    forall i | 0 <= i < |l| ensures l[i] == r[i] {
      if i < |a| { assert (a + b)[i] == a[i]; } else { assert (a + b)[i] == b[i - |a|]; }
    }
  }

  /** The entries a run adds are one per post of the pages it requests, in
      page order and, within a page, in the order the blog lists them. */
  lemma {:induction false} HarvestAdded(pages: seq<Page>, page: nat, prefix: string)
    requires page >= 1
    decreases |pages| + 1 - page
    ensures var h := HarvestFrom(pages, page, prefix);
      h.added == Entries(PostsBetween(pages, page, h.last), prefix)
  {
    var h := HarvestFrom(pages, page, prefix);
    if Full(PageAt(pages, page)) {
      HarvestAdded(pages, page + 1, prefix);
      EntriesAppend(PageAt(pages, page).posts, PostsBetween(pages, page + 1, h.last), prefix);
    } else {
      var own := match PageAt(pages, page) case Posts(posts) => posts case NotOk(_) => [];
      assert PostsBetween(pages, page + 1, h.last) == [];
      assert PostsBetween(pages, page, h.last) == own + [];
      assert own + [] == own;
    }
  }

  /** Page numbers `1` to `n`, in order. */
  function PagesUpTo(n: nat): (ps: seq<nat>)
    ensures |ps| == n
  {
    if n == 0 then [] else PagesUpTo(n - 1) + [n]
  }

  /** `PagesUpTo(n)` asks for each page once, counting up from 1. */
  lemma {:induction false} PagesUpToConsecutive(n: nat)
    ensures forall k :: 0 <= k < n ==> PagesUpTo(n)[k] == k + 1
  {
    if n > 0 {
      PagesUpToConsecutive(n - 1);
    }
  }

  /** A run that has asked for pages `1` to `page - 1`, all of them full,
      and added `added`: `added` followed by what the run from `page` on
      adds is the whole run `total`, which ends as the run from `page` on
      ends. */
  predicate Resumes(pages: seq<Page>, page: nat, prefix: string, added: seq<Entry>, requested: seq<nat>, total: Harvest)
  {
    1 <= page <= |pages| + 1
    && requested == PagesUpTo(page - 1)
    && var rest := HarvestFrom(pages, page, prefix);
    added + rest.added == total.added && rest.failed == total.failed && rest.last == total.last
  }

  /** After a full page the run goes on with the next one. */
  lemma FullStep(pages: seq<Page>, page: nat, prefix: string, added: seq<Entry>, requested: seq<nat>, total: Harvest)
    requires Resumes(pages, page, prefix, added, requested, total)
    requires Full(PageAt(pages, page))
    ensures Resumes(pages, page + 1, prefix, added + Entries(PageAt(pages, page).posts, prefix), requested + [page], total)
  {
    var more := Entries(PageAt(pages, page).posts, prefix);
    var rest := HarvestFrom(pages, page + 1, prefix);
    assert HarvestFrom(pages, page, prefix).added == more + rest.added;
    assert added + (more + rest.added) == (added + more) + rest.added;
  }

  /** A page that is neither full nor an error is the last one, and the run
      succeeds. */
  lemma LastStep(pages: seq<Page>, page: nat, prefix: string, added: seq<Entry>, requested: seq<nat>, total: Harvest)
    requires Resumes(pages, page, prefix, added, requested, total)
    requires PageAt(pages, page).Posts? && !Full(PageAt(pages, page))
    ensures added + Entries(PageAt(pages, page).posts, prefix) == total.added
    ensures !total.failed && requested + [page] == PagesUpTo(total.last)
  {
  }

  /** A non-ok answer ends the run, which fails. */
  lemma FailStep(pages: seq<Page>, page: nat, prefix: string, added: seq<Entry>, requested: seq<nat>, total: Harvest)
    requires Resumes(pages, page, prefix, added, requested, total)
    requires PageAt(pages, page).NotOk?
    ensures added == total.added && total.failed && requested + [page] == PagesUpTo(total.last)
  {
    assert added + [] == added;
  }

  /** Appending in two steps is appending once. */
  lemma AppendAssoc(a: seq<Entry>, b: seq<Entry>, c: seq<Entry>)
    ensures (a + b) + c == a + (b + c)
  {
  }

  /** The module-level list of entries. */
  class SitemapList {
    var urls: seq<Entry>

    /** Loading the module: the list holds the static entries. */
    constructor ()
      ensures urls == Seed
    {
      urls := Seed;
    }

    /** `getPostSlugs(lang)`: requests pages 1, 2, … of `lang`'s posts
        until one is empty or short, appending one entry per post to the
        list. It returns the whole list, or `[]` when an answer is not ok;
        the entries of the pages before that one stay in the list.
        `requested` is the page numbers asked for, in order. */
    method GetPostSlugs(lang: string, pages: seq<Page>) returns (r: seq<Entry>, requested: seq<nat>)
      modifies this
      ensures var h := HarvestFrom(pages, 1, Prefix(lang));
        urls == old(urls) + h.added
        && requested == PagesUpTo(h.last)
        && (h.failed ==> r == [])
        && (!h.failed ==> r == urls)
    {
      var prefix := Prefix(lang);
      ghost var total := HarvestFrom(pages, 1, prefix);
      ghost var added: seq<Entry> := [];
      var page := 1;
      requested := [];
      while true
        invariant urls == old(urls) + added
        invariant Resumes(pages, page, prefix, added, requested, total)
        decreases |pages| + 1 - page
      {
        var answer := PageAt(pages, page);
        if answer.NotOk? {
          FailStep(pages, page, prefix, added, requested, total);
          requested := requested + [page];
          r := [];
          return;
        }
        var more := Entries(answer.posts, prefix);
        if |answer.posts| < PerPage {
          LastStep(pages, page, prefix, added, requested, total);
          requested := requested + [page];
          AppendAssoc(old(urls), added, more);
          urls := urls + more;
          r := urls;
          return;
        }
        FullStep(pages, page, prefix, added, requested, total);
        requested := requested + [page];
        AppendAssoc(old(urls), added, more);
        urls := urls + more;
        added := added + more;
        page := page + 1;
      }
    }

    /** `generateSitemap`: the four languages one after another, English,
        Chinese, Japanese, Spanish; `input` is the list handed to the XML
        serialiser. */
    method GenerateSitemap(blog: string -> seq<Page>) returns (input: seq<Entry>)
      modifies this
      ensures urls == old(urls)
        + HarvestFrom(blog("en"), 1, Prefix("en")).added
        + HarvestFrom(blog("zh"), 1, Prefix("zh")).added
        + HarvestFrom(blog("ja"), 1, Prefix("ja")).added
        + HarvestFrom(blog("es"), 1, Prefix("es")).added
      ensures input == urls
    {
      var _, _ := GetPostSlugs("en", blog("en"));
      var _, _ := GetPostSlugs("zh", blog("zh"));
      var _, _ := GetPostSlugs("ja", blog("ja"));
      var _, _ := GetPostSlugs("es", blog("es"));
      input := urls;
    }
  }
}

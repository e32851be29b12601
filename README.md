# A-Pro marketing site server: a verified Dafny model of its core

This project models the server-side core of the A-Pro marketing site, an
Express application in front of a Ghost blog and an AI analysis service:

- **The guarded demo relay** (`server/routes/demoRouteSecure.js`):
  - an origin allow-list;
  - a per-IP fixed-window rate limiter, with its periodic sweep;
  - a check of the URL to analyse;
  - the relay that forwards the analysis service's server-sent events. Each
    event is re-validated as JSON before it is sent on.
- **The legacy relay** (`server/routes/demoRoute.js`): it forwards every
  non-blank `data:` line verbatim.
- **The blog content client** (`server/routes/articleListRoute.js`):
  - the tag filter;
  - post-to-card and post-to-article mapping;
  - the fetchers and their error outcomes;
  - the two-pass lazy-load rewriting of article HTML.
- **The sitemap generator** (`server/sitemapGen.js`):
  - a module-level entry list seeded with the static pages of four locales;
  - paginated harvesting of post slugs per locale.
- **The translation middleware** (`server/i18n/i18n.js`): dotted-path
  lookup, the fallback chain of `t`, and the `lang` cookie.
- **The JSON-LD builders** (`server/middleware/metaBuilder.js`), including
  the tag stripper.
- **The Ghost members service** (`server/services/ghostService.js`):
  - configuration check;
  - labels and note of a new member;
  - create, bulk create, newsletters, delete, connection test;
  - the lazily built singleton.

## How it is modelled

- **Files.** Each source file is one module:
  - `demo_secure.dfy`, `demo_legacy.dfy`, `articles.dfy`, `sitemap.dfy`,
    `i18n.dfy`, `meta_builder.dfy`, `ghost_service.dfy`.
  - Shared pieces: `js_text.dfy` (the JavaScript string operations used),
    `http_response.dfy` (the Express `res` object), `sse.dfy` (the `data:`
    line filter both relays share), `json_text.dfy` (`JSON.stringify` of an
    error object).
- **State the source mutates is a class**:
  - the rate-limit store;
  - the response, as the sequence of calls made on it;
  - the sitemap list;
  - the middleware's locals and cookies;
  - the Ghost service and its request log;
  - the singleton holder.
- **Loops are methods with invariants**: the chunk and line loops of both
  relays, the sitemap's page loop and the bulk member loop. Each is proved
  against a specification function.
- **Everything else is a pure function**, with lemmas stating what the code
  promises.
- **Outside calls are parameters.** The clock, environment variables, HTTP
  requests, the Ghost Admin API, `JSON.parse`/`JSON.stringify` of upstream
  payloads, `new URL`, `he.decode` and `toLocaleDateString` are not modelled
  themselves. Their results are passed in: a function from request to
  answer, or the answer value.

### Behaviour of the code worth knowing

- **Lazy-load rewriting is not idempotent.** A bare `<img>` that has been
  rewritten once is matched again by the second pass and gains a second
  `blur-up` class (`Articles.NotIdempotent`).
- **The article fetchers resolve to `undefined` on failure.** They swallow
  the error rather than give an empty result (`Articles.GetArticles`,
  `Articles.GetArticlesRaw`). `getArticle` resolves to `null` only when the
  answer holds no post (`Articles.GetArticle`).
- **The sitemap list is never rebuilt.** One module-level list is seeded
  once and appended to, so a second `generateSitemap` in the same process
  repeats every post entry (`Sitemap.SitemapList.GenerateSitemap`).
- **The origin gate matches by prefix.** `https://a-pro.ai.evil.com` passes
  the allow-list in production (`DemoSecure.LookalikeOriginAccepted`).

## Model

| member | source | states |
|---|---|---|
| DemoSecure.SomePrefixIff | server/routes/demoRouteSecure.js:25-30 | the `some` scan is true iff some allowed origin is a prefix of the origin |
| DemoSecure.SomeIncludesIff | server/routes/demoRouteSecure.js:33-37 | the loopback scan is true iff the origin contains one of the loopback markers |
| DemoSecure.AllowListIff | server/routes/demoRouteSecure.js:7-12 | an origin is allow-listed iff it is present and starts with one of the four listed origins |
| DemoSecure.ProductionGate | server/routes/demoRouteSecure.js:40-48 | in production only the allow-list admits a request; a request with neither Origin nor Referer is refused in every environment |
| DemoSecure.LookalikeOriginAccepted | server/routes/demoRouteSecure.js:25-30 | an origin that only begins with an allowed origin is admitted in production |
| DemoSecure.OriginExamples | server/routes/demoRouteSecure.js:42-48 | the main site is admitted and an unrelated origin is refused in production |
| DemoSecure.CeilDiv | server/routes/demoRouteSecure.js:69 | the rounded-up quotient: (r-1)*b < a <= r*b |
| DemoSecure.NewWindow | server/routes/demoRouteSecure.js:54-61 | (unfolds the definition) an unseen IP, or one whose five-minute window has passed, is let through and gets a fresh entry with count 1 |
| DemoSecure.InWindow | server/routes/demoRouteSecure.js:62-71 | inside the window the count is incremented first; the request is refused iff the new count exceeds 10; retryAfter then lies between 0 and 300 seconds |
| DemoSecure.OthersUntouched | server/routes/demoRouteSecure.js:50-73 | (unfolds the definition) the rate-limit step changes no other IP's entry |
| DemoSecure.Replay | server/routes/demoRouteSecure.js:50-73 | one verdict per request of a series from one IP |
| DemoSecure.ReplayInWindow | server/routes/demoRouteSecure.js:56-71 | from an entry with c requests, request k of a series inside the window passes iff c+k+1 <= 10; the entry ends with count c+n and the same window start |
| DemoSecure.EleventhRequestRefused | server/routes/demoRouteSecure.js:16-17 | of eleven requests from a new IP inside one window, the first ten pass and the eleventh is refused; after the window a request passes again |
| DemoSecure.SweepTransparent | server/routes/demoRouteSecure.js:296-303 | the periodic sweep never changes a later verdict |
| DemoSecure.RateLimiter.constructor | server/routes/demoRouteSecure.js:15 | the store starts empty |
| DemoSecure.RateLimiter.Check | server/routes/demoRouteSecure.js:50-73 | the verdict and the new store are those of the rate-limit specification; every entry keeps a count of at least 1 |
| DemoSecure.RateLimiter.Sweep | server/routes/demoRouteSecure.js:296-303 | the store keeps exactly the unexpired entries, unchanged |
| DemoSecure.ValidateDemoInputCases | server/routes/demoRouteSecure.js:82-120 | missing URL gives MISSING_URL; a URL that does not parse or is not http/https gives "Invalid URL format"; a host containing a private marker gives "Internal/private URLs"; otherwise the request goes on; each iff |
| DemoSecure.JsonFramesAppend | server/routes/demoRouteSecure.js:162-184 | forwarding chunk after chunk equals forwarding them all |
| DemoSecure.JsonFramesMember | server/routes/demoRouteSecure.js:170-181 | an event is forwarded iff it is the re-serialisation of an upstream payload that parses as JSON; malformed payloads are dropped |
| DemoSecure.StreamEvents | server/routes/demoRouteSecure.js:123-283 | the first event is "connected"; a failed upstream ends with the service-error event; POST ends with "complete" or the error event; GET sends "complete" only when the upstream stream itself carried that event |
| DemoSecure.PipelineClosesOnce | server/routes/demoRouteSecure.js:20-283 | on every path through middleware, validation and handler the response is finished exactly once, by its last call |
| DemoSecure.StreamTraceClosesOnce | server/routes/demoRouteSecure.js:203-205 | the handler finishes the response once, in its `finally` |
| DemoSecure.BadUrlConsumesSlot | server/routes/demoRouteSecure.js:50-90 | a request refused for its URL has already been counted by the rate limiter |
| DemoSecure.ForbiddenLeavesStore | server/routes/demoRouteSecure.js:42-48 | a refused origin gets only a 403 and leaves the rate-limit store as it was |
| DemoSecure.Relay | server/routes/demoRouteSecure.js:161-184 | the read loop writes exactly the JSON frames of every data line of every chunk, in order |
| DemoSecure.RelayChunk | server/routes/demoRouteSecure.js:166-183 | one chunk is split at newlines and its lines are relayed in order |
| DemoSecure.RelayLine | server/routes/demoRouteSecure.js:170-181 | one line is forwarded iff it is a non-blank data line whose payload parses |
| DemoSecure.RelayedChunksPrefix | server/routes/demoRouteSecure.js:162-184 | what the loop has written after i chunks is the frames of the first i chunks |
| DemoSecure.RelayedAllChunks | server/routes/demoRouteSecure.js:162-184 | after the last chunk, the frames of the whole body |
| DemoSecure.HandleStream | server/routes/demoRouteSecure.js:123-206 | the handler's calls on `res` are the specified stream trace |
| DemoSecure.Serve | server/routes/demoRouteSecure.js:20-120 | one request through middleware, validation and handler: the store and the response follow the pipeline specification |
| DemoLegacy.LegacyFrames | server/routes/demoRoute.js:42-49 | one frame per payload |
| DemoLegacy.LegacyFramesAt | server/routes/demoRoute.js:46 | frame i carries payload i verbatim |
| DemoLegacy.LegacyFramesAppend | server/routes/demoRoute.js:35-50 | framing distributes over chunks |
| DemoLegacy.SecureAgreesOnCanonicalJson | server/routes/demoRoute.js:42-49 | when every payload is canonical JSON the legacy and the secure relay forward the same events |
| DemoLegacy.NonJsonOnlyLegacy | server/routes/demoRoute.js:45-47 | a payload that does not parse is forwarded by the legacy relay, and by the secure one only if it re-serialises to itself |
| DemoLegacy.FrameInjective | server/routes/demoRoute.js:46 | distinct payloads give distinct frames |
| DemoLegacy.ErrorEventReadable | server/routes/demoRoute.js:57 | the error event is one data line whose payload decodes back to the message |
| DemoLegacy.LegacyEarlyOutcomes | server/routes/demoRoute.js:6-68 | (unfolds the definition) GET without url gets only a 400 JSON reply; a failed fetch or a non-ok status gives headers, one error event and an end |
| DemoLegacy.LegacyEarlyClosedOnce | server/routes/demoRoute.js:27-58 | on those paths the response is finished exactly once |
| DemoLegacy.LegacyStreamShape | server/routes/demoRoute.js:31-58 | (unfolds the definition) a streamed answer gives headers, the frames, an end, and the read-failure tail |
| DemoLegacy.LegacyStreamClosedOnce | server/routes/demoRoute.js:51-54 | a stream read to the end is finished exactly once |
| DemoLegacy.ReadFailureEndsTwice | server/routes/demoRoute.js:51-58 | a stream that breaks off is ended in `finally`, then written to and ended again |
| DemoLegacy.LegacyStreamWrites | server/routes/demoRoute.js:34-58 | the texts written are the frames, then the error event if the read failed |
| DemoLegacy.LegacyRelayLine | server/routes/demoRoute.js:43-48 | a line is forwarded iff it is a data line with a non-blank payload |
| DemoLegacy.LegacyRelayChunk | server/routes/demoRoute.js:39-49 | one chunk is split at newlines and its lines relayed in order |
| DemoLegacy.LegacyRelay | server/routes/demoRoute.js:34-50 | the read loop writes the frames of every data line of every chunk, in order |
| DemoLegacy.HandleLegacy | server/routes/demoRoute.js:6-120 | the handler's calls on `res` are the specified legacy trace |
| Sse.Frame | server/routes/demoRoute.js:46 | a frame is `data: `, the payload and a blank line |
| Sse.DataPayload | server/routes/demoRouteSecure.js:170-172 | a line yields a payload iff it starts with `data: ` and the rest is not blank; the line is the prefix plus the payload |
| Sse.LinePayloadsMember | server/routes/demoRouteSecure.js:169-183 | a payload is taken iff some line of the chunk yields it |
| Sse.SingleEventRoundTrip | server/routes/demoRoute.js:46 | a frame of a one-line non-blank payload reads back as that payload |
| JsonText.UnescapeEscape | server/routes/demoRoute.js:57 | the string escaping of `JSON.stringify` decodes back to the original message |
| JsonText.ErrorObjectOneLine | server/routes/demoRoute.js:57 | the error object is one non-blank line |
| JsText.JoinSplit | server/routes/demoRouteSecure.js:167 | joining the pieces of a split at newlines restores the chunk |
| JsText.IndexOfFromFirst | server/routes/articleListRoute.js:24 | the first `>` found is the first one |
| JsText.FindFromFirst | server/routes/articleListRoute.js:17 | the first `</noscript>` found is the first one, and none means none |
| JsText.ToLower | server/services/ghostService.js:52 | lower-casing maps each character on its own |
| Articles.GhostUrl | server/routes/articleListRoute.js:6 | the environment URL when set and non-empty, the company blog otherwise |
| Articles.BuildFilter | server/routes/articleListRoute.js:9-12 | empty iff the category is absent, empty or "all"; otherwise `&filter=tag:` followed by the category |
| Articles.TotalPages | server/routes/articleListRoute.js:35 | the reported page count, or 1 when it is missing or 0; never 0 |
| Articles.ToCard | server/routes/articleListRoute.js:37-54 | each field is the post's own or its default; the three image fields agree; both dates are the locale date |
| Articles.ToDetail | server/routes/articleListRoute.js:76-91 | the record of the first post: its content lazy-loaded, translations and lang null |
| Articles.ListUrl | server/routes/articleListRoute.js:33 | the list URL is the blog's post API with the key, then `&include=authors,tags&limit=15&page=` and the page, then the filter |
| Articles.SlugUrl | server/routes/articleListRoute.js:73 | the slug URL starts at the blog's slug API with the slug and the key, and what follows is exactly `&include=authors,tags` |
| Articles.ImgTagAt | server/routes/articleListRoute.js:20 | a tag of the second pass starts at `p` and ends at `q` iff the text at `p` is `<img` in any letter case and `q` is the first `>` after it, which comes at once or after a space and at least one more character |
| Articles.GetArticles | server/routes/articleListRoute.js:30-58 | a list iff the request succeeds with posts; then one card per post, in order, with the page count |
| Articles.GetArticlesRaw | server/routes/articleListRoute.js:60-69 | the posts as returned, undefined on failure |
| Articles.GetArticle | server/routes/articleListRoute.js:71-95 | undefined iff the request fails; null iff the answer holds no post |
| Articles.GetArticleRaw | server/routes/articleListRoute.js:97-105 | the posts as returned, undefined on failure |
| Articles.ArticlesMapRaw | server/routes/articleListRoute.js:30-69 | the mapped list and the raw list exist together and match one to one |
| Articles.SamePageCount | server/routes/articleListRoute.js:35-38 | every card of a page carries the same non-zero page count |
| Articles.ArticleIsFirstRaw | server/routes/articleListRoute.js:75-76 | the article found by slug is the first raw post |
| Articles.Pass1From | server/routes/articleListRoute.js:15-19 | the first pass never lengthens the text |
| Articles.Pass1Identity | server/routes/articleListRoute.js:15-19 | with no data-image tag and no noscript element, the first pass copies the text |
| Articles.Pass2Identity | server/routes/articleListRoute.js:20 | with no img tag, the second pass copies the text |
| Articles.RewriteImgLonger | server/routes/articleListRoute.js:20-27 | the replacer always lengthens the tag |
| Articles.Pass2Grows | server/routes/articleListRoute.js:20-27 | the second pass never shortens the text |
| Articles.Pass2GrowsAtTag | server/routes/articleListRoute.js:20-27 | the text gets strictly longer when an img tag is found |
| Articles.NoTagStart | server/routes/articleListRoute.js:17-20 | no match of either pass starts at a character other than `<` |
| Articles.BareImgPass1 | server/routes/articleListRoute.js:17 | a bare `<img>` survives the first pass |
| Articles.BareImgPass2 | server/routes/articleListRoute.js:26 | a bare `<img>` gets the default class and lazy attribute |
| Articles.RewrittenPass1 | server/routes/articleListRoute.js:17 | a rewritten tag survives the first pass |
| Articles.RewrittenTag | server/routes/articleListRoute.js:20 | a rewritten tag is matched again by the second pass |
| Articles.NotIdempotent | server/routes/articleListRoute.js:14-28 | lazy-loading a bare `<img>` twice differs from lazy-loading it once |
| Articles.RewriteImgWithClass | server/routes/articleListRoute.js:21-24 | with a class attribute, `blur-up` goes before its closing quote and the first `>` becomes the lazy attribute |
| Articles.RewriteImgWithoutClass | server/routes/articleListRoute.js:26 | without one, the tag gets the default class and lazy attribute |
| Articles.PlainTextUnchanged | server/routes/articleListRoute.js:14-28 | text without `<` is unchanged |
| Articles.AbsentBodyEmpty | server/routes/articleListRoute.js:15 | (unfolds the definition) a missing body gives the empty string |
| Articles.DataImageDeleted | server/routes/articleListRoute.js:17-18 | example: `<img src="data:image/x">` lazy-loads to the empty string |
| Articles.NoscriptUnwrapped | server/routes/articleListRoute.js:17-18 | example: `<noscript>x</noscript>` lazy-loads to `x` |
| Articles.DataImageDeletedAt | server/routes/articleListRoute.js:15-19 | every `<img` tag whose attributes hold `src="data:image/` after at least one character and before at least one more is deleted up to its first `>`, and the first pass resumes after it |
| Articles.NoscriptUnwrappedAt | server/routes/articleListRoute.js:15-19 | every `<noscript>` element is replaced by its content up to the first `</noscript>`, and the first pass resumes after that closing tag |
| Sitemap.SeedShape | server/sitemapGen.js:17-169 | the static list has 24 entries, six per locale, in the order en, zh, ja, es |
| Sitemap.ZhSeedUnder | server/sitemapGen.js:61-98 | the Chinese static entries are under `/zh` |
| Sitemap.JaSeedUnder | server/sitemapGen.js:99-132 | the Japanese static entries are under `/ja` |
| Sitemap.EsSeedUnder | server/sitemapGen.js:133-168 | the Spanish static entries are under `/es` |
| Sitemap.Prefix | server/sitemapGen.js:186-190 | the post URL prefix of each locale; `undefined` for any other |
| Sitemap.EntriesAt | server/sitemapGen.js:192-197 | post i gives entry prefix+slug, priority 0.5, its modification date, monthly |
| Sitemap.HarvestStops | server/sitemapGen.js:176-201 | pages are requested while full; the last one is short, empty or not ok, and the run fails iff it was not ok |
| Sitemap.HarvestAdded | server/sitemapGen.js:192-197 | the entries added are one per post of the requested pages, in page order |
| Sitemap.PagesUpToConsecutive | server/sitemapGen.js:174-200 | pages are requested as 1, 2, 3, … |
| Sitemap.SitemapList.constructor | server/sitemapGen.js:17-169 | the list starts as the static entries |
| Sitemap.SitemapList.GetPostSlugs | server/sitemapGen.js:171-207 | the list gains the harvested entries even when a later page fails; the result is the list, or empty on failure; the pages requested are 1 to the last |
| Sitemap.SitemapList.GenerateSitemap | server/sitemapGen.js:209-218 | the list gains the en, zh, ja and es entries, in that order, and is what the serialiser receives |
| I18n.Step | server/i18n/i18n.js:15-17 | a falsy value gives null; an object gives the field, or undefined when it is missing |
| I18n.WalkFromFalsy | server/i18n/i18n.js:15-17 | once falsy, the lookup stays null |
| I18n.WalkAppend | server/i18n/i18n.js:15-17 | a lookup along a path is a lookup along its first part, then its rest |
| I18n.SingleSegment | server/i18n/i18n.js:14-18 | a key without a dot is a single field lookup |
| I18n.DottedPath | server/i18n/i18n.js:14-18 | `a.b` looks up `b` in the value at `a` |
| I18n.Table | server/i18n/i18n.js:6-12 | the table of a known language, undefined for any other |
| I18n.T | server/i18n/i18n.js:27-30 | the translation of the request language, else the English one, else the key itself |
| I18n.TNeverFalsy | server/i18n/i18n.js:27-30 | for a non-empty key, `t` never gives a falsy value |
| I18n.BaseLang | server/i18n/i18n.js:23-25 | the first two characters of the language, or `en` without one |
| I18n.Region | server/i18n/i18n.js:39 | zh gives TW, es gives MX, ja gives JP, anything else its upper case |
| I18n.CookieValue | server/i18n/i18n.js:34-41 | `en-US` without a language, otherwise language-region |
| I18n.CookieExamples | server/i18n/i18n.js:34-41 | no language gives en-US; zh, es, ja, en and nl give zh-TW, es-MX, ja-JP, en-EN and nl-NL |
| I18n.Exchange.constructor | server/i18n/i18n.js:21 | nothing is set, no cookie, no call to next |
| I18n.Exchange.Middleware | server/i18n/i18n.js:21-41 | sets lang and the language of t, adds one lang cookie and calls next once |
| MetaBuilder.TagEnd | server/middleware/metaBuilder.js:5 | a tag starts iff `<` is followed by a character other than `>`; it runs through the first `>` after that, or to the end of the input when there is none |
| MetaBuilder.RemoveHtmlTags | server/middleware/metaBuilder.js:3-7 | undefined iff the input is missing or empty; otherwise the decoded text with tags stripped |
| MetaBuilder.StripShrinks | server/middleware/metaBuilder.js:5 | stripping never lengthens the text |
| MetaBuilder.StripTagFree | server/middleware/metaBuilder.js:5 | text with no tag is unchanged |
| MetaBuilder.StripLeavesNoTag | server/middleware/metaBuilder.js:5 | the stripped text holds no tag |
| MetaBuilder.StripIdempotent | server/middleware/metaBuilder.js:5 | stripping twice is stripping once |
| MetaBuilder.StripExample | server/middleware/metaBuilder.js:5 | `<p>Hi</p>` becomes `Hi` |
| MetaBuilder.LangSegment | server/middleware/metaBuilder.js:14 | empty for en, `/lang` otherwise, `/undefined` without a language |
| MetaBuilder.ToItem | server/middleware/metaBuilder.js:20-33 | the item: decoded title, stripped summary, author, image, URL, date and description of the article |
| MetaBuilder.ItemList | server/middleware/metaBuilder.js:17-35 | one element per article, in order, at position i+1 |
| MetaBuilder.PositionsDistinct | server/middleware/metaBuilder.js:17-20 | positions strictly increase and the last is the number of articles |
| MetaBuilder.ArticleListJsonLd | server/middleware/metaBuilder.js:9-38 | a collection page named Articles at the category/page URL, listing the articles |
| MetaBuilder.ArticleJsonLd | server/middleware/metaBuilder.js:40-57 | the article page: URL without a language, and its texts stripped of tags |
| MetaBuilder.IndexPageJsonLd | server/middleware/metaBuilder.js:59-96 | the home page at the site URL, with its logo, listing the articles |
| MetaBuilder.ListUrls | server/middleware/metaBuilder.js:14 | the list URL carries the language segment only for a language other than en |
| GhostMembers.ValidateConfig | server/services/ghostService.js:14-25 | disabled iff the admin key is missing, empty or the placeholder |
| GhostMembers.SlugChar | server/services/ghostService.js:52 | a slug character is a lower-case letter, a digit or `-`; letters are lower-cased and digits kept |
| GhostMembers.CompanySlug | server/services/ghostService.js:52 | the slug maps the company name character by character |
| GhostMembers.SlugAlphabet | server/services/ghostService.js:52 | the slug uses only lower-case letters, digits and `-` |
| GhostMembers.Labels | server/services/ghostService.js:45-53 | `newsletter-signup`, then `company-` and the slug when a company is given |
| GhostMembers.NoteParts | server/services/ghostService.js:143-154 | company and website when given, then the source and the date, in that order |
| GhostMembers.IsoDate | server/services/ghostService.js:154 | the part of the timestamp before its first `T`, or the whole timestamp when it has none |
| GhostMembers.PlainNote | server/services/ghostService.js:142-157 | with neither company nor website the note is the source and the date |
| GhostMembers.ToGhostMember | server/services/ghostService.js:42-53 | name, email, labels, note and a subscribed flag |
| GhostMembers.OnAdd | server/services/ghostService.js:56-70 | the new member; `{exists, email}` iff the error message says "already exists"; otherwise the error thrown again |
| GhostMembers.TallyAccounts | server/services/ghostService.js:92-112 | every member is counted once as created, existing or failed; one error record per failure, in order |
| GhostMembers.GhostService.constructor | server/services/ghostService.js:4-12 | enabled iff the configuration is valid; no request yet |
| GhostMembers.GhostService.CreateMember | server/services/ghostService.js:36-71 | throws "not configured" when disabled; otherwise one add request and the outcome of its answer |
| GhostMembers.GhostService.BulkCreateMembers | server/services/ghostService.js:78-116 | throws when disabled; otherwise one add request per member, in order, and the tally of the outcomes |
| GhostMembers.GhostService.GetNewsletters | server/services/ghostService.js:122-135 | throws when disabled; otherwise one browse request and its answer |
| GhostMembers.GhostService.DeleteMember | server/services/ghostService.js:164-177 | throws when disabled; otherwise one destroy request, then true or the error thrown again |
| GhostMembers.GhostService.TestConnection | server/services/ghostService.js:183-196 | false without a request when disabled; otherwise one site read, true iff it succeeds |
| GhostMembers.AddAllSnoc | server/services/ghostService.js:92-94 | one more member adds one more add request |
| GhostMembers.Holder.GetInstance | server/services/ghostService.js:199-207 | builds the service on the first call only and returns the same one afterwards |
| GhostMembers.Holder.GetInstanceTwice | server/services/ghostService.js:202-207 | two calls return the same service, configured from the first call's environment |

## Left out

- The HTTP layer is a parameter, not modelled: Express routing, headers, `fetch`, `axios`, the Ghost Admin API client and the sitemap XML serialiser. Their answers are inputs, and the file written by `generateSitemap` is not modelled.
- Console logging and `setTimeout` delays are left out. The 100 ms pause between bulk creations changes no value the model computes; the note date, which the source reads again for each member, is covered by the next line.
- GhostMembers.GhostService.BulkCreateMembers: the Ghost Admin API is a pure function `api` from the member record to its answer, and one clock value `now` serves every member of the run. The real `members.add` has state (ghostService.js:56, 94): a run that lists the same e-mail twice gets the second one answered "already exists", so the source counts one created and one existing where the model's `TallyOf` counts two created. The source also reads `new Date()` for each member's note (ghostService.js:154), so a run that crosses midnight UTC writes two different dates, which the model does not capture.
- Concurrency is left out. Each request and each run is modelled alone. Interleaving of requests at `await` points is not modelled, neither on the rate-limit store nor on the sitemap list.
- `TextDecoder` is left out: chunks arrive as decoded text.
- `JSON.parse` followed by `JSON.stringify` of an upstream payload is one parameter, `reparse`.
- `new URL` is a parameter that gives the protocol and host name, or nothing when it throws.
- `he.decode` and `toLocaleDateString` are parameters.
- `JsText.ToLower` and `JsText.ToUpper` map ASCII letters only. JavaScript also maps other Unicode letters.
- `DemoSecure.InWindow` bounds `retryAfter` only when the clock has not gone backwards.
- `I18n.Step` treats property access on a string (`"abc"["x"]`) as undefined. Arrays and numbers in the tables are not modelled.
- `I18n.Step` finds only a table's own fields. In the source, `prev[curr]` also finds inherited properties (i18n.js:16), so `t('constructor')` returns a function rather than the key. This is not modelled.
- The translation tables of `server/i18n` are not part of this model. They are a parameter.
- `Sitemap.SitemapList.GetPostSlugs` takes the blog's answers as a finite list of pages. Pages past its end read as empty. A blog that keeps returning full pages forever is not modelled.
- `Sitemap.SitemapList.GetPostSlugs` treats an answer whose JSON body fails to parse, and a fetch that throws, as a non-ok answer. Both end the run with `[]`, as in the source.
- `Sitemap.SitemapList.GetPostSlugs` takes every ok answer as a list of posts. In the source, an ok answer whose JSON body is not an array makes `posts.map` throw (sitemapGen.js:184-192), so the run gives `[]`. That case is not modelled.
- Articles: a post list given as `null` is the same as a missing one.
- `Articles.GetArticles` and `Articles.GetArticle` model each post and the response `data` as records, never `null`. In the source, a `null` entry in `posts`, or a `null` `data`, throws inside the `try` (articleListRoute.js:37-54, 75-86), and the fetcher resolves to `undefined`. For `getArticle` that differs from the `null` the model gives for a missing post list.
- `Articles.ToDetail` takes the post body `html` as a string or absent. In the source, an `html` that is another non-string value makes `.replace` throw (articleListRoute.js:15), so `getArticle` resolves to `undefined`. That case is not modelled.
- GhostMembers.SlugChar: lower-cases ASCII letters only, like `JsText.ToLowerChar`, and maps every other character to `-`. JavaScript's `toLowerCase` also maps non-ASCII letters whose lower case is ASCII (ghostService.js:52): U+212A KELVIN SIGN becomes `k`, which the source keeps and the model writes as `-`; U+0130 (capital I with dot above) becomes `i` followed by U+0307, which the source writes as `i-`. For such names the source's slug is longer than the company name, so `GhostMembers.CompanySlug`'s and `GhostMembers.SlugAlphabet`'s `|slug| == |company|` does not hold for the source.
- `GhostMembers.CompanySlug` and the rest of the string layer work on characters (code points), while JavaScript strings are UTF-16 code units. A character outside the Basic Multilingual Plane in a company name gives `--` in JavaScript but `-` in the model. `GhostMembers.SlugAlphabet`'s `|slug| == |company|` therefore counts code points, not JavaScript length.
- The `@context` and `@type` constants of the JSON-LD objects are not fields of the model.
- The proxy methods of the Ghost service's default export (ghostService.js:210-228) are left out. Each only calls `getInstance()` and then the method of the same name.
- The health endpoint (demoRouteSecure.js:286-293) and the `run` helper of the sitemap module are left out.

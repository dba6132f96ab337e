/** internal_links.js: the breadth-first collector of same-origin links.
    Fetching a page is an oracle: a headless-browser render that yields the
    page's final location, its origin and the `href` attribute of every
    anchor, and a plain HTTP fetch that yields the anchors' `href`s. URL
    parsing (the WHATWG `URL` constructor) is an oracle too. */
module InternalLinks {
  import opened Common
  import opened Lighthouse

  /** The options object; an absent option is None. */
  datatype Options = Options(maxLinks: Option<int>, maxDepth: Option<int>, delayMs: Option<int>,
                             timeout: Option<int>, maxRetries: Option<int>)

  datatype Config = Config(maxLinks: int, maxDepth: int, delayMs: int, timeout: int, maxRetries: int)

  /** `options.x || d` for a numeric option: absent and 0 both take the default. */
  function OrDefault(v: Option<int>, d: int): (r: int)
    ensures v.None? || v.value == 0 ==> r == d
    ensures v.Some? && v.value != 0 ==> r == v.value
  {
    if v.Some? && v.value != 0 then v.value else d
  }

  /** The constructor's `this.config`. */
  function ConfigFrom(options: Options): Config {
    Config(OrDefault(options.maxLinks, 10), OrDefault(options.maxDepth, 2), OrDefault(options.delayMs, 2000),
           OrDefault(options.timeout, 15000), OrDefault(options.maxRetries, 3))
  }

  const NoOptions := Options(None, None, None, None, None)

  /** No options, or every option 0, give the defaults 10, 2, 2000, 15000 and
      3; no configured value is ever 0. */
  lemma ConfigDefaults(options: Options)
    ensures ConfigFrom(NoOptions) == Config(10, 2, 2000, 15000, 3)
    ensures ConfigFrom(Options(Some(0), Some(0), Some(0), Some(0), Some(0))) == ConfigFrom(NoOptions)
    ensures var c := ConfigFrom(options);
            c.maxLinks != 0 && c.maxDepth != 0 && c.delayMs != 0 && c.timeout != 0 && c.maxRetries != 0
  {
  }

  // ---------------------------------------------------------------- link tests

  /** The extensions of `/\.(css|js|...|ttf)$/i`. */
  const AssetExtensions := ["css", "js", "png", "jpg", "jpeg", "gif", "svg", "ico", "pdf", "zip", "exe",
                            "woff", "woff2", "ttf"]

  /** `/\.(css|js|png|...|ttf)$/i.test(s)`: a '.' and a listed extension end
      `s`, compared without ASCII case. */
  predicate HasAssetExtension(s: string) {
    exists i :: 0 <= i < |AssetExtensions| && EndsWith(Lower(s), "." + AssetExtensions[i])
  }

  /** The class `[)\]"']`. */
  predicate IsQuoteOrBracket(c: char) {
    c == ')' || c == ']' || c == '"' || c == '\''
  }

  /** The characters `\s` matches: white space and line terminators. */
  predicate IsJsSpace(c: char) {
    c == '\t' || c == '\n' || c == '\U{000B}' || c == '\U{000C}' || c == '\r' || c == ' ' ||
    c == '\U{00A0}' || c == '\U{1680}' || '\U{2000}' <= c <= '\U{200A}' || c == '\U{2028}' || c == '\U{2029}' ||
    c == '\U{202F}' || c == '\U{205F}' || c == '\U{3000}' || c == '\U{FEFF}'
  }

  /** The four regular expressions of `invalidPatterns`. */
  datatype Pattern = AssetSuffix | LeadingQuote | TrailingQuote | Blank

  const InvalidPatterns := [AssetSuffix, LeadingQuote, TrailingQuote, Blank]

  /** `pattern.test(url)` */
  predicate Test(p: Pattern, url: string) {
    match p
    case AssetSuffix => HasAssetExtension(url)
    case LeadingQuote => |url| > 0 && IsQuoteOrBracket(url[0])
    case TrailingQuote => |url| > 0 && IsQuoteOrBracket(url[|url| - 1])
    case Blank => forall i :: 0 <= i < |url| ==> IsJsSpace(url[i])
  }

  /** `isValidInternalLink(url)`: no pattern of the list matches. */
  predicate IsValidInternalLink(url: string) {
    !exists k :: 0 <= k < |InvalidPatterns| && Test(InvalidPatterns[k], url)
  }

  /** A link is rejected exactly when it ends in an asset extension (in any
      case), starts or ends with `)`, `]`, `"` or `'`, or is blank; the empty
      string is rejected. */
  lemma InvalidInternalLinkCases(url: string)
    ensures !IsValidInternalLink(url) <==>
              HasAssetExtension(url) ||
              (|url| > 0 && (IsQuoteOrBracket(url[0]) || IsQuoteOrBracket(url[|url| - 1]))) ||
              (forall i :: 0 <= i < |url| ==> IsJsSpace(url[i]))
    ensures !IsValidInternalLink("")
  {
    if HasAssetExtension(url) {
      assert Test(InvalidPatterns[0], url);
    }
    if |url| > 0 && IsQuoteOrBracket(url[0]) {
      assert Test(InvalidPatterns[1], url);
    }
    if |url| > 0 && IsQuoteOrBracket(url[|url| - 1]) {
      assert Test(InvalidPatterns[2], url);
    }
    if forall i :: 0 <= i < |url| ==> IsJsSpace(url[i]) {
      assert Test(InvalidPatterns[3], url);
    }
    assert Test(InvalidPatterns[3], "");
  }

  lemma LowerCharKeepsClasses(c: char)
    ensures IsQuoteOrBracket(LowerChar(c)) == IsQuoteOrBracket(c)
    ensures IsJsSpace(LowerChar(c)) == IsJsSpace(c)
    ensures LowerChar(LowerChar(c)) == LowerChar(c)
  {
  }

  /** The verdict does not depend on ASCII letter case. */
  lemma {:induction false} ValidityIgnoresCase(url: string)
    ensures IsValidInternalLink(Lower(url)) == IsValidInternalLink(url)
  {
    var l := Lower(url);
    forall i | 0 <= i < |url|
      ensures IsQuoteOrBracket(l[i]) == IsQuoteOrBracket(url[i]) && IsJsSpace(l[i]) == IsJsSpace(url[i])
      ensures LowerChar(l[i]) == LowerChar(url[i])
    {
      LowerCharKeepsClasses(url[i]);
    }
    assert Lower(l) == l;
    InvalidInternalLinkCases(url);
    InvalidInternalLinkCases(l);
  }

  // ---------------------------------------------------------- canonical links

  /** `href.replace(/\/$/, '')`: at most one trailing '/' removed. */
  function StripTrailingSlash(s: string): (r: string)
    ensures EndsWith(s, "/") ==> r + "/" == s
    ensures !EndsWith(s, "/") ==> r == s
  {
    if |s| > 0 && s[|s| - 1] == '/' then s[..|s| - 1] else s
  }

  /** The credentials part of an `href`: "user:password@", "user@",
      ":password@", or "" when both are empty. */
  function Credentials(u: Url): string {
    if u.username == "" && u.password == "" then ""
    else u.username + (if u.password == "" then "" else ":" + u.password) + "@"
  }

  /** `fullUrl.href` of an http(s) URL once `hash` and `search` are cleared:
      scheme, credentials, host and path. */
  function ClearedHref(u: Url): string {
    u.protocol + "//" + Credentials(u) + u.host + u.pathname
  }

  /** Without credentials, and with the origin an http(s) URL has, the cleared
      `href` is the origin followed by the path. */
  lemma ClearedHrefPlain(u: Url)
    requires u.origin == u.protocol + "//" + u.host
    ensures Credentials(u) == "" <==> u.username == "" && u.password == ""
    ensures Credentials(u) == "" ==> ClearedHref(u) == u.origin + u.pathname
  {
  }

  /** Credentials are kept: two URLs that differ only in user name or password
      give different cleared `href`s exactly when their credentials differ. */
  lemma {:induction false} ClearedHrefKeepsCredentials(u: Url, v: Url)
    requires v == u.(username := v.username, password := v.password)
    ensures ClearedHref(u) == ClearedHref(v) <==> Credentials(u) == Credentials(v)
  {
    var head := u.protocol + "//";
    var tail := u.host + u.pathname;
    assert ClearedHref(u) == head + (Credentials(u) + tail);
    assert ClearedHref(v) == head + (Credentials(v) + tail);
    if ClearedHref(u) == ClearedHref(v) {
      assert Credentials(u) + tail == ClearedHref(u)[|head|..];
      assert Credentials(v) + tail == ClearedHref(v)[|head|..];
      assert Credentials(u) == (Credentials(u) + tail)[..|Credentials(u)|];
      assert Credentials(v) == (Credentials(v) + tail)[..|Credentials(v)|];
    }
  }

  /** The link one anchor contributes, if any: a non-empty `href` that
      resolves against `base` to a URL of the page's origin, with query,
      fragment and one trailing '/' dropped, that is not the origin itself and
      has no asset extension. */
  function Canonical(resolve: (string, string) -> Option<Url>, base: string, origin: string, href: string): (r: Option<string>)
    ensures href == "" ==> r.None?
    ensures r.Some? ==> resolve(href, base).Some? && resolve(href, base).value.origin == origin
    ensures r.Some? ==> r.value == StripTrailingSlash(ClearedHref(resolve(href, base).value))
    ensures r.Some? ==> r.value != origin && !HasAssetExtension(r.value)
    ensures href != "" && resolve(href, base).Some? && resolve(href, base).value.origin == origin ==>
              var clean := StripTrailingSlash(ClearedHref(resolve(href, base).value));
              clean != origin && !HasAssetExtension(clean) ==> r == Some(clean)
  {
    if href == "" then None
    else match resolve(href, base)
      case None => None
      case Some(full) =>
        if full.origin != origin then None
        else
          var clean := StripTrailingSlash(ClearedHref(full));
          if clean == origin || HasAssetExtension(clean) then None else Some(clean)
  }

  function CanonicalOf(resolve: (string, string) -> Option<Url>, base: string, origin: string): string -> Option<string> {
    href => Canonical(resolve, base, origin, href)
  }

  /** The elements of `s` in order of first occurrence: `Array.from(new Set(s))`. */
  function Dedup<T(==,!new)>(s: seq<T>): (r: seq<T>)
    ensures Distinct(r)
    ensures forall x :: x in r <==> x in s
    ensures |r| <= |s|
  {
    if s == [] then []
    else
      var n := |s| - 1;
      var d := Dedup(s[..n]);
      assert s == s[..n] + [s[n]];
      if s[n] in d then d else d + [s[n]]
  }

  lemma DedupStep<T(!new)>(s: seq<T>, x: T)
    ensures Dedup(s + [x]) == if x in Dedup(s) then Dedup(s) else Dedup(s) + [x]
  {
    assert (s + [x])[..|s|] == s;
  }

  /** The links one page yields. */
  function PageLinks(resolve: (string, string) -> Option<Url>, base: string, origin: string, anchors: seq<string>): seq<string> {
    Dedup(Collect(anchors, CanonicalOf(resolve, base, origin)))
  }

  /** The anchor loop: each canonical link is added to `linkSet` once. */
  method CanonicalLinks(resolve: (string, string) -> Option<Url>, base: string, origin: string, anchors: seq<string>)
    returns (links: seq<string>)
    ensures links == PageLinks(resolve, base, origin, anchors)
  {
    links := [];
    ghost var f := CanonicalOf(resolve, base, origin);
    for i := 0 to |anchors|
      invariant links == Dedup(Collect(anchors[..i], f))
    {
      CollectStep(anchors, i, f);
      ghost var prefix := Collect(anchors[..i], f);
      assert f(anchors[i]).None? ==> Collect(anchors[..i + 1], f) == prefix;
      var href := anchors[i];
      if href != "" {
        var full := resolve(href, base);
        if full.Some? && full.value.origin == origin {
          var clean := StripTrailingSlash(ClearedHref(full.value));
          if clean != origin && !HasAssetExtension(clean) {
            assert f(href) == Some(clean);
            DedupStep(prefix, clean);
            if clean !in links {
              links := links + [clean];
            }
          } else {
            assert f(href).None?;
          }
        } else {
          assert f(href).None?;
        }
      } else {
        assert f(href).None?;
      }
    }
    assert anchors[..|anchors|] == anchors;
  }

  /** A page yields each canonical link of its anchors exactly once, and
      nothing else. */
  lemma PageLinksSpec(resolve: (string, string) -> Option<Url>, base: string, origin: string, anchors: seq<string>, x: string)
    ensures Distinct(PageLinks(resolve, base, origin, anchors))
    ensures x in PageLinks(resolve, base, origin, anchors) <==>
              exists i :: 0 <= i < |anchors| && Canonical(resolve, base, origin, anchors[i]) == Some(x)
  {
    CollectMembers(anchors, CanonicalOf(resolve, base, origin), x);
  }

  /** Query and fragment never reach a link: two anchors resolving to URLs
      that differ only there give the same link. */
  lemma CanonicalIgnoresQueryAndHash(resolve: (string, string) -> Option<Url>, base: string, origin: string, h1: string, h2: string)
    requires h1 != "" && h2 != ""
    requires resolve(h1, base).Some? && resolve(h2, base).Some?
    requires resolve(h1, base).value.(search := "", hash := "") == resolve(h2, base).value.(search := "", hash := "")
    ensures Canonical(resolve, base, origin, h1) == Canonical(resolve, base, origin, h2)
  {
    var u1, u2 := resolve(h1, base).value, resolve(h2, base).value;
    assert u1.origin == u2.origin && ClearedHref(u1) == ClearedHref(u2);
  }

  // ------------------------------------------------------------ page fetching

  /** What the headless browser reports about a page: `window.location.href`,
      its origin, and the `href` attribute of every `a[href]`. */
  datatype Page = Page(href: string, origin: string, anchors: seq<string>)

  /** The outside world, per URL and attempt number: the browser render, the
      HTTP fetch of the anchors' hrefs, `new URL(href, base)` and `new URL(url)`. */
  datatype Web = Web(
    render: (string, nat) -> Outcome<Page>,
    fetch: (string, nat) -> Outcome<seq<string>>,
    resolve: (string, string) -> Option<Url>,
    parse: string -> Option<Url>)

  const InvalidUrlMessage := "Invalid URL"

  /** `extractLinksWithPuppeteer(url)` */
  function PuppeteerLinks(web: Web, url: string, attempt: nat): Outcome<seq<string>> {
    match web.render(url, attempt)
    case Threw(m) => Threw(m)
    case Returned(page) => Returned(PageLinks(web.resolve, page.href, page.origin, page.anchors))
  }

  /** `extractLinksWithCheerio(url)` */
  function CheerioLinks(web: Web, url: string, attempt: nat): Outcome<seq<string>> {
    match web.fetch(url, attempt)
    case Threw(m) => Threw(m)
    case Returned(anchors) =>
      match web.parse(url)
      case None => Threw(InvalidUrlMessage)
      case Some(u) => Returned(PageLinks(web.resolve, url, u.origin, anchors))
  }

  function BothFailed(url: string): string {
    "Both Puppeteer and Cheerio failed to extract from " + url + "."
  }

  lemma {:induction false} FilterDistinct<T(!new)>(s: seq<T>, p: T -> bool)
    requires Distinct(s)
    ensures Distinct(Filter(s, p))
  {
    if s != [] {
      assert Distinct(s[1..]) by {
        forall i, j | 0 <= i < j < |s[1..]| ensures s[1..][i] != s[1..][j] {
          assert s[1..][i] == s[i + 1] && s[1..][j] == s[j + 1];
        }
      }
      FilterDistinct(s[1..], p);
      assert s[0] !in s[1..];
    }
  }

  /** The filter `link => !this.visited.has(link)`. */
  function Unvisited(visited: set<string>): string -> bool {
    link => link !in visited
  }

  /** `extractLinksFromUrl(url)`: the browser's links, or the fetched page's
      when the browser fails, less those already visited and in their
      order; an error only when both fail. */
  function ExtractLinksFromUrl(web: Web, url: string, attempt: nat, visited: set<string>): (r: Outcome<seq<string>>)
    ensures r.Threw? <==> PuppeteerLinks(web, url, attempt).Threw? && CheerioLinks(web, url, attempt).Threw?
    ensures r.Threw? ==> r.message == BothFailed(url)
    ensures r.Returned? ==> Distinct(r.value) && forall x :: x in r.value ==> x !in visited
    ensures PuppeteerLinks(web, url, attempt).Returned? ==>
              r == Returned(Filter(PuppeteerLinks(web, url, attempt).value, Unvisited(visited)))
    ensures PuppeteerLinks(web, url, attempt).Threw? && CheerioLinks(web, url, attempt).Returned? ==>
              r == Returned(Filter(CheerioLinks(web, url, attempt).value, Unvisited(visited)))
    ensures r.Returned? && PuppeteerLinks(web, url, attempt).Returned? ==>
              forall x :: x in r.value <==> x in PuppeteerLinks(web, url, attempt).value && x !in visited
    ensures r.Returned? && PuppeteerLinks(web, url, attempt).Threw? ==>
              forall x :: x in r.value <==> x in CheerioLinks(web, url, attempt).value && x !in visited
  {
    var unvisited := Unvisited(visited);
    match PuppeteerLinks(web, url, attempt)
    case Returned(links) =>
      FilterDistinct(links, unvisited);
      Returned(Filter(links, unvisited))
    case Threw(_) =>
      match CheerioLinks(web, url, attempt)
      case Returned(links) =>
        FilterDistinct(links, unvisited);
        Returned(Filter(links, unvisited))
      case Threw(_) => Threw(BothFailed(url))
  }

  // -------------------------------------------------------------------- crawl

  /** What the retry loop ends with: the links, or the last error thrown
      (None when no attempt was made and `lastError` is still null). */
  datatype Attempted = Found(links: seq<string>) | Failed(lastError: Option<string>)

  /** One entry of `results`. */
  datatype ResultItem = ResultItem(url: string, depth: nat, source: string, error: Option<string>)

  /** The resolved value of `extractInternalLinks`. */
  datatype ExtractionResult = Success(links: seq<string>) | Failure(error: string, details: string)

  const CriticalError := "Failed to extract links due to a critical error."

  /** The message of the TypeError raised by reading `.message` of a thrown null. */
  const NullMessageError := "Cannot read properties of null (reading 'message')"

  function AbortMessage(baseUrl: string): string {
    "The base URL " + baseUrl + " could not be processed. Aborting."
  }

  function Urls(results: seq<ResultItem>): (r: seq<string>)
    ensures |r| == |results|
    ensures forall i :: 0 <= i < |results| ==> r[i] == results[i].url
  {
    if results == [] then [] else Urls(results[..|results| - 1]) + [results[|results| - 1].url]
  }

  /** `array.slice(0, end)`, where a negative end counts from the back. */
  function SliceTo<T>(s: seq<T>, end: int): (r: seq<T>)
    ensures 0 <= end ==> r == s[..if end < |s| then end else |s|]
    ensures end < 0 ==> r == s[..if |s| + end > 0 then |s| + end else 0]
  {
    if end >= |s| then s
    else if end >= 0 then s[..end]
    else if |s| + end > 0 then s[..|s| + end]
    else []
  }

  /** Entry `j` was found on an earlier page, one level deeper. */
  ghost predicate HasParent(results: seq<ResultItem>, j: int)
    requires 0 <= j < |results|
  {
    exists i :: 0 <= i < j && results[i].url == results[j].source && results[j].depth == results[i].depth + 1
  }

  /** The seed comes first, at depth 0. */
  ghost predicate Seeded(results: seq<ResultItem>, baseUrl: string) {
    |results| >= 1 && results[0].url == baseUrl && results[0].depth == 0 && results[0].source == "initial"
  }

  /** Later entries lie at depths 1..maxDepth, in non-decreasing order. */
  ghost predicate Layered(results: seq<ResultItem>, maxDepth: int) {
    (forall j :: 0 < j < |results| ==> 1 <= results[j].depth <= maxDepth) &&
    (forall j :: 0 < j < |results| ==> results[j - 1].depth <= results[j].depth)
  }

  /** Every later entry was found on an earlier entry's page. */
  ghost predicate Parented(results: seq<ResultItem>) {
    forall j :: 0 < j < |results| ==> HasParent(results, j)
  }

  /** The shape of `results` during and after the crawl: the seed first at
      depth 0, no URL twice, later entries at depths 1..maxDepth in
      non-decreasing order, each found on an earlier entry's page. */
  ghost predicate Crawl(results: seq<ResultItem>, baseUrl: string, maxDepth: int) {
    Seeded(results, baseUrl) && Distinct(Urls(results)) && Layered(results, maxDepth) && Parented(results)
  }

  lemma UrlsPush(results: seq<ResultItem>, x: ResultItem)
    ensures Urls(results + [x]) == Urls(results) + [x.url]
  {
    assert (results + [x])[..|results|] == results;
  }

  lemma DistinctPush(s: seq<string>, x: string)
    requires Distinct(s) && x !in s
    ensures Distinct(s + [x])
  {
  }

  lemma ParentedPush(results: seq<ResultItem>, p: nat, x: ResultItem)
    requires Parented(results) && p < |results|
    requires x.depth == results[p].depth + 1 && x.source == results[p].url
    ensures Parented(results + [x])
  {
    var r := results + [x];
    forall j | 0 < j < |r| ensures HasParent(r, j) {
      if j < |results| {
        assert HasParent(results, j);
        var i :| 0 <= i < j && results[i].url == results[j].source && results[j].depth == results[i].depth + 1;
        assert r[i] == results[i] && r[j] == results[j];
      } else {
        assert r[p] == results[p];
      }
    }
  }

  /** Pushing a newly found link keeps the crawl's shape. */
  lemma CrawlPush(results: seq<ResultItem>, baseUrl: string, maxDepth: int, p: nat, x: ResultItem)
    requires Crawl(results, baseUrl, maxDepth)
    requires p < |results| && results[p].depth < maxDepth
    requires forall j :: 0 <= j < |results| ==> results[j].depth <= results[p].depth + 1
    requires x.url !in Urls(results) && x.depth == results[p].depth + 1 && x.source == results[p].url
    ensures Crawl(results + [x], baseUrl, maxDepth)
    ensures Urls(results + [x]) == Urls(results) + [x.url]
  {
    UrlsPush(results, x);
    DistinctPush(Urls(results), x.url);
    ParentedPush(results, p, x);
    assert results[|results| - 1].depth <= x.depth;
  }

  lemma UrlsSetError(results: seq<ResultItem>, p: nat, e: Option<string>)
    requires p < |results|
    ensures Urls(results[p := results[p].(error := e)]) == Urls(results)
  {
    var r := results[p := results[p].(error := e)];
    assert forall i :: 0 <= i < |r| ==> Urls(r)[i] == Urls(results)[i];
  }

  lemma ParentedSetError(results: seq<ResultItem>, p: nat, e: Option<string>)
    requires Parented(results) && p < |results|
    ensures Parented(results[p := results[p].(error := e)])
  {
    var r := results[p := results[p].(error := e)];
    forall j | 0 < j < |r| ensures HasParent(r, j) {
      assert HasParent(results, j);
      var i :| 0 <= i < j && results[i].url == results[j].source && results[j].depth == results[i].depth + 1;
      assert r[i].url == results[i].url && r[i].depth == results[i].depth;
    }
  }

  /** Recording an error on an entry keeps the crawl's shape and its URLs. */
  lemma CrawlSetError(results: seq<ResultItem>, baseUrl: string, maxDepth: int, p: nat, e: Option<string>)
    requires Crawl(results, baseUrl, maxDepth) && p < |results|
    ensures Crawl(results[p := results[p].(error := e)], baseUrl, maxDepth)
    ensures Urls(results[p := results[p].(error := e)]) == Urls(results)
  {
    UrlsSetError(results, p, e);
    ParentedSetError(results, p, e);
  }

  /** With `maxLinks >= 1` the final `slice` keeps every entry: the links are
      distinct, start with the seed and number at most `maxLinks`. */
  lemma CrawlLinks(results: seq<ResultItem>, baseUrl: string, maxDepth: int, maxLinks: int)
    requires Crawl(results, baseUrl, maxDepth) && 1 <= |results| <= maxLinks
    ensures SliceTo(Urls(results), maxLinks) == Urls(results)
    ensures var links := SliceTo(Urls(results), maxLinks);
            Distinct(links) && 1 <= |links| <= maxLinks && links[0] == baseUrl
  {
  }

  /** What holds at the head of the crawl loop with `i` entries processed:
      the crawl shape, `visited` mirroring `results`, room never exceeded,
      no entry deeper than one below entry `i`, and errors recorded only on
      processed non-seed entries that were below `maxDepth`. */
  ghost predicate Frontier(results: seq<ResultItem>, visited: set<string>, i: int, baseUrl: string, maxLinks: int, maxDepth: int) {
    0 <= i <= |results| && Crawl(results, baseUrl, maxDepth) &&
    (forall u :: u in visited <==> u in Urls(results)) &&
    (maxLinks >= 1 ==> |results| <= maxLinks) &&
    (i < |results| ==> forall j :: 0 <= j < |results| ==> results[j].depth <= results[i].depth + 1) &&
    results[0].error.None? &&
    (forall j :: 0 <= j < |results| && results[j].error.Some? ==> 0 < j < i && results[j].depth < maxDepth)
  }

  /** Passing over entry `i` without touching `results` keeps the loop state. */
  lemma FrontierSkip(results: seq<ResultItem>, visited: set<string>, i: int, baseUrl: string, maxLinks: int, maxDepth: int)
    requires Frontier(results, visited, i, baseUrl, maxLinks, maxDepth) && i < |results|
    ensures Frontier(results, visited, i + 1, baseUrl, maxLinks, maxDepth)
  {
    if i + 1 < |results| {
      assert results[i].depth <= results[i + 1].depth;
    }
  }

  /** Recording an error on a processed non-seed entry below `maxDepth`
      moves the loop state past it. */
  lemma FrontierRecord(results: seq<ResultItem>, visited: set<string>, i: int, baseUrl: string, maxLinks: int, maxDepth: int, message: string)
    requires Frontier(results, visited, i, baseUrl, maxLinks, maxDepth) && 0 < i < |results| && results[i].depth < maxDepth
    ensures Frontier(results[i := results[i].(error := Some(message))], visited, i + 1, baseUrl, maxLinks, maxDepth)
  {
    var r := results[i := results[i].(error := Some(message))];
    CrawlSetError(results, baseUrl, maxDepth, i, Some(message));
    assert forall j :: 0 <= j < |r| ==> r[j].depth == results[j].depth;
    if i + 1 < |r| {
      assert results[i].depth <= results[i + 1].depth;
    }
  }

  /** Pushing the found links of entry `p` keeps the frontier, which then
      moves past `p`. */
  lemma FrontierPushed(before: seq<ResultItem>, oldVisited: set<string>, results: seq<ResultItem>, visited: set<string>,
                       p: nat, baseUrl: string, maxLinks: int, maxDepth: int)
    requires Frontier(before, oldVisited, p, baseUrl, maxLinks, maxDepth) && p < |before|
    requires before <= results && |results| <= maxLinks
    requires Crawl(results, baseUrl, maxDepth) && forall u :: u in visited <==> u in Urls(results)
    requires forall j :: 0 <= j < |results| ==> results[j].depth <= before[p].depth + 1
    requires forall j :: |before| <= j < |results| ==> results[j].error.None?
    ensures Frontier(results, visited, p + 1, baseUrl, maxLinks, maxDepth)
  {
    assert results[p] == before[p] && results[0] == before[0];
    assert Frontier(results, visited, p, baseUrl, maxLinks, maxDepth) by {
      forall j | 0 <= j < |results| && results[j].error.Some?
        ensures 0 < j < p && results[j].depth < maxDepth
      {
        assert j < |before| && results[j] == before[j];
      }
    }
    FrontierSkip(results, visited, p, baseUrl, maxLinks, maxDepth);
  }

  /** The entry pushed for a link found on `parent`'s page. */
  function Child(link: string, parent: ResultItem): ResultItem {
    ResultItem(link, parent.depth + 1, parent.url, None)
  }

  /** The entries pushed for `links`, in order, all children of `parent`. */
  function Children(links: seq<string>, parent: ResultItem): (r: seq<ResultItem>)
    ensures |r| == |links| && forall k :: 0 <= k < |links| ==> r[k] == Child(links[k], parent)
  {
    seq(|links|, k requires 0 <= k < |links| => Child(links[k], parent))
  }

  /** `results` and `visited` together. */
  datatype State = State(results: seq<ResultItem>, visited: set<string>)

  /** The push loop over `found`: a link is marked visited and pushed below
      `item` while `results` has room and the link is not yet visited. */
  function PushLinks(s: State, found: seq<string>, item: ResultItem, maxLinks: int): (r: State)
    ensures s.results <= r.results && s.visited <= r.visited
    ensures |r.results| > |s.results| ==> |r.results| <= maxLinks
    ensures forall j :: |s.results| <= j < |r.results| ==>
              r.results[j] == Child(r.results[j].url, item) && r.results[j].url in found &&
              r.results[j].url !in s.visited
    ensures forall u :: u in r.visited ==> u in s.visited || u in found
    decreases |found|
  {
    if found == [] then s
    else
      var n := |found| - 1;
      var t := PushLinks(s, found[..n], item, maxLinks);
      var link := found[n];
      assert forall u :: u in found[..n] ==> u in found;
      if |t.results| >= maxLinks || link in t.visited then t
      else State(t.results + [Child(link, item)], t.visited + {link})
  }

  /** Once `results` is full the remaining links change nothing: the
      loop's `break`. */
  lemma {:induction false} PushLinksFull(s: State, found: seq<string>, k: nat, item: ResultItem, maxLinks: int)
    requires k <= |found| && |PushLinks(s, found[..k], item, maxLinks).results| >= maxLinks
    ensures PushLinks(s, found, item, maxLinks) == PushLinks(s, found[..k], item, maxLinks)
    decreases |found|
  {
    if k < |found| {
      var n := |found| - 1;
      assert found[..n][..k] == found[..k];
      PushLinksFull(s, found[..n], k, item, maxLinks);
    } else {
      assert found[..k] == found;
    }
  }

  /** When `results` does not fill up, every found link ends up visited. */
  lemma {:induction false} PushLinksComplete(s: State, found: seq<string>, item: ResultItem, maxLinks: int)
    requires |PushLinks(s, found, item, maxLinks).results| < maxLinks
    ensures forall u :: u in found ==> u in PushLinks(s, found, item, maxLinks).visited
    decreases |found|
  {
    if found != [] {
      var n := |found| - 1;
      var t := PushLinks(s, found[..n], item, maxLinks);
      PushLinksComplete(s, found[..n], item, maxLinks);
      forall u | u in found ensures u in PushLinks(s, found, item, maxLinks).visited {
        if u != found[n] {
          var k :| 0 <= k < |found| && found[k] == u;
          assert found[..n][k] == u;
        }
      }
    }
  }

  /** The push loop over `a + [x]` is the loop over `a` and one more turn. */
  lemma PushLinksLast(s: State, a: seq<string>, x: string, item: ResultItem, maxLinks: int)
    ensures var t := PushLinks(s, a, item, maxLinks);
            PushLinks(s, a + [x], item, maxLinks) ==
              if |t.results| >= maxLinks || x in t.visited then t
              else State(t.results + [Child(x, item)], t.visited + {x})
  {
    assert (a + [x])[..|a|] == a;
  }

  /** The prefix `slice(0, room)` of a list already at least `room` long
      ignores what is appended. */
  lemma SliceToLong<T>(f: seq<T>, m: seq<T>, room: int)
    requires 0 <= room <= |f|
    ensures SliceTo(f + m, room) == SliceTo(f, room)
  {
    assert (f + m)[..room] == f[..room];
  }

  lemma ChildrenPush(f: seq<string>, x: string, item: ResultItem)
    ensures Children(f + [x], item) == Children(f, item) + [Child(x, item)]
  {
  }

  /** The closed form after one more turn of the push loop, in terms of
      the results before the turn `tr`, the unvisited links so far `fa` and
      the new link's contribution `m`. */
  lemma PushTurn(base: seq<ResultItem>, tr: seq<ResultItem>, fa: seq<string>, m: seq<string>, x: string,
                 item: ResultItem, maxLinks: int, pushed: bool)
    requires |base| <= maxLinks && tr == base + Children(SliceTo(fa, maxLinks - |base|), item)
    requires pushed <==> |tr| < maxLinks && m == [x]
    requires m == [] || m == [x]
    ensures (if pushed then tr + [Child(x, item)] else tr) ==
              base + Children(SliceTo(fa + m, maxLinks - |base|), item)
  {
    var room := maxLinks - |base|;
    if |tr| >= maxLinks {
      assert |SliceTo(fa, room)| >= room;
      SliceToLong(fa, m, room);
    } else if m == [] {
      assert fa + m == fa;
    } else {
      assert |fa| < room;
      ChildrenPush(fa, x, item);
    }
  }

  /** One more link, not among the earlier ones, extends the closed form
      of `PushLinksOfDistinct`. */
  lemma PushDistinctStep(s: State, a: seq<string>, x: string, item: ResultItem, maxLinks: int)
    requires x !in a && |s.results| <= maxLinks
    requires PushLinks(s, a, item, maxLinks).results ==
               s.results + Children(SliceTo(Filter(a, Unvisited(s.visited)), maxLinks - |s.results|), item)
    ensures PushLinks(s, a + [x], item, maxLinks).results ==
              s.results + Children(SliceTo(Filter(a + [x], Unvisited(s.visited)), maxLinks - |s.results|), item)
  {
    var t := PushLinks(s, a, item, maxLinks);
    var fa := Filter(a, Unvisited(s.visited));
    var m: seq<string> := if x !in s.visited then [x] else [];
    PushLinksLast(s, a, x, item, maxLinks);
    FilterAppend(a, x, Unvisited(s.visited));
    assert x in t.visited <==> x in s.visited;
    PushTurn(s.results, t.results, fa, m, x, item, maxLinks, |t.results| < maxLinks && x !in t.visited);
  }

  /** For a duplicate-free list of found links the push loop appends the
      children of the unvisited ones, in order, as many as there is room
      for below `maxLinks`. */
  lemma {:induction false} PushLinksOfDistinct(s: State, found: seq<string>, item: ResultItem, maxLinks: int)
    requires Distinct(found) && |s.results| <= maxLinks
    ensures PushLinks(s, found, item, maxLinks).results ==
              s.results + Children(SliceTo(Filter(found, Unvisited(s.visited)), maxLinks - |s.results|), item)
    decreases |found|
  {
    if found == [] {
      assert Filter(found, Unvisited(s.visited)) == [];
    } else {
      var n := |found| - 1;
      var a, x := found[..n], found[n];
      assert found == a + [x];
      assert Distinct(a) by {
        forall i, j | 0 <= i < j < |a| ensures a[i] != a[j] { assert a[i] == found[i] && a[j] == found[j]; }
      }
      assert x !in a by {
        forall i | 0 <= i < |a| ensures a[i] != x { assert a[i] == found[i]; }
      }
      PushLinksOfDistinct(s, a, item, maxLinks);
      PushDistinctStep(s, a, x, item, maxLinks);
    }
  }

  /** Pushing the found links of entry `p` keeps the crawl's shape, keeps
      `visited` mirroring `results` and stays within `maxLinks`. */
  lemma {:induction false} PushLinksCrawl(s: State, found: seq<string>, p: nat, baseUrl: string, maxLinks: int, maxDepth: int)
    requires p < |s.results| <= maxLinks && s.results[p].depth < maxDepth
    requires Crawl(s.results, baseUrl, maxDepth) && forall u :: u in s.visited <==> u in Urls(s.results)
    requires forall j :: 0 <= j < |s.results| ==> s.results[j].depth <= s.results[p].depth + 1
    ensures var r := PushLinks(s, found, s.results[p], maxLinks);
            |r.results| <= maxLinks && Crawl(r.results, baseUrl, maxDepth) &&
            (forall u :: u in r.visited <==> u in Urls(r.results)) &&
            forall j :: 0 <= j < |r.results| ==> r.results[j].depth <= s.results[p].depth + 1
    decreases |found|
  {
    if found != [] {
      var item := s.results[p];
      var n := |found| - 1;
      var t := PushLinks(s, found[..n], item, maxLinks);
      PushLinksCrawl(s, found[..n], p, baseUrl, maxLinks, maxDepth);
      var link := found[n];
      if |t.results| < maxLinks && link !in t.visited {
        assert t.results[p] == item;
        CrawlPush(t.results, baseUrl, maxDepth, p, Child(link, item));
      }
    }
  }

  /** The extractor's attempts on `url`: `extractLinksFromUrl(url)` called
      for each attempt number. */
  function AttemptsOn(web: Web, url: string, visited: set<string>): nat -> Outcome<seq<string>> {
    (a: nat) => ExtractLinksFromUrl(web, url, a, visited)
  }

  lemma AttemptsOnAt(web: Web, url: string, visited: set<string>)
    ensures forall a: nat :: AttemptsOn(web, url, visited)(a) == ExtractLinksFromUrl(web, url, a, visited)
  {
  }

  /** The retry loop from attempt `a` on over the attempts' outcomes,
      `lastError` holding the message of the attempt before. */
  function RetryFrom(attemptOf: nat -> Outcome<seq<string>>, a: nat, maxRetries: int, lastError: Option<string>): Attempted
    decreases if a <= maxRetries then maxRetries - a + 1 else 0
  {
    if a > maxRetries then Failed(lastError)
    else match attemptOf(a)
      case Returned(links) => Found(links)
      case Threw(m) => RetryFrom(attemptOf, a + 1, maxRetries, Some(m))
  }

  /** What `attemptExtractionWithRetries(url)` ends with. */
  function Retried(web: Web, url: string, visited: set<string>, maxRetries: int): Attempted {
    RetryFrom(AttemptsOn(web, url, visited), 1, maxRetries, None)
  }

  /** Found links are some later attempt's result; a failure carries a
      message exactly when some attempt was made. */
  lemma {:induction false} RetryFromSpec(attemptOf: nat -> Outcome<seq<string>>, a: nat, maxRetries: int, lastError: Option<string>)
    requires a >= 1 && (lastError.Some? <==> a > 1)
    ensures var r := RetryFrom(attemptOf, a, maxRetries, lastError);
            (r.Found? ==> exists b: nat :: a <= b && attemptOf(b) == Returned(r.links)) &&
            (r.Failed? ==> (r.lastError.Some? <==> a > 1 || maxRetries >= 1))
    decreases if a <= maxRetries then maxRetries - a + 1 else 0
  {
    if a <= maxRetries && attemptOf(a).Threw? {
      RetryFromSpec(attemptOf, a + 1, maxRetries, Some(attemptOf(a).message));
    }
  }

  /** The `for` loop of `attemptExtractionWithRetries`: attempts 1 to
      `maxRetries` in turn, the first success returned, a delay only between
      two attempts, and the last error kept. */
  method RetryLoop(attemptOf: nat -> Outcome<seq<string>>, maxRetries: int) returns (r: Attempted, attempts: nat, delays: nat)
    ensures r.Found? ==>
              1 <= attempts <= maxRetries && attemptOf(attempts) == Returned(r.links) &&
              forall a: nat :: 1 <= a < attempts ==> attemptOf(a).Threw?
    ensures r.Failed? ==>
              attempts == (if maxRetries > 0 then maxRetries else 0) &&
              forall a: nat :: 1 <= a <= attempts ==> attemptOf(a).Threw?
    ensures r.Failed? ==> r.lastError == if attempts == 0 then None else Some(attemptOf(attempts).message)
    ensures delays == if attempts == 0 then 0 else attempts - 1
    ensures r == RetryFrom(attemptOf, 1, maxRetries, None)
  {
    var lastError: Option<string> := None;
    attempts, delays := 0, 0;
    var attempt: nat := 1;
    while attempt <= maxRetries
      invariant 1 <= attempt && attempts == attempt - 1
      invariant attempt - 1 <= (if maxRetries > 0 then maxRetries else 0)
      invariant forall a: nat :: 1 <= a < attempt ==> attemptOf(a).Threw?
      invariant lastError == if attempt == 1 then None else Some(attemptOf(attempt - 1).message)
      invariant attempt <= maxRetries ==> delays == attempt - 1
      invariant attempt > maxRetries ==> delays == (if attempt >= 2 then attempt - 2 else 0)
      invariant RetryFrom(attemptOf, 1, maxRetries, None) == RetryFrom(attemptOf, attempt, maxRetries, lastError)
      decreases maxRetries - attempt
    {
      attempts := attempt;
      var outcome := attemptOf(attempt);
      if outcome.Returned? {
        return Found(outcome.value), attempts, delays;
      }
      lastError := Some(outcome.message);
      if attempt < maxRetries {
        delays := delays + 1;
      }
      attempt := attempt + 1;
    }
    r := Failed(lastError);
  }

  /** The page's link list the extraction starts from: the browser's, or the
      plain fetch's when the browser threw. */
  function PageOutcome(web: Web, url: string, attempt: nat): Outcome<seq<string>> {
    if PuppeteerLinks(web, url, attempt).Returned? then PuppeteerLinks(web, url, attempt) else CheerioLinks(web, url, attempt)
  }

  /** The retried extraction's links are the unvisited links of one page
      fetch of `url`. */
  lemma RetriedFound(web: Web, url: string, visited: set<string>, maxRetries: int)
    requires Retried(web, url, visited, maxRetries).Found?
    ensures exists a: nat :: PageOutcome(web, url, a).Returned? &&
              Retried(web, url, visited, maxRetries).links == Filter(PageOutcome(web, url, a).value, Unvisited(visited))
  {
    RetryFromSpec(AttemptsOn(web, url, visited), 1, maxRetries, None);
    var b: nat :| AttemptsOn(web, url, visited)(b) == Returned(Retried(web, url, visited, maxRetries).links);
    assert ExtractLinksFromUrl(web, url, b, visited).Returned?;
    if PuppeteerLinks(web, url, b).Threw? {
      assert CheerioLinks(web, url, b).Returned?;
    }
    assert PageOutcome(web, url, b).Returned? &&
           Retried(web, url, visited, maxRetries).links == Filter(PageOutcome(web, url, b).value, Unvisited(visited));
  }

  /** Why the crawl stops early: every attempt on the seed page failed, or
      the retry loop rethrew a null `lastError`. */
  datatype Abort = SeedFailed | NullThrown

  /** The `details` message of the critical error each abort becomes. */
  function AbortText(a: Abort, baseUrl: string): string {
    match a
    case SeedFailed => AbortMessage(baseUrl)
    case NullThrown => NullMessageError
  }

  /** What the crawl ends with: the state, and what aborted it, if anything. */
  datatype Crawled = Crawled(state: State, abort: Option<Abort>)

  /** One pass of the loop body on entry `i`: an entry at `maxDepth` or
      deeper is passed over; otherwise its links are pushed, or its error is
      recorded. */
  function CrawlStep(web: Web, c: Config, s: State, i: nat): Crawled
    requires i < |s.results|
  {
    var item := s.results[i];
    if item.depth >= c.maxDepth then Crawled(s, None)
    else match Retried(web, item.url, s.visited, c.maxRetries)
      case Found(links) => Crawled(PushLinks(s, links, item, c.maxLinks), None)
      case Failed(None) => Crawled(s, Some(NullThrown))
      case Failed(Some(e)) =>
        Crawled(State(s.results[i := item.(error := Some(e))], s.visited), if i == 0 then Some(SeedFailed) else None)
  }

  /** The `while` loop of `extractInternalLinks` from entry `i` on. */
  function CrawlLoop(web: Web, c: Config, s: State, i: nat): Crawled
    decreases c.maxLinks - i
  {
    if i < |s.results| && |s.results| < c.maxLinks then
      var n := CrawlStep(web, c, s, i);
      if n.abort.Some? then n else CrawlLoop(web, c, n.state, i + 1)
    else Crawled(s, None)
  }

  /** The outcome of settling entry `i` after the retried extraction, as
      `SettleEntry` states it, is one step of the loop. */
  lemma SettledIsStep(web: Web, c: Config, baseUrl: string, s: State, i: nat, attempted: Attempted,
                      t: State, abort: Option<string>)
    requires i < |s.results| && s.results[i].depth < c.maxDepth
    requires attempted == Retried(web, s.results[i].url, s.visited, c.maxRetries)
    requires attempted.Found? ==> abort.None? && t == PushLinks(s, attempted.links, s.results[i], c.maxLinks)
    requires attempted == Failed(None) ==> abort == Some(NullMessageError) && t == s
    requires attempted.Failed? && attempted.lastError.Some? ==>
               t == State(s.results[i := s.results[i].(error := attempted.lastError)], s.visited) &&
               abort == if i == 0 then Some(AbortMessage(baseUrl)) else None
    ensures var n := CrawlStep(web, c, s, i);
            n.state == t && (abort.Some? <==> n.abort.Some?) &&
            (abort.Some? ==> abort.value == AbortText(n.abort.value, baseUrl))
  {
    match attempted
    case Found(links) =>
      assert CrawlStep(web, c, s, i) == Crawled(t, None);
    case Failed(None) =>
      assert CrawlStep(web, c, s, i) == Crawled(s, Some(NullThrown));
    case Failed(Some(e)) =>
      assert CrawlStep(web, c, s, i) == Crawled(t, if i == 0 then Some(SeedFailed) else None);
  }

  /** The state the crawl starts from: the base URL at depth 0, visited. */
  function Seed(baseUrl: string): State {
    State([ResultItem(baseUrl, 0, "initial", None)], {baseUrl})
  }

  /** The value `extractInternalLinks` resolves with once the crawl is over. */
  function Finish(e: Crawled, baseUrl: string, maxLinks: int): ExtractionResult {
    if e.abort.Some? then Failure(CriticalError, AbortText(e.abort.value, baseUrl))
    else Success(SliceTo(Urls(e.state.results), maxLinks))
  }

  /** The shape a finished crawl has: distinct URLs, the seed first,
      `visited` mirroring `results`, at most `maxLinks` entries, an error on
      the seed exactly when the seed's failure aborted the crawl, and errors
      otherwise only on entries above `maxDepth`. */
  ghost predicate Finished(e: Crawled, baseUrl: string, c: Config) {
    Crawl(e.state.results, baseUrl, c.maxDepth) &&
    (forall u :: u in e.state.visited <==> u in Urls(e.state.results)) &&
    (c.maxLinks >= 1 ==> |e.state.results| <= c.maxLinks) &&
    (e.state.results[0].error.Some? <==> e.abort == Some(SeedFailed)) &&
    forall j :: 0 < j < |e.state.results| && e.state.results[j].error.Some? ==> e.state.results[j].depth < c.maxDepth
  }

  /** One step from a frontier state reaches the next frontier, or, when
      it aborts, a finished crawl. */
  lemma StepShape(web: Web, c: Config, baseUrl: string, s: State, i: nat)
    requires Frontier(s.results, s.visited, i, baseUrl, c.maxLinks, c.maxDepth) && i < |s.results| < c.maxLinks
    ensures var n := CrawlStep(web, c, s, i);
            (n.abort.None? ==> Frontier(n.state.results, n.state.visited, i + 1, baseUrl, c.maxLinks, c.maxDepth)) &&
            (n.abort.Some? ==> Finished(n, baseUrl, c))
  {
    var item := s.results[i];
    if item.depth >= c.maxDepth {
      FrontierSkip(s.results, s.visited, i, baseUrl, c.maxLinks, c.maxDepth);
    } else {
      match Retried(web, item.url, s.visited, c.maxRetries)
      case Found(links) =>
        var t := PushLinks(s, links, item, c.maxLinks);
        PushLinksCrawl(s, links, i, baseUrl, c.maxLinks, c.maxDepth);
        FrontierPushed(s.results, s.visited, t.results, t.visited, i, baseUrl, c.maxLinks, c.maxDepth);
      case Failed(None) =>
      case Failed(Some(e)) =>
        if i == 0 {
          CrawlSetError(s.results, baseUrl, c.maxDepth, 0, Some(e));
        } else {
          FrontierRecord(s.results, s.visited, i, baseUrl, c.maxLinks, c.maxDepth, e);
        }
    }
  }

  /** Every crawl that starts from a frontier state finishes in shape. */
  lemma {:induction false} CrawlLoopShape(web: Web, c: Config, baseUrl: string, s: State, i: nat)
    requires Frontier(s.results, s.visited, i, baseUrl, c.maxLinks, c.maxDepth)
    ensures Finished(CrawlLoop(web, c, s, i), baseUrl, c)
    decreases c.maxLinks - i
  {
    if i < |s.results| && |s.results| < c.maxLinks {
      StepShape(web, c, baseUrl, s, i);
      var n := CrawlStep(web, c, s, i);
      if n.abort.None? {
        CrawlLoopShape(web, c, baseUrl, n.state, i + 1);
      }
    }
  }

  /** Past the seed nothing records the seed's failure. */
  lemma {:induction false} CrawlLoopLaterAborts(web: Web, c: Config, s: State, i: nat)
    requires i > 0
    ensures CrawlLoop(web, c, s, i).abort != Some(SeedFailed)
    decreases c.maxLinks - i
  {
    if i < |s.results| && |s.results| < c.maxLinks {
      var n := CrawlStep(web, c, s, i);
      if n.abort.None? {
        CrawlLoopLaterAborts(web, c, n.state, i + 1);
      }
    }
  }

  /** The seed's failure aborts the crawl exactly when the seed is processed
      (room for a second entry, depth 0 below `maxDepth`) and every attempt
      on it failed with an error. */
  lemma SeedAbort(web: Web, c: Config, baseUrl: string)
    ensures CrawlLoop(web, c, Seed(baseUrl), 0).abort == Some(SeedFailed) <==>
              1 < c.maxLinks && 0 < c.maxDepth && Retried(web, baseUrl, {baseUrl}, c.maxRetries).Failed? &&
              Retried(web, baseUrl, {baseUrl}, c.maxRetries).lastError.Some?
  {
    var s := Seed(baseUrl);
    if 1 < c.maxLinks {
      var n := CrawlStep(web, c, s, 0);
      if n.abort.None? {
        CrawlLoopLaterAborts(web, c, n.state, 1);
      }
    }
  }

  /** A URL that appears in the link list of some fetch of page `src`. */
  ghost predicate FoundOn(web: Web, src: string, url: string) {
    exists a: nat :: PageOutcome(web, src, a).Returned? && url in PageOutcome(web, src, a).value
  }

  /** Every entry after the seed was found on its source's page. */
  ghost predicate Sourced(web: Web, results: seq<ResultItem>) {
    forall j :: 0 < j < |results| ==> FoundOn(web, results[j].source, results[j].url)
  }

  /** A step adds only entries found on the processed entry's page. */
  lemma StepSourced(web: Web, c: Config, s: State, i: nat)
    requires Sourced(web, s.results) && i < |s.results|
    ensures Sourced(web, CrawlStep(web, c, s, i).state.results)
  {
    var item := s.results[i];
    if item.depth < c.maxDepth {
      match Retried(web, item.url, s.visited, c.maxRetries)
      case Found(links) =>
        RetriedFound(web, item.url, s.visited, c.maxRetries);
        var a: nat :| PageOutcome(web, item.url, a).Returned? &&
                      links == Filter(PageOutcome(web, item.url, a).value, Unvisited(s.visited));
        var t := PushLinks(s, links, item, c.maxLinks);
        forall j | 0 < j < |t.results| ensures FoundOn(web, t.results[j].source, t.results[j].url) {
          if j >= |s.results| {
            assert t.results[j].source == item.url && t.results[j].url in PageOutcome(web, item.url, a).value;
          } else {
            assert t.results[j] == s.results[j];
          }
        }
      case Failed(None) =>
      case Failed(Some(e)) =>
        var t := s.results[i := item.(error := Some(e))];
        assert forall j :: 0 <= j < |t| ==> t[j].url == s.results[j].url && t[j].source == s.results[j].source;
    }
  }

  /** The crawl adds nothing the pages did not link to. */
  lemma {:induction false} CrawlLoopSourced(web: Web, c: Config, s: State, i: nat)
    requires Sourced(web, s.results)
    ensures Sourced(web, CrawlLoop(web, c, s, i).state.results)
    decreases c.maxLinks - i
  {
    if i < |s.results| && |s.results| < c.maxLinks {
      StepSourced(web, c, s, i);
      var n := CrawlStep(web, c, s, i);
      if n.abort.None? {
        CrawlLoopSourced(web, c, n.state, i + 1);
      }
    }
  }

  /** Some fetch of page `url` returned links that are all visited. */
  ghost predicate Expanded(web: Web, url: string, visited: set<string>) {
    exists a: nat :: PageOutcome(web, url, a).Returned? && forall u :: u in PageOutcome(web, url, a).value ==> u in visited
  }

  /** Entries before `i` that are below `maxDepth` and carry no error were
      expanded. */
  ghost predicate Closed(web: Web, results: seq<ResultItem>, visited: set<string>, i: int, maxDepth: int) {
    forall j :: 0 <= j < i && j < |results| && results[j].depth < maxDepth && results[j].error.None? ==>
      Expanded(web, results[j].url, visited)
  }

  lemma ExpandedGrows(web: Web, url: string, v: set<string>, w: set<string>)
    requires Expanded(web, url, v) && v <= w
    ensures Expanded(web, url, w)
  {
    var a: nat :| PageOutcome(web, url, a).Returned? && forall u :: u in PageOutcome(web, url, a).value ==> u in v;
    assert forall u :: u in PageOutcome(web, url, a).value ==> u in w;
  }

  /** Pushing every link of entry `i`'s page without filling `maxLinks`
      expands the entry. */
  lemma PushExpands(web: Web, c: Config, s: State, i: nat)
    requires i < |s.results| && s.results[i].depth < c.maxDepth
    requires Retried(web, s.results[i].url, s.visited, c.maxRetries).Found?
    requires |PushLinks(s, Retried(web, s.results[i].url, s.visited, c.maxRetries).links, s.results[i], c.maxLinks).results| < c.maxLinks
    ensures Expanded(web, s.results[i].url,
                     PushLinks(s, Retried(web, s.results[i].url, s.visited, c.maxRetries).links, s.results[i], c.maxLinks).visited)
  {
    var item := s.results[i];
    var links := Retried(web, item.url, s.visited, c.maxRetries).links;
    var t := PushLinks(s, links, item, c.maxLinks);
    PushLinksComplete(s, links, item, c.maxLinks);
    RetriedFound(web, item.url, s.visited, c.maxRetries);
    var a: nat :| PageOutcome(web, item.url, a).Returned? &&
                  links == Filter(PageOutcome(web, item.url, a).value, Unvisited(s.visited));
    forall u | u in PageOutcome(web, item.url, a).value ensures u in t.visited {
      if u !in s.visited {
        assert u in links;
      }
    }
  }

  /** A step that neither aborts nor fills `maxLinks` entries leaves entry
      `i` expanded, failed or at `maxDepth`, and keeps earlier entries
      expanded. */
  lemma StepCloses(web: Web, c: Config, s: State, i: nat)
    requires i < |s.results| < c.maxLinks && Closed(web, s.results, s.visited, i, c.maxDepth)
    ensures var n := CrawlStep(web, c, s, i);
            i < |n.state.results| &&
            (n.abort.None? && |n.state.results| < c.maxLinks ==>
               Closed(web, n.state.results, n.state.visited, i + 1, c.maxDepth))
  {
    var item := s.results[i];
    var n := CrawlStep(web, c, s, i);
    if item.depth < c.maxDepth {
      match Retried(web, item.url, s.visited, c.maxRetries)
      case Found(links) =>
        var t := n.state;
        if |t.results| < c.maxLinks {
          PushExpands(web, c, s, i);
          forall j | 0 <= j < i + 1 && j < |t.results| && t.results[j].depth < c.maxDepth && t.results[j].error.None?
            ensures Expanded(web, t.results[j].url, t.visited)
          {
            assert t.results[j] == s.results[j];
            if j < i {
              ExpandedGrows(web, s.results[j].url, s.visited, t.visited);
            }
          }
        }
      case Failed(None) =>
      case Failed(Some(e)) =>
        assert forall j :: 0 <= j < |s.results| && j != i ==> n.state.results[j] == s.results[j];
    }
  }

  /** A finished crawl that neither aborted nor filled `maxLinks` entries has
      expanded every entry below `maxDepth` that did not fail. */
  ghost predicate EndsClosed(web: Web, c: Config, e: Crawled) {
    e.abort.None? && |e.state.results| < c.maxLinks ==>
      Closed(web, e.state.results, e.state.visited, |e.state.results|, c.maxDepth)
  }

  /** A turn of the crawl loop ends closed when the rest of the crawl does:
      an aborting step ends the crawl with an abort. */
  lemma TurnEndsClosed(web: Web, c: Config, s: State, i: nat)
    requires i < |s.results| < c.maxLinks
    requires CrawlStep(web, c, s, i).abort.None? ==>
               EndsClosed(web, c, CrawlLoop(web, c, CrawlStep(web, c, s, i).state, i + 1))
    ensures EndsClosed(web, c, CrawlLoop(web, c, s, i))
  {
    var n := CrawlStep(web, c, s, i);
    assert CrawlLoop(web, c, s, i) == if n.abort.Some? then n else CrawlLoop(web, c, n.state, i + 1);
  }

  /** A crawl that finishes without an abort and without filling `maxLinks`
      entries has expanded every entry below `maxDepth` that did not fail. */
  lemma {:induction false} CrawlLoopCloses(web: Web, c: Config, s: State, i: nat)
    requires i <= |s.results|
    requires |s.results| < c.maxLinks ==> Closed(web, s.results, s.visited, i, c.maxDepth)
    ensures EndsClosed(web, c, CrawlLoop(web, c, s, i))
    decreases c.maxLinks - i
  {
    if i < |s.results| && |s.results| < c.maxLinks {
      var n := CrawlStep(web, c, s, i);
      if n.abort.None? {
        StepCloses(web, c, s, i);
        CrawlLoopCloses(web, c, n.state, i + 1);
      }
      TurnEndsClosed(web, c, s, i);
    }
  }

  /** What `extractInternalLinks` promises once the base URL parses: the
      crawl's shape, every later entry found on its source's page, an abort
      by the seed's failure exactly when every attempt on the seed failed,
      and, when the crawl neither aborts nor fills `maxLinks` entries, every
      entry below `maxDepth` that did not fail expanded. */
  lemma CrawlFromSeed(web: Web, c: Config, baseUrl: string)
    ensures var e := CrawlLoop(web, c, Seed(baseUrl), 0);
            Finished(e, baseUrl, c) && Sourced(web, e.state.results) &&
            (e.abort == Some(SeedFailed) <==>
               1 < c.maxLinks && 0 < c.maxDepth && Retried(web, baseUrl, {baseUrl}, c.maxRetries).Failed? &&
               Retried(web, baseUrl, {baseUrl}, c.maxRetries).lastError.Some?) &&
            (e.abort.None? && |e.state.results| < c.maxLinks ==>
               Closed(web, e.state.results, e.state.visited, |e.state.results|, c.maxDepth))
  {
    var s := Seed(baseUrl);
    assert Urls(s.results) == [baseUrl];
    assert Frontier(s.results, s.visited, 0, baseUrl, c.maxLinks, c.maxDepth);
    CrawlLoopShape(web, c, baseUrl, s, 0);
    CrawlLoopSourced(web, c, s, 0);
    SeedAbort(web, c, baseUrl);
    CrawlLoopCloses(web, c, s, 0);
  }

  class InternalLinksExtractor {
    const config: Config
    var visited: set<string>
    var results: seq<ResultItem>
    var baseOrigin: Option<string>

    constructor(options: Options)
      ensures config == ConfigFrom(options) && visited == {} && results == [] && baseOrigin == None
    {
      config := ConfigFrom(options);
      visited := {};
      results := [];
      baseOrigin := None;
    }

    /** `attemptExtractionWithRetries(url)`: at most `maxRetries` attempts,
        the first success returned, a delay only between two attempts, and
        the last error rethrown. */
    method AttemptExtractionWithRetries(web: Web, url: string) returns (r: Attempted, attempts: nat, delays: nat)
      ensures r.Found? ==>
                1 <= attempts <= config.maxRetries &&
                ExtractLinksFromUrl(web, url, attempts, visited) == Returned(r.links) &&
                forall a: nat :: 1 <= a < attempts ==> ExtractLinksFromUrl(web, url, a, visited).Threw?
      ensures r.Failed? ==>
                attempts == (if config.maxRetries > 0 then config.maxRetries else 0) &&
                forall a: nat :: 1 <= a <= attempts ==> ExtractLinksFromUrl(web, url, a, visited).Threw?
      ensures r.Failed? ==>
                r.lastError == if attempts == 0 then None else Some(ExtractLinksFromUrl(web, url, attempts, visited).message)
      ensures delays == if attempts == 0 then 0 else attempts - 1
      ensures r == Retried(web, url, visited, config.maxRetries)
    {
      r, attempts, delays := RetryLoop(AttemptsOn(web, url, visited), config.maxRetries);
      AttemptsOnAt(web, url, visited);
    }

    /** The `for (const link of foundLinks)` loop: each unvisited link is
        marked visited and pushed one level below entry `p`, until `results`
        holds `maxLinks` entries. */
    method PushFoundLinks(found: seq<string>, p: nat)
      modifies this`results, this`visited
      requires p < |results|
      ensures State(results, visited) == PushLinks(State(old(results), old(visited)), found, old(results)[p], config.maxLinks)
    {
      var item := results[p];
      var rs, vs := results, visited;
      ghost var start := State(results, visited);
      assert found[..|found|] == found;
      for k := 0 to |found|
        invariant State(rs, vs) == PushLinks(start, found[..k], item, config.maxLinks)
      {
        assert found[..k + 1][..k] == found[..k];
        if |rs| >= config.maxLinks {
          PushLinksFull(start, found, k, item, config.maxLinks);
          break;
        }
        var link := found[k];
        if link !in vs {
          vs := vs + {link};
          rs := rs + [Child(link, item)];
        }
      }
      results, visited := rs, vs;
    }

    /** The `try`/`catch` around one entry's extraction: the found links are
        pushed; a failure's message is recorded on the entry, and aborts the
        crawl when the entry is the seed; a null error aborts it with the
        TypeError its `.message` raises. */
    method SettleEntry(attempted: Attempted, p: nat, baseUrl: string) returns (abort: Option<string>)
      modifies this`results, this`visited
      requires p < |results|
      ensures attempted.Found? ==>
                abort.None? &&
                State(results, visited) == PushLinks(State(old(results), old(visited)), attempted.links, old(results)[p], config.maxLinks)
      ensures attempted == Failed(None) ==>
                abort == Some(NullMessageError) && results == old(results) && visited == old(visited)
      ensures attempted.Failed? && attempted.lastError.Some? ==>
                results == old(results)[p := old(results)[p].(error := attempted.lastError)] && visited == old(visited) &&
                abort == if p == 0 then Some(AbortMessage(baseUrl)) else None
    {
      if attempted.Found? {
        PushFoundLinks(attempted.links, p);
        return None;
      }
      if attempted.lastError.None? {
        return Some(NullMessageError);
      }
      results := results[p := results[p].(error := attempted.lastError)];
      abort := if p == 0 then Some(AbortMessage(baseUrl)) else None;
    }

    /** One pass of the loop body: entry `i` is passed over when it is at
        `maxDepth` or deeper; otherwise its links are extracted with retries
        and the outcome settled. */
    method ProcessEntry(web: Web, baseUrl: string, i: nat) returns (abort: Option<string>)
      modifies this`results, this`visited
      requires i < |results|
      ensures var n := CrawlStep(web, config, State(old(results), old(visited)), i);
              State(results, visited) == n.state && (abort.Some? <==> n.abort.Some?) &&
              (abort.Some? ==> abort.value == AbortText(n.abort.value, baseUrl))
    {
      var item := results[i];
      if item.depth >= config.maxDepth {
        return None;
      }
      ghost var s := State(results, visited);
      var attempted, _, _ := AttemptExtractionWithRetries(web, item.url);
      abort := SettleEntry(attempted, i, baseUrl);
      SettledIsStep(web, config, baseUrl, s, i, attempted, State(results, visited), abort);
    }

    /** The `while` loop of `extractInternalLinks`, from entry 0 of the
        current `results`. */
    method CrawlFrom(web: Web, baseUrl: string) returns (r: ExtractionResult)
      modifies this`results, this`visited
      ensures var e := CrawlLoop(web, config, State(old(results), old(visited)), 0);
              State(results, visited) == e.state && r == Finish(e, baseUrl, config.maxLinks)
    {
      ghost var start := State(results, visited);
      var processIndex := 0;
      while processIndex < |results| && |results| < config.maxLinks
        invariant CrawlLoop(web, config, State(results, visited), processIndex) == CrawlLoop(web, config, start, 0)
        decreases config.maxLinks - processIndex
      {
        var abort := ProcessEntry(web, baseUrl, processIndex);
        if abort.Some? {
          return Failure(CriticalError, abort.value);
        }
        processIndex := processIndex + 1;
      }
      r := Success(SliceTo(Urls(results), config.maxLinks));
    }

    /** `extractInternalLinks(baseUrl)`: an unparsable base URL is a
        critical error; otherwise the origin is recorded, the base URL seeds
        the crawl, and the crawl runs. */
    method ExtractInternalLinks(web: Web, baseUrl: string) returns (r: ExtractionResult)
      modifies this
      ensures web.parse(baseUrl).None? ==>
                r == Failure(CriticalError, InvalidUrlMessage) && results == old(results) && visited == old(visited) &&
                baseOrigin == old(baseOrigin)
      ensures web.parse(baseUrl).Some? ==>
                var e := CrawlLoop(web, config, Seed(baseUrl), 0);
                baseOrigin == Some(web.parse(baseUrl).value.origin) &&
                State(results, visited) == e.state && r == Finish(e, baseUrl, config.maxLinks)
      ensures web.parse(baseUrl).Some? ==>
                Crawl(results, baseUrl, config.maxDepth) && Sourced(web, results) &&
                (forall u :: u in visited <==> u in Urls(results)) &&
                (config.maxLinks >= 1 ==> |results| <= config.maxLinks)
      ensures r.Failure? ==> r.error == CriticalError
      ensures r.Failure? && web.parse(baseUrl).Some? ==>
                if results[0].error.Some? then r.details == AbortMessage(baseUrl) else r.details == NullMessageError
      ensures web.parse(baseUrl).Some? ==>
                (r.Failure? && results[0].error.Some? <==>
                   1 < config.maxLinks && 0 < config.maxDepth &&
                   Retried(web, baseUrl, {baseUrl}, config.maxRetries).Failed? &&
                   Retried(web, baseUrl, {baseUrl}, config.maxRetries).lastError.Some?)
      ensures r.Success? ==>
                r.links == SliceTo(Urls(results), config.maxLinks) && results[0].error.None? &&
                forall j :: 0 <= j < |results| && results[j].error.Some? ==> 0 < j && results[j].depth < config.maxDepth
      ensures r.Success? && |results| < config.maxLinks ==> Closed(web, results, visited, |results|, config.maxDepth)
    {
      var parsed := web.parse(baseUrl);
      if parsed.None? {
        return Failure(CriticalError, InvalidUrlMessage);
      }
      baseOrigin := Some(parsed.value.origin);
      visited := {baseUrl};
      results := [ResultItem(baseUrl, 0, "initial", None)];
      r := CrawlFrom(web, baseUrl);
      CrawlFromSeed(web, config, baseUrl);
    }
  }
}

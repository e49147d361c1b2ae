/**
 * The article collection of `news/fetcher.py`: three syndication-feed adapters
 * sharing one collection loop, the NewsAPI keyword search, and the per-category
 * merge whose deduplication runs across all categories.
 *
 * Every network call is an input. A feed is a function from a keyword to its
 * parsed entries, or `None` when fetching or parsing that keyword raised; the
 * NewsAPI endpoint is a function from the request to its response.
 */
module Fetcher {
  import opened Wrappers
  import opened TextUtil
  import opened NewsModel

  /** Only `keywords[:3]` are searched by each feed adapter. */
  const MaxKeywords: nat := 3
  const NaverLabel: string := "네이버 뉴스"
  const DaumLabel: string := "다음 뉴스"
  const GoogleLabel: string := "구글 뉴스"

  type Feed = string -> Option<seq<FeedEntry>>

  datatype ApiRequest = ApiRequest(query: string, language: string, pageSize: nat)

  /**
   * What `requests.get(...)` followed by `raise_for_status()` and `json()` yields:
   * an exception of any kind, or the decoded body's `status` and `articles` keys.
   */
  datatype ApiResponse =
    | RequestFailed
    | Decoded(status: Option<string>, articles: Option<seq<Article>>)

  type NewsApi = ApiRequest -> ApiResponse

  datatype Network = Network(naver: Feed, daum: Feed, google: Feed, newsApi: NewsApi)

  // ---------------------------------------------------------------------------
  // Feed entries to articles (the dictionaries built inside each adapter loop)
  // ---------------------------------------------------------------------------

  function NaverArticle(e: FeedEntry): Article {
    Article(Some(e.title.GetOr(NoTitle)), Some(e.description.GetOr("")), Some(e.link.GetOr("")),
            Some(SourceLabel(NaverLabel)), Some(e.published.GetOr("")), Some(""), Some(""))
  }

  function DaumArticle(e: FeedEntry): Article {
    Article(Some(e.title.GetOr(NoTitle)), Some(e.description.GetOr("")), Some(e.link.GetOr("")),
            Some(SourceLabel(DaumLabel)), Some(e.published.GetOr("")), Some(""), Some(""))
  }

  /** Google's entries carry their description under `summary` and their outlet under `source.title`. */
  function GoogleArticle(e: FeedEntry): Article {
    Article(Some(e.title.GetOr(NoTitle)), Some(e.summary.GetOr("")), Some(e.link.GetOr("")),
            Some(SourceLabel(e.sourceTitle.GetOr(GoogleLabel))), Some(e.published.GetOr("")), Some(""), Some(""))
  }

  /** The flat record `format_article` builds, every value a string. */
  datatype FormattedArticle = FormattedArticle(
    title: string, description: string, url: string, source: string,
    publishedAt: string, author: string, image: string)

  /**
   * `format_article`: each key falls back to its default; the outlet is the
   * `name` of the nested source dictionary (an absent source reads as `{}`).
   * A plain-label source, as every feed article has, is a string without a
   * `.get` method, so the call raises: `None`.
   */
  function FormatArticle(a: Article): (r: Option<FormattedArticle>)
    ensures r.None? <==> (a.source.Some? && a.source.value.SourceLabel?)
    ensures r.Some? ==>
      && r.value.title == a.title.GetOr(NoTitle)
      && r.value.description == a.description.GetOr("")
      && r.value.url == a.url.GetOr("")
      && r.value.publishedAt == a.publishedAt.GetOr("")
      && r.value.author == a.author.GetOr("")
      && r.value.image == a.urlToImage.GetOr("")
    ensures r.Some? ==> r.value.source == (if a.source.None? then UnknownSource else a.source.value.name.GetOr(UnknownSource))
  {
    var source :=
      match a.source
      case None => Some(UnknownSource)
      case Some(SourceLabel(_)) => None
      case Some(SourceRecord(name, _)) => Some(name.GetOr(UnknownSource));
    if source.None? then None
    else Some(FormattedArticle(a.title.GetOr(NoTitle), a.description.GetOr(""), a.url.GetOr(""), source.value,
                               a.publishedAt.GetOr(""), a.author.GetOr(""), a.urlToImage.GetOr("")))
  }

  /** No article a feed adapter builds can be formatted. */
  lemma FeedArticlesNotFormattable(e: FeedEntry)
    ensures FormatArticle(NaverArticle(e)).None? && FormatArticle(DaumArticle(e)).None? && FormatArticle(GoogleArticle(e)).None?
  {
  }

  // ---------------------------------------------------------------------------
  // The collection loop shared by the three feed adapters
  // ---------------------------------------------------------------------------

  /** `any(a.get('url') == u for a in acc)`. */
  function HasUrl(acc: seq<Article>, u: Option<string>): (b: bool)
    ensures b <==> exists i :: 0 <= i < |acc| && acc[i].url == u
  {
    if acc == [] then false else acc[0].url == u || HasUrl(acc[1..], u)
  }

  /**
   * The inner loop from entry `j` on: append an entry unless its url was already
   * collected, and stop as soon as `limit` articles are collected.
   */
  function CollectEntries(acc: seq<Article>, es: seq<FeedEntry>, j: nat, limit: nat,
                          convert: FeedEntry -> Article): seq<Article>
    requires j <= |es|
    decreases |es| - j
  {
    if j == |es| then acc
    else
      var a := convert(es[j]);
      var acc' := if HasUrl(acc, a.url) then acc else acc + [a];
      if |acc'| >= limit then acc' else CollectEntries(acc', es, j + 1, limit, convert)
  }

  /**
   * The outer loop from keyword `i` on: a keyword whose fetch raised is skipped;
   * otherwise its first `limit` entries are collected, and the loop stops once
   * `limit` articles are collected.
   */
  function CollectKeywords(acc: seq<Article>, ks: seq<string>, i: nat, limit: nat,
                           fetch: Feed, convert: FeedEntry -> Article): seq<Article>
    requires i <= |ks|
    decreases |ks| - i
  {
    if i == |ks| then acc
    else
      match fetch(ks[i])
      case None => CollectKeywords(acc, ks, i + 1, limit, fetch, convert)
      case Some(entries) =>
        var acc' := CollectEntries(acc, Take(entries, limit), 0, limit, convert);
        if |acc'| >= limit then acc' else CollectKeywords(acc', ks, i + 1, limit, fetch, convert)
  }

  /** What a feed adapter returns for `keywords` and `limit`. */
  function RssCollect(keywords: seq<string>, limit: nat, fetch: Feed, convert: FeedEntry -> Article): seq<Article> {
    Take(CollectKeywords([], Take(keywords, MaxKeywords), 0, limit, fetch, convert), limit)
  }

  /** The one loop behind `fetch_naver_rss_news`, `fetch_daum_rss_news` and `fetch_google_rss_news`. */
  method CollectRss(keywords: seq<string>, limit: nat, fetch: Feed, convert: FeedEntry -> Article)
    returns (articles: seq<Article>)
    ensures articles == RssCollect(keywords, limit, fetch, convert)
  {
    var all: seq<Article> := [];
    var ks := Take(keywords, MaxKeywords);
    var i := 0;
    while i < |ks|
      invariant 0 <= i <= |ks|
      invariant CollectKeywords(all, ks, i, limit, fetch, convert) == CollectKeywords([], ks, 0, limit, fetch, convert)
    {
      var feed := fetch(ks[i]);
      if feed.None? {
        // the exception is logged and the next keyword is tried
        i := i + 1;
        continue;
      }
      var entries := Take(feed.value, limit);
      ghost var before := all;
      var j := 0;
      while j < |entries|
        invariant 0 <= j <= |entries|
        invariant CollectEntries(all, entries, j, limit, convert) == CollectEntries(before, entries, 0, limit, convert)
      {
        var article := convert(entries[j]);
        if !HasUrl(all, article.url) {
          all := all + [article];
        }
        if |all| >= limit {
          break;
        }
        j := j + 1;
      }
      if |all| >= limit {
        break;
      }
      i := i + 1;
    }
    articles := Take(all, limit);
  }

  method FetchNaverRssNews(keywords: seq<string>, limit: nat, feed: Feed) returns (articles: seq<Article>)
    ensures articles == RssCollect(keywords, limit, feed, NaverArticle)
  {
    articles := CollectRss(keywords, limit, feed, NaverArticle);
  }

  method FetchDaumRssNews(keywords: seq<string>, limit: nat, feed: Feed) returns (articles: seq<Article>)
    ensures articles == RssCollect(keywords, limit, feed, DaumArticle)
  {
    articles := CollectRss(keywords, limit, feed, DaumArticle);
  }

  method FetchGoogleRssNews(keywords: seq<string>, limit: nat, feed: Feed) returns (articles: seq<Article>)
    ensures articles == RssCollect(keywords, limit, feed, GoogleArticle)
  {
    articles := CollectRss(keywords, limit, feed, GoogleArticle);
  }

  // ---------------------------------------------------------------------------
  // Properties of the feed adapters
  // ---------------------------------------------------------------------------

  /** No two articles carry the same url; the empty url counts as a url. */
  ghost predicate UrlsDistinct(s: seq<Article>) {
    forall i, j :: 0 <= i < j < |s| ==> s[i].url != s[j].url
  }

  /** The articles that keyword `ks[m]` can contribute: its first `limit` entries, converted. */
  function KeywordArticles(ks: seq<string>, m: nat, limit: nat, fetch: Feed, convert: FeedEntry -> Article): seq<Article>
    requires m < |ks|
  {
    match fetch(ks[m])
    case None => []
    case Some(entries) =>
      var es := Take(entries, limit);
      seq(|es|, k requires 0 <= k < |es| => convert(es[k]))
  }

  /** `a` comes from one of the searched keywords at position `m` or later. */
  ghost predicate FromKeywords(a: Article, ks: seq<string>, from: nat, limit: nat, fetch: Feed, convert: FeedEntry -> Article) {
    exists m :: from <= m < |ks| && a in KeywordArticles(ks, m, limit, fetch, convert)
  }

  /** The inner loop only appends: what was collected before stays in place. */
  lemma {:induction false} CollectEntriesPrefix(acc: seq<Article>, es: seq<FeedEntry>, j: nat, limit: nat,
                                                convert: FeedEntry -> Article)
    requires j <= |es|
    ensures var r := CollectEntries(acc, es, j, limit, convert);
      |acc| <= |r| && forall k :: 0 <= k < |acc| ==> r[k] == acc[k]
    decreases |es| - j
  {
    if j < |es| {
      var a := convert(es[j]);
      var acc' := if HasUrl(acc, a.url) then acc else acc + [a];
      if |acc'| < limit {
        CollectEntriesPrefix(acc', es, j + 1, limit, convert);
      }
    }
  }

  /** The inner loop never collects a url twice. */
  lemma {:induction false} CollectEntriesDistinct(acc: seq<Article>, es: seq<FeedEntry>, j: nat, limit: nat,
                                                  convert: FeedEntry -> Article)
    requires j <= |es|
    requires UrlsDistinct(acc)
    ensures UrlsDistinct(CollectEntries(acc, es, j, limit, convert))
    decreases |es| - j
  {
    if j < |es| {
      var a := convert(es[j]);
      var acc' := if HasUrl(acc, a.url) then acc else acc + [a];
      assert UrlsDistinct(acc');
      if |acc'| < limit {
        CollectEntriesDistinct(acc', es, j + 1, limit, convert);
      }
    }
  }

  /** Everything the inner loop appends is converted from one of the entries `es[j..]`. */
  lemma {:induction false} CollectEntriesFrom(acc: seq<Article>, es: seq<FeedEntry>, j: nat, limit: nat,
                                              convert: FeedEntry -> Article)
    requires j <= |es|
    ensures var r := CollectEntries(acc, es, j, limit, convert);
      forall k :: |acc| <= k < |r| ==> exists q :: j <= q < |es| && r[k] == convert(es[q])
    decreases |es| - j
  {
    if j < |es| {
      var a := convert(es[j]);
      var acc' := if HasUrl(acc, a.url) then acc else acc + [a];
      if |acc'| < limit {
        CollectEntriesFrom(acc', es, j + 1, limit, convert);
        CollectEntriesPrefix(acc', es, j + 1, limit, convert);
        var r := CollectEntries(acc', es, j + 1, limit, convert);
        forall k | |acc| <= k < |r| ensures exists q :: j <= q < |es| && r[k] == convert(es[q]) {
          if k < |acc'| {
            assert r[k] == convert(es[j]);
          }
        }
      }
    }
  }

  lemma {:induction false} CollectKeywordsSound(acc: seq<Article>, ks: seq<string>, i: nat, limit: nat,
                                                fetch: Feed, convert: FeedEntry -> Article)
    requires i <= |ks|
    requires UrlsDistinct(acc)
    ensures var r := CollectKeywords(acc, ks, i, limit, fetch, convert);
      UrlsDistinct(r) && |acc| <= |r| && (forall k :: 0 <= k < |acc| ==> r[k] == acc[k])
      && forall k :: |acc| <= k < |r| ==> FromKeywords(r[k], ks, i, limit, fetch, convert)
    decreases |ks| - i, 1
  {
    if i < |ks| {
      if fetch(ks[i]).None? {
        FailedKeywordSound(acc, ks, i, limit, fetch, convert);
      } else {
        FetchedKeywordSound(acc, ks, i, limit, fetch, convert);
      }
    }
  }

  lemma {:induction false} FailedKeywordSound(acc: seq<Article>, ks: seq<string>, i: nat, limit: nat,
                                              fetch: Feed, convert: FeedEntry -> Article)
    requires i < |ks| && fetch(ks[i]).None?
    requires UrlsDistinct(acc)
    ensures var r := CollectKeywords(acc, ks, i, limit, fetch, convert);
      UrlsDistinct(r) && |acc| <= |r| && (forall k :: 0 <= k < |acc| ==> r[k] == acc[k])
      && forall k :: |acc| <= k < |r| ==> FromKeywords(r[k], ks, i, limit, fetch, convert)
    decreases |ks| - i, 0
  {
    var r := CollectKeywords(acc, ks, i, limit, fetch, convert);
    KeywordFailed(acc, ks, i, limit, fetch, convert);
    CollectKeywordsSound(acc, ks, i + 1, limit, fetch, convert);
    forall k | |acc| <= k < |r| ensures FromKeywords(r[k], ks, i, limit, fetch, convert) {
      var m :| i + 1 <= m < |ks| && r[k] in KeywordArticles(ks, m, limit, fetch, convert);
    }
  }

  lemma {:induction false} FetchedKeywordSound(acc: seq<Article>, ks: seq<string>, i: nat, limit: nat,
                                               fetch: Feed, convert: FeedEntry -> Article)
    requires i < |ks| && fetch(ks[i]).Some?
    requires UrlsDistinct(acc)
    ensures var r := CollectKeywords(acc, ks, i, limit, fetch, convert);
      UrlsDistinct(r) && |acc| <= |r| && (forall k :: 0 <= k < |acc| ==> r[k] == acc[k])
      && forall k :: |acc| <= k < |r| ==> FromKeywords(r[k], ks, i, limit, fetch, convert)
    decreases |ks| - i, 0
  {
    var r := CollectKeywords(acc, ks, i, limit, fetch, convert);
    var es := Take(fetch(ks[i]).value, limit);
    var acc' := CollectEntries(acc, es, 0, limit, convert);
    KeywordFetched(acc, ks, i, limit, fetch, convert);
    KeywordArticlesConverted(ks, i, limit, fetch, convert);
    CollectEntriesPrefix(acc, es, 0, limit, convert);
    CollectEntriesDistinct(acc, es, 0, limit, convert);
    CollectEntriesFrom(acc, es, 0, limit, convert);
    forall k | |acc| <= k < |acc'| ensures FromKeywords(acc'[k], ks, i, limit, fetch, convert) {
      var q :| 0 <= q < |es| && acc'[k] == convert(es[q]);
      assert KeywordArticles(ks, i, limit, fetch, convert)[q] == acc'[k];
    }
    if |acc'| < limit {
      CollectKeywordsSound(acc', ks, i + 1, limit, fetch, convert);
      forall k | |acc| <= k < |r| ensures FromKeywords(r[k], ks, i, limit, fetch, convert) {
        if k < |acc'| {
          assert r[k] == acc'[k];
        } else {
          var m :| i + 1 <= m < |ks| && r[k] in KeywordArticles(ks, m, limit, fetch, convert);
        }
      }
    }
  }

  /**
   * A feed adapter returns at most `limit` articles with pairwise distinct urls
   * (so at most one with an empty url), each converted from one of the first
   * `limit` entries of one of the first three keywords.
   */
  lemma RssCollectSound(keywords: seq<string>, limit: nat, fetch: Feed, convert: FeedEntry -> Article)
    ensures var r := RssCollect(keywords, limit, fetch, convert);
      |r| <= limit && UrlsDistinct(r)
      && forall k :: 0 <= k < |r| ==> FromKeywords(r[k], Take(keywords, MaxKeywords), 0, limit, fetch, convert)
  {
    var ks := Take(keywords, MaxKeywords);
    CollectKeywordsSound([], ks, 0, limit, fetch, convert);
    var all := CollectKeywords([], ks, 0, limit, fetch, convert);
    assert RssCollect(keywords, limit, fetch, convert) == all[..|Take(all, limit)|];
  }

  /** The feed `fetch` with keyword `bad` answering an empty entry list instead. */
  function WithEmptyFeed(fetch: Feed, bad: string): Feed {
    k => if k == bad then Some([]) else fetch(k)
  }

  lemma {:induction false} CollectKeywordsZeroLimit(ks: seq<string>, i: nat, fetch: Feed, convert: FeedEntry -> Article)
    requires i <= |ks|
    ensures CollectKeywords([], ks, i, 0, fetch, convert) == []
    decreases |ks| - i
  {
    if i < |ks| && fetch(ks[i]).None? {
      CollectKeywordsZeroLimit(ks, i + 1, fetch, convert);
    }
  }

  lemma {:induction false} CollectKeywordsFailure(acc: seq<Article>, ks: seq<string>, i: nat, limit: nat,
                                                  fetch: Feed, convert: FeedEntry -> Article, bad: string)
    requires i <= |ks|
    requires fetch(bad).None?
    requires |acc| < limit || (limit == 0 && acc == [])
    ensures CollectKeywords(acc, ks, i, limit, fetch, convert)
         == CollectKeywords(acc, ks, i, limit, WithEmptyFeed(fetch, bad), convert)
    decreases |ks| - i
  {
    var fetch' := WithEmptyFeed(fetch, bad);
    if limit == 0 {
      CollectKeywordsZeroLimit(ks, i, fetch, convert);
      CollectKeywordsZeroLimit(ks, i, fetch', convert);
    } else if i < |ks| {
      if ks[i] == bad {
        assert fetch'(ks[i]) == Some([]);
        assert CollectEntries(acc, Take([], limit), 0, limit, convert) == acc;
        CollectKeywordsFailure(acc, ks, i + 1, limit, fetch, convert, bad);
      } else {
        assert fetch'(ks[i]) == fetch(ks[i]);
        match fetch(ks[i])
        case None =>
          CollectKeywordsFailure(acc, ks, i + 1, limit, fetch, convert, bad);
        case Some(entries) =>
          var acc' := CollectEntries(acc, Take(entries, limit), 0, limit, convert);
          if |acc'| < limit {
            CollectKeywordsFailure(acc', ks, i + 1, limit, fetch, convert, bad);
          }
      }
    }
  }

  /**
   * A keyword whose fetch raises contributes exactly what a keyword with no
   * entries contributes, and collection goes on with the next keyword.
   */
  lemma FailingKeywordContributesNothing(keywords: seq<string>, limit: nat, fetch: Feed,
                                         convert: FeedEntry -> Article, bad: string)
    requires fetch(bad).None?
    ensures RssCollect(keywords, limit, fetch, convert) == RssCollect(keywords, limit, WithEmptyFeed(fetch, bad), convert)
  {
    CollectKeywordsFailure([], Take(keywords, MaxKeywords), 0, limit, fetch, convert, bad);
  }

  // ---------------------------------------------------------------------------
  // The adapter as a greedy url deduplication of everything it searched
  // ---------------------------------------------------------------------------

  /** Append each article of `xs` in turn unless an article with its url is already present. */
  function UrlDedup(acc: seq<Article>, xs: seq<Article>): seq<Article>
    decreases |xs|
  {
    if xs == [] then acc
    else UrlDedup(if HasUrl(acc, xs[0].url) then acc else acc + [xs[0]], xs[1..])
  }

  /** The entries `es[j..]`, converted. */
  function Converted(es: seq<FeedEntry>, j: nat, convert: FeedEntry -> Article): seq<Article>
    requires j <= |es|
  {
    seq(|es| - j, k requires 0 <= k < |es| - j => convert(es[j + k]))
  }

  /** The articles of keywords `ks[i..]`, keyword by keyword, before any deduplication. */
  function SearchedArticles(ks: seq<string>, i: nat, limit: nat, fetch: Feed, convert: FeedEntry -> Article)
    : seq<Article>
    requires i <= |ks|
    decreases |ks| - i
  {
    if i == |ks| then [] else KeywordArticles(ks, i, limit, fetch, convert) + SearchedArticles(ks, i + 1, limit, fetch, convert)
  }

  lemma {:induction false} UrlDedupPrefix(acc: seq<Article>, xs: seq<Article>)
    ensures acc <= UrlDedup(acc, xs)
    decreases |xs|
  {
    if xs != [] {
      var acc' := if HasUrl(acc, xs[0].url) then acc else acc + [xs[0]];
      UrlDedupPrefix(acc', xs[1..]);
      PrefixTrans(acc, acc', UrlDedup(acc', xs[1..]));
    }
  }

  lemma PrefixTrans<T>(a: seq<T>, b: seq<T>, c: seq<T>)
    requires a <= b && b <= c
    ensures a <= c
  {
    assert a == b[..|a|] && b == c[..|b|];
    assert c[..|b|][..|a|] == c[..|a|];
  }

  /** Deduplicating `xs + ys` is deduplicating `xs`, then `ys` against the result. */
  lemma {:induction false} UrlDedupAppend(acc: seq<Article>, xs: seq<Article>, ys: seq<Article>)
    ensures UrlDedup(acc, xs + ys) == UrlDedup(UrlDedup(acc, xs), ys)
    decreases |xs|
  {
    if xs == [] {
      assert xs + ys == ys;
    } else {
      assert (xs + ys)[0] == xs[0] && (xs + ys)[1..] == xs[1..] + ys;
      var acc' := if HasUrl(acc, xs[0].url) then acc else acc + [xs[0]];
      UrlDedupAppend(acc', xs[1..], ys);
    }
  }

  /** Every url of `xs` ends up present: an article is left out only when its url was already there. */
  lemma {:induction false} UrlDedupComplete(acc: seq<Article>, xs: seq<Article>)
    ensures forall k :: 0 <= k < |xs| ==> HasUrl(UrlDedup(acc, xs), xs[k].url)
    decreases |xs|
  {
    if xs != [] {
      var r := UrlDedup(acc, xs);
      var acc' := if HasUrl(acc, xs[0].url) then acc else acc + [xs[0]];
      assert HasUrl(acc', xs[0].url) by {
        if !HasUrl(acc, xs[0].url) {
          assert acc'[|acc|] == xs[0];
        }
      }
      UrlDedupComplete(acc', xs[1..]);
      UrlDedupPrefix(acc', xs[1..]);
      HasUrlPrefix(acc', r, xs[0].url);
      forall k | 1 <= k < |xs| ensures HasUrl(r, xs[k].url) {
        assert xs[k] == xs[1..][k - 1];
      }
    }
  }

  lemma HasUrlPrefix(a: seq<Article>, b: seq<Article>, u: Option<string>)
    requires a <= b && HasUrl(a, u)
    ensures HasUrl(b, u)
  {
    var i :| 0 <= i < |a| && a[i].url == u;
    assert b[i] == a[i];
  }

  lemma ConvertedCons(es: seq<FeedEntry>, j: nat, convert: FeedEntry -> Article)
    requires j < |es|
    ensures Converted(es, j, convert) == [convert(es[j])] + Converted(es, j + 1, convert)
  {
    var c := Converted(es, j, convert);
    var d := [convert(es[j])] + Converted(es, j + 1, convert);
    assert |c| == |d|;
    forall k | 0 <= k < |c| ensures c[k] == d[k] {
      if k > 0 {
        assert d[k] == Converted(es, j + 1, convert)[k - 1];
      }
    }
  }

  lemma UrlDedupCons(acc: seq<Article>, a: Article, xs: seq<Article>)
    ensures UrlDedup(acc, [a] + xs) == UrlDedup(if HasUrl(acc, a.url) then acc else acc + [a], xs)
  {
    assert ([a] + xs)[0] == a && ([a] + xs)[1..] == xs;
  }

  /**
   * The inner loop's result is a prefix of the full deduplication of the
   * remaining entries, and is all of it unless the limit stopped the loop.
   */
  lemma {:induction false} CollectEntriesDedup(acc: seq<Article>, es: seq<FeedEntry>, j: nat, limit: nat,
                                               convert: FeedEntry -> Article)
    requires j <= |es|
    ensures var r := CollectEntries(acc, es, j, limit, convert);
      var full := UrlDedup(acc, Converted(es, j, convert));
      r <= full && (|r| < limit ==> r == full)
    decreases |es| - j
  {
    if j == |es| {
      assert Converted(es, j, convert) == [];
    } else {
      var a := convert(es[j]);
      var acc' := if HasUrl(acc, a.url) then acc else acc + [a];
      var later := Converted(es, j + 1, convert);
      ConvertedCons(es, j, convert);
      UrlDedupCons(acc, a, later);
      assert UrlDedup(acc, Converted(es, j, convert)) == UrlDedup(acc', later);
      UrlDedupPrefix(acc', later);
      if |acc'| < limit {
        CollectEntriesDedup(acc', es, j + 1, limit, convert);
      }
    }
  }

  lemma KeywordArticlesConverted(ks: seq<string>, i: nat, limit: nat, fetch: Feed, convert: FeedEntry -> Article)
    requires i < |ks| && fetch(ks[i]).Some?
    ensures KeywordArticles(ks, i, limit, fetch, convert) == Converted(Take(fetch(ks[i]).value, limit), 0, convert)
  {
  }

  /**
   * The keyword loop's result is a prefix of the full deduplication of all
   * remaining keywords' articles, and is all of it unless the limit stopped it.
   */
  lemma {:induction false} CollectKeywordsDedup(acc: seq<Article>, ks: seq<string>, i: nat, limit: nat,
                                                fetch: Feed, convert: FeedEntry -> Article)
    requires i <= |ks|
    ensures var r := CollectKeywords(acc, ks, i, limit, fetch, convert);
      var full := UrlDedup(acc, SearchedArticles(ks, i, limit, fetch, convert));
      r <= full && (|r| < limit ==> r == full)
    decreases |ks| - i, 1
  {
    if i < |ks| {
      if fetch(ks[i]).None? {
        FailedKeywordDedup(acc, ks, i, limit, fetch, convert);
      } else {
        FetchedKeywordDedup(acc, ks, i, limit, fetch, convert);
      }
    }
  }

  lemma {:induction false} FailedKeywordDedup(acc: seq<Article>, ks: seq<string>, i: nat, limit: nat,
                                              fetch: Feed, convert: FeedEntry -> Article)
    requires i < |ks| && fetch(ks[i]).None?
    ensures var r := CollectKeywords(acc, ks, i, limit, fetch, convert);
      var full := UrlDedup(acc, SearchedArticles(ks, i, limit, fetch, convert));
      r <= full && (|r| < limit ==> r == full)
    decreases |ks| - i, 0
  {
    SearchedDedup(acc, ks, i, limit, fetch, convert);
    KeywordFailed(acc, ks, i, limit, fetch, convert);
    CollectKeywordsDedup(acc, ks, i + 1, limit, fetch, convert);
  }

  lemma {:induction false} FetchedKeywordDedup(acc: seq<Article>, ks: seq<string>, i: nat, limit: nat,
                                               fetch: Feed, convert: FeedEntry -> Article)
    requires i < |ks| && fetch(ks[i]).Some?
    ensures var r := CollectKeywords(acc, ks, i, limit, fetch, convert);
      var full := UrlDedup(acc, SearchedArticles(ks, i, limit, fetch, convert));
      r <= full && (|r| < limit ==> r == full)
    decreases |ks| - i, 0
  {
    var rest := SearchedArticles(ks, i + 1, limit, fetch, convert);
    var first := UrlDedup(acc, KeywordArticles(ks, i, limit, fetch, convert));
    var r := CollectKeywords(acc, ks, i, limit, fetch, convert);
    var es := Take(fetch(ks[i]).value, limit);
    var acc' := CollectEntries(acc, es, 0, limit, convert);
    SearchedDedup(acc, ks, i, limit, fetch, convert);
    KeywordFetched(acc, ks, i, limit, fetch, convert);
    CollectEntriesDedup(acc, es, 0, limit, convert);
    if |acc'| < limit {
      CollectKeywordsDedup(acc', ks, i + 1, limit, fetch, convert);
    }
    DedupThenRest(acc', first, rest, r, limit);
  }

  lemma SearchedDedup(acc: seq<Article>, ks: seq<string>, i: nat, limit: nat, fetch: Feed, convert: FeedEntry -> Article)
    requires i < |ks|
    ensures UrlDedup(acc, SearchedArticles(ks, i, limit, fetch, convert))
         == UrlDedup(UrlDedup(acc, KeywordArticles(ks, i, limit, fetch, convert)), SearchedArticles(ks, i + 1, limit, fetch, convert))
  {
    UrlDedupAppend(acc, KeywordArticles(ks, i, limit, fetch, convert), SearchedArticles(ks, i + 1, limit, fetch, convert));
  }

  /** A raising keyword: the loop moves on and the keyword contributes nothing. */
  lemma KeywordFailed(acc: seq<Article>, ks: seq<string>, i: nat, limit: nat, fetch: Feed, convert: FeedEntry -> Article)
    requires i < |ks| && fetch(ks[i]).None?
    ensures CollectKeywords(acc, ks, i, limit, fetch, convert) == CollectKeywords(acc, ks, i + 1, limit, fetch, convert)
    ensures UrlDedup(acc, KeywordArticles(ks, i, limit, fetch, convert)) == acc
  {
    assert KeywordArticles(ks, i, limit, fetch, convert) == [];
  }

  /** A fetched keyword: its entries' pass, then the next keyword unless the limit is reached. */
  lemma KeywordFetched(acc: seq<Article>, ks: seq<string>, i: nat, limit: nat, fetch: Feed, convert: FeedEntry -> Article)
    requires i < |ks| && fetch(ks[i]).Some?
    ensures var es := Take(fetch(ks[i]).value, limit);
      var acc' := CollectEntries(acc, es, 0, limit, convert);
      && CollectKeywords(acc, ks, i, limit, fetch, convert)
         == (if |acc'| >= limit then acc' else CollectKeywords(acc', ks, i + 1, limit, fetch, convert))
      && UrlDedup(acc, KeywordArticles(ks, i, limit, fetch, convert)) == UrlDedup(acc, Converted(es, 0, convert))
  {
    KeywordArticlesConverted(ks, i, limit, fetch, convert);
  }

  /**
   * One keyword step: the keyword's pass gave `acc'`, a prefix of its full
   * deduplication `first`; `r` is `acc'` once the limit is reached, else the
   * rest of the loop run from `acc'`.
   */
  lemma DedupThenRest(acc': seq<Article>, first: seq<Article>, rest: seq<Article>, r: seq<Article>, limit: nat)
    requires acc' <= first && (|acc'| < limit ==> acc' == first)
    requires |acc'| >= limit ==> r == acc'
    requires |acc'| < limit ==> r <= UrlDedup(acc', rest) && (|r| < limit ==> r == UrlDedup(acc', rest))
    ensures r <= UrlDedup(first, rest) && (|r| < limit ==> r == UrlDedup(first, rest))
  {
    UrlDedupPrefix(first, rest);
    if |acc'| >= limit {
      PrefixTrans(acc', first, UrlDedup(first, rest));
    }
  }

  /**
   * A feed adapter returns the first `limit` articles of the greedy url
   * deduplication of everything it searched: the first `limit` entries of each
   * of `keywords[:3]`, keyword by keyword, a raising keyword contributing none.
   */
  lemma RssCollectDedup(keywords: seq<string>, limit: nat, fetch: Feed, convert: FeedEntry -> Article)
    ensures RssCollect(keywords, limit, fetch, convert)
         == Take(UrlDedup([], SearchedArticles(Take(keywords, MaxKeywords), 0, limit, fetch, convert)), limit)
  {
    var ks := Take(keywords, MaxKeywords);
    var r := CollectKeywords([], ks, 0, limit, fetch, convert);
    var full := UrlDedup([], SearchedArticles(ks, 0, limit, fetch, convert));
    CollectKeywordsDedup([], ks, 0, limit, fetch, convert);
    if |r| >= limit {
      assert r[..limit] == full[..limit];
    }
  }

  /** Every article that `keywords[:3]` yield is in `SearchedArticles`. */
  lemma {:induction false} SearchedArticlesContain(ks: seq<string>, i: nat, m: nat, limit: nat, fetch: Feed,
                                                   convert: FeedEntry -> Article, a: Article)
    requires i <= m < |ks| && a in KeywordArticles(ks, m, limit, fetch, convert)
    ensures a in SearchedArticles(ks, i, limit, fetch, convert)
    decreases m - i
  {
    if i < m {
      SearchedArticlesContain(ks, i + 1, m, limit, fetch, convert, a);
    }
  }

  /**
   * An adapter that returns fewer than `limit` articles has the url of every
   * article it searched: an entry is dropped only because its url was taken.
   */
  lemma RssCollectComplete(keywords: seq<string>, limit: nat, fetch: Feed, convert: FeedEntry -> Article)
    ensures var r := RssCollect(keywords, limit, fetch, convert);
      var ks := Take(keywords, MaxKeywords);
      |r| < limit ==> forall m, a :: 0 <= m < |ks| && a in KeywordArticles(ks, m, limit, fetch, convert) ==> HasUrl(r, a.url)
  {
    var ks := Take(keywords, MaxKeywords);
    var searched := SearchedArticles(ks, 0, limit, fetch, convert);
    var r := RssCollect(keywords, limit, fetch, convert);
    RssCollectDedup(keywords, limit, fetch, convert);
    UrlDedupComplete([], searched);
    forall m, a | 0 <= m < |ks| && a in KeywordArticles(ks, m, limit, fetch, convert) && |r| < limit
      ensures HasUrl(r, a.url)
    {
      SearchedArticlesContain(ks, 0, m, limit, fetch, convert, a);
      var k :| 0 <= k < |searched| && searched[k] == a;
    }
  }

  // ---------------------------------------------------------------------------
  // NewsAPI keyword search (`fetch_news_by_keywords`)
  // ---------------------------------------------------------------------------

  /** The request: all keywords joined by `" OR "`, the language and the page size. */
  function NewsApiRequest(keywords: seq<string>, language: string, pageSize: nat): ApiRequest {
    ApiRequest(Join(keywords, " OR "), language, pageSize)
  }

  /** The articles list when the decoded body says `status == 'ok'`, otherwise nothing. */
  function FetchNewsByKeywords(keywords: seq<string>, language: string, pageSize: nat, api: NewsApi): (r: seq<Article>)
    ensures var resp := api(NewsApiRequest(keywords, language, pageSize));
      (resp.Decoded? && resp.status == Some("ok") ==> r == resp.articles.GetOr([]))
      && (resp.Decoded? && resp.status != Some("ok") ==> r == [])
      && (resp.RequestFailed? ==> r == [])
  {
    match api(NewsApiRequest(keywords, language, pageSize))
    case RequestFailed => []
    case Decoded(status, articles) => if status == Some("ok") then articles.GetOr([]) else []
  }

  // ---------------------------------------------------------------------------
  // The per-category merge (`fetch_categorized_news`)
  // ---------------------------------------------------------------------------

  /** The two sets shared by every category of one run. */
  datatype Seen = Seen(urls: set<string>, titles: set<string>)

  /** A candidate passes unless its non-empty url or its non-empty title was used already. */
  predicate Admits(seen: Seen, a: Article) {
    !(UrlKey(a) != "" && UrlKey(a) in seen.urls) && !(TitleKey(a) != "" && TitleKey(a) in seen.titles)
  }

  /** Records the non-empty keys of a kept article. */
  function Remember(seen: Seen, a: Article): Seen {
    Seen(if UrlKey(a) != "" then seen.urls + {UrlKey(a)} else seen.urls,
         if TitleKey(a) != "" then seen.titles + {TitleKey(a)} else seen.titles)
  }

  /** The three feed adapters' results, in priority order. */
  function RssCandidates(keywords: seq<string>, n: nat, net: Network): seq<Article> {
    RssCollect(keywords, n, net.naver, NaverArticle) + RssCollect(keywords, n, net.daum, DaumArticle)
    + RssCollect(keywords, n, net.google, GoogleArticle)
  }

  /** NewsAPI supplements the feeds only when they produced fewer than `2 * n` candidates. */
  function Candidates(keywords: seq<string>, n: nat, net: Network): seq<Article> {
    var rss := RssCandidates(keywords, n, net);
    if |rss| < n * 2 then rss + FetchNewsByKeywords(keywords, "ko", n, net.newsApi) else rss
  }

  /**
   * The deduplication pass from candidate `i` on: skip a candidate that is not
   * admitted, keep and record one that is, and stop once `n` are kept.
   */
  function Select(cands: seq<Article>, i: nat, n: nat, seen: Seen, kept: seq<Article>): (seq<Article>, Seen)
    requires i <= |cands|
    decreases |cands| - i
  {
    if i == |cands| then (kept, seen)
    else
      var a := cands[i];
      if !Admits(seen, a) then Select(cands, i + 1, n, seen, kept)
      else
        var kept' := kept + [a];
        var seen' := Remember(seen, a);
        if |kept'| >= n then (kept', seen') else Select(cands, i + 1, n, seen', kept')
  }

  /**
   * The deduplication passes over the first `c` categories, in iteration order,
   * each over its own candidate list and all sharing one pair of used sets: the
   * result mapping so far and the sets it leaves behind.
   */
  function Merge(cats: seq<CategorySpec>, lists: seq<seq<Article>>, n: nat, c: nat): (seq<(string, seq<Article>)>, Seen)
    requires |lists| == |cats| && c <= |cats|
  {
    if c == 0 then ([], Seen({}, {}))
    else
      var prev := Merge(cats, lists, n, c - 1);
      var sel := Select(lists[c - 1], 0, n, prev.1, []);
      (prev.0 + [(cats[c - 1].name, Take(sel.0, n))], sel.1)
  }

  /** Each category's candidates. */
  function CandidateLists(cats: seq<CategorySpec>, n: nat, net: Network): (r: seq<seq<Article>>)
    ensures |r| == |cats|
    ensures forall k :: 0 <= k < |cats| ==> r[k] == Candidates(cats[k].keywords, n, net)
  {
    seq(|cats|, k requires 0 <= k < |cats| => Candidates(cats[k].keywords, n, net))
  }

  /** The result mapping after the first `c` categories of a run, and the sets it leaves behind. */
  function CategorizedUpTo(cats: seq<CategorySpec>, n: nat, net: Network, c: nat): (seq<(string, seq<Article>)>, Seen)
    requires c <= |cats|
  {
    Merge(cats, CandidateLists(cats, n, net), n, c)
  }

  /** The result mapping of one run over `cats` and the sets it leaves behind. */
  function Categorized(cats: seq<CategorySpec>, n: nat, net: Network): (seq<(string, seq<Article>)>, Seen) {
    CategorizedUpTo(cats, n, net, |cats|)
  }

  /** Category `c` extends the mapping by its name and the first `n` survivors of its own candidates. */
  lemma CategorizedStep(cats: seq<CategorySpec>, n: nat, net: Network, c: nat, kept: seq<Article>, seen: Seen)
    requires c < |cats|
    requires (kept, seen) == Select(Candidates(cats[c].keywords, n, net), 0, n, CategorizedUpTo(cats, n, net, c).1, [])
    ensures CategorizedUpTo(cats, n, net, c + 1) == (CategorizedUpTo(cats, n, net, c).0 + [(cats[c].name, Take(kept, n))], seen)
  {
    var lists := CandidateLists(cats, n, net);
    assert lists[c] == Candidates(cats[c].keywords, n, net);
  }

  /** Steps 1-4 of one category: the three feeds in order, then NewsAPI if they under-supply. */
  method GatherCandidates(keywords: seq<string>, n: nat, net: Network) returns (all: seq<Article>)
    ensures all == Candidates(keywords, n, net)
  {
    all := [];
    var naver := FetchNaverRssNews(keywords, n, net.naver);
    all := all + naver;
    var daum := FetchDaumRssNews(keywords, n, net.daum);
    all := all + daum;
    var google := FetchGoogleRssNews(keywords, n, net.google);
    all := all + google;
    if |all| < n * 2 {
      var api := FetchNewsByKeywords(keywords, "ko", n, net.newsApi);
      all := all + api;
    }
  }

  /** The greedy deduplication pass of one category against the run's used sets. */
  method Deduplicate(all: seq<Article>, n: nat, urls: set<string>, titles: set<string>)
    returns (unique: seq<Article>, usedUrls: set<string>, usedTitles: set<string>)
    ensures (unique, Seen(usedUrls, usedTitles)) == Select(all, 0, n, Seen(urls, titles), [])
  {
    unique, usedUrls, usedTitles := [], urls, titles;
    var i := 0;
    while i < |all|
      invariant 0 <= i <= |all|
      invariant Select(all, i, n, Seen(usedUrls, usedTitles), unique) == Select(all, 0, n, Seen(urls, titles), [])
    {
      var article := all[i];
      var url := UrlKey(article);
      var title := TitleKey(article);
      if url != "" && url in usedUrls {
        i := i + 1;
        continue;
      }
      if title != "" && title in usedTitles {
        i := i + 1;
        continue;
      }
      unique := unique + [article];
      if url != "" {
        usedUrls := usedUrls + {url};
      }
      if title != "" {
        usedTitles := usedTitles + {title};
      }
      if |unique| >= n {
        break;
      }
      i := i + 1;
    }
  }

  /** One pass of the category loop: gather the category's candidates, deduplicate them against the used sets, record the survivors. */
  method FetchCategory(categories: seq<CategorySpec>, c: nat, n: nat, net: Network,
                       result: seq<(string, seq<Article>)>, urls: set<string>, titles: set<string>)
    returns (result': seq<(string, seq<Article>)>, usedUrls: set<string>, usedTitles: set<string>)
    requires c < |categories|
    requires (result, Seen(urls, titles)) == CategorizedUpTo(categories, n, net, c)
    ensures (result', Seen(usedUrls, usedTitles)) == CategorizedUpTo(categories, n, net, c + 1)
  {
    var all := GatherCandidates(categories[c].keywords, n, net);
    var unique;
    unique, usedUrls, usedTitles := Deduplicate(all, n, urls, titles);
    CategorizedStep(categories, n, net, c, unique, Seen(usedUrls, usedTitles));
    result' := result + [(categories[c].name, Take(unique, n))];
  }

  method FetchCategorizedNews(categories: seq<CategorySpec>, n: nat, net: Network)
    returns (result: seq<(string, seq<Article>)>)
    requires DistinctNames(categories)
    ensures result == Categorized(categories, n, net).0
  {
    result := [];
    var usedUrls: set<string> := {};
    var usedTitles: set<string> := {};
    for c := 0 to |categories|
      invariant (result, Seen(usedUrls, usedTitles)) == CategorizedUpTo(categories, n, net, c)
    {
      result, usedUrls, usedTitles := FetchCategory(categories, c, n, net, result, usedUrls, usedTitles);
    }
  }
}

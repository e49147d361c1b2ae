/**
 * What one run of `fetch_categorized_news` guarantees about its result mapping:
 * each category is bounded by the requested count, is an order-preserving
 * subsequence of that category's candidates, and no two articles anywhere in
 * the result share a non-empty url or a non-empty title.
 */
module FetcherProperties {
  import opened Wrappers
  import opened TextUtil
  import opened NewsModel
  import opened Fetcher

  /** `a` can be taken from `b` by deleting elements, keeping the order. */
  predicate IsSubsequence<T(==)>(a: seq<T>, b: seq<T>)
    decreases |b|
  {
    if b == [] then a == []
    else
      || (a != [] && a[|a| - 1] == b[|b| - 1] && IsSubsequence(a[..|a| - 1], b[..|b| - 1]))
      || IsSubsequence(a, b[..|b| - 1])
  }

  lemma {:induction false} SubsequenceExtend<T>(a: seq<T>, b: seq<T>, c: seq<T>)
    requires IsSubsequence(a, b)
    ensures IsSubsequence(a, b + c)
    decreases |c|
  {
    if c == [] {
      assert b + c == b;
    } else {
      var c' := c[..|c| - 1];
      SubsequenceExtend(a, b, c');
      assert (b + c)[..|b + c| - 1] == b + c';
    }
  }

  lemma {:induction false} SubsequencePrefix<T>(a: seq<T>, b: seq<T>, m: nat)
    requires IsSubsequence(a, b) && m <= |a|
    ensures IsSubsequence(a[..m], b)
    decreases |b|
  {
    if m < |a| && b != [] {
      var b' := b[..|b| - 1];
      if a[|a| - 1] == b[|b| - 1] && IsSubsequence(a[..|a| - 1], b') {
        SubsequencePrefix(a[..|a| - 1], b', m);
        assert a[..|a| - 1][..m] == a[..m];
      } else {
        SubsequencePrefix(a, b', m);
      }
    } else if m == |a| {
      assert a[..m] == a;
    }
  }

  /** Neither key of `a` is a non-empty key of `b`. */
  predicate NoSharedKey(a: Article, b: Article) {
    (UrlKey(a) == "" || UrlKey(a) != UrlKey(b)) && (TitleKey(a) == "" || TitleKey(a) != TitleKey(b))
  }

  ghost predicate Unique(s: seq<Article>) {
    forall i, j :: 0 <= i < j < |s| ==> NoSharedKey(s[i], s[j])
  }

  /** Every non-empty key of `s` is in the used sets. */
  ghost predicate Recorded(s: seq<Article>, seen: Seen) {
    forall i :: 0 <= i < |s| ==>
      (UrlKey(s[i]) != "" ==> UrlKey(s[i]) in seen.urls) && (TitleKey(s[i]) != "" ==> TitleKey(s[i]) in seen.titles)
  }

  /** The article lists of the result mapping, in category order. */
  function KeptLists(res: seq<(string, seq<Article>)>): seq<seq<Article>> {
    seq(|res|, k requires 0 <= k < |res| => res[k].1)
  }

  /** Every article of the result, over all categories. */
  function AllKept(res: seq<(string, seq<Article>)>): seq<Article> {
    Flatten(KeptLists(res))
  }

  /** An empty url or title never causes a rejection and is never recorded. */
  lemma EmptyKeysIgnored(seen: Seen, a: Article)
    ensures UrlKey(a) == "" ==> Remember(seen, a).urls == seen.urls
    ensures TitleKey(a) == "" ==> Remember(seen, a).titles == seen.titles
    ensures UrlKey(a) == "" && TitleKey(a) == "" ==> Admits(seen, a)
    ensures Admits(seen, a) <==> (UrlKey(a) == "" || UrlKey(a) !in seen.urls) && (TitleKey(a) == "" || TitleKey(a) !in seen.titles)
  {
  }

  lemma {:induction false} SelectUnique(prior: seq<Article>, cands: seq<Article>, i: nat, n: nat, seen: Seen, kept: seq<Article>)
    requires i <= |cands|
    requires Unique(prior + kept) && Recorded(prior + kept, seen)
    ensures var (k', s') := Select(cands, i, n, seen, kept);
      Unique(prior + k') && Recorded(prior + k', s') && seen.urls <= s'.urls && seen.titles <= s'.titles
    decreases |cands| - i
  {
    if i < |cands| {
      var a := cands[i];
      if !Admits(seen, a) {
        SelectUnique(prior, cands, i + 1, n, seen, kept);
      } else {
        var kept' := kept + [a];
        var seen' := Remember(seen, a);
        var s := prior + kept;
        assert prior + kept' == s + [a];
        forall x | 0 <= x < |s| ensures NoSharedKey(s[x], a) {
        }
        assert Unique(prior + kept');
        assert Recorded(prior + kept', seen');
        if |kept'| < n {
          SelectUnique(prior, cands, i + 1, n, seen', kept');
        }
      }
    }
  }

  lemma {:induction false} SelectSubsequence(cands: seq<Article>, i: nat, n: nat, seen: Seen, kept: seq<Article>)
    requires i <= |cands|
    requires IsSubsequence(kept, cands[..i])
    ensures IsSubsequence(Select(cands, i, n, seen, kept).0, cands)
    decreases |cands| - i
  {
    if i == |cands| {
      assert cands[..i] == cands;
    } else {
      var a := cands[i];
      assert cands[..i + 1][..i] == cands[..i];
      if !Admits(seen, a) {
        SelectSubsequence(cands, i + 1, n, seen, kept);
      } else {
        var kept' := kept + [a];
        assert kept'[..|kept'| - 1] == kept;
        assert IsSubsequence(kept', cands[..i + 1]);
        if |kept'| >= n {
          SubsequenceExtend(kept', cands[..i + 1], cands[i + 1..]);
          assert cands[..i + 1] + cands[i + 1..] == cands;
        } else {
          SelectSubsequence(cands, i + 1, n, Remember(seen, a), kept');
        }
      }
    }
  }

  lemma {:induction false} UniquePrefix(s: seq<Article>, seen: Seen, m: nat)
    requires Unique(s) && Recorded(s, seen) && m <= |s|
    ensures Unique(s[..m]) && Recorded(s[..m], seen)
  {
  }

  lemma {:induction false} AllKeptSnoc(res: seq<(string, seq<Article>)>, p: (string, seq<Article>))
    ensures AllKept(res + [p]) == AllKept(res) + p.1
  {
    assert KeptLists(res + [p]) == KeptLists(res) + [p.1];
    FlattenAppend(KeptLists(res), [p.1]);
    assert Flatten([p.1]) == p.1 + Flatten([]);
  }

  /** One entry per category, in order, named after it and at most `n` long. */
  lemma {:induction false} MergeNamesBounded(cats: seq<CategorySpec>, lists: seq<seq<Article>>, n: nat, c: nat)
    requires |lists| == |cats| && c <= |cats|
    ensures var res := Merge(cats, lists, n, c).0;
      |res| == c && forall k :: 0 <= k < c ==> res[k].0 == cats[k].name && |res[k].1| <= n
  {
    if c > 0 {
      MergeNamesBounded(cats, lists, n, c - 1);
    }
  }

  /** Each category's list is an order-preserving subsequence of its candidate list. */
  lemma {:induction false} MergeSubsequence(cats: seq<CategorySpec>, lists: seq<seq<Article>>, n: nat, c: nat)
    requires |lists| == |cats| && c <= |cats|
    ensures var res := Merge(cats, lists, n, c).0;
      |res| == c && forall k :: 0 <= k < c ==> IsSubsequence(res[k].1, lists[k])
  {
    if c > 0 {
      MergeSubsequence(cats, lists, n, c - 1);
      var seen := Merge(cats, lists, n, c - 1).1;
      var kept := Select(lists[c - 1], 0, n, seen, []).0;
      SelectSubsequence(lists[c - 1], 0, n, seen, []);
      SubsequencePrefix(kept, lists[c - 1], |Take(kept, n)|);
    }
  }

  /**
   * No two kept articles across all categories share a non-empty url or a
   * non-empty title, and every such key is in the used sets the run ends with.
   */
  lemma {:induction false} MergeUnique(cats: seq<CategorySpec>, lists: seq<seq<Article>>, n: nat, c: nat)
    requires |lists| == |cats| && c <= |cats|
    ensures var (res, seen) := Merge(cats, lists, n, c);
      Unique(AllKept(res)) && Recorded(AllKept(res), seen)
  {
    if c > 0 {
      MergeUnique(cats, lists, n, c - 1);
      var (res, seen) := Merge(cats, lists, n, c - 1);
      var cands := lists[c - 1];
      var (kept, seen') := Select(cands, 0, n, seen, []);
      var prior := AllKept(res);
      assert prior + [] == prior;
      SelectUnique(prior, cands, 0, n, seen, []);
      var t := Take(kept, n);
      assert prior + t == (prior + kept)[..|prior| + |t|];
      UniquePrefix(prior + kept, seen', |prior| + |t|);
      AllKeptSnoc(res, (cats[c - 1].name, t));
    }
  }

  /**
   * The shape of the whole run: one entry per category in order, each at most
   * `n` long and an order-preserving subsequence of that category's candidates.
   */
  lemma CategorizedShape(cats: seq<CategorySpec>, n: nat, net: Network)
    ensures var res := Categorized(cats, n, net).0;
      |res| == |cats|
      && forall k :: 0 <= k < |res| ==>
           res[k].0 == cats[k].name && |res[k].1| <= n
           && IsSubsequence(res[k].1, Candidates(cats[k].keywords, n, net))
  {
    var lists := CandidateLists(cats, n, net);
    MergeNamesBounded(cats, lists, n, |cats|);
    MergeSubsequence(cats, lists, n, |cats|);
  }

  /** Categories from a dictionary give a result with one entry per name, as `result[category_name] = ...` does. */
  lemma CategorizedDistinctNames(cats: seq<CategorySpec>, n: nat, net: Network)
    requires DistinctNames(cats)
    ensures var res := Categorized(cats, n, net).0;
      forall i, j :: 0 <= i < j < |res| ==> res[i].0 != res[j].0
  {
    CategorizedShape(cats, n, net);
  }

  /** The whole run keeps no two articles with a shared non-empty key, and records every key it kept. */
  lemma CategorizedUnique(cats: seq<CategorySpec>, n: nat, net: Network)
    ensures var (res, seen) := Categorized(cats, n, net);
      Unique(AllKept(res)) && Recorded(AllKept(res), seen)
  {
    MergeUnique(cats, CandidateLists(cats, n, net), n, |cats|);
  }

  /** The non-empty urls of `s`. */
  ghost function UrlKeys(s: seq<Article>): set<string> {
    set a | a in s && UrlKey(a) != "" :: UrlKey(a)
  }

  /** The non-empty titles of `s`. */
  ghost function TitleKeys(s: seq<Article>): set<string> {
    set a | a in s && TitleKey(a) != "" :: TitleKey(a)
  }

  lemma KeysAppend(s: seq<Article>, t: seq<Article>)
    ensures UrlKeys(s + t) == UrlKeys(s) + UrlKeys(t)
    ensures TitleKeys(s + t) == TitleKeys(s) + TitleKeys(t)
  {
    assert forall a :: a in s + t <==> a in s || a in t;
  }

  /** Keeping `a` adds exactly its non-empty keys. */
  lemma RememberKeys(base: Seen, kept: seq<Article>, a: Article)
    ensures Remember(Seen(base.urls + UrlKeys(kept), base.titles + TitleKeys(kept)), a)
         == Seen(base.urls + UrlKeys(kept + [a]), base.titles + TitleKeys(kept + [a]))
  {
    KeysAppend(kept, [a]);
    assert UrlKeys([a]) == if UrlKey(a) != "" then {UrlKey(a)} else {};
    assert TitleKeys([a]) == if TitleKey(a) != "" then {TitleKey(a)} else {};
  }

  /**
   * The used sets a pass leaves behind are exactly the sets it started from plus
   * the non-empty keys of the articles it kept: nothing else is recorded.
   */
  lemma {:induction false} SelectSeenExact(cands: seq<Article>, i: nat, n: nat, base: Seen, kept: seq<Article>)
    requires i <= |cands|
    ensures var (k', s') := Select(cands, i, n, Seen(base.urls + UrlKeys(kept), base.titles + TitleKeys(kept)), kept);
      s' == Seen(base.urls + UrlKeys(k'), base.titles + TitleKeys(k'))
    decreases |cands| - i
  {
    if i < |cands| {
      var seen := Seen(base.urls + UrlKeys(kept), base.titles + TitleKeys(kept));
      var a := cands[i];
      if !Admits(seen, a) {
        SelectSeenExact(cands, i + 1, n, base, kept);
      } else {
        RememberKeys(base, kept, a);
        if |kept + [a]| < n {
          SelectSeenExact(cands, i + 1, n, base, kept + [a]);
        }
      }
    }
  }

  /** A pass that starts below `n` kept articles ends with at most `n`. */
  lemma {:induction false} SelectAtMost(cands: seq<Article>, i: nat, n: nat, seen: Seen, kept: seq<Article>)
    requires i <= |cands| && |kept| < n
    ensures |Select(cands, i, n, seen, kept).0| <= n
    decreases |cands| - i
  {
    if i < |cands| {
      var a := cands[i];
      if !Admits(seen, a) {
        SelectAtMost(cands, i + 1, n, seen, kept);
      } else if |kept + [a]| < n {
        SelectAtMost(cands, i + 1, n, Remember(seen, a), kept + [a]);
      }
    }
  }

  /**
   * With `n >= 1` the used sets after the first `c` categories are exactly the
   * non-empty urls and titles of the articles in the result mapping.
   */
  lemma {:induction false} MergeSeenExact(cats: seq<CategorySpec>, lists: seq<seq<Article>>, n: nat, c: nat)
    requires |lists| == |cats| && c <= |cats| && n >= 1
    ensures var (res, seen) := Merge(cats, lists, n, c);
      seen == Seen(UrlKeys(AllKept(res)), TitleKeys(AllKept(res)))
  {
    if c == 0 {
      assert AllKept([]) == [];
    } else {
      MergeSeenExact(cats, lists, n, c - 1);
      var (res, seen) := Merge(cats, lists, n, c - 1);
      var prior := AllKept(res);
      var cands := lists[c - 1];
      var base := Seen({}, {});
      assert UrlKeys([]) == {} && TitleKeys([]) == {};
      assert seen == Seen(base.urls + UrlKeys(prior), base.titles + TitleKeys(prior));
      var kept := Select(cands, 0, n, seen, []).0;
      var seen0 := Seen(seen.urls + UrlKeys([]), seen.titles + TitleKeys([]));
      assert seen0 == seen;
      SelectSeenExact(cands, 0, n, seen, []);
      SelectAtMost(cands, 0, n, seen, []);
      assert Take(kept, n) == kept;
      AllKeptSnoc(res, (cats[c - 1].name, kept));
      KeysAppend(prior, kept);
    }
  }

  /** With `n >= 1` the run's final used sets are exactly the keys of the articles it returns. */
  lemma CategorizedSeenExact(cats: seq<CategorySpec>, n: nat, net: Network)
    requires n >= 1
    ensures var (res, seen) := Categorized(cats, n, net);
      seen == Seen(UrlKeys(AllKept(res)), TitleKeys(AllKept(res)))
  {
    MergeSeenExact(cats, CandidateLists(cats, n, net), n, |cats|);
  }

  /** Each category's list never exceeds the requested count. */
  lemma CategoryBounded(cats: seq<CategorySpec>, n: nat, net: Network, k: nat)
    requires k < |cats|
    ensures |Categorized(cats, n, net).0| == |cats|
    ensures |Categorized(cats, n, net).0[k].1| <= n
  {
    CategorizedShape(cats, n, net);
  }

  /** No two articles of the whole result share a non-empty url or a non-empty title. */
  lemma CrossCategoryUnique(cats: seq<CategorySpec>, n: nat, net: Network, i: nat, j: nat)
    requires i < j < |AllKept(Categorized(cats, n, net).0)|
    ensures var all := AllKept(Categorized(cats, n, net).0);
      (UrlKey(all[i]) != "" ==> UrlKey(all[i]) != UrlKey(all[j]))
      && (TitleKey(all[i]) != "" ==> TitleKey(all[i]) != TitleKey(all[j]))
  {
    CategorizedUnique(cats, n, net);
  }

  /** The deduplication pass without the early stop: every admitted candidate is kept. */
  function DedupAll(cands: seq<Article>, i: nat, seen: Seen): seq<Article>
    requires i <= |cands|
    decreases |cands| - i
  {
    if i == |cands| then []
    else if !Admits(seen, cands[i]) then DedupAll(cands, i + 1, seen)
    else [cands[i]] + DedupAll(cands, i + 1, Remember(seen, cands[i]))
  }

  /**
   * Stopping once `n` are kept yields exactly the first `n` articles of a full
   * greedy pass: a candidate is kept iff neither key was used and fewer than `n`
   * have been kept.
   */
  lemma {:induction false} EarlyStopIsTruncation(cands: seq<Article>, i: nat, n: nat, seen: Seen, kept: seq<Article>)
    requires i <= |cands|
    requires |kept| < n
    ensures Select(cands, i, n, seen, kept).0 == Take(kept + DedupAll(cands, i, seen), n)
    decreases |cands| - i
  {
    if i == |cands| {
      assert kept + [] == kept;
    } else {
      var a := cands[i];
      if !Admits(seen, a) {
        EarlyStopIsTruncation(cands, i + 1, n, seen, kept);
      } else {
        var kept' := kept + [a];
        var rest := DedupAll(cands, i + 1, Remember(seen, a));
        assert kept + DedupAll(cands, i, seen) == kept' + rest;
        if |kept'| >= n {
          assert (kept' + rest)[..n] == kept';
        } else {
          EarlyStopIsTruncation(cands, i + 1, n, Remember(seen, a), kept');
        }
      }
    }
  }

  /**
   * The candidates are the three feeds in order, followed by the NewsAPI result
   * only when the feeds gave fewer than `2 * n`; otherwise the NewsAPI endpoint
   * has no influence on them at all.
   */
  lemma CandidatesShape(keywords: seq<string>, n: nat, net: Network, other: NewsApi)
    ensures var rss := RssCollect(keywords, n, net.naver, NaverArticle) + RssCollect(keywords, n, net.daum, DaumArticle)
                       + RssCollect(keywords, n, net.google, GoogleArticle);
      (|rss| < 2 * n ==> Candidates(keywords, n, net) == rss + FetchNewsByKeywords(keywords, "ko", n, net.newsApi))
      && (|rss| >= 2 * n ==> Candidates(keywords, n, net) == rss == Candidates(keywords, n, net.(newsApi := other)))
  {
  }
}

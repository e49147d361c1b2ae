# discord_newsbot news core, modelled in Dafny

This project models the two sequential parts of the news bot's daily briefing.

`news/fetcher.py` gathers news per category:
- Each category's candidates come from three syndication feeds (Naver, Daum, Google) in that order.
- NewsAPI supplements them only when the feeds gave fewer than `2 * n`.
- One greedy pass then keeps at most `n` candidates per category.
- The pass is checked against two used sets, one for urls and one for titles. Both sets are shared by every category of the run.

`news/summarizer.py` turns the result into chat messages:
- Each category becomes one text block.
- A block longer than 1900 characters is cut into line-aligned parts.
- The messages are framed by a fixed header and a fixed footer.
- Each article's summary is the cleaned, truncated description (`_summarize_basic`).

The model is split into modules:
- `Fetcher` and `FetcherProperties` cover the fetcher.
- `Cleanup`, `Splitter` and `Report` cover the summarizer.
- `NewsModel` and `TextUtil` hold the shared records and string helpers.

Everything outside the program is a parameter:
- **Feeds.** Each feed is a function from a keyword to `Option<seq<FeedEntry>>`. `None` means `feedparser`/the request raised.
- **NewsAPI.** It is a function from the request (query, language, page size) to a response. The response is either a transport failure or the decoded `status` and `articles`.
- **HTML parser.** BeautifulSoup's text extraction is `getText: string -> string`.
- **Summarizer.** The summary shown for each entry is `summarize: Article -> string`. `BasicSummaries` supplies the `_summarize_basic` one.

A split message's parts concatenate to the message plus one trailing newline, not to the message itself, because every packed line is followed by `'\n'`, the last one included (`news/summarizer.py:142-154`). `Splitter.SplitRoundTrip` states that. The packing is greedy: a part is closed only when the next line and its newline would overflow it, and `Splitter.SplitGreedy` states that.

Each imperative routine is a method proved against a specification function on its inputs; the properties are lemmas about those functions:

| routine | method | specification function |
|---|---|---|
| `fetch_categorized_news` | `FetchCategorizedNews` | `Categorized` |
| feed adapters | `CollectRss` | `RssCollect` |
| `_split_message` | `SplitMessage` | `SplitParts` |
| `create_news_summary` | `CreateNewsSummary` | `NewsSummary` |
| `create_daily_news_report` | `CreateDailyNewsReport` | `DailyReport` |

## Model

| member | source | states |
|---|---|---|
| Fetcher.FetchNewsByKeywords | news/fetcher.py:44-57 | the articles list (or `[]` when the key is absent) exactly when the decoded status is `'ok'`; `[]` for any other status; `[]` when the request fails |
| Fetcher.FormatArticle | news/fetcher.py:283-293 | every key falls back to its default (`'제목 없음'`, `''`, `'출처 불명'`); the source is the nested record's `name`; it fails exactly when the source is a plain string |
| Fetcher.FeedArticlesNotFormattable | news/fetcher.py:171 | no article built by a feed adapter can be formatted, since its source is a plain label |
| Fetcher.HasUrl | news/fetcher.py:178 | true exactly when some collected article has that url, the empty one included |
| Fetcher.CollectRss | news/fetcher.py:153-193 | the shared collection loop returns exactly `RssCollect` (first three keywords, at most `limit` entries each, url-duplicate skip, early stop, exception skip, final slice) |
| Fetcher.NaverArticle | news/fetcher.py:167-175 | definition of the Naver entry conversion: title (or `'제목 없음'`), `description`, `link`, the label `'네이버 뉴스'`, `published`, and empty author and image |
| Fetcher.DaumArticle | news/fetcher.py:211-219 | definition of the Daum entry conversion, the same record with the label `'다음 뉴스'` |
| Fetcher.GoogleArticle | news/fetcher.py:255-263 | definition of the Google entry conversion: `summary` as the description and `source.title` (or `'구글 뉴스'`) as the label |
| Fetcher.FetchNaverRssNews | news/fetcher.py:151-193 | the Naver adapter is the shared loop with the Naver entry conversion |
| Fetcher.FetchDaumRssNews | news/fetcher.py:195-237 | the Daum adapter is the shared loop with the Daum entry conversion |
| Fetcher.FetchGoogleRssNews | news/fetcher.py:239-281 | the Google adapter is the shared loop with the Google conversion (`summary` as description, the entry's source title or `'구글 뉴스'`) |
| Fetcher.CollectEntriesPrefix | news/fetcher.py:166-182 | the entry loop only appends: everything collected before stays in place |
| Fetcher.CollectEntriesDistinct | news/fetcher.py:177-179 | the entry loop never collects one url twice |
| Fetcher.CollectEntriesFrom | news/fetcher.py:166-179 | every appended article is the conversion of one of the remaining entries |
| Fetcher.CollectKeywordsSound | news/fetcher.py:156-191 | the keyword loop keeps what it had, its urls stay distinct, and each new article comes from the first `limit` entries of one of the remaining keywords |
| Fetcher.UrlDedup | news/fetcher.py:177-179 | definition of the reference: each article appended unless its url is already present, with no limit and no keyword structure; its properties are UrlDedupPrefix, UrlDedupAppend and UrlDedupComplete |
| Fetcher.UrlDedupPrefix | news/fetcher.py:177-179 | deduplication only appends: what was there stays in place |
| Fetcher.UrlDedupAppend | news/fetcher.py:156-179 | deduplicating two lists in a row is deduplicating their concatenation |
| Fetcher.UrlDedupComplete | news/fetcher.py:177-179 | after deduplication the url of every input article is present: an article is left out only when its url already was |
| Fetcher.CollectEntriesDedup | news/fetcher.py:166-182 | the entry loop's result is a prefix of the full deduplication of the remaining entries, and all of it unless the limit stopped the loop |
| Fetcher.CollectKeywordsDedup | news/fetcher.py:156-191 | the keyword loop's result is a prefix of the full deduplication of all remaining keywords' entries, and all of it unless the limit stopped the loop |
| Fetcher.RssCollectDedup | news/fetcher.py:153-193 | an adapter returns exactly the first `limit` articles of the url deduplication of the first `limit` entries of each of `keywords[:3]` in order, a raising keyword contributing none |
| Fetcher.RssCollectComplete | news/fetcher.py:177-182 | an adapter that returns fewer than `limit` articles has the url of every article it searched |
| Fetcher.RssCollectSound | news/fetcher.py:156-193 | an adapter returns at most `limit` articles with pairwise distinct urls (so at most one empty url), each from the first `limit` entries of one of `keywords[:3]` |
| Fetcher.CollectKeywordsZeroLimit | news/fetcher.py:166-193 | with `limit` 0 nothing is collected, whatever the feed answers |
| Fetcher.CollectKeywordsFailure | news/fetcher.py:189-191 | from a state below the limit, a raising keyword has the same effect as a keyword with no entries |
| Fetcher.FailingKeywordContributesNothing | news/fetcher.py:189-191 | an adapter whose feed raises for one keyword returns what it returns when that keyword has no entries: it contributes nothing and collection continues |
| Fetcher.CategorizedStep | news/fetcher.py:99-146 | one more category extends the mapping by its name and the first `n` survivors of its own deduplication pass against the shared sets |
| Fetcher.GatherCandidates | news/fetcher.py:102-120 | the candidates are naver + daum + google, then the NewsAPI result only if they number fewer than `2 * n` |
| Fetcher.Deduplicate | news/fetcher.py:122-144 | the loop returns the kept list and the new used sets of the greedy pass `Select` |
| Fetcher.FetchCategory | news/fetcher.py:99-147 | one pass of the category loop turns the state after `c` categories into the state after `c + 1` |
| Fetcher.FetchCategorizedNews | news/fetcher.py:93-149 | for categories with distinct names (they are the configuration dictionary's keys) the method returns exactly the mapping `Categorized`, with the used sets created once before the category loop |
| FetcherProperties.SubsequenceExtend | news/fetcher.py:123-146 | helper for the per-category slice and the appends of the dedup loop: a subsequence of a list is a subsequence of any extension of it |
| FetcherProperties.SubsequencePrefix | news/fetcher.py:146 | helper for the slice `[:news_per_category]`: a prefix of a subsequence is a subsequence |
| FetcherProperties.EmptyKeysIgnored | news/fetcher.py:128-140 | an empty url or title is never recorded and never causes a rejection; a candidate is admitted exactly when neither of its non-empty keys is used |
| FetcherProperties.SelectUnique | news/fetcher.py:123-144 | the pass keeps no key twice, given what was kept before, and records every key it kept; the used sets only grow |
| FetcherProperties.SelectSubsequence | news/fetcher.py:123-144 | the pass keeps an order-preserving subsequence of its candidates |
| FetcherProperties.UniquePrefix | news/fetcher.py:146 | helper for the slice `[:news_per_category]`: slicing keeps uniqueness and recording |
| FetcherProperties.AllKeptSnoc | news/fetcher.py:146 | helper for the assignment `result[category_name] = ...`: adding a category appends its articles to the run's articles |
| FetcherProperties.MergeNamesBounded | news/fetcher.py:99-146 | one entry per category, in iteration order, named after it, at most `n` long |
| FetcherProperties.MergeSubsequence | news/fetcher.py:122-146 | each category's list is an order-preserving subsequence of its candidate list |
| FetcherProperties.MergeUnique | news/fetcher.py:96-97 | across all categories no two kept articles share a non-empty url or a non-empty title, and the final sets hold every kept key |
| FetcherProperties.CategorizedShape | news/fetcher.py:93-149 | the run yields one entry per category, each at most `n` long and a subsequence of `Candidates` for that category |
| FetcherProperties.CategorizedUnique | news/fetcher.py:96-97 | the run's articles share no non-empty key, and the final sets record them all |
| FetcherProperties.KeysAppend | news/fetcher.py:136-139 | the non-empty urls, and the non-empty titles, of two lists joined are those of each list together |
| FetcherProperties.RememberKeys | news/fetcher.py:136-139 | keeping an article adds exactly its non-empty url and its non-empty title to the used sets |
| FetcherProperties.SelectSeenExact | news/fetcher.py:123-144 | the sets a pass leaves behind are the sets it started from plus exactly the non-empty keys of the articles it kept |
| FetcherProperties.SelectAtMost | news/fetcher.py:142-144 | a pass that starts with fewer than `n` kept articles ends with at most `n` |
| FetcherProperties.MergeSeenExact | news/fetcher.py:94-145 | for `n >= 1`, the used sets after any number of categories are exactly the non-empty urls and titles of the articles in the result so far |
| FetcherProperties.CategorizedSeenExact | news/fetcher.py:94-148 | for `n >= 1`, the run's final used sets are exactly the non-empty keys of the articles it returns |
| FetcherProperties.CategorizedDistinctNames | news/fetcher.py:99-146 | categories with distinct names, as dictionary keys are, give a result with one entry per name |
| FetcherProperties.CategoryBounded | news/fetcher.py:143-146 | every category's list has length at most `news_per_category` |
| FetcherProperties.CrossCategoryUnique | news/fetcher.py:96-97 | any two distinct positions of the whole result differ in url and in title wherever these are non-empty |
| FetcherProperties.EarlyStopIsTruncation | news/fetcher.py:123-144 | stopping once `n` are kept gives the first `n` of a full greedy pass: kept iff admitted and fewer than `n` kept |
| FetcherProperties.CandidatesShape | news/fetcher.py:116-120 | the candidates are the three feeds plus NewsAPI when those number fewer than `2 * n`, and exactly the three feeds (whatever NewsAPI would answer) otherwise |
| Cleanup.LStrip | news/summarizer.py:46 | `lstrip`: a suffix, everything removed is whitespace, and the result does not start with whitespace |
| Cleanup.RStrip | news/summarizer.py:46 | `rstrip`: a prefix, everything removed is whitespace, and the result does not end with whitespace |
| Cleanup.Strip | news/summarizer.py:46 | `strip`: the result is a slice of the text with only whitespace before and after it, and it neither starts nor ends with whitespace, so exactly the edge whitespace is removed |
| Cleanup.Collapse | news/summarizer.py:43 | definition of `re.sub(r'\s+', ' ', ...)`; its properties are CollapseShape, CollapseNonSpace, CollapseWords and CollapseEnd |
| Cleanup.CollapseShape | news/summarizer.py:43 | after `re.sub(r'\s+', ' ', ...)` all whitespace is single spaces, no two whitespace characters are adjacent, and a leading space stays exactly when there was leading whitespace |
| Cleanup.CollapseNonSpace | news/summarizer.py:43 | collapsing keeps the non-whitespace characters, in order |
| Cleanup.CollapseWords | news/summarizer.py:43 | collapsing keeps the words (the maximal non-whitespace runs that `split()` yields): none is split, joined or lost |
| Cleanup.CollapseEnd | news/summarizer.py:43 | the collapsed text ends with a space exactly when the input ends with whitespace |
| Cleanup.CollapseFixpoint | news/summarizer.py:43 | text already of that shape is unchanged |
| Cleanup.CollapseIdempotent | news/summarizer.py:43 | collapsing twice equals collapsing once |
| Cleanup.TokenLength | news/summarizer.py:46 | the length of the leading non-whitespace run |
| Cleanup.RemoveLongTokens | news/summarizer.py:46 | definition of `re.sub(r'\S{50,}', '', ...)`; its properties are RemoveLongTokensClean, RemoveLongTokensWords, RemoveLongTokensWhitespace and RemoveLongTokensKeeps |
| Cleanup.RemoveLongTokensFront | news/summarizer.py:46 | leading whitespace survives the removal |
| Cleanup.RemoveLongTokensClean | news/summarizer.py:46 | after `re.sub(r'\S{50,}', '', ...)` no 50 consecutive characters are free of whitespace |
| Cleanup.LongRunIsLongToken | news/summarizer.py:46 | a leading run of 50 or more non-whitespace characters violates the no-long-run condition |
| Cleanup.RemoveLongTokensKeeps | news/summarizer.py:46 | text without such a run is unchanged |
| Cleanup.RemoveLongTokensWords | news/summarizer.py:46 | the words of the result are exactly the words of the input shorter than 50 characters, in order |
| Cleanup.RemoveLongTokensWhitespace | news/summarizer.py:46 | every whitespace character of the input survives, in order |
| Cleanup.CleanDescription | news/summarizer.py:37-46 | definition of the cleanup chain (parse, collapse, remove long runs, strip), skipped for an empty description; its properties are CleanDescriptionNoLongToken, CleanNoNewline and CleanFixpoint |
| Cleanup.CleanDescriptionNoLongToken | news/summarizer.py:37-46 | the cleaned text has no run of 50 or more non-whitespace characters and no edge whitespace |
| Cleanup.CleanFixpoint | news/summarizer.py:37-46 | already clean text passes the cleanup chain unchanged |
| Cleanup.Truncate | news/summarizer.py:48-53 | `'요약 정보 없음'` when the cleaned text is empty; the cleaned text when it fits `max_length`; otherwise its first `max_length` characters plus `'...'`; never empty and never longer than `max_length + 3` unless it is the placeholder |
| Cleanup.SummarizeBasic | news/summarizer.py:32-53 | definition of `_summarize_basic`: the cleanup of the description (`''` when absent), then Truncate; its properties are Truncate and SummaryOneLine |
| Cleanup.TruncateOneLine | news/summarizer.py:48-53 | truncating a single line gives a single line |
| Cleanup.CleanNoNewline | news/summarizer.py:43-46 | the cleanup chain leaves no newline |
| Cleanup.SummaryOneLine | news/summarizer.py:32-53 | `_summarize_basic`, the cleanup followed by the truncation, returns text without a newline |
| Splitter.SplitMessage | news/summarizer.py:136-156 | the loop returns exactly `SplitParts`: `[m]` when it fits, else the greedy packing of `m.split('\n')` |
| Splitter.PackConcat | news/summarizer.py:145-154 | the packed parts concatenate to the lines, each followed by a newline |
| Splitter.PackShape | news/summarizer.py:145-154 | every packed part is non-empty and ends with a newline; a part over the limit is exactly one line |
| Splitter.SplitRoundTrip | news/summarizer.py:138-154 | a fitting message comes back as `[m]`; a longer one as parts whose concatenation is `m + "\n"` |
| Splitter.SplitPartsShape | news/summarizer.py:141-154 | a long message gives at least one part; each is non-empty, newline-terminated, and within the limit unless it is a single line |
| Splitter.GreedyCons | news/summarizer.py:145-151 | putting a part before a greedy packing keeps it greedy when the flush between them was forced |
| Splitter.LineStartsPart | news/summarizer.py:148-151 | a part followed by one that starts with a line too long to join it was flushed by force |
| Splitter.PackGreedy | news/summarizer.py:145-154 | every packed part but the last was closed only because the next line and its newline would exceed the limit; the part being built starts the first emitted part |
| Splitter.SplitGreedy | news/summarizer.py:138-154 | a long message's parts are packed greedily: each part but the last is followed by a part whose first line would not have fit in it |
| Report.BasicSummaryOneLine | news/summarizer.py:91 | a basic summary is a non-empty single line |
| Report.CreateNewsSummary | news/summarizer.py:79-104 | the loop returns exactly `NewsSummary`: the fixed no-news text for no articles, otherwise the `TOP n` header, the entries, and the closing rule |
| Report.RenderedEntries | news/summarizer.py:87-100 | the rendering loop writes the header and then the entries one after another |
| Report.NewsSummaryEntries | news/summarizer.py:84-102 | a non-empty block is the header announcing `TOP len(articles)`, all entries numbered 1 to `len(articles)` in order, then the rule |
| Report.EntryLines | news/summarizer.py:93-100 | when the title, summary, source text and url contain no newline, the entry split at newlines reads: numbered title, `📌` summary, `🔗 출처:` source, the `링크:` line exactly when the url is non-empty, then a blank line |
| Report.CreateDailyNewsReport | news/summarizer.py:106-134 | the loop returns exactly `DailyReport`: the header, then for each category its block if it is at most 1900 long, else its `_split_message(..., 1900)` parts, then the footer |
| Report.AppendCategory | news/summarizer.py:117-127 | one pass of the category loop turns the header and the messages of the first `c` categories into those of the first `c + 1`: the block whole if it is at most 1900 long, else its split parts |
| Report.BlockMessagesShape | news/summarizer.py:122-127 | a block is sent as at least one message, each within 1900 or a single line |
| Report.MessagesOfPrefix | news/summarizer.py:114-127 | the messages start with the header, and each block adds at least one message |
| Report.MessagesOfBounded | news/summarizer.py:116-127 | every message after the header is within 1900 or a single line |
| Report.MessagesOfText | news/summarizer.py:116-127 | the messages concatenate to the header and every block in order, a split block gaining one newline |
| Report.ReportShape | news/summarizer.py:109-134 | header first, footer last, at least one message per block between them, every message sendable, and no text lost or reordered |
| Report.DailyReportShape | news/summarizer.py:106-134 | the daily report has that shape over the categories' blocks in mapping order |
| TextUtil.Lines | news/summarizer.py:142 | `split('\n')` gives one more piece than there are newlines, no piece contains a newline, and joining the pieces with newlines restores the text |
| TextUtil.NatToString | news/summarizer.py:84 | the decimal text of a count: digits only, no leading zero |
| TextUtil.NatToStringRoundTrip | news/summarizer.py:84 | reading the printed number back gives the number |

## Left out

- `bot.py`, `utils/scheduler.py` and `config.py` are not part of this model. They are the chat client, the scheduler wrapper and environment reading.
- `fetch_top_headlines` (news/fetcher.py:59-91) is not part of this model: nothing in the modelled core calls it.
- Network access, `feedparser.parse`, `quote` and the request URLs are represented by the feed and NewsAPI parameters. `datetime.now()` (the `from` date) and the API key are not passed to them.
- Each feed is a function, so one keyword always gets the same answer within a run. Time-varying responses are not modelled.
- Logging is left out.
- BeautifulSoup's `get_text(separator=' ', strip=True)` is the parameter `getText`. Whitespace (`\s`) is the fixed set of characters Python's `str.isspace()` accepts.
- The OpenAI path (`_summarize_with_openai`) and the branch of `summarize_article` that takes it are the abstract `summarize` parameter. That path ignores `max_length`, and its error fallback uses the default 200 (news/summarizer.py:28, 77).
- Article dictionaries are records whose fields may be absent. A present key holding JSON `null` or a non-string value is not modelled. A NewsAPI `source` dictionary is printed by `create_news_summary` as Python's text for it; that text is the field `shown`, not derived.
- Titles and urls are strings in the model. A hashable non-string value (a number, say) would simply be added to the used sets; an unhashable one (a list or a dictionary) makes `url in used_urls` or `title in used_titles` raise `TypeError` (news/fetcher.py:128-132). Neither is modelled.
- `news_per_category` and `limit` are natural numbers. The negative slices Python would accept are not modelled.
- An exception raised inside the dedup loop or the rendering loops aborts the whole call in the program. The model has no such exceptions, since every lookup has a default.
- `NewsFetcher` and `NewsSummarizer` hold only configuration that is never changed after construction, so the model has no classes. Their methods are module-level functions and methods.
- FetcherProperties.MergeSeenExact: stated for `n >= 1` only. With `n == 0` each category's pass still keeps and records its first admitted article (news/fetcher.py:135-144), and `unique_articles[:0]` then drops it (news/fetcher.py:145), so the sets hold keys of no returned article.
- FetcherProperties.CategorizedSeenExact: stated for `n >= 1` only, for the same reason as FetcherProperties.MergeSeenExact.
- Fetcher.FetchNewsByKeywords: the `except Exception` branch after the response is decoded, such as a body that is not a dictionary, is folded into the request-failure case.


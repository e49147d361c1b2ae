/**
 * The report of `news/summarizer.py`: one block of text per category
 * (`create_news_summary`) and the ordered list of chat messages of a daily
 * briefing (`create_daily_news_report`), where a block over the size cap is
 * sent as the parts `_split_message` cuts it into.
 *
 * Each entry's summary comes from `summarize`, standing for
 * `summarize_article(article, max_length=150)`; without an OpenAI key that is
 * `_summarize_basic`, which `BasicSummaries` provides.
 */
module Report {
  import opened Wrappers
  import opened TextUtil
  import opened NewsModel
  import opened Cleanup
  import opened Splitter

  /** Blocks longer than this are split (the chat service accepts 2000). */
  const SizeCap: nat := 1900
  /** The `max_length` each entry's summary is cut to. */
  const SummaryLength: nat := 150
  const DefaultEmoji: string := "📰"
  /** `'─' * 40`, the rule above and below a category's entries. */
  const Rule: string := Repeat('─', 40)
  const Header: string := "📰 **오늘의 뉴스 브리핑** 📰\n" + Repeat('=', 40) + "\n\n"
  const Footer: string := "\n" + Repeat('=', 40) + "\n" + "📅 매일 아침 최신 뉴스를 전달해드립니다!"

  /** The summary text an entry shows for an article. */
  type Summarizer = Article -> string

  /** `summarize_article(article, max_length=150)` on a summarizer without OpenAI, the `_summarize_basic` path. */
  function BasicSummaries(getText: string -> string): (f: Summarizer)
    ensures forall a :: f(a) == SummarizeBasic(a, SummaryLength, getText)
  {
    a => SummarizeBasic(a, SummaryLength, getText)
  }

  /** Basic summaries are single lines that are never empty. */
  lemma BasicSummaryOneLine(getText: string -> string, a: Article)
    ensures var m := BasicSummaries(getText)(a); '\n' !in m && m != ""
  {
    SummaryOneLine(a, SummaryLength, getText);
  }

  // ---------------------------------------------------------------------------
  // One category block (`create_news_summary`)
  // ---------------------------------------------------------------------------

  /** `article.get('title', '제목 없음')`. */
  function ArticleTitle(a: Article): string {
    a.title.GetOr(NoTitle)
  }

  /** What `f"{source}"` prints for `article.get('source', '출처 불명')`. */
  function SourceText(a: Article): string {
    match a.source
    case None => UnknownSource
    case Some(SourceLabel(text)) => text
    case Some(SourceRecord(_, shown)) => shown
  }

  /** The line naming the article, numbered from one. */
  function TitleLine(idx: nat, a: Article): string {
    "**" + NatToString(idx) + ". " + ArticleTitle(a) + "**"
  }

  function SummaryLine(a: Article, summarize: Summarizer): string {
    "📌 " + summarize(a)
  }

  function SourceLine(a: Article): string {
    "🔗 출처: " + SourceText(a)
  }

  function LinkLine(a: Article): string {
    "링크: <" + UrlKey(a) + ">"
  }

  /** The link line and its newline, written only for a non-empty address. */
  function LinkText(a: Article): string {
    if UrlKey(a) != "" then LinkLine(a) + "\n" else ""
  }

  /** The text of entry `idx`: title, summary, source and link lines, then a blank line. */
  function Entry(idx: nat, a: Article, summarize: Summarizer): string {
    TitleLine(idx, a) + "\n" + (SummaryLine(a, summarize) + "\n" + (SourceLine(a) + "\n" + (LinkText(a) + "\n")))
  }

  /** The entries of `articles`, numbered from one in input order. */
  function Entries(articles: seq<Article>, summarize: Summarizer): (r: seq<string>)
    ensures |r| == |articles|
    ensures forall i :: 0 <= i < |articles| ==> r[i] == Entry(i + 1, articles[i], summarize)
  {
    seq(|articles|, i requires 0 <= i < |articles| => Entry(i + 1, articles[i], summarize))
  }

  /** `prefix` followed by the first `n` entries, as the rendering loop appends them. */
  function Rendered(prefix: string, entries: seq<string>, n: nat): string
    requires n <= |entries|
  {
    if n == 0 then prefix else Rendered(prefix, entries, n - 1) + entries[n - 1]
  }

  function NoNewsBlock(name: string, emoji: string): string {
    emoji + " **" + name + " 뉴스**\n오늘은 " + name + " 관련 뉴스가 없습니다.\n"
  }

  function BlockHeader(name: string, emoji: string, count: nat): string {
    emoji + " **" + name + " 뉴스 TOP " + NatToString(count) + "**\n" + Rule + "\n\n"
  }

  /** The block `create_news_summary(name, articles, emoji)` returns. */
  function NewsSummary(name: string, articles: seq<Article>, emoji: string, summarize: Summarizer): string {
    if articles == [] then NoNewsBlock(name, emoji)
    else Rendered(BlockHeader(name, emoji, |articles|), Entries(articles, summarize), |articles|) + Rule + "\n\n"
  }

  method CreateNewsSummary(categoryName: string, articles: seq<Article>, emoji: string, summarize: Summarizer)
    returns (summary: string)
    ensures summary == NewsSummary(categoryName, articles, emoji, summarize)
  {
    if articles == [] {
      return emoji + " **" + categoryName + " 뉴스**\n오늘은 " + categoryName + " 관련 뉴스가 없습니다.\n";
    }
    summary := emoji + " **" + categoryName + " 뉴스 TOP " + NatToString(|articles|) + "**\n";
    summary := summary + Rule + "\n\n";
    ghost var entries := Entries(articles, summarize);
    for idx := 0 to |articles|
      invariant summary == Rendered(BlockHeader(categoryName, emoji, |articles|), entries, idx)
    {
      var article := articles[idx];
      var title := ArticleTitle(article);
      var url := UrlKey(article);
      var source := SourceText(article);
      var description := summarize(article);
      ghost var before := summary;
      summary := summary + ("**" + NatToString(idx + 1) + ". " + title + "**" + "\n");
      summary := summary + ("📌 " + description + "\n");
      summary := summary + ("🔗 출처: " + source + "\n");
      if url != "" {
        summary := summary + ("링크: <" + url + ">" + "\n");
      }
      summary := summary + "\n";
      assert summary == before + Entry(idx + 1, article, summarize) by {
        AppendEntry(before, TitleLine(idx + 1, article), SummaryLine(article, summarize), SourceLine(article), LinkText(article));
      }
      assert entries[idx] == Entry(idx + 1, article, summarize);
    }
    summary := summary + Rule + "\n\n";
  }

  /** Appending an entry piece by piece, as the rendering loop does, appends the entry. */
  lemma AppendEntry(x: string, t: string, m: string, s: string, l: string)
    ensures x + (t + "\n") + (m + "\n") + (s + "\n") + l + "\n" == x + (t + "\n" + (m + "\n" + (s + "\n" + (l + "\n"))))
  {
  }

  /** The rendering fold writes `prefix` and then the first `n` entries, one after another. */
  lemma {:induction false} RenderedEntries(prefix: string, entries: seq<string>, n: nat)
    requires n <= |entries|
    ensures Rendered(prefix, entries, n) == prefix + Flatten(entries[..n])
  {
    if n == 0 {
      assert entries[..0] == [];
    } else {
      RenderedEntries(prefix, entries, n - 1);
      FlattenSnoc(entries[..n - 1], entries[n - 1]);
      assert entries[..n] == entries[..n - 1] + [entries[n - 1]];
      ConcatAssoc(prefix, Flatten(entries[..n - 1]), entries[n - 1]);
    }
  }

  lemma FlattenSnoc(ss: seq<string>, e: string)
    ensures Flatten(ss + [e]) == Flatten(ss) + e
  {
    FlattenAppend(ss, [e]);
    assert Flatten([e]) == e + Flatten([]);
  }

  lemma ConcatAssoc(p: string, f: string, e: string)
    ensures p + (f + e) == p + f + e
  {
  }

  /**
   * A block with articles is the header announcing `TOP |articles|`, every
   * entry numbered 1 to `|articles|` in input order, and the closing rule.
   */
  lemma NewsSummaryEntries(name: string, articles: seq<Article>, emoji: string, summarize: Summarizer)
    requires articles != []
    ensures NewsSummary(name, articles, emoji, summarize)
      == BlockHeader(name, emoji, |articles|) + Flatten(Entries(articles, summarize)) + Rule + "\n\n"
  {
    var es := Entries(articles, summarize);
    RenderedEntries(BlockHeader(name, emoji, |articles|), es, |articles|);
    assert es[..|articles|] == es;
  }

  // ---------------------------------------------------------------------------
  // What an entry reads as
  // ---------------------------------------------------------------------------

  /**
   * Split at its newlines, an entry reads: the numbered title, the summary, the
   * source, the link when and only when the address is non-empty, and a blank
   * line. This holds whenever title, source, address and summary are single
   * lines, as a basic summary always is (`BasicSummaryOneLine`).
   */
  lemma EntryLines(idx: nat, a: Article, summarize: Summarizer)
    requires '\n' !in ArticleTitle(a) && '\n' !in SourceText(a) && '\n' !in UrlKey(a) && '\n' !in summarize(a)
    ensures var ls := Lines(Entry(idx, a, summarize));
      && |ls| == (if UrlKey(a) != "" then 6 else 5)
      && ls[0] == "**" + NatToString(idx) + ". " + ArticleTitle(a) + "**"
      && ls[1] == "📌 " + summarize(a)
      && ls[2] == "🔗 출처: " + SourceText(a)
      && (UrlKey(a) != "" ==> ls[3] == "링크: <" + UrlKey(a) + ">")
      && ls[|ls| - 2] == "" && ls[|ls| - 1] == ""
  {
    var t, m, s := TitleLine(idx, a), SummaryLine(a, summarize), SourceLine(a);
    var tail := LinkText(a) + "\n";
    assert '\n' !in t by {
      var n := NatToString(idx);
      assert forall i :: 0 <= i < |n| ==> n[i] != '\n';
    }
    TailLines(a);
    LinesCons(s, tail);
    LinesCons(m, s + "\n" + tail);
    LinesCons(t, m + "\n" + (s + "\n" + tail));
  }

  /** The link line, if any, and the blank line that close an entry. */
  lemma TailLines(a: Article)
    requires '\n' !in UrlKey(a)
    ensures Lines(LinkText(a) + "\n") == (if UrlKey(a) != "" then [LinkLine(a)] else []) + ["", ""]
  {
    assert Lines("\n") == ["", ""] by {
      assert "\n"[1..] == "";
    }
    if UrlKey(a) != "" {
      LinesCons(LinkLine(a), "\n");
    }
  }

  // ---------------------------------------------------------------------------
  // The daily report (`create_daily_news_report`)
  // ---------------------------------------------------------------------------

  /** `category_emojis.get(name, '📰')`. */
  function EmojiFor(emojis: map<string, string>, name: string): string {
    if name in emojis then emojis[name] else DefaultEmoji
  }

  function Block(category: (string, seq<Article>), emojis: map<string, string>, summarize: Summarizer): string {
    NewsSummary(category.0, category.1, EmojiFor(emojis, category.0), summarize)
  }

  /** The messages one block is sent as: itself, or its parts once it exceeds the cap. */
  function BlockMessages(block: string): seq<string> {
    if |block| > SizeCap then SplitParts(block, SizeCap) else [block]
  }

  /** The blocks of the categories, in mapping order. */
  function Blocks(cats: seq<(string, seq<Article>)>, emojis: map<string, string>, summarize: Summarizer)
    : (r: seq<string>)
    ensures |r| == |cats|
    ensures forall i :: 0 <= i < |cats| ==> r[i] == Block(cats[i], emojis, summarize)
  {
    seq(|cats|, i requires 0 <= i < |cats| => Block(cats[i], emojis, summarize))
  }

  /** `prefix` followed by the messages the first `n` blocks are sent as, block after block. */
  function MessagesOf(prefix: seq<string>, blocks: seq<string>, n: nat): seq<string>
    requires n <= |blocks|
  {
    if n == 0 then prefix else MessagesOf(prefix, blocks, n - 1) + BlockMessages(blocks[n - 1])
  }

  /** The header and the messages of the first `c` categories. */
  function ReportUpTo(cats: seq<(string, seq<Article>)>, emojis: map<string, string>, summarize: Summarizer, c: nat)
    : seq<string>
    requires c <= |cats|
  {
    MessagesOf([Header], Blocks(cats, emojis, summarize), c)
  }

  function DailyReport(cats: seq<(string, seq<Article>)>, emojis: map<string, string>, summarize: Summarizer)
    : seq<string>
  {
    ReportUpTo(cats, emojis, summarize, |cats|) + [Footer]
  }

  method CreateDailyNewsReport(categorized: seq<(string, seq<Article>)>, emojis: map<string, string>,
                               summarize: Summarizer)
    returns (messages: seq<string>)
    ensures messages == DailyReport(categorized, emojis, summarize)
  {
    messages := [];
    var header := "📰 **오늘의 뉴스 브리핑** 📰\n";
    header := header + Repeat('=', 40) + "\n\n";
    messages := messages + [header];
    assert messages == [Header];
    for c := 0 to |categorized|
      invariant messages == ReportUpTo(categorized, emojis, summarize, c)
    {
      messages := AppendCategory(categorized, emojis, summarize, c, messages);
    }
    var footer := "\n" + Repeat('=', 40) + "\n";
    footer := footer + "📅 매일 아침 최신 뉴스를 전달해드립니다!";
    messages := messages + [footer];
  }

  /** One pass of the category loop: render the block and append it whole, or its parts once it exceeds the cap. */
  method AppendCategory(categorized: seq<(string, seq<Article>)>, emojis: map<string, string>,
                        summarize: Summarizer, c: nat, messages: seq<string>)
    returns (messages': seq<string>)
    requires c < |categorized|
    requires messages == ReportUpTo(categorized, emojis, summarize, c)
    ensures messages' == ReportUpTo(categorized, emojis, summarize, c + 1)
  {
    var (categoryName, articles) := categorized[c];
    var emoji := EmojiFor(emojis, categoryName);
    var categorySummary := CreateNewsSummary(categoryName, articles, emoji, summarize);
    ghost var blocks := Blocks(categorized, emojis, summarize);
    assert categorySummary == blocks[c];
    if |categorySummary| > SizeCap {
      var parts := SplitMessage(categorySummary, SizeCap);
      messages' := messages + parts;
    } else {
      messages' := messages + [categorySummary];
    }
  }

  // ---------------------------------------------------------------------------
  // Properties of the report
  // ---------------------------------------------------------------------------

  /** A message the chat service accepts whole, or a single line it cannot be cut below. */
  predicate Sendable(p: string) {
    |p| <= SizeCap || OneLine(p)
  }

  lemma BlockMessagesShape(block: string)
    ensures BlockMessages(block) != []
    ensures forall p :: p in BlockMessages(block) ==> Sendable(p)
  {
    if |block| > SizeCap {
      SplitPartsShape(block, SizeCap);
    }
  }

  /** `prefix` followed by what the first `n` blocks spell out once sent: a split block gains a newline. */
  function SentText(prefix: string, blocks: seq<string>, n: nat): string
    requires n <= |blocks|
  {
    if n == 0 then prefix
    else
      var b := blocks[n - 1];
      SentText(prefix, blocks, n - 1) + (if |b| > SizeCap then b + "\n" else b)
  }

  lemma {:induction false} MessagesOfPrefix(prefix: seq<string>, blocks: seq<string>, n: nat)
    requires n <= |blocks|
    ensures var m := MessagesOf(prefix, blocks, n);
      |m| >= |prefix| + n && forall k :: 0 <= k < |prefix| ==> m[k] == prefix[k]
  {
    if n > 0 {
      MessagesOfPrefix(prefix, blocks, n - 1);
      BlockMessagesShape(blocks[n - 1]);
    }
  }

  lemma {:induction false} MessagesOfBounded(prefix: seq<string>, blocks: seq<string>, n: nat)
    requires n <= |blocks|
    ensures forall p :: p in MessagesOf(prefix, blocks, n) ==> p in prefix || Sendable(p)
  {
    if n > 0 {
      var init := MessagesOf(prefix, blocks, n - 1);
      var last := BlockMessages(blocks[n - 1]);
      MessagesOfBounded(prefix, blocks, n - 1);
      BlockMessagesShape(blocks[n - 1]);
      forall p | p in init + last ensures p in prefix || Sendable(p) {
        if p !in init {
          assert p in last;
        }
      }
    }
  }

  lemma {:induction false} MessagesOfText(prefix: seq<string>, blocks: seq<string>, n: nat)
    requires n <= |blocks|
    ensures Flatten(MessagesOf(prefix, blocks, n)) == SentText(Flatten(prefix), blocks, n)
  {
    if n > 0 {
      var b := blocks[n - 1];
      MessagesOfText(prefix, blocks, n - 1);
      FlattenAppend(MessagesOf(prefix, blocks, n - 1), BlockMessages(b));
      SplitRoundTrip(b, SizeCap);
      if |b| <= SizeCap {
        assert Flatten([b]) == b + Flatten([]);
      }
    }
  }

  /**
   * The messages sent for any blocks open with the header and close with the
   * footer, with at least one message per block between them; every message is
   * within the cap or a single line; and the messages concatenated give the
   * header, every block in order, and the footer, no text lost or moved.
   */
  lemma ReportShape(blocks: seq<string>)
    ensures var m := MessagesOf([Header], blocks, |blocks|) + [Footer];
      && m[0] == Header && m[|m| - 1] == Footer && |m| >= |blocks| + 2
      && (forall p :: p in m ==> Sendable(p))
      && Flatten(m) == SentText(Header, blocks, |blocks|) + Footer
  {
    var msgs := MessagesOf([Header], blocks, |blocks|);
    MessagesOfPrefix([Header], blocks, |blocks|);
    MessagesOfBounded([Header], blocks, |blocks|);
    MessagesOfText([Header], blocks, |blocks|);
    assert Flatten<char>([]) == [];
    assert Flatten([Header]) == Header + Flatten([]) == Header;
    FlattenAppend(msgs, [Footer]);
    assert Flatten([Footer]) == Footer + Flatten([]) == Footer;
    assert |Header| <= SizeCap && |Footer| <= SizeCap;
  }

  /** The daily report has the shape of `ReportShape`, with one block per category in mapping order. */
  lemma DailyReportShape(cats: seq<(string, seq<Article>)>, emojis: map<string, string>, summarize: Summarizer)
    ensures var m := DailyReport(cats, emojis, summarize);
      && m[0] == Header && m[|m| - 1] == Footer && |m| >= |cats| + 2
      && (forall p :: p in m ==> Sendable(p))
      && Flatten(m) == SentText(Header, Blocks(cats, emojis, summarize), |cats|) + Footer
  {
    ReportShape(Blocks(cats, emojis, summarize));
  }
}

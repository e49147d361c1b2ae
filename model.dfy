/**
 * The records the bot passes around. Articles are Python dictionaries in the
 * program; here each key the program reads is a field, and `None` stands for a
 * key that is absent from the dictionary.
 */
module NewsModel {
  import opened Wrappers

  /**
   * The `source` entry of an article: a plain label on articles built from a
   * syndication feed, a nested dictionary on articles returned by NewsAPI.
   * `shown` is the text Python prints for that dictionary.
   */
  datatype SourceField =
    | SourceLabel(text: string)
    | SourceRecord(name: Option<string>, shown: string)

  datatype Article = Article(
    title: Option<string>,
    description: Option<string>,
    url: Option<string>,
    source: Option<SourceField>,
    publishedAt: Option<string>,
    author: Option<string>,
    urlToImage: Option<string>)

  /**
   * One parsed feed entry; `sourceTitle` is `entry['source']['title']`. The
   * feed parser answers `entry.get('description')` and `entry.get('summary')`
   * from the same element of the feed, so the two fields hold the same value
   * whenever both are present; they are kept apart only because the Naver and
   * Daum adapters read the one key and the Google adapter the other.
   */
  datatype FeedEntry = FeedEntry(
    title: Option<string>,
    description: Option<string>,
    summary: Option<string>,
    link: Option<string>,
    published: Option<string>,
    sourceTitle: Option<string>)

  /** The defaults both files print for a missing title and a missing source. */
  const NoTitle: string := "제목 없음"
  const UnknownSource: string := "출처 불명"

  /** One value of the category configuration mapping, with its key. */
  datatype CategorySpec = CategorySpec(name: string, keywords: seq<string>, emoji: string)

  /** The categories are the items of a dictionary, so no two share a name. */
  ghost predicate DistinctNames(cats: seq<CategorySpec>) {
    forall i, j :: 0 <= i < j < |cats| ==> cats[i].name != cats[j].name
  }

  /** `article.get('url', '')`: the deduplication key by address. */
  function UrlKey(a: Article): string {
    a.url.GetOr("")
  }

  /** `article.get('title', '')`: the deduplication key by exact title. */
  function TitleKey(a: Article): string {
    a.title.GetOr("")
  }
}

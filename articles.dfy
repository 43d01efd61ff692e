/** The values the selection rules work on: articles yielded by the crawling engine, the
    dictionary of extracted fields handed to an `only_complete` predicate, and what a
    crawl loop prints, as event tags. Dates are day numbers (`publishing_date.date()`). */
module Articles {
  import opened Text

  datatype Option<+T> = None | Some(value: T)

  /** An article as the engine yields it. */
  datatype Article = Article(
    title: string,
    url: string,
    body: string,
    publishingDate: Option<int>,
    authors: seq<string>)

  /** The extracted fields of a page before it becomes an article (`extracted.get(...)`);
      a key that is absent is `None`, and the body stands for its text `str(body)`. */
  datatype Extracted = Extracted(
    title: Option<string>,
    body: Option<string>,
    publishingDate: Option<int>,
    topics: Option<seq<string>>)

  /** The exceptions the shown code raises by itself. */
  datatype PyError = AttributeError | TypeError | NameError

  /** What a crawl loop prints: `display(article)`, the "(Skipping display of older article.)"
      notice with its divider, the "." marker, and the term banners of the filter crawlers. */
  datatype Event =
    | Displayed(article: Article)
    | SkipNotice
    | Dot
    | UrlTermsBanner(includeTerms: seq<string>, outTerms: seq<string>)
    | BodyTermsBanner(terms: seq<string>)

  /** Everything a run printed, and the exception that ended it, if any. */
  datatype Run = Run(events: seq<Event>, raised: Option<PyError>)

  /** Python truthiness of `max_articles`: present and non-zero. */
  predicate IsSetLimit(maxArticles: Option<int>) {
    maxArticles.Some? && maxArticles.value != 0
  }

  /** Python truthiness of an optional string: present and non-empty. */
  predicate IsNonEmpty(s: Option<string>) {
    s.Some? && s.value != ""
  }

  function Prepend(events: seq<Event>, run: Run): Run
  {
    Run(events + run.events, run.raised)
  }

  /** The articles a sequence of events displays, in order. */
  function DisplayedArticles(events: seq<Event>): (r: seq<Article>)
    ensures |r| <= |events|
    ensures forall a :: a in r ==> Displayed(a) in events
  {
    if events == [] then []
    else (if events[0].Displayed? then [events[0].article] else []) + DisplayedArticles(events[1..])
  }

  /** The articles of `stream` dated strictly after `endDate`, in stream order. */
  function NewerThan(stream: seq<Article>, endDate: int): (r: seq<Article>)
    requires forall a :: a in stream ==> a.publishingDate.Some?
    ensures |r| <= |stream|
    ensures forall a :: a in r <==> a in stream && a.publishingDate.value > endDate
  {
    if stream == [] then []
    else (if stream[0].publishingDate.value > endDate then [stream[0]] else [])
         + NewerThan(stream[1..], endDate)
  }

  /** The body test shared by every `body_filter` of the repository: iterate over the terms and
      return False (keep) as soon as one occurs in the casefolded body; return True (drop) when
      the body is missing or empty or no term occurs. The terms themselves are not casefolded. */
  function DropsBody(terms: seq<string>, extracted: Extracted): (drop: bool)
    ensures !drop <==>
      IsNonEmpty(extracted.body) && exists t :: t in terms && Contains(Lower(extracted.body.value), t)
  {
    if IsNonEmpty(extracted.body) then !AnyOccurs(terms, Lower(extracted.body.value)) else true
  }
}

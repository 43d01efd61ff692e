/** `crawlers/base_crawler.py`: the crawler every filter crawler of the `crawlers` package
    extends. It remembers the limit and the recency window, fixes the end date once, and its
    `run_crawler` drives the engine's stream, printing each article in one of three ways. */
module CrawlersBase {
  import opened Articles
  import UrlFilters

  /** The keyword arguments a crawler passes to `crawl` besides `max_articles`
      (`get_filter_params()`): none, or a `url_filter`. */
  datatype FilterParams = NoParams | UrlFilterParam(urlFilter: UrlFilters.UrlFilter)

  /** The engine handle `Crawler(*sources)`: given `max_articles` and the filter parameters,
      the finite stream of articles `crawl` yields, in yield order. */
  type Engine = (Option<int>, FilterParams) -> seq<Article>

  /** What the loop prints for one article whose date is present. */
  function Classify(a: Article, endDate: int, maxArticles: Option<int>): (e: Event)
    requires a.publishingDate.Some?
    ensures e.Displayed? || e == SkipNotice || e == Dot
    ensures e.Displayed? <==> a.publishingDate.value > endDate
    ensures e.Displayed? ==> e.article == a
    ensures e == SkipNotice <==> a.publishingDate.value <= endDate && IsSetLimit(maxArticles)
  {
    if a.publishingDate.value > endDate then Displayed(a)
    else if IsSetLimit(maxArticles) then SkipNotice
    else Dot
  }

  /** What the loop prints for `stream` and how it ends: an article without a publishing date
      raises AttributeError (`None.date()`) and ends the run. */
  function DisplayLoop(stream: seq<Article>, endDate: int, maxArticles: Option<int>): (r: Run)
    ensures r.raised == None || r.raised == Some(AttributeError)
    ensures r.raised == None <==> forall i :: 0 <= i < |stream| ==> stream[i].publishingDate.Some?
    ensures r.raised == None ==> |r.events| == |stream|
    ensures |r.events| <= |stream|
  {
    if stream == [] then Run([], None)
    else if stream[0].publishingDate.None? then Run([], Some(AttributeError))
    else Prepend([Classify(stream[0], endDate, maxArticles)], DisplayLoop(stream[1..], endDate, maxArticles))
  }

  class BaseCrawler {
    const crawler: Engine
    const maxArticles: Option<int>
    const days: int
    const endDate: int

    /** `today` is `datetime.date.today()` as a day number. */
    constructor (crawler: Engine, maxArticles: Option<int>, days: int, today: int)
      ensures this.crawler == crawler && this.maxArticles == maxArticles && this.days == days
      ensures endDate == today - days
    {
      this.crawler := crawler;
      this.maxArticles := maxArticles;
      this.days := days;
      this.endDate := today - days;
    }

    /** `run_crawler` with `filterParams` the result of the one call to `get_filter_params()`:
        the engine is asked once, with `max_articles` and those parameters, and every article it
        yields is printed in turn until the stream ends or an article lacks a date. */
    method RunCrawler(filterParams: FilterParams) returns (run: Run)
      ensures run == DisplayLoop(crawler(maxArticles, filterParams), endDate, maxArticles)
    {
      var stream := crawler(maxArticles, filterParams);
      var events: seq<Event> := [];
      var i := 0;
      while i < |stream|
        invariant 0 <= i <= |stream|
        invariant DisplayLoop(stream, endDate, maxArticles) == Prepend(events, DisplayLoop(stream[i..], endDate, maxArticles))
      {
        var article := stream[i];
        DisplayLoopStep(stream, i, endDate, maxArticles);
        if article.publishingDate.None? {
          assert events + [] == events;
          return Run(events, Some(AttributeError));
        }
        ghost var before := events;
        if article.publishingDate.value > endDate {
          events := events + [Displayed(article)];
        } else if maxArticles.Some? && maxArticles.value != 0 {
          events := events + [SkipNotice];
        } else {
          events := events + [Dot];
        }
        assert events == before + [Classify(article, endDate, maxArticles)];
        i := i + 1;
      }
      assert stream[i..] == [] && events + [] == events;
      run := Run(events, None);
    }
  }

  /** One step of the loop: the rest of the stream from position `i` prints the branch of
      article `i` and then the rest after it, or stops at once when article `i` has no date. */
  lemma DisplayLoopStep(stream: seq<Article>, i: nat, endDate: int, maxArticles: Option<int>)
    requires i < |stream|
    ensures stream[i].publishingDate.None? ==> DisplayLoop(stream[i..], endDate, maxArticles) == Run([], Some(AttributeError))
    ensures stream[i].publishingDate.Some? ==>
      forall events: seq<Event> {:trigger Prepend(events, DisplayLoop(stream[i..], endDate, maxArticles))} ::
        Prepend(events, DisplayLoop(stream[i..], endDate, maxArticles)) ==
        Prepend(events + [Classify(stream[i], endDate, maxArticles)], DisplayLoop(stream[i + 1..], endDate, maxArticles))
  {
    assert stream[i..][1..] == stream[i + 1..];
    if stream[i].publishingDate.Some? {
      var rest := DisplayLoop(stream[i + 1..], endDate, maxArticles);
      var e := Classify(stream[i], endDate, maxArticles);
      forall events: seq<Event>
        ensures Prepend(events, DisplayLoop(stream[i..], endDate, maxArticles)) == Prepend(events + [e], rest)
      {
        assert events + ([e] + rest.events) == events + [e] + rest.events;
      }
    }
  }

  /** When every article has a date, the whole stream is consumed without stopping early, and
      the i-th printed item is the i-th article's: displayed exactly when it is newer than the
      end date, otherwise a skip notice under a set limit and a "." without one. */
  lemma {:induction false} DisplayLoopOneEventPerArticle(stream: seq<Article>, endDate: int, maxArticles: Option<int>)
    requires forall a :: a in stream ==> a.publishingDate.Some?
    ensures var r := DisplayLoop(stream, endDate, maxArticles);
      && r.raised == None
      && |r.events| == |stream|
      && (forall i :: 0 <= i < |stream| ==>
            && (r.events[i].Displayed? <==> stream[i].publishingDate.value > endDate)
            && (r.events[i].Displayed? ==> r.events[i].article == stream[i])
            && (r.events[i] == SkipNotice <==> stream[i].publishingDate.value <= endDate && IsSetLimit(maxArticles))
            && (r.events[i] == Dot <==> stream[i].publishingDate.value <= endDate && !IsSetLimit(maxArticles)))
  {
    if stream != [] {
      assert stream[0] in stream;
      assert forall a :: a in stream[1..] ==> a in stream;
      DisplayLoopOneEventPerArticle(stream[1..], endDate, maxArticles);
      var r := DisplayLoop(stream, endDate, maxArticles);
      forall i | 0 <= i < |stream|
        ensures r.events[i] == Classify(stream[i], endDate, maxArticles)
      {
        if i > 0 {
          assert r.events[i] == DisplayLoop(stream[1..], endDate, maxArticles).events[i - 1];
        }
      }
    }
  }

  /** The displayed articles are exactly the articles newer than the end date, in yield order. */
  lemma {:induction false} DisplayedInYieldOrder(stream: seq<Article>, endDate: int, maxArticles: Option<int>)
    requires forall a :: a in stream ==> a.publishingDate.Some?
    ensures DisplayedArticles(DisplayLoop(stream, endDate, maxArticles).events) == NewerThan(stream, endDate)
  {
    if stream != [] {
      assert stream[0] in stream;
      assert forall a :: a in stream[1..] ==> a in stream;
      DisplayedInYieldOrder(stream[1..], endDate, maxArticles);
      var e := Classify(stream[0], endDate, maxArticles);
      var rest := DisplayLoop(stream[1..], endDate, maxArticles).events;
      assert ([e] + rest)[1..] == rest;
    }
  }

  /** An article without a date ends the run with AttributeError right after the articles
      before it have been printed; nothing after it is printed. */
  lemma {:induction false} DisplayLoopStopsAtMissingDate(stream: seq<Article>, k: nat, endDate: int, maxArticles: Option<int>)
    requires k < |stream| && stream[k].publishingDate.None?
    requires forall i :: 0 <= i < k ==> stream[i].publishingDate.Some?
    ensures var r := DisplayLoop(stream, endDate, maxArticles);
      && r.raised == Some(AttributeError)
      && |r.events| == k
      && forall i :: 0 <= i < k ==> r.events[i] == Classify(stream[i], endDate, maxArticles)
  {
    if k > 0 {
      DisplayLoopStopsAtMissingDate(stream[1..], k - 1, endDate, maxArticles);
      var r := DisplayLoop(stream, endDate, maxArticles);
      forall i | 0 <= i < k
        ensures r.events[i] == Classify(stream[i], endDate, maxArticles)
      {
        if i > 0 {
          assert r.events[i] == DisplayLoop(stream[1..], endDate, maxArticles).events[i - 1];
        }
      }
    }
  }

  /** With the end date `today - days`, an article exactly `days` days old is not displayed and
      one `days - 1` days old is. */
  lemma WindowBoundary(a: Article, today: int, days: int, maxArticles: Option<int>)
    requires a.publishingDate.Some?
    ensures a.publishingDate.value == today - days ==> !Classify(a, today - days, maxArticles).Displayed?
    ensures a.publishingDate.value == today - days + 1 ==> Classify(a, today - days, maxArticles) == Displayed(a)
  {
  }
}

/** `searches/base_crawler.py`: the older base crawler of the `searches` scripts. It fixes the
    end date once and its `run_crawler` prints, for each article the engine yields, either the
    article or (under a set limit) a skip notice; an older article without a limit prints
    nothing. */
module SearchesBase {
  import opened Articles

  /** What the loop prints for `stream` and how it ends: an article without a publishing date
      raises AttributeError (`None.date()`) and ends the run. */
  function SearchLoop(stream: seq<Article>, endDate: int, maxArticles: Option<int>): (r: Run)
    ensures r.raised == None || r.raised == Some(AttributeError)
    ensures r.raised == None <==> forall i :: 0 <= i < |stream| ==> stream[i].publishingDate.Some?
    ensures |r.events| <= |stream|
  {
    if stream == [] then Run([], None)
    else if stream[0].publishingDate.None? then Run([], Some(AttributeError))
    else Prepend(Printed(stream[0], endDate, maxArticles), SearchLoop(stream[1..], endDate, maxArticles))
  }

  /** What the loop prints for one article whose date is present. */
  function Printed(a: Article, endDate: int, maxArticles: Option<int>): (events: seq<Event>)
    requires a.publishingDate.Some?
    ensures |events| <= 1
    ensures events == [Displayed(a)] <==> a.publishingDate.value > endDate
    ensures events == [SkipNotice] <==> a.publishingDate.value <= endDate && IsSetLimit(maxArticles)
  {
    if a.publishingDate.value > endDate then [Displayed(a)]
    else if IsSetLimit(maxArticles) then [SkipNotice]
    else []
  }

  /** One step of the loop: the rest of the stream from position `i` prints what article `i`
      prints and then the rest after it, or stops at once when article `i` has no date. */
  lemma SearchLoopStep(stream: seq<Article>, i: nat, endDate: int, maxArticles: Option<int>)
    requires i < |stream|
    ensures stream[i].publishingDate.None? ==> SearchLoop(stream[i..], endDate, maxArticles) == Run([], Some(AttributeError))
    ensures stream[i].publishingDate.Some? ==>
      forall events: seq<Event> {:trigger Prepend(events, SearchLoop(stream[i..], endDate, maxArticles))} ::
        Prepend(events, SearchLoop(stream[i..], endDate, maxArticles)) ==
        Prepend(events + Printed(stream[i], endDate, maxArticles), SearchLoop(stream[i + 1..], endDate, maxArticles))
  {
    assert stream[i..][1..] == stream[i + 1..];
    if stream[i].publishingDate.Some? {
      var rest := SearchLoop(stream[i + 1..], endDate, maxArticles);
      var head := Printed(stream[i], endDate, maxArticles);
      forall events: seq<Event>
        ensures Prepend(events, SearchLoop(stream[i..], endDate, maxArticles)) == Prepend(events + head, rest)
      {
        assert events + (head + rest.events) == events + head + rest.events;
      }
    }
  }

  /** `P` stands for the keyword arguments `get_crawl_params` returns. */
  class BaseCrawler<P> {
    const crawler: (Option<int>, P) -> seq<Article>
    const maxArticles: Option<int>
    const days: int
    const endDate: int

    /** `today` is `datetime.date.today()` as a day number; `crawler` is the engine's `crawl`. */
    constructor (crawler: (Option<int>, P) -> seq<Article>, maxArticles: Option<int>, days: int, today: int)
      ensures this.crawler == crawler && this.maxArticles == maxArticles && this.days == days
      ensures endDate == today - days
    {
      this.crawler := crawler;
      this.maxArticles := maxArticles;
      this.days := days;
      this.endDate := today - days;
    }

    /** `run_crawler` with `crawlParams` the result of the one call to `get_crawl_params()`. */
    method RunCrawler(crawlParams: P) returns (run: Run)
      ensures run == SearchLoop(crawler(maxArticles, crawlParams), endDate, maxArticles)
    {
      var stream := crawler(maxArticles, crawlParams);
      var events: seq<Event> := [];
      var i := 0;
      while i < |stream|
        invariant 0 <= i <= |stream|
        invariant SearchLoop(stream, endDate, maxArticles) == Prepend(events, SearchLoop(stream[i..], endDate, maxArticles))
      {
        var article := stream[i];
        SearchLoopStep(stream, i, endDate, maxArticles);
        if article.publishingDate.None? {
          return Run(events, Some(AttributeError));
        }
        ghost var before := events;
        if article.publishingDate.value > endDate {
          events := events + [Displayed(article)];
        } else if maxArticles.Some? && maxArticles.value != 0 {
          events := events + [SkipNotice];
        }
        assert events == before + Printed(article, endDate, maxArticles);
        i := i + 1;
      }
      assert stream[i..] == [];
      run := Run(events, None);
    }
  }

  /** When every article has a date the whole stream is consumed, and the displayed articles
      are exactly those newer than the end date, in yield order. */
  lemma {:induction false} SearchLoopDisplaysNewer(stream: seq<Article>, endDate: int, maxArticles: Option<int>)
    requires forall a :: a in stream ==> a.publishingDate.Some?
    ensures SearchLoop(stream, endDate, maxArticles).raised == None
    ensures DisplayedArticles(SearchLoop(stream, endDate, maxArticles).events) == NewerThan(stream, endDate)
  {
    if stream != [] {
      assert stream[0] in stream;
      assert forall a :: a in stream[1..] ==> a in stream;
      SearchLoopDisplaysNewer(stream[1..], endDate, maxArticles);
      var rest := SearchLoop(stream[1..], endDate, maxArticles).events;
      var head := Printed(stream[0], endDate, maxArticles);
      assert SearchLoop(stream, endDate, maxArticles).events == head + rest;
      if stream[0].publishingDate.value > endDate {
        assert (head + rest)[1..] == rest;
      } else if IsSetLimit(maxArticles) {
        assert (head + rest)[1..] == rest;
      } else {
        assert head + rest == rest;
      }
    }
  }

  /** When every article has a date, every printed item is a displayed article or, only under
      a set limit, a skip notice: one item per article under a set limit, one per newer
      article without one. */
  lemma {:induction false} SearchLoopEvents(stream: seq<Article>, endDate: int, maxArticles: Option<int>)
    requires forall a :: a in stream ==> a.publishingDate.Some?
    ensures forall e :: e in SearchLoop(stream, endDate, maxArticles).events ==>
      e.Displayed? || (e == SkipNotice && IsSetLimit(maxArticles))
    ensures IsSetLimit(maxArticles) ==> |SearchLoop(stream, endDate, maxArticles).events| == |stream|
    ensures !IsSetLimit(maxArticles) ==> |SearchLoop(stream, endDate, maxArticles).events| == |NewerThan(stream, endDate)|
  {
    if stream != [] {
      assert stream[0] in stream;
      assert forall a :: a in stream[1..] ==> a in stream;
      SearchLoopEvents(stream[1..], endDate, maxArticles);
      var rest := SearchLoop(stream[1..], endDate, maxArticles).events;
      var head := Printed(stream[0], endDate, maxArticles);
      assert SearchLoop(stream, endDate, maxArticles).events == head + rest;
      assert forall e :: e in head + rest <==> e in head || e in rest;
      if stream[0].publishingDate.value > endDate {
        assert NewerThan(stream, endDate) == [stream[0]] + NewerThan(stream[1..], endDate);
      } else {
        assert NewerThan(stream, endDate) == NewerThan(stream[1..], endDate);
      }
    }
  }

  /** An article without a date ends the run with AttributeError; what the articles before it
      printed stays printed. */
  lemma {:induction false} SearchLoopStopsAtMissingDate(stream: seq<Article>, k: nat, endDate: int, maxArticles: Option<int>)
    requires k < |stream| && stream[k].publishingDate.None?
    requires forall i :: 0 <= i < k ==> stream[i].publishingDate.Some?
    ensures SearchLoop(stream, endDate, maxArticles) == Prepend(SearchLoop(stream[..k], endDate, maxArticles).events, Run([], Some(AttributeError)))
  {
    if k > 0 {
      assert stream[1..][..k - 1] == stream[..k][1..];
      SearchLoopStopsAtMissingDate(stream[1..], k - 1, endDate, maxArticles);
    }
  }
}

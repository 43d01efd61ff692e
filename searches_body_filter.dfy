/** `searches/body_filter.py`: a script that asks the engine for the articles whose casefolded
    body holds one of three fixed terms, and prints those dated after yesterday. */
module SearchesBodyFilter {
  import opened Text
  import opened Articles
  import SearchesBase

  const BodySearchTerms: seq<string> := ["pollution", "climate crisis", "environmental"]
  const Days: int := 1

  /** `END_DATE`, for `today` the day the script starts. */
  function EndDate(today: int): (endDate: int)
    ensures endDate < today
  {
    today - Days
  }

  /** `body_filter`: keep (False) exactly when the body is present and non-empty and its
      casefolded text holds "pollution", "climate crisis" or "environmental". */
  function BodyFilter(extracted: Extracted): (drop: bool)
    ensures !drop <==> (IsNonEmpty(extracted.body) &&
      (|| Contains(Lower(extracted.body.value), "pollution")
       || Contains(Lower(extracted.body.value), "climate crisis")
       || Contains(Lower(extracted.body.value), "environmental")))
  {
    assert forall t :: t in BodySearchTerms <==> t == "pollution" || t == "climate crisis" || t == "environmental";
    DropsBody(BodySearchTerms, extracted)
  }

  /** The module loop: `crawl` is the engine's `CRAWLER.crawl(only_complete=...)`, and each
      article it yields is printed when dated after `END_DATE`. */
  method PrintRecent(crawl: (Extracted -> bool) -> seq<Article>, today: int) returns (run: Run)
    ensures run == SearchesBase.SearchLoop(crawl(BodyFilter), EndDate(today), None)
  {
    var endDate := today - Days;
    var stream := crawl(BodyFilter);
    var events: seq<Event> := [];
    for i := 0 to |stream|
      invariant SearchesBase.SearchLoop(stream, endDate, None) ==
        Prepend(events, SearchesBase.SearchLoop(stream[i..], endDate, None))
    {
      var article := stream[i];
      SearchesBase.SearchLoopStep(stream, i, endDate, None);
      if article.publishingDate.None? {
        return Run(events, Some(AttributeError));
      }
      ghost var before := events;
      if article.publishingDate.value > endDate {
        events := events + [Displayed(article)];
      }
      assert events == before + SearchesBase.Printed(article, endDate, None);
    }
    assert stream[|stream|..] == [];
    run := Run(events, None);
  }

  /** Every term is already lower case, so casefolding the body never hides it: a body equal
      to the term keeps the article, whatever case it is written in. */
  lemma EachTermCanKeep(t: string, body: string)
    requires t in BodySearchTerms
    requires Lower(body) == t
    ensures !BodyFilter(Extracted(None, Some(body), None, None))
  {
    ContainsItself(t);
  }

  lemma TermsAreLowerCase()
    ensures forall t :: t in BodySearchTerms ==> Lower(t) == t
  {
    assert Lower("pollution") == "pollution";
    assert Lower("climate crisis") == "climate crisis";
    assert Lower("environmental") == "environmental";
  }

  /** With all dates present, the printed articles are, in crawl order and each once, the
      yielded articles dated today or later (after yesterday), and nothing else is printed. */
  lemma PrintedAreFromTodayOn(stream: seq<Article>, today: int)
    requires forall a :: a in stream ==> a.publishingDate.Some?
    ensures EndDate(today) == today - 1
    ensures SearchesBase.SearchLoop(stream, today - 1, None).raised == None
    ensures forall e :: e in SearchesBase.SearchLoop(stream, today - 1, None).events ==> e.Displayed?
    ensures DisplayedArticles(SearchesBase.SearchLoop(stream, today - 1, None).events) == NewerThan(stream, today - 1)
    ensures forall a :: a in NewerThan(stream, today - 1) <==> a in stream && a.publishingDate.value >= today
  {
    SearchesBase.SearchLoopDisplaysNewer(stream, today - 1, None);
    SearchesBase.SearchLoopEvents(stream, today - 1, None);
  }

}

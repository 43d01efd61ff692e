/** `crawlers/url_filter.py`: a crawler whose engine is asked to drop URLs by a combinator
    expression built from an exclude list and an include list. */
module CrawlersUrlFilter {
  import opened Text
  import opened Articles
  import opened UrlFilters
  import opened CrawlersBase

  /** The drop predicate of `get_filter_params`:
      `lor(regex_filter("|".join(out)), inverse(land(*[regex_filter(t) for t in include])))`. */
  function DropFilter(filterOutTerms: seq<string>, filterIncludeTerms: seq<string>): UrlFilter
  {
    Lor([RegexFilter(JoinAlternation(filterOutTerms)), Inverse(Land(RegexFilters(filterIncludeTerms)))])
  }

  class UrlFilterCrawler {
    const base: BaseCrawler
    const filterOutTermsList: seq<string>
    const filterIncludeTermsList: seq<string>

    constructor (crawler: Engine, maxArticles: Option<int>, days: int, today: int,
                 filterIncludeTerms: seq<string>, filterOutTerms: seq<string>)
      ensures fresh(base)
      ensures base.crawler == crawler && base.maxArticles == maxArticles && base.days == days
      ensures base.endDate == today - days
      ensures filterOutTermsList == filterOutTerms && filterIncludeTermsList == filterIncludeTerms
    {
      base := new BaseCrawler(crawler, maxArticles, days, today);
      filterOutTermsList := filterOutTerms;
      filterIncludeTermsList := filterIncludeTerms;
    }

    /** `{"url_filter": ...}`, the drop predicate over the crawler's own term lists. */
    function GetFilterParams(): (p: FilterParams)
      ensures p.UrlFilterParam?
      ensures forall url :: Drops(p.urlFilter, url) <==>
        Search(JoinAlternation(filterOutTermsList), url) ||
        exists t :: t in filterIncludeTermsList && !Search(t, url)
    {
      var p := UrlFilterParam(DropFilter(filterOutTermsList, filterIncludeTermsList));
      forall url ensures Drops(p.urlFilter, url) <==>
        Search(JoinAlternation(filterOutTermsList), url) ||
        exists t :: t in filterIncludeTermsList && !Search(t, url)
      {
        DropFilterIff(filterOutTermsList, filterIncludeTermsList, url);
      }
      p
    }

    /** `run_crawler` as written: after the banner it calls the base `run_crawler` with a
        `display_output` keyword that the base method does not accept, so every call raises
        TypeError before the engine is asked for anything. */
    method RunCrawler(displayOutput: bool) returns (run: Run)
      ensures run.raised == Some(TypeError)
      ensures run.events == if displayOutput then [UrlTermsBanner(filterIncludeTermsList, filterOutTermsList)] else []
    {
      var banner := if displayOutput then [UrlTermsBanner(filterIncludeTermsList, filterOutTermsList)] else [];
      run := Run(banner, Some(TypeError));
    }

    /** `run_crawler` as evidently intended: the banner, then the base loop over the stream the
        engine yields for `max_articles` and this crawler's URL filter. */
    method RunCrawlerIntended(displayOutput: bool) returns (run: Run)
      ensures run == Prepend(
        if displayOutput then [UrlTermsBanner(filterIncludeTermsList, filterOutTermsList)] else [],
        DisplayLoop(base.crawler(base.maxArticles, GetFilterParams()), base.endDate, base.maxArticles))
    {
      var banner := if displayOutput then [UrlTermsBanner(filterIncludeTermsList, filterOutTermsList)] else [];
      var rest := base.RunCrawler(GetFilterParams());
      run := Prepend(banner, rest);
    }
  }

  /** The composition drops a URL exactly when the exclude alternation matches it or some
      include term does not. */
  lemma DropFilterIff(filterOutTerms: seq<string>, filterIncludeTerms: seq<string>, url: string)
    ensures Drops(DropFilter(filterOutTerms, filterIncludeTerms), url) <==>
      Search(JoinAlternation(filterOutTerms), url) || exists t :: t in filterIncludeTerms && !Search(t, url)
  {
    var fs := RegexFilters(filterIncludeTerms);
    var f := DropFilter(filterOutTerms, filterIncludeTerms);
    assert f.any[0] == RegexFilter(JoinAlternation(filterOutTerms));
    assert f.any[1] == Inverse(Land(fs));
    if exists t :: t in filterIncludeTerms && !Search(t, url) {
      var t :| t in filterIncludeTerms && !Search(t, url);
      var i :| 0 <= i < |filterIncludeTerms| && filterIncludeTerms[i] == t;
      assert !Drops(fs[i], url);
      assert Drops(f.any[1], url);
    } else {
      forall i | 0 <= i < |fs| ensures Drops(fs[i], url) {
        assert filterIncludeTerms[i] in filterIncludeTerms;
      }
      assert !Drops(f.any[1], url);
      assert Drops(f, url) <==> Drops(f.any[0], url);
    }
  }

  /** Written out for two exclude and two include terms, the composition is the `lor` of the
      regex filter on `out1|out2` and the inverse of the `land` of the two include filters. */
  lemma TwoByTwoComposition(out1: string, out2: string, inc1: string, inc2: string)
    ensures DropFilter([out1, out2], [inc1, inc2]) ==
      Lor([RegexFilter(out1 + "|" + out2), Inverse(Land([RegexFilter(inc1), RegexFilter(inc2)]))])
  {
    var out := [out1, out2];
    assert out[1..] == [out2];
    assert JoinAlternation(out) == out1 + "|" + out2;
    assert RegexFilters([inc1, inc2]) == [RegexFilter(inc1), RegexFilter(inc2)];
  }

  /** For literal terms and a non-empty exclude list: a URL is kept exactly when it contains
      every include term and no exclude term; it is dropped exactly when it contains some
      exclude term or misses some include term. */
  lemma KeptIffAllIncludedNoneExcluded(filterOutTerms: seq<string>, filterIncludeTerms: seq<string>, url: string)
    requires |filterOutTerms| >= 1
    requires forall t :: t in filterOutTerms ==> IsLiteral(t)
    requires forall t :: t in filterIncludeTerms ==> IsLiteral(t)
    ensures Drops(DropFilter(filterOutTerms, filterIncludeTerms), url) <==>
      (exists t :: t in filterOutTerms && Contains(url, t)) ||
      (exists t :: t in filterIncludeTerms && !Contains(url, t))
    ensures !Drops(DropFilter(filterOutTerms, filterIncludeTerms), url) <==>
      (forall t :: t in filterIncludeTerms ==> Contains(url, t)) &&
      (forall t :: t in filterOutTerms ==> !Contains(url, t))
  {
    DropFilterIff(filterOutTerms, filterIncludeTerms, url);
    SearchJoinIff(filterOutTerms, url);
    forall t | t in filterIncludeTerms ensures Search(t, url) <==> Contains(url, t) {
      SearchLiteral(t, url);
    }
  }

  /** Inclusion does not override exclusion: a URL holding every include term and also an
      exclude term is dropped. */
  lemma FullyIncludedButExcludedIsDropped(filterOutTerms: seq<string>, filterIncludeTerms: seq<string>, url: string, bad: string)
    requires forall t :: t in filterOutTerms ==> IsLiteral(t)
    requires forall t :: t in filterIncludeTerms ==> Contains(url, t)
    requires bad in filterOutTerms && Contains(url, bad)
    ensures Drops(DropFilter(filterOutTerms, filterIncludeTerms), url)
  {
    DropFilterIff(filterOutTerms, filterIncludeTerms, url);
    SearchJoinIff(filterOutTerms, url);
  }

  /** An empty exclude list joins to the empty pattern, which matches every URL, so every URL
      is dropped whatever the include terms. */
  lemma EmptyExcludeListDropsEverything(filterIncludeTerms: seq<string>, url: string)
    ensures Drops(DropFilter([], filterIncludeTerms), url)
  {
    DropFilterIff([], filterIncludeTerms, url);
    SearchEmptyJoin(url);
  }

  /** With a non-empty exclude list, adding include or exclude terms (or reordering them)
      never turns a dropped URL into a kept one. */
  lemma MoreTermsNeverKeep(out1: seq<string>, inc1: seq<string>, out2: seq<string>, inc2: seq<string>, url: string)
    requires |out1| >= 1
    requires forall t :: t in out1 ==> t in out2
    requires forall t :: t in inc1 ==> t in inc2
    requires forall t :: t in out2 ==> IsLiteral(t)
    requires forall t :: t in inc2 ==> IsLiteral(t)
    requires Drops(DropFilter(out1, inc1), url)
    ensures Drops(DropFilter(out2, inc2), url)
  {
    KeptIffAllIncludedNoneExcluded(out1, inc1, url);
    assert out1[0] in out2;
    KeptIffAllIncludedNoneExcluded(out2, inc2, url);
  }

  /** The verdict depends only on which terms the lists hold, not on their order. */
  lemma TermOrderIrrelevant(out1: seq<string>, inc1: seq<string>, out2: seq<string>, inc2: seq<string>, url: string)
    requires multiset(out1) == multiset(out2) && multiset(inc1) == multiset(inc2)
    requires forall t :: t in out1 ==> IsLiteral(t)
    requires forall t :: t in inc1 ==> IsLiteral(t)
    ensures Drops(DropFilter(out1, inc1), url) == Drops(DropFilter(out2, inc2), url)
  {
    assert forall t :: t in out1 <==> t in multiset(out1);
    assert forall t :: t in out2 <==> t in multiset(out2);
    assert forall t :: t in inc1 <==> t in multiset(inc1);
    assert forall t :: t in inc2 <==> t in multiset(inc2);
    if |out1| == 0 {
      assert |out2| == |multiset(out2)| == 0;
      EmptyExcludeListDropsEverything(inc1, url);
      EmptyExcludeListDropsEverything(inc2, url);
    } else {
      assert |out2| == |multiset(out2)| > 0;
      KeptIffAllIncludedNoneExcluded(out1, inc1, url);
      KeptIffAllIncludedNoneExcluded(out2, inc2, url);
    }
  }

  /** Going from no exclude term to one can keep a URL that was dropped: the empty-list case
      is the one exception to `MoreTermsNeverKeep`. */
  lemma FirstExcludeTermCanKeep()
    ensures Drops(DropFilter([], ["news"]), "http://example.com/news/story")
    ensures !Drops(DropFilter(["opinion"], ["news"]), "http://example.com/news/story")
  {
    EmptyExcludeListDropsEverything(["news"], "http://example.com/news/story");
    NewsStoryKept();
  }

  /** With include ["news"] and exclude ["opinion"], a URL is kept exactly when it holds
      "news" and not "opinion". */
  lemma NewsOpinionVerdict(url: string)
    ensures !Drops(DropFilter(["opinion"], ["news"]), url) <==> Contains(url, "news") && !Contains(url, "opinion")
  {
    KeptIffAllIncludedNoneExcluded(["opinion"], ["news"], url);
  }

  /** Neither URLs nor terms are case-folded: an upper-case URL misses a lower-case include term. */
  lemma NoCaseFolding()
    ensures Drops(DropFilter(["opinion"], ["news"]), "http://example.com/NEWS/story")
  {
    NewsOpinionVerdict("http://example.com/NEWS/story");
    ExampleUrls();
    MissingCharNotContained("http://example.com/NEWS/story", "news", 0);
  }

  /** Include ["news"], exclude ["opinion"]: the news story is kept. */
  lemma NewsStoryKept()
    ensures !Drops(DropFilter(["opinion"], ["news"]), "http://example.com/news/story")
  {
    NewsOpinionVerdict("http://example.com/news/story");
    ExampleUrls();
    MissingCharNotContained("http://example.com/news/story", "opinion", 2);
  }

  /** Include ["news"], exclude ["opinion"]: the opinion piece is dropped. */
  lemma OpinionPieceDropped()
    ensures Drops(DropFilter(["opinion"], ["news"]), "http://example.com/opinion/story")
  {
    NewsOpinionVerdict("http://example.com/opinion/story");
    ExampleUrls();
  }

  /** Character facts about the example URLs the verdict lemmas above use. */
  lemma ExampleUrls()
    ensures 'n' !in "http://example.com/NEWS/story"
    ensures 'i' !in "http://example.com/news/story"
    ensures Contains("http://example.com/news/story", "news")
    ensures Contains("http://example.com/opinion/story", "opinion")
  {
    assert OccursAt("http://example.com/news/story", "news", 19);
    assert OccursAt("http://example.com/opinion/story", "opinion", 19);
  }
}

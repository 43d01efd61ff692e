/** `searches/url_filter.py`: the URL drop predicate built at module level from fixed terms. */
module SearchesUrlFilter {
  import opened Text
  import opened UrlFilters
  import CrawlersUrlFilter

  const FilterOut: UrlFilter := RegexFilter("advertisement|podcast")
  const FilterInclude: UrlFilter := Inverse(Land([RegexFilter("coral"), RegexFilter("climate")]))

  /** `lor(filter_out, filter_include)`, the `url_filter` handed to `crawl`. */
  const UrlDropFilter: UrlFilter := Lor([FilterOut, FilterInclude])

  /** The script's predicate is the general composition of `crawlers/url_filter.py` with include
      terms ["coral", "climate"] and exclude terms ["advertisement", "podcast"]. */
  lemma IsGeneralComposition()
    ensures UrlDropFilter == CrawlersUrlFilter.DropFilter(["advertisement", "podcast"], ["coral", "climate"])
  {
    CrawlersUrlFilter.TwoByTwoComposition("advertisement", "podcast", "coral", "climate");
    assert "advertisement" + "|" + "podcast" == "advertisement|podcast";
  }

  /** A URL is dropped exactly when it holds "advertisement" or "podcast", or lacks "coral",
      or lacks "climate". */
  lemma DropIff(url: string)
    ensures Drops(UrlDropFilter, url) <==>
      Contains(url, "advertisement") || Contains(url, "podcast") || !Contains(url, "coral") || !Contains(url, "climate")
  {
    IsGeneralComposition();
    LiteralTerms();
    CrawlersUrlFilter.KeptIffAllIncludedNoneExcluded(["advertisement", "podcast"], ["coral", "climate"], url);
    assert forall t :: t in ["advertisement", "podcast"] <==> t == "advertisement" || t == "podcast";
    assert forall t :: t in ["coral", "climate"] <==> t == "coral" || t == "climate";
  }

  lemma LiteralTerms()
    ensures forall t :: t in ["advertisement", "podcast"] ==> IsLiteral(t)
    ensures forall t :: t in ["coral", "climate"] ==> IsLiteral(t)
  {
  }

  /** The two include terms can be listed in either order. */
  lemma SwapIncludes(url: string)
    ensures Drops(UrlDropFilter, url) ==
      Drops(CrawlersUrlFilter.DropFilter(["advertisement", "podcast"], ["climate", "coral"]), url)
  {
    IsGeneralComposition();
    LiteralTerms();
    assert multiset(["coral", "climate"]) == multiset(["climate", "coral"]);
    CrawlersUrlFilter.TermOrderIrrelevant(["advertisement", "podcast"], ["coral", "climate"],
                                          ["advertisement", "podcast"], ["climate", "coral"], url);
  }

  /** A URL on coral and climate is still dropped when it is a podcast. */
  lemma CoralClimatePodcastDropped(url: string)
    requires Contains(url, "coral") && Contains(url, "climate") && Contains(url, "podcast")
    ensures Drops(UrlDropFilter, url)
  {
    DropIff(url);
  }
}

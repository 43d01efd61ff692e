/** `examples/filter2.py`: a URL drop predicate from fixed terms, one filter for the unwanted
    words and one for the wanted ones, joined by `lor`. */
module ExamplesFilter2 {
  import opened Text
  import opened UrlFilters
  import CrawlersUrlFilter

  /** Drops URLs holding "advertisement" or "podcast". */
  const Filter1: UrlFilter := RegexFilter("advertisement|podcast")

  /** Drops URLs lacking "politic" or lacking "trump". */
  const Filter2: UrlFilter := Inverse(Land([RegexFilter("politic"), RegexFilter("trump")]))

  /** `lor(filter1, filter2)`, the `url_filter` handed to `crawl`. */
  const UrlDropFilter: UrlFilter := Lor([Filter1, Filter2])

  /** The script's predicate is the composition of `crawlers/url_filter.py` with include terms
      ["politic", "trump"] and exclude terms ["advertisement", "podcast"]. */
  lemma IsGeneralComposition()
    ensures UrlDropFilter == CrawlersUrlFilter.DropFilter(["advertisement", "podcast"], ["politic", "trump"])
  {
    CrawlersUrlFilter.TwoByTwoComposition("advertisement", "podcast", "politic", "trump");
    assert "advertisement" + "|" + "podcast" == "advertisement|podcast";
  }

  lemma LiteralTerms()
    ensures forall t :: t in ["advertisement", "podcast"] ==> IsLiteral(t)
    ensures forall t :: t in ["politic", "trump"] ==> IsLiteral(t)
  {
  }

  /** One dropping side suffices: a URL is dropped exactly when it holds "advertisement" or
      "podcast" or lacks "politic" or "trump", and kept exactly when it holds both wanted
      words and neither unwanted one. */
  lemma KeptIff(url: string)
    ensures Drops(UrlDropFilter, url) <==>
      Contains(url, "advertisement") || Contains(url, "podcast") || !Contains(url, "politic") || !Contains(url, "trump")
    ensures !Drops(UrlDropFilter, url) <==>
      Contains(url, "politic") && Contains(url, "trump") && !Contains(url, "advertisement") && !Contains(url, "podcast")
  {
    IsGeneralComposition();
    LiteralTerms();
    CrawlersUrlFilter.KeptIffAllIncludedNoneExcluded(["advertisement", "podcast"], ["politic", "trump"], url);
    assert forall t :: t in ["advertisement", "podcast"] <==> t == "advertisement" || t == "podcast";
    assert forall t :: t in ["politic", "trump"] <==> t == "politic" || t == "trump";
  }

  /** "politic" is matched as a substring: a URL about "politics" and "trump" without an
      unwanted word is kept. */
  lemma PoliticsSatisfiesPolitic(url: string)
    requires Contains(url, "politics") && Contains(url, "trump")
    requires !Contains(url, "advertisement") && !Contains(url, "podcast")
    ensures !Drops(UrlDropFilter, url)
  {
    ContainsPrefixOf(url, "politics", 7);
    assert "politics"[..7] == "politic";
    KeptIff(url);
  }
}

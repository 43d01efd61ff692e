/** `crawlers/body_filter.py`: a crawler that keeps an article when one of its search terms
    occurs in the casefolded body. */
module CrawlersBodyFilter {
  import opened Text
  import opened Articles
  import opened CrawlersBase

  class BodyFilterCrawler {
    const base: BaseCrawler
    const bodySearchTerms: seq<string>

    constructor (crawler: Engine, maxArticles: Option<int>, days: int, today: int, bodySearchTerms: seq<string>)
      ensures fresh(base)
      ensures base.crawler == crawler && base.maxArticles == maxArticles && base.days == days
      ensures base.endDate == today - days
      ensures this.bodySearchTerms == bodySearchTerms
    {
      base := new BaseCrawler(crawler, maxArticles, days, today);
      this.bodySearchTerms := bodySearchTerms;
    }

    /** `body_filter`: False (keep) exactly when the body is present and non-empty and one of
        the search terms, taken as written, occurs in the casefolded body. */
    function BodyFilter(extracted: Extracted): (drop: bool)
      ensures !drop <==>
        IsNonEmpty(extracted.body) && exists t :: t in bodySearchTerms && Contains(Lower(extracted.body.value), t)
    {
      DropsBody(bodySearchTerms, extracted)
    }

    /** `run_crawler`: the banner, then the base `run_crawler`, whose call to
        `get_filter_params` reads `self.publishing_date_filter`, an attribute nothing defines;
        so every call raises AttributeError before the engine is asked for anything. */
    method RunCrawler() returns (run: Run)
      ensures run == Run([BodyTermsBanner(bodySearchTerms)], Some(AttributeError))
    {
      run := Run([BodyTermsBanner(bodySearchTerms)], Some(AttributeError));
    }
  }

  /** A missing or empty body is dropped, and so is every article when there are no terms. */
  lemma MissingBodyOrNoTermsDrops(terms: seq<string>, extracted: Extracted)
    requires !IsNonEmpty(extracted.body) || terms == []
    ensures DropsBody(terms, extracted)
  {
  }

  /** Only the body is consulted: the title (and every other field) plays no part. */
  lemma OnlyBodyConsulted(terms: seq<string>, e1: Extracted, e2: Extracted)
    requires e1.body == e2.body
    ensures DropsBody(terms, e1) == DropsBody(terms, e2)
  {
  }

  /** The terms are not casefolded: a term with an upper-case letter never causes a keep. */
  lemma UpperCaseTermNeverKeeps(terms: seq<string>, extracted: Extracted, k: nat)
    requires |terms| >= 1 && k < |terms[0]| && IsUpper(terms[0][k])
    ensures DropsBody(terms, extracted) == DropsBody(terms[1..], extracted)
  {
    if IsNonEmpty(extracted.body) {
      UpperTermNeverInLower(extracted.body.value, terms[0], k);
      assert forall t :: t in terms <==> t == terms[0] || t in terms[1..] by {
        assert terms == [terms[0]] + terms[1..];
      }
    }
  }

  /** The default term "EPA" alone never keeps an article, whatever its body says. */
  lemma EpaNeverKeeps(extracted: Extracted)
    ensures DropsBody(["EPA"], extracted)
  {
    UpperCaseTermNeverKeeps(["EPA"], extracted, 0);
  }

  /** Adding terms never turns a keep into a drop, and the order of the terms does not matter. */
  lemma MoreTermsNeverDrop(terms1: seq<string>, terms2: seq<string>, extracted: Extracted)
    requires forall t :: t in terms1 ==> t in terms2
    ensures !DropsBody(terms1, extracted) ==> !DropsBody(terms2, extracted)
  {
  }

  lemma TermOrderIrrelevant(terms1: seq<string>, terms2: seq<string>, extracted: Extracted)
    requires multiset(terms1) == multiset(terms2)
    ensures DropsBody(terms1, extracted) == DropsBody(terms2, extracted)
  {
    assert forall t :: t in terms1 <==> t in multiset(terms1);
    assert forall t :: t in terms2 <==> t in multiset(terms2);
  }

  /** With the term "test", "This is a test article" is kept and "This article doesn't match"
      is dropped. */
  lemma TestArticleKept()
    ensures !DropsBody(["test"], Extracted(Some("Test Article 1"), Some("This is a test article"), None, None))
  {
    KeptBodyLowered();
    assert OccursAt("this is a test article", "test", 10);
  }

  lemma NonMatchingArticleDropped()
    ensures DropsBody(["test"], Extracted(Some("Test Article 2"), Some("This article doesn't match"), None, None))
  {
    DroppedBodyLowered();
    DroppedBodyLacksTe();
    MissingPairNotContained("this article doesn't match", "test");
  }

  /** Lower-casing the first example body. */
  lemma KeptBodyLowered()
    ensures Lower("This is a test article") == "this is a test article"
  {
  }

  /** Lower-casing the second example body. */
  lemma DroppedBodyLowered()
    ensures Lower("This article doesn't match") == "this article doesn't match"
  {
  }

  /** "te" never stands in the lowered second example body. */
  lemma DroppedBodyLacksTe()
    ensures var s := "this article doesn't match";
      forall i | 0 <= i < |s| - 1 :: !(s[i] == 't' && s[i + 1] == 'e')
  {
  }

  /** Casefolding both the body and the terms, the evident intent of the term lists that mix
      cases ("EPA"): a term then occurs whatever the case it is written in. */
  function FoldedBodyFilter(terms: seq<string>, extracted: Extracted): (drop: bool)
    ensures !drop <==>
      IsNonEmpty(extracted.body) && exists t :: t in terms && Contains(Lower(extracted.body.value), Lower(t))
  {
    if IsNonEmpty(extracted.body) then
      AnyOccursLowerEach(terms, Lower(extracted.body.value));
      DropsBody(LowerEach(terms), extracted)
    else
      DropsBody(LowerEach(terms), extracted)
  }

  /** Under the folded test a body that mentions "EPA" is kept by the term "EPA". */
  lemma FoldedFilterKeepsEpa(body: string)
    requires Contains(body, "EPA")
    ensures !FoldedBodyFilter(["EPA"], Extracted(None, Some(body), None, None))
  {
    var i :| 0 <= i <= |body| - 3 && OccursAt(body, "EPA", i);
    assert Lower(body)[i..i + 3] == Lower("EPA");
    assert OccursAt(Lower(body), Lower("EPA"), i);
  }
}

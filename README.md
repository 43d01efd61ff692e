# news-crawler article-selection rules, in Dafny

This project models the article-selection rules of the news-crawler repository. The
repository wraps an external crawling engine (`fundus`), and the rules decide which articles
a crawl keeps and which it prints:

- **The mock search pipeline.** `crawlers/mock_data.py` and `crawlers/mock_crawler.py` search a
  fixed catalogue of five records. The search applies a recency cutoff, then source names after
  whitespace removal, then URL or title-and-body terms, then a cap on the count with an early
  exit. `MockCrawler` normalises its constructor arguments. It flattens publisher objects and
  collections into a set of source names.
- **URL drop predicates.** These are built from the engine's combinators `regex_filter`,
  `inverse`, `land` and `lor`. A predicate that yields True drops the URL. The general
  composition is in `crawlers/url_filter.py`. Instances with fixed terms are in
  `searches/url_filter.py` and `examples/filter2.py`.
- **Predicates over the extracted fields.** These are the body-term tests in
  `crawlers/body_filter.py`, `searches/body_filter.py` and `examples/filter1.py`, plus a
  publishing-date window and a topic test in `examples/filter1.py`.
- **Display loops.** These are in `crawlers/base_crawler.py` and `searches/base_crawler.py`.
  Each loop consumes the engine's stream. It prints an article when its date is strictly after
  `today - days`. Otherwise it prints a skip notice or a "." marker, or nothing.

## How the model is built

- There is one Dafny module per source file. Modules whose names begin with `Crawlers` model
  the `crawlers/` package. `SearchesBase`, `SearchesBodyFilter` and `SearchesUrlFilter` model
  `searches/`. `MockData` and `MockCrawlers` model the mock pipeline. `ExamplesFilter1` and
  `ExamplesFilter2` model `examples/`.
- Three shared modules hold common definitions. `Text` holds Python whitespace, ASCII
  lower-casing and substring search. `Articles` holds the article, the extracted-fields
  dictionary, printed events and runs. `UrlFilters` holds the filter combinators and their
  evaluation `Drops`.
- The engine is a function value. Given `max_articles` and the filter keyword arguments, it
  returns the finite stream of articles in yield order. Clocks are parameters. `today` is a
  day number. `now` and `loadedAt` in the mock pipeline are seconds.
- A crawl run is a `Run`. It holds the sequence of printed events and the exception that ended
  the run, if any. The code does not guard an article without a publishing date.
  `publishing_date.date()` then raises AttributeError. That case is modelled as a run ending
  with `AttributeError`, not as a precondition.
- Where the code keeps state, it is modelled imperatively. The crawler objects are classes.
  `get_mock_articles`, `_extract_source_names` and the display loops are methods with loops.
  `get_mock_articles` and the display loops are proved equal to specification functions
  (`MockSelection`, `DisplayLoop`, `SearchLoop`). `_extract_source_names` is proved to return
  exactly the names the sources contribute, each once. The properties are proved as lemmas
  about those functions.
- Where the code and its comments disagree, the model follows the code:
  - `examples/filter1.py:6` says "past seven days", but the kept window is the week before last.
  - `crawlers/url_filter.py:32` declares that `run_crawler` returns a list of articles, but it
    always raises (see Findings). `crawlers/base_crawler.py:20` returns nothing.
  - `crawlers/body_filter.py:22` reads `self.publishing_date_filter`. Nothing defines that
    attribute. So `BodyFilterCrawler.run_crawler` prints its banner and raises AttributeError.
    `CrawlersBodyFilter.BodyFilterCrawler.RunCrawler` models exactly that.

## Model

| member | source | states |
|---|---|---|
| `Text.AnyOccurs` | crawlers/body_filter.py:16-18 | the early-return term loop finds a term exactly when some term of the list occurs in the text |
| `Text.UpperTermNeverInLower` | crawlers/body_filter.py:17 | a term with an upper-case letter never occurs in a lower-cased text |
| `Text.AnyOccursLowerEach` | crawlers/mock_data.py:184 | `any(term.lower() in text ...)` holds exactly when some term, lowered, occurs in the text |
| `Articles.DropsBody` | crawlers/body_filter.py:14-19 | the article is kept (False) exactly when the body is present and non-empty and some term occurs in the casefolded body |
| `UrlFilters.RegexFilters` | crawlers/url_filter.py:25-27 | one `regex_filter` per include term, in order, and their `land` drops a URL exactly when every include pattern matches it |
| `UrlFilters.AlternativesOfJoin` | crawlers/url_filter.py:22 | splitting `"|".join(terms)` at its separators gives back the literal terms |
| `UrlFilters.SearchJoinIff` | crawlers/url_filter.py:22-23 | the joined exclude pattern matches a URL exactly when some exclude term occurs in it |
| `UrlFilters.SearchEmptyJoin` | crawlers/url_filter.py:22-23 | the empty alternation joined from no terms matches every URL |
| `UrlFilters.SearchLiteral` | crawlers/url_filter.py:26 | `regex_filter(term)` on a literal term matches exactly when the term occurs in the URL |
| `CrawlersBase.DisplayLoop` | crawlers/base_crawler.py:22-31 | the run ends without exception exactly when every article has a date, and otherwise with AttributeError; it prints one item per article when it ends normally and never more items than articles |
| `CrawlersBase.Classify` | crawlers/base_crawler.py:25-31 | each dated article takes exactly one branch: displayed iff its date is after the end date, otherwise a skip notice iff the limit is truthy, otherwise "." |
| `CrawlersBase.BaseCrawler.constructor` | crawlers/base_crawler.py:9-14 | stores the limit and the window and fixes the end date at today minus `days` |
| `CrawlersBase.BaseCrawler.RunCrawler` | crawlers/base_crawler.py:20-31 | asks the engine once with `max_articles` and the filter parameters, and prints what `DisplayLoop` prescribes for the stream, stopping only at an article without a date |
| `CrawlersBase.DisplayLoopOneEventPerArticle` | crawlers/base_crawler.py:22-31 | with all dates present, the whole stream is consumed with no exception, and the i-th printed item is the i-th article's branch |
| `CrawlersBase.DisplayedInYieldOrder` | crawlers/base_crawler.py:22-26 | the displayed articles are exactly those newer than the end date, in yield order |
| `CrawlersBase.DisplayLoopStopsAtMissingDate` | crawlers/base_crawler.py:25 | an article without a date ends the run with AttributeError right after the articles before it |
| `CrawlersBase.WindowBoundary` | crawlers/base_crawler.py:14-26 | an article exactly `days` days old is not displayed; one a day younger is |
| `CrawlersUrlFilter.UrlFilterCrawler.constructor` | crawlers/url_filter.py:9-19 | stores the engine, limit and window through the base constructor, and the two term lists |
| `CrawlersUrlFilter.UrlFilterCrawler.GetFilterParams` | crawlers/url_filter.py:21-30 | a `url_filter` that drops a URL exactly when the exclude alternation matches it or some include term does not |
| `CrawlersUrlFilter.UrlFilterCrawler.RunCrawler` | crawlers/url_filter.py:32-38 | prints the banner when asked, then always raises TypeError |
| `CrawlersUrlFilter.UrlFilterCrawler.RunCrawlerIntended` | crawlers/url_filter.py:32-38 | the banner when asked, then the base display loop over the stream the engine yields for this crawler's URL filter |
| `CrawlersUrlFilter.DropFilterIff` | crawlers/url_filter.py:22-30 | the `lor`/`inverse`/`land` composition drops exactly when the exclude pattern matches or some include pattern misses |
| `CrawlersUrlFilter.KeptIffAllIncludedNoneExcluded` | crawlers/url_filter.py:22-30 | for literal terms and a non-empty exclude list, a URL is dropped iff it holds some exclude term or lacks some include term, and kept iff it holds every include term and no exclude term |
| `CrawlersUrlFilter.FullyIncludedButExcludedIsDropped` | crawlers/url_filter.py:30 | inclusion does not override exclusion |
| `CrawlersUrlFilter.EmptyExcludeListDropsEverything` | crawlers/url_filter.py:22-23 | with no exclude term every URL is dropped |
| `CrawlersUrlFilter.MoreTermsNeverKeep` | crawlers/url_filter.py:22-30 | with a non-empty exclude list, adding include or exclude terms never turns a dropped URL into a kept one |
| `CrawlersUrlFilter.TermOrderIrrelevant` | crawlers/url_filter.py:22-30 | the verdict depends only on the multiset of terms, not on their order |
| `CrawlersUrlFilter.FirstExcludeTermCanKeep` | crawlers/url_filter.py:22-23 | the one exception to monotonicity: going from no exclude term to one can keep a URL |
| `CrawlersUrlFilter.NewsOpinionVerdict` | crawlers/url_filter.py:22-30 | include ["news"], exclude ["opinion"]: kept iff the URL holds "news" and not "opinion" |
| `CrawlersUrlFilter.NoCaseFolding` | crawlers/url_filter.py:22-28 | URLs and terms are not case-folded: ".../NEWS/story" misses "news" and is dropped |
| `CrawlersUrlFilter.NewsStoryKept` | tests/test_crawlers.py:106-141 | "http://example.com/news/story" is kept |
| `CrawlersUrlFilter.OpinionPieceDropped` | tests/test_crawlers.py:106-141 | "http://example.com/opinion/story" is dropped |
| `CrawlersBodyFilter.BodyFilterCrawler.constructor` | crawlers/body_filter.py:8-12 | stores the engine, limit and window through the base constructor, and the terms |
| `CrawlersBodyFilter.BodyFilterCrawler.BodyFilter` | crawlers/body_filter.py:14-19 | keep exactly when the body is present and non-empty and one of the crawler's terms occurs in the casefolded body |
| `CrawlersBodyFilter.BodyFilterCrawler.RunCrawler` | crawlers/body_filter.py:21-27 | prints the term banner, then raises AttributeError on the undefined `publishing_date_filter` |
| `CrawlersBodyFilter.MissingBodyOrNoTermsDrops` | crawlers/body_filter.py:15-19 | a missing or empty body is dropped, and an empty term list drops everything |
| `CrawlersBodyFilter.OnlyBodyConsulted` | crawlers/body_filter.py:15 | the verdict depends on the body alone, not on the title or any other field |
| `CrawlersBodyFilter.UpperCaseTermNeverKeeps` | crawlers/body_filter.py:17 | a first term with an upper-case letter can be removed from the list without changing any verdict |
| `CrawlersBodyFilter.EpaNeverKeeps` | crawlers/body_filter.py:17 | the term "EPA" alone drops every article |
| `CrawlersBodyFilter.MoreTermsNeverDrop` | crawlers/body_filter.py:16-18 | adding terms never turns a keep into a drop |
| `CrawlersBodyFilter.TermOrderIrrelevant` | crawlers/body_filter.py:16-18 | the verdict does not depend on the order of the terms |
| `CrawlersBodyFilter.TestArticleKept` | tests/test_crawlers.py:64-93 | with terms ["test"], the body "This is a test article" is kept |
| `CrawlersBodyFilter.NonMatchingArticleDropped` | tests/test_crawlers.py:64-93 | with terms ["test"], the body "This article doesn't match" is dropped |
| `CrawlersBodyFilter.FoldedBodyFilter` | crawlers/body_filter.py:17 | the corrected test that casefolds the terms too: keep when some casefolded term occurs in the casefolded body |
| `CrawlersBodyFilter.FoldedFilterKeepsEpa` | crawlers/body_filter.py:17 | under the corrected test, a body that mentions "EPA" is kept by the term "EPA" |
| `MockData.NormalizeSourceName` | crawlers/mock_data.py:6-8 | the result holds no whitespace and is no longer than the name |
| `MockData.NormalizeConcat` | crawlers/mock_data.py:8 | normalising a concatenation normalises each part in place, so every non-whitespace character is kept in order |
| `MockData.NormalizeKeepsClean` | crawlers/mock_data.py:8 | a name without whitespace is unchanged |
| `MockData.NormalizeIdempotent` | crawlers/mock_data.py:8 | normalising twice is normalising once |
| `MockData.NormalizeTwoWords` | crawlers/mock_data.py:6-8 | two words around a space are joined, as "The Guardian" becomes "TheGuardian" |
| `MockData.NormalizedNamesMembers` | crawlers/mock_data.py:157-159 | a name is among the normalised requested names exactly when some requested name normalises to it |
| `MockData.CutoffWindow` | crawlers/mock_data.py:152-165 | a record `k` days old passes the recency test exactly when `k <= days_back`; one loaded now passes exactly when `days_back` is not negative |
| `MockData.TermsMatchIff` | crawlers/mock_data.py:179-198 | a URL search needs some lowered include term in the lowered URL and, when exclude terms are given, none of them; a body search needs some lowered include term in the lowered title, a space and the body |
| `MockData.QualifyingMembers` | crawlers/mock_data.py:161-200 | a record is among the qualifying ones exactly when it is in the catalogue and passes every test |
| `MockData.Cap` | crawlers/mock_data.py:203-204 | no cap exactly when `max_articles` is None or 0; a positive limit caps at that limit; a negative limit caps at one, since the loop breaks after the first record |
| `MockData.MockSelection` | crawlers/mock_data.py:161-206 | the selection is never longer than the catalogue nor than the cap |
| `MockData.GetMockArticles` | crawlers/mock_data.py:140-206 | the loop returns the qualifying records cut at the cap (`MockSelection`), stopping as soon as the cap is reached |
| `MockData.SelectionIsSubsequence` | crawlers/mock_data.py:161-200 | the result is a subsequence of the catalogue: nothing reordered, nothing taken twice |
| `MockData.SelectedRecordsPassEveryTest` | crawlers/mock_data.py:152-198 | each returned record is from the catalogue, is no older than the cutoff, and has its normalised source among the normalised requested names when names are given; a URL search also needs a lowered include term in the lowered URL and no lowered exclude term; a body search needs a lowered include term in the lowered title and body |
| `MockData.SelectionIsLeadingQualifying` | crawlers/mock_data.py:203-206 | the result is a prefix of the qualifying records; with no limit it holds every qualifying record; a positive limit gives min(limit, qualifying) records; a negative one gives at most one |
| `MockData.BodySearchIgnoresExclude` | crawlers/mock_data.py:192-198 | in a body search the exclude terms change nothing |
| `MockData.SourceFilterDependsOnNormalizedNames` | crawlers/mock_data.py:157-174 | `sources=None` and `sources=[]` select the same records, and source lists with the same normalised names select the same records |
| `MockCrawlers.MemberNames` | crawlers/mock_crawler.py:33-35 | the names of the members whose attribute name does not start with "__" and that have a `name` |
| `MockCrawlers.NamesOf` | crawlers/mock_crawler.py:31-41 | by the first branch that applies: an object with `__dict__` gives its members' names and never its own; another object with a name gives that name; a string gives itself; anything else gives nothing |
| `MockCrawlers.ExtractedNames` | crawlers/mock_crawler.py:29-42 | a name is collected exactly when some source contributes it |
| `MockCrawlers.ListOfSet` | crawlers/mock_crawler.py:42 | `list(names)` holds every name of the set once, in some order |
| `MockCrawlers.MockCrawler.constructor` | crawlers/mock_crawler.py:8-25 | wraps a non-list, non-tuple source in a one-element list; `exclude_terms=None` becomes `[]`; every other argument is stored unchanged |
| `MockCrawlers.MockCrawler.ExtractSourceNames` | crawlers/mock_crawler.py:27-42 | returns exactly the names the sources contribute, each once |
| `MockCrawlers.MockCrawler.GetFilterParams` | crawlers/mock_crawler.py:44-46 | no URL filter |
| `MockCrawlers.MockCrawler.RunCrawler` | crawlers/mock_crawler.py:48-73 | returns the mock search over the stored terms, limit, window, URL flag and the extracted names, whatever order the name set is listed in |
| `MockCrawlers.NoExtractedNamesNoSourceFilter` | crawlers/mock_crawler.py:57-68 | when no name is extracted, the empty list applies no source filter |
| `MockCrawlers.DictObjectGivesMemberNamesOnly` | crawlers/mock_crawler.py:32-36 | an object with `__dict__` contributes its non-dunder members' names, never its own name |
| `SearchesBase.BaseCrawler.constructor` | searches/base_crawler.py:8-12 | stores the limit and the window and fixes the end date at today minus `days` |
| `SearchesBase.BaseCrawler.RunCrawler` | searches/base_crawler.py:18-25 | asks the engine once with `max_articles` and the crawl parameters, and prints what `SearchLoop` prescribes |
| `SearchesBase.SearchLoop` | searches/base_crawler.py:20-25 | the run ends without exception exactly when every article has a date, and otherwise with AttributeError; it never prints more items than articles |
| `SearchesBase.Printed` | searches/base_crawler.py:21-25 | an article prints at most one item: itself exactly when its date is after the end date, a skip notice exactly when it is not and the limit is truthy |
| `SearchesBase.SearchLoopDisplaysNewer` | searches/base_crawler.py:20-25 | with all dates present, the whole stream is consumed and the displayed articles are those newer than the end date, in yield order |
| `SearchesBase.SearchLoopEvents` | searches/base_crawler.py:20-25 | with all dates present, an older article prints a skip notice under a set limit and nothing otherwise: one printed item per article under a set limit, one per newer article without one |
| `SearchesBase.SearchLoopStopsAtMissingDate` | searches/base_crawler.py:21 | an article without a date ends the run with AttributeError after what the earlier articles printed |
| `SearchesBodyFilter.EndDate` | searches/body_filter.py:8-10 | `END_DATE` lies before today |
| `SearchesBodyFilter.BodyFilter` | searches/body_filter.py:14-19 | keep exactly when the non-empty casefolded body holds "pollution", "climate crisis" or "environmental" |
| `SearchesBodyFilter.PrintRecent` | searches/body_filter.py:21-24 | prints, in crawl order, the articles the engine yields for `body_filter` that are dated after `END_DATE` |
| `SearchesBodyFilter.EachTermCanKeep` | searches/body_filter.py:7-17 | a body that casefolds to one of the terms is kept |
| `SearchesBodyFilter.TermsAreLowerCase` | searches/body_filter.py:7 | every term is already lower case |
| `SearchesBodyFilter.PrintedAreFromTodayOn` | searches/body_filter.py:21-24 | with `DAYS = 1`, only articles dated today or later are printed, each once and in crawl order |
| `SearchesUrlFilter.IsGeneralComposition` | searches/url_filter.py:6-7 | the predicate is the `crawlers/url_filter.py` composition with include ["coral", "climate"] and exclude ["advertisement", "podcast"] |
| `SearchesUrlFilter.DropIff` | searches/url_filter.py:6-10 | a URL is dropped exactly when it holds "advertisement" or "podcast", or lacks "coral", or lacks "climate" |
| `SearchesUrlFilter.SwapIncludes` | searches/url_filter.py:7 | swapping the two include terms changes no verdict |
| `SearchesUrlFilter.CoralClimatePodcastDropped` | searches/url_filter.py:6-10 | a URL holding "coral", "climate" and "podcast" is dropped |
| `ExamplesFilter1.DateFilter` | examples/filter1.py:7-12 | keep exactly when the date is present and lies between today-14 and today-7, both ends included |
| `ExamplesFilter1.DateFilterAsWritten` | examples/filter1.py:7-8 | as written, every call raises NameError |
| `ExamplesFilter1.DateFilterAsWrittenNeverDecides` | examples/filter1.py:7-12 | as written, the filter never returns the verdict of the week window, for any article |
| `ExamplesFilter1.DateWindowIsWeekBeforeLast` | examples/filter1.py:6-11 | the window excludes today and the six days before, and anything older than 14 days |
| `ExamplesFilter1.BodyFilter` | examples/filter1.py:15-20 | keep exactly when the non-empty casefolded body holds "pollution" or "climate crisis" |
| `ExamplesFilter1.BodyFilterNarrowerThanSearches` | examples/filter1.py:15-20 | every body this filter keeps, the `searches` body filter keeps too |
| `ExamplesFilter1.TopicFilter` | examples/filter1.py:22-26 | keep exactly when the topics are present and non-empty and one topic casefolds to exactly "usa" |
| `ExamplesFilter1.WholeTopicMatch` | examples/filter1.py:23-25 | the topic "USA" keeps an article; the topic "USA Today" does not |
| `ExamplesFilter2.IsGeneralComposition` | examples/filter2.py:6-13 | the predicate is the general composition with include ["politic", "trump"] and exclude ["advertisement", "podcast"] |
| `ExamplesFilter2.KeptIff` | examples/filter2.py:6-13 | one dropping side suffices; a URL is kept exactly when it holds "politic" and "trump" and neither "advertisement" nor "podcast" |
| `ExamplesFilter2.PoliticsSatisfiesPolitic` | examples/filter2.py:10 | "politic" matches as a substring, so a URL about "politics" can be kept |

## Left out

- The crawling engine is not modelled: fetching, sitemap discovery, extraction, and how
  `only_complete` and `url_filter` are applied inside `crawl`. The engine is a function
  parameter that returns a finite stream.
- `UrlFilters.Search`: a regular expression is modelled only as literal alternatives
  separated by `|`. The patterns in the repository are all of that form. Other regex
  metacharacters are not interpreted.
- `Text.Lower`: `str.lower` and `str.casefold` are modelled for ASCII letters only.
  Full Unicode case mapping is left out.
- Printed text is not modelled. The display loops record events (displayed article, skip
  notice, ".", term banners) instead of text. The messages that `get_mock_articles` and
  `MockCrawler.run_crawler` print are left out. So `displayOutput` has no effect in
  `MockCrawlers.MockCrawler.RunCrawler`.
- The `MockArticle` wrapper class (`crawlers/mock_data.py:105-137`) only exposes the record's
  fields. The model returns the records themselves.
- `MockData.MockArticles`: the five concrete records of `MOCK_ARTICLES`
  (`crawlers/mock_data.py:11-102`) are written out as data only. `MockCrawlers.MockCrawler.RunCrawler`
  and `MockData.GetMockArticles` take the catalogue as a parameter, so every property holds for
  any catalogue, this one included. No contract or lemma states facts about the five records,
  because their long literal bodies are too large to unfold in a proof.
- `CrawlersBodyFilter.BodyFilterCrawler.RunCrawler`: the `only_complete` predicate that
  `get_filter_params` would build is not modelled. It refers to an attribute that nothing
  defines, so its meaning cannot be recovered.
- The module-level print loops of `searches/url_filter.py`, `examples/filter1.py` and
  `examples/filter2.py` are not modelled. They print every article the engine yields and
  select nothing themselves.
- `crawlers/single_source.py` is not modelled separately. It is
  `CrawlersBase.BaseCrawler.RunCrawler` with no filter parameters.
- `timeout_seconds` is stored by the mock crawler and never read. The tests mention timeouts,
  signal alarms and validation errors, but the code has none of them.
- `api.py`, `main.py`, `crawlers/helpers.py` and `searches/helpers.py` are not modelled. They
  are HTTP routing, command-line dispatch and printing.
- Dates are whole day numbers (`publishing_date.date()`). The mock pipeline uses seconds, and
  a day is 86400 seconds. Time zones and sub-second precision are not modelled.

## Findings

| source | as written | input that shows it | evidently intended | confidence | as-written member | corrected member |
|---|---|---|---|---|---|---|
| crawlers/url_filter.py:38 | `run_crawler` passes `display_output=` to `BaseCrawler.run_crawler`, which takes no such parameter, so it raises TypeError after the banner | any call, e.g. `run_crawler(display_output=True)` | run the base display loop with this crawler's URL filter | not executed; high | `CrawlersUrlFilter.UrlFilterCrawler.RunCrawler` | `CrawlersUrlFilter.UrlFilterCrawler.RunCrawlerIntended` |
| crawlers/body_filter.py:17 | the body is casefolded but the terms are not, so a term with a capital letter never matches | terms ["EPA"] (one of the default terms) and the body "The EPA announced new rules": the article is dropped | the term "EPA" keeps an article that mentions the EPA | not executed; medium | `CrawlersBodyFilter.EpaNeverKeeps` | `CrawlersBodyFilter.FoldedFilterKeepsEpa` |
| examples/filter1.py:8 | `datetime` is never imported, so `date_filter` raises NameError on its first line; the script never calls it | any call, e.g. `date_filter({})` | the week-before-last window of the comment above it | not executed; high | `ExamplesFilter1.DateFilterAsWrittenNeverDecides` | `ExamplesFilter1.DateFilter` |

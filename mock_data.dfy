/** `crawlers/mock_data.py`: a fixed catalogue of five article records and the search the mock
    crawler runs over it (recency cutoff, source names, URL or body terms, a cap on the count).
    Times are seconds; the catalogue's dates are fixed relative to the moment it was loaded. */
module MockData {
  import opened Text
  import opened Articles

  /** `"".join(name.split())`: every whitespace character removed, the rest kept in order. */
  function NormalizeSourceName(name: string): (r: string)
    ensures |r| <= |name|
    ensures forall i :: 0 <= i < |r| ==> !IsWhitespace(r[i])
  {
    if name == [] then []
    else (if IsWhitespace(name[0]) then [] else [name[0]]) + NormalizeSourceName(name[1..])
  }

  /** One entry of `MOCK_ARTICLES`. */
  datatype MockRecord = MockRecord(
    title: string,
    url: string,
    body: string,
    source: string,
    publishingDate: int,
    authors: seq<string>)

  const SecondsPerDay: int := 86400

  function Body1(): string {
    "Climate change continues to be a pressing issue. Scientists warn about rising temperatures" +
    " and their impact on ecosystems. Recent studies show concerning trends in global warming."
  }

  function Body2(): string {
    "Major technology companies are facing increased scrutiny over data privacy and market" +
    " dominance. Lawmakers propose new regulations to address concerns."
  }

  function Body3(): string {
    "Artificial intelligence continues to evolve with new breakthroughs in machine learning and" +
    " neural networks. Researchers develop more efficient algorithms that are transforming" +
    " industries across the globe.\n\nIn the field of natural language processing, large language" +
    " models have achieved unprecedented capabilities in understanding and generating" +
    " human-like text. These models are now being used in customer service, content creation," +
    " and even scientific research. The latest models can process and analyze vast amounts of" +
    " data, identifying patterns that were previously impossible to detect.\n\nComputer vision" +
    " has also seen remarkable progress, with AI systems now able to identify objects, people," +
    " and even emotions with near-human accuracy. This technology is being applied in" +
    " autonomous vehicles, medical imaging, and security systems. The integration of AI with" +
    " edge computing has enabled real-time processing of visual data, opening up new" +
    " possibilities for smart cities and industrial automation.\n\nIn healthcare, AI is" +
    " revolutionizing diagnostics and treatment planning. Machine learning algorithms can" +
    " analyze medical images to detect diseases earlier and with greater accuracy than" +
    " traditional methods. AI-powered systems are also helping to predict patient outcomes and" +
    " optimize treatment plans, leading to more personalized and effective healthcare.\n\nThe" +
    " development of quantum computing is expected to further accelerate AI capabilities." +
    " Quantum algorithms could potentially solve complex optimization problems that are" +
    " currently intractable for classical computers. This could lead to breakthroughs in drug" +
    " discovery, materials science, and climate modeling.\n\nHowever, these advances also raise" +
    " important ethical considerations. The increasing power of AI systems necessitates careful" +
    " consideration of privacy, bias, and accountability. Researchers and policymakers are" +
    " working to establish frameworks that ensure AI development proceeds in a responsible and" +
    " beneficial manner.\n\nThe future of AI looks promising, with ongoing research in areas like" +
    " explainable AI, which aims to make AI decision-making processes more transparent and" +
    " understandable. As these technologies continue to evolve, they will likely transform our" +
    " society in ways we are only beginning to imagine."
  }

  function Body4(): string {
    "The healthcare sector has seen rapid innovation in response to global challenges." +
    " Telemedicine and digital health solutions have become mainstream, fundamentally" +
    " transforming how medical care is delivered and accessed worldwide.\n\nThe pandemic" +
    " accelerated the adoption of telemedicine by decades, forcing healthcare systems to" +
    " rapidly implement remote consultation platforms. What was once considered a niche service" +
    " became essential infrastructure overnight. Hospitals and clinics that had never offered" +
    " virtual care suddenly found themselves conducting the majority of their consultations" +
    " through video calls. This shift not only maintained continuity of care during lockdowns" +
    " but also revealed the potential for more accessible and efficient healthcare" +
    " delivery.\n\nDigital health platforms experienced unprecedented growth during this period." +
    " Mobile health applications saw user engagement increase by over 300%, with patients" +
    " actively monitoring symptoms, medication adherence, and vital signs from their homes." +
    " Wearable devices became crucial tools for early detection of health issues, with some" +
    " smartwatches capable of detecting irregular heart rhythms and even early signs of" +
    " respiratory infections.\n\nArtificial intelligence played a pivotal role in pandemic" +
    " response efforts. Machine learning algorithms were deployed to analyze chest X-rays and" +
    " CT scans, helping radiologists identify COVID-19 pneumonia patterns with remarkable" +
    " accuracy. AI-powered diagnostic tools reduced the time needed for preliminary diagnosis" +
    " from hours to minutes, enabling faster treatment decisions and better resource allocation" +
    " in overwhelmed hospitals.\n\nThe development of mRNA vaccines represented one of the most" +
    " significant scientific achievements in recent history. The speed at which these vaccines" +
    " were developed, tested, and deployed showcased the power of modern biotechnology and" +
    " international collaboration. The success of mRNA technology has opened new possibilities" +
    " for treating other diseases, including cancer and genetic disorders, with researchers now" +
    " exploring personalized vaccine approaches.\n\nRemote patient monitoring systems became" +
    " essential for managing chronic conditions and post-acute care. Patients recovering from" +
    " COVID-19 or other illnesses could be monitored from home using connected devices that" +
    " tracked oxygen levels, heart rate, and other vital signs. This approach reduced hospital" +
    " readmissions while allowing patients to recover in the comfort of their own homes," +
    " improving both outcomes and patient satisfaction.\n\nMental health services underwent a" +
    " digital transformation as well. Teletherapy platforms saw explosive growth as people" +
    " struggled with isolation, anxiety, and depression during lockdowns. Digital mental health" +
    " tools, including AI-powered chatbots and meditation apps, provided accessible support for" +
    " millions of people who might not have otherwise sought help. This shift helped reduce the" +
    " stigma around mental health care and made services more widely available.\n\nHealthcare" +
    " supply chain management was revolutionized through the use of blockchain technology and" +
    " IoT sensors. These innovations provided real-time visibility into the availability and" +
    " location of critical supplies, from personal protective equipment to vaccines. Smart" +
    " inventory systems helped prevent shortages and ensured that resources were distributed" +
    " where they were needed most.\n\nThe integration of electronic health records (EHRs) with" +
    " public health surveillance systems enabled more effective contact tracing and outbreak" +
    " monitoring. Real-time data sharing between healthcare providers and public health" +
    " authorities facilitated faster response times and more targeted interventions. This" +
    " integration also supported research efforts by providing researchers with anonymized data" +
    " to study disease patterns and treatment effectiveness.\n\nRobotic systems found new" +
    " applications in healthcare settings, from disinfection robots that could sanitize" +
    " hospital rooms to delivery robots that reduced human contact while transporting supplies" +
    " and medications. Surgical robots enabled some procedures to continue even when healthcare" +
    " workers were in quarantine, ensuring that critical care could be maintained.\n\nThe future" +
    " of healthcare has been permanently altered by these innovations. Hybrid care models that" +
    " combine in-person and virtual consultations are becoming the new standard. Patients now" +
    " expect the convenience and accessibility of digital health services, while healthcare" +
    " providers have recognized the efficiency and cost-effectiveness of these" +
    " technologies.\n\nInvestment in healthcare technology reached record levels, with venture" +
    " capital funding for digital health startups exceeding previous years by significant" +
    " margins. This influx of capital is driving continued innovation in areas such as" +
    " precision medicine, personalized therapeutics, and predictive analytics.\n\nAs we move" +
    " forward, the lessons learned during the pandemic continue to shape healthcare innovation." +
    " The emphasis on preparedness, resilience, and adaptability has become central to" +
    " healthcare planning. The successful integration of technology into healthcare delivery" +
    " has demonstrated that the sector can evolve rapidly when faced with urgent challenges," +
    " setting the stage for continued transformation in the years to come."
  }

  function Body5(): string {
    "Renewable energy adoption continues to grow worldwide. Solar and wind power installations" +
    " reach record levels as costs decrease, making clean energy more accessible than ever" +
    " before.\n\nSolar energy has seen particularly dramatic growth, with photovoltaic technology" +
    " becoming increasingly efficient and affordable. New developments in perovskite solar" +
    " cells promise even higher efficiency rates, potentially revolutionizing the solar" +
    " industry. Large-scale solar farms are being constructed in previously untapped regions," +
    " while residential solar installations are becoming commonplace in urban areas.\n\nWind" +
    " energy is also experiencing significant advancements. Offshore wind farms are being" +
    " developed in deeper waters, taking advantage of stronger and more consistent winds. New" +
    " turbine designs are increasing energy output while reducing environmental impact." +
    " Floating wind turbines are opening up new possibilities for energy generation in deep" +
    " ocean waters.\n\nEnergy storage solutions are critical to the success of renewable energy." +
    " Breakthroughs in battery technology, including solid-state batteries and flow batteries," +
    " are improving energy density and reducing costs. Grid-scale storage systems are being" +
    " deployed to manage the intermittent nature of renewable energy sources, ensuring reliable" +
    " power supply even when the sun isn't shining or the wind isn't blowing.\n\nThe transition" +
    " to sustainable energy is also creating new economic opportunities. Green jobs in" +
    " renewable energy sectors are growing rapidly, from manufacturing and installation to" +
    " maintenance and research. Countries are investing in workforce development programs to" +
    " train workers for careers in the clean energy economy.\n\nPolicy initiatives are playing a" +
    " crucial role in accelerating the adoption of sustainable energy. Governments worldwide" +
    " are implementing carbon pricing mechanisms, renewable portfolio standards, and tax" +
    " incentives to encourage investment in clean energy. International agreements are" +
    " fostering collaboration on research and development of new technologies.\n\nDespite these" +
    " positive developments, challenges remain. Grid infrastructure needs to be modernized to" +
    " accommodate distributed energy resources. Energy equity must be addressed to ensure that" +
    " the benefits of clean energy reach all communities. And the transition must be managed" +
    " carefully to support workers and communities affected by the shift away from fossil" +
    " fuels.\n\nThe future of sustainable energy looks promising, with continued innovation" +
    " driving down costs and improving efficiency. As technology advances and economies of" +
    " scale are achieved, renewable energy is expected to become the dominant source of power" +
    " worldwide, helping to mitigate climate change while powering economic growth."
  }

  /** `MOCK_ARTICLES`, built when the module is loaded at time `loadedAt`: the k-th record (from
      1) was published k days before that. */
  function MockArticles(loadedAt: int): seq<MockRecord>
  {
    [
      MockRecord(
        "Climate Change: A Global Challenge",
        "https://example.com/climate-change",
        Body1(),
        "The Guardian",
        loadedAt - 1 * SecondsPerDay,
        ["Emma Thompson", "James Wilson"]),
      MockRecord(
        "Tech Giants Face New Regulations",
        "https://example.com/tech-regulations",
        Body2(),
        "The New Yorker",
        loadedAt - 2 * SecondsPerDay,
        ["Sarah Chen"]),
      MockRecord(
        "Advances in AI Technology",
        "https://example.com/ai-advances",
        Body3(),
        "Wired",
        loadedAt - 3 * SecondsPerDay,
        ["Michael Rodriguez", "David Kim", "Lisa Patel"]),
      MockRecord(
        "Healthcare Innovation During Pandemic",
        "https://example.com/healthcare-innovation",
        Body4(),
        "The Guardian",
        loadedAt - 4 * SecondsPerDay,
        ["Dr. Rachel Foster"]),
      MockRecord(
        "Sustainable Energy Solutions",
        "https://example.com/sustainable-energy",
        Body5(),
        "The New Yorker",
        loadedAt - 5 * SecondsPerDay,
        ["Alex Green", "Maria Santos"])
    ]
  }

  /** The arguments of `get_mock_articles` other than the clock. */
  datatype MockQuery = MockQuery(
    includeTerms: seq<string>,
    excludeTerms: Option<seq<string>>,
    maxArticles: Option<int>,
    daysBack: int,
    sources: Option<seq<string>>,
    isUrlSearch: bool)

  /** Python truthiness of an optional list of strings. */
  predicate IsNonEmptyList(terms: Option<seq<string>>) {
    terms.Some? && |terms.value| > 0
  }

  /** `[normalize_source_name(s) for s in sources]` */
  function NormalizedNames(sources: seq<string>): (names: seq<string>)
    ensures |names| == |sources|
    ensures forall i :: 0 <= i < |sources| ==> names[i] == NormalizeSourceName(sources[i])
  {
    seq(|sources|, i requires 0 <= i < |sources| => NormalizeSourceName(sources[i]))
  }

  /** A name is among the normalised names exactly when it normalises some requested name:
      the membership test `article_source not in normalized_sources` relies on. */
  lemma NormalizedNamesMembers(sources: seq<string>)
    ensures forall n :: n in NormalizedNames(sources) <==> exists s :: s in sources && NormalizeSourceName(s) == n
  {
    var names := NormalizedNames(sources);
    forall n ensures n in names <==> exists s :: s in sources && NormalizeSourceName(s) == n {
      if exists s :: s in sources && NormalizeSourceName(s) == n {
        var s :| s in sources && NormalizeSourceName(s) == n;
        var i :| 0 <= i < |sources| && sources[i] == s;
        assert names[i] == n;
      }
      if n in names {
        var i :| 0 <= i < |names| && names[i] == n;
        assert sources[i] in sources;
      }
    }
  }

  /** `datetime.now() - timedelta(days=days_back)` */
  function Cutoff(now: int, daysBack: int): int {
    now - daysBack * SecondsPerDay
  }

  /** The age test counts whole days: a record published `k` days before `now` is recent
      enough exactly when `k` is at most `days_back`; a record from `now` itself passes exactly
      when `days_back` is not negative. */
  lemma CutoffWindow(now: int, daysBack: int, k: int)
    ensures !(now - k * SecondsPerDay < Cutoff(now, daysBack)) <==> k <= daysBack
    ensures !(now < Cutoff(now, daysBack)) <==> daysBack >= 0
  {
  }

  /** The term test: for a URL search, some lowered include term is in the lowered URL and,
      when exclude terms are given, none of them is; for a body search, some lowered include
      term is in the lowered title, a space and the body. */
  predicate TermsMatch(r: MockRecord, q: MockQuery) {
    if q.isUrlSearch then
      AnyOccurs(LowerEach(q.includeTerms), Lower(r.url))
      && !(IsNonEmptyList(q.excludeTerms) && AnyOccurs(LowerEach(q.excludeTerms.value), Lower(r.url)))
    else
      AnyOccurs(LowerEach(q.includeTerms), Lower(r.title + " " + r.body))
  }

  /** The term test in terms of the query's own terms: a URL search matches exactly when some
      include term, lowered, occurs in the lowered URL and, when exclude terms are given, no
      exclude term does; a body search matches exactly when some include term, lowered, occurs
      in the lowered title, space and body. The exclude terms play no part in a body search. */
  lemma TermsMatchIff(r: MockRecord, q: MockQuery)
    ensures q.isUrlSearch ==> (TermsMatch(r, q) <==>
      && (exists t :: t in q.includeTerms && Contains(Lower(r.url), Lower(t)))
      && !(IsNonEmptyList(q.excludeTerms) && exists t :: t in q.excludeTerms.value && Contains(Lower(r.url), Lower(t))))
    ensures !q.isUrlSearch ==> (TermsMatch(r, q) <==>
      exists t :: t in q.includeTerms && Contains(Lower(r.title + " " + r.body), Lower(t)))
  {
    if q.isUrlSearch {
      AnyOccursLowerEach(q.includeTerms, Lower(r.url));
      if IsNonEmptyList(q.excludeTerms) {
        AnyOccursLowerEach(q.excludeTerms.value, Lower(r.url));
      }
    } else {
      AnyOccursLowerEach(q.includeTerms, Lower(r.title + " " + r.body));
    }
  }

  /** A record survives every `continue` of the loop. */
  predicate Qualifies(r: MockRecord, q: MockQuery, now: int) {
    && !(r.publishingDate < Cutoff(now, q.daysBack))
    && (IsNonEmptyList(q.sources) ==> NormalizeSourceName(r.source) in NormalizedNames(q.sources.value))
    && TermsMatch(r, q)
  }

  /** The qualifying records of `records`, in order. */
  function Qualifying(records: seq<MockRecord>, q: MockQuery, now: int): (out: seq<MockRecord>)
    ensures |out| <= |records|
  {
    if records == [] then []
    else
      var last := records[|records| - 1];
      var init := records[..|records| - 1];
      assert records == init + [last];
      Qualifying(init, q, now) + (if Qualifies(last, q, now) then [last] else [])
  }

  /** The count at which `if max_articles and len(filtered_articles) >= max_articles: break`
      stops the loop: none when `max_articles` is None or 0, one when it is negative (the test
      holds after the first append). */
  function Cap(maxArticles: Option<int>): (cap: Option<nat>)
    ensures cap.None? <==> !IsSetLimit(maxArticles)
    ensures maxArticles.Some? && maxArticles.value > 0 ==> cap == Some(maxArticles.value)
    ensures maxArticles.Some? && maxArticles.value < 0 ==> cap == Some(1)
  {
    if !IsSetLimit(maxArticles) then None
    else if maxArticles.value < 1 then Some(1)
    else Some(maxArticles.value)
  }

  /** What `get_mock_articles` returns: the qualifying records in catalogue order, cut at the cap. */
  function MockSelection(catalogue: seq<MockRecord>, q: MockQuery, now: int): (selection: seq<MockRecord>)
    ensures |selection| <= |catalogue|
    ensures Cap(q.maxArticles).Some? ==> |selection| <= Cap(q.maxArticles).value
  {
    var all := Qualifying(catalogue, q, now);
    var cap := Cap(q.maxArticles);
    if cap.Some? && cap.value < |all| then all[..cap.value] else all
  }

  /** `get_mock_articles` over `catalogue` (`MOCK_ARTICLES`), with `now` the clock reading. */
  method GetMockArticles(catalogue: seq<MockRecord>, includeTerms: seq<string>, excludeTerms: Option<seq<string>>,
                         maxArticles: Option<int>, daysBack: int, sources: Option<seq<string>>,
                         isUrlSearch: bool, now: int)
    returns (filteredArticles: seq<MockRecord>)
    ensures filteredArticles ==
      MockSelection(catalogue, MockQuery(includeTerms, excludeTerms, maxArticles, daysBack, sources, isUrlSearch), now)
  {
    ghost var q := MockQuery(includeTerms, excludeTerms, maxArticles, daysBack, sources, isUrlSearch);
    filteredArticles := [];
    var cutoffDate := now - daysBack * SecondsPerDay;
    var normalizedSources := if IsNonEmptyList(sources) then NormalizedNames(sources.value) else [];
    var i := 0;
    while i < |catalogue|
      invariant 0 <= i <= |catalogue|
      invariant filteredArticles == Qualifying(catalogue[..i], q, now)
      invariant Cap(maxArticles).Some? ==> |filteredArticles| < Cap(maxArticles).value
    {
      var articleData := catalogue[i];
      QualifyingSnoc(catalogue, i, q, now);
      i := i + 1;
      if articleData.publishingDate < cutoffDate {
        assert !Qualifies(articleData, q, now);
        continue;
      }
      if IsNonEmptyList(sources) {
        var articleSource := NormalizeSourceName(articleData.source);
        if articleSource !in normalizedSources {
          assert !Qualifies(articleData, q, now);
          continue;
        }
      }
      if isUrlSearch {
        var urlText := Lower(articleData.url);
        if !AnyOccurs(LowerEach(includeTerms), urlText) {
          assert !TermsMatch(articleData, q);
          continue;
        }
        if IsNonEmptyList(excludeTerms) && AnyOccurs(LowerEach(excludeTerms.value), urlText) {
          assert !TermsMatch(articleData, q);
          continue;
        }
      } else {
        var text := Lower(articleData.title + " " + articleData.body);
        if !AnyOccurs(LowerEach(includeTerms), text) {
          assert !TermsMatch(articleData, q);
          continue;
        }
      }
      assert Qualifies(articleData, q, now);
      filteredArticles := filteredArticles + [articleData];
      if maxArticles.Some? && maxArticles.value != 0 && |filteredArticles| >= maxArticles.value {
        QualifyingPrefix(catalogue, i, q, now);
        return;
      }
    }
    assert catalogue[..i] == catalogue;
  }

  /** The qualifying records are exactly the records that qualify. */
  lemma {:induction false} QualifyingMembers(records: seq<MockRecord>, q: MockQuery, now: int)
    ensures forall r :: r in Qualifying(records, q, now) <==> r in records && Qualifies(r, q, now)
    decreases |records|
  {
    if records != [] {
      var init := records[..|records| - 1];
      QualifyingMembers(init, q, now);
      assert records == init + [records[|records| - 1]];
    }
  }

  /** One more record of the catalogue: the qualifying ones grow by that record when it qualifies. */
  lemma QualifyingSnoc(records: seq<MockRecord>, i: nat, q: MockQuery, now: int)
    requires i < |records|
    ensures Qualifying(records[..i + 1], q, now) ==
      Qualifying(records[..i], q, now) + if Qualifies(records[i], q, now) then [records[i]] else []
  {
    assert records[..i + 1][..i] == records[..i];
  }

  /** The records qualifying in a prefix of the catalogue are a prefix of those qualifying in
      the whole. */
  lemma {:induction false} QualifyingPrefix(records: seq<MockRecord>, i: nat, q: MockQuery, now: int)
    requires i <= |records|
    ensures var part := Qualifying(records[..i], q, now);
      var all := Qualifying(records, q, now);
      |part| <= |all| && all[..|part|] == part
    decreases |records|
  {
    if i < |records| {
      var init := records[..|records| - 1];
      assert init[..i] == records[..i];
      QualifyingPrefix(init, i, q, now);
    } else {
      assert records[..i] == records;
    }
  }

  /** `xs` is `ys` with some elements left out, the rest in the same order. */
  predicate IsSubsequence<T(==)>(xs: seq<T>, ys: seq<T>)
    decreases |ys|
  {
    if xs == [] then true
    else if ys == [] then false
    else
      (xs[|xs| - 1] == ys[|ys| - 1] && IsSubsequence(xs[..|xs| - 1], ys[..|ys| - 1]))
      || IsSubsequence(xs, ys[..|ys| - 1])
  }

  lemma {:induction false} QualifyingIsSubsequence(records: seq<MockRecord>, q: MockQuery, now: int)
    ensures IsSubsequence(Qualifying(records, q, now), records)
    decreases |records|
  {
    if records != [] {
      var last := records[|records| - 1];
      var init := records[..|records| - 1];
      var part := Qualifying(init, q, now);
      QualifyingIsSubsequence(init, q, now);
      assert Qualifying(records, q, now) == part + if Qualifies(last, q, now) then [last] else [];
      if Qualifies(last, q, now) {
        var xs := part + [last];
        assert xs[..|xs| - 1] == part && xs[|xs| - 1] == last;
        assert IsSubsequence(xs, records);
      } else {
        assert part + [] == part;
        if part != [] {
          assert IsSubsequence(part, records);
        }
      }
    }
  }

  lemma {:induction false} PrefixIsSubsequence<T>(xs: seq<T>, ys: seq<T>, k: nat)
    requires k <= |xs|
    requires IsSubsequence(xs, ys)
    ensures IsSubsequence(xs[..k], ys)
    decreases |ys|
  {
    if k < |xs| && ys != [] {
      var xs' := xs[..|xs| - 1];
      var ys' := ys[..|ys| - 1];
      assert xs'[..k] == xs[..k];
      if xs[|xs| - 1] == ys[|ys| - 1] && IsSubsequence(xs', ys') {
        PrefixIsSubsequence(xs', ys', k);
      } else {
        PrefixIsSubsequence(xs, ys', k);
      }
      if xs[..k] != [] {
        assert IsSubsequence(xs[..k], ys');
      }
    } else if k == |xs| {
      assert xs[..k] == xs;
    }
  }

  /** The result keeps catalogue order and takes no record twice. */
  lemma SelectionIsSubsequence(catalogue: seq<MockRecord>, q: MockQuery, now: int)
    ensures IsSubsequence(MockSelection(catalogue, q, now), catalogue)
  {
    var all := Qualifying(catalogue, q, now);
    QualifyingIsSubsequence(catalogue, q, now);
    var cap := Cap(q.maxArticles);
    if cap.Some? && cap.value < |all| {
      PrefixIsSubsequence(all, catalogue, cap.value);
    }
  }

  /** Every returned record comes from the catalogue and passes each test of the loop: it is no
      older than the cutoff, its normalised source is among the normalised requested names when
      names are given, and its lowered URL (URL search) or lowered title and body (body
      search) holds a lowered include term, the URL holding no lowered exclude term. */
  lemma SelectedRecordsPassEveryTest(catalogue: seq<MockRecord>, q: MockQuery, now: int, r: MockRecord)
    requires r in MockSelection(catalogue, q, now)
    ensures r in catalogue
    ensures r.publishingDate >= now - q.daysBack * SecondsPerDay
    ensures IsNonEmptyList(q.sources) ==>
      exists s :: s in q.sources.value && NormalizeSourceName(s) == NormalizeSourceName(r.source)
    ensures q.isUrlSearch ==> exists t :: t in q.includeTerms && Contains(Lower(r.url), Lower(t))
    ensures q.isUrlSearch && IsNonEmptyList(q.excludeTerms) ==>
      forall t :: t in q.excludeTerms.value ==> !Contains(Lower(r.url), Lower(t))
    ensures !q.isUrlSearch ==> exists t :: t in q.includeTerms && Contains(Lower(r.title + " " + r.body), Lower(t))
  {
    var all := Qualifying(catalogue, q, now);
    assert r in all;
    QualifyingMembers(catalogue, q, now);
    AnyOccursLowerEach(q.includeTerms, Lower(r.url));
    AnyOccursLowerEach(q.includeTerms, Lower(r.title + " " + r.body));
    if IsNonEmptyList(q.excludeTerms) {
      AnyOccursLowerEach(q.excludeTerms.value, Lower(r.url));
    }
    if IsNonEmptyList(q.sources) {
      var names := NormalizedNames(q.sources.value);
      var i :| 0 <= i < |names| && names[i] == NormalizeSourceName(r.source);
      assert q.sources.value[i] in q.sources.value;
    }
  }

  /** With `max_articles` None or 0 every qualifying record of the catalogue is returned;
      with a positive limit the result is the first qualifying records, as many as the limit
      allows or as qualify; with a negative one it is the first qualifying record alone. */
  lemma SelectionIsLeadingQualifying(catalogue: seq<MockRecord>, q: MockQuery, now: int)
    ensures var all := Qualifying(catalogue, q, now);
      var sel := MockSelection(catalogue, q, now);
      && sel == all[..|sel|]
      && (!IsSetLimit(q.maxArticles) ==> forall r :: r in catalogue && Qualifies(r, q, now) ==> r in sel)
      && (q.maxArticles.Some? && q.maxArticles.value > 0 ==>
            |sel| == if |all| < q.maxArticles.value then |all| else q.maxArticles.value)
      && (q.maxArticles.Some? && q.maxArticles.value < 0 ==> |sel| == if all == [] then 0 else 1)
  {
    QualifyingMembers(catalogue, q, now);
  }

  /** The exclude terms play no part in a body search. */
  lemma BodySearchIgnoresExclude(catalogue: seq<MockRecord>, q: MockQuery, now: int, excludeTerms: Option<seq<string>>)
    requires !q.isUrlSearch
    ensures MockSelection(catalogue, q, now) == MockSelection(catalogue, q.(excludeTerms := excludeTerms), now)
  {
    QualifyingRespects(catalogue, q, q.(excludeTerms := excludeTerms), now);
  }

  /** `sources=None` and `sources=[]` both apply no source filter, and two source lists with
      the same normalised names select the same records, whatever their order or repetitions. */
  lemma SourceFilterDependsOnNormalizedNames(catalogue: seq<MockRecord>, q: MockQuery, now: int,
                                              sources1: seq<string>, sources2: seq<string>)
    requires forall n :: n in NormalizedNames(sources1) <==> n in NormalizedNames(sources2)
    ensures MockSelection(catalogue, q.(sources := Some([])), now) == MockSelection(catalogue, q.(sources := None), now)
    ensures MockSelection(catalogue, q.(sources := Some(sources1)), now)
         == MockSelection(catalogue, q.(sources := Some(sources2)), now)
  {
    QualifyingRespects(catalogue, q.(sources := Some([])), q.(sources := None), now);
    if |sources1| > 0 {
      assert NormalizedNames(sources1)[0] in NormalizedNames(sources2);
    }
    if |sources2| > 0 {
      assert NormalizedNames(sources2)[0] in NormalizedNames(sources1);
    }
    QualifyingRespects(catalogue, q.(sources := Some(sources1)), q.(sources := Some(sources2)), now);
  }

  lemma {:induction false} QualifyingRespects(records: seq<MockRecord>, q1: MockQuery, q2: MockQuery, now: int)
    requires forall r :: r in records ==> Qualifies(r, q1, now) == Qualifies(r, q2, now)
    ensures Qualifying(records, q1, now) == Qualifying(records, q2, now)
    decreases |records|
  {
    if records != [] {
      var init := records[..|records| - 1];
      assert records[|records| - 1] in records;
      assert forall r :: r in init ==> r in records;
      QualifyingRespects(init, q1, q2, now);
    }
  }

  lemma {:induction false} NormalizeConcat(a: string, b: string)
    ensures NormalizeSourceName(a + b) == NormalizeSourceName(a) + NormalizeSourceName(b)
  {
    if a == [] {
      assert a + b == b;
    } else {
      assert (a + b)[1..] == a[1..] + b;
      NormalizeConcat(a[1..], b);
    }
  }

  /** A name without whitespace is left as it is. */
  lemma {:induction false} NormalizeKeepsClean(name: string)
    requires forall i :: 0 <= i < |name| ==> !IsWhitespace(name[i])
    ensures NormalizeSourceName(name) == name
  {
    if name != [] {
      NormalizeKeepsClean(name[1..]);
      assert [name[0]] + name[1..] == name;
    }
  }

  lemma NormalizeIdempotent(name: string)
    ensures NormalizeSourceName(NormalizeSourceName(name)) == NormalizeSourceName(name)
  {
    NormalizeKeepsClean(NormalizeSourceName(name));
  }

  /** Two words separated by a space are joined, as "The Guardian" becomes "TheGuardian". */
  lemma NormalizeTwoWords(first: string, second: string)
    requires forall i :: 0 <= i < |first| ==> !IsWhitespace(first[i])
    requires forall i :: 0 <= i < |second| ==> !IsWhitespace(second[i])
    ensures NormalizeSourceName(first + " " + second) == first + second
  {
    var spaced := first + " ";
    NormalizeConcat(first, " ");
    NormalizeSpace();
    NormalizeKeepsClean(first);
    assert NormalizeSourceName(spaced) == first;
    NormalizeConcat(spaced, second);
    NormalizeKeepsClean(second);
  }

  lemma NormalizeSpace()
    ensures NormalizeSourceName(" ") == ""
  {
  }
}

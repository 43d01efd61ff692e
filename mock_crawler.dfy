/** `crawlers/mock_crawler.py`: a crawler that answers from the mock catalogue instead of the
    crawling engine. Its constructor normalises its arguments, and `run_crawler` flattens the
    source objects into a set of names before running the mock search. */
module MockCrawlers {
  import opened Text
  import opened Articles
  import opened MockData
  import CrawlersBase

  /** One item of `vars(source)`: the attribute name and the `name` of the value it holds,
      when that value has one. */
  datatype Member = Member(attribute: string, name: Option<string>)

  /** A value passed as a source: a plain string, or an object, given by whether it has an
      attribute dictionary (`__dict__`), its own `name` attribute if any, and the items of
      its attribute dictionary in order. */
  datatype SourceValue =
    | Str(text: string)
    | Obj(hasDict: bool, ownName: Option<string>, members: seq<Member>)

  /** The `sources` constructor argument: a list or tuple of values, or any other single value. */
  datatype SourcesArg = Sequence(items: seq<SourceValue>) | Scalar(value: SourceValue)

  /** `attribute.startswith('__')` */
  predicate IsDunder(attribute: string) {
    |attribute| >= 2 && attribute[..2] == "__"
  }

  /** The names the members of an attribute dictionary contribute. */
  function MemberNames(members: seq<Member>): (names: set<string>)
    ensures forall n :: n in names <==> exists m :: m in members && !IsDunder(m.attribute) && m.name == Some(n)
  {
    if members == [] then {}
    else
      var last := members[|members| - 1];
      var init := members[..|members| - 1];
      assert members == init + [last];
      MemberNames(init) + if !IsDunder(last.attribute) && last.name.Some? then {last.name.value} else {}
  }

  /** The names one source contributes, by the first branch that applies: an object with an
      attribute dictionary gives the names of its non-dunder members (never its own name),
      another object with a name gives that name, a string gives itself, anything else
      nothing. */
  function NamesOf(source: SourceValue): (names: set<string>)
    ensures source.Str? ==> names == {source.text}
    ensures source.Obj? && source.hasDict ==>
      forall n :: n in names <==> exists m :: m in source.members && !IsDunder(m.attribute) && m.name == Some(n)
    ensures source.Obj? && !source.hasDict ==>
      names == if source.ownName.Some? then {source.ownName.value} else {}
  {
    match source
    case Obj(hasDict, ownName, members) =>
      if hasDict then MemberNames(members)
      else if ownName.Some? then {ownName.value}
      else {}
    case Str(text) => {text}
  }

  /** The set `_extract_source_names` fills. */
  function ExtractedNames(sources: seq<SourceValue>): (names: set<string>)
    ensures forall n :: n in names <==> exists s :: s in sources && n in NamesOf(s)
  {
    if sources == [] then {}
    else
      var last := sources[|sources| - 1];
      var init := sources[..|sources| - 1];
      assert sources == init + [last];
      ExtractedNames(init) + NamesOf(last)
  }

  lemma MemberNamesSnoc(members: seq<Member>, j: nat)
    requires j < |members|
    ensures MemberNames(members[..j + 1]) == MemberNames(members[..j]) +
      if !IsDunder(members[j].attribute) && members[j].name.Some? then {members[j].name.value} else {}
  {
    assert members[..j + 1][..j] == members[..j];
  }

  lemma ExtractedNamesSnoc(sources: seq<SourceValue>, i: nat)
    requires i < |sources|
    ensures ExtractedNames(sources[..i + 1]) == ExtractedNames(sources[..i]) + NamesOf(sources[i])
  {
    assert sources[..i + 1][..i] == sources[..i];
  }

  /** `list(names)`: the elements of a set, once each, in an order the model leaves open. */
  method ListOfSet(names: set<string>) returns (list: seq<string>)
    ensures |list| == |names|
    ensures forall n :: n in list <==> n in names
    ensures forall i, j :: 0 <= i < j < |list| ==> list[i] != list[j]
  {
    list := [];
    var rest := names;
    while rest != {}
      invariant rest !! set n | n in list
      invariant forall n :: n in list || n in rest <==> n in names
      invariant |list| + |rest| == |names|
      invariant forall i, j :: 0 <= i < j < |list| ==> list[i] != list[j]
      decreases |rest|
    {
      var n :| n in rest;
      list := list + [n];
      rest := rest - {n};
    }
  }

  class MockCrawler {
    const sources: seq<SourceValue>
    const maxArticles: Option<int>
    const days: int
    const searchTerms: seq<string>
    const excludeTerms: seq<string>
    const timeoutSeconds: Option<int>
    const isUrlSearch: bool

    /** A single source that is not a list or tuple is wrapped in a one-element list, a missing
        exclude list becomes the empty list, and every other argument is stored as given. */
    constructor (sources: SourcesArg, maxArticles: Option<int>, days: int, searchTerms: seq<string>,
                 excludeTerms: Option<seq<string>>, timeoutSeconds: Option<int>, isUrlSearch: bool)
      ensures this.sources == if sources.Sequence? then sources.items else [sources.value]
      ensures this.excludeTerms == if excludeTerms.Some? then excludeTerms.value else []
      ensures this.maxArticles == maxArticles && this.days == days && this.searchTerms == searchTerms
      ensures this.timeoutSeconds == timeoutSeconds && this.isUrlSearch == isUrlSearch
    {
      this.sources := if sources.Sequence? then sources.items else [sources.value];
      this.maxArticles := maxArticles;
      this.days := days;
      this.searchTerms := searchTerms;
      this.excludeTerms := if excludeTerms.Some? then excludeTerms.value else [];
      this.timeoutSeconds := timeoutSeconds;
      this.isUrlSearch := isUrlSearch;
    }

    /** `_extract_source_names`: every name the sources contribute, each once. */
    method ExtractSourceNames(sources: seq<SourceValue>) returns (names: seq<string>)
      ensures forall n :: n in names <==> exists s :: s in sources && n in NamesOf(s)
      ensures forall i, j :: 0 <= i < j < |names| ==> names[i] != names[j]
    {
      var sourceNames: set<string> := {};
      for i := 0 to |sources|
        invariant sourceNames == ExtractedNames(sources[..i])
      {
        var source := sources[i];
        ExtractedNamesSnoc(sources, i);
        if source.Obj? && source.hasDict {
          ghost var before := sourceNames;
          for j := 0 to |source.members|
            invariant sourceNames == before + MemberNames(source.members[..j])
          {
            var member := source.members[j];
            MemberNamesSnoc(source.members, j);
            if !IsDunder(member.attribute) && member.name.Some? {
              sourceNames := sourceNames + {member.name.value};
            }
          }
          assert source.members[..|source.members|] == source.members;
        } else if source.Obj? && source.ownName.Some? {
          sourceNames := sourceNames + {source.ownName.value};
        } else if source.Str? {
          sourceNames := sourceNames + {source.text};
        }
      }
      assert sources[..|sources|] == sources;
      names := ListOfSet(sourceNames);
    }

    /** Not used by this crawler: no filter parameters. */
    function GetFilterParams(): (p: CrawlersBase.FilterParams)
      ensures !p.UrlFilterParam?
    {
      CrawlersBase.NoParams
    }

    /** `run_crawler`: the mock search over `mockArticles` (the module-level catalogue, as
        `MockArticles(loadedAt)` built it when the module was loaded), read at `now`, with the
        stored terms, limit, window and search kind and the extracted source names. Whichever
        order the set of names is listed in, the result is the same. */
    method RunCrawler(displayOutput: bool, now: int, mockArticles: seq<MockRecord>) returns (articles: seq<MockRecord>)
      ensures forall names: seq<string> | (forall n :: n in names <==> n in ExtractedNames(sources)) ::
        articles == MockSelection(mockArticles,
          MockQuery(searchTerms, Some(excludeTerms), maxArticles, days, Some(names), isUrlSearch), now)
    {
      var sourceNames := ExtractSourceNames(sources);
      articles := GetMockArticles(mockArticles, searchTerms, Some(excludeTerms), maxArticles, days,
                                  Some(sourceNames), isUrlSearch, now);
      ghost var q := MockQuery(searchTerms, Some(excludeTerms), maxArticles, days, Some(sourceNames), isUrlSearch);
      forall names: seq<string> | (forall n :: n in names <==> n in ExtractedNames(sources))
        ensures articles == MockSelection(mockArticles, q.(sources := Some(names)), now)
      {
        SameNamesSameNormalizedNames(sourceNames, names);
        SourceFilterDependsOnNormalizedNames(mockArticles, q, now, sourceNames, names);
      }
    }
  }

  lemma SameNamesSameNormalizedNames(names1: seq<string>, names2: seq<string>)
    requires forall n :: n in names1 <==> n in names2
    ensures forall n :: n in NormalizedNames(names1) <==> n in NormalizedNames(names2)
  {
    forall n | n in NormalizedNames(names1) ensures n in NormalizedNames(names2) {
      var i :| 0 <= i < |names1| && NormalizedNames(names1)[i] == n;
      assert names1[i] in names2;
      var j :| 0 <= j < |names2| && names2[j] == names1[i];
      assert NormalizedNames(names2)[j] == n;
    }
    forall n | n in NormalizedNames(names2) ensures n in NormalizedNames(names1) {
      var i :| 0 <= i < |names2| && NormalizedNames(names2)[i] == n;
      assert names2[i] in names1;
      var j :| 0 <= j < |names1| && names1[j] == names2[i];
      assert NormalizedNames(names1)[j] == n;
    }
  }

  /** When the sources give no name at all, the empty list handed to the search applies no
      source filter: every source is eligible. */
  lemma NoExtractedNamesNoSourceFilter(catalogue: seq<MockRecord>, q: MockQuery, now: int,
                                        sources: seq<SourceValue>, names: seq<string>)
    requires ExtractedNames(sources) == {}
    requires forall n :: n in names <==> n in ExtractedNames(sources)
    ensures MockSelection(catalogue, q.(sources := Some(names)), now) == MockSelection(catalogue, q.(sources := None), now)
  {
    if names != [] {
      FirstIsMember(names);
      assert false;
    }
    SourceFilterDependsOnNormalizedNames(catalogue, q, now, [], []);
  }

  lemma FirstIsMember(names: seq<string>)
    requires names != []
    ensures names[0] in names
  {
  }

  /** An object with an attribute dictionary contributes only the names of its non-dunder
      members, never its own name; a string contributes itself. */
  lemma DictObjectGivesMemberNamesOnly(ownName: string, members: seq<Member>, n: string)
    ensures n in ExtractedNames([Obj(true, Some(ownName), members)]) <==>
      exists m :: m in members && !IsDunder(m.attribute) && m.name == Some(n)
  {
    var s := Obj(true, Some(ownName), members);
    assert forall t :: t in [s] <==> t == s;
  }
}

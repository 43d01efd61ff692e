/** The URL filter combinators the crawling engine offers (`regex_filter`, `inverse`, `land`,
    `lor`): an expression that yields True when a URL is to be DROPPED. A regular expression
    is modelled for literal alternatives only: the pattern is split at its `|` separators and
    matches when some alternative occurs in the URL as a substring. */
module UrlFilters {
  import opened Text

  datatype UrlFilter =
    | RegexFilter(pattern: string)
    | Inverse(inner: UrlFilter)
    | Land(all: seq<UrlFilter>)
    | Lor(any: seq<UrlFilter>)

  /** A term is literal when it holds no `|` separator. */
  predicate IsLiteral(term: string) {
    '|' !in term
  }

  /** The alternatives of a pattern: the pieces between its `|` separators. */
  function Alternatives(pattern: string): (alts: seq<string>)
    ensures |alts| >= 1
    ensures forall a :: a in alts ==> IsLiteral(a)
  {
    if pattern == [] then [[]]
    else
      var rest := Alternatives(pattern[1..]);
      if pattern[0] == '|' then [[]] + rest
      else assert rest[0] in rest; [[pattern[0]] + rest[0]] + rest[1..]
  }

  /** `"|".join(terms)` */
  function JoinAlternation(terms: seq<string>): (pattern: string)
  {
    if |terms| == 0 then ""
    else if |terms| == 1 then terms[0]
    else terms[0] + "|" + JoinAlternation(terms[1..])
  }

  /** `re.search(pattern, url)` found a match, for a pattern of literal alternatives. */
  predicate Search(pattern: string, url: string) {
    AnyOccurs(Alternatives(pattern), url)
  }

  /** True: the filter drops `url`. */
  predicate Drops(f: UrlFilter, url: string) {
    match f
    case RegexFilter(p) => Search(p, url)
    case Inverse(g) => !Drops(g, url)
    case Land(fs) => forall i | 0 <= i < |fs| :: Drops(fs[i], url)
    case Lor(fs) => exists i | 0 <= i < |fs| :: Drops(fs[i], url)
  }

  /** `[regex_filter(t) for t in terms]` */
  function RegexFilters(terms: seq<string>): (fs: seq<UrlFilter>)
    ensures |fs| == |terms|
    ensures forall i :: 0 <= i < |terms| ==> fs[i] == RegexFilter(terms[i])
    ensures forall url :: Drops(Land(fs), url) <==> forall t :: t in terms ==> Search(t, url)
  {
    var fs := seq(|terms|, i requires 0 <= i < |terms| => RegexFilter(terms[i]));
    forall url ensures Drops(Land(fs), url) <==> forall t :: t in terms ==> Search(t, url) {
      if forall t :: t in terms ==> Search(t, url) {
        forall i | 0 <= i < |fs| ensures Drops(fs[i], url) {
          assert terms[i] in terms;
        }
      } else {
        var t :| t in terms && !Search(t, url);
        var i :| 0 <= i < |terms| && terms[i] == t;
        assert !Drops(fs[i], url);
      }
    }
    fs
  }

  lemma {:induction false} AlternativesOfLiteral(t: string)
    requires IsLiteral(t)
    ensures Alternatives(t) == [t]
  {
    if t != [] {
      AlternativesOfLiteral(t[1..]);
      assert [t[0]] + t[1..] == t;
    }
  }

  /** A character other than `|` glues onto the first alternative. */
  lemma AlternativesCons(c: char, s: string)
    requires c != '|'
    ensures var alts := Alternatives(s);
            Alternatives([c] + s) == [[c] + alts[0]] + alts[1..]
  {
    assert ([c] + s)[1..] == s;
  }

  /** A literal prefix glues onto the first alternative of what follows it. */
  lemma {:induction false} AlternativesOfLiteralPrefix(t: string, s: string)
    requires IsLiteral(t)
    ensures var alts := Alternatives(s);
            Alternatives(t + s) == [t + alts[0]] + alts[1..]
  {
    if t != [] {
      AlternativesOfLiteralPrefix(t[1..], s);
      assert t + s == [t[0]] + (t[1..] + s);
      AlternativesCons(t[0], t[1..] + s);
      assert [t[0]] + (t[1..] + Alternatives(s)[0]) == t + Alternatives(s)[0];
    } else {
      var alts := Alternatives(s);
      assert t + s == s && t + alts[0] == alts[0];
      assert alts == [alts[0]] + alts[1..];
    }
  }

  /** Splitting `"|".join(terms)` at its separators gives the terms back, when there is at
      least one term and every term is literal. */
  lemma {:induction false} AlternativesOfJoin(terms: seq<string>)
    requires |terms| >= 1
    requires forall t :: t in terms ==> IsLiteral(t)
    ensures Alternatives(JoinAlternation(terms)) == terms
  {
    if |terms| == 1 {
      AlternativesOfLiteral(terms[0]);
    } else {
      var rest := JoinAlternation(terms[1..]);
      AlternativesOfJoin(terms[1..]);
      assert Alternatives("|" + rest) == [[]] + terms[1..] by {
        assert ("|" + rest)[1..] == rest;
      }
      assert terms[0] + "|" + rest == terms[0] + ("|" + rest);
      AlternativesOfLiteralPrefix(terms[0], "|" + rest);
      var alts: seq<string> := [[]] + terms[1..];
      assert alts[0] == [] && alts[1..] == terms[1..];
      assert terms[0] + alts[0] == terms[0];
      assert [terms[0]] + terms[1..] == terms;
    }
  }

  /** The alternation of literal terms matches exactly when some term occurs in the URL. */
  lemma SearchJoinIff(terms: seq<string>, url: string)
    requires |terms| >= 1
    requires forall t :: t in terms ==> IsLiteral(t)
    ensures Search(JoinAlternation(terms), url) <==> exists t :: t in terms && Contains(url, t)
  {
    AlternativesOfJoin(terms);
  }

  /** The empty alternation `"|".join([]) == ""` matches every URL. */
  lemma SearchEmptyJoin(url: string)
    ensures Search(JoinAlternation([]), url)
  {
    assert Alternatives("") == [""];
    ContainsEmpty(url);
  }

  /** A single literal term matches exactly when it occurs in the URL. */
  lemma SearchLiteral(term: string, url: string)
    requires IsLiteral(term)
    ensures Search(term, url) <==> Contains(url, term)
  {
    AlternativesOfLiteral(term);
  }
}

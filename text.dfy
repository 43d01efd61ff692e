/** Strings as the selection rules use them: Python whitespace, ASCII lower-casing
    (standing for `str.lower` and `str.casefold`) and substring search (`term in text`). */
module Text {

  /** The characters for which Python's `str.isspace()` holds. */
  predicate IsWhitespace(c: char) {
    || c == ' ' || c == '\t' || c == '\n' || c == '\r' || c == '\U{B}' || c == '\U{C}'
    || ('\U{1C}' <= c <= '\U{1F}')
    || c == '\U{85}' || c == '\U{A0}' || c == '\U{1680}'
    || ('\U{2000}' <= c <= '\U{200A}')
    || c == '\U{2028}' || c == '\U{2029}' || c == '\U{202F}' || c == '\U{205F}' || c == '\U{3000}'
  }

  predicate IsUpper(c: char) {
    'A' <= c <= 'Z'
  }

  function LowerChar(c: char): (d: char)
    ensures !IsUpper(d)
    ensures IsUpper(c) ==> d as int == c as int + 32
    ensures !IsUpper(c) ==> d == c
  {
    if IsUpper(c) then (c as int + 32) as char else c
  }

  /** `s.lower()` (and `s.casefold()`) restricted to ASCII letters. */
  function Lower(s: string): (r: string)
    ensures |r| == |s|
    ensures forall i :: 0 <= i < |s| ==> r[i] == LowerChar(s[i])
    ensures forall i :: 0 <= i < |r| ==> !IsUpper(r[i])
  {
    seq(|s|, i requires 0 <= i < |s| => LowerChar(s[i]))
  }

  /** `term` occurs in `text` starting at position `i`. */
  predicate OccursAt(text: string, term: string, i: int) {
    0 <= i && i + |term| <= |text| && text[i..i + |term|] == term
  }

  /** Python's `term in text` on strings. */
  predicate Contains(text: string, term: string) {
    exists i | 0 <= i <= |text| - |term| :: OccursAt(text, term, i)
  }

  /** The early-return loop `for t in terms: if t in text: return ...` (and Python's
      `any(t in text for t in terms)`), term by term in list order. */
  function AnyOccurs(terms: seq<string>, text: string): (r: bool)
    ensures r <==> exists t :: t in terms && Contains(text, t)
  {
    if terms == [] then false
    else Contains(text, terms[0]) || AnyOccurs(terms[1..], text)
  }

  /** `[t.lower() for t in terms]` */
  function LowerEach(terms: seq<string>): seq<string>
  {
    seq(|terms|, i requires 0 <= i < |terms| => Lower(terms[i]))
  }

  lemma ContainsEmpty(text: string)
    ensures Contains(text, "")
  {
    assert OccursAt(text, "", 0);
  }

  lemma ContainsItself(text: string)
    ensures Contains(text, text)
  {
    assert OccursAt(text, text, 0);
  }

  /** An occurrence of `term` contains an occurrence of each of its prefixes. */
  lemma ContainsPrefixOf(text: string, term: string, k: nat)
    requires k <= |term|
    requires Contains(text, term)
    ensures Contains(text, term[..k])
  {
    var i :| 0 <= i <= |text| - |term| && OccursAt(text, term, i);
    assert text[i..i + k] == term[..k];
    assert OccursAt(text, term[..k], i);
  }

  /** Lower-casing is idempotent. */
  lemma LowerIdempotent(s: string)
    ensures Lower(Lower(s)) == Lower(s)
  {
  }

  /** A lower-cased text contains no upper-case letter, so a term that has one never occurs in it. */
  lemma UpperTermNeverInLower(text: string, term: string, k: nat)
    requires k < |term| && IsUpper(term[k])
    ensures !Contains(Lower(text), term)
  {
    MissingCharNotContained(Lower(text), term, k);
  }

  /** A term with a character the text lacks does not occur in it. */
  lemma MissingCharNotContained(text: string, term: string, k: nat)
    requires k < |term| && term[k] !in text
    ensures !Contains(text, term)
  {
    forall i | 0 <= i && i + |term| <= |text|
      ensures !OccursAt(text, term, i)
    {
      assert text[i..i + |term|][k] == text[i + k];
    }
  }

  /** A term whose first two characters never stand side by side in the text does not occur in it. */
  lemma MissingPairNotContained(text: string, term: string)
    requires |term| >= 2
    requires forall i | 0 <= i < |text| - 1 :: !(text[i] == term[0] && text[i + 1] == term[1])
    ensures !Contains(text, term)
  {
    forall i | 0 <= i && i + |term| <= |text|
      ensures !OccursAt(text, term, i)
    {
      assert text[i..i + |term|][0] == text[i] && text[i..i + |term|][1] == text[i + 1];
    }
  }

  /** `any(t.lower() in text for t in terms)`, spelled out. */
  lemma AnyOccursLowerEach(terms: seq<string>, text: string)
    ensures AnyOccurs(LowerEach(terms), text) <==> exists t :: t in terms && Contains(text, Lower(t))
  {
    var lowered := LowerEach(terms);
    if exists t :: t in terms && Contains(text, Lower(t)) {
      var t :| t in terms && Contains(text, Lower(t));
      var i :| 0 <= i < |terms| && terms[i] == t;
      assert lowered[i] in lowered;
    }
    if exists u :: u in lowered && Contains(text, u) {
      var u :| u in lowered && Contains(text, u);
      var i :| 0 <= i < |lowered| && lowered[i] == u;
      assert terms[i] in terms;
    }
  }
}

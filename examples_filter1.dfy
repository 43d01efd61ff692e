/** `examples/filter1.py`: three `only_complete` predicates over the extracted fields (a
    publishing-date window, body terms, a topic), each returning True to drop the article. */
module ExamplesFilter1 {
  import opened Text
  import opened Articles
  import SearchesBodyFilter

  /** `date_filter` for `today` the current day: the end date is a week back, the start date a
      week before that, and an article is kept exactly when its date lies between the two,
      both ends included. An article without a date is dropped. */
  function DateFilter(extracted: Extracted, today: int): (drop: bool)
    ensures !drop <==> (extracted.publishingDate.Some? &&
      today - 14 <= extracted.publishingDate.value <= today - 7)
  {
    var endDate := today - 7;
    var startDate := endDate - 7;
    if extracted.publishingDate.Some? then
      !(startDate <= extracted.publishingDate.value <= endDate)
    else true
  }

  /** What a call of a filter gives back: its verdict, or the exception it raises. */
  datatype Outcome = Returned(drop: bool) | Raised(error: PyError)

  /** `date_filter` as written: its first line reads `datetime.date.today()`, and the file
      never imports `datetime`, so every call raises NameError, whatever the article. */
  function DateFilterAsWritten(extracted: Extracted): (o: Outcome)
    ensures o.Raised? && o.error == NameError
  {
    Raised(NameError)
  }

  /** As written the filter never returns the verdict of the intended week window, neither
      for an article it should keep nor for one it should drop. */
  lemma DateFilterAsWrittenNeverDecides(extracted: Extracted, today: int)
    ensures DateFilterAsWritten(extracted) != Returned(DateFilter(extracted, today))
  {
  }

  /** The kept window is the week before last, eight days long, not the past seven days: an
      article from today or the six days before is dropped, and so is one over fourteen days
      old; one from 7 to 14 days old is kept. */
  lemma DateWindowIsWeekBeforeLast(d: int, today: int)
    ensures today - 6 <= d ==> DateFilter(Extracted(None, None, Some(d), None), today)
    ensures d < today - 14 ==> DateFilter(Extracted(None, None, Some(d), None), today)
    ensures 7 <= today - d <= 14 ==> !DateFilter(Extracted(None, None, Some(d), None), today)
  {
  }

  /** `body_filter`: keep exactly when the body is present and non-empty and its casefolded
      text holds "pollution" or "climate crisis". */
  function BodyFilter(extracted: Extracted): (drop: bool)
    ensures !drop <==> (IsNonEmpty(extracted.body) &&
      (Contains(Lower(extracted.body.value), "pollution") || Contains(Lower(extracted.body.value), "climate crisis")))
  {
    assert forall t :: t in ["pollution", "climate crisis"] <==> t == "pollution" || t == "climate crisis";
    DropsBody(["pollution", "climate crisis"], extracted)
  }

  /** Every body this file keeps, the `searches` body filter keeps as well. */
  lemma BodyFilterNarrowerThanSearches(extracted: Extracted)
    ensures !BodyFilter(extracted) ==> !SearchesBodyFilter.BodyFilter(extracted)
  {
  }

  /** `topic_filter`: keep exactly when the topics are present and non-empty and one of them,
      casefolded, is exactly "usa". */
  function TopicFilter(extracted: Extracted): (drop: bool)
    ensures !drop <==> (extracted.topics.Some? && |extracted.topics.value| > 0 &&
      exists t :: t in extracted.topics.value && Lower(t) == "usa")
  {
    if extracted.topics.Some? && |extracted.topics.value| > 0 then
      var folded := LowerEach(extracted.topics.value);
      if "usa" in folded then
        var i :| 0 <= i < |folded| && folded[i] == "usa";
        assert extracted.topics.value[i] in extracted.topics.value;
        false
      else
        assert forall t :: t in extracted.topics.value ==> Lower(t) in folded by {
          forall t | t in extracted.topics.value ensures Lower(t) in folded {
            var i :| 0 <= i < |extracted.topics.value| && extracted.topics.value[i] == t;
            assert folded[i] == Lower(t);
          }
        }
        true
    else true
  }

  /** The topic must casefold to "usa" as a whole: "USA" keeps an article, "USA Today" does not. */
  lemma WholeTopicMatch(usa: string, usaToday: string)
    requires usa == "USA" && usaToday == "USA Today"
    ensures !TopicFilter(Extracted(None, None, None, Some([usa])))
    ensures TopicFilter(Extracted(None, None, None, Some([usaToday])))
  {
    assert Lower(usa) == "usa";
    assert [usa][0] == usa;
    assert |Lower(usaToday)| == 9;
    assert forall t :: t in [usaToday] ==> t == usaToday;
  }
}

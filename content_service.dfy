/** The default day records the content service hands to the admin's
    bulk operations: a summary, a content page and a one-question quiz for
    a given day, all attributed to "admin". */
module ContentService {
  import opened Common

  datatype DaySummary = DaySummary(day: int, summary: string, keyPoints: seq<string>, createdBy: string)

  datatype DayContentRecord = DayContentRecord(
    day: int, title: string, content: string, additionalNotes: Option<string>, createdBy: string)

  datatype QuizQuestion = QuizQuestion(question: string, options: seq<string>, correctAnswer: int, explanation: Option<string>)

  datatype DayQuiz = DayQuiz(day: int, questions: seq<QuizQuestion>, createdBy: string)

  const DefaultAuthor := "admin"

  /** `Day ${day}`. */
  function DayLabel(day: int): string
  {
    "Day " + IntToString(day)
  }

  /** `generateDefaultSummary(day)`. */
  function GenerateDefaultSummary(day: int): (r: DaySummary)
    ensures r.day == day && |r.keyPoints| == 3 && r.createdBy == DefaultAuthor
  {
    DaySummary(day,
      DayLabel(day) + " focuses on fundamental AI concepts and practical applications.",
      ["Understanding core AI principles",
       "Practical implementation techniques",
       "Real-world applications and examples"],
      DefaultAuthor)
  }

  const ContentTitleSuffix := " Learning Content"

  /** `generateDefaultContent(day)`. */
  function GenerateDefaultContent(day: int): (r: DayContentRecord)
    ensures r.day == day && r.createdBy == DefaultAuthor && r.additionalNotes.Some?
  {
    DayContentRecord(day,
      DayLabel(day) + ContentTitleSuffix,
      "This is the main content for " + DayLabel(day)
        + ". It covers essential AI concepts and provides practical examples for better understanding.",
      Some("Additional notes and resources for this day."),
      DefaultAuthor)
  }

  /** `generateDefaultQuiz(day)`. */
  function GenerateDefaultQuiz(day: int): (r: DayQuiz)
    ensures r.day == day && r.createdBy == DefaultAuthor && |r.questions| == 1
    ensures |r.questions[0].options| == 4
    ensures 0 <= r.questions[0].correctAnswer < |r.questions[0].options|
    ensures r.questions[0].options[r.questions[0].correctAnswer] == "All of the above"
  {
    DayQuiz(day,
      [QuizQuestion("What is the main focus of " + DayLabel(day) + "?",
                    ["Basic concepts", "Advanced techniques", "Practical applications", "All of the above"],
                    3,
                    Some("Day covers all aspects of AI learning."))],
      DefaultAuthor)
  }

  /* ---------------- properties ---------------- */

  /** The default summary, content text and quiz question all name their
      day as `Day <day>`. */
  lemma DefaultsNameTheirDay(day: int)
    ensures Contains(GenerateDefaultSummary(day).summary, DayLabel(day))
    ensures Contains(GenerateDefaultContent(day).title, DayLabel(day))
    ensures Contains(GenerateDefaultContent(day).content, DayLabel(day))
    ensures Contains(GenerateDefaultQuiz(day).questions[0].question, DayLabel(day))
  {
    var l := DayLabel(day);
    var s := GenerateDefaultSummary(day).summary;
    assert s[0..|l|] == l;
    ContainsWitness(s, l, 0);
    var t := GenerateDefaultContent(day).title;
    assert t[0..|l|] == l;
    ContainsWitness(t, l, 0);
    var c := GenerateDefaultContent(day).content;
    var p := |"This is the main content for "|;
    assert c[p..p + |l|] == l;
    ContainsWitness(c, l, p);
    var q := GenerateDefaultQuiz(day).questions[0].question;
    var pq := |"What is the main focus of "|;
    assert q[pq..pq + |l|] == l;
    ContainsWitness(q, l, pq);
  }

  /** The day can be read back from the default title: two days share a
      title only when they are the same day. */
  lemma DefaultTitleDeterminesDay(d1: int, d2: int)
    requires GenerateDefaultContent(d1).title == GenerateDefaultContent(d2).title
    ensures d1 == d2
  {
    var t1, t2 := GenerateDefaultContent(d1).title, GenerateDefaultContent(d2).title;
    var n1, n2 := IntToString(d1), IntToString(d2);
    assert |n1| == |n2|;
    assert t1[4..4 + |n1|] == n1;
    assert t2[4..4 + |n2|] == n2;
    IntToStringInjective(d1, d2);
  }
}

/**
 * The interview's question list as qa-script.js holds it in INTERVIEW_DATA: the records built by
 * fetchQuestions from the question-bank response, the "unlocked" gate on follow-up questions, and the
 * field updates updateResponse and updateSubQuestionResponse make when an answer has been evaluated.
 */
module Interview {
  import opened Wrappers

  datatype Status = Pending | Completed

  /** The placeholder answer every question starts with. */
  const NotAnswered := "Not answered yet"

  /** A follow-up question as the question-bank service sends it. */
  datatype ApiSubQuestion = ApiSubQuestion(subQuestionId: string, question: string)

  /** A question as the question-bank service sends it; absent hasSubQuestions is read as false. */
  datatype ApiQuestion = ApiQuestion(
    questionId: string,
    question: string,
    hasSubQuestions: bool,
    subQuestions: Option<seq<ApiSubQuestion>>,
    triggerOnResponse: Option<string>)

  /** A follow-up question with its answer fields. */
  datatype SubEntry = SubEntry(
    subQuestionId: string,
    question: string,
    answer: string,
    status: Status,
    relevancyScore: Option<int>,
    analysis: Option<string>)

  /** One element of INTERVIEW_DATA. impliedAnswer is absent until the question has been evaluated. */
  datatype Entry = Entry(
    id: string,
    question: string,
    answer: string,
    status: Status,
    relevancyScore: Option<int>,
    analysis: Option<string>,
    impliedAnswer: Option<string>,
    hasSubQuestions: bool,
    subQuestions: seq<SubEntry>,
    triggerOnResponse: Option<string>)

  /** String.prototype.toLowerCase on the characters that matter to the "yes" test. */
  function LowerAscii(c: char): char {
    if 'A' <= c <= 'Z' then (c as int + 32) as char else c
  }

  function ToLower(s: string): (r: string)
    ensures |r| == |s|
  {
    seq(|s|, i requires 0 <= i < |s| => LowerAscii(s[i]))
  }

  /** impliedAnswer?.toLowerCase() === 'yes' */
  predicate IsYes(implied: Option<string>) {
    implied.Some? && ToLower(implied.value) == "yes"
  }

  /** The gate on follow-up questions: they are reachable only while this holds. */
  predicate Unlocked(e: Entry) {
    e.hasSubQuestions && IsYes(e.impliedAnswer)
  }

  /** The spellings that pass the gate are exactly the eight capitalisations of "yes". */
  lemma IsYesSpellings(s: string)
    ensures IsYes(Some(s)) <==> |s| == 3 && s[0] in {'y', 'Y'} && s[1] in {'e', 'E'} && s[2] in {'s', 'S'}
  {
    if |s| == 3 && s[0] in {'y', 'Y'} && s[1] in {'e', 'E'} && s[2] in {'s', 'S'} {
      assert ToLower(s) == "yes";
    }
    if IsYes(Some(s)) {
      assert ToLower(s)[0] == 'y' && ToLower(s)[1] == 'e' && ToLower(s)[2] == 's';
    }
  }

  /** Every question flagged as having follow-ups really has at least one. */
  ghost predicate WellFormed(data: seq<Entry>) {
    forall i :: 0 <= i < |data| ==> data[i].hasSubQuestions ==> |data[i].subQuestions| > 0
  }

  // ---- fetchQuestions ------------------------------------------------------------------------

  function FreshSubEntry(sq: ApiSubQuestion): SubEntry {
    SubEntry(sq.subQuestionId, sq.question, NotAnswered, Pending, None, None)
  }

  function FreshEntry(item: ApiQuestion): Entry {
    Entry(item.questionId, item.question, NotAnswered, Pending, None, None, None, item.hasSubQuestions,
          match item.subQuestions
          case None => []
          case Some(sqs) => seq(|sqs|, j requires 0 <= j < |sqs| => FreshSubEntry(sqs[j])),
          item.triggerOnResponse)
  }

  /** e carries over what the service sent for item: identifiers, texts, flags and follow-ups in order. */
  ghost predicate Mirrors(e: Entry, item: ApiQuestion) {
    var sqs := if item.subQuestions.Some? then item.subQuestions.value else [];
    && e.id == item.questionId && e.question == item.question
    && e.hasSubQuestions == item.hasSubQuestions && e.triggerOnResponse == item.triggerOnResponse
    && |e.subQuestions| == |sqs|
    && forall j :: 0 <= j < |sqs| ==>
         e.subQuestions[j].subQuestionId == sqs[j].subQuestionId && e.subQuestions[j].question == sqs[j].question
  }

  /** Nothing of e has been answered: the placeholder answer, pending, no score, analysis or implied answer. */
  ghost predicate Unanswered(e: Entry) {
    && e.answer == NotAnswered && e.status == Pending
    && e.relevancyScore.None? && e.analysis.None? && e.impliedAnswer.None?
    && forall j :: 0 <= j < |e.subQuestions| ==>
         var s := e.subQuestions[j];
         s.answer == NotAnswered && s.status == Pending && s.relevancyScore.None? && s.analysis.None?
  }

  /**
   * fetchQuestions: the question list built from the service's payload; a failed request or a
   * payload without a questions array gives the empty list.
   */
  function LoadQuestions(payload: Option<seq<ApiQuestion>>): (r: seq<Entry>)
    ensures payload.None? ==> r == []
    ensures payload.Some? ==> |r| == |payload.value|
    ensures payload.Some? ==> forall i :: 0 <= i < |r| ==> Mirrors(r[i], payload.value[i]) && Unanswered(r[i])
  {
    match payload
    case None => []
    case Some(items) => seq(|items|, i requires 0 <= i < |items| => FreshEntry(items[i]))
  }

  /** A freshly loaded list keeps every follow-up locked, and is well formed when the payload is. */
  lemma LoadedQuestionsLocked(items: seq<ApiQuestion>)
    ensures forall i :: 0 <= i < |items| ==> !Unlocked(LoadQuestions(Some(items))[i])
    ensures (forall i :: 0 <= i < |items| && items[i].hasSubQuestions ==>
               items[i].subQuestions.Some? && |items[i].subQuestions.value| > 0)
            ==> WellFormed(LoadQuestions(Some(items)))
  {
  }

  // ---- updateResponse / updateSubQuestionResponse ---------------------------------------------

  /** What answering changes of no question: its identity, texts, flags and follow-up list shape. */
  ghost predicate SameQuestion(a: Entry, b: Entry) {
    && a.id == b.id && a.question == b.question && a.hasSubQuestions == b.hasSubQuestions
    && a.triggerOnResponse == b.triggerOnResponse && |a.subQuestions| == |b.subQuestions|
    && forall j :: 0 <= j < |a.subQuestions| ==>
         a.subQuestions[j].subQuestionId == b.subQuestions[j].subQuestionId
         && a.subQuestions[j].question == b.subQuestions[j].question
  }

  /** The data part of updateResponse: the main question's answer fields are overwritten. */
  function Answered(e: Entry, answer: string, score: Option<int>, analysis: Option<string>,
                    implied: Option<string>): (r: Entry)
    ensures r.answer == answer && r.status == Completed && r.relevancyScore == score
    ensures r.analysis == analysis && r.impliedAnswer == implied
    ensures SameQuestion(e, r) && r.subQuestions == e.subQuestions
    ensures Unlocked(r) <==> e.hasSubQuestions && IsYes(implied)
  {
    e.(answer := answer, status := Completed, relevancyScore := score, analysis := analysis,
       impliedAnswer := implied)
  }

  /** The data part of updateSubQuestionResponse: follow-up j's answer fields are overwritten. */
  function SubAnswered(e: Entry, j: nat, answer: string, score: Option<int>, analysis: Option<string>): (r: Entry)
    requires j < |e.subQuestions|
    ensures SameQuestion(e, r)
    ensures r.subQuestions[j].answer == answer && r.subQuestions[j].status == Completed
    ensures r.subQuestions[j].relevancyScore == score && r.subQuestions[j].analysis == analysis
    ensures forall k :: 0 <= k < |e.subQuestions| && k != j ==> r.subQuestions[k] == e.subQuestions[k]
    ensures r.answer == e.answer && r.status == e.status && r.relevancyScore == e.relevancyScore
    ensures r.analysis == e.analysis && r.impliedAnswer == e.impliedAnswer
    ensures Unlocked(r) == Unlocked(e)
  {
    var s := e.subQuestions[j];
    e.(subQuestions := e.subQuestions[j := s.(answer := answer, status := Completed,
                                              relevancyScore := score, analysis := analysis)])
  }

  /** Follow-ups are open only on a question that has been answered. */
  ghost predicate OpenOnlyWhenCompleted(e: Entry) {
    Unlocked(e) ==> e.status == Completed
  }

  /**
   * The implied answer is written only together with the completed status, so loading and both
   * updates keep every open question completed.
   */
  lemma GateOpensOnlyOnCompleted(items: seq<ApiQuestion>, e: Entry, j: nat, answer: string, score: Option<int>,
                                 analysis: Option<string>, implied: Option<string>)
    ensures forall i :: 0 <= i < |items| ==> OpenOnlyWhenCompleted(LoadQuestions(Some(items))[i])
    ensures OpenOnlyWhenCompleted(Answered(e, answer, score, analysis, implied))
    ensures j < |e.subQuestions| && OpenOnlyWhenCompleted(e) ==>
      OpenOnlyWhenCompleted(SubAnswered(e, j, answer, score, analysis))
  {
    LoadedQuestionsLocked(items);
  }
}

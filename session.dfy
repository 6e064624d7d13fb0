/**
 * The page-level state of qa-script.js as one object: INTERVIEW_DATA, the two cursor indices, the
 * enabled state of the Previous/Next buttons, the isListening flag, whether the speech-recognition
 * device has been started, and the log of texts handed to synthesizeSpeech. A handler that throws a
 * TypeError (an undefined question or follow-up) keeps the assignments it made before the throw and
 * skips the rest, as the browser does. The buttons are recomputed (updateNavigationButtons) only at
 * loading and by the navigation handlers, just where they go on to speak. On the page a click
 * reaches NextQuestion or PreviousQuestion only while the matching flag in buttons is on; the methods
 * do not require it, and LateAnswerClosesFollowUp checks it before its click.
 */
module Session {
  import opened Wrappers
  import opened Interview
  import opened Navigation
  import opened Evaluation

  /** What a final utterance sends for evaluation, and which update its completion will call. */
  datatype Request = Request(question: string, answer: string, forSubQuestion: bool)

  class InterviewSession {
    var data: seq<Entry>          // INTERVIEW_DATA
    var questionIndex: nat        // currentQuestionIndex
    var subQuestionIndex: int     // currentSubQuestionIndex; -1 is the main question
    var buttons: Flags            // !prevBtn.disabled, !nextBtn.disabled: the last updateNavigationButtons
    var listening: bool           // isListening
    var capturing: bool           // recognition has been started and has not stopped or ended since
    var narrated: seq<string>     // every text passed to synthesizeSpeech, oldest first

    ghost predicate Valid()
      reads this
    {
      (questionIndex < |data| || (|data| == 0 && questionIndex == 0)) && subQuestionIndex >= -1
    }

    function At(): Cursor
      reads this
    {
      Cursor(questionIndex, subQuestionIndex)
    }

    /** initializeApp: the loaded list, the cursor on the first main question, the buttons for it, not listening. */
    constructor (loaded: seq<Entry>)
      ensures Valid()
      ensures data == loaded && At() == Cursor(0, -1) && buttons == NavigationFlags(loaded, Cursor(0, -1))
      ensures !listening && !capturing && narrated == []
    {
      data := loaded;
      questionIndex, subQuestionIndex := 0, -1;
      buttons := NavigationFlags(loaded, Cursor(0, -1));
      listening, capturing := false, false;
      narrated := [];
    }

    /** nextQuestion */
    method NextQuestion()
      requires Valid()
      modifies this
      ensures Valid()
      ensures data == old(data) && listening == old(listening) && capturing == old(capturing)
      ensures At() == Next(data, old(At()))
      ensures buttons == if narrated == old(narrated) then old(buttons) else NavigationFlags(data, At())
      ensures var c, c' := old(At()), At();
        narrated == old(narrated) +
          if c'.main != c.main then
            (if CanDisplay(data, c') then [data[c'.main].question] else [])
          else if c'.sub >= 0 && c'.sub != c.sub && c.main < |data| && c'.sub < |data[c.main].subQuestions| then
            [data[c.main].subQuestions[c'.sub].question]
          else []
      ensures old(ValidPos(data, At())) && WellFormed(data) ==>
        narrated == old(narrated) + if Before(old(At()), At()) then [DisplayText(data, At())] else []
    {
      if questionIndex >= |data| {
        return;  // INTERVIEW_DATA[currentQuestionIndex] is undefined: the handler throws
      }
      var q := data[questionIndex];
      if Unlocked(q) {
        if subQuestionIndex == -1 {
          subQuestionIndex := 0;
          if subQuestionIndex < |q.subQuestions| {  // otherwise displayCurrentQuestion throws
            buttons := NavigationFlags(data, At());
            narrated := narrated + [q.subQuestions[subQuestionIndex].question];
          }
          return;
        }
        if subQuestionIndex < |q.subQuestions| - 1 {
          subQuestionIndex := subQuestionIndex + 1;
          buttons := NavigationFlags(data, At());
          narrated := narrated + [q.subQuestions[subQuestionIndex].question];
          return;
        }
        subQuestionIndex := -1;
      }
      if questionIndex < |data| - 1 {
        questionIndex := questionIndex + 1;
        if CanDisplay(data, At()) {  // a stale sub index on an unlocked question makes the display throw
          buttons := NavigationFlags(data, At());
          narrated := narrated + [data[questionIndex].question];
        }
      }
    }

    /** previousQuestion */
    method PreviousQuestion()
      requires Valid()
      modifies this
      ensures Valid()
      ensures data == old(data) && listening == old(listening) && capturing == old(capturing)
      ensures At() == Prev(data, old(At()))
      ensures buttons == if narrated == old(narrated) then old(buttons) else NavigationFlags(data, At())
      ensures var c, c' := old(At()), At();
        narrated == old(narrated) +
          if c'.main < c.main then
            (if !Unlocked(data[c'.main]) then [data[c'.main].question]
             else if c'.sub >= 0 then [data[c'.main].subQuestions[c'.sub].question]
             else [])
          else if c' != c && c.main < |data| then
            (if c'.sub == -1 then [data[c.main].question]
             else if c'.sub < |data[c.main].subQuestions| then [data[c.main].subQuestions[c'.sub].question]
             else [])
          else []
      ensures old(ValidPos(data, At())) && WellFormed(data) ==>
        narrated == old(narrated) + if Before(At(), old(At())) then [DisplayText(data, At())] else []
    {
      if questionIndex >= |data| {
        return;  // INTERVIEW_DATA[currentQuestionIndex] is undefined: the handler throws
      }
      var q := data[questionIndex];
      if Unlocked(q) {
        if subQuestionIndex > 0 {
          subQuestionIndex := subQuestionIndex - 1;
          if subQuestionIndex < |q.subQuestions| {  // otherwise displayCurrentQuestion throws
            buttons := NavigationFlags(data, At());
            narrated := narrated + [q.subQuestions[subQuestionIndex].question];
          }
          return;
        }
        if subQuestionIndex == 0 {
          subQuestionIndex := -1;
          buttons := NavigationFlags(data, At());
          narrated := narrated + [q.question];
          return;
        }
      }
      if questionIndex > 0 {
        questionIndex := questionIndex - 1;
        var p := data[questionIndex];
        if Unlocked(p) {
          subQuestionIndex := |p.subQuestions| - 1;
          if subQuestionIndex >= 0 {  // otherwise subQuestions[-1] is undefined and the handler throws
            narrated := narrated + [p.subQuestions[subQuestionIndex].question];
            buttons := NavigationFlags(data, At());
          }
        } else {
          narrated := narrated + [p.question];
          buttons := NavigationFlags(data, At());
        }
      }
    }

    /** The data part of updateResponse. */
    method UpdateResponse(index: nat, answer: string, score: Option<int>, analysis: Option<string>,
                          implied: Option<string>)
      requires Valid() && index < |data|
      modifies this
      ensures Valid()
      ensures data == old(data)[index := Answered(old(data)[index], answer, score, analysis, implied)]
      ensures At() == old(At()) && buttons == old(buttons) && listening == old(listening) && capturing == old(capturing)
      ensures narrated == old(narrated)
    {
      data := data[index := Answered(data[index], answer, score, analysis, implied)];
    }

    /** The data part of updateSubQuestionResponse: the parent's implied answer is left alone. */
    method UpdateSubQuestionResponse(index: nat, subIndex: nat, answer: string, score: Option<int>,
                                     analysis: Option<string>)
      requires Valid() && index < |data| && subIndex < |data[index].subQuestions|
      modifies this
      ensures Valid()
      ensures data == old(data)[index := SubAnswered(old(data)[index], subIndex, answer, score, analysis)]
      ensures At() == old(At()) && buttons == old(buttons) && listening == old(listening) && capturing == old(capturing)
      ensures narrated == old(narrated)
    {
      data := data[index := SubAnswered(data[index], subIndex, answer, score, analysis)];
    }

    /**
     * recognition.onresult for a final transcript: the question text and the branch (follow-up or main
     * question) are fixed here. None when reading the current question throws.
     */
    method OnFinalResult(transcript: string) returns (req: Option<Request>)
      requires Valid()
      ensures req.Some? <==> questionIndex < |data| && CanDisplay(data, At())
      ensures req.Some? ==> req.value.question == DisplayText(data, At())
      ensures req.Some? ==> req.value.answer == transcript && req.value.forSubQuestion == ShowsSub(data, At())
    {
      if questionIndex >= |data| {
        return None;
      }
      var q := data[questionIndex];
      if subQuestionIndex >= 0 && Unlocked(q) {
        if subQuestionIndex >= |q.subQuestions| {
          return None;
        }
        req := Some(Request(q.subQuestions[subQuestionIndex].question, transcript, true));
      } else {
        req := Some(Request(q.question, transcript, false));
      }
    }

    /**
     * The .then/.catch callbacks of an evaluation: the answer is recorded at the cursor position
     * current NOW, which need not be where it was when the utterance was captured. A failed or
     * empty evaluation records no score, analysis or implied answer.
     */
    method CompleteEvaluation(req: Request, outcome: Option<Evaluation>)
      requires Valid()
      modifies this
      ensures Valid()
      ensures At() == old(At()) && buttons == old(buttons) && listening == old(listening) && capturing == old(capturing)
      ensures narrated == old(narrated)
      ensures var i, j := questionIndex, subQuestionIndex;
        var score := if outcome.Some? then outcome.value.relevancy else None;
        var analysis := if outcome.Some? then outcome.value.analysis else None;
        var implied := if outcome.Some? then outcome.value.impliedAnswer else None;
        data ==
          if req.forSubQuestion then
            (if i < |old(data)| && 0 <= j < |old(data)[i].subQuestions|
             then old(data)[i := SubAnswered(old(data)[i], j, req.answer, score, analysis)]
             else old(data))
          else if i < |old(data)| then old(data)[i := Answered(old(data)[i], req.answer, score, analysis, implied)]
          else old(data)
    {
      var score, analysis, implied := None, None, None;
      if outcome.Some? {
        score, analysis, implied := outcome.value.relevancy, outcome.value.analysis, outcome.value.impliedAnswer;
      }
      if req.forSubQuestion {
        if questionIndex < |data| && 0 <= subQuestionIndex < |data[questionIndex].subQuestions| {
          UpdateSubQuestionResponse(questionIndex, subQuestionIndex, req.answer, score, analysis);
        }
      } else if questionIndex < |data| {
        UpdateResponse(questionIndex, req.answer, score, analysis, implied);
      }
    }

    /** toggleListening: starting also narrates the current MAIN question, which throws on an empty list. */
    method ToggleListening()
      requires Valid()
      modifies this
      ensures Valid() && data == old(data) && At() == old(At()) && buttons == old(buttons)
      ensures old(listening) ==> !listening && !capturing && narrated == old(narrated)
      ensures !old(listening) && |data| > 0 ==>
        listening && capturing && narrated == old(narrated) + [data[questionIndex].question]
      ensures !old(listening) && |data| == 0 ==> !listening && capturing && narrated == old(narrated)
    {
      if listening {
        capturing := false;  // recognition.stop()
      } else {
        capturing := true;   // recognition.start()
        if questionIndex >= |data| {
          return;            // INTERVIEW_DATA[currentQuestionIndex].question throws before the flag flips
        }
        narrated := narrated + [data[questionIndex].question];
      }
      listening := !listening;
    }

    /** recognition.onerror */
    method OnError()
      requires Valid()
      modifies this
      ensures Valid() && !listening
      ensures data == old(data) && At() == old(At()) && buttons == old(buttons) && capturing == old(capturing)
      ensures narrated == old(narrated)
    {
      listening := false;
    }

    /** recognition.onend: the device stopped, and is started again only while listening. */
    method OnEnd()
      requires Valid()
      modifies this
      ensures Valid() && capturing == listening
      ensures data == old(data) && At() == old(At()) && buttons == old(buttons) && listening == old(listening)
      ensures narrated == old(narrated)
    {
      capturing := false;
      if listening {
        capturing := true;  // recognition.start()
      }
    }
  }

  /**
   * Two utterances for the first of two main questions are issued before either completes. The first
   * completes with "Yes", so the follow-up opens; Next has been enabled since loading, and nextQuestion
   * enters the follow-up. The second completes with "No" and is written to the main question under the
   * cursor, which closes the follow-up the cursor is on.
   */
  method LateAnswerClosesFollowUp() returns (s: InterviewSession)
    ensures s.At() == Cursor(0, 0)
    ensures |s.data| == 2 && !Unlocked(s.data[0]) && !ValidPos(s.data, s.At())
  {
    var q := Entry("1", "Do you smoke?", NotAnswered, Pending, None, None, None, true,
                   [SubEntry("1.1", "How many a day?", NotAnswered, Pending, None, None)], Some("YES"));
    var r := Entry("2", "Do you drink alcohol?", NotAnswered, Pending, None, None, None, false, [], None);
    s := new InterviewSession([q, r]);
    var first := s.OnFinalResult("yes, I do");
    var second := s.OnFinalResult("well, no");
    IsYesSpellings("Yes");
    s.CompleteEvaluation(first.value, Some(Evaluation(Some(9), Some("relevant"), Some("Yes"))));
    assert Unlocked(s.data[0]) && s.buttons.canMoveNext;  // the Next button is clickable
    s.NextQuestion();
    IsYesSpellings("No");
    s.CompleteEvaluation(second.value, Some(Evaluation(Some(9), Some("relevant"), Some("No"))));
  }

  /**
   * The buttons are not recomputed when an answer arrives. On a one-question list Next is off from
   * loading on; a "Yes" opens the follow-up, the flags for the new state would enable Next, yet the
   * button stays disabled, so the follow-up cannot be reached.
   */
  method YesOnLastQuestionKeepsNextOff() returns (s: InterviewSession)
    ensures s.At() == Cursor(0, -1) && |s.data| == 1 && Unlocked(s.data[0])
    ensures NavigationFlags(s.data, s.At()).canMoveNext && !s.buttons.canMoveNext
  {
    var q := Entry("1", "Do you smoke?", NotAnswered, Pending, None, None, None, true,
                   [SubEntry("1.1", "How many a day?", NotAnswered, Pending, None, None)], Some("YES"));
    s := new InterviewSession([q]);
    var first := s.OnFinalResult("yes, I do");
    IsYesSpellings("Yes");
    s.CompleteEvaluation(first.value, Some(Evaluation(Some(9), Some("relevant"), Some("Yes"))));
  }
}

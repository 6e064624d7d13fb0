/**
 * The two-level cursor of qa-script.js: currentQuestionIndex and currentSubQuestionIndex, where a
 * sub index of -1 means "on the main question". Next and Prev are the position changes made by
 * nextQuestion and previousQuestion, Flags is what updateNavigationButtons enables, and DisplayText
 * is the text displayCurrentQuestion shows (and the text a final utterance is evaluated against).
 */
module Navigation {
  import opened Wrappers
  import opened Interview

  datatype Cursor = Cursor(main: nat, sub: int)

  /** The cursor denotes an existing question, or one of its follow-ups while they are unlocked. */
  ghost predicate ValidPos(data: seq<Entry>, c: Cursor) {
    && c.main < |data| && -1 <= c.sub
    && (c.sub >= 0 ==> Unlocked(data[c.main]) && c.sub < |data[c.main].subQuestions|)
  }

  /** Strictly earlier in reading order: by main index, then by sub index (-1 before 0). */
  predicate Before(a: Cursor, b: Cursor) {
    a.main < b.main || (a.main == b.main && a.sub < b.sub)
  }

  /**
   * nextQuestion. The gate is re-read at every move. From the last follow-up the sub index is reset
   * to -1 even when there is no next question. On an empty list the handler throws before changing
   * anything.
   */
  function Next(data: seq<Entry>, c: Cursor): (r: Cursor)
    ensures c.main < |data| ==> r.main < |data|
    ensures r.main == c.main || r.main == c.main + 1
    ensures c.sub >= -1 ==> r.sub >= -1
    ensures WellFormed(data) && ValidPos(data, c) ==> ValidPos(data, r)
  {
    if c.main >= |data| then c
    else
      var q := data[c.main];
      if Unlocked(q) && c.sub == -1 then c.(sub := 0)
      else if Unlocked(q) && c.sub < |q.subQuestions| - 1 then c.(sub := c.sub + 1)
      else
        var c' := if Unlocked(q) then c.(sub := -1) else c;
        if c'.main < |data| - 1 then c'.(main := c'.main + 1) else c'
  }

  /**
   * previousQuestion. Within an unlocked question the sub index steps back to -1; otherwise the cursor
   * moves to the previous question and lands on its last follow-up when that one is unlocked.
   */
  function Prev(data: seq<Entry>, c: Cursor): (r: Cursor)
    ensures c.main < |data| ==> r.main < |data|
    ensures r.main == c.main || r.main + 1 == c.main
    ensures c.sub >= -1 ==> r.sub >= -1
    ensures ValidPos(data, c) ==> ValidPos(data, r)
  {
    if c.main >= |data| then c
    else
      var q := data[c.main];
      if Unlocked(q) && c.sub > 0 then c.(sub := c.sub - 1)
      else if Unlocked(q) && c.sub == 0 then c.(sub := -1)
      else if c.main > 0 then
        var p := data[c.main - 1];
        if Unlocked(p) then Cursor(c.main - 1, |p.subQuestions| - 1) else c.(main := c.main - 1)
      else c
  }

  datatype Flags = Flags(canMovePrev: bool, canMoveNext: bool)

  /** updateNavigationButtons: which of the two buttons are enabled. */
  function NavigationFlags(data: seq<Entry>, c: Cursor): (r: Flags)
    ensures (|data| == 0 || c.main >= |data|) ==> !r.canMovePrev && !r.canMoveNext
  {
    if |data| == 0 || c.main >= |data| then Flags(false, false)
    else
      var q := data[c.main];
      var canMovePrev := c.main > 0 || c.sub > -1;
      var canMoveNext :=
        if Unlocked(q) then
          (if c.sub == -1 then true
           else if c.sub < |q.subQuestions| - 1 then true
           else c.main < |data| - 1)
          || (c.sub == -1 && q.status == Completed)
        else c.main < |data| - 1;
      Flags(canMovePrev, canMoveNext)
  }

  /** The cursor is on a follow-up that displayCurrentQuestion would show. */
  predicate ShowsSub(data: seq<Entry>, c: Cursor) {
    c.main < |data| && c.sub >= 0 && Unlocked(data[c.main])
  }

  /** displayCurrentQuestion does not throw: a follow-up it shows exists. */
  predicate CanDisplay(data: seq<Entry>, c: Cursor) {
    ShowsSub(data, c) ==> c.sub < |data[c.main].subQuestions|
  }

  const LoadingText := "Loading questions..."

  /** displayCurrentQuestion: the follow-up's text exactly when the cursor is on an unlocked follow-up. */
  function DisplayText(data: seq<Entry>, c: Cursor): (r: string)
    requires CanDisplay(data, c)
    ensures c.main >= |data| ==> r == LoadingText
    ensures ShowsSub(data, c) ==> r == data[c.main].subQuestions[c.sub].question
    ensures c.main < |data| && !ShowsSub(data, c) ==> r == data[c.main].question
  {
    if c.main >= |data| then LoadingText
    else if ShowsSub(data, c) then data[c.main].subQuestions[c.sub].question
    else data[c.main].question
  }

  // ---- properties ---------------------------------------------------------------------------

  /** A valid cursor is always displayable. */
  lemma ValidPosDisplays(data: seq<Entry>, c: Cursor)
    requires ValidPos(data, c)
    ensures CanDisplay(data, c)
    ensures DisplayText(data, c) == if c.sub >= 0 then data[c.main].subQuestions[c.sub].question
                                    else data[c.main].question
  {
  }

  /** The Next button is enabled exactly when nextQuestion moves the cursor forward. */
  lemma NextFlagMatchesNext(data: seq<Entry>, c: Cursor)
    requires ValidPos(data, c)
    ensures NavigationFlags(data, c).canMoveNext <==> Before(c, Next(data, c))
  {
  }

  /** The Previous button is enabled exactly when previousQuestion moves the cursor back. */
  lemma PrevFlagMatchesPrev(data: seq<Entry>, c: Cursor)
    requires ValidPos(data, c)
    ensures NavigationFlags(data, c).canMovePrev <==> Before(Prev(data, c), c)
  {
  }

  /** Whenever Next is enabled, Previous undoes it: from the last follow-up, back lands on it again. */
  lemma PrevUndoesNext(data: seq<Entry>, c: Cursor)
    requires ValidPos(data, c) && NavigationFlags(data, c).canMoveNext
    ensures Prev(data, Next(data, c)) == c
  {
  }

  /**
   * Off a valid position the flags and the moves part ways: on the first question, locked again while
   * the sub index still points at a follow-up, Previous is enabled but previousQuestion does nothing.
   */
  lemma PrevFlagOnStaleFollowUp(data: seq<Entry>, c: Cursor)
    requires c.main == 0 < |data| && c.sub >= 0 && !Unlocked(data[0])
    ensures !ValidPos(data, c)
    ensures NavigationFlags(data, c).canMovePrev && Prev(data, c) == c
  {
  }

  /** Whenever Previous is enabled, Next undoes it, provided every flagged question has follow-ups. */
  lemma NextUndoesPrev(data: seq<Entry>, c: Cursor)
    requires WellFormed(data) && ValidPos(data, c) && NavigationFlags(data, c).canMovePrev
    ensures Next(data, Prev(data, c)) == c
  {
  }

  /** At the very last follow-up, nextQuestion still moves the cursor back onto the parent question. */
  lemma NextResetsAtLastSubQuestion(data: seq<Entry>, c: Cursor)
    requires ValidPos(data, c) && c.main == |data| - 1
    requires Unlocked(data[c.main]) && 0 <= c.sub == |data[c.main].subQuestions| - 1
    ensures Next(data, c) == Cursor(c.main, -1)
    ensures !NavigationFlags(data, c).canMoveNext
  {
  }

  /**
   * Answering a question that has follow-ups decides where nextQuestion goes from it: into its first
   * follow-up when the implied answer is some capitalisation of "yes", on to the next question otherwise.
   */
  lemma AnswerGatesFollowUps(data: seq<Entry>, i: nat, answer: string, score: Option<int>,
                             analysis: Option<string>, implied: string)
    requires i < |data| && data[i].hasSubQuestions
    ensures var data' := data[i := Answered(data[i], answer, score, analysis, Some(implied))];
      Next(data', Cursor(i, -1)) ==
        if IsYes(Some(implied)) then Cursor(i, 0)
        else if i < |data| - 1 then Cursor(i + 1, -1)
        else Cursor(i, -1)
    ensures implied == "Yes" ==> IsYes(Some(implied))
    ensures implied == "No" ==> !IsYes(Some(implied))
  {
    IsYesSpellings(implied);
  }

  /**
   * Writing an answer back to the question under the cursor can close the follow-up the cursor is on:
   * the position stays valid iff the new implied answer is "yes". Answering a follow-up never closes it.
   */
  lemma AnswerUnderFollowUp(data: seq<Entry>, c: Cursor, j: nat, answer: string, score: Option<int>,
                            analysis: Option<string>, implied: Option<string>)
    requires ValidPos(data, c) && c.sub >= 0
    ensures ValidPos(data[c.main := Answered(data[c.main], answer, score, analysis, implied)], c) <==> IsYes(implied)
    ensures j < |data[c.main].subQuestions| ==>
      ValidPos(data[c.main := SubAnswered(data[c.main], j, answer, score, analysis)], c)
  {
  }
}

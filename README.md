# Voice health screener: question cursor, answer store and questions-file loader

This project models, in Dafny, the two deterministic parts of the voice-driven health screening
interview:

- the browser page (`qa-script.js`): the list of interview questions, each possibly carrying
  follow-up ("sub") questions that are unlocked only when the evaluated answer implies "yes"; the
  two-level cursor (`currentQuestionIndex`, `currentSubQuestionIndex`, where -1 means "on the main
  question") that `nextQuestion` and `previousQuestion` move; the Previous/Next button flags; the text
  shown and spoken; the in-place answer updates; the hand-off of a final utterance to the evaluation
  service and the write-back of its result; the relevancy band; the extraction of the JSON block from
  the service's reply; and the `isListening` toggle;
- the loader script (`dynamo_question_insert_subq.py`): the line parser that turns `TYPE|ID|TEXT`
  lines into a dictionary of questions with attached follow-ups, and the construction of the
  DynamoDB items written for them, in dictionary order.

Modules, one per concern:

| file | module | contents |
|---|---|---|
| `wrappers.dfy` | `Wrappers` | `Option` |
| `text.dfy` | `Text` | first/last index of a character; Python's `str.strip` and its whitespace set |
| `interview.dfy` | `Interview` | question records, the "unlocked" gate, loading the question bank, the two update functions |
| `navigation.dfy` | `Navigation` | the cursor, `Next`/`Prev`, button flags, display text, and their relations |
| `evaluation.dfy` | `Evaluation` | relevancy band, JSON-block extraction, what an evaluation resolves to |
| `session.dfy` | `Session` | the page state as a class whose methods follow the event handlers step by step |
| `questions_file.dfy` | `QuestionsFile` | `read_questions_file` as a step function, its invariants, and the imperative loop |
| `dynamo_item.dfy` | `DynamoItem` | the attribute-value item of a question, its decoding, and the insertion loop |

Modelling choices:

- Page state is one object, `Session.InterviewSession`. Its methods mirror the handlers statement by
  statement. The cursor moves are also pure functions (`Navigation.Next`, `Navigation.Prev`), and
  each method's contract says it moves the cursor exactly as they do.
- A handler that reads an undefined entry throws a `TypeError` in the browser. The model keeps the
  assignments made before the throw and skips the rest, such as the display and the narration.
- The Previous/Next buttons are a field, `buttons`, holding what `updateNavigationButtons` last
  computed. It is set at loading and by the navigation handlers, exactly where they go on to speak.
  On the page a click reaches `NextQuestion` or `PreviousQuestion` only while the matching flag is
  on. The methods do not require the flag; `Session.LateAnswerClosesFollowUp` checks it before its
  click.
- Narration (`synthesizeSpeech`) is a log of texts, `narrated`, to which each spoken text is appended.
- `toLowerCase` is modelled on ASCII letters. No other character lowercases to `y`, `e` or `s`.
  So the "yes" test accepts exactly the eight capitalisations of "yes" (`Interview.IsYesSpellings`).
- A final utterance is two steps. `OnFinalResult` fixes the question text and the branch (follow-up or
  main question). `CompleteEvaluation` writes the result at the cursor position current when the
  request completes, as the `.then`/`.catch` callbacks read the indices again at that time.
- A Python dict is a map plus the sequence of its keys in first-insertion order.

Behaviours of the code worth knowing:

- The code captures no anchor for an utterance. A result is written wherever the cursor is when the
  evaluation completes. If the cursor is then on a main question, a follow-up's answer can be
  dropped; if it is on a different follow-up, the answer goes there.
- The buttons are not recomputed when an answer arrives. After a "yes" on the last main question,
  Next stays off although the follow-ups are open (`Session.YesOnLastQuestionKeepsNextOff`). They can
  then be entered only by leaving the question and coming back, and never on a one-question list.
- A late result can close the follow-up the cursor is on. Two utterances may be issued for the same
  main question, here the first of two, so Next is on since loading. If the first completes with
  "yes", nextQuestion enters the follow-up. The second may then complete with "no" and be written to
  the main question under the cursor. The cursor is left on a follow-up of a locked question (`Session.LateAnswerClosesFollowUp`,
  `Navigation.AnswerUnderFollowUp`). So the page does not keep the cursor on open follow-ups, though
  `Next` and `Prev` do.
- The sub index is reset to -1 only when the current question is unlocked. A stale sub index, as left
  by the late result above, survives a move past a locked question. Off a valid position the
  buttons no longer match the moves: on the first question, the stale index enables Previous, yet
  previousQuestion does nothing (`Navigation.PrevFlagOnStaleFollowUp`).
- The "completed" special case of the Next flag (qa-script.js:317-319) never changes the flag. An
  unlocked question at sub index -1 already enables Next, and every unlocked question is completed.
  The implied answer is only written together with the completed status
  (`Interview.GateOpensOnlyOnCompleted`).
- Starting to listen narrates the main question's text even when the cursor is on a follow-up.
- `triggerOnResponse` is copied into the page's records but never consulted; the gate is fixed to "yes".

## Model

| member | source | states |
|---|---|---|
| Text.StripLeftSpec | dynamo_question_insert_subq.py:41 | lstrip removes exactly a whitespace prefix and stops at a non-space |
| Text.StripRightSpec | dynamo_question_insert_subq.py:41 | rstrip removes exactly a whitespace suffix and stops at a non-space |
| Text.StripSpec | dynamo_question_insert_subq.py:41 | strip keeps a middle slice; only whitespace is cut on either side; the result neither starts nor ends with whitespace |
| Text.Strip | dynamo_question_insert_subq.py:41 | str.strip(); its properties are stated by Text.StripLeftSpec, Text.StripRightSpec and Text.StripSpec |
| Text.IndexOf | dynamo_question_insert_subq.py:45 | None iff the character is absent; otherwise the position of its first occurrence |
| Text.LastIndexOf | qa-script.js:689 | None iff the character is absent; otherwise the position of its last occurrence |
| Interview.ToLower | qa-script.js:301 | lowercasing keeps the length |
| Interview.IsYesSpellings | qa-script.js:300-301 | the "yes" gate holds exactly for the eight capitalisations of "yes" |
| Interview.IsYes | qa-script.js:300-301 | the test `impliedAnswer?.toLowerCase() === 'yes'`; Interview.IsYesSpellings states which answers pass |
| Interview.Unlocked | qa-script.js:300-301 | the gate on follow-ups, re-read at qa-script.js:365-366, 405-406, 430-431 and 452-453; Interview.Answered, Navigation.AnswerGatesFollowUps and Navigation.AnswerUnderFollowUp state how answers open and close it |
| Interview.LoadQuestions | qa-script.js:36-52 | no payload gives an empty list; otherwise count and order are kept, each entry mirrors its item, and every entry and follow-up starts pending, "Not answered yet", with no score or analysis |
| Interview.LoadedQuestionsLocked | qa-script.js:36-52 | freshly loaded questions are all locked, and well-formed when every flagged item brings follow-ups |
| Interview.Answered | qa-script.js:210-216 | sets answer, completed status, score, analysis and implied answer; nothing else changes; the result is unlocked iff the question has follow-ups and the implied answer is "yes" |
| Interview.SubAnswered | qa-script.js:253-260 | sets the four answer fields of follow-up j only; the parent's fields, its implied answer and its gate are unchanged |
| Interview.GateOpensOnlyOnCompleted | qa-script.js:210-216 | loaded questions, and questions after either update, have follow-ups open only when their status is completed |
| Navigation.Next | qa-script.js:361-398 | main stays in range and moves by at most one; when every flagged question has follow-ups, a valid position stays valid |
| Navigation.Prev | qa-script.js:401-440 | main stays in range, moves back by at most one; a valid position stays valid |
| Navigation.NavigationFlags | qa-script.js:283-289 | both flags are off for an empty list or an index past the end |
| Navigation.DisplayText | qa-script.js:443-460 | the follow-up's text iff the sub index is non-negative and the question is unlocked; otherwise the main text; the loading text past the end |
| Navigation.ValidPosDisplays | qa-script.js:443-460 | at a valid position the display never fails, and shows the follow-up iff the sub index is non-negative |
| Navigation.NextFlagMatchesNext | qa-script.js:296-322 | at a valid position, the Next flag that updateNavigationButtons computes when it runs is on iff nextQuestion moves the cursor forward |
| Navigation.PrevFlagMatchesPrev | qa-script.js:294 | at a valid position, the Previous flag that updateNavigationButtons computes when it runs is on iff previousQuestion moves the cursor back |
| Navigation.PrevFlagOnStaleFollowUp | qa-script.js:294 | on the first question, locked with the sub index on a follow-up, the position is not valid, Previous is enabled and previousQuestion leaves the cursor where it is |
| Navigation.PrevUndoesNext | qa-script.js:361-440 | at a valid position where Next is enabled, previousQuestion undoes nextQuestion |
| Navigation.NextUndoesPrev | qa-script.js:361-440 | at a valid position where Previous is enabled, when every flagged question has follow-ups, nextQuestion undoes previousQuestion |
| Navigation.NextResetsAtLastSubQuestion | qa-script.js:387-397 | from the last follow-up of the last question, Next resets the sub index to -1 without advancing, and the Next button is off |
| Navigation.AnswerGatesFollowUps | qa-script.js:361-397 | after answering a question with follow-ups, Next from that main question goes to follow-up 0 iff the implied answer is "yes", otherwise to the next main question, and stays put on the last |
| Navigation.AnswerUnderFollowUp | qa-script.js:210-216 | with the cursor on a follow-up, answering its main question keeps the position valid iff the implied answer is "yes"; answering a follow-up always keeps it valid |
| Evaluation.RelevancyBand | qa-script.js:246-249 | high iff score >= 8, medium iff 5 <= score < 8, low otherwise and for a missing score |
| Evaluation.RelevancyBandMonotone | qa-script.js:246-249 | a higher score never gets a lower band |
| Evaluation.ExtractJsonBlock | qa-script.js:689-691 | a block exists iff some '{' precedes some '}'; it runs from the first '{' to the last '}' |
| Evaluation.AnalysisOf | qa-script.js:686-705 | no reply, an empty reply, or a reply without a block gives nothing; otherwise the parse of the extracted block |
| Session.InterviewSession.constructor | qa-script.js:62-79 | the loaded list, the cursor on the first main question, the buttons computed for it, not listening, nothing spoken |
| Session.InterviewSession.NextQuestion | qa-script.js:361-398 | the cursor moves as Next; the spoken text is appended exactly when the handler reaches synthesizeSpeech, and the buttons are recomputed for the new position exactly then; from a valid position, when every flagged question has follow-ups, the text of the new position is spoken iff the cursor moved forward |
| Session.InterviewSession.PreviousQuestion | qa-script.js:401-440 | the cursor moves as Prev, with the same button and narration guarantees: from a valid position, when every flagged question has follow-ups, the new text is spoken iff the cursor moved back |
| Session.InterviewSession.UpdateResponse | qa-script.js:210-216 | entry index becomes Answered; the other entries, the cursor and the buttons are unchanged |
| Session.InterviewSession.UpdateSubQuestionResponse | qa-script.js:253-260 | entry index becomes SubAnswered for follow-up j; everything else is unchanged |
| Session.InterviewSession.OnFinalResult | qa-script.js:500-513 | a request is issued iff the current question can be read; it carries the displayed text and is for a follow-up iff the display shows one |
| Session.InterviewSession.CompleteEvaluation | qa-script.js:514-562 | the result is written at the cursor current at completion; a failed evaluation records no score, analysis or implied answer; an out-of-range follow-up changes nothing |
| Session.InterviewSession.ToggleListening | qa-script.js:484-497 | stopping clears the flag; starting sets it and speaks the main question's text, or throws before the flag flips when the list is empty |
| Session.InterviewSession.OnError | qa-script.js:567-572 | listening becomes false and nothing else changes |
| Session.InterviewSession.OnEnd | qa-script.js:574-578 | capture is restarted iff listening is still on |
| Session.LateAnswerClosesFollowUp | qa-script.js:514-549 | on two questions, two results for the first, completing "Yes" then "No" around a nextQuestion made while Next is enabled, leave the cursor at (0,0) on a locked question |
| Session.YesOnLastQuestionKeepsNextOff | qa-script.js:210-251 | on one question, a "Yes" opens the follow-up and the flags for the new state would enable Next, but the button stays disabled |
| QuestionsFile.SplitFields | dynamo_question_insert_subq.py:45-49 | three parts iff the line holds at least two '|'; the first two parts hold no '|' |
| QuestionsFile.SplitFieldsJoin | dynamo_question_insert_subq.py:45-49 | joining the three parts with '|' gives the line back, so the text keeps any further '|' |
| QuestionsFile.Step | dynamo_question_insert_subq.py:40-66 | one iteration of the loop; QuestionsFile.IgnoredLines, QuestionsFile.QuestionLine, QuestionsFile.SubQuestionLine and QuestionsFile.StepOrder state its cases |
| QuestionsFile.Parse | dynamo_question_insert_subq.py:36-68 | the state after all lines; QuestionsFile.ParseConsistent and QuestionsFile.ParseOrder state its properties, and QuestionsFile.ReadQuestionsFile is proved equal to it |
| QuestionsFile.ParentId | dynamo_question_insert_subq.py:60 | the part of the id before its first '.', or the whole id when it has none |
| QuestionsFile.FirstOccurrences | dynamo_question_insert_subq.py:52 | the same elements as the input, without repeats |
| QuestionsFile.ParseConsistent | dynamo_question_insert_subq.py:36-68 | after any lines, each question is stored under its own id; hasSubQuestions iff it has follow-ups; each follow-up's parent id is its key; the key order lists each key once |
| QuestionsFile.FirstOccurrencesAppend | dynamo_question_insert_subq.py:52 | a new element goes to the end; a repeated one changes nothing |
| QuestionsFile.ParseOrder | dynamo_question_insert_subq.py:51-58 | the keys in insertion order are the "Q" line ids in order of first appearance |
| QuestionsFile.StepOrder | dynamo_question_insert_subq.py:51-58 | only a "Q" line with a new id extends the key order |
| QuestionsFile.IgnoredLines | dynamo_question_insert_subq.py:41-61 | blank lines, lines with fewer than two '|', other tags, "SQ" lines without a current question and orphan "SQ" lines change nothing |
| QuestionsFile.QuestionLine | dynamo_question_insert_subq.py:51-58 | a "Q" line replaces its entry with a fresh one without follow-ups and becomes current; the keys gain exactly its id; other entries are untouched |
| QuestionsFile.SubQuestionLine | dynamo_question_insert_subq.py:59-66 | an accepted "SQ" line appends to its parent's follow-ups and sets the flag; the key set, other entries, the order and the current id are untouched |
| QuestionsFile.ParseAppend | dynamo_question_insert_subq.py:40 | reading one more line is one more step |
| QuestionsFile.ReadQuestionsFile | dynamo_question_insert_subq.py:26-68 | the loop computes the parse of all lines, with ids as keys, the flag iff follow-ups, and keys matching the order |
| DynamoItem.SubQuestionValues | dynamo_question_insert_subq.py:94-101 | one M value per follow-up, in order |
| DynamoItem.ItemFor | dynamo_question_insert_subq.py:85-101 | the item of a question; DynamoItem.InsertQuestion builds it and DynamoItem.ItemRoundTrip states what it keeps |
| DynamoItem.InsertQuestion | dynamo_question_insert_subq.py:85-101 | sessionId "TEMPLATE" and the three base attributes always; triggerOnResponse "YES" and the follow-up list iff hasSubQuestions |
| DynamoItem.DecodeSubQuestion | dynamo_question_insert_subq.py:96-99 | a decoded follow-up re-encodes to the same value |
| DynamoItem.DecodeSubQuestions | dynamo_question_insert_subq.py:94-101 | a decoded list re-encodes to the same list |
| DynamoItem.DecodeItem | dynamo_question_insert_subq.py:85-101 | a decoded item is exactly the item of the decoded question |
| DynamoItem.DecodeSubQuestionValue | dynamo_question_insert_subq.py:96-99 | a follow-up decodes back from its value |
| DynamoItem.DecodeSubQuestionValues | dynamo_question_insert_subq.py:94-101 | the follow-up list decodes back to the follow-ups |
| DynamoItem.ItemRoundTrip | dynamo_question_insert_subq.py:85-101 | a question comes back from its item iff it has the flag or no follow-ups to lose |
| DynamoItem.ParsedItemsRoundTrip | dynamo_question_insert_subq.py:137-138 | every question the parser produces comes back intact from its item |
| DynamoItem.InsertQuestions | dynamo_question_insert_subq.py:110-126 | one item per question, in key insertion order |

## Left out

- DOM rendering: the response list, the status marks, the CSS classes, the highlighting of the
  current item. The `disabled` attributes are the `buttons` field: the flags as
  `updateNavigationButtons` last computed them.
- Amazon Polly, the AWS SDK configuration and `loadConfig`. These are foreign calls; narration is the
  `narrated` log.
- The network calls (`fetch`), the prompt text sent to the language model, and `JSON.parse`. The
  parser is a parameter of `Evaluation.AnalysisOf`. A failed request or parse is a `None` outcome.
- SpeechRecognition device behaviour, interim results, and the order in which overlapping evaluations
  complete. Each completion is one call of `CompleteEvaluation`, in whatever order they happen.
- The first of the two identical `toggleListening` definitions (qa-script.js:342-356). The second,
  which is the one in force, is modelled once.
- Session.InterviewSession.CompleteEvaluation: the reply's fields are assumed to have the types the
  prompt asks for (a number, a string, a string). A parsed reply whose ImpliedAnswer is neither a
  string nor absent is not modelled. On a flagged question whose follow-ups were rendered (the list
  is non-empty, qa-script.js:135, 151), updateResponse throws at qa-script.js:236 after its field
  writes, and the `.catch` records the answer again with no score, analysis or implied answer.
  Otherwise the value is kept with the score and analysis. On a flagged question without follow-ups
  every later gate read of it then throws (qa-script.js:301, 366, 406, 453, 511).
- Evaluation.RelevancyBand: the score is an integer. The evaluation service may return a non-integer
  number, and JavaScript compares it the same way; the model does not represent fractions.
- Interview.ToLower: only ASCII letters are lowercased. Characters outside ASCII cannot produce
  "yes" under JavaScript's lowercasing either, so the gate is unaffected.
- dynamo_question_insert.py: a fixed two-question list written with `put_item`; it holds no logic
  beyond numbering ids.
- Command-line parsing, file opening and line splitting, the boto3 client, `put_item`, and the
  printed messages and re-raised exceptions of the loader. The file is a sequence of lines, and
  the sequence of items returned stands for the sequence of writes.

/**
 * read_questions_file of dynamo_question_insert_subq.py: lines "TYPE|ID|TEXT" become a dictionary of
 * questions, each with the follow-up ("SQ") lines attached to it. Python's dict is a map plus the
 * order in which its keys were first inserted.
 */
module QuestionsFile {
  import opened Wrappers
  import opened Text

  datatype SubQuestion = SubQuestion(subQuestionId: string, question: string)

  datatype Question = Question(questionId: string, question: string, hasSubQuestions: bool,
                               subQuestions: seq<SubQuestion>)

  /** The loop's state: the questions dict (with its key order) and current_question. */
  datatype ParseState = ParseState(questions: map<string, Question>, order: seq<string>, current: Option<string>)

  const Start := ParseState(map[], [], None)

  /** The line holds at least two '|' characters. */
  predicate HasTwoPipes(line: string) {
    exists i, j :: 0 <= i < j < |line| && line[i] == '|' && line[j] == '|'
  }

  /** line.split('|', 2) when it yields exactly three parts; the last part keeps any further '|'. */
  function SplitFields(line: string): (r: Option<(string, string, string)>)
    ensures r.Some? <==> HasTwoPipes(line)
    ensures r.Some? ==> '|' !in r.value.0 && '|' !in r.value.1
  {
    match IndexOf(line, '|')
    case None => None
    case Some(i) =>
      var rest := line[i + 1..];
      match IndexOf(rest, '|')
      case None =>
        assert forall a, b :: 0 <= a < b < |line| && line[a] == '|' && line[b] == '|' ==> rest[b - i - 1] == '|';
        None
      case Some(j) =>
        assert line[i] == '|' && line[i + 1 + j] == '|';
        Some((line[..i], rest[..j], rest[j + 1..]))
  }

  /** Joining the three parts with '|' gives the line back. */
  lemma SplitFieldsJoin(line: string)
    requires SplitFields(line).Some?
    ensures var (qtype, qid, text) := SplitFields(line).value; qtype + "|" + qid + "|" + text == line
  {
    var i := IndexOf(line, '|').value;
    var rest := line[i + 1..];
    var j := IndexOf(rest, '|').value;
    assert SplitFields(line).value == (line[..i], rest[..j], rest[j + 1..]);
    JoinAt(line, i);
    JoinAt(rest, j);
    JoinAssoc(line[..i], rest[..j], rest[j + 1..]);
  }

  /** Regrouping of a join, kept apart so the solver meets it without the definition of SplitFields. */
  lemma JoinAssoc(a: string, b: string, c: string)
    ensures a + "|" + b + "|" + c == a + "|" + (b + "|" + c)
  {
  }

  /** Cutting s around a '|' at position k and joining the halves with '|' again gives s. */
  lemma JoinAt(s: string, k: nat)
    requires k < |s| && s[k] == '|'
    ensures s[..k] + "|" + s[k + 1..] == s
  {
    assert s == s[..k] + [s[k]] + s[k + 1..];
  }

  /** qid.split('.')[0]: everything before the first '.', or all of qid when it has none. */
  function ParentId(qid: string): (r: string)
    ensures '.' !in r
    ensures r == qid || (|r| < |qid| && qid[..|r| + 1] == r + ".")
  {
    match IndexOf(qid, '.')
    case None => qid
    case Some(i) => qid[..i]
  }

  /** A "Q" line: the question is (re)defined with no follow-ups and becomes current_question. */
  function DefineQuestion(st: ParseState, qid: string, text: string): ParseState {
    ParseState(st.questions[qid := Question(qid, text, false, [])],
               if qid in st.questions then st.order else st.order + [qid],
               Some(qid))
  }

  /** An accepted "SQ" line: appended to the question its id names, if that question exists. */
  function AttachSubQuestion(st: ParseState, qid: string, text: string): ParseState {
    var parentId := ParentId(qid);
    if parentId in st.questions then
      var parent := st.questions[parentId];
      st.(questions := st.questions[parentId := parent.(hasSubQuestions := true,
                                                       subQuestions := parent.subQuestions + [SubQuestion(qid, text)])])
    else st
  }

  /** The branches on the type tag; "SQ" lines need a truthy current_question. */
  function Apply(st: ParseState, qtype: string, qid: string, text: string): ParseState {
    if qtype == "Q" then DefineQuestion(st, qid, text)
    else if qtype == "SQ" && st.current.Some? && st.current.value != "" then AttachSubQuestion(st, qid, text)
    else st
  }

  /** One iteration of the loop of read_questions_file. */
  function Step(st: ParseState, line: string): ParseState {
    var stripped := Strip(line);
    if stripped == "" then st
    else
      match SplitFields(stripped)
      case None => st
      case Some((qtype, qid, text)) => Apply(st, qtype, qid, text)
  }

  /** The state after the loop has read every line of lines. */
  function Parse(lines: seq<string>): ParseState {
    if lines == [] then Start else Step(Parse(lines[..|lines| - 1]), lines[|lines| - 1])
  }

  /** What the dictionary satisfies after any number of lines. */
  ghost predicate Consistent(st: ParseState) {
    && (forall k :: k in st.questions ==> st.questions[k].questionId == k)
    && (forall k :: k in st.questions ==>
          (st.questions[k].hasSubQuestions <==> st.questions[k].subQuestions != []))
    && (forall k, n :: k in st.questions && 0 <= n < |st.questions[k].subQuestions| ==>
          ParentId(st.questions[k].subQuestions[n].subQuestionId) == k)
    && (forall k :: k in st.questions <==> k in st.order)
    && (forall a, b :: 0 <= a < b < |st.order| ==> st.order[a] != st.order[b])
  }

  lemma DefineQuestionConsistent(st: ParseState, qid: string, text: string)
    requires Consistent(st)
    ensures Consistent(DefineQuestion(st, qid, text))
  {
    var st' := DefineQuestion(st, qid, text);
    if qid !in st.questions {
      forall a, b | 0 <= a < b < |st'.order| ensures st'.order[a] != st'.order[b] {
        if b == |st.order| { assert st.order[a] in st.questions; }
      }
    }
  }

  lemma AttachSubQuestionConsistent(st: ParseState, qid: string, text: string)
    requires Consistent(st)
    ensures Consistent(AttachSubQuestion(st, qid, text))
  {
    var parentId := ParentId(qid);
    if parentId in st.questions {
      var st' := AttachSubQuestion(st, qid, text);
      var subs := st'.questions[parentId].subQuestions;
      assert subs == st.questions[parentId].subQuestions + [SubQuestion(qid, text)];
      assert forall n :: 0 <= n < |subs| ==> ParentId(subs[n].subQuestionId) == parentId;
    }
  }

  lemma ApplyConsistent(st: ParseState, qtype: string, qid: string, text: string)
    requires Consistent(st)
    ensures Consistent(Apply(st, qtype, qid, text))
  {
    if qtype == "Q" {
      DefineQuestionConsistent(st, qid, text);
    } else if qtype == "SQ" && st.current.Some? && st.current.value != "" {
      AttachSubQuestionConsistent(st, qid, text);
    }
  }

  lemma StepConsistent(st: ParseState, line: string)
    requires Consistent(st)
    ensures Consistent(Step(st, line))
  {
    var stripped := Strip(line);
    if stripped != "" {
      match SplitFields(stripped)
      case None =>
      case Some((qtype, qid, text)) =>
        assert Step(st, line) == Apply(st, qtype, qid, text);
        ApplyConsistent(st, qtype, qid, text);
    }
  }

  lemma {:induction false} ParseConsistent(lines: seq<string>)
    ensures Consistent(Parse(lines))
  {
    if lines != [] {
      ParseConsistent(lines[..|lines| - 1]);
      StepConsistent(Parse(lines[..|lines| - 1]), lines[|lines| - 1]);
    }
  }

  /** The id a "Q" line defines, as a one-element list; empty for every other line. */
  function DefinedId(line: string): seq<string> {
    match SplitFields(Strip(line))
    case Some((qtype, qid, _)) => if qtype == "Q" then [qid] else []
    case None => []
  }

  /** The ids of the file's "Q" lines, repeats included, in file order. */
  function DefinedIds(lines: seq<string>): seq<string> {
    if lines == [] then [] else DefinedIds(lines[..|lines| - 1]) + DefinedId(lines[|lines| - 1])
  }

  /** s with every repeat after an element's first occurrence dropped. */
  function FirstOccurrences(s: seq<string>): (r: seq<string>)
    ensures forall x :: x in r <==> x in s
    ensures forall a, b :: 0 <= a < b < |r| ==> r[a] != r[b]
  {
    if s == [] then []
    else
      var init := FirstOccurrences(s[..|s| - 1]);
      assert s == s[..|s| - 1] + [s[|s| - 1]];
      if s[|s| - 1] in init then init else init + [s[|s| - 1]]
  }

  /** Only "Q" lines touch the key order, and only when their id is new. */
  lemma StepOrder(st: ParseState, line: string)
    ensures DefinedId(line) == [] ==> Step(st, line).order == st.order
    ensures DefinedId(line) != [] ==> var qid := DefinedId(line)[0];
      Step(st, line).order == if qid in st.questions then st.order else st.order + [qid]
  {
    var stripped := Strip(line);
    if stripped != "" {
      match SplitFields(stripped)
      case None =>
      case Some((qtype, qid, text)) =>
        assert Step(st, line) == Apply(st, qtype, qid, text);
    }
  }

  /**
   * The dictionary's keys, in insertion order, are the ids of the "Q" lines in the order each first
   * appears in the file, later redefinitions keeping the first position.
   */
  lemma {:induction false} ParseOrder(lines: seq<string>)
    ensures Parse(lines).order == FirstOccurrences(DefinedIds(lines))
  {
    if lines != [] {
      var init := lines[..|lines| - 1];
      var last := lines[|lines| - 1];
      ParseOrder(init);
      ParseConsistent(init);
      StepOrder(Parse(init), last);
      if DefinedId(last) == [] {
        assert DefinedIds(lines) == DefinedIds(init);
      } else {
        assert DefinedIds(lines) == DefinedIds(init) + [DefinedId(last)[0]];
        FirstOccurrencesAppend(DefinedIds(init), DefinedId(last)[0]);
      }
    }
  }

  /** Appending an element extends the first occurrences only when the element is new. */
  lemma FirstOccurrencesAppend(s: seq<string>, x: string)
    ensures FirstOccurrences(s + [x]) == if x in s then FirstOccurrences(s) else FirstOccurrences(s) + [x]
  {
    assert (s + [x])[..|s|] == s;
  }

  /** Lines that are blank, lack two '|', carry another tag, or are orphan "SQ" lines change nothing. */
  lemma IgnoredLines(st: ParseState, line: string)
    ensures Strip(line) == "" ==> Step(st, line) == st
    ensures SplitFields(Strip(line)).None? ==> Step(st, line) == st
    ensures SplitFields(Strip(line)).Some? && SplitFields(Strip(line)).value.0 !in {"Q", "SQ"} ==> Step(st, line) == st
    ensures (SplitFields(Strip(line)).Some? && SplitFields(Strip(line)).value.0 == "SQ"
             && (st.current.None? || st.current == Some(""))) ==> Step(st, line) == st
    ensures (SplitFields(Strip(line)).Some? && SplitFields(Strip(line)).value.0 == "SQ"
             && ParentId(SplitFields(Strip(line)).value.1) !in st.questions) ==> Step(st, line) == st
  {
  }

  /**
   * A "Q" line (re)defines its question with no follow-ups and makes it current; the key keeps its
   * first position in the order. Every other question is untouched.
   */
  lemma QuestionLine(st: ParseState, line: string, qid: string, text: string)
    requires SplitFields(Strip(line)) == Some(("Q", qid, text))
    ensures Step(st, line).questions[qid] == Question(qid, text, false, [])
    ensures Step(st, line).current == Some(qid)
    ensures Step(st, line).order == if qid in st.questions then st.order else st.order + [qid]
    ensures Step(st, line).questions.Keys == st.questions.Keys + {qid}
    ensures forall k :: k in st.questions && k != qid ==> Step(st, line).questions[k] == st.questions[k]
  {
    assert Step(st, line) == DefineQuestion(st, qid, text);
  }

  /**
   * An accepted "SQ" line appends the follow-up at the end of the list of the question its id names,
   * which need not be the current question. Every other question is untouched.
   */
  lemma SubQuestionLine(st: ParseState, line: string, qid: string, text: string)
    requires SplitFields(Strip(line)) == Some(("SQ", qid, text))
    requires st.current.Some? && st.current.value != "" && ParentId(qid) in st.questions
    ensures var p := st.questions[ParentId(qid)];
      Step(st, line).questions[ParentId(qid)] ==
        p.(hasSubQuestions := true, subQuestions := p.subQuestions + [SubQuestion(qid, text)])
    ensures Step(st, line).order == st.order && Step(st, line).current == st.current
    ensures Step(st, line).questions.Keys == st.questions.Keys
    ensures forall k :: k in st.questions && k != ParentId(qid) ==> Step(st, line).questions[k] == st.questions[k]
  {
    assert Step(st, line) == AttachSubQuestion(st, qid, text);
  }

  /** Reading one more line is one more Step. */
  lemma ParseAppend(lines: seq<string>, n: nat)
    requires n < |lines|
    ensures Parse(lines[..n + 1]) == Step(Parse(lines[..n]), lines[n])
  {
    assert lines[..n + 1][..n] == lines[..n];
  }

  /** read_questions_file over the file's lines. */
  method ReadQuestionsFile(lines: seq<string>) returns (questions: map<string, Question>, order: seq<string>)
    ensures questions == Parse(lines).questions && order == Parse(lines).order
    ensures forall k :: k in questions ==> questions[k].questionId == k
    ensures forall k :: k in questions ==> (questions[k].hasSubQuestions <==> questions[k].subQuestions != [])
    ensures forall k :: k in questions <==> k in order
  {
    questions, order := map[], [];
    var current: Option<string> := None;
    var n := 0;
    assert lines[..0] == [];
    while n < |lines|
      invariant n <= |lines|
      invariant ParseState(questions, order, current) == Parse(lines[..n])
    {
      ParseAppend(lines, n);
      ghost var before := ParseState(questions, order, current);
      var line := Strip(lines[n]);
      if line != "" {
        var parts := SplitFields(line);
        if parts.Some? {
          var qtype, qid, text := parts.value.0, parts.value.1, parts.value.2;
          if qtype == "Q" {
            if qid !in questions {
              order := order + [qid];
            }
            questions := questions[qid := Question(qid, text, false, [])];
            current := Some(qid);
          } else if qtype == "SQ" && current.Some? && current.value != "" {
            var parentId := ParentId(qid);
            if parentId in questions {
              var parent := questions[parentId];
              questions := questions[parentId := parent.(hasSubQuestions := true,
                                                        subQuestions := parent.subQuestions + [SubQuestion(qid, text)])];
            }
          }
        }
      }
      assert ParseState(questions, order, current) == Step(before, lines[n]);
      n := n + 1;
    }
    assert lines[..n] == lines;
    ParseConsistent(lines);
  }
}

/**
 * insert_question and insert_questions of dynamo_question_insert_subq.py, without the DynamoDB client:
 * each parsed question becomes a DynamoDB attribute-value item of the "TEMPLATE" session, and the items
 * are produced in the dictionary's insertion order. The put_item call itself is not modelled; the
 * sequence of items returned stands for the sequence of writes.
 */
module DynamoItem {
  import opened Wrappers
  import opened QuestionsFile

  /** DynamoDB's typed attribute values, as far as these items use them: S, BOOL, L and M. */
  datatype AttributeValue =
    | S(s: string)
    | Bool(b: bool)
    | L(values: seq<AttributeValue>)
    | M(fields: map<string, AttributeValue>)

  type Item = map<string, AttributeValue>

  /** The fixed session id under which template questions are stored. */
  const TemplateSession := "TEMPLATE"

  /** The value triggerOnResponse takes on every question with follow-ups. */
  const TriggerYes := "YES"

  /** The four keys every item carries. */
  const BaseKeys: set<string> := {"sessionId", "questionId", "question", "hasSubQuestions"}

  function SubQuestionValue(sub: SubQuestion): AttributeValue {
    M(map["subQuestionId" := S(sub.subQuestionId), "question" := S(sub.question)])
  }

  /** The list comprehension over question_data['subQuestions']. */
  function SubQuestionValues(subs: seq<SubQuestion>): (r: seq<AttributeValue>)
    ensures |r| == |subs|
    ensures forall i :: 0 <= i < |subs| ==> r[i] == SubQuestionValue(subs[i])
  {
    if subs == [] then [] else [SubQuestionValue(subs[0])] + SubQuestionValues(subs[1..])
  }

  /** The item insert_question writes for a question. */
  function ItemFor(q: Question): Item {
    var base := map["sessionId" := S(TemplateSession), "questionId" := S(q.questionId),
                    "question" := S(q.question), "hasSubQuestions" := Bool(q.hasSubQuestions)];
    if q.hasSubQuestions then
      base["triggerOnResponse" := S(TriggerYes)]["subQuestions" := L(SubQuestionValues(q.subQuestions))]
    else base
  }

  /** insert_question up to the put_item call: the base item, then the keys only questions with follow-ups get. */
  method InsertQuestion(q: Question) returns (item: Item)
    ensures item == ItemFor(q)
    ensures item.Keys == KeysFor(q.hasSubQuestions)
    ensures item["sessionId"] == S(TemplateSession) && item["questionId"] == S(q.questionId)
    ensures item["question"] == S(q.question) && item["hasSubQuestions"] == Bool(q.hasSubQuestions)
    ensures q.hasSubQuestions ==> item["triggerOnResponse"] == S(TriggerYes)
    ensures q.hasSubQuestions ==> item["subQuestions"].L? && |item["subQuestions"].values| == |q.subQuestions|
  {
    item := map["sessionId" := S(TemplateSession), "questionId" := S(q.questionId),
                "question" := S(q.question), "hasSubQuestions" := Bool(q.hasSubQuestions)];
    if q.hasSubQuestions {
      item := item["triggerOnResponse" := S(TriggerYes)];
      item := item["subQuestions" := L(SubQuestionValues(q.subQuestions))];
    }
  }

  /** Reading a sub-question back from its M value. */
  function DecodeSubQuestion(v: AttributeValue): (r: Option<SubQuestion>)
    ensures r.Some? ==> SubQuestionValue(r.value) == v
  {
    if v.M? && v.fields.Keys == {"subQuestionId", "question"}
       && v.fields["subQuestionId"].S? && v.fields["question"].S?
    then
      var r := SubQuestion(v.fields["subQuestionId"].s, v.fields["question"].s);
      assert SubQuestionValue(r).fields == v.fields;
      Some(r)
    else None
  }

  /** Reading back a whole L value; None as soon as one element is not a sub-question. */
  function DecodeSubQuestions(vs: seq<AttributeValue>): (r: Option<seq<SubQuestion>>)
    ensures r.Some? ==> SubQuestionValues(r.value) == vs
  {
    if vs == [] then Some([])
    else
      match (DecodeSubQuestion(vs[0]), DecodeSubQuestions(vs[1..]))
      case (Some(sub), Some(rest)) =>
        assert ([sub] + rest)[1..] == rest;
        assert vs == [vs[0]] + vs[1..];
        Some([sub] + rest)
      case _ => None
  }

  /** The keys an item for a question with or without follow-ups carries. */
  function KeysFor(hasSubQuestions: bool): set<string> {
    if hasSubQuestions then BaseKeys + {"triggerOnResponse", "subQuestions"} else BaseKeys
  }

  /**
   * Reading a template item back into a question: the keys must be those insert_question writes, with
   * their types, and the follow-ups come from the subQuestions list when the flag is set.
   */
  function DecodeItem(item: Item): (r: Option<Question>)
    ensures r.Some? ==> ItemFor(r.value) == item
  {
    if "hasSubQuestions" in item && item["hasSubQuestions"].Bool?
       && item.Keys == KeysFor(item["hasSubQuestions"].b)
       && item["sessionId"] == S(TemplateSession) && item["questionId"].S? && item["question"].S?
    then
      var hasSubQuestions := item["hasSubQuestions"].b;
      var subs :=
        if !hasSubQuestions then Some([])
        else if item["triggerOnResponse"] == S(TriggerYes) && item["subQuestions"].L? then
          DecodeSubQuestions(item["subQuestions"].values)
        else None;
      match subs
      case None => None
      case Some(subs) =>
        var q := Question(item["questionId"].s, item["question"].s, hasSubQuestions, subs);
        assert ItemFor(q).Keys == item.Keys;
        Some(q)
    else None
  }

  lemma DecodeSubQuestionValue(sub: SubQuestion)
    ensures DecodeSubQuestion(SubQuestionValue(sub)) == Some(sub)
  {
    assert SubQuestionValue(sub).fields.Keys == {"subQuestionId", "question"};
  }

  /** The follow-up list of an item decodes back to the follow-ups it was built from. */
  lemma {:induction false} DecodeSubQuestionValues(subs: seq<SubQuestion>)
    ensures DecodeSubQuestions(SubQuestionValues(subs)) == Some(subs)
  {
    if subs != [] {
      var vs := SubQuestionValues(subs);
      assert vs[1..] == SubQuestionValues(subs[1..]);
      DecodeSubQuestionValue(subs[0]);
      DecodeSubQuestionValues(subs[1..]);
      assert [subs[0]] + subs[1..] == subs;
    }
  }

  /**
   * An item carries the whole question exactly when the question has follow-ups or has none to lose:
   * a question whose flag is False keeps its follow-ups out of the item.
   */
  lemma ItemRoundTrip(q: Question)
    ensures DecodeItem(ItemFor(q)) == Some(q) <==> (q.hasSubQuestions || q.subQuestions == [])
  {
    var item := ItemFor(q);
    assert item.Keys == KeysFor(q.hasSubQuestions);
    if q.hasSubQuestions {
      DecodeSubQuestionValues(q.subQuestions);
    }
  }

  /** Every question the file parser produces survives the trip through its item. */
  lemma ParsedItemsRoundTrip(lines: seq<string>)
    ensures forall k :: k in Parse(lines).questions ==>
      DecodeItem(ItemFor(Parse(lines).questions[k])) == Some(Parse(lines).questions[k])
  {
    ParseConsistent(lines);
    forall k | k in Parse(lines).questions
      ensures DecodeItem(ItemFor(Parse(lines).questions[k])) == Some(Parse(lines).questions[k])
    {
      ItemRoundTrip(Parse(lines).questions[k]);
    }
  }

  /** insert_questions: one item per question, in the order the dictionary's keys were first inserted. */
  method InsertQuestions(questions: map<string, Question>, order: seq<string>) returns (items: seq<Item>)
    requires forall i :: 0 <= i < |order| ==> order[i] in questions
    ensures |items| == |order|
    ensures forall i :: 0 <= i < |order| ==> items[i] == ItemFor(questions[order[i]])
  {
    items := [];
    var n := 0;
    while n < |order|
      invariant n <= |order|
      invariant |items| == n
      invariant forall i :: 0 <= i < n ==> items[i] == ItemFor(questions[order[i]])
    {
      var item := InsertQuestion(questions[order[n]]);
      items := items + [item];
      n := n + 1;
    }
  }
}

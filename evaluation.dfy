/**
 * The evaluation side of qa-script.js: the relevancy band a score is shown with, and the part of
 * checkAnswerRelevancy that finds the JSON block in the service's reply (/\{[\s\S]*\}/) and turns
 * it into an evaluation. JSON parsing itself is a parameter.
 */
module Evaluation {
  import opened Wrappers
  import opened Text

  /** The fields the code reads from a parsed reply: Relevancy, Analysis, ImpliedAnswer. */
  datatype Evaluation = Evaluation(relevancy: Option<int>, analysis: Option<string>, impliedAnswer: Option<string>)

  datatype Band = Low | Medium | High

  function BandRank(b: Band): nat {
    match b
    case Low => 0
    case Medium => 1
    case High => 2
  }

  /** The relevancy-score class; a missing score compares like 0 and is low. */
  function RelevancyBand(score: Option<int>): (r: Band)
    ensures r == High <==> score.Some? && score.value >= 8
    ensures r == Medium <==> score.Some? && 5 <= score.value < 8
    ensures r == Low <==> score.None? || score.value < 5
  {
    var n := if score.Some? then score.value else 0;
    if n >= 8 then High else if n >= 5 then Medium else Low
  }

  /** A higher score never gets a lower band. */
  lemma RelevancyBandMonotone(s: int, t: int)
    requires s <= t
    ensures BandRank(RelevancyBand(Some(s))) <= BandRank(RelevancyBand(Some(t)))
  {
  }

  /** The reply holds a '{' somewhere before a '}'. */
  predicate HasBraces(s: string) {
    exists i, j :: 0 <= i < j < |s| && s[i] == '{' && s[j] == '}'
  }

  /** block is s[i..j + 1], with i the first '{' and j the last '}' of s. */
  predicate SpansFirstToLast(s: string, block: string, i: int, j: int) {
    0 <= i < j < |s| && block == s[i..j + 1] && '{' !in s[..i] && '}' !in s[j + 1..]
  }

  /**
   * The match of /\{[\s\S]*\}/: the leftmost '{' and, greedily, the rightmost '}' after it. There is
   * a match exactly when some '{' precedes some '}', and then it runs from the first '{' to the last '}'.
   */
  function ExtractJsonBlock(s: string): (r: Option<string>)
    ensures r.Some? <==> HasBraces(s)
    ensures r.Some? ==> exists i, j :: SpansFirstToLast(s, r.value, i, j)
    ensures r.Some? ==> |r.value| >= 2 && r.value[0] == '{' && r.value[|r.value| - 1] == '}'
  {
    match (IndexOf(s, '{'), LastIndexOf(s, '}'))
    case (Some(i), Some(j)) =>
      if i < j then
        assert SpansFirstToLast(s, s[i..j + 1], i, j);
        Some(s[i..j + 1])
      else
        None
    case (_, _) => None
  }

  /**
   * What checkAnswerRelevancy resolves to: nothing without a (non-empty) reply or without a JSON
   * block in it, otherwise whatever parsing that block gives (None for a parse error).
   */
  function AnalysisOf(reply: Option<string>, parse: string -> Option<Evaluation>): (r: Option<Evaluation>)
    ensures reply.None? || reply.value == "" || !HasBraces(reply.value) ==> r.None?
    ensures r.Some? ==> exists block :: ExtractJsonBlock(reply.value) == Some(block) && r == parse(block)
    ensures reply.Some? && HasBraces(reply.value) ==>
      ExtractJsonBlock(reply.value).Some? && r == parse(ExtractJsonBlock(reply.value).value)
  {
    match reply
    case None => None
    case Some(text) =>
      if text == "" then None
      else
        match ExtractJsonBlock(text)
        case None => None
        case Some(block) => parse(block)
  }
}

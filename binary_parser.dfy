/**
 * `BinaryQuestionGenerator.parse_question(response_text, question_type)` and the copy of
 * its pattern in `TrueFalseQuestionGenerator.parse_question`: one block of model output
 * becomes a question, an answer word and an explanation, or nothing (the empty dict).
 *
 * The pattern is `Question:\s*(.+?)(?:\n|$)\s*Answer:\s*(W1|W2)\s*(?:\n|$)\s*Explanation:\s*(.+?)(?:\n\n|$)`
 * searched with `.` matching line breaks. The model is an explicit scanner that follows
 * the order in which the regular expression engine tries its choices:
 *  - only the first "Question:" matters, because a match from a later one can be
 *    stretched back to the first one by the lazy question group;
 *  - the greedy `\s*` in front of the question takes all leading whitespace, and the
 *    question then ends at the first line break after it from which the rest matches;
 *    only when there is none does `\s*` give back characters, which makes the question a
 *    single blank character ending at the last such line break inside the whitespace;
 *  - after the line break, whitespace, "Answer:", whitespace and one of the two words
 *    are each forced, the whitespace after the word must hold a line break, and
 *    "Explanation:" must follow it;
 *  - the explanation starts after the whitespace that follows "Explanation:" and runs
 *    lazily to the first blank line, to the end, or to a line break that ends the text.
 */
module BinaryParser {
  import opened Wrappers
  import opened Text

  const QuestionMarker: string := "Question:"
  const AnswerMarker: string := "Answer:"
  const ExplanationMarker: string := "Explanation:"

  /** The two answer words a question type accepts. */
  datatype Vocabulary = Vocabulary(first: string, second: string)

  const TrueFalseType: string := "true_false"
  const YesNoType: string := "yes_no"

  const TrueFalseWords: Vocabulary := Vocabulary("True", "False")
  const YesNoWords: Vocabulary := Vocabulary("Yes", "No")

  /** `VALID_TYPES`. */
  predicate ValidType(questionType: string) {
    questionType == TrueFalseType || questionType == YesNoType
  }

  /** The answer alternation for a question type; `None` for any other type. */
  function WordsOf(questionType: string): (r: Option<Vocabulary>)
    ensures r.Some? <==> ValidType(questionType)
  {
    if questionType == TrueFalseType then Some(TrueFalseWords)
    else if questionType == YesNoType then Some(YesNoWords)
    else None
  }

  /** The dict `parse_question` returns when the pattern matches. */
  datatype BinaryRecord = BinaryRecord(question: string, correctAnswer: string, explanation: string)

  /** The capture groups of a match, before trimming. */
  datatype BinaryGroups = BinaryGroups(question: string, answer: string, explanation: string)

  /** `(W1|W2)` at position `b` of `s`: the first alternative that occurs there. */
  function AnswerWord(s: string, b: nat, words: Vocabulary): (r: Option<string>)
    ensures r.Some? ==> (r.value == words.first || r.value == words.second) && OccursAt(s, r.value, b)
  {
    if OccursAt(s, words.first, b) then Some(words.first)
    else if OccursAt(s, words.second, b) then Some(words.second)
    else None
  }

  /** Where `(?:\n\n|$)` holds in `s`: before a blank line, at the end, or before a final line break. */
  predicate ExplanationStop(s: string, e: nat)
    requires e <= |s|
  {
    e == |s| || (e + 1 == |s| && s[e] == '\n') || OccursAt(s, "\n\n", e)
  }

  /** The first stop at or after `e`: where the lazy explanation group ends. */
  function ExplanationEnd(s: string, e: nat): (r: nat)
    requires e <= |s|
    decreases |s| - e
    ensures e <= r <= |s| && ExplanationStop(s, r)
  {
    if ExplanationStop(s, e) then e else ExplanationEnd(s, e + 1)
  }

  /**
   * The parts of `\s*Answer:\s*(W1|W2)\s*(?:\n|$)\s*Explanation:\s*(.+?)(?:\n\n|$)` that a
   * scan can still be looking for. Each part starts with whitespace; the scan skips it a
   * character at a time and then matches what follows it.
   */
  datatype Stage =
    | SeekAnswer                                  // `\s*Answer:`
    | SeekWord                                    // `\s*(W1|W2)`
    | SeekExplanation(word: string, broken: bool) // `\s*(?:\n|$)\s*Explanation:`; `broken` once a line break was skipped
    | SeekText(word: string)                      // `\s*(.+?)(?:\n\n|$)`

  function StageRank(stage: Stage): nat {
    match stage
    case SeekAnswer => 3
    case SeekWord => 2
    case SeekExplanation(_, _) => 1
    case SeekText(_) => 0
  }

  /**
   * Scans `s` from position `k` for the rest of the answer part, giving the answer word
   * and the raw explanation. The regular expression never needs to backtrack here: each
   * whitespace run is followed by a character that is not whitespace, except in the
   * explanation, where a run that reaches the end gives its last character to the group.
   */
  function Scan(s: string, k: nat, words: Vocabulary, stage: Stage): (r: Option<(string, string)>)
    requires k <= |s|
    decreases |s| - k, StageRank(stage)
    ensures r.Some? ==>
      || r.value.0 == words.first || r.value.0 == words.second
      || ((stage.SeekExplanation? || stage.SeekText?) && r.value.0 == stage.word)
    ensures r.Some? && stage.SeekAnswer? ==> Contains(s, AnswerMarker)
    ensures r.Some? && !stage.SeekText? ==> Contains(s, ExplanationMarker)
  {
    if k < |s| && IsSpace(s[k]) && !(stage.SeekText? && k + 1 == |s|) then
      var next := if stage.SeekExplanation? && s[k] == '\n' then SeekExplanation(stage.word, true) else stage;
      Scan(s, k + 1, words, next)
    else
      match stage
      case SeekAnswer =>
        if OccursAt(s, AnswerMarker, k) then Scan(s, k + |AnswerMarker|, words, SeekWord) else None
      case SeekWord =>
        (match AnswerWord(s, k, words)
         case None => None
         case Some(word) => Scan(s, k + |word|, words, SeekExplanation(word, false)))
      case SeekExplanation(word, broken) =>
        if broken && OccursAt(s, ExplanationMarker, k) then
          Scan(s, k + |ExplanationMarker|, words, SeekText(word))
        else None
      case SeekText(word) =>
        if k == |s| then None else Some((word, s[k..ExplanationEnd(s, k + 1)]))
  }

  /**
   * What follows the line break that ends the question, from position `k`: the answer
   * word and the raw explanation.
   */
  function AnswerPart(s: string, k: nat, words: Vocabulary): (r: Option<(string, string)>)
    requires k <= |s|
    ensures r.Some? ==> r.value.0 == words.first || r.value.0 == words.second
    ensures r.Some? ==> Contains(s, AnswerMarker) && Contains(s, ExplanationMarker)
  {
    Scan(s, k, words, SeekAnswer)
  }

  /** The question group may end at `e`: a line break from which the rest of the pattern matches. */
  predicate QuestionStop(s: string, e: nat, words: Vocabulary) {
    e < |s| && s[e] == '\n' && AnswerPart(s, e + 1, words).Some?
  }

  /** The first question stop at or after `e`: where the lazy question group ends. */
  function FirstStop(s: string, e: nat, words: Vocabulary): (r: Option<nat>)
    decreases |s| - e
    ensures r.Some? ==> e <= r.value && QuestionStop(s, r.value, words)
  {
    if e >= |s| then None
    else if QuestionStop(s, e, words) then Some(e)
    else FirstStop(s, e + 1, words)
  }

  /** The last question stop in `1..e`: where `\s*` gives back the fewest characters. */
  function LastStop(s: string, e: nat, words: Vocabulary): (r: Option<nat>)
    decreases e
    ensures r.Some? ==> 1 <= r.value <= e && QuestionStop(s, r.value, words)
  {
    if e == 0 then None
    else if QuestionStop(s, e, words) then Some(e)
    else LastStop(s, e - 1, words)
  }

  /** The groups of a match whose question group ends at the stop `e`. */
  function GroupsAt(s: string, start: nat, e: nat, words: Vocabulary): (r: Option<BinaryGroups>)
    requires start <= e && QuestionStop(s, e, words)
    ensures r.Some? && (r.value.answer == words.first || r.value.answer == words.second)
  {
    var p := AnswerPart(s, e + 1, words).value;
    Some(BinaryGroups(s[start..e], p.0, p.1))
  }

  /** The groups after "Question:", in the order the engine tries the lengths of the two groups. */
  function MatchAfter(s: string, words: Vocabulary): (r: Option<BinaryGroups>)
    ensures r.Some? ==> r.value.answer == words.first || r.value.answer == words.second
    ensures r.Some? ==> Contains(s, AnswerMarker) && Contains(s, ExplanationMarker)
  {
    var w := SpaceRun(s);
    match FirstStop(s, w + 1, words)
    case Some(e) => GroupsAt(s, w, e, words)
    case None =>
      match LastStop(s, w, words)
      case None => None
      case Some(e) => GroupsAt(s, e - 1, e, words)
  }

  /** The capture groups `re.search(pattern, response_text, re.DOTALL)` yields, if it matches. */
  function BinaryMatch(text: string, words: Vocabulary): (r: Option<BinaryGroups>)
    ensures r.Some? ==> r.value.answer == words.first || r.value.answer == words.second
  {
    match Find(text, QuestionMarker)
    case None => None
    case Some(k) => MatchAfter(text[k + |QuestionMarker|..], words)
  }

  /** The record built from the groups, each field stripped. */
  function RecordOf(m: Option<BinaryGroups>): Option<BinaryRecord> {
    match m
    case None => None
    case Some(g) => Some(BinaryRecord(Strip(g.question), Strip(g.answer), Strip(g.explanation)))
  }

  /** `BinaryQuestionGenerator.parse_question`; `None` stands for `{}`. */
  function ParseBinary(text: string, questionType: string): (r: Option<BinaryRecord>)
    ensures !ValidType(questionType) ==> r.None?
  {
    match WordsOf(questionType)
    case None => None
    case Some(words) => RecordOf(BinaryMatch(text, words))
  }

  /** `TrueFalseQuestionGenerator.parse_question`: the same pattern with the words True and False. */
  function ParseTrueFalse(text: string): Option<BinaryRecord> {
    RecordOf(BinaryMatch(text, TrueFalseWords))
  }
}

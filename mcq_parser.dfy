/**
 * `QuestionGenerator.parse_question(response_text, num_options)`: one block of model
 * output becomes a question record, or nothing (the empty dict).
 *
 * The source builds one regular expression from the option labels and searches the text
 * with it, `.` matching line breaks too. The model is an explicit scanner that makes, for
 * every capture, the first choice the expression allows: the match starts at the first
 * "Question:", the question runs (lazily, at least one character) to the first line break
 * followed by "A.", option i runs to the first line break followed by the next label (the
 * last option to the first line break followed by "Correct Answer:"), and the answer is
 * what a greedy run of blanks followed by one or more characters other than a line break
 * takes after the marker.
 */
module McqParser {
  import opened Wrappers
  import opened Text
  import opened Answers

  /**
   * Parsing is defined for up to 26 labels, 'A' to 'Z'. From the 27th label on,
   * `chr(65 + i)` is a punctuation character that breaks the generated expression.
   */
  const MaxOptions: nat := 26

  /** Label characters stop below the surrogate range, where Dafny characters end. */
  const LabelLimit: nat := 0xD800 - 65

  /** `chr(65 + i)`. */
  function Letter(i: nat): char
    requires i < LabelLimit
  {
    (65 + i) as char
  }

  /** How many labels `range(num_options)` produces: none for a negative count. */
  function OptionCount(n: int): nat {
    if n < 0 then 0 else n
  }

  /** `option_letters = [chr(65 + i) for i in range(num_options)]`. */
  function Letters(n: int): (r: seq<char>)
    requires n <= LabelLimit
    ensures |r| == OptionCount(n)
    ensures forall i :: 0 <= i < |r| ==> r[i] == Letter(i)
  {
    if n <= 0 then [] else Letters(n - 1) + [Letter(n - 1)]
  }

  /** The label an option line starts with, `L.`. */
  function Label(c: char): string {
    [c, '.']
  }

  const QuestionMarker: string := "Question:"
  const AnswerMarker: string := "Correct Answer:"

  /** One option of a parsed question: its label and its trimmed text. */
  datatype Choice = Choice(letter: char, text: string)

  /** The non-empty dict `parse_question` returns: `question`, `options`, `correct_answer`. */
  datatype McqRecord = McqRecord(question: string, options: seq<Choice>, correctAnswer: seq<string>)

  /** The capture groups of a successful match, before any trimming. */
  datatype McqGroups = McqGroups(question: string, options: seq<string>, answer: string)

  /**
   * The first occurrence of `pat` in `s` that leaves at least one character in front of
   * it: where a lazy `(.+?)` followed by `pat` stops.
   */
  function FindAfterStart(s: string, pat: string): (r: Option<nat>)
    ensures r.Some? ==> 1 <= r.value && OccursAt(s, pat, r.value)
    ensures r.Some? ==> forall j :: 1 <= j < r.value ==> !OccursAt(s, pat, j)
    ensures r.None? ==> forall j :: 1 <= j ==> !OccursAt(s, pat, j)
  {
    if s == [] then None else FindFrom(s, pat, 1)
  }

  /** Where a lazy group followed by `pat` stops: the group, then the text after `pat`. */
  function SplitAtStop(s: string, pat: string): (r: Option<(string, string)>)
    ensures r.Some? ==> |r.value.0| >= 1 && s == r.value.0 + pat + r.value.1
  {
    match FindAfterStart(s, pat)
    case None => None
    case Some(e) =>
      assert s == s[..e] + pat + s[e + |pat|..];
      Some((s[..e], s[e + |pat|..]))
  }

  /**
   * `\s*([^\n]+)` at the end of the pattern: the greedy `\s*` gives characters back
   * until the group can take at least one character that is not a line break.
   */
  function TryAnswer(a: string, k: nat): (r: Option<string>)
    requires k <= |a|
    decreases k
  {
    if k < |a| && a[k] != '\n' then Some(FirstLine(a[k..]))
    else if k == 0 then None
    else TryAnswer(a, k - 1)
  }

  function AnswerGroup(a: string): Option<string> {
    TryAnswer(a, SpaceRun(a))
  }

  /** What closes option `i` of `n`: the next label at the start of a line, or the answer marker. */
  function OptionStop(i: nat, n: nat): string
    requires i < n <= MaxOptions
  {
    if i + 1 < n then "\n" + Label(Letter(i + 1)) else "\n" + AnswerMarker
  }

  /**
   * The groups of options `i` to `n - 1`, with `s` the text right after option `i`'s
   * label, together with the text after "Correct Answer:".
   */
  function OptionGroups(s: string, i: nat, n: nat): (r: Option<(seq<string>, string)>)
    requires i < n <= MaxOptions
    decreases n - i
    ensures r.Some? ==> |r.value.0| == n - i
  {
    match SplitAtStop(s, OptionStop(i, n))
    case None => None
    case Some(p) =>
      if i + 1 < n then
        match OptionGroups(p.1, i + 1, n)
        case None => None
        case Some(more) => Some(([p.0] + more.0, more.1))
      else Some(([p.0], p.1))
  }

  /** A line break at `e` whose next non-blank text is the answer marker. */
  predicate AnswerFollows(s: string, e: nat) {
    e < |s| && s[e] == '\n' && StartsWith(LStrip(s[e + 1..]), AnswerMarker)
  }

  /**
   * For a pattern without options, `(.+?)\n\s*Correct Answer:`: the first line break at
   * or after `e` whose next non-blank text is the answer marker.
   */
  function BareQuestionEnd(s: string, e: nat): (r: Option<nat>)
    requires e <= |s|
    decreases |s| - e
    ensures r.Some? ==> e <= r.value && AnswerFollows(s, r.value)
    ensures r.Some? ==> forall j :: e <= j < r.value ==> !AnswerFollows(s, j)
    ensures r.None? ==> forall j :: e <= j ==> !AnswerFollows(s, j)
  {
    if e == |s| then None
    else if AnswerFollows(s, e) then Some(e)
    else BareQuestionEnd(s, e + 1)
  }

  /** The groups after "Question:" for a pattern without options. */
  function BareMatch(s: string): (r: Option<McqGroups>)
    ensures r.Some? ==> r.value.options == []
  {
    match (if s == [] then None else BareQuestionEnd(s, 1))
    case None => None
    case Some(e) =>
      var after := LStrip(s[e + 1..]);
      match AnswerGroup(after[|AnswerMarker|..])
      case None => None
      case Some(a) => Some(McqGroups(s[..e], [], a))
  }

  /** The groups after "Question:" for a pattern with `n >= 1` options. */
  function OptionMatch(s: string, n: nat): (r: Option<McqGroups>)
    requires 1 <= n <= MaxOptions
    ensures r.Some? ==> |r.value.options| == n
  {
    match SplitAtStop(s, "\n" + Label(Letter(0)))
    case None => None
    case Some(p) =>
      match OptionGroups(p.1, 0, n)
      case None => None
      case Some(og) =>
        match AnswerGroup(og.1)
        case None => None
        case Some(a) => Some(McqGroups(p.0, og.0, a))
  }

  /** The capture groups `re.search(pattern, response_text, re.DOTALL)` yields, if it matches. */
  function McqMatch(text: string, n: int): (r: Option<McqGroups>)
    requires n <= MaxOptions
    ensures r.Some? ==> |r.value.options| == OptionCount(n)
  {
    match Find(text, QuestionMarker)
    case None => None
    case Some(k) =>
      var s := text[k + |QuestionMarker|..];
      if n <= 0 then BareMatch(s) else OptionMatch(s, n)
  }

  /** `match.group(i + 2).strip()` followed by `.rstrip()`. */
  function CleanOption(raw: string): string {
    RStrip(Strip(raw))
  }

  /** `correct_answer_str.strip()`, then `.split("\n")[0].strip()`. */
  function AnswerLine(raw: string): string {
    Strip(SplitOn(Strip(raw), "\n")[0])
  }

  /** The `options` dict filled in label order from the option groups. */
  function OptionsOf(raws: seq<string>): (r: seq<Choice>)
    requires |raws| <= MaxOptions
    ensures |r| == |raws|
  {
    if raws == [] then []
    else
      var last := |raws| - 1;
      OptionsOf(raws[..last]) + [Choice(Letter(last), CleanOption(raws[last]))]
  }

  /** The value `parse_question` returns; `None` stands for `{}`. */
  function ParseMcq(text: string, n: int): Option<McqRecord>
    requires n <= MaxOptions
  {
    match McqMatch(text, n)
    case None => None
    case Some(g) =>
      Some(McqRecord(Strip(g.question), OptionsOf(g.options), NormalizeAnswers(AnswerLine(g.answer))))
  }

  /** The loop of `parse_question` that files each option group under its label. */
  method FillOptions(raws: seq<string>) returns (options: seq<Choice>)
    requires |raws| <= MaxOptions
    ensures options == OptionsOf(raws)
  {
    var letters := Letters(|raws|);
    options := [];
    var i := 0;
    while i < |letters|
      invariant 0 <= i <= |letters|
      invariant options == OptionsOf(raws[..i])
    {
      var optionText := Strip(raws[i]);
      assert raws[..i + 1][..i] == raws[..i];
      options := options + [Choice(letters[i], RStrip(optionText))];
      i := i + 1;
    }
    assert raws[..i] == raws;
  }

  /** `parse_question`, filling the options dict label by label as the source does. */
  method ParseQuestion(responseText: string, numOptions: int) returns (r: Option<McqRecord>)
    requires numOptions <= MaxOptions
    ensures r == ParseMcq(responseText, numOptions)
  {
    var m := McqMatch(responseText, numOptions);
    if m.None? {
      return None;
    }
    var groups := m.value;
    var options := FillOptions(groups.options);
    var answer := Strip(groups.answer);
    answer := Strip(SplitOn(answer, "\n")[0]);
    r := Some(McqRecord(Strip(groups.question), options, NormalizeAnswers(answer)));
  }
}

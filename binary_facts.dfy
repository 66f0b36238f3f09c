/** What the binary parser promises: its vocabulary, its trimmed fields, and the round trip. */
module BinaryFacts {
  import opened Wrappers
  import opened Text
  import opened BinaryParser

  /** The true/false parser is the binary parser with the type "true_false". */
  lemma TrueFalseAgrees(text: string)
    ensures ParseTrueFalse(text) == ParseBinary(text, TrueFalseType)
  {
  }

  lemma WordsStripped(words: Vocabulary)
    requires words == TrueFalseWords || words == YesNoWords
    ensures Strip(words.first) == words.first && Strip(words.second) == words.second
  {
    var f, g := words.first, words.second;
    assert Stripped(f) && Stripped(g);
    StrippedIsFixed(f);
    StrippedIsFixed(g);
  }

  /** The stripped record of groups whose answer is a word of the vocabulary. */
  lemma RecordShape(m: Option<BinaryGroups>, words: Vocabulary)
    requires words == TrueFalseWords || words == YesNoWords
    requires m.Some? && (m.value.answer == words.first || m.value.answer == words.second)
    ensures var r := RecordOf(m).value;
      && (r.correctAnswer == words.first || r.correctAnswer == words.second)
      && Stripped(r.question) && Stripped(r.explanation)
  {
    WordsStripped(words);
    StrippedIsFixed(m.value.question);
    StrippedIsFixed(m.value.explanation);
  }

  /**
   * On success the answer is one of the two words of the question type, and the
   * question and the explanation are stripped.
   */
  lemma ParsedBinaryShape(text: string, questionType: string)
    requires ParseBinary(text, questionType).Some?
    ensures var r := ParseBinary(text, questionType).value;
      && (questionType == TrueFalseType ==> r.correctAnswer == "True" || r.correctAnswer == "False")
      && (questionType == YesNoType ==> r.correctAnswer == "Yes" || r.correctAnswer == "No")
      && Stripped(r.question) && Stripped(r.explanation)
  {
    var words := WordsOf(questionType).value;
    RecordShape(BinaryMatch(text, words), words);
  }

  /** Only "True" or "False" is ever the answer of the true/false parser. */
  lemma TrueFalseAnswer(text: string)
    requires ParseTrueFalse(text).Some?
    ensures ParseTrueFalse(text).value.correctAnswer in {"True", "False"}
  {
    ParsedBinaryShape(text, TrueFalseType);
  }

  // The question group ends at the first stop after the leading whitespace, or else
  // at the last stop inside it: the search functions find the first and the last stop.

  lemma {:induction false} FirstStopIsFirst(s: string, e: nat, words: Vocabulary)
    decreases |s| - e
    ensures FirstStop(s, e, words).Some? ==>
      forall j :: e <= j < FirstStop(s, e, words).value ==> !QuestionStop(s, j, words)
    ensures FirstStop(s, e, words).None? ==> forall j :: e <= j ==> !QuestionStop(s, j, words)
  {
    if e < |s| && !QuestionStop(s, e, words) {
      FirstStopIsFirst(s, e + 1, words);
    }
  }

  lemma {:induction false} LastStopIsLast(s: string, e: nat, words: Vocabulary)
    decreases e
    ensures LastStop(s, e, words).Some? ==>
      forall j :: LastStop(s, e, words).value < j <= e ==> !QuestionStop(s, j, words)
    ensures LastStop(s, e, words).None? ==> forall j :: 1 <= j <= e ==> !QuestionStop(s, j, words)
  {
    if e > 0 && !QuestionStop(s, e, words) {
      LastStopIsLast(s, e - 1, words);
    }
  }

  /** The first stop from `e` is `k` when `k` is a stop and none comes before it. */
  lemma {:induction false} FirstStopIs(s: string, e: nat, k: nat, words: Vocabulary)
    requires e <= k && QuestionStop(s, k, words)
    requires forall j :: e <= j < k ==> !QuestionStop(s, j, words)
    decreases k - e
    ensures FirstStop(s, e, words) == Some(k)
  {
    if e < k {
      FirstStopIs(s, e + 1, k, words);
    }
  }

  /** A text parses only if it holds "Question:", "Answer:" and "Explanation:". */
  lemma ParsedBinaryNeedsMarkers(text: string, questionType: string)
    requires ParseBinary(text, questionType).Some?
    ensures Contains(text, QuestionMarker)
    ensures Contains(text, AnswerMarker) && Contains(text, ExplanationMarker)
  {
    var words := WordsOf(questionType).value;
    var k := Find(text, QuestionMarker).value;
    assert MatchAfter(text[k + |QuestionMarker|..], words).Some?;
    ContainsSuffix(text, k + |QuestionMarker|, AnswerMarker);
    ContainsSuffix(text, k + |QuestionMarker|, ExplanationMarker);
  }

  // The round trip from the prompt's template.

  /** What may follow a well-formed explanation without becoming part of it. */
  predicate BlankLineOrEnd(tail: string) {
    tail == [] || StartsWith(tail, "\n\n")
  }

  /** The lazy explanation group ends at `k` when there is a stop there and no line break before it. */
  lemma {:induction false} ExplanationEndAt(s: string, e: nat, k: nat)
    requires e <= k <= |s| && ExplanationStop(s, k)
    requires forall j :: e <= j < k ==> s[j] != '\n'
    decreases k - e
    ensures ExplanationEnd(s, e) == k
  {
    if e < k {
      assert e + 2 <= |s| ==> s[e..e + 2][0] == s[e];
      ExplanationEndAt(s, e + 1, k);
    }
  }

  /** One of the two words of a vocabulary. */
  predicate InVocabulary(a: string, words: Vocabulary) {
    (words == TrueFalseWords || words == YesNoWords) && (a == words.first || a == words.second)
  }

  /**
   * The answer lines of the template, found in `s` from position `n`: "Answer:", a blank,
   * the word `a`, a line break, "Explanation:", a blank and the explanation `x`, then the
   * end of the text or a blank line.
   */
  predicate AnswerLayout(s: string, n: nat, a: string, x: string) {
    var m := n + |AnswerMarker| + 1 + |a| + 1 + |ExplanationMarker| + 1;
    && OccursAt(s, AnswerMarker, n)
    && OccursAt(s, " ", n + |AnswerMarker|)
    && OccursAt(s, a, n + |AnswerMarker| + 1)
    && OccursAt(s, "\n", n + |AnswerMarker| + 1 + |a|)
    && OccursAt(s, ExplanationMarker, n + |AnswerMarker| + 1 + |a| + 1)
    && OccursAt(s, " ", m - 1)
    && OccursAt(s, x, m)
    && (m + |x| == |s| || OccursAt(s, "\n\n", m + |x|))
  }

  /** The explanation scan reads a one-line explanation back and stops after it. */
  lemma ScanText(s: string, m: nat, a: string, x: string, words: Vocabulary)
    requires m >= 1 && WellFormedText(x) && OccursAt(s, " ", m - 1) && OccursAt(s, x, m)
    requires m + |x| == |s| || OccursAt(s, "\n\n", m + |x|)
    ensures Scan(s, m - 1, words, SeekText(a)) == Some((a, x))
  {
    assert s[m - 1] == s[m - 1..m][0];
    forall j | m <= j < m + |x|
      ensures s[j] == x[j - m]
    {
      assert s[j] == s[m..m + |x|][j - m];
    }
    ExplanationEndAt(s, m + 1, m + |x|);
  }

  /** The line break after the word, "Explanation:" and the explanation line. */
  lemma ScanExplanation(s: string, c: nat, a: string, x: string, words: Vocabulary)
    requires WellFormedText(x)
    requires OccursAt(s, "\n", c) && OccursAt(s, ExplanationMarker, c + 1)
    requires var m := c + 1 + |ExplanationMarker| + 1;
      && OccursAt(s, " ", m - 1) && OccursAt(s, x, m)
      && (m + |x| == |s| || OccursAt(s, "\n\n", m + |x|))
    ensures Scan(s, c, words, SeekExplanation(a, false)) == Some((a, x))
  {
    var m := c + 1 + |ExplanationMarker| + 1;
    assert s[c] == s[c..c + 1][0];
    assert s[c + 1] == s[c + 1..c + 1 + |ExplanationMarker|][0];
    ScanText(s, m, a, x, words);
    assert Scan(s, c + 1, words, SeekExplanation(a, true)) == Some((a, x));
  }

  /** The blank and the answer word after "Answer:". */
  lemma ScanWord(s: string, b: nat, a: string, words: Vocabulary)
    requires InVocabulary(a, words) && b >= 1 && OccursAt(s, " ", b - 1) && OccursAt(s, a, b)
    ensures Scan(s, b - 1, words, SeekWord) == Scan(s, b + |a|, words, SeekExplanation(a, false))
  {
    assert s[b - 1] == s[b - 1..b][0];
    assert s[b] == s[b..b + |a|][0];
    assert AnswerWord(s, b, words) == Some(a) by {
      assert OccursAt(s, words.first, b) ==> s[b..b + |words.first|][0] == s[b];
    }
  }

  /** The answer part of the template's layout gives its word and its explanation. */
  lemma ScanLayout(s: string, n: nat, a: string, x: string, words: Vocabulary)
    requires InVocabulary(a, words) && WellFormedText(x) && AnswerLayout(s, n, a, x)
    ensures AnswerPart(s, n, words) == Some((a, x))
  {
    var b := n + |AnswerMarker| + 1;
    ScanExplanation(s, b + |a|, a, x, words);
    ScanWord(s, b, a, words);
    assert s[n] == s[n..n + |AnswerMarker|][0];
  }

  /** `p` at position `k` of `s`, and what follows it. */
  lemma Peel(s: string, k: nat, p: string, r: string)
    requires k <= |s| && s[k..] == p + r
    ensures OccursAt(s, p, k) && s[k + |p|..] == r
  {
    assert s[k..k + |p|] == s[k..][..|p|];
    assert (p + r)[..|p|] == p;
    assert s[k + |p|..] == s[k..][|p|..];
  }

  /** The answer line, the explanation line and what follows them, as the template lays them out. */
  function AnswerLines(a: string, x: string, tail: string): string {
    AnswerMarker + (" " + (a + ("\n" + (ExplanationMarker + (" " + (x + tail))))))
  }

  lemma AnswerLinesLayout(s: string, n: nat, a: string, x: string, tail: string)
    requires n <= |s| && s[n..] == AnswerLines(a, x, tail) && BlankLineOrEnd(tail)
    ensures AnswerLayout(s, n, a, x)
  {
    var b := n + |AnswerMarker| + 1;
    var c := b + |a| + 1;
    var m := c + |ExplanationMarker| + 1;
    Peel(s, n, AnswerMarker, " " + (a + ("\n" + (ExplanationMarker + (" " + (x + tail))))));
    Peel(s, b - 1, " ", a + ("\n" + (ExplanationMarker + (" " + (x + tail)))));
    Peel(s, b, a, "\n" + (ExplanationMarker + (" " + (x + tail))));
    Peel(s, c - 1, "\n", ExplanationMarker + (" " + (x + tail)));
    Peel(s, c, ExplanationMarker, " " + (x + tail));
    Peel(s, m - 1, " ", x + tail);
    Peel(s, m, x, tail);
    if tail != [] {
      assert tail == "\n\n" + tail[2..];
      Peel(s, m + |x|, "\n\n", tail[2..]);
    }
  }

  /** The answer lines of the template, anywhere in a text, are read back as their word and explanation. */
  lemma AnswerPartOf(s: string, n: nat, a: string, x: string, tail: string, words: Vocabulary)
    requires n <= |s| && s[n..] == AnswerLines(a, x, tail)
    requires InVocabulary(a, words) && WellFormedText(x) && BlankLineOrEnd(tail)
    ensures AnswerPart(s, n, words) == Some((a, x))
  {
    AnswerLinesLayout(s, n, a, x, tail);
    ScanLayout(s, n, a, x, words);
  }

  lemma SpaceRunOfBlank(u: string)
    requires u != [] && !IsSpace(u[0])
    ensures SpaceRun(" " + u) == 1
  {
    assert (" " + u)[1..] == u;
    assert SpaceRun(u) == 0;
  }

  /**
   * After a blank, a one-line question ends at its line break when the rest matches
   * there: the lazy question group stops at the first stop.
   */
  lemma QuestionEnds(q: string, rest: string, words: Vocabulary)
    requires WellFormedText(q) && AnswerPart(" " + (q + ("\n" + rest)), |q| + 2, words).Some?
    ensures var s := " " + (q + ("\n" + rest));
      var p := AnswerPart(s, |q| + 2, words).value;
      MatchAfter(s, words) == Some(BinaryGroups(q, p.0, p.1))
  {
    var s := " " + (q + ("\n" + rest));
    assert s[1] == q[0];
    SpaceRunOfBlank(q + ("\n" + rest));
    forall j | 2 <= j < |q| + 1
      ensures !QuestionStop(s, j, words)
    {
      assert s[j] == q[j - 1];
    }
    assert s[|q| + 1] == '\n';
    FirstStopIs(s, 2, |q| + 1, words);
    assert s[1..|q| + 1] == q;
  }

  /** A question block in the template's layout: the three marked lines, then `tail`. */
  function BinaryBlock(q: string, a: string, x: string, tail: string): string {
    QuestionMarker + (" " + (q + ("\n" + AnswerLines(a, x, tail))))
  }

  /** The groups of a block in the template's layout are its three fields. */
  lemma BlockGroups(q: string, a: string, x: string, tail: string, words: Vocabulary)
    requires WellFormedText(q) && WellFormedText(x) && BlankLineOrEnd(tail) && InVocabulary(a, words)
    ensures BinaryMatch(BinaryBlock(q, a, x, tail), words) == Some(BinaryGroups(q, a, x))
  {
    var rest := AnswerLines(a, x, tail);
    var s := " " + (q + ("\n" + rest));
    var text := BinaryBlock(q, a, x, tail);
    Peel(text, 0, QuestionMarker, s);
    FindIs(text, QuestionMarker, 0);
    assert s[|q| + 2..] == rest;
    AnswerPartOf(s, |q| + 2, a, x, tail, words);
    QuestionEnds(q, rest, words);
  }

  /**
   * The round trip: a block laid out as the template asks, with a one-line question, an
   * answer word of the type's vocabulary and a one-line explanation, followed by nothing
   * or by a blank line, parses back to its three fields; the explanation stops at the
   * blank line.
   */
  lemma BinaryRoundTrip(q: string, a: string, x: string, tail: string, questionType: string)
    requires WellFormedText(q) && WellFormedText(x) && BlankLineOrEnd(tail)
    requires WordsOf(questionType).Some? && InVocabulary(a, WordsOf(questionType).value)
    ensures ParseBinary(BinaryBlock(q, a, x, tail), questionType) == Some(BinaryRecord(q, a, x))
  {
    var words := WordsOf(questionType).value;
    BlockGroups(q, a, x, tail, words);
    WordsStripped(words);
    StrippedIsFixed(q);
    StrippedIsFixed(x);
  }

  // Rejection: the answer word must end its line.

  /**
   * After the answer word, whitespace without a line break followed by any other character,
   * or by the end of the text, fails the scan: `\s*(?:\n|$)\s*Explanation:` needs a
   * line break before "Explanation:".
   */
  lemma {:induction false} WordMustEndLine(s: string, k: nat, j: nat, words: Vocabulary, w: string)
    requires k <= j <= |s| && (j == |s| || !IsSpace(s[j]))
    requires forall i :: k <= i < j ==> IsSpace(s[i]) && s[i] != '\n'
    decreases j - k
    ensures Scan(s, k, words, SeekExplanation(w, false)).None?
  {
    if k < j {
      WordMustEndLine(s, k + 1, j, words, w);
    }
  }

  /** From "Answer:" on, the scan goes on with the word that follows the marker. */
  lemma AnswerMarkerThenWord(s: string, n: nat, words: Vocabulary)
    requires n + |AnswerMarker| <= |s| && OccursAt(s, AnswerMarker, n)
    ensures AnswerPart(s, n, words) == Scan(s, n + |AnswerMarker|, words, SeekWord)
  {
    assert s[n] == s[n..n + |AnswerMarker|][0];
  }

  /** The line goes on after the answer word: a run of whitespace without a line break, then another character. */
  predicate LineGoesOn(z: string) {
    SpaceRun(z) < |z| && forall i :: 0 <= i < SpaceRun(z) ==> z[i] != '\n'
  }

  /** A line that is not all whitespace goes on, whatever follows it. */
  lemma LineGoesOnBefore(u: string, y: string)
    requires SingleLine(u) && SpaceRun(u) < |u|
    ensures LineGoesOn(u + y)
  {
    SpaceRunExtend(u, y);
    assert forall i :: 0 <= i < SpaceRun(u) ==> (u + y)[i] == u[i];
  }

  /** When the line goes on right after the answer word, the scan fails. */
  lemma RestOfLineRejected(s: string, c: nat, z: string, words: Vocabulary, w: string)
    requires c <= |s| && s[c..] == z && LineGoesOn(z)
    ensures Scan(s, c, words, SeekExplanation(w, false)).None?
  {
    var j := c + SpaceRun(z);
    forall i | c <= i <= j
      ensures s[i] == z[i - c]
    {
    }
    WordMustEndLine(s, c, j, words, w);
  }

  /** "Answer:", a blank and a vocabulary word `a` from `n` on: the scan goes on after the word. */
  lemma AnswerPartAfterWord(s: string, n: nat, a: string, words: Vocabulary)
    requires InVocabulary(a, words) && n + |AnswerMarker| + 1 + |a| <= |s|
    requires OccursAt(s, AnswerMarker, n) && OccursAt(s, " ", n + |AnswerMarker|)
    requires OccursAt(s, a, n + |AnswerMarker| + 1)
    ensures AnswerPart(s, n, words) == Scan(s, n + |AnswerMarker| + 1 + |a|, words, SeekExplanation(a, false))
  {
    AnswerMarkerThenWord(s, n, words);
    ScanWord(s, n + |AnswerMarker| + 1, a, words);
  }

  /** "Answer:", a blank and a vocabulary word `a` from `n` on, with the scan failing after the word. */
  lemma AnswerPartFailsAfterWord(s: string, n: nat, c: nat, a: string, words: Vocabulary)
    requires InVocabulary(a, words) && c == n + |AnswerMarker| + 1 + |a| && c <= |s|
    requires OccursAt(s, AnswerMarker, n) && OccursAt(s, " ", n + |AnswerMarker|)
    requires OccursAt(s, a, n + |AnswerMarker| + 1)
    requires Scan(s, c, words, SeekExplanation(a, false)).None?
    ensures AnswerPart(s, n, words).None?
  {
    AnswerPartAfterWord(s, n, a, words);
  }

  /** The positions of "Answer:", the blank, the word `a` and the rest of the line in an answer line. */
  lemma AnswerLineAt(s: string, n: nat, a: string, z: string)
    requires n <= |s| && s[n..] == AnswerMarker + (" " + (a + z))
    ensures n + |AnswerMarker| + 1 + |a| <= |s|
    ensures OccursAt(s, AnswerMarker, n) && OccursAt(s, " ", n + |AnswerMarker|)
    ensures OccursAt(s, a, n + |AnswerMarker| + 1) && s[n + |AnswerMarker| + 1 + |a|..] == z
  {
    var b := n + |AnswerMarker| + 1;
    Peel(s, n, AnswerMarker, " " + (a + z));
    Peel(s, b - 1, " ", a + z);
    Peel(s, b, a, z);
  }

  /** "Answer:", a blank and the word `a`, with the line going on after the word, fail the scan. */
  lemma BadWordAnswerPart(s: string, n: nat, a: string, z: string, words: Vocabulary)
    requires n <= |s| && s[n..] == AnswerMarker + (" " + (a + z))
    requires InVocabulary(a, words) && LineGoesOn(z)
    ensures AnswerPart(s, n, words).None?
  {
    var c := n + |AnswerMarker| + 1 + |a|;
    AnswerLineAt(s, n, a, z);
    RestOfLineRejected(s, c, z, words, a);
    AnswerPartFailsAfterWord(s, n, c, a, words);
  }

  /** With no question stop from `e` on, there is no first stop. */
  lemma {:induction false} FirstStopNone(s: string, e: nat, words: Vocabulary)
    requires forall j :: e <= j < |s| ==> !QuestionStop(s, j, words)
    decreases |s| - e
    ensures FirstStop(s, e, words).None?
  {
    if e < |s| {
      FirstStopNone(s, e + 1, words);
    }
  }

  /** The line breaks of three single lines joined by line breaks are the two joins. */
  lemma TwoBreaks(s: string, p: string, m: string, t: string)
    requires s == p + ("\n" + (m + ("\n" + t)))
    requires SingleLine(p) && SingleLine(m) && SingleLine(t)
    ensures forall j :: 0 <= j < |s| && j != |p| && j != |p| + 1 + |m| ==> s[j] != '\n'
  {
    forall j | 0 <= j < |s| && j != |p| && j != |p| + 1 + |m|
      ensures s[j] != '\n'
    {
      if j < |p| {
        assert s[j] == p[j];
      } else if j < |p| + 1 + |m| {
        assert s[j] == m[j - |p| - 1];
      } else {
        assert s[j] == t[j - |p| - 2 - |m|];
      }
    }
  }

  /** The answer line "Answer: a" followed by `u` on the same line. */
  function AnswerLineWith(a: string, u: string): string {
    AnswerMarker + (" " + (a + u))
  }

  /** The explanation line "Explanation: x". */
  function ExplanationLine(x: string): string {
    ExplanationMarker + (" " + x)
  }

  /** A block laid out as the template asks, except that `u` follows the answer word on its line. */
  function BadWordBlock(q: string, a: string, u: string, x: string): string {
    QuestionMarker + (" " + (q + ("\n" + (AnswerLineWith(a, u) + ("\n" + ExplanationLine(x))))))
  }

  lemma AnswerLineSingle(a: string, u: string)
    requires SingleLine(a) && SingleLine(u)
    ensures SingleLine(AnswerLineWith(a, u))
  {
    assert SingleLine(AnswerMarker) && SingleLine(" ");
    SingleLineConcat(a, u);
    SingleLineConcat(" ", a + u);
    SingleLineConcat(AnswerMarker, " " + (a + u));
  }

  lemma ExplanationLineSingle(x: string)
    requires SingleLine(x)
    ensures SingleLine(ExplanationLine(x))
  {
    assert SingleLine(ExplanationMarker) && SingleLine(" ");
    SingleLineConcat(" ", x);
    SingleLineConcat(ExplanationMarker, " " + x);
  }

  lemma AnswerLineThen(a: string, u: string, y: string)
    ensures AnswerLineWith(a, u) + y == AnswerMarker + (" " + (a + (u + y)))
  {
  }

  /** The explanation line never starts a match of the answer part. */
  lemma ExplanationLineNoAnswer(s: string, n: nat, x: string, words: Vocabulary)
    requires n <= |s| && s[n..] == ExplanationLine(x)
    ensures AnswerPart(s, n, words).None?
  {
    Peel(s, n, ExplanationMarker, " " + x);
    assert s[n] == s[n..n + |ExplanationMarker|][0] == 'E';
    assert AnswerMarker[0] == 'A';
  }

  /** A text after "Question:" with no question stop past its leading blank has no match. */
  lemma NoStopNoMatch(s: string, q: string, rest: string, words: Vocabulary)
    requires WellFormedText(q) && s == " " + (q + ("\n" + rest))
    requires forall j :: 2 <= j < |s| ==> !QuestionStop(s, j, words)
    ensures MatchAfter(s, words).None?
  {
    assert s[1] == q[0];
    SpaceRunOfBlank(q + ("\n" + rest));
    FirstStopNone(s, 2, words);
    assert !QuestionStop(s, 1, words);
    assert LastStop(s, 1, words).None?;
  }

  /** The lines after the two joins of three lines joined by line breaks. */
  lemma TwoBreaksRest(s: string, p: string, m: string, t: string)
    requires s == p + ("\n" + (m + ("\n" + t)))
    ensures s[|p| + 1..] == m + ("\n" + t) && s[|p| + 2 + |m|..] == t
  {
    assert s[|p| + 1..] == m + ("\n" + t);
    assert s[|p| + 2 + |m|..] == s[|p| + 1..][|m| + 1..];
  }

  /** Of three single lines joined by line breaks, only the joins can be question stops, and only when an answer part follows them. */
  lemma StopsAtBreaks(s: string, p: string, m: string, t: string, words: Vocabulary)
    requires s == p + ("\n" + (m + ("\n" + t)))
    requires SingleLine(p) && SingleLine(m) && SingleLine(t)
    requires AnswerPart(s, |p| + 1, words).None? && AnswerPart(s, |p| + 2 + |m|, words).None?
    ensures forall j :: 0 <= j < |s| ==> !QuestionStop(s, j, words)
  {
    TwoBreaks(s, p, m, t);
  }

  lemma BlankQuestionLine(q: string, z: string)
    requires SingleLine(q)
    ensures " " + (q + z) == (" " + q) + z && SingleLine(" " + q)
  {
    SingleLineConcat(" ", q);
  }

  /** Neither the answer line, when it goes on after the word, nor the explanation line starts an answer part. */
  lemma BadBlockAnswerParts(s: string, n: nat, m: nat, a: string, z: string, x: string, words: Vocabulary)
    requires n <= |s| && s[n..] == AnswerMarker + (" " + (a + z))
    requires InVocabulary(a, words) && LineGoesOn(z)
    requires m <= |s| && s[m..] == ExplanationLine(x)
    ensures AnswerPart(s, n, words).None? && AnswerPart(s, m, words).None?
  {
    BadWordAnswerPart(s, n, a, z, words);
    ExplanationLineNoAnswer(s, m, x, words);
  }

  /** The layout of the text after "Question:" of a block whose answer word does not end its line. */
  lemma BadBlockLayout(q: string, a: string, u: string, x: string, words: Vocabulary)
    requires WellFormedText(q) && SingleLine(u) && SpaceRun(u) < |u| && SingleLine(x)
    requires InVocabulary(a, words)
    ensures var line, expl := AnswerLineWith(a, u), ExplanationLine(x);
      var s := " " + (q + ("\n" + (line + ("\n" + expl))));
      && s == (" " + q) + ("\n" + (line + ("\n" + expl)))
      && SingleLine(" " + q) && SingleLine(line) && SingleLine(expl)
      && s[|q| + 2..] == AnswerMarker + (" " + (a + (u + ("\n" + expl))))
      && s[|q| + 3 + |line|..] == expl
      && LineGoesOn(u + ("\n" + expl))
  {
    var line, expl := AnswerLineWith(a, u), ExplanationLine(x);
    var p := " " + q;
    var s := " " + (q + ("\n" + (line + ("\n" + expl))));
    assert SingleLine(a);
    AnswerLineSingle(a, u);
    ExplanationLineSingle(x);
    BlankQuestionLine(q, "\n" + (line + ("\n" + expl)));
    TwoBreaksRest(s, p, line, expl);
    AnswerLineThen(a, u, "\n" + expl);
    LineGoesOnBefore(u, "\n" + expl);
  }

  /** Three lines as in `BadBlockLayout`: no question stop anywhere. */
  lemma BadLayoutStops(s: string, p: string, line: string, expl: string, a: string, z: string, x: string,
                       words: Vocabulary)
    requires s == p + ("\n" + (line + ("\n" + expl)))
    requires SingleLine(p) && SingleLine(line) && SingleLine(expl)
    requires s[|p| + 1..] == AnswerMarker + (" " + (a + z)) && InVocabulary(a, words) && LineGoesOn(z)
    requires s[|p| + 2 + |line|..] == ExplanationLine(x)
    ensures forall j :: 0 <= j < |s| ==> !QuestionStop(s, j, words)
  {
    BadBlockAnswerParts(s, |p| + 1, |p| + 2 + |line|, a, z, x, words);
    StopsAtBreaks(s, p, line, expl, words);
  }

  /** In the text after "Question:" of a block whose answer word does not end its line, nothing is a question stop. */
  lemma BadBlockStops(q: string, a: string, u: string, x: string, words: Vocabulary)
    requires WellFormedText(q) && SingleLine(u) && SpaceRun(u) < |u| && SingleLine(x)
    requires InVocabulary(a, words)
    ensures var s := " " + (q + ("\n" + (AnswerLineWith(a, u) + ("\n" + ExplanationLine(x)))));
      forall j :: 2 <= j < |s| ==> !QuestionStop(s, j, words)
  {
    var line, expl := AnswerLineWith(a, u), ExplanationLine(x);
    var s := " " + (q + ("\n" + (line + ("\n" + expl))));
    BadBlockLayout(q, a, u, x, words);
    BadLayoutStops(s, " " + q, line, expl, a, u + ("\n" + expl), x, words);
  }

  /**
   * Rejection: when anything but whitespace follows the answer word on its line, as in
   * "Answer: True, because" or "Answer: Truely", the block gives `{}`, even though the
   * word is in the vocabulary and the other lines are as the template asks.
   */
  lemma BadWordRejected(q: string, a: string, u: string, x: string, questionType: string)
    requires WellFormedText(q) && SingleLine(u) && SpaceRun(u) < |u| && SingleLine(x)
    requires WordsOf(questionType).Some? && InVocabulary(a, WordsOf(questionType).value)
    ensures ParseBinary(BadWordBlock(q, a, u, x), questionType).None?
  {
    var words := WordsOf(questionType).value;
    var rest := AnswerLineWith(a, u) + ("\n" + ExplanationLine(x));
    var s := " " + (q + ("\n" + rest));
    var text := BadWordBlock(q, a, u, x);
    Peel(text, 0, QuestionMarker, s);
    FindIs(text, QuestionMarker, 0);
    BadBlockStops(q, a, u, x, words);
    NoStopNoMatch(s, q, rest, words);
  }

  lemma ExampleFields()
    ensures WellFormedText("q") && SingleLine(", x") && SpaceRun(", x") < |", x"| && SingleLine("e")
  {
  }

  lemma BlockAssoc(m: string, q: string, a: string, e: string)
    ensures m + (" " + (q + ("\n" + (a + ("\n" + e))))) == (m + (" " + q)) + "\n" + a + "\n" + e
  {
  }

  lemma ExampleLines(q: string, a: string, e: string)
    requires q == "Question: q" && a == "Answer: True, x" && e == "Explanation: e"
    ensures q + "\n" + a + "\n" + e == "Question: q\nAnswer: True, x\nExplanation: e"
  {
  }

  lemma ExampleLayout(text: string)
    requires text == "Question: q\nAnswer: True, x\nExplanation: e"
    ensures BadWordBlock("q", "True", ", x", "e") == text
  {
    var a, e := AnswerLineWith("True", ", x"), ExplanationLine("e");
    assert QuestionMarker + (" " + "q") == "Question: q";
    assert a == "Answer: True, x";
    assert e == "Explanation: e";
    BlockAssoc(QuestionMarker, "q", a, e);
    ExampleLines(QuestionMarker + (" " + "q"), a, e);
  }

  /** The text "Question: q\nAnswer: True, x\nExplanation: e" is rejected for true_false. */
  lemma BadWordExample(text: string)
    requires text == "Question: q\nAnswer: True, x\nExplanation: e"
    ensures ParseBinary(text, TrueFalseType).None?
  {
    ExampleFields();
    ExampleLayout(text);
    BadWordRejected("q", "True", ", x", "e", TrueFalseType);
  }
}

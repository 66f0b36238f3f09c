/**
 * What `parse_question` guarantees: the shape of every record it returns, the markers a
 * text must hold to parse at all, and the round trip from a question block written in
 * the prompt's layout (option lines one per line) back to the record.
 */
module McqFacts {
  import opened Wrappers
  import opened Text
  import opened Answers
  import opened AnswerFacts
  import opened McqParser
  import opened McqLayout

  lemma StrippedRStrip(t: string)
    requires Stripped(t)
    ensures RStrip(t) == t
  {
  }

  /** The `rstrip()` after `strip()` changes nothing: an option is its stripped group. */
  lemma CleanOptionIsStrip(raw: string)
    ensures CleanOption(raw) == Strip(raw)
    ensures Stripped(CleanOption(raw))
  {
    StrippedIsFixed(raw);
    StrippedRStrip(Strip(raw));
  }

  /** Option `i` of the dict carries label `chr(65 + i)` and the cleaned group `i + 2`. */
  lemma {:induction false} OptionsOfAt(raws: seq<string>)
    requires |raws| <= MaxOptions
    ensures forall i :: 0 <= i < |raws| ==> OptionsOf(raws)[i] == Choice(Letter(i), CleanOption(raws[i]))
  {
    if raws != [] {
      var last := |raws| - 1;
      OptionsOfAt(raws[..last]);
      forall i | 0 <= i < last
        ensures raws[..last][i] == raws[i]
      {
      }
    }
  }

  /**
   * Every record `parse_question` returns has exactly `num_options` options (none for a
   * negative count), labelled 'A', 'B', ... in order, with stripped texts, a stripped
   * question, and no empty string among the correct answers.
   */
  lemma ParsedShape(text: string, n: int)
    requires n <= MaxOptions && ParseMcq(text, n).Some?
    ensures var r := ParseMcq(text, n).value;
      && Stripped(r.question)
      && |r.options| == OptionCount(n)
      && (forall i :: 0 <= i < |r.options| ==> r.options[i].letter == Letter(i) && Stripped(r.options[i].text))
      && (forall i :: 0 <= i < |r.correctAnswer| ==> r.correctAnswer[i] != "")
  {
    var g := McqMatch(text, n).value;
    StrippedIsFixed(g.question);
    OptionsOfAt(g.options);
    forall i | 0 <= i < |g.options|
      ensures Stripped(CleanOption(g.options[i]))
    {
      CleanOptionIsStrip(g.options[i]);
    }
    NormalizedNonEmpty(AnswerLine(g.answer));
  }

  /** An occurrence of `a + b` holds an occurrence of `b`. */
  lemma ContainsLatter(s: string, a: string, b: string)
    requires Contains(s, a + b)
    ensures Contains(s, b)
  {
    var k: nat :| k <= |s| && OccursAt(s, a + b, k);
    assert s[k + |a|..k + |a| + |b|] == (a + b)[|a|..];
    assert OccursAt(s, b, k + |a|);
  }

  /** The option groups end at a line break followed by "Correct Answer:". */
  lemma {:induction false} GroupsNeedAnswerMarker(s: string, i: nat, n: nat)
    requires i < n <= MaxOptions && OptionGroups(s, i, n).Some?
    ensures Contains(s, "\n" + AnswerMarker)
    decreases n - i
  {
    var stop := OptionStop(i, n);
    var p := SplitAtStop(s, stop).value;
    if i + 1 < n {
      GroupsNeedAnswerMarker(p.1, i + 1, n);
      ContainsLeft(p.0 + stop, p.1, "\n" + AnswerMarker);
    } else {
      ContainsMiddle(p.0, stop, p.1);
    }
  }

  /** Every later label appears at the start of a line in the option groups. */
  lemma {:induction false} GroupsNeedLabel(s: string, i: nat, n: nat, j: nat)
    requires i < j < n <= MaxOptions && OptionGroups(s, i, n).Some?
    ensures Contains(s, "\n" + Label(Letter(j)))
    decreases n - i
  {
    var stop := OptionStop(i, n);
    var p := SplitAtStop(s, stop).value;
    if j == i + 1 {
      ContainsMiddle(p.0, stop, p.1);
    } else {
      GroupsNeedLabel(p.1, i + 1, n, j);
      ContainsLeft(p.0 + stop, p.1, "\n" + Label(Letter(j)));
    }
  }

  /** Whatever follows the start of a string's first non-blank text is in the string. */
  lemma LStripContains(x: string, pat: string)
    requires StartsWith(LStrip(x), pat)
    ensures Contains(x, pat)
  {
    assert OccursAt(LStrip(x), pat, 0);
    ContainsSuffix(x, SpaceRun(x), pat);
  }

  lemma BareNeedsAnswerMarker(s: string)
    requires BareMatch(s).Some?
    ensures Contains(s, AnswerMarker)
  {
    var e := BareQuestionEnd(s, 1).value;
    LStripContains(s[e + 1..], AnswerMarker);
    ContainsSuffix(s, e + 1, AnswerMarker);
  }

  lemma OptionsNeedAnswerMarker(s: string, n: nat)
    requires 1 <= n <= MaxOptions && OptionMatch(s, n).Some?
    ensures Contains(s, AnswerMarker)
  {
    var first := "\n" + Label(Letter(0));
    var p := SplitAtStop(s, first).value;
    GroupsNeedAnswerMarker(p.1, 0, n);
    ContainsLeft(p.0 + first, p.1, "\n" + AnswerMarker);
    ContainsLatter(s, "\n", AnswerMarker);
  }

  lemma MatchNeedsAnswerMarker(text: string, n: int)
    requires n <= MaxOptions && McqMatch(text, n).Some?
    ensures Contains(text, AnswerMarker)
  {
    var k := Find(text, QuestionMarker).value;
    var s := text[k + |QuestionMarker|..];
    if n <= 0 {
      BareNeedsAnswerMarker(s);
    } else {
      OptionsNeedAnswerMarker(s, n);
    }
    ContainsSuffix(text, k + |QuestionMarker|, AnswerMarker);
  }

  lemma OptionsNeedLabel(s: string, n: nat, j: nat)
    requires j < n <= MaxOptions && OptionMatch(s, n).Some?
    ensures Contains(s, "\n" + Label(Letter(j)))
  {
    var first := "\n" + Label(Letter(0));
    var p := SplitAtStop(s, first).value;
    if j == 0 {
      ContainsMiddle(p.0, first, p.1);
    } else {
      GroupsNeedLabel(p.1, 0, n, j);
      ContainsLeft(p.0 + first, p.1, "\n" + Label(Letter(j)));
    }
  }

  lemma MatchNeedsLabel(text: string, n: int, j: nat)
    requires j < n <= MaxOptions && McqMatch(text, n).Some?
    ensures Contains(text, "\n" + Label(Letter(j)))
  {
    var k := Find(text, QuestionMarker).value;
    OptionsNeedLabel(text[k + |QuestionMarker|..], n, j);
    ContainsSuffix(text, k + |QuestionMarker|, "\n" + Label(Letter(j)));
  }

  /**
   * A text parses only if it holds "Question:", "Correct Answer:" and, for every one of
   * the `num_options` labels, that label at the start of a line.
   */
  lemma ParsedNeedsMarkers(text: string, n: int)
    requires n <= MaxOptions && ParseMcq(text, n).Some?
    ensures Contains(text, QuestionMarker)
    ensures Contains(text, AnswerMarker)
    ensures forall j: nat :: j < n ==> Contains(text, "\n" + Label(Letter(j)))
  {
    MatchNeedsAnswerMarker(text, n);
    forall j: nat | j < n
      ensures Contains(text, "\n" + Label(Letter(j)))
    {
      MatchNeedsLabel(text, n, j);
    }
  }

  /** Test-pinned: a text without the question format gives the empty dict. */
  lemma InvalidFormatExample()
    ensures ParseMcq("This is not a valid question format", 4) == None
  {
    var text := "This is not a valid question format";
    assert QuestionMarker[8] == ':';
    AbsentChar(text, QuestionMarker, ':');
  }

  // The round trip from the prompt's layout.

  /** A lazy group that cannot cross a line break stops at the first line break. */
  lemma FirstBreak(u: string, v: string, pat: string)
    requires SingleLine(u) && |u| >= 1
    requires |pat| >= 1 && pat[0] == '\n' && StartsWith(v, pat)
    ensures FindAfterStart(u + v, pat) == Some(|u|)
    ensures SplitAtStop(u + v, pat) == Some((u, v[|pat|..]))
  {
    var w := u + v;
    assert w[|u|..|u| + |pat|] == v[..|pat|];
    assert OccursAt(w, pat, |u|);
    forall j | 1 <= j < |u|
      ensures !OccursAt(w, pat, j)
    {
      assert w[j] == u[j];
      assert j + |pat| <= |w| ==> w[j..j + |pat|][0] == w[j];
    }
    assert w[..|u|] == u;
    assert w[|u| + |pat|..] == v[|pat|..];
  }

  /** A single space in front of a well-formed text is all `strip()` removes. */
  lemma StripSpaced(t: string)
    requires WellFormedText(t)
    ensures Strip(" " + t) == t
  {
    var x := " " + t;
    assert x[1..] == t;
    assert SpaceRun(x[1..]) == 0;
    assert SpaceRun(x) == 1;
    assert LStrip(x) == t;
    StrippedRStrip(t);
  }

  /** The label the option lines for labels from `i` on start with. */
  lemma LinesStart(texts: seq<string>, i: nat, sep: string, x: string)
    requires 1 <= |texts| && i + |texts| <= MaxOptions
    ensures StartsWith(OptionLines(texts, i, sep) + x, Label(Letter(i)))
  {
    var lines := OptionLines(texts, i, sep);
    var first := OptionLine(Letter(i), texts[0]);
    if |texts| > 1 {
      assert lines == first + (sep + OptionLines(texts[1..], i + 1, sep));
    }
    assert (lines + x)[..2] == first[..2];
  }

  /** The option section of a block, from label `i` to the end of the text. */
  function Section(texts: seq<string>, i: nat, rest: string): string
    requires i + |texts| <= MaxOptions
  {
    OptionLines(texts, i, "\n") + "\n" + AnswerMarker + rest
  }

  lemma SpacedSingleLine(t: string)
    requires SingleLine(t)
    ensures SingleLine(" " + t)
  {
    assert forall k :: 1 <= k < |" " + t| ==> (" " + t)[k] == t[k - 1];
  }

  /** After its label, the section of one last option is a blank, the text, and the answer marker. */
  lemma SectionOfLast(t: string, i: nat, rest: string)
    requires i + 1 <= MaxOptions
    ensures Section([t], i, rest)[2..] == " " + t + ("\n" + AnswerMarker + rest)
  {
  }

  /** After its label, a section of several options is a blank, the text, and the next section. */
  lemma SectionOfMore(texts: seq<string>, i: nat, rest: string)
    requires 2 <= |texts| && i + |texts| <= MaxOptions
    ensures Section(texts, i, rest)[2..] == " " + texts[0] + ("\n" + Section(texts[1..], i + 1, rest))
  {
    var lines := OptionLines(texts, i, "\n");
    var tailLines := OptionLines(texts[1..], i + 1, "\n");
    assert lines == Label(Letter(i)) + " " + texts[0] + "\n" + tailLines;
  }

  lemma GroupsOfLast(t: string, i: nat, rest: string)
    requires i + 1 <= MaxOptions && WellFormedText(t)
    ensures OptionGroups(Section([t], i, rest)[2..], i, i + 1) == Some(([" " + t], rest))
  {
    var stop := OptionStop(i, i + 1);
    SpacedSingleLine(t);
    SectionOfLast(t, i, rest);
    FirstBreak(" " + t, stop + rest, stop);
    assert (stop + rest)[|stop|..] == rest;
  }

  /** A section starts with the label of its first option. */
  lemma SectionStart(texts: seq<string>, i: nat, rest: string)
    requires 1 <= |texts| && i + |texts| <= MaxOptions
    ensures StartsWith(Section(texts, i, rest), Label(Letter(i)))
  {
    LinesStart(texts, i, "\n", "");
    var lines := OptionLines(texts, i, "\n");
    assert lines + "" == lines;
    assert Section(texts, i, rest)[..2] == lines[..2];
  }

  /** A one-line group ends at the line break in front of the stop that follows it. */
  lemma StopAfterLine(u: string, more: string, stop: string)
    requires SingleLine(u) && |u| >= 1
    requires |stop| == 3 && stop[0] == '\n' && StartsWith(more, stop[1..])
    ensures SplitAtStop(u + ("\n" + more), stop) == Some((u, more[2..]))
  {
    assert ("\n" + more)[..3] == "\n" + more[..2];
    assert stop == "\n" + stop[1..];
    FirstBreak(u, "\n" + more, stop);
    assert ("\n" + more)[3..] == more[2..];
  }

  /** The stop after a text that is not the last one is found at the end of its line. */
  lemma StopOfMore(texts: seq<string>, i: nat, n: nat, rest: string)
    requires 2 <= |texts| && n == i + |texts| <= MaxOptions && WellFormedText(texts[0])
    ensures SplitAtStop(Section(texts, i, rest)[2..], OptionStop(i, n))
      == Some((" " + texts[0], Section(texts[1..], i + 1, rest)[2..]))
  {
    var stop := OptionStop(i, n);
    SpacedSingleLine(texts[0]);
    SectionOfMore(texts, i, rest);
    SectionStart(texts[1..], i + 1, rest);
    assert stop[1..] == Label(Letter(i + 1));
    StopAfterLine(" " + texts[0], Section(texts[1..], i + 1, rest), stop);
  }

  lemma GroupsOfMore(texts: seq<string>, i: nat, n: nat, rest: string, m: (seq<string>, string))
    requires 2 <= |texts| && n == i + |texts| <= MaxOptions && WellFormedText(texts[0])
    requires OptionGroups(Section(texts[1..], i + 1, rest)[2..], i + 1, n) == Some(m)
    ensures OptionGroups(Section(texts, i, rest)[2..], i, n) == Some(([" " + texts[0]] + m.0, m.1))
  {
    StopOfMore(texts, i, n, rest);
  }

  /** The groups a section yields: one per option, each a blank and the text, then `rest`. */
  predicate GroupsAre(r: Option<(seq<string>, string)>, texts: seq<string>, rest: string) {
    r.Some? && r.value.1 == rest && Spaced(r.value.0, texts)
  }

  /** Each raw group is a blank followed by the corresponding text. */
  predicate Spaced(raws: seq<string>, texts: seq<string>) {
    |raws| == |texts| && forall k :: 0 <= k < |texts| ==> raws[k] == " " + texts[k]
  }

  lemma GroupsAreCons(t: string, texts: seq<string>, m: (seq<string>, string), rest: string)
    requires |texts| >= 1 && GroupsAre(Some(m), texts[1..], rest) && t == texts[0]
    ensures GroupsAre(Some(([" " + t] + m.0, m.1)), texts, rest)
  {
    assert forall k :: 1 <= k < |texts| ==> ([" " + t] + m.0)[k] == m.0[k - 1];
  }

  lemma {:induction false} GroupsOfLines(texts: seq<string>, i: nat, n: nat, rest: string)
    requires 1 <= |texts| && n == i + |texts| <= MaxOptions
    requires forall k :: 0 <= k < |texts| ==> WellFormedText(texts[k])
    ensures GroupsAre(OptionGroups(Section(texts, i, rest)[2..], i, n), texts, rest)
    decreases |texts|
  {
    if |texts| == 1 {
      GroupsOfLast(texts[0], i, rest);
    } else {
      var more := Section(texts[1..], i + 1, rest);
      assert forall k :: 0 <= k < |texts| - 1 ==> texts[1..][k] == texts[k + 1];
      GroupsOfLines(texts[1..], i + 1, n, rest);
      var m := OptionGroups(more[2..], i + 1, n).value;
      GroupsOfMore(texts, i, n, rest, m);
      GroupsAreCons(texts[0], texts, m, rest);
    }
  }

  lemma FirstLineOf(a: string, tail: string)
    requires SingleLine(a) && (tail == [] || tail[0] == '\n')
    ensures FirstLine(a + tail) == a
  {
    var w := a + tail;
    assert forall i :: 0 <= i < |a| ==> w[i] == a[i];
    assert |a| == |w| || w[|a|] == '\n';
    assert LineLength(w) == |a|;
    assert w[..|a|] == a;
  }

  /** The answer group after "Correct Answer:" is the rest of that line. */
  lemma AnswerGroupOf(a: string, tail: string)
    requires WellFormedText(a) && (tail == [] || tail[0] == '\n')
    ensures AnswerGroup(" " + a + tail) == Some(a)
  {
    var x := " " + a + tail;
    assert x[1..] == a + tail;
    assert SpaceRun(x[1..]) == 0;
    assert SpaceRun(x) == 1;
    assert x[1] == a[0];
    assert x[1..] == a + tail;
    FirstLineOf(a, tail);
  }

  /** The answer line of a well-formed answer is the answer itself. */
  lemma AnswerLineOf(a: string)
    requires WellFormedText(a)
    ensures AnswerLine(a) == a
  {
    StrippedIsFixed(a);
    AbsentChar(a, "\n", '\n');
    assert SplitOn(a, "\n") == [a];
  }

  /** With no colon in front of it, the block's "Question:" is the first one in the text. */
  lemma QuestionMarkerFirst(junk: string, rest: string)
    requires ':' !in junk
    ensures Find(junk + QuestionMarker + rest, QuestionMarker) == Some(|junk|)
  {
    var w := junk + QuestionMarker + rest;
    assert w[|junk|..|junk| + |QuestionMarker|] == QuestionMarker;
    forall j | 0 <= j < |junk|
      ensures !OccursAt(w, QuestionMarker, j)
    {
      if j + 8 < |junk| {
        assert w[j + 8] == junk[j + 8];
      } else {
        assert w[j + 8] == QuestionMarker[j + 8 - |junk|];
      }
      assert j + 9 <= |w| ==> w[j..j + 9][8] == w[j + 8];
    }
    FindIs(w, QuestionMarker, |junk|);
  }

  /** The text after a block's "Question:" is a blank, the question and the option section. */
  lemma BlockBody(junk: string, q: string, texts: seq<string>, a: string, tail: string)
    requires |texts| <= MaxOptions
    ensures var text := junk + McqBlock(q, texts, a, "\n") + tail;
      && text == junk + QuestionMarker + (" " + q + "\n" + Section(texts, 0, " " + a + tail))
      && text[|junk| + |QuestionMarker|..] == " " + q + ("\n" + Section(texts, 0, " " + a + tail))
  {
    var text := junk + McqBlock(q, texts, a, "\n") + tail;
    var body := " " + q + "\n" + Section(texts, 0, " " + a + tail);
    assert text == junk + QuestionMarker + body;
    assert text[|junk| + |QuestionMarker|..] == body;
  }

  /** How `OptionMatch` puts its groups together once each step has found its stop. */
  lemma MatchSteps(s: string, n: nat, u: string, t: string, og: (seq<string>, string), a: string)
    requires 1 <= n <= MaxOptions
    requires SplitAtStop(s, "\n" + Label(Letter(0))) == Some((u, t))
    requires OptionGroups(t, 0, n) == Some(og)
    requires AnswerGroup(og.1) == Some(a)
    ensures OptionMatch(s, n) == Some(McqGroups(u, og.0, a))
  {
  }

  /** The question group ends at the line break in front of the first option label. */
  lemma QuestionStop(q: string, texts: seq<string>, after: string)
    requires 1 <= |texts| <= MaxOptions && WellFormedText(q)
    ensures SplitAtStop(" " + q + ("\n" + Section(texts, 0, after)), "\n" + Label(Letter(0)))
      == Some((" " + q, Section(texts, 0, after)[2..]))
  {
    SpacedSingleLine(q);
    SectionStart(texts, 0, after);
    StopAfterLine(" " + q, Section(texts, 0, after), "\n" + Label(Letter(0)));
  }

  /** After "Question:", a block gives the question, the spaced option texts and the answer. */
  lemma OptionMatchOfBody(q: string, texts: seq<string>, a: string, tail: string)
    requires 1 <= |texts| <= MaxOptions
    requires WellFormedText(q) && WellFormedText(a)
    requires forall k :: 0 <= k < |texts| ==> WellFormedText(texts[k])
    requires tail == [] || tail[0] == '\n'
    ensures var m := OptionMatch(" " + q + ("\n" + Section(texts, 0, " " + a + tail)), |texts|);
      m.Some? && m.value.question == " " + q && Spaced(m.value.options, texts) && m.value.answer == a
  {
    var n := |texts|;
    var after := " " + a + tail;
    var section := Section(texts, 0, after);
    var s := " " + q + ("\n" + section);
    QuestionStop(q, texts, after);
    GroupsOfLines(texts, 0, n, after);
    var og := OptionGroups(section[2..], 0, n).value;
    AnswerGroupOf(a, tail);
    MatchSteps(s, n, " " + q, section[2..], og, a);
  }

  /** The capture groups of a block in the prompt's layout, with one-line option lines. */
  lemma MatchOfBlock(junk: string, q: string, texts: seq<string>, a: string, tail: string)
    requires ':' !in junk
    requires 1 <= |texts| <= MaxOptions
    requires WellFormedText(q) && WellFormedText(a)
    requires forall k :: 0 <= k < |texts| ==> WellFormedText(texts[k])
    requires tail == [] || tail[0] == '\n'
    ensures var m := McqMatch(junk + McqBlock(q, texts, a, "\n") + tail, |texts|);
      m.Some? && m.value.question == " " + q && Spaced(m.value.options, texts) && m.value.answer == a
  {
    var body := " " + q + ("\n" + Section(texts, 0, " " + a + tail));
    BlockBody(junk, q, texts, a, tail);
    assert " " + q + "\n" + Section(texts, 0, " " + a + tail) == body;
    QuestionMarkerFirst(junk, body);
    OptionMatchOfBody(q, texts, a, tail);
  }

  /**
   * The round trip: a block laid out as the prompt asks, with one option per line,
   * well-formed one-line texts, nothing before it that holds a colon and nothing after
   * it on the answer line, parses back to its question, its options under the labels
   * 'A', 'B', ... in order, and the normalised answer.
   */
  lemma ParseBlock(junk: string, q: string, texts: seq<string>, a: string, tail: string)
    requires ':' !in junk
    requires 1 <= |texts| <= MaxOptions
    requires WellFormedText(q) && WellFormedText(a)
    requires forall k :: 0 <= k < |texts| ==> WellFormedText(texts[k])
    requires tail == [] || tail[0] == '\n'
    ensures var r := ParseMcq(junk + McqBlock(q, texts, a, "\n") + tail, |texts|);
      && r.Some? && r.value.question == q && r.value.correctAnswer == NormalizeAnswers(a)
      && |r.value.options| == |texts|
      && forall k :: 0 <= k < |texts| ==> r.value.options[k] == Choice(Letter(k), texts[k])
  {
    var text := junk + McqBlock(q, texts, a, "\n") + tail;
    MatchOfBlock(junk, q, texts, a, tail);
    var g := McqMatch(text, |texts|).value;
    StripSpaced(q);
    AnswerLineOf(a);
    OptionsOfAt(g.options);
    forall k | 0 <= k < |texts|
      ensures CleanOption(g.options[k]) == texts[k]
    {
      CleanOptionIsStrip(g.options[k]);
      StripSpaced(texts[k]);
    }
  }

  /** The round trip for a block with nothing around it. */
  lemma ParseBareBlock(q: string, texts: seq<string>, a: string)
    requires 1 <= |texts| <= MaxOptions
    requires WellFormedText(q) && WellFormedText(a)
    requires forall k :: 0 <= k < |texts| ==> WellFormedText(texts[k])
    ensures var r := ParseMcq(McqBlock(q, texts, a, "\n"), |texts|);
      && r.Some? && r.value.question == q && r.value.correctAnswer == NormalizeAnswers(a)
      && |r.value.options| == |texts|
      && forall k :: 0 <= k < |texts| ==> r.value.options[k] == Choice(Letter(k), texts[k])
  {
    var block := McqBlock(q, texts, a, "\n");
    assert "" + block + "" == block;
    ParseBlock("", q, texts, a, "");
  }
}

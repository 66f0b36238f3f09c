/**
 * What the generation prompts say, and whether the question layout they show is one
 * that `parse_question` reads back.
 */
module PromptFacts {
  import opened Wrappers
  import opened Text
  import opened Answers
  import opened McqParser
  import opened McqLayout
  import opened McqFacts
  import opened Prompts

  // The FORMAT block as the source writes it.

  /** Every line break in `s` is followed, inside `s`, by a character other than `c`. */
  predicate BreaksAvoid(s: string, c: char) {
    forall i :: 0 <= i < |s| && s[i] == '\n' ==> i + 1 < |s| && s[i + 1] != c
  }

  lemma BreaksAvoidConcat(a: string, b: string, c: char)
    requires BreaksAvoid(a, c) && BreaksAvoid(b, c)
    ensures BreaksAvoid(a + b, c)
  {
    forall i | 0 <= i < |a + b| && (a + b)[i] == '\n'
      ensures i + 1 < |a + b| && (a + b)[i + 1] != c
    {
      if i < |a| {
        assert a[i] == '\n';
      } else {
        assert b[i - |a|] == '\n';
      }
    }
  }

  lemma BreaksAvoidBreak(x: string, c: char)
    requires x != [] && x[0] != c && BreaksAvoid(x, c)
    ensures BreaksAvoid("\n" + x, c)
  {
    forall i | 1 <= i < |"\n" + x| && ("\n" + x)[i] == '\n'
      ensures i + 1 < |"\n" + x| && ("\n" + x)[i + 1] != c
    {
      assert x[i - 1] == '\n';
    }
  }

  /** A text whose line breaks all avoid `c` holds no label `c.` at the start of a line. */
  lemma BreaksAvoidNoLabel(s: string, c: char)
    requires BreaksAvoid(s, c)
    ensures !Contains(s, "\n" + Label(c))
  {
    var pat := "\n" + Label(c);
    forall k: nat | k <= |s|
      ensures !OccursAt(s, pat, k)
    {
      assert k + |pat| <= |s| ==> s[k..k + |pat|][0] == s[k] && s[k..k + |pat|][1] == s[k + 1];
    }
  }

  lemma OptionLineSingle(c: char, t: string)
    requires c != '\n' && SingleLine(t)
    ensures SingleLine(OptionLine(c, t))
  {
    assert OptionLine(c, t) == [c, '.', ' '] + t;
  }

  /**
   * Option lines joined by the indented break: every line break is followed by a blank,
   * so no label after the first starts a line.
   */
  lemma {:induction false} IndentedLinesAvoid(texts: seq<string>, i: nat, c: char)
    requires i + |texts| <= MaxOptions && c != ' '
    requires forall k :: 0 <= k < |texts| ==> SingleLine(texts[k])
    ensures BreaksAvoid(OptionLines(texts, i, IndentedBreak), c)
    decreases |texts|
  {
    if texts != [] {
      var line := OptionLine(Letter(i), texts[0]);
      OptionLineSingle(Letter(i), texts[0]);
      if |texts| > 1 {
        var rest := OptionLines(texts[1..], i + 1, IndentedBreak);
        assert forall k :: 0 <= k < |texts| - 1 ==> texts[1..][k] == texts[k + 1];
        IndentedLinesAvoid(texts[1..], i + 1, c);
        var blanks := "        ";
        BreaksAvoidConcat(blanks, rest, c);
        BreaksAvoidBreak(blanks + rest, c);
        assert IndentedBreak + rest == "\n" + (blanks + rest);
        BreaksAvoidConcat(line, IndentedBreak + rest, c);
        assert OptionLines(texts, i, IndentedBreak) == line + (IndentedBreak + rest);
      }
    }
  }

  /** In a block laid out with the indented break, no line starts with "B.". */
  lemma IndentedBlockAvoids(q: string, texts: seq<string>, a: string)
    requires 1 <= |texts| <= MaxOptions
    requires SingleLine(q) && SingleLine(a)
    requires forall k :: 0 <= k < |texts| ==> SingleLine(texts[k])
    ensures BreaksAvoid(McqBlock(q, texts, a, IndentedBreak), Letter(1))
  {
    var c := Letter(1);
    var head := QuestionMarker + " " + q;
    var lines := OptionLines(texts, 0, IndentedBreak);
    var last := AnswerMarker + " " + a;
    assert SingleLine(head);
    assert SingleLine(last);
    IndentedLinesAvoid(texts, 0, c);
    LinesStart(texts, 0, IndentedBreak, "");
    assert lines + "" == lines;
    assert lines[0] == 'A';
    BreaksAvoidBreak(lines, c);
    BreaksAvoidBreak(last, c);
    BreaksAvoidConcat(head, "\n" + lines, c);
    BreaksAvoidConcat(head + ("\n" + lines), "\n" + last, c);
    assert McqBlock(q, texts, a, IndentedBreak) == head + ("\n" + lines) + ("\n" + last);
  }

  /** A parse with at least two options needs "B." at the start of a line. */
  lemma ParseNeedsSecondLabel(text: string, n: int)
    requires 2 <= n <= MaxOptions
    ensures ParseMcq(text, n).Some? ==> Contains(text, "\n" + Label(Letter(1)))
  {
    if ParseMcq(text, n).Some? {
      ParsedNeedsMarkers(text, n);
    }
  }

  /**
   * As written, the prompt shows the options of its example block on lines indented by
   * eight blanks after the first. For two or more options that block, and any answer
   * that copies its layout, does not parse: the parser looks for each label right after
   * a line break.
   */
  lemma IndentedBlockRejected(q: string, texts: seq<string>, a: string)
    requires 2 <= |texts| <= MaxOptions
    requires SingleLine(q) && SingleLine(a)
    requires forall k :: 0 <= k < |texts| ==> SingleLine(texts[k])
    ensures ParseMcq(McqBlock(q, texts, a, IndentedBreak), |texts|) == None
  {
    var block := McqBlock(q, texts, a, IndentedBreak);
    IndentedBlockAvoids(q, texts, a);
    BreaksAvoidNoLabel(block, Letter(1));
    ParseNeedsSecondLabel(block, |texts|);
  }

  lemma PlaceholderWellFormed(c: char)
    requires 'A' <= c <= 'Z'
    ensures WellFormedText(Placeholder(c))
  {
    var p := Placeholder(c);
    assert p == ['[', 'O', 'p', 't', 'i', 'o', 'n', ' ', c, ']'];
  }

  lemma PlaceholdersWellFormed(n: int)
    requires n <= MaxOptions
    ensures forall i :: 0 <= i < |Placeholders(n)| ==> WellFormedText(Placeholders(n)[i])
  {
    forall i | 0 <= i < |Placeholders(n)|
      ensures WellFormedText(Placeholders(n)[i])
    {
      PlaceholderWellFormed(Letter(i));
    }
  }

  /** The example block of the prompt as the source writes it is rejected for two or more options. */
  lemma FormatBlockAsWrittenRejected(n: int, k: int)
    requires 2 <= n <= MaxOptions
    ensures ParseMcq(FormatBlock(n, k, IndentedBreak), n) == None
  {
    var texts := Placeholders(n);
    PlaceholdersWellFormed(n);
    AnswerTextWellFormed(n, k);
    IndentedBlockRejected(QuestionPlaceholder, texts, AnswerDirective(n, k).answerText);
  }

  /** The letter list in the answer placeholder, `"/".join(option_letters)`, is one line. */
  lemma SlashedSingleLine(n: int)
    requires n <= MaxOptions
    ensures SingleLine(Join(LetterStrings(n), "/"))
  {
    JoinSingleLine(LetterStrings(n), "/");
  }

  /** A one-line text between brackets is a well-formed text. */
  lemma BracketedWellFormed(left: string, middle: string, right: string)
    requires |left| >= 1 && left[0] == '[' && |right| >= 1 && right[|right| - 1] == ']'
    requires SingleLine(left) && SingleLine(middle) && SingleLine(right)
    ensures WellFormedText(left + middle + right)
  {
    var t := left + middle + right;
    assert t[0] == '[' && t[|t| - 1] == ']';
  }

  lemma NoneAnswerWellFormed(n: int)
    requires n <= MaxOptions
    ensures WellFormedText(AnswerDirective(n, 0).answerText)
  {
    assert AnswerDirective(n, 0).answerText == "['None of the Above']";
  }

  lemma OneAnswerWellFormed(n: int)
    requires n <= MaxOptions
    ensures WellFormedText(AnswerDirective(n, 1).answerText)
  {
    SlashedSingleLine(n);
    BracketedWellFormed("[", Join(LetterStrings(n), "/"), "]");
  }

  lemma AllAnswerWellFormed(n: int)
    requires n <= MaxOptions && n != 0 && n != 1
    ensures WellFormedText(AnswerDirective(n, n).answerText)
  {
    assert AnswerDirective(n, n).answerText == "['All of the Above']";
  }

  lemma SomeAnswerWellFormed(n: int, k: int)
    requires n <= MaxOptions && k != 0 && k != 1 && k != n
    ensures WellFormedText(AnswerDirective(n, k).answerText)
  {
    SlashedSingleLine(n);
    var all, none := ", or 'All of the Above'", ", or 'None of the Above']";
    assert SingleLine(all) && SingleLine(none);
    SingleLineConcat(all, none);
    BracketedWellFormed(SomeAnswerOpening, Join(LetterStrings(n), "/"), OrSentinels);
  }

  /** The answer placeholder of every directive is a non-empty, stripped, one-line text. */
  lemma AnswerTextWellFormed(n: int, k: int)
    requires n <= MaxOptions
    ensures WellFormedText(AnswerDirective(n, k).answerText)
  {
    if k == 0 {
      NoneAnswerWellFormed(n);
    } else if k == 1 {
      OneAnswerWellFormed(n);
    } else if k == n {
      AllAnswerWellFormed(n);
    } else {
      SomeAnswerWellFormed(n, k);
    }
  }

  lemma QuestionPlaceholderWellFormed()
    ensures WellFormedText(QuestionPlaceholder)
  {
    assert QuestionPlaceholder == "[Question" + " text]";
    SingleLineConcat("[Question", " text]");
  }

  /**
   * With one option line per line, the example block parses back to the question
   * placeholder, the option placeholders under 'A', 'B', ... and the normalised answer
   * placeholder.
   */
  lemma FormatBlockParses(n: int, k: int)
    requires 1 <= n <= MaxOptions
    ensures var r := ParseMcq(FormatBlock(n, k, "\n"), n);
      && r.Some? && r.value.question == QuestionPlaceholder
      && r.value.correctAnswer == NormalizeAnswers(AnswerDirective(n, k).answerText)
      && |r.value.options| == n
      && forall i :: 0 <= i < n ==> r.value.options[i] == Choice(Letter(i), Placeholder(Letter(i)))
  {
    var texts := Placeholders(n);
    var a := AnswerDirective(n, k).answerText;
    PlaceholdersWellFormed(n);
    AnswerTextWellFormed(n, k);
    QuestionPlaceholderWellFormed();
    ParseBareBlock(QuestionPlaceholder, texts, a);
  }

  // What the prompts say.

  /** Option line `j` of the lines for labels `i`, `i + 1`, ... occurs in them. */
  lemma {:induction false} OptionLinesHold(texts: seq<string>, i: nat, sep: string)
    requires i + |texts| <= LabelLimit
    ensures forall j :: 0 <= j < |texts| ==> Contains(OptionLines(texts, i, sep), OptionLine(Letter(i + j), texts[j]))
    decreases |texts|
  {
    if texts != [] {
      var lines := OptionLines(texts, i, sep);
      var line := OptionLine(Letter(i), texts[0]);
      if |texts| == 1 {
        ContainsTail("", line);
        assert "" + line == lines;
      } else {
        var rest := OptionLines(texts[1..], i + 1, sep);
        OptionLinesHold(texts[1..], i + 1, sep);
        assert lines == line + sep + rest;
        forall j | 0 <= j < |texts|
          ensures Contains(lines, OptionLine(Letter(i + j), texts[j]))
        {
          if j == 0 {
            ContainsMiddle("", line, sep + rest);
            assert "" + line + (sep + rest) == lines;
          } else {
            assert texts[1..][j - 1] == texts[j];
            assert i + 1 + (j - 1) == i + j;
            ContainsLeft(line + sep, rest, OptionLine(Letter(i + j), texts[j]));
          }
        }
      }
    }
  }

  /** Where the pieces of the MCQ prompt sit: each argument-dependent piece occurs in the whole. */
  lemma McqPiecesHold(opening: string, field: string, difficulty: string, fixed: string,
                      count: string, block: string, closing: string)
    ensures var p := opening + field + " at a " + difficulty + fixed + count + block + closing + field + ".";
      && Contains(p, field) && Contains(p, difficulty) && Contains(p, count) && Contains(p, block)
  {
    var x0 := opening;
    var x1 := x0 + field;
    var x2 := x1 + " at a ";
    var x3 := x2 + difficulty;
    var x4 := x3 + fixed;
    var x5 := x4 + count;
    var x6 := x5 + block;
    var x7 := x6 + closing;
    var x8 := x7 + field;
    var x9 := x8 + ".";
    ContainsTail(x7, field);
    ContainsRight(x8, ".", field);
    ContainsTail(x2, difficulty);
    ContainsRight(x3, fixed, difficulty);
    ContainsRight(x4, count, difficulty);
    ContainsRight(x5, block, difficulty);
    ContainsRight(x6, closing, difficulty);
    ContainsRight(x7, field, difficulty);
    ContainsRight(x8, ".", difficulty);
    ContainsTail(x4, count);
    ContainsRight(x5, block, count);
    ContainsRight(x6, closing, count);
    ContainsRight(x7, field, count);
    ContainsRight(x8, ".", count);
    ContainsTail(x5, block);
    ContainsRight(x6, closing, block);
    ContainsRight(x7, field, block);
    ContainsRight(x8, ".", block);
  }

  /** The MCQ prompt names the field and the difficulty and holds its count sentence and its example block. */
  lemma McqPromptHolds(field: string, difficulty: string, numQuestions: int, n: int, k: int, sep: string)
    requires n <= MaxOptions
    ensures var p := McqPromptWith(field, difficulty, numQuestions, n, k, sep);
      && Contains(p, field) && Contains(p, difficulty)
      && Contains(p, CountSentence(n, k)) && Contains(p, FormatBlock(n, k, sep))
  {
    var opening := "Generate " + IntToString(numQuestions) + McqAbout;
    McqPiecesHold(opening, field, difficulty, McqRequirements, CountSentence(n, k), FormatBlock(n, k, sep), McqClosing);
  }

  /** The option lines of a block occur in it. */
  lemma BlockHoldsLines(question: string, texts: seq<string>, answer: string, sep: string)
    requires |texts| <= MaxOptions
    ensures Contains(McqBlock(question, texts, answer, sep), OptionLines(texts, 0, sep))
  {
    var lines := OptionLines(texts, 0, sep);
    var x0 := QuestionMarker;
    var x1 := x0 + " ";
    var x2 := x1 + question;
    var x3 := x2 + "\n";
    var x4 := x3 + lines;
    var x5 := x4 + "\n";
    var x6 := x5 + AnswerMarker;
    var x7 := x6 + " ";
    var x8 := x7 + answer;
    ContainsTail(x3, lines);
    ContainsRight(x4, "\n", lines);
    ContainsRight(x5, AnswerMarker, lines);
    ContainsRight(x6, " ", lines);
    ContainsRight(x7, answer, lines);
  }

  /** A block shows an option line `L. text` for each of its options. */
  lemma BlockShowsOptions(question: string, texts: seq<string>, answer: string, sep: string)
    requires |texts| <= MaxOptions
    ensures forall i :: 0 <= i < |texts| ==> Contains(McqBlock(question, texts, answer, sep), OptionLine(Letter(i), texts[i]))
  {
    var block := McqBlock(question, texts, answer, sep);
    BlockHoldsLines(question, texts, answer, sep);
    OptionLinesHold(texts, 0, sep);
    forall i | 0 <= i < |texts|
      ensures Contains(block, OptionLine(Letter(i), texts[i]))
    {
      assert 0 + i == i;
      ContainsTrans(block, OptionLines(texts, 0, sep), OptionLine(Letter(i), texts[i]));
    }
  }

  /** The example block shows an option line `L. [Option L]` for each of the `n` labels. */
  lemma FormatBlockShowsOptions(n: int, k: int, sep: string)
    requires n <= MaxOptions
    ensures forall i :: 0 <= i < n ==> Contains(FormatBlock(n, k, sep), OptionLine(Letter(i), Placeholder(Letter(i))))
  {
    BlockShowsOptions(QuestionPlaceholder, Placeholders(n), AnswerDirective(n, k).answerText, sep);
  }

  /** The count sentence gives the number of options, every label and the answer directive. */
  lemma CountSentenceHolds(n: int, k: int)
    requires n <= MaxOptions
    ensures Contains(CountSentence(n, k), IntToString(n))
    ensures Contains(CountSentence(n, k), AnswerDirective(n, k).instruction)
    ensures forall i :: 0 <= i < n ==> Contains(CountSentence(n, k), [Letter(i)])
  {
    var letters := Join(LetterStrings(n), ", ");
    var instruction := AnswerDirective(n, k).instruction;
    var x0 := IntToString(n);
    var x1 := x0 + " options (";
    var x2 := x1 + letters;
    var x3 := x2 + "), ";
    var x4 := x3 + instruction;
    var x5 := x4 + ".\n\n";
    ContainsSelf(x0);
    ContainsRight(x0, " options (", IntToString(n));
    ContainsRight(x1, letters, IntToString(n));
    ContainsRight(x2, "), ", IntToString(n));
    ContainsRight(x3, instruction, IntToString(n));
    ContainsRight(x4, ".\n\n", IntToString(n));
    ContainsTail(x1, letters);
    ContainsRight(x2, "), ", letters);
    ContainsRight(x3, instruction, letters);
    ContainsRight(x4, ".\n\n", letters);
    ContainsTail(x3, instruction);
    ContainsRight(x4, ".\n\n", instruction);
    JoinHoldsParts(LetterStrings(n), ", ");
    forall i | 0 <= i < n
      ensures Contains(CountSentence(n, k), [Letter(i)])
    {
      ContainsTrans(CountSentence(n, k), letters, LetterStrings(n)[i]);
    }
  }

  /**
   * The directive follows the source's order of tests: one correct answer is asked for
   * exactly when `k` is 1, "None of the Above" alone exactly when `k` is 0, and "All of
   * the Above" alone exactly when every option is correct and `k` is neither 0 nor 1.
   */
  lemma DirectiveChoice(n: int, k: int)
    requires n <= MaxOptions
    ensures AnswerDirective(n, k).instruction == NoneOnly <==> k == 0
    ensures AnswerDirective(n, k).instruction == OnlyOne <==> k == 1
    ensures AnswerDirective(n, k).instruction == AllOnly <==> k == n && k != 0 && k != 1
  {
    assert NoneOnly[6] == 'N' && OnlyOne[6] == 'n' && AllOnly[6] == 'A';
    if k != 0 && k != 1 && k != n {
      var t := AnswerDirective(n, k).instruction;
      assert t[5] == IntToString(k)[0];
      assert t[5] == '-' || '0' <= t[5] <= '9';
      assert NoneOnly[5] == '\'' && OnlyOne[5] == 'o' && AllOnly[5] == '\'';
    }
  }

  /** Whenever some but not all options are correct, or exactly one is, the answer placeholder lists every label. */
  lemma AnswerTextLetters(n: int, k: int)
    requires n <= MaxOptions && k != 0 && (k == 1 || k != n)
    ensures forall i :: 0 <= i < n ==> Contains(AnswerDirective(n, k).answerText, [Letter(i)])
  {
    var slashed := Join(LetterStrings(n), "/");
    var t := AnswerDirective(n, k).answerText;
    if k == 1 {
      ContainsMiddle("[", slashed, "]");
    } else {
      ContainsMiddle("[One or more from ", slashed, OrSentinels);
    }
    JoinHoldsParts(LetterStrings(n), "/");
    forall i | 0 <= i < n
      ensures Contains(t, [Letter(i)])
    {
      ContainsTrans(t, slashed, LetterStrings(n)[i]);
    }
  }

  /**
   * A binary prompt names the field, the difficulty and the kind of question, and ends
   * with its output template.
   */
  lemma BinaryPromptHolds(kind: string, decides: string, template: string,
                          field: string, numQuestions: int, difficulty: string)
    ensures var p := BinaryPrompt(kind, decides, template, field, numQuestions, difficulty);
      && Contains(p, field) && Contains(p, difficulty) && Contains(p, kind)
      && |template| <= |p| && p[|p| - |template|..] == template
  {
    var x0 := "Generate ";
    var x1 := x0 + IntToString(numQuestions);
    var x2 := x1 + UniqueIntro;
    var x3 := x2 + kind;
    var x4 := x3 + QuestionsAbout;
    var x5 := x4 + field;
    var x6 := x5 + " at a ";
    var x7 := x6 + difficulty;
    var x8 := x7 + BinaryLevel;
    var x9 := x8 + decides;
    var x10 := x9 + BinaryQuality;
    var x11 := x10 + field;
    var x12 := x11 + BinaryRequirements;
    var x13 := x12 + template;
    ContainsTail(x2, kind);
    ContainsRight(x3, QuestionsAbout, kind);
    ContainsRight(x4, field, kind);
    ContainsRight(x5, " at a ", kind);
    ContainsRight(x6, difficulty, kind);
    ContainsRight(x7, BinaryLevel, kind);
    ContainsRight(x8, decides, kind);
    ContainsRight(x9, BinaryQuality, kind);
    ContainsRight(x10, field, kind);
    ContainsRight(x11, BinaryRequirements, kind);
    ContainsRight(x12, template, kind);
    ContainsTail(x10, field);
    ContainsRight(x11, BinaryRequirements, field);
    ContainsRight(x12, template, field);
    ContainsTail(x6, difficulty);
    ContainsRight(x7, BinaryLevel, difficulty);
    ContainsRight(x8, decides, difficulty);
    ContainsRight(x9, BinaryQuality, difficulty);
    ContainsRight(x10, field, difficulty);
    ContainsRight(x11, BinaryRequirements, difficulty);
    ContainsRight(x12, template, difficulty);
    assert x13[|x12|..] == template;
  }

  // Which template a prompt starts with.

  /** A prefix stays a prefix whatever follows. */
  lemma StartsWithMore(x: string, y: string, p: string)
    requires StartsWith(x, p)
    ensures StartsWith(x + y, p)
  {
    assert (x + y)[..|p|] == x[..|p|];
  }

  /** A string that starts with `a` does not start with `b` when the two differ at a position both reach. */
  lemma StartsWithExcludes(s: string, a: string, b: string, i: nat)
    requires i < |a| && i < |b| && a[i] != b[i]
    ensures StartsWith(s, a) ==> !StartsWith(s, b)
  {
    if StartsWith(s, a) && |b| <= |s| {
      assert s[i] == s[..|a|][i] == a[i];
      assert s[..|b|][i] == s[i];
    }
  }

  /** The explanation prompt opens with the multiple-choice template exactly when options are given. */
  lemma ExplainTemplateChoice(question: string, options: Option<string>, correctAnswer: string)
    ensures StartsWith(ExplainPrompt(question, options, correctAnswer), ExplainWithOptions) <==> options.Some?
    ensures StartsWith(ExplainPrompt(question, options, correctAnswer), ExplainWithout) <==> options.None?
  {
    var p := ExplainPrompt(question, options, correctAnswer);
    assert ExplainWithOptions[60] == 'o' && ExplainWithout[60] == ' ';
    StartsWithExcludes(p, ExplainWithOptions, ExplainWithout, 60);
    StartsWithExcludes(p, ExplainWithout, ExplainWithOptions, 60);
    match options
    case Some(rendered) =>
      var x0 := ExplainWithOptions;
      var x1 := x0 + correctAnswer;
      var x2 := x1 + InEnglish;
      var x3 := x2 + Paragraph;
      var x4 := x3 + question;
      var x5 := x4 + Paragraph;
      var x6 := x5 + rendered;
      var x7 := x6 + Paragraph;
      StartsWithMore(x0, correctAnswer, x0);
      StartsWithMore(x1, InEnglish, x0);
      StartsWithMore(x2, Paragraph, x0);
      StartsWithMore(x3, question, x0);
      StartsWithMore(x4, Paragraph, x0);
      StartsWithMore(x5, rendered, x0);
      StartsWithMore(x6, Paragraph, x0);
      StartsWithMore(x7, ExplainClosing, x0);
    case None =>
      var y0 := ExplainWithout;
      var y1 := y0 + correctAnswer;
      var y2 := y1 + InEnglish;
      var y3 := y2 + Paragraph;
      var y4 := y3 + question;
      var y5 := y4 + Paragraph;
      StartsWithMore(y0, correctAnswer, y0);
      StartsWithMore(y1, InEnglish, y0);
      StartsWithMore(y2, Paragraph, y0);
      StartsWithMore(y3, question, y0);
      StartsWithMore(y4, Paragraph, y0);
      StartsWithMore(y5, ExplainClosing, y0);
  }

  /** The background prompt opens with the template that mentions the options exactly when options are given. */
  lemma PrerequisitesTemplateChoice(question: string, options: Option<string>)
    ensures StartsWith(PrerequisitesPrompt(question, options), PrerequisitesWithOptions) <==> options.Some?
    ensures StartsWith(PrerequisitesPrompt(question, options), PrerequisitesWithout) <==> options.None?
  {
    var p := PrerequisitesPrompt(question, options);
    assert PrerequisitesWithOptions[96] == ' ' && PrerequisitesWithout[96] == '.';
    StartsWithExcludes(p, PrerequisitesWithOptions, PrerequisitesWithout, 96);
    StartsWithExcludes(p, PrerequisitesWithout, PrerequisitesWithOptions, 96);
    match options
    case Some(rendered) =>
      var x0 := PrerequisitesWithOptions;
      var x1 := x0 + Paragraph;
      var x2 := x1 + "Question: ";
      var x3 := x2 + question;
      var x4 := x3 + Paragraph;
      var x5 := x4 + rendered;
      var x6 := x5 + Paragraph;
      StartsWithMore(x0, Paragraph, x0);
      StartsWithMore(x1, "Question: ", x0);
      StartsWithMore(x2, question, x0);
      StartsWithMore(x3, Paragraph, x0);
      StartsWithMore(x4, rendered, x0);
      StartsWithMore(x5, Paragraph, x0);
      StartsWithMore(x6, PrerequisitesClosing, x0);
    case None =>
      var y0 := PrerequisitesWithout;
      var y1 := y0 + Paragraph;
      var y2 := y1 + "Question: ";
      var y3 := y2 + question;
      var y4 := y3 + Paragraph;
      StartsWithMore(y0, Paragraph, y0);
      StartsWithMore(y1, "Question: ", y0);
      StartsWithMore(y2, question, y0);
      StartsWithMore(y3, Paragraph, y0);
      StartsWithMore(y4, PrerequisitesClosing, y0);
  }

  /** The opening of the similar-question prompt, up to the kind of question it asks for. */
  function SimilarOpening(numQuestions: int, withOptions: bool): string {
    "Generate " + IntToString(numQuestions) + (if withOptions then SimilarWithOptions else SimilarWithout)
  }

  /** The two openings differ near the end of the shorter one. */
  lemma SimilarOpeningsDiffer(numQuestions: int)
    ensures var g := |"Generate " + IntToString(numQuestions)|;
      && g + 76 < |SimilarOpening(numQuestions, true)| && g + 76 < |SimilarOpening(numQuestions, false)|
      && SimilarOpening(numQuestions, true)[g + 76] != SimilarOpening(numQuestions, false)[g + 76]
  {
    var g := "Generate " + IntToString(numQuestions);
    assert SimilarWithOptions[76] == 'l' && SimilarWithout[76] == '.';
    assert (g + SimilarWithOptions)[|g| + 76] == SimilarWithOptions[76];
    assert (g + SimilarWithout)[|g| + 76] == SimilarWithout[76];
  }

  /** The similar-question prompt asks for multiple-choice questions exactly when `with_options` is true. */
  lemma SimilarTemplateChoice(question: string, numQuestions: int, withOptions: bool)
    ensures StartsWith(SimilarPrompt(question, numQuestions, withOptions), SimilarOpening(numQuestions, true)) <==> withOptions
    ensures StartsWith(SimilarPrompt(question, numQuestions, withOptions), SimilarOpening(numQuestions, false)) <==> !withOptions
  {
    var p := SimilarPrompt(question, numQuestions, withOptions);
    var a, b := SimilarOpening(numQuestions, true), SimilarOpening(numQuestions, false);
    SimilarOpeningsDiffer(numQuestions);
    var i := |"Generate " + IntToString(numQuestions)| + 76;
    StartsWithExcludes(p, a, b, i);
    StartsWithExcludes(p, b, a, i);
    var x0 := SimilarOpening(numQuestions, withOptions);
    var x1 := x0 + SimilarIntro;
    var x2 := x1 + question;
    StartsWithMore(x0, SimilarIntro, x0);
    StartsWithMore(x1, question, x0);
    if withOptions {
      var x3 := x2 + Paragraph;
      StartsWithMore(x2, Paragraph, x0);
      StartsWithMore(x3, SimilarFormat, x0);
    }
  }

  /**
   * The explanation prompt opens with the multiple-choice template exactly when there are
   * options, and quotes the question and the correct answer, and the options when there are any.
   */
  lemma ExplainPromptHolds(question: string, options: Option<string>, correctAnswer: string)
    ensures StartsWith(ExplainPrompt(question, options, correctAnswer), ExplainWithOptions) <==> options.Some?
    ensures var p := ExplainPrompt(question, options, correctAnswer);
      && Contains(p, question) && Contains(p, correctAnswer)
      && (options.Some? ==> Contains(p, options.value))
  {
    ExplainTemplateChoice(question, options, correctAnswer);
    match options
    case Some(rendered) =>
      var x0 := ExplainWithOptions;
      var x1 := x0 + correctAnswer;
      var x2 := x1 + InEnglish;
      var x3 := x2 + Paragraph;
      var x4 := x3 + question;
      var x5 := x4 + Paragraph;
      var x6 := x5 + rendered;
      var x7 := x6 + Paragraph;
      var x8 := x7 + ExplainClosing;
      ContainsTail(x0, correctAnswer);
      ContainsRight(x1, InEnglish, correctAnswer);
      ContainsRight(x2, Paragraph, correctAnswer);
      ContainsRight(x3, question, correctAnswer);
      ContainsRight(x4, Paragraph, correctAnswer);
      ContainsRight(x5, rendered, correctAnswer);
      ContainsRight(x6, Paragraph, correctAnswer);
      ContainsRight(x7, ExplainClosing, correctAnswer);
      ContainsTail(x3, question);
      ContainsRight(x4, Paragraph, question);
      ContainsRight(x5, rendered, question);
      ContainsRight(x6, Paragraph, question);
      ContainsRight(x7, ExplainClosing, question);
      ContainsTail(x5, rendered);
      ContainsRight(x6, Paragraph, rendered);
      ContainsRight(x7, ExplainClosing, rendered);
    case None =>
      var y0 := ExplainWithout;
      var y1 := y0 + correctAnswer;
      var y2 := y1 + InEnglish;
      var y3 := y2 + Paragraph;
      var y4 := y3 + question;
      var y5 := y4 + Paragraph;
      var y6 := y5 + ExplainClosing;
      ContainsTail(y0, correctAnswer);
      ContainsRight(y1, InEnglish, correctAnswer);
      ContainsRight(y2, Paragraph, correctAnswer);
      ContainsRight(y3, question, correctAnswer);
      ContainsRight(y4, Paragraph, correctAnswer);
      ContainsRight(y5, ExplainClosing, correctAnswer);
      ContainsTail(y3, question);
      ContainsRight(y4, Paragraph, question);
      ContainsRight(y5, ExplainClosing, question);
  }

  /**
   * The background prompt opens with the template that mentions the options exactly when
   * there are options, and quotes the question, and the options when there are any.
   */
  lemma PrerequisitesPromptHolds(question: string, options: Option<string>)
    ensures StartsWith(PrerequisitesPrompt(question, options), PrerequisitesWithOptions) <==> options.Some?
    ensures var p := PrerequisitesPrompt(question, options);
      && Contains(p, question) && (options.Some? ==> Contains(p, options.value))
  {
    PrerequisitesTemplateChoice(question, options);
    match options
    case Some(rendered) =>
      var x0 := PrerequisitesWithOptions;
      var x1 := x0 + Paragraph;
      var x2 := x1 + "Question: ";
      var x3 := x2 + question;
      var x4 := x3 + Paragraph;
      var x5 := x4 + rendered;
      var x6 := x5 + Paragraph;
      var x7 := x6 + PrerequisitesClosing;
      ContainsTail(x2, question);
      ContainsRight(x3, Paragraph, question);
      ContainsRight(x4, rendered, question);
      ContainsRight(x5, Paragraph, question);
      ContainsRight(x6, PrerequisitesClosing, question);
      ContainsTail(x4, rendered);
      ContainsRight(x5, Paragraph, rendered);
      ContainsRight(x6, PrerequisitesClosing, rendered);
    case None =>
      var y0 := PrerequisitesWithout;
      var y1 := y0 + Paragraph;
      var y2 := y1 + "Question: ";
      var y3 := y2 + question;
      var y4 := y3 + Paragraph;
      var y5 := y4 + PrerequisitesClosing;
      ContainsTail(y2, question);
      ContainsRight(y3, Paragraph, question);
      ContainsRight(y4, PrerequisitesClosing, question);
  }

  /**
   * The similar-question prompt asks for multiple-choice questions exactly when told to, quotes
   * the original question, and then asks for the four-option format.
   */
  lemma SimilarPromptHolds(question: string, numQuestions: int, withOptions: bool)
    ensures StartsWith(SimilarPrompt(question, numQuestions, withOptions), SimilarOpening(numQuestions, true)) <==> withOptions
    ensures var p := SimilarPrompt(question, numQuestions, withOptions);
      && Contains(p, question) && (withOptions ==> Contains(p, SimilarFormat))
  {
    SimilarTemplateChoice(question, numQuestions, withOptions);
    if withOptions {
      var x0 := "Generate ";
      var x1 := x0 + IntToString(numQuestions);
      var x2 := x1 + SimilarWithOptions;
      var x3 := x2 + SimilarIntro;
      var x4 := x3 + question;
      var x5 := x4 + Paragraph;
      var x6 := x5 + SimilarFormat;
      ContainsTail(x3, question);
      ContainsRight(x4, Paragraph, question);
      ContainsRight(x5, SimilarFormat, question);
      ContainsTail(x5, SimilarFormat);
    } else {
      var y0 := "Generate ";
      var y1 := y0 + IntToString(numQuestions);
      var y2 := y1 + SimilarWithout;
      var y3 := y2 + SimilarIntro;
      var y4 := y3 + question;
      ContainsTail(y3, question);
    }
  }
}

# mcq_generator: question generation and parsing, modelled in Dafny

This project models the question pipeline of mcq_generator, a Python tool that asks a
language model for quiz questions and turns its free-text reply into records.

## What is modelled

**Prompts.** `PromptBuilder` writes the prompts:
- the multiple-choice prompt, with its option placeholder lines and its "correct answer"
  directive;
- the True/False and Yes/No templates;
- the explain, prerequisites and similar-question prompts.

**Parsers.**
- The multiple-choice record parser `parse_question(text, num_options)` is modelled as a
  scanner over the text. It follows the regular expression's lazy groups and lookaheads
  for the texts it reads.
- Its answer normaliser `_parse_correct_answers` is modelled exactly.
- The binary parsers accept True/False and Yes/No. One is typed (`BinaryQuestionGenerator`)
  and one is fixed to True/False (`TrueFalseQuestionGenerator`).

**Generation loop.** Each generator does the same thing:
- call the model, with up to three attempts;
- strip the reply and split it at blank lines;
- keep, in order, the blocks that parse.

The loop is specified by `Generation.Kept`. The predicate `Generation.Picks` checks that a
result is the in-order subsequence of the successful parses. `Kept` is proved to be the
unique result that satisfies it.

**Engines and front ends.**
- The two MCQ engines, `MCQGenerator` and `MCQGenerationEngine`: parameter validation,
  the empty-result guard, and the save step's file name and record.
- The three command-line front ends: `_validate_cli_args` and `_format_model_id`, the
  mapping from arguments to a config, and the binary output file name and metadata.
- The `MCQGeneratorCLI` class of cli.py: `set_model`, the guards while no model is set,
  `save_questions`, and the 1-based question-number check.

**Duplicated code.** The source has several copies of some code. Each is modelled once,
and its rows below cite every copy:
- `QuestionGenerator` appears verbatim in src/mcq_generator/question_generator.py and
  mcq_generator.py.
- `_format_model_id` is in three files.
- `_validate_cli_args` is in the two MCQ front ends.
- `_validate_params` and the save step are in both engines.

**Representation.**
- The language model is a function parameter `llm(prompt, max_tokens, attempt)`. It
  returns the reply's content, `None` when the content is `None`, or a raised error. Its
  answers are arbitrary, so every property holds for every model behaviour.
- Raised exceptions are `Err` values of a `Result`, carrying the exception class and the
  exact message. This includes the `re.error` that a pattern of 27 or more options raises.
- The empty dict `{}` that the parsers return is `None`.
- Clock readings are parameters: `ts` for file names and `now` for `generated_at`.
- Saving a file is modelled as the file name and the record that would be written.

Files:
- text.dfy: Python string operations.
- answers.dfy and answer_facts.dfy: the answer normaliser.
- mcq_parser.dfy, mcq_layout.dfy and mcq_facts.dfy: the MCQ parser.
- binary_parser.dfy and binary_facts.dfy: the binary parsers.
- prompts.dfy and prompt_facts.dfy: the prompts.
- generation.dfy: the retry and the parse loops.
- engines.dfy: the MCQ engines.
- cli_args.dfy: the front-end validators and names.
- cli_app.dfy: the `MCQGeneratorCLI` class.
- wrappers.dfy: `Option` and `Result`.

## Model

| member | source | states |
|---|---|---|
| Text.LStrip | src/mcq_generator/question_generator.py:113 | `lstrip()`: the removed prefix is all whitespace, the result is the rest of the input character for character, and it does not start with whitespace |
| Text.RStrip | src/mcq_generator/question_generator.py:82 | `rstrip()`: the result is a prefix of the input, does not end with whitespace, and only whitespace was removed |
| Text.StrippedIsFixed | src/mcq_generator/question_generator.py:80-82 | `strip()` leaves a string unchanged iff it has no whitespace at either end, and its result always has none |
| Text.StripIdempotent | src/mcq_generator/question_generator.py:85-87 | stripping twice is stripping once |
| Text.Upper | src/mcq_generator/question_generator.py:121 | `upper()` maps every character through the ASCII upper-case map and keeps the length |
| Text.Lower | src/mcq_generator/question_generator.py:115-117 | `lower()` maps every character through the ASCII lower-case map and keeps the length |
| Text.EqualsIgnoringCaseIsLower | src/mcq_generator/question_generator.py:115-117 | the position-by-position comparison equals `s.lower() == lower` |
| Text.UpperHasNoLowerCase | src/mcq_generator/question_generator.py:121 | `upper()` leaves no lower-case letter, and is the identity exactly on strings without one |
| Text.Capitalize | scripts/mcq_generate_cli.py:110 | `capitalize()`: first character upper-cased, the rest lower-cased, same length |
| Text.ReplaceChar | binary_question_cli.py:65 | `replace(a, b)` for single characters: each `a` becomes `b`, everything else stays |
| Text.FindFrom | src/mcq_generator/question_generator.py:75 | the first occurrence at or after a position, or none if there is none |
| Text.Find | src/mcq_generator/question_generator.py:75 | `find`: some result iff the pattern occurs, and then the first occurrence |
| Text.FindIs | src/mcq_generator/question_generator.py:75 | an occurrence with none before it is what `find` returns |
| Text.SplitOn | src/mcq_generator/question_generator.py:181 | `split(sep)`: at least one piece; exactly one iff the separator does not occur, and then it is the string; otherwise the first piece is the text before the leftmost occurrence |
| Text.SplitOnLeftmost | src/mcq_generator/question_generator.py:181 | `split` cuts at the leftmost occurrence and splits the rest after it again; with no occurrence it gives the string itself |
| Text.SplitOnOverlapExample | src/mcq_generator/question_generator.py:181 | overlapping occurrences are cut left to right: `"a\n\n\nb".split("\n\n")` gives `["a", "\nb"]` |
| Text.JoinSplit | src/mcq_generator/question_generator.py:181 | joining the pieces of a split with the separator gives the string back |
| Text.SplitPiecesAvoidSep | src/mcq_generator/question_generator.py:181 | no piece of a split contains the separator |
| Text.SplitJoin | src/mcq_generator/question_generator.py:87 | for a one-character separator absent from the parts, splitting undoes joining |
| Text.JoinHoldsParts | src/mcq_generator/prompt_builder.py:32 | every joined part occurs in the joined string |
| Text.LineLength | src/mcq_generator/question_generator.py:73 | a greedy `[^\n]*`: all characters before it are not line breaks, and it stops at a line break or the end |
| Text.SpaceRun | src/mcq_generator/question_generator.py:73 | a greedy `\s*`: the run is whitespace and stops at non-whitespace or the end |
| Text.NatToString | src/mcq_generator/prompt_builder.py:49 | `str(n)`: non-empty decimal digits whose value is n, with no leading zero except for "0" itself |
| Answers.SplitAnswer | src/mcq_generator/question_generator.py:120 | the `re.split` on blanks-"and"-blanks or on a comma with optional blanks gives at least one fragment and no fragment holds a comma; where it cuts is fixed by SplitAnswerLeftmost and SplitAnswerNoCut |
| Answers.SplitAnswerRejoin | src/mcq_generator/question_generator.py:120 | the fragments of `re.split`, interleaved with the separators it cut at, rebuild the input; each separator is a match (a comma and optional blanks, or blanks, "and", blanks); no fragment holds a match; every fragment after the first starts with a non-blank |
| Answers.SplitAnswerLeftmost | src/mcq_generator/question_generator.py:120 | when the leftmost match starts at k, the first fragment is the text before k, and the rest of the split is the split of the text after the greedy match at k |
| Answers.SplitAnswerNoCut | src/mcq_generator/question_generator.py:120 | with no match anywhere, the split is the whole input |
| Answers.FragmentsRejoin | src/mcq_generator/question_generator.py:120 | the left-to-right scan behind the split loses and adds nothing: fragments and separators interleave back to the scanned text |
| Answers.Labels | src/mcq_generator/question_generator.py:121 | the comprehension over fragments keeps at most as many items as there are fragments |
| Answers.LabelsSingle | src/mcq_generator/question_generator.py:121 | one fragment gives `[f.strip().upper()]`, or nothing when it strips to "" |
| Answers.LabelsAppend | src/mcq_generator/question_generator.py:121 | the comprehension works fragment by fragment: the labels of a concatenation are the concatenated labels |
| Answers.LabelsClean | src/mcq_generator/question_generator.py:121 | each kept label is non-empty, stripped, upper case and comma-free |
| Answers.SentinelsExclusive | src/mcq_generator/question_generator.py:115-118 | no input spells both sentinels |
| Answers.NormalizeAnswers | src/mcq_generator/question_generator.py:113-121 | the result is `["All of the Above"]` exactly when the stripped input spells "all of the above" or "all of above", ignoring case; likewise `["None of the Above"]` for the "none" spellings |
| Answers.CleanLabelsNotSentinels | src/mcq_generator/question_generator.py:121 | a list of clean labels is never a sentinel list, so the split branch cannot be mistaken for a sentinel |
| Answers.NormalizedLabels | src/mcq_generator/question_generator.py:120-121 | without a sentinel, the result is the labels of the split of the stripped input: at most one per fragment, each clean, order and duplicates kept |
| AnswerFacts.LabelsOfLetters | src/mcq_generator/question_generator.py:121 | single upper-case letters pass through the comprehension unchanged |
| AnswerFacts.FragmentsOfCommaList | src/mcq_generator/question_generator.py:120 | splitting letters joined by ", " gives back the letters |
| AnswerFacts.JoinedLettersNotSentinel | src/mcq_generator/question_generator.py:115-118 | letters joined by ", " are stripped and spell no sentinel |
| AnswerFacts.CommaListRoundTrip | src/mcq_generator/question_generator.py:113-121 | any non-empty list of letters joined by ", " normalises back to itself, in order |
| AnswerFacts.AndPairRoundTrip | src/mcq_generator/question_generator.py:120-121 | `"X and Y"` normalises to `[X, Y]` |
| AnswerFacts.SingleLabelExample | test_mcq_generator.py:124-127 | "A" gives ["A"] |
| AnswerFacts.CommaLabelExample | test_mcq_generator.py:129-132 | "A, B, C" gives ["A", "B", "C"] |
| AnswerFacts.LongerCommaLabelExample | test_mcq_generator.py:172-182 | "A, B, D" gives three labels, with no check against the option count |
| AnswerFacts.AndLabelExample | test_mcq_generator.py:134-137 | "A and B" gives ["A", "B"] |
| AnswerFacts.LetterCommaCut | src/mcq_generator/question_generator.py:120 | after a single letter, ", " is the first match, so the letter is a fragment of its own and the split goes on after the comma and its blank |
| AnswerFacts.AndWordNoCut | src/mcq_generator/question_generator.py:120 | "and " and a letter hold no match, since `\s+and\s+` needs blanks before "and" |
| AnswerFacts.OxfordCommaSplit | src/mcq_generator/question_generator.py:120 | for any letters, "X, Y, and Z" splits into X, Y and "and Z": the comma is cut first |
| AnswerFacts.OxfordCommaLabels | src/mcq_generator/question_generator.py:121 | those fragments label as X, Y and "AND Z" |
| AnswerFacts.OxfordCommaExample | src/mcq_generator/question_generator.py:113-121 | "A, B, and C" splits into ["A", "B", "and C"] and normalises to ["A", "B", "AND C"] |
| AnswerFacts.AllSpelling | src/mcq_generator/question_generator.py:115-116 | any-case "all of the above" gives the "all" sentinel |
| AnswerFacts.NoneSpelling | src/mcq_generator/question_generator.py:117-118 | any-case "none of the above" or "none of above" gives the "none" sentinel |
| AnswerFacts.AllSentinelExample | test_mcq_generator.py:139-142 | "All of the Above" gives the "all" sentinel |
| AnswerFacts.LowerAllSentinelExample | test_mcq_generator.py:149-154 | the lower-case spelling gives the "all" sentinel |
| AnswerFacts.NoneSentinelExample | test_mcq_generator.py:144-147 | "None of the Above" gives the "none" sentinel |
| AnswerFacts.UpperNoneSentinelExample | test_mcq_generator.py:149-154 | the upper-case spelling gives the "none" sentinel |
| AnswerFacts.ShortNoneExample | src/mcq_generator/question_generator.py:117 | "NONE OF ABOVE" gives the "none" sentinel |
| AnswerFacts.NormalizedNonEmpty | src/mcq_generator/question_generator.py:121 | no element of a normalised answer list is the empty string |
| McqParser.Letters | src/mcq_generator/question_generator.py:66 | `[chr(65 + i) for i in range(n)]`: one label per option (none for a negative count), label i is `chr(65 + i)` |
| McqParser.FindAfterStart | src/mcq_generator/question_generator.py:73 | the first occurrence of the pattern after the first character, which the lazy `(.+?)` allows |
| McqParser.SplitAtStop | src/mcq_generator/question_generator.py:70 | a lazy non-empty group stops at the first occurrence of its stop; the text splits into the group, the stop and the rest |
| McqParser.OptionGroups | src/mcq_generator/question_generator.py:69-72 | the option groups from label i on: one group per remaining label |
| McqParser.BareQuestionEnd | src/mcq_generator/question_generator.py:73 | with no options, the question group ends at the first line break that the answer marker follows (after blanks) |
| McqParser.BareMatch | src/mcq_generator/question_generator.py:73 | groups of the pattern without options: no option groups |
| McqParser.OptionMatch | src/mcq_generator/question_generator.py:69-73 | groups of the pattern with n options: exactly n option groups |
| McqParser.McqMatch | src/mcq_generator/question_generator.py:66-75 | `re.search` succeeds with one option group per label |
| McqParser.OptionsOf | src/mcq_generator/question_generator.py:77-82 | the options dict has one entry per option group |
| McqParser.FillOptions | src/mcq_generator/question_generator.py:77-82 | the loop that fills the options dict label by label yields `OptionsOf` of the groups |
| McqParser.ParseQuestion | src/mcq_generator/question_generator.py:51-98 | `parse_question` as a method with the dict-filling loop; its result is `ParseMcq` of its inputs. The same method is at mcq_generator.py:82-129 |
| McqFacts.CleanOptionIsStrip | src/mcq_generator/question_generator.py:80-82 | the `rstrip()` after `strip()` changes nothing, so every option text is stripped |
| McqFacts.OptionsOfAt | src/mcq_generator/question_generator.py:77-82 | option i carries label `chr(65 + i)` and the cleaned group i + 2 |
| McqFacts.ParsedShape | src/mcq_generator/question_generator.py:76-97 | a successful parse has exactly `num_options` options labelled A, B, ... in order, stripped texts, a stripped question and no empty answer |
| McqFacts.ParsedNeedsMarkers | src/mcq_generator/question_generator.py:73-75 | a text parses only if it holds "Question:", "Correct Answer:" and each of the `num_options` labels at the start of a line; otherwise the result is `{}` |
| McqFacts.InvalidFormatExample | test_mcq_generator.py:184-188 | a text without the format gives `{}` |
| McqFacts.AnswerLineOf | src/mcq_generator/question_generator.py:85-87 | a well-formed answer is its own answer line |
| McqFacts.QuestionMarkerFirst | src/mcq_generator/question_generator.py:75 | junk before "Question:" is allowed (`re.search`) as long as it holds no colon |
| McqFacts.MatchOfBlock | src/mcq_generator/question_generator.py:73-75 | a block in the prompt's layout yields the question, the spaced options and the first line of the answer as its groups |
| McqFacts.ParseBlock | src/mcq_generator/question_generator.py:51-98 | round trip: leading text without a colon, then "Question: q", one line "L. text" per option and "Correct Answer: a", then nothing or later lines. This parses to q, the options under A, B, ... in order and the normalised a; later lines such as a rationale are ignored |
| McqFacts.ParseBareBlock | test_mcq_generator.py:156-170 | the round trip for a block on its own, as in the parser tests |
| BinaryParser.WordsOf | binary_question_generator.py:61-66 | a vocabulary exists iff the type is "true_false" or "yes_no" |
| BinaryParser.AnswerWord | binary_question_generator.py:62-64 | the answer alternation (True or False, Yes or No): the first alternative that occurs at the position |
| BinaryParser.ExplanationEnd | binary_question_generator.py:68 | the lazy explanation stops at the first blank line or at the end (the first stop from its start) |
| BinaryParser.Scan | binary_question_generator.py:68 | a match of the answer part needs "Answer:" and "Explanation:" in the text |
| BinaryParser.AnswerPart | binary_question_generator.py:68 | a matched answer part has a vocabulary word and both markers |
| BinaryParser.FirstStop | binary_question_generator.py:68 | the first place where the lazy question group may end |
| BinaryParser.LastStop | binary_question_generator.py:68 | the last candidate end in range, for the engine's give-back |
| BinaryParser.MatchAfter | binary_question_generator.py:68-70 | the groups after "Question:" have a vocabulary word as the answer |
| BinaryParser.BinaryMatch | binary_question_generator.py:68-70 | `re.search` of the binary pattern: the answer group is a vocabulary word |
| BinaryParser.ParseBinary | binary_question_generator.py:50-77 | a type outside true_false and yes_no gives `{}` |
| BinaryFacts.TrueFalseAgrees | true_false_question_generator.py:44-53 | the True/False parser equals the typed parser with "true_false" on every text |
| BinaryFacts.ParsedBinaryShape | binary_question_generator.py:70-76 | on success the answer is True or False (true_false) or Yes or No (yes_no), and the question and explanation are stripped |
| BinaryFacts.TrueFalseAnswer | true_false_question_generator.py:44-52 | only "True" or "False" is ever the True/False parser's answer |
| BinaryFacts.FirstStopIsFirst | binary_question_generator.py:68 | the lazy question group ends at the first possible place |
| BinaryFacts.LastStopIsLast | binary_question_generator.py:68 | the give-back takes the latest possible place |
| BinaryFacts.ParsedBinaryNeedsMarkers | binary_question_generator.py:68-77 | a text parses only if it holds "Question:", "Answer:" and "Explanation:" |
| BinaryFacts.ExplanationEndAt | binary_question_generator.py:68 | the explanation ends at the first stop when no line break comes before it |
| BinaryFacts.BlockGroups | binary_question_generator.py:68-70 | a block in the template's layout yields its three fields as groups |
| BinaryFacts.BinaryRoundTrip | binary_question_generator.py:61-76 | round trip: "Question: q", "Answer: a" with a vocabulary word a, and "Explanation: x", then nothing or a blank line. This parses back to q, a and x, and the explanation stops at the blank line |
| BinaryFacts.WordMustEndLine | binary_question_generator.py:68 | after the answer word, blanks without a line break followed by any other character, or by the end of the text, fail the match, because the pattern needs a line break between the word and "Explanation:" |
| BinaryFacts.BadWordRejected | binary_question_generator.py:61-77 | rejection: "Question: q", then "Answer: a" with a vocabulary word a followed on its line by anything but blanks (as in "True, because" or "Truely"), then "Explanation: x", parses to `{}` |
| BinaryFacts.BadWordExample | binary_question_generator.py:61-77 | "Question: q\nAnswer: True, x\nExplanation: e" parses to `{}` for true_false |
| Prompts.LetterStrings | src/mcq_generator/prompt_builder.py:31 | the option letters as strings, letter i being `chr(65 + i)` |
| Prompts.Placeholders | src/mcq_generator/prompt_builder.py:32 | the placeholder of option i is `[Option L]` for letter L |
| PromptFacts.IndentedBlockRejected | src/mcq_generator/prompt_builder.py:32 | with the source's indented join, a block of two or more options never parses |
| PromptFacts.FormatBlockAsWrittenRejected | src/mcq_generator/prompt_builder.py:31-79 | the example block as the source writes it does not parse for two or more options |
| PromptFacts.FormatBlockParses | src/mcq_generator/prompt_builder.py:31-79 | with one option line per line, the example block parses to the question placeholder, the placeholders under A, B, ... and the normalised answer placeholder: prompt and parser agree |
| PromptFacts.AnswerTextWellFormed | src/mcq_generator/prompt_builder.py:36-47 | every answer placeholder is a non-empty, stripped, one-line text |
| PromptFacts.SlashedSingleLine | src/mcq_generator/prompt_builder.py:33 | the "/"-joined letters are one line |
| PromptFacts.McqPromptHolds | src/mcq_generator/prompt_builder.py:49-81 | the MCQ prompt names the field and the difficulty and holds the count sentence and the example block |
| PromptFacts.FormatBlockShowsOptions | src/mcq_generator/prompt_builder.py:31-78 | for N options the block shows `L. [Option L]` for each of the first N letters |
| PromptFacts.BlockShowsOptions | src/mcq_generator/prompt_builder.py:32-78 | a block shows the line `L. text` for each option |
| PromptFacts.CountSentenceHolds | src/mcq_generator/prompt_builder.py:75 | the FORMAT sentence gives the number of options, every letter and the directive |
| PromptFacts.DirectiveChoice | src/mcq_generator/prompt_builder.py:36-47 | the directive is "None of the Above" only iff k = 0, "only one" iff k = 1, "All of the Above" only iff k = N (when N is not 0 or 1), and otherwise the k-answers sentence |
| PromptFacts.AnswerTextLetters | src/mcq_generator/prompt_builder.py:33-47 | for one correct answer, or some but not all, the answer placeholder lists every letter |
| PromptFacts.BinaryPromptHolds | src/mcq_generator/prompt_builder.py:195-251 | the True/False and Yes/No prompts name the field, the difficulty and the kind, and end with the Question/Answer/Explanation template |
| PromptFacts.ExplainPromptHolds | src/mcq_generator/prompt_builder.py:109-122 | the explanation prompt starts with the multiple-choice template if and only if options are given; it quotes the question and the answer, and the options if present |
| PromptFacts.PrerequisitesPromptHolds | src/mcq_generator/prompt_builder.py:136-152 | the background prompt starts with the template that mentions the options if and only if options are given; it quotes the question, and the options if present |
| PromptFacts.SimilarPromptHolds | src/mcq_generator/prompt_builder.py:168-191 | the similar-question prompt asks for multiple-choice questions if and only if `with_options` is true; it quotes the question, and holds the fixed four-option format when `with_options` is true |
| PromptFacts.ExplainTemplateChoice | src/mcq_generator/prompt_builder.py:109-122 | the prompt starts with the multiple-choice template if and only if options are given, and with the plain one if and only if they are not |
| PromptFacts.PrerequisitesTemplateChoice | src/mcq_generator/prompt_builder.py:136-152 | the prompt starts with the template naming the options if and only if options are given, and with the plain one if and only if they are not |
| PromptFacts.SimilarTemplateChoice | src/mcq_generator/prompt_builder.py:168-191 | the prompt starts "Generate N" and the multiple-choice wording if and only if `with_options` is true, and with the plain wording if and only if it is false |
| Generation.CallLlmRetries | src/mcq_generator/question_generator.py:123-128 | the retried call succeeds iff one of the first three attempts succeeds; it returns the first success, and otherwise re-raises the third error |
| Generation.CallLlmUsesThreeAttempts | src/mcq_generator/question_generator.py:124 | attempts after the third never matter |
| Generation.Blocks | src/mcq_generator/question_generator.py:181 | `content.strip().split("\n\n")` has at least one block |
| Generation.BlocksRejoin | src/mcq_generator/question_generator.py:181 | the blocks joined at blank lines give the stripped reply back, and no block holds a blank line |
| Generation.BlankReplyIsOneBlock | src/mcq_generator/question_generator.py:181 | a blank reply is one empty block, `[""]` |
| Generation.Kept | src/mcq_generator/question_generator.py:186-192 | the filter keeps at most one record per block |
| Generation.KeptPicks | src/mcq_generator/question_generator.py:186-195 | the loop's result is the in-order subsequence of the successful parses: one entry per parsed block, in block order, none missed |
| Generation.PicksAreKept | src/mcq_generator/question_generator.py:186-195 | conversely, any in-order selection of all the successful parses is the loop's result |
| Generation.KeptStep | src/mcq_generator/question_generator.py:188-191 | one more block appends its parse when it parsed and nothing otherwise |
| Generation.KeptCongruent | true_false_question_generator.py:110-116 | two parsers that agree on every block keep the same records |
| Generation.ParseMcqBlocks | src/mcq_generator/question_generator.py:186-192 | the append loop over blocks yields `Kept` of the blocks |
| Generation.GenerateMcqQuestions | src/mcq_generator/question_generator.py:148-195 | `generate_questions` with the prompt, the retried call and the append loop equals its specification `McqQuestions`. The same method is at mcq_generator.py:178-225 |
| Generation.EmptyBlockNotMcq | src/mcq_generator/question_generator.py:73-75 | the empty block never parses |
| Generation.McqReplyOutcome | src/mcq_generator/question_generator.py:179-195 | a failed call or a `None` content gives `[]`, a blank reply gives `[]`, and otherwise the result is the in-order subsequence of successful block parses |
| Generation.McqReplyTooManyOptions | src/mcq_generator/question_generator.py:66-75 | from 27 options on, a reply that reaches the parse loop raises `re.error` "unbalanced parenthesis at position 1284 (line 1, column 1285)" (`chr(91)` is `[`) |
| Generation.McqReplyShape | src/mcq_generator/question_generator.py:186-195 | every returned record has labels A, B, ... in order, stripped texts and no empty answer |
| Generation.DefaultBinaryConfig | binary_question_generator.py:24-33 | the defaults of `QuestionConfig`: "true_false", 2000 tokens, no subfield |
| Generation.BinaryQuestions | binary_question_generator.py:116-119 | a type outside VALID_TYPES raises `ValueError` with the exact message, and that is the only error |
| Generation.GenerateBinaryQuestions | binary_question_generator.py:103-150 | `generate_questions` equals its specification; it builds and sends exactly one prompt of the right kind for a valid type, and none before the type check fails |
| Generation.EmptyBlockNotBinary | binary_question_generator.py:68-77 | the empty block never parses |
| Generation.BinaryReplyOutcome | binary_question_generator.py:134-150 | a failed call gives `[]`; otherwise the result is the in-order subsequence of successful block parses |
| Generation.BinaryReplyShape | binary_question_generator.py:141-147 | every returned record has stripped fields and an answer from its type's vocabulary |
| Generation.GenerateTrueFalseQuestions | true_false_question_generator.py:79-119 | `generate_questions` with its append loop equals the filter over the blocks of the retried reply |
| Generation.TrueFalseReplyMatchesBinary | true_false_question_generator.py:103-119 | on every reply the True/False loop keeps what the binary loop keeps for "true_false" |
| Generation.TrueFalseMatchesBinary | true_false_question_generator.py:79-119 | the True/False generator returns what the binary generator returns for the "true_false" config |
| Engines.DefaultMcqConfig | mcq_generator.py:57-67 | the defaults of `QuestionConfig`: one correct answer, 3000 tokens, no subfield |
| Engines.ValidateParams | mcq_generator.py:237-250 | passes iff options >= 2 and correct answers >= 0; raises `ValueError`, and the options check comes first |
| Engines.ValidateParamsBounds | mcq_generate_cli.py:51-64 | the number of correct answers is not bounded by the options, 0 is allowed, a negative count is rejected, too few options wins |
| Engines.Topic | mcq_generator.py:267 | "field - subfield" when a subfield is given, otherwise the field |
| Engines.SaveFileNameChoice | mcq_generator.py:318-321 | a given file name is used; otherwise `mcq_{field}_{subfield}_{ts}.json`, or `mcq_{field}_{ts}.json` without a subfield |
| Engines.SaveQuestions | mcq_generator.py:315-329 | an empty list raises `ValueError`; otherwise the record holds the field, subfield, time, the questions and `question_count` equal to their number. The engine's `save_questions` at mcq_generate_cli.py:120-134 is the same step |
| Engines.EngineGenerate | mcq_generate_cli.py:66-102 | invalid parameters raise their `ValueError`; a successful result is never empty |
| Engines.EngineGenerateOutcome | mcq_generate_cli.py:92-98 | with valid parameters, an empty generator result raises `RuntimeError`, and any other result or error is passed on |
| Engines.GenerateValidatesFirst | mcq_generator.py:266 | invalid parameters raise whatever the model would answer |
| Engines.GenerateSaved | mcq_generator.py:278-295 | a successful `generate` saved the non-empty list the generator returned for the config's field, difficulty and count in that order, under the save's name, with `question_count` its length |
| Engines.GenerateEmptyRaises | mcq_generator.py:287-289 | no questions raises `RuntimeError` and nothing is saved |
| Engines.GenerateIsEngineThenSave | mcq_generator.py:252-295 | `MCQGenerator.generate` is `MCQGenerationEngine.generate` followed by the save |
| CliArgs.FormatModelId | mcq_generate_cli.py:195-199 | a name with "/" is kept; otherwise `provider/name`. The same function is at scripts/mcq_generate_cli.py:15-19 and binary_question_cli.py:23-27 |
| CliArgs.FormatModelIdFacts | binary_question_cli.py:23-27 | the id holds "/", ends with the name, and formatting it again changes nothing |
| CliArgs.FormatModelIdExamples | test_binary_question_cli.py:28-41 | ("openai", "gpt-4o") and ("openai", "openai/gpt-4o") both give "openai/gpt-4o"; perplexity gives "perplexity/sonar" |
| CliArgs.FirstFailure | mcq_generate_cli.py:219-238 | a chain of checks passes iff every check holds |
| CliArgs.FirstFailureAt | mcq_generate_cli.py:219-238 | the first failing check's message is the one raised |
| CliArgs.McqCliArgsAccepted | scripts/mcq_generate_cli.py:29-58 | both MCQ validators accept iff the field is non-blank, the subfield is absent or non-blank, count >= 1, options >= 2, 0 <= correct <= options and max_tokens >= 100; the first failing check in source order gives the message |
| CliArgs.McqCliArgsEdges | scripts/mcq_generate_cli.py:50-55 | correct = options and correct = 0 are accepted; -1 and options + 1 are rejected; a missing field is rejected |
| CliArgs.ConfigOf | scripts/mcq_generate_cli.py:108-116 | the config carries field, subfield, count, options, correct answers and tokens unchanged, with the difficulty capitalised |
| CliArgs.AcceptedArgsPassEngine | scripts/mcq_generate_cli.py:105-117 | accepted arguments always pass the engine's `_validate_params` |
| CliArgs.BinaryCliArgsAccepted | binary_question_cli.py:37-59 | accepted iff the field is non-blank, the subfield is absent or non-blank, count >= 1, max_tokens >= 100 and the type is true_false or yes_no; no options checks; first failing check gives the message |
| CliArgs.BinaryConfigOf | binary_question_cli.py:191-198 | the config carries the arguments unchanged, with the difficulty capitalised |
| CliArgs.AcceptedArgsPassGenerator | binary_question_cli.py:187-201 | accepted arguments never reach the generator's question-type `ValueError` |
| CliArgs.SafeField | binary_question_cli.py:65 | `field.lower().replace(' ', '_')`: same length, each blank becomes `_` and every other character is lower-cased in place; no blank and no upper-case letter remain |
| CliArgs.BinaryOutputFilename | binary_question_cli.py:62-66 | `binary_questions_{safe field}_{type}_{ts}.json`: starts with the prefix and ends with ".json" |
| CliArgs.SafeFieldOfWords | test_binary_question_cli.py:163-167 | a blank between words becomes an underscore |
| CliArgs.SafeFieldExample | test_binary_question_cli.py:156-161 | the field is lower-cased |
| CliArgs.SaveBinaryQuestions | binary_question_cli.py:69-98 | a given file name is used as-is, otherwise the generated one; metadata has field, type, time and `count` equal to the number of questions; an empty list is allowed |
| CliApp.ModelIdFor | cli.py:46-49 | for a provider other than "openai" (in any case), the slash rule with the provider's case kept |
| CliApp.OpenAiModelId | cli.py:46-47 | for "openai" in any case, the id is the name when it already starts with "openai/" and "openai/" plus the name otherwise; so it starts with "openai/", ends with the name, and setting it again changes nothing |
| CliApp.ModelIdHasSlash | cli.py:46-49 | every stored id holds a slash |
| CliApp.ModelIdExamples | cli.py:46-49 | "x/y" becomes "openai/x/y" under openai (only the prefix is checked), where the front ends keep "x/y"; "OpenAI" is recognised; "Claude" keeps its case |
| CliApp.TypeLabel | cli.py:91 | "True/False" iff the type is "true_false", otherwise "Yes/No" |
| CliApp.BinaryCliOutcome | cli.py:101-112 | succeeds iff the generator returned a non-empty list, which is returned as is; every error is an `Exception` starting "Error generating questions: " |
| CliApp.SelectQuestion | cli.py:243-246 | a question number is accepted iff 1 <= n <= the number of questions, and selects element n - 1; otherwise the range message. The same check is at cli.py:340-343 and 378-381 |
| CliApp.McqGeneratorCli.constructor | cli.py:36-37 | a new object has no model |
| CliApp.McqGeneratorCli.SetModel | cli.py:39-49 | stores the provider, the name and the id built from them |
| CliApp.McqGeneratorCli.GenerateQuestions | cli.py:57-80 | raises "Model not initialized..." while no model is set; otherwise the wrapped error of the call that lacks `num_options` |
| CliApp.McqGeneratorCli.GenerateBinaryQuestions | cli.py:82-112 | raises "Model not initialized..." while no model is set; otherwise the binary generator's outcome for the arguments, wrapped |
| CliApp.McqGeneratorCli.SaveQuestions | cli.py:146-163 | an empty list raises "No questions to save."; otherwise the given name or `mcq_{specialization}_{ts}.json`, and a record with `question_count` equal to the number of questions |

## Left out

- The language model: `litellm.completion` is the function parameter `llm`. Its answers are arbitrary.
- The retry decorator's exponential backoff timing. The model keeps only "up to three attempts, the first success, else re-raise the third error".
- File and JSON I/O, and `Path` normalisation. The returned path is the file name that would be written.
- `IOError` and JSON errors of the save steps.
- `display_questions`, `print`, logging, tqdm progress bars, `load_questions`, `argparse` `main()` functions, and the `cmd_*` handlers of cli.py.
- main.py (the web interface).
- question_translator.py and similar_question_generator.py.
- The translation prompt `get_text_translation_prompt`.
- `datetime.now()`. The timestamps are parameters.
- Generation.GenerateMcqQuestions: requires `num_options` <= 55231, so that every label `chr(65 + i)` stays below the surrogate range, where Dafny characters end. Up to 26 options are parsed. From 27 on, the source's pattern does not compile, and this is modelled as the `re.error` it raises, with its message.
- Engines.EngineGenerate: requires `num_options` <= 55231, for the same reason as Generation.GenerateMcqQuestions. So do Engines.EngineGenerateOutcome, McqParser.Letters and the prompt functions that list labels.
- Engines.Generate: requires `num_options` <= 55231, for the same reason. So do Engines.GenerateValidatesFirst, Engines.GenerateSaved, Engines.GenerateEmptyRaises and Engines.GenerateIsEngineThenSave.
- McqParser.McqMatch: regular-expression backtracking corner cases are not emulated bit for bit. Examples are option texts that hold a line break followed by a capital and a dot, and answer lines that are all blanks.
  - The scanner follows the pattern's lazy groups and stops.
  - The round-trip and rejection lemmas cover well-formed blocks and missing markers.
- The same for BinaryParser.BinaryMatch: unusual layouts of blanks around the markers. The stops and the give-back of `\s*` are modelled.
- Whitespace covers the Latin-1 subset of Python's Unicode whitespace (codes 9-13, 28-31, 32, 0x85 and 0xA0); whitespace above code 255 is not modelled. `lower`, `upper` and `capitalize` cover the ASCII letters only; other case mappings are not modelled.
- `strip()` and `\s` are taken to be the same set, the Latin-1 subset above.
- cli.py imports `BinaryQuestionConfig`, which binary_question_generator.py does not define, so the module cannot load as written. The model takes the name to mean that file's `QuestionConfig`.
- CliApp.McqGeneratorCli.GenerateQuestions: the call at cli.py:67-69 passes four arguments where five are required. It is modelled as always raising the wrapped `TypeError`. The message text follows current Python versions.
- QuestionGenerator's `__main__` example (src/mcq_generator/question_generator.py:202) makes the same four-argument call. It is not modelled.
- `Topic` is computed by the engines only for display and logging. It is modelled, but not used by the result.
- PromptFacts.SimilarPromptHolds: the four-option format text is promised to appear only when `with_options` is true. A quoted question could itself contain that text, so its absence otherwise cannot be promised. The choice of template is stated in both directions, as a prefix of the prompt.
- Python's duck typing of `options` in the explain and prerequisites prompts. `options` is modelled as `None` for any falsy value, or its rendered text.
- Copies of identical code are modelled once; see the Model table.

## Findings

| source | as written | input that shows it | evidently intended | confidence | as-written member | corrected member |
|---|---|---|---|---|---|---|
| src/mcq_generator/prompt_builder.py:32 | option placeholder lines of the prompt's example block are joined by a line break plus eight blanks, but the parser (src/mcq_generator/question_generator.py:70) needs each label at the start of a line | `get_mcq_generation_prompt("Math", "Easy", 1, 2, 1)`: its example block "Question: [Question text]\nA. [Option A]\n        B. [Option B]\nCorrect Answer: [A/B]" parses to `{}` | one option line per line, so that a reply copying the example block parses | medium, not executed | PromptFacts.FormatBlockAsWrittenRejected | PromptFacts.FormatBlockParses |

The generators send the prompt exactly as the source writes it, `Prompts.McqPromptAsWritten`.
The model's reply does not depend on the prompt's layout, so nothing else changes with
the correction. `Prompts.McqPrompt` is the corrected prompt.

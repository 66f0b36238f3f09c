/**
 * `PromptBuilder`: the prompts sent to the language model. Every prompt is an f-string;
 * the model spells each one out as a concatenation of its fixed text and its arguments.
 * Integers are written as `str()` writes them, and arguments that are Python objects
 * other than strings and integers come in already rendered.
 */
module Prompts {
  import opened Wrappers
  import opened Text
  import opened McqParser
  import opened McqLayout

  /** `[chr(65 + i) for i in range(n)]` as one-character strings. */
  function LetterStrings(n: int): (r: seq<string>)
    requires n <= LabelLimit
    ensures |r| == OptionCount(n)
    ensures forall i :: 0 <= i < |r| ==> r[i] == [Letter(i)]
  {
    if n <= 0 then [] else LetterStrings(n - 1) + [[Letter(n - 1)]]
  }

  /** The placeholder text of option `c`, `f"[Option {letter}]"`. */
  function Placeholder(c: char): string {
    "[Option " + [c] + "]"
  }

  /** The placeholder texts of the first `n` options. */
  function Placeholders(n: int): (r: seq<string>)
    requires n <= LabelLimit
    ensures |r| == OptionCount(n)
    ensures forall i :: 0 <= i < |r| ==> r[i] == Placeholder(Letter(i))
  {
    if n <= 0 then [] else Placeholders(n - 1) + [Placeholder(Letter(n - 1))]
  }

  /** The separator the source joins option lines with: a line break and eight blanks. */
  const IndentedBreak: string := "\n        "

  /** The sentence saying how many answers are correct, and the text after "Correct Answer: ". */
  datatype Directive = Directive(instruction: string, answerText: string)

  const NoneOnly: string := "with 'None of the Above'" + " as the only correct answer"
  const OnlyOne: string := "with only one correct answer"
  const AllOnly: string := "with 'All of the Above'" + " as the only correct answer"

  const NoneAnswer: string := "['None of the Above']"
  const AllAnswer: string := "['All of the Above']"

  /** The pieces of the directive for any other count of correct answers. */
  const SomeAnswerOpening: string := "[One or more from "
  const AllowSentinels: string := " correct answer(s) (can include 'All of the Above'" + " or 'None of the Above')"
  const OrSentinels: string := ", or 'All of the Above'" + ", or 'None of the Above']"

  /**
   * The answer directive for `n` options and `k` correct answers, tried in the source's
   * order: none, one, all, then any other count.
   */
  function AnswerDirective(n: int, k: int): Directive
    requires n <= LabelLimit
  {
    var slashed := Join(LetterStrings(n), "/");
    if k == 0 then Directive(NoneOnly, NoneAnswer)
    else if k == 1 then Directive(OnlyOne, "[" + slashed + "]")
    else if k == n then Directive(AllOnly, AllAnswer)
    else
      Directive("with " + IntToString(k) + AllowSentinels, SomeAnswerOpening + slashed + OrSentinels)
  }

  const QuestionPlaceholder: string := "[Question text]"

  /** The question block of the FORMAT section, its option lines joined by `sep`. */
  function FormatBlock(n: int, k: int, sep: string): string
    requires n <= LabelLimit
  {
    McqBlock(QuestionPlaceholder, Placeholders(n), AnswerDirective(n, k).answerText, sep)
  }

  const McqAbout: string := " unambiguous, unbiased, and verifiable multiple-choice questions about "

  const McqRequirements: string :=
    " difficulty level in English for competitive exams.\n\nQUALITY REQUIREMENTS:\n"
    + "- Cover a wide range of subtopics within the field, including both theoretical concepts and practical real-world applications\n"
    + "- Base each question on factual information verifiable from textbooks, academic papers, or reliable websites\n"
    + "- Use clear language with no room for misinterpretation\n"
    + "- Ensure no cultural, racial, or gender bias; appropriate for diverse audiences\n"
    + "- Each question must be unique (no duplicates)\n\nCOMPETITIVE EXAM STANDARDS:\n"
    + "- Match the difficulty level: Easy (recall/simple application), Medium (analysis/application), Hard (critical thinking/synthesis)\n"
    + "- Follow competitive exam format and style\n"
    + "- Align with standard exam syllabus and learning objectives\n"
    + "- Make each question solvable within 1-3 minutes\n"
    + "- Ensure correct answer is clearly distinguishable from incorrect options\n"
    + "- Create plausible distractors that are logical but definitively wrong\n"
    + "- Distribute questions across different topics to avoid repetition\n"
    + "- Avoid trick questions or misleading wording\n"
    + "- Use current and updated information/examples\n"
    + "- Employ standard technical language consistent with exam conventions\n"
    + "- Avoid or clearly mark negative questions (EXCEPT, NOT, NEVER)\n"
    + "- Avoid double negatives\n"
    + "- Ensure each option is distinct and non-overlapping\n"
    + "- Randomize the position of correct answers (avoid patterns)\n\nFORMAT:\n"
    + "Each question MUST have exactly "

  const McqClosing: string := "\n\nEach question should be solvable independently and represent diverse aspects of "

  /** The FORMAT sentence: how many options, their letters, and the directive. */
  function CountSentence(n: int, k: int): string
    requires n <= LabelLimit
  {
    IntToString(n) + " options (" + Join(LetterStrings(n), ", ") + "), " + AnswerDirective(n, k).instruction + ".\n\n"
  }

  /** `get_mcq_generation_prompt`, with the option lines joined by `sep`. */
  function McqPromptWith(field: string, difficulty: string, numQuestions: int, n: int, k: int, sep: string): string
    requires n <= LabelLimit
  {
    "Generate " + IntToString(numQuestions) + McqAbout + field + " at a " + difficulty + McqRequirements
    + CountSentence(n, k)
    + FormatBlock(n, k, sep)
    + McqClosing + field + "."
  }

  /** The prompt as the source writes it: option lines after the first are indented. */
  function McqPromptAsWritten(field: string, difficulty: string, numQuestions: int, n: int, k: int): string
    requires n <= LabelLimit
  {
    McqPromptWith(field, difficulty, numQuestions, n, k, IndentedBreak)
  }

  /** The prompt with one option line per line, the layout `parse_question` reads back. */
  function McqPrompt(field: string, difficulty: string, numQuestions: int, n: int, k: int): string
    requires n <= LabelLimit
  {
    McqPromptWith(field, difficulty, numQuestions, n, k, "\n")
  }

  const TrueFalseTemplate: string :=
    "Format the output strictly as follows:\n\nQuestion: [True/False statement]\nAnswer: [True/False]\n"
    + "Explanation: [Detailed explanation of why the answer is correct]"

  const YesNoTemplate: string :=
    "Format the output strictly as follows:\n\nQuestion: [Yes/No question]\nAnswer: [Yes/No]\n"
    + "Explanation: [Detailed explanation of why the answer is correct]"

  const BinaryRequirements: string :=
    "\n- Use clear language with no room for misinterpretation\n"
    + "- Ensure no cultural, racial, or gender bias\n"
    + "- Each question must be unique (no duplicates)\n"
    + "- Match the difficulty level: Easy (recall), Medium (understanding), Hard (critical thinking)\n\n"

  const UniqueIntro: string := " unique, unambiguous, and unbiased "
  const QuestionsAbout: string := " questions about "
  const BinaryLevel: string := " difficulty level.\nEach question should clearly indicate whether "
  const BinaryQuality: string :=
    ", and provide a detailed explanation for the answer.\n\n"
    + "QUALITY REQUIREMENTS:\n- Cover a wide range of subtopics within "

  /**
   * The two binary prompts share one text and differ in the kind of question, the sentence
   * on what each question must make clear, and the output template.
   */
  function BinaryPrompt(kind: string, decides: string, template: string,
                        field: string, numQuestions: int, difficulty: string): string
  {
    "Generate " + IntToString(numQuestions) + UniqueIntro + kind + QuestionsAbout
    + field + " at a " + difficulty + BinaryLevel + decides + BinaryQuality
    + field + BinaryRequirements + template
  }

  /** `get_true_false_question_generation_prompt`. */
  function TrueFalsePrompt(field: string, numQuestions: int, difficulty: string): string {
    BinaryPrompt("True/False", "the statement is true or false", TrueFalseTemplate, field, numQuestions, difficulty)
  }

  /** `get_yes_no_question_generation_prompt`. */
  function YesNoPrompt(field: string, numQuestions: int, difficulty: string): string {
    BinaryPrompt("Yes/No", "the answer is yes or no", YesNoTemplate, field, numQuestions, difficulty)
  }

  /** The break between paragraphs inside the indented triple-quoted templates. */
  const Paragraph: string := "\n\n            "

  const ExplainWithOptions: string := "Explain the following multiple-choice question and why the correct answer is "
  const ExplainWithout: string := "Explain the following question and why the correct answer is "
  const InEnglish: string := " in English:"

  const ExplainClosing: string :=
    "Please provide a detailed explanation, including any background information or context relevant to the question."

  /**
   * `get_explain_answer_prompt`. `options` is `None` for any falsy value (None, an empty
   * dict or list) and otherwise holds the value as the f-string renders it.
   */
  function ExplainPrompt(question: string, options: Option<string>, correctAnswer: string): string {
    match options
    case Some(rendered) =>
      ExplainWithOptions + correctAnswer + InEnglish + Paragraph + question + Paragraph + rendered
      + Paragraph + ExplainClosing
    case None =>
      ExplainWithout + correctAnswer + InEnglish + Paragraph + question + Paragraph + ExplainClosing
  }

  const PrerequisitesWithOptions: string :=
    "Provide detailed background material that would help a student understand the following question and its options.\n"
    + "            The material should cover fundamental concepts, definitions, and any necessary background knowledge related to the question and its options."
  const PrerequisitesWithout: string :=
    "Provide detailed background material that would help a student understand the following question.\n"
    + "            The material should cover fundamental concepts, definitions, and any necessary background knowledge related to the question."

  const PrerequisitesClosing: string :=
    "The explanation should be detailed, yet clear and beginner-friendly, aimed at a student who is not familiar with the topic."

  /** `get_prerequisites_prompt`, with `options` as for `ExplainPrompt`. */
  function PrerequisitesPrompt(question: string, options: Option<string>): string {
    match options
    case Some(rendered) =>
      PrerequisitesWithOptions + Paragraph + "Question: " + question + Paragraph + rendered + Paragraph + PrerequisitesClosing
    case None =>
      PrerequisitesWithout + Paragraph + "Question: " + question + Paragraph + PrerequisitesClosing
  }

  const SimilarWithOptions: string :=
    " unique, unambiguous, and unbiased multiple-choice questions based on the following question."
  const SimilarWithout: string := " unique, unambiguous, and unbiased questions based on the following question."

  const SimilarIntro: string :=
    "\n            The new question should cover a similar topic or idea but must not be a duplicate or semantically similar to the original question.\n"
    + "            It should enhance the user's understanding of the topic." + Paragraph + "Original Question: "

  const SimilarFormat: string :=
    "Each question MUST have exactly 4 options (A, B, C, D), with only one correct answer.\n"
    + "            Format the output strictly as follows:" + Paragraph
    + "Question: [Question text]\n            A. [Option A]\n            B. [Option B]\n"
    + "            C. [Option C]\n            D. [Option D]\n            Correct Answer: [A/B/C/D]"
    + Paragraph + "Ensure the correct answer is only a letter (A, B, C, D) and no explanation is included."

  /** `get_similar_question_generation_prompt`. */
  function SimilarPrompt(question: string, numQuestions: int, withOptions: bool): string {
    if withOptions then
      "Generate " + IntToString(numQuestions) + SimilarWithOptions + SimilarIntro + question + Paragraph + SimilarFormat
    else
      "Generate " + IntToString(numQuestions) + SimilarWithout + SimilarIntro + question
  }
}

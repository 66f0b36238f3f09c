/**
 * The pure helpers of the command-line front ends: the model-id formatter and the
 * argument validator of mcq_generate_cli.py and scripts/mcq_generate_cli.py (the same
 * code in both), the arguments-to-config mapping of scripts/mcq_generate_cli.py, and the
 * validator, file name and saved record of binary_question_cli.py.
 *
 * An argument the parser may leave unset is an `Option`; whitespace is ASCII whitespace.
 */
module CliArgs {
  import opened Wrappers
  import opened Text
  import opened BinaryParser
  import opened Generation
  import opened Engines

  /** `_format_model_id`, the same function in all three front ends. */
  function FormatModelId(provider: string, modelName: string): (r: string)
    ensures Contains(modelName, "/") ==> r == modelName
    ensures !Contains(modelName, "/") ==> r == provider + "/" + modelName
  {
    if Contains(modelName, "/") then modelName else provider + "/" + modelName
  }

  /**
   * A formatted id always holds a slash and ends with the model name, and formatting it
   * again changes nothing.
   */
  lemma FormatModelIdFacts(provider: string, modelName: string)
    ensures var r := FormatModelId(provider, modelName);
      && Contains(r, "/")
      && |modelName| <= |r| && r[|r| - |modelName|..] == modelName
      && FormatModelId(provider, r) == r
  {
    if !Contains(modelName, "/") {
      ContainsMiddle(provider, "/", modelName);
    }
  }

  /** Test-pinned ids: a bare name gets the provider in front, a name with a slash is kept. */
  lemma FormatModelIdExamples()
    ensures FormatModelId("openai", "gpt-4o") == "openai/gpt-4o"
    ensures FormatModelId("openai", "openai/gpt-4o") == "openai/gpt-4o"
    ensures FormatModelId("perplexity", "sonar") == "perplexity/sonar"
  {
    var bare, slashed := "gpt-4o", "openai/gpt-4o";
    AbsentChar(bare, "/", '/');
    assert OccursAt(slashed, "/", 6);
    AbsentChar("sonar", "/", '/');
  }

  /** One check of a validator: whether it holds, and the message of the `ValueError` when not. */
  datatype Check = Check(holds: bool, message: string)

  /** A chain of checks tried in order: the first that fails raises. */
  function FirstFailure(checks: seq<Check>): (r: Option<Raised>)
    ensures r.None? <==> forall i :: 0 <= i < |checks| ==> checks[i].holds
  {
    if checks == [] then None
    else if !checks[0].holds then Some(ValueError(checks[0].message))
    else
      var rest := FirstFailure(checks[1..]);
      assert forall i :: 1 <= i < |checks| ==> checks[i] == checks[1..][i - 1];
      rest
  }

  /** When check `i` is the first that fails, its message is the one raised. */
  lemma {:induction false} FirstFailureAt(checks: seq<Check>, i: nat)
    requires i < |checks| && !checks[i].holds
    requires forall j :: 0 <= j < i ==> checks[j].holds
    ensures FirstFailure(checks) == Some(ValueError(checks[i].message))
  {
    if i > 0 {
      assert checks[0].holds;
      FirstFailureAt(checks[1..], i - 1);
    }
  }

  /** `not field or not field.strip()` is false. */
  predicate FieldGiven(field: Option<string>) {
    field.Some? && Strip(field.value) != ""
  }

  /** `subfield is not None and not subfield.strip()` is false. */
  predicate SubfieldAllowed(subfield: Option<string>) {
    subfield.None? || Strip(subfield.value) != ""
  }

  const FieldMessage: string := "Field must be a non-empty string"
  const SubfieldMessage: string := "Subfield must be a non-empty string if provided"
  const CountMessage: string := "Number of questions (--count) must be at least 1"
  const OptionsMessage: string := "Number of options (--options) must be greater than 1"
  const CorrectMessage: string := "Number of correct answers must be at least 0 (0 means 'None of the Above')"
  const ExceedMessage: string := "Number of correct answers cannot exceed number of options"
  const TokensMessage: string := "Max tokens must be at least 100"
  const TypeMessage: string := "Question type must be 'true_false' or 'yes_no'"

  // The MCQ front ends.

  /** The parsed arguments of the MCQ front ends that the validator and the config read. */
  datatype McqCliArgs = McqCliArgs(field: Option<string>, subfield: Option<string>, difficulty: string,
                                   count: int, options: int, correctAnswers: int, maxTokens: int)

  /** `_validate_cli_args` of both MCQ front ends, test by test: `None` when it returns. */
  function ValidateMcqCliArgs(a: McqCliArgs): Option<Raised> {
    if !FieldGiven(a.field) then Some(ValueError(FieldMessage))
    else if !SubfieldAllowed(a.subfield) then Some(ValueError(SubfieldMessage))
    else if a.count < 1 then Some(ValueError(CountMessage))
    else if a.options < 2 then Some(ValueError(OptionsMessage))
    else if a.correctAnswers < 0 then Some(ValueError(CorrectMessage))
    else if a.correctAnswers > a.options then Some(ValueError(ExceedMessage))
    else if a.maxTokens < 100 then Some(ValueError(TokensMessage))
    else None
  }

  /** The validator's checks in source order. */
  function McqCliChecks(a: McqCliArgs): seq<Check> {
    [ Check(FieldGiven(a.field), FieldMessage),
      Check(SubfieldAllowed(a.subfield), SubfieldMessage),
      Check(a.count >= 1, CountMessage),
      Check(a.options >= 2, OptionsMessage),
      Check(a.correctAnswers >= 0, CorrectMessage),
      Check(a.correctAnswers <= a.options, ExceedMessage),
      Check(a.maxTokens >= 100, TokensMessage) ]
  }

  /**
   * The arguments are accepted iff the field is given, a given subfield is not blank,
   * at least one question and two options are asked for, between zero and all options
   * are correct, and at least 100 tokens are allowed; otherwise the first failing check
   * in source order raises.
   */
  lemma McqCliArgsAccepted(a: McqCliArgs)
    ensures ValidateMcqCliArgs(a).None? <==>
      && FieldGiven(a.field) && SubfieldAllowed(a.subfield)
      && a.count >= 1 && a.options >= 2 && 0 <= a.correctAnswers <= a.options && a.maxTokens >= 100
    ensures ValidateMcqCliArgs(a) == FirstFailure(McqCliChecks(a))
  {
    var c := McqCliChecks(a);
    if !c[0].holds { FirstFailureAt(c, 0); }
    else if !c[1].holds { FirstFailureAt(c, 1); }
    else if !c[2].holds { FirstFailureAt(c, 2); }
    else if !c[3].holds { FirstFailureAt(c, 3); }
    else if !c[4].holds { FirstFailureAt(c, 4); }
    else if !c[5].holds { FirstFailureAt(c, 5); }
    else if !c[6].holds { FirstFailureAt(c, 6); }
  }

  /** Test-pinned edges: all options correct and no option correct are accepted; a negative count of correct answers is not. */
  lemma McqCliArgsEdges(field: string, subfield: Option<string>, difficulty: string)
    requires Strip(field) != "" && SubfieldAllowed(subfield)
    ensures ValidateMcqCliArgs(McqCliArgs(Some(field), subfield, difficulty, 5, 4, 4, 3000)).None?
    ensures ValidateMcqCliArgs(McqCliArgs(Some(field), subfield, difficulty, 5, 4, 0, 3000)).None?
    ensures ValidateMcqCliArgs(McqCliArgs(Some(field), subfield, difficulty, 5, 4, -1, 3000)) == Some(ValueError(CorrectMessage))
    ensures ValidateMcqCliArgs(McqCliArgs(Some(field), subfield, difficulty, 5, 4, 5, 3000)) == Some(ValueError(ExceedMessage))
    ensures ValidateMcqCliArgs(McqCliArgs(None, subfield, difficulty, 5, 4, 1, 3000)) == Some(ValueError(FieldMessage))
  {
  }

  /** The `QuestionConfig` scripts/mcq_generate_cli.py builds from validated arguments. */
  function ConfigOf(a: McqCliArgs): (c: McqConfig)
    requires a.field.Some?
    ensures c.field == a.field.value && c.subfield == a.subfield && c.difficulty == Capitalize(a.difficulty)
    ensures c.numQuestions == a.count && c.numOptions == a.options
    ensures c.numCorrect == a.correctAnswers && c.maxTokens == a.maxTokens
  {
    McqConfig(a.field.value, Capitalize(a.difficulty), a.count, a.options, a.correctAnswers, a.maxTokens, a.subfield)
  }

  /** Arguments the front end accepts always pass the engine's `_validate_params`. */
  lemma AcceptedArgsPassEngine(a: McqCliArgs)
    requires ValidateMcqCliArgs(a).None?
    ensures a.field.Some?
    ensures ValidateParams(ConfigOf(a).numOptions, ConfigOf(a).numCorrect).None?
  {
    McqCliArgsAccepted(a);
  }

  // The binary front end.

  /** The parsed arguments of binary_question_cli.py that the validator and the config read. */
  datatype BinaryCliArgs = BinaryCliArgs(field: Option<string>, subfield: Option<string>, difficulty: string,
                                         count: int, maxTokens: int, questionType: string)

  /** `_validate_cli_args` of binary_question_cli.py: no options and no correct-answer checks. */
  function ValidateBinaryCliArgs(a: BinaryCliArgs): Option<Raised> {
    if !FieldGiven(a.field) then Some(ValueError(FieldMessage))
    else if !SubfieldAllowed(a.subfield) then Some(ValueError(SubfieldMessage))
    else if a.count < 1 then Some(ValueError(CountMessage))
    else if a.maxTokens < 100 then Some(ValueError(TokensMessage))
    else if !(a.questionType == TrueFalseType || a.questionType == YesNoType) then Some(ValueError(TypeMessage))
    else None
  }

  /** The validator's checks in source order. */
  function BinaryCliChecks(a: BinaryCliArgs): seq<Check> {
    [ Check(FieldGiven(a.field), FieldMessage),
      Check(SubfieldAllowed(a.subfield), SubfieldMessage),
      Check(a.count >= 1, CountMessage),
      Check(a.maxTokens >= 100, TokensMessage),
      Check(a.questionType == TrueFalseType || a.questionType == YesNoType, TypeMessage) ]
  }

  /**
   * The arguments are accepted iff the field is given, a given subfield is not blank, at
   * least one question and 100 tokens are asked for, and the type is one the generator
   * accepts; otherwise the first failing check in source order raises.
   */
  lemma BinaryCliArgsAccepted(a: BinaryCliArgs)
    ensures ValidateBinaryCliArgs(a).None? <==>
      && FieldGiven(a.field) && SubfieldAllowed(a.subfield)
      && a.count >= 1 && a.maxTokens >= 100 && ValidType(a.questionType)
    ensures ValidateBinaryCliArgs(a) == FirstFailure(BinaryCliChecks(a))
  {
    var c := BinaryCliChecks(a);
    if !c[0].holds { FirstFailureAt(c, 0); }
    else if !c[1].holds { FirstFailureAt(c, 1); }
    else if !c[2].holds { FirstFailureAt(c, 2); }
    else if !c[3].holds { FirstFailureAt(c, 3); }
    else if !c[4].holds { FirstFailureAt(c, 4); }
  }

  /** The `QuestionConfig` binary_question_cli.py builds from validated arguments. */
  function BinaryConfigOf(a: BinaryCliArgs): (c: BinaryConfig)
    requires a.field.Some?
    ensures c.field == a.field.value && c.subfield == a.subfield && c.difficulty == Capitalize(a.difficulty)
    ensures c.numQuestions == a.count && c.questionType == a.questionType && c.maxTokens == a.maxTokens
  {
    BinaryConfig(a.field.value, Capitalize(a.difficulty), a.count, a.questionType, a.maxTokens, a.subfield)
  }

  /** Accepted arguments never reach the generator's `ValueError` for the question type. */
  lemma AcceptedArgsPassGenerator(llm: Llm, a: BinaryCliArgs)
    requires ValidateBinaryCliArgs(a).None?
    ensures a.field.Some?
    ensures BinaryQuestions(llm, BinaryConfigOf(a)).Ok?
  {
    BinaryCliArgsAccepted(a);
  }

  /** `field.lower().replace(" ", "_")`. */
  function SafeField(field: string): (r: string)
    ensures |r| == |field|
    ensures forall i :: 0 <= i < |field| ==> r[i] == if field[i] == ' ' then '_' else LowerChar(field[i])
    ensures forall i :: 0 <= i < |r| ==> r[i] != ' ' && !('A' <= r[i] <= 'Z')
  {
    ReplaceChar(Lower(field), ' ', '_')
  }

  const BinaryFilePrefix: string := "binary_questions_"

  /** `_generate_output_filename(field, question_type)` with the timestamp `ts`. */
  function BinaryOutputFilename(field: string, questionType: string, ts: string): (r: string)
    ensures StartsWith(r, BinaryFilePrefix)
    ensures r == BinaryFilePrefix + SafeField(field) + "_" + questionType + "_" + ts + ".json"
    ensures |r| >= 5 && r[|r| - 5..] == ".json"
  {
    BinaryFilePrefix + SafeField(field) + "_" + questionType + "_" + ts + ".json"
  }

  /** Each blank between words becomes an underscore, as in "computer_science" for "Computer Science". */
  lemma SafeFieldOfWords(first: string, second: string)
    ensures SafeField(first + " " + second) == SafeField(first) + "_" + SafeField(second)
  {
  }

  /** Test-pinned: the field is lower-cased. */
  lemma SafeFieldExample()
    ensures SafeField("Math") == "math"
  {
  }

  /** The `metadata` object of the binary save. */
  datatype BinaryMetadata = BinaryMetadata(field: string, questionType: string, count: int, generatedAt: string)

  /** The object `json.dump` writes. */
  datatype BinaryOutput = BinaryOutput(metadata: BinaryMetadata, questions: seq<BinaryRecord>)

  /**
   * `_save_questions` of binary_question_cli.py: the file name and the object written.
   * An empty list is saved too.
   */
  function SaveBinaryQuestions(questions: seq<BinaryRecord>, field: string, questionType: string,
                               filename: Option<string>, ts: string, now: string): (r: (string, BinaryOutput))
    ensures Truthy(filename) ==> r.0 == filename.value
    ensures !Truthy(filename) ==> r.0 == BinaryOutputFilename(field, questionType, ts)
    ensures r.1.questions == questions && r.1.metadata.count == |questions|
    ensures r.1.metadata.field == field && r.1.metadata.questionType == questionType && r.1.metadata.generatedAt == now
  {
    var name := if Truthy(filename) then filename.value else BinaryOutputFilename(field, questionType, ts);
    (name, BinaryOutput(BinaryMetadata(field, questionType, |questions|, now), questions))
  }
}

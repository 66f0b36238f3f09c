/**
 * The two MCQ engines around `QuestionGenerator`: `MCQGenerator` in mcq_generator.py,
 * whose `generate` validates, generates and saves, and `MCQGenerationEngine` in
 * mcq_generate_cli.py, whose `generate` validates and generates and whose
 * `save_questions` saves. Their `_validate_params` and save steps are the same code.
 *
 * Saving is modelled as the file name and the record `json.dump` would write; the clock
 * readings (`ts` for the file name, `now` for `generated_at`) are parameters.
 */
module Engines {
  import opened Wrappers
  import opened Text
  import opened McqParser
  import opened Generation

  /** `QuestionConfig` of mcq_generator.py. */
  datatype McqConfig = McqConfig(field: string, difficulty: string, numQuestions: int, numOptions: int,
                                 numCorrect: int, maxTokens: int, subfield: Option<string>)

  /** The `QuestionConfig` with the defaults of its optional fields. */
  function DefaultMcqConfig(field: string, difficulty: string, numQuestions: int, numOptions: int): (c: McqConfig)
    ensures c.field == field && c.difficulty == difficulty
    ensures c.numQuestions == numQuestions && c.numOptions == numOptions
    ensures c.numCorrect == 1 && c.maxTokens == 3000 && c.subfield.None?
  {
    McqConfig(field, difficulty, numQuestions, numOptions, 1, 3000, None)
  }

  /** Python truthiness of an optional string: present and not empty. */
  predicate Truthy(s: Option<string>) {
    s.Some? && s.value != ""
  }

  const TooFewOptions: string := "Number of options must be > 1"
  const NegativeCorrect: string := "Number of correct answers must be >= 0"

  /** `_validate_params`: `None` when it returns, otherwise what it raises. */
  function ValidateParams(numOptions: int, numCorrect: int): (r: Option<Raised>)
    ensures r.None? <==> numOptions >= 2 && numCorrect >= 0
    ensures r.Some? ==> r.value.ValueError?
    ensures numOptions < 2 ==> r == Some(ValueError(TooFewOptions))
  {
    if numOptions < 2 then Some(ValueError(TooFewOptions))
    else if numCorrect < 0 then Some(ValueError(NegativeCorrect))
    else None
  }

  /** The engine does not bound the number of correct answers by the number of options, and allows none. */
  lemma ValidateParamsBounds()
    ensures ValidateParams(2, 5).None?
    ensures ValidateParams(4, 0).None?
    ensures ValidateParams(4, -1) == Some(ValueError(NegativeCorrect))
    ensures ValidateParams(1, -1) == Some(ValueError(TooFewOptions))
  {
  }

  /** The topic `generate` announces: `"field - subfield"` with a subfield, else the field. */
  function Topic(field: string, subfield: Option<string>): (r: string)
    ensures Truthy(subfield) ==> r == field + " - " + subfield.value
    ensures !Truthy(subfield) ==> r == field
  {
    if Truthy(subfield) then field + " - " + subfield.value else field
  }

  /** `field_part` of the default file name. */
  function FieldPart(field: string, subfield: Option<string>): string {
    if Truthy(subfield) then field + "_" + subfield.value else field
  }

  /** The file `_save_questions` writes: the given name, or `mcq_{field_part}_{ts}.json`. */
  function SaveFileName(field: string, subfield: Option<string>, filename: Option<string>, ts: string): string {
    if Truthy(filename) then filename.value else "mcq_" + FieldPart(field, subfield) + "_" + ts + ".json"
  }

  /** A given name is used as it is; otherwise the name is built from the field, the subfield and the timestamp. */
  lemma SaveFileNameChoice(field: string, subfield: Option<string>, filename: Option<string>, ts: string)
    ensures Truthy(filename) ==> SaveFileName(field, subfield, filename, ts) == filename.value
    ensures !Truthy(filename) && Truthy(subfield) ==>
      SaveFileName(field, subfield, filename, ts) == "mcq_" + field + "_" + subfield.value + "_" + ts + ".json"
    ensures !Truthy(filename) && !Truthy(subfield) ==>
      SaveFileName(field, subfield, filename, ts) == "mcq_" + field + "_" + ts + ".json"
  {
  }

  /** The dict `json.dump` writes. */
  datatype McqSaveRecord = McqSaveRecord(field: string, subfield: Option<string>, generatedAt: string,
                                         questionCount: int, questions: seq<McqRecord>)

  /** The file name and the record of a save. */
  datatype Saved = Saved(path: string, record: McqSaveRecord)

  const EmptySave: string := "Cannot save: questions list is empty"

  /**
   * `_save_questions` of `MCQGenerator` and `save_questions` of `MCQGenerationEngine`:
   * the file name and record written, or `ValueError` for an empty list.
   */
  function SaveQuestions(questions: seq<McqRecord>, field: string, filename: Option<string>,
                         subfield: Option<string>, ts: string, now: string): (r: Result<Saved>)
    ensures r.Ok? <==> questions != []
    ensures r.Err? ==> r.error == ValueError(EmptySave)
    ensures r.Ok? ==> r.value.path == SaveFileName(field, subfield, filename, ts)
    ensures r.Ok? ==> r.value.record.questions == questions && r.value.record.questionCount == |questions|
    ensures r.Ok? ==> r.value.record.field == field && r.value.record.subfield == subfield
    ensures r.Ok? ==> r.value.record.generatedAt == now
  {
    if questions == [] then Err(ValueError(EmptySave))
    else Ok(Saved(SaveFileName(field, subfield, filename, ts),
                  McqSaveRecord(field, subfield, now, |questions|, questions)))
  }

  const NoQuestions: string := "Failed to create questions from LLM"

  /**
   * `MCQGenerationEngine.generate`: validate, generate, and raise `RuntimeError` when no
   * question came back.
   */
  function EngineGenerate(llm: Llm, field: string, difficulty: string, numQuestions: int, numOptions: int,
                          numCorrect: int, maxTokens: int, subfield: Option<string>): (r: Result<seq<McqRecord>>)
    requires numOptions <= LabelLimit
    ensures ValidateParams(numOptions, numCorrect).Some? ==> r == Err(ValidateParams(numOptions, numCorrect).value)
    ensures r.Ok? ==> r.value != []
  {
    match ValidateParams(numOptions, numCorrect)
    case Some(e) => Err(e)
    case None =>
      match McqQuestions(llm, field, difficulty, numQuestions, maxTokens, numOptions, numCorrect)
      case Err(e) => Err(e)
      case Ok(questions) => if questions == [] then Err(RuntimeError(NoQuestions)) else Ok(questions)
  }

  /**
   * On valid parameters the CLI engine returns exactly what the generator returns for the
   * same arguments, unless that is empty, which raises `RuntimeError`.
   */
  lemma EngineGenerateOutcome(llm: Llm, field: string, difficulty: string, numQuestions: int, numOptions: int,
                              numCorrect: int, maxTokens: int, subfield: Option<string>)
    requires 2 <= numOptions <= LabelLimit && numCorrect >= 0
    ensures var g := McqQuestions(llm, field, difficulty, numQuestions, maxTokens, numOptions, numCorrect);
      var r := EngineGenerate(llm, field, difficulty, numQuestions, numOptions, numCorrect, maxTokens, subfield);
      && (g == Ok([]) ==> r == Err(RuntimeError(NoQuestions)))
      && (g.Ok? && g.value != [] ==> r == g)
      && (g.Err? ==> r == g)
  {
  }

  /**
   * `MCQGenerator.generate`: validate, generate, raise `RuntimeError` when no question came
   * back, then save; the result is the saved file and record.
   */
  function Generate(llm: Llm, config: McqConfig, filename: Option<string>, ts: string, now: string): (r: Result<Saved>)
    requires config.numOptions <= LabelLimit
  {
    match ValidateParams(config.numOptions, config.numCorrect)
    case Some(e) => Err(e)
    case None =>
      match McqQuestions(llm, config.field, config.difficulty, config.numQuestions, config.maxTokens,
                         config.numOptions, config.numCorrect)
      case Err(e) => Err(e)
      case Ok(questions) =>
        if questions == [] then Err(RuntimeError(NoQuestions))
        else SaveQuestions(questions, config.field, filename, config.subfield, ts, now)
  }

  /** Invalid parameters raise before anything is generated, whatever the model would answer. */
  lemma GenerateValidatesFirst(llm: Llm, config: McqConfig, filename: Option<string>, ts: string, now: string)
    requires config.numOptions <= LabelLimit
    requires ValidateParams(config.numOptions, config.numCorrect).Some?
    ensures Generate(llm, config, filename, ts, now) == Err(ValidateParams(config.numOptions, config.numCorrect).value)
  {
  }

  /**
   * A successful `generate` saved the non-empty list the generator returned for the
   * config's field, difficulty and count (in that order), with its options, correct-answer
   * count and token limit, under the save's file name and with `question_count` its length.
   */
  lemma GenerateSaved(llm: Llm, config: McqConfig, filename: Option<string>, ts: string, now: string)
    requires config.numOptions <= LabelLimit
    requires Generate(llm, config, filename, ts, now).Ok?
    ensures var s := Generate(llm, config, filename, ts, now).value;
      var g := McqQuestions(llm, config.field, config.difficulty, config.numQuestions, config.maxTokens,
                            config.numOptions, config.numCorrect);
      && ValidateParams(config.numOptions, config.numCorrect).None?
      && g.Ok? && g.value != [] && s.record.questions == g.value
      && s.record.questionCount == |g.value|
      && s.path == SaveFileName(config.field, config.subfield, filename, ts)
      && s.record.field == config.field && s.record.subfield == config.subfield
  {
  }

  /** When the generator returns no question, `generate` raises `RuntimeError` and saves nothing. */
  lemma GenerateEmptyRaises(llm: Llm, config: McqConfig, filename: Option<string>, ts: string, now: string)
    requires 2 <= config.numOptions <= LabelLimit && config.numCorrect >= 0
    requires McqQuestions(llm, config.field, config.difficulty, config.numQuestions, config.maxTokens,
                          config.numOptions, config.numCorrect) == Ok([])
    ensures Generate(llm, config, filename, ts, now) == Err(RuntimeError(NoQuestions))
  {
  }

  /**
   * The two engines agree: `MCQGenerator.generate` is `MCQGenerationEngine.generate`
   * followed by `save_questions`.
   */
  lemma GenerateIsEngineThenSave(llm: Llm, config: McqConfig, filename: Option<string>, ts: string, now: string)
    requires config.numOptions <= LabelLimit
    ensures Generate(llm, config, filename, ts, now) ==
      match EngineGenerate(llm, config.field, config.difficulty, config.numQuestions, config.numOptions,
                           config.numCorrect, config.maxTokens, config.subfield)
      case Err(e) => Err(e)
      case Ok(questions) => SaveQuestions(questions, config.field, filename, config.subfield, ts, now)
  {
  }
}

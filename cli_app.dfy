/**
 * `MCQGeneratorCLI` of cli.py: an object that holds the model chosen with `set_model` and
 * refuses to generate until one is set, with its save step, the question-type label and
 * the 1-based question-number check of its subcommands.
 *
 * The model behind `self.model` is the parameter `llm` of the generating methods.
 */
module CliApp {
  import opened Wrappers
  import opened Text
  import opened McqParser
  import opened BinaryParser
  import opened Generation
  import opened Engines
  import opened CliArgs

  const OpenAiProvider: string := "openai"
  const OpenAiPrefix: string := "openai/"

  /**
   * The id `set_model` stores: for the provider "openai" in any case, the name with
   * "openai/" in front unless it starts with it already; for any other provider, the
   * front ends' slash rule with the provider as written.
   */
  function ModelIdFor(provider: string, modelName: string): (r: string)
    ensures !EqualsIgnoringCase(provider, OpenAiProvider) ==> r == FormatModelId(provider, modelName)
  {
    if EqualsIgnoringCase(provider, OpenAiProvider) then
      if StartsWith(modelName, OpenAiPrefix) then modelName else OpenAiPrefix + modelName
    else FormatModelId(provider, modelName)
  }

  /**
   * For "openai" the id is the name itself when it starts with "openai/", and the name
   * with "openai/" in front otherwise. So it always starts with "openai/" and ends with the
   * model name, and setting it again changes nothing.
   */
  lemma OpenAiModelId(provider: string, modelName: string)
    requires Lower(provider) == OpenAiProvider
    ensures StartsWith(modelName, OpenAiPrefix) ==> ModelIdFor(provider, modelName) == modelName
    ensures !StartsWith(modelName, OpenAiPrefix) ==> ModelIdFor(provider, modelName) == OpenAiPrefix + modelName
    ensures var r := ModelIdFor(provider, modelName);
      && StartsWith(r, OpenAiPrefix)
      && |modelName| <= |r| && r[|r| - |modelName|..] == modelName
      && ModelIdFor(provider, r) == r
  {
    EqualsIgnoringCaseIsLower(provider, OpenAiProvider);
    var r := ModelIdFor(provider, modelName);
    assert StartsWith(r, OpenAiPrefix) by {
      if !StartsWith(modelName, OpenAiPrefix) {
        assert r[..|OpenAiPrefix|] == OpenAiPrefix;
      }
    }
  }

  /** Every id `set_model` stores holds a slash. */
  lemma ModelIdHasSlash(provider: string, modelName: string)
    ensures Contains(ModelIdFor(provider, modelName), "/")
  {
    var r := ModelIdFor(provider, modelName);
    if EqualsIgnoringCase(provider, OpenAiProvider) {
      EqualsIgnoringCaseIsLower(provider, OpenAiProvider);
      OpenAiModelId(provider, modelName);
      assert OccursAt(r, "/", 6);
    } else {
      FormatModelIdFacts(provider, modelName);
    }
  }

  /**
   * Only the prefix is checked for "openai": a name with another slash still gets the
   * prefix, where the front ends' formatter keeps it as it is. Other providers keep their case.
   */
  lemma ModelIdExamples()
    ensures ModelIdFor("openai", "x/y") == "openai/x/y"
    ensures FormatModelId("openai", "x/y") == "x/y"
    ensures ModelIdFor("OpenAI", "openai/gpt-4o") == "openai/gpt-4o"
    ensures ModelIdFor("Claude", "opus") == "Claude/opus"
  {
    var slashed := "x/y";
    assert OccursAt(slashed, "/", 1);
    var upper := "OpenAI";
    assert EqualsIgnoringCase(upper, OpenAiProvider);
    var claude := "Claude";
    assert claude[0] != OpenAiProvider[0];
    AbsentChar("opus", "/", '/');
  }

  const ModelUnset: string := "Model not initialized. Please set up a model first."
  const GenerateFailure: string := "Error generating questions: "

  /**
   * What calling `QuestionGenerator.generate_questions` without `num_options` raises:
   * cli.py passes four arguments where five are required.
   */
  const MissingNumOptions: string :=
    "QuestionGenerator.generate_questions() missing 1 required positional argument: 'num_options'"

  /** The label the binary generation announces: "True/False" iff the type is "true_false". */
  function TypeLabel(questionType: string): (r: string)
    ensures r == "True/False" <==> questionType == TrueFalseType
    ensures r != "True/False" ==> r == "Yes/No"
  {
    if questionType == TrueFalseType then "True/False" else "Yes/No"
  }

  /** What `generate_binary_questions` returns or raises for the generator's outcome. */
  function BinaryCliOutcome(generated: Result<seq<BinaryRecord>>, questionType: string): (r: Result<seq<BinaryRecord>>)
    ensures r.Ok? <==> generated.Ok? && generated.value != []
    ensures r.Ok? ==> r == generated
    ensures r.Err? ==> r.error.Exception? && StartsWith(r.error.message, GenerateFailure)
  {
    match generated
    case Err(e) => Err(Exception(GenerateFailure + e.message))
    case Ok(questions) =>
      if questions == [] then
        Err(Exception(GenerateFailure + "Failed to generate " + TypeLabel(questionType) + " questions. Check logs for details."))
      else Ok(questions)
  }

  const NothingToSave: string := "No questions to save."

  /** The dict `save_questions` writes. */
  datatype CliSaveRecord = CliSaveRecord(specialization: string, generatedAt: string,
                                         questionCount: int, questions: seq<McqRecord>)

  /** The `n`-th question, counted from 1, as the explain, prerequisites and similar commands pick it. */
  function SelectQuestion<T>(questions: seq<T>, n: int): (r: Result<T>)
    ensures r.Ok? <==> 1 <= n <= |questions|
    ensures r.Ok? ==> r.value == questions[n - 1]
    ensures r.Err? ==> r.error == Exception("Invalid question number. Valid range: 1-" + IntToString(|questions|))
  {
    if n < 1 || n > |questions| then Err(Exception("Invalid question number. Valid range: 1-" + IntToString(|questions|)))
    else Ok(questions[n - 1])
  }

  class McqGeneratorCli {
    var provider: Option<string>
    var modelName: Option<string>
    /** The LiteLLM model id; `None` until `set_model`. */
    var model: Option<string>

    /** `__init__`: no model yet. */
    constructor ()
      ensures model.None? && provider.None? && modelName.None?
    {
      provider, modelName, model := None, None, None;
    }

    /** `set_model`: stores the provider, the name and the id built from them. */
    method SetModel(p: string, name: string)
      modifies this
      ensures provider == Some(p) && modelName == Some(name) && model == Some(ModelIdFor(p, name))
    {
      provider := Some(p);
      modelName := Some(name);
      if EqualsIgnoringCase(p, OpenAiProvider) {
        model := Some(if !StartsWith(name, OpenAiPrefix) then OpenAiPrefix + name else name);
      } else {
        model := Some(if Contains(name, "/") then name else p + "/" + name);
      }
    }

    /**
     * `generate_questions`: raises while no model is set; once one is, the generator call
     * lacks `num_options`, and the `TypeError` comes back wrapped.
     */
    method GenerateQuestions(specialization: string, difficulty: string, numQuestions: int, maxTokens: int)
      returns (r: Result<seq<McqRecord>>)
      ensures !Truthy(model) ==> r == Err(Exception(ModelUnset))
      ensures Truthy(model) ==> r == Err(Exception(GenerateFailure + MissingNumOptions))
    {
      if !Truthy(model) {
        return Err(Exception(ModelUnset));
      }
      r := Err(Exception(GenerateFailure + MissingNumOptions));
    }

    /**
     * `generate_binary_questions`: raises while no model is set; otherwise runs the binary
     * generator on the config of the arguments and raises when it fails or finds nothing.
     */
    method GenerateBinaryQuestions(llm: Llm, specialization: string, difficulty: string, numQuestions: int,
                                   questionType: string, maxTokens: int)
      returns (r: Result<seq<BinaryRecord>>)
      ensures !Truthy(model) ==> r == Err(Exception(ModelUnset))
      ensures Truthy(model) ==>
        r == BinaryCliOutcome(BinaryQuestions(llm, BinaryConfig(specialization, difficulty, numQuestions, questionType, maxTokens, None)),
                              questionType)
    {
      if !Truthy(model) {
        return Err(Exception(ModelUnset));
      }
      var config := BinaryConfig(specialization, difficulty, numQuestions, questionType, maxTokens, None);
      var generated, _ := Generation.GenerateBinaryQuestions(llm, config);
      r := BinaryCliOutcome(generated, questionType);
    }

    /**
     * `save_questions`: raises for an empty list; otherwise the file name (the given one,
     * or `mcq_{specialization}_{ts}.json`) and the record written.
     */
    method SaveQuestions(questions: seq<McqRecord>, specialization: string, filename: Option<string>, ts: string, now: string)
      returns (r: Result<(string, CliSaveRecord)>)
      ensures r.Ok? <==> questions != []
      ensures r.Err? ==> r.error == Exception(NothingToSave)
      ensures r.Ok? ==> r.value.0 == if Truthy(filename) then filename.value else "mcq_" + specialization + "_" + ts + ".json"
      ensures r.Ok? ==> r.value.1 == CliSaveRecord(specialization, now, |questions|, questions)
    {
      if questions == [] {
        return Err(Exception(NothingToSave));
      }
      var name := if Truthy(filename) then filename.value else "mcq_" + specialization + "_" + ts + ".json";
      r := Ok((name, CliSaveRecord(specialization, now, |questions|, questions)));
    }
  }
}

/**
 * `generate_questions` of the three generators: build the prompt, call the language model
 * (with up to three attempts), strip the reply, split it into blocks at blank lines,
 * parse each block and keep the blocks that parsed, in order.
 *
 * The language model is a parameter: `llm(prompt, maxTokens, i)` is the outcome of the
 * `i`-th attempt (counted from 0) of `litellm.completion` for that prompt; `Ok(None)` stands
 * for a reply whose `content` is `None`.
 */
module Generation {
  import opened Wrappers
  import opened Text
  import opened McqParser
  import opened McqFacts
  import opened BinaryParser
  import opened BinaryFacts
  import opened Prompts

  type Llm = (string, int, nat) -> Result<Option<string>>

  /** `stop_after_attempt(3)` of the `@retry` decorator on `_call_llm`. */
  const MaxAttempts: nat := 3

  /** Attempts `i`, `i + 1`, ... until one succeeds; the last one's error is re-raised. */
  function CallFrom(llm: Llm, prompt: string, maxTokens: int, i: nat): Result<Option<string>>
    requires i < MaxAttempts
    decreases MaxAttempts - i
  {
    var outcome := llm(prompt, maxTokens, i);
    if outcome.Ok? || i + 1 == MaxAttempts then outcome else CallFrom(llm, prompt, maxTokens, i + 1)
  }

  /** `_call_llm(prompt, max_tokens)` with its retry decorator. */
  function CallLlm(llm: Llm, prompt: string, maxTokens: int): Result<Option<string>> {
    CallFrom(llm, prompt, maxTokens, 0)
  }

  /**
   * The call succeeds iff one of the three attempts does, and then it returns the first
   * successful attempt's content; otherwise it re-raises the third attempt's error.
   */
  lemma {:induction false} CallLlmRetries(llm: Llm, prompt: string, maxTokens: int)
    ensures CallLlm(llm, prompt, maxTokens).Ok? <==>
      exists i :: 0 <= i < MaxAttempts && llm(prompt, maxTokens, i).Ok?
    ensures CallLlm(llm, prompt, maxTokens).Ok? ==>
      exists i :: 0 <= i < MaxAttempts && llm(prompt, maxTokens, i) == CallLlm(llm, prompt, maxTokens)
        && forall j :: 0 <= j < i ==> llm(prompt, maxTokens, j).Err?
    ensures CallLlm(llm, prompt, maxTokens).Err? ==>
      CallLlm(llm, prompt, maxTokens) == llm(prompt, maxTokens, MaxAttempts - 1)
  {
    var o0, o1, o2 := llm(prompt, maxTokens, 0), llm(prompt, maxTokens, 1), llm(prompt, maxTokens, 2);
    assert CallFrom(llm, prompt, maxTokens, 2) == o2;
    assert CallFrom(llm, prompt, maxTokens, 1) == if o1.Ok? then o1 else o2;
    assert CallLlm(llm, prompt, maxTokens) == if o0.Ok? then o0 else if o1.Ok? then o1 else o2;
  }

  /** Nothing after the third attempt is ever looked at. */
  lemma {:induction false} CallLlmUsesThreeAttempts(llm: Llm, other: Llm, prompt: string, maxTokens: int)
    requires forall i :: 0 <= i < MaxAttempts ==> llm(prompt, maxTokens, i) == other(prompt, maxTokens, i)
    ensures CallLlm(llm, prompt, maxTokens) == CallLlm(other, prompt, maxTokens)
  {
    assert CallFrom(llm, prompt, maxTokens, 2) == CallFrom(other, prompt, maxTokens, 2);
    assert CallFrom(llm, prompt, maxTokens, 1) == CallFrom(other, prompt, maxTokens, 1);
  }

  /**
   * The reply text the parse loop runs on, or `None` when the `try` block returned `[]`:
   * the call raised, or its content was `None` and `content.strip()` raised.
   */
  function Content(reply: Result<Option<string>>): Option<string> {
    match reply
    case Err(_) => None
    case Ok(content) => content
  }

  const BlockSeparator: string := "\n\n"

  /** `content.strip().split("\n\n")`. */
  function Blocks(content: string): (r: seq<string>)
    ensures |r| >= 1
  {
    SplitOn(Strip(content), BlockSeparator)
  }

  /** Joining the blocks at blank lines gives back the stripped reply, and no block holds a blank line. */
  lemma BlocksRejoin(content: string)
    ensures Join(Blocks(content), BlockSeparator) == Strip(content)
    ensures forall b :: b in Blocks(content) ==> !Contains(b, BlockSeparator)
  {
    JoinSplit(Strip(content), BlockSeparator);
    SplitPiecesAvoidSep(Strip(content), BlockSeparator);
  }

  /** An empty or blank reply is one empty block, as `"".split("\n\n") == [""]`. */
  lemma BlankReplyIsOneBlock(content: string)
    requires Strip(content) == ""
    ensures Blocks(content) == [""]
  {
    assert Find("", BlockSeparator) == None;
  }

  /** What the parse loop keeps: the parses of the blocks that parsed, in block order. */
  function Kept<T>(blocks: seq<string>, parse: string -> Option<T>): (r: seq<T>)
    decreases |blocks|
    ensures |r| <= |blocks|
  {
    if blocks == [] then []
    else
      var last := |blocks| - 1;
      var parsed := parse(blocks[last]);
      Kept(blocks[..last], parse) + (if parsed.Some? then [parsed.value] else [])
  }

  /** The positions of the blocks that parsed, in increasing order. */
  function SuccessIndices<T>(blocks: seq<string>, parse: string -> Option<T>): seq<nat>
    decreases |blocks|
  {
    if blocks == [] then []
    else
      var last := |blocks| - 1;
      SuccessIndices(blocks[..last], parse) + (if parse(blocks[last]).Some? then [last] else [])
  }

  /**
   * `r` is the in-order subsequence of successful parses of `blocks`, taken at the
   * positions `idx`: increasing positions, exactly those of the blocks that parse, and
   * each element the parse of its block.
   */
  predicate Picks<T(==)>(blocks: seq<string>, parse: string -> Option<T>, idx: seq<nat>, r: seq<T>) {
    && |idx| == |r|
    && (forall j :: 0 <= j < |idx| ==> idx[j] < |blocks| && parse(blocks[idx[j]]) == Some(r[j]))
    && (forall j, j' :: 0 <= j < j' < |idx| ==> idx[j] < idx[j'])
    && (forall i :: 0 <= i < |blocks| && parse(blocks[i]).Some? ==> i in idx)
  }

  /** A picking of `blocks` extends to `blocks + [b]` when `b` parses: its position and parse are appended. */
  lemma PicksExtend<T>(blocks: seq<string>, b: string, parse: string -> Option<T>, idx: seq<nat>, r: seq<T>)
    requires Picks(blocks, parse, idx, r) && parse(b).Some?
    ensures Picks(blocks + [b], parse, idx + [|blocks|], r + [parse(b).value])
  {
    var all, idx', r' := blocks + [b], idx + [|blocks|], r + [parse(b).value];
    forall j | 0 <= j < |idx'|
      ensures idx'[j] < |all| && parse(all[idx'[j]]) == Some(r'[j])
    {
      if j < |idx| {
        assert idx'[j] == idx[j] && r'[j] == r[j] && all[idx[j]] == blocks[idx[j]];
      }
    }
    forall j, j' | 0 <= j < j' < |idx'|
      ensures idx'[j] < idx'[j']
    {
      if j' < |idx| {
        assert idx'[j] == idx[j] && idx'[j'] == idx[j'];
      } else {
        assert idx'[j] == idx[j] < |blocks|;
      }
    }
    forall i | 0 <= i < |all| && parse(all[i]).Some?
      ensures i in idx'
    {
      if i < |blocks| {
        assert all[i] == blocks[i] && i in idx;
      } else {
        assert idx'[|idx|] == i;
      }
    }
  }

  /** A picking of `blocks` is one of `blocks + [b]` when `b` does not parse. */
  lemma PicksSkip<T>(blocks: seq<string>, b: string, parse: string -> Option<T>, idx: seq<nat>, r: seq<T>)
    requires Picks(blocks, parse, idx, r) && parse(b).None?
    ensures Picks(blocks + [b], parse, idx, r)
  {
    var all := blocks + [b];
    forall j | 0 <= j < |idx|
      ensures idx[j] < |all| && parse(all[idx[j]]) == Some(r[j])
    {
      assert all[idx[j]] == blocks[idx[j]];
    }
    forall i | 0 <= i < |all| && parse(all[i]).Some?
      ensures i in idx
    {
      assert all[i] == blocks[i];
    }
  }

  /** The loop's result is the in-order subsequence of the successful parses. */
  lemma {:induction false} KeptPicks<T>(blocks: seq<string>, parse: string -> Option<T>)
    ensures Picks(blocks, parse, SuccessIndices(blocks, parse), Kept(blocks, parse))
    decreases |blocks|
  {
    if blocks != [] {
      var last := |blocks| - 1;
      var front := blocks[..last];
      KeptPicks(front, parse);
      assert front + [blocks[last]] == blocks;
      if parse(blocks[last]).Some? {
        PicksExtend(front, blocks[last], parse, SuccessIndices(front, parse), Kept(front, parse));
      } else {
        PicksSkip(front, blocks[last], parse, SuccessIndices(front, parse), Kept(front, parse));
      }
    }
  }

  /** A picking whose last position is the last block drops to a picking of the blocks before it. */
  lemma PicksDropLast<T>(blocks: seq<string>, parse: string -> Option<T>, idx: seq<nat>, r: seq<T>)
    requires blocks != [] && Picks(blocks, parse, idx, r)
    requires parse(blocks[|blocks| - 1]).Some?
    ensures |idx| >= 1 && idx[|idx| - 1] == |blocks| - 1
    ensures Picks(blocks[..|blocks| - 1], parse, idx[..|idx| - 1], r[..|r| - 1])
  {
    var last := |blocks| - 1;
    var front := blocks[..last];
    assert last in idx;
    var j :| 0 <= j < |idx| && idx[j] == last;
    assert idx[|idx| - 1] < |blocks|;
    assert j == |idx| - 1;
    var fidx, fr := idx[..j], r[..j];
    forall k | 0 <= k < |fidx|
      ensures fidx[k] < |front| && parse(front[fidx[k]]) == Some(fr[k])
    {
      assert idx[k] < idx[j];
    }
    forall i | 0 <= i < |front| && parse(front[i]).Some?
      ensures i in fidx
    {
      assert blocks[i] == front[i];
      var k :| 0 <= k < |idx| && idx[k] == i;
      assert idx[k] == i && idx[j] == last;
      assert k < j;
      assert fidx[k] == i;
    }
  }

  /** A picking that skips the last block is a picking of the blocks before it. */
  lemma PicksSkipLast<T>(blocks: seq<string>, parse: string -> Option<T>, idx: seq<nat>, r: seq<T>)
    requires blocks != [] && Picks(blocks, parse, idx, r)
    requires parse(blocks[|blocks| - 1]).None?
    ensures Picks(blocks[..|blocks| - 1], parse, idx, r)
  {
    var last := |blocks| - 1;
    var front := blocks[..last];
    forall k | 0 <= k < |idx|
      ensures idx[k] < |front| && parse(front[idx[k]]) == Some(r[k])
    {
      assert idx[k] != last;
    }
    forall i | 0 <= i < |front| && parse(front[i]).Some?
      ensures i in idx
    {
      assert blocks[i] == front[i];
    }
  }

  /** Conversely, the in-order subsequence is unique: whatever picks the successes is the loop's result. */
  lemma {:induction false} PicksAreKept<T>(blocks: seq<string>, parse: string -> Option<T>, idx: seq<nat>, r: seq<T>)
    requires Picks(blocks, parse, idx, r)
    ensures r == Kept(blocks, parse)
    decreases |blocks|
  {
    if blocks == [] {
      assert |idx| == 0;
    } else {
      var last := |blocks| - 1;
      if parse(blocks[last]).Some? {
        PicksDropLast(blocks, parse, idx, r);
        PicksAreKept(blocks[..last], parse, idx[..|idx| - 1], r[..|r| - 1]);
        assert r == r[..|r| - 1] + [r[|r| - 1]];
      } else {
        PicksSkipLast(blocks, parse, idx, r);
        PicksAreKept(blocks[..last], parse, idx, r);
      }
    }
  }

  /** One more block: its parse is appended when it parsed. */
  lemma KeptStep<T>(blocks: seq<string>, parse: string -> Option<T>, i: nat)
    requires i < |blocks|
    ensures Kept(blocks[..i + 1], parse)
      == Kept(blocks[..i], parse) + (if parse(blocks[i]).Some? then [parse(blocks[i]).value] else [])
  {
    assert blocks[..i + 1][..i] == blocks[..i];
  }

  /** Two parsers that agree on every block keep the same records. */
  lemma {:induction false} KeptCongruent<T>(blocks: seq<string>, parse: string -> Option<T>, other: string -> Option<T>)
    requires forall i :: 0 <= i < |blocks| ==> parse(blocks[i]) == other(blocks[i])
    ensures Kept(blocks, parse) == Kept(blocks, other)
    decreases |blocks|
  {
    if blocks != [] {
      var last := |blocks| - 1;
      assert forall i :: 0 <= i < last ==> blocks[..last][i] == blocks[i];
      KeptCongruent(blocks[..last], parse, other);
    }
  }

  // The MCQ generator.

  /** `parse_question(choice, num_options)` as the block parser of the loop. */
  function McqParse(n: int): string -> Option<McqRecord>
    requires n <= MaxOptions
  {
    t => ParseMcq(t, n)
  }

  /**
   * What `re.search` raises for 27 or more options: the 27th label is '[', which opens a
   * character class that swallows the lookahead's opening parenthesis, so its closing one
   * is unbalanced. The pattern starts with a 19-character question part, and each option
   * part is 44 characters followed by a 3-character `\s*` join, so that parenthesis is at
   * index 19 + 26 * 47 + 43 = 1284. The first 26 option parts are the same for every count,
   * so the error is the same from 27 options on. The pattern holds a line break
   * (in `[^\n]`), which makes the message give the line and the column too.
   */
  const BadPattern: Raised := ReError("unbalanced parenthesis at position 1284 (line 1, column 1285)")

  /**
   * What `QuestionGenerator.generate_questions` returns, or raises, once the model's reply
   * is in: the parse loop runs outside the `try` block, so a pattern error escapes.
   */
  function McqFromReply(reply: Result<Option<string>>, numOptions: int): Result<seq<McqRecord>> {
    match Content(reply)
    case None => Ok([])
    case Some(content) =>
      if numOptions > MaxOptions then Err(BadPattern) else Ok(Kept(Blocks(content), McqParse(numOptions)))
  }

  /** The value of `QuestionGenerator.generate_questions`, or what it raises. */
  function McqQuestions(llm: Llm, field: string, difficulty: string, numQuestions: int, maxTokens: int,
                        numOptions: int, numCorrect: int): Result<seq<McqRecord>>
    requires numOptions <= LabelLimit
  {
    McqFromReply(CallLlm(llm, McqPromptAsWritten(field, difficulty, numQuestions, numOptions, numCorrect), maxTokens),
                 numOptions)
  }

  /** The parse loop of `QuestionGenerator.generate_questions`: each parsed block is appended in turn. */
  method ParseMcqBlocks(blocks: seq<string>, numOptions: int) returns (kept: seq<McqRecord>)
    requires numOptions <= MaxOptions
    ensures kept == Kept(blocks, McqParse(numOptions))
  {
    kept := [];
    var i := 0;
    while i < |blocks|
      invariant 0 <= i <= |blocks|
      invariant kept == Kept(blocks[..i], McqParse(numOptions))
    {
      var parsed := ParseQuestion(blocks[i], numOptions);
      KeptStep(blocks, McqParse(numOptions), i);
      if parsed.Some? {
        kept := kept + [parsed.value];
      }
      i := i + 1;
    }
    assert blocks[..i] == blocks;
  }

  /**
   * `QuestionGenerator.generate_questions`. The prompt sent is
   * `get_mcq_generation_prompt(field, difficulty, num_questions, num_options, num_correct_answers)`.
   */
  method GenerateMcqQuestions(llm: Llm, field: string, difficulty: string, numQuestions: int, maxTokens: int,
                              numOptions: int, numCorrect: int)
    returns (questions: Result<seq<McqRecord>>)
    requires numOptions <= LabelLimit
    ensures questions == McqQuestions(llm, field, difficulty, numQuestions, maxTokens, numOptions, numCorrect)
  {
    var prompt := McqPromptAsWritten(field, difficulty, numQuestions, numOptions, numCorrect);
    var reply := CallLlm(llm, prompt, maxTokens);
    if reply.Err? || reply.value.None? {
      return Ok([]);
    }
    var blocks := Blocks(reply.value.value);
    if numOptions > MaxOptions {
      return Err(BadPattern);
    }
    var kept := ParseMcqBlocks(blocks, numOptions);
    return Ok(kept);
  }

  /** The empty text does not parse as a multiple-choice question. */
  lemma EmptyBlockNotMcq(n: int)
    requires n <= MaxOptions
    ensures ParseMcq("", n) == None
  {
    if ParseMcq("", n).Some? {
      ParsedNeedsMarkers("", n);
      assert false;
    }
  }

  /**
   * A failed call, a `None` content, and a blank reply all give `[]`; otherwise the result
   * is the in-order subsequence of the successful parses of the reply's blocks.
   */
  lemma McqReplyOutcome(reply: Result<Option<string>>, numOptions: int)
    requires numOptions <= MaxOptions
    ensures var r := McqFromReply(reply, numOptions);
      && r.Ok?
      && (Content(reply).None? ==> r.value == [])
      && (Content(reply).Some? && Strip(Content(reply).value) == "" ==> r.value == [])
      && (Content(reply).Some? ==>
            Picks(Blocks(Content(reply).value), McqParse(numOptions),
                  SuccessIndices(Blocks(Content(reply).value), McqParse(numOptions)), r.value))
  {
    if Content(reply).Some? {
      var content := Content(reply).value;
      KeptPicks(Blocks(content), McqParse(numOptions));
      if Strip(content) == "" {
        BlankReplyIsOneBlock(content);
        EmptyBlockNotMcq(numOptions);
        KeptStep([""], McqParse(numOptions), 0);
      }
    }
  }

  /** From 27 options on, any reply that reaches the parse loop raises the pattern error. */
  lemma McqReplyTooManyOptions(reply: Result<Option<string>>, numOptions: int)
    requires numOptions > MaxOptions
    ensures McqFromReply(reply, numOptions) == if Content(reply).None? then Ok([]) else Err(BadPattern)
  {
  }

  /** Every record the generator returns has the labelled, stripped shape of a parse. */
  lemma McqReplyShape(reply: Result<Option<string>>, numOptions: int, j: nat)
    requires numOptions <= MaxOptions
    requires var r := McqFromReply(reply, numOptions); r.Ok? && j < |r.value|
    ensures var q := McqFromReply(reply, numOptions).value[j];
      && Stripped(q.question)
      && |q.options| == OptionCount(numOptions)
      && (forall i :: 0 <= i < |q.options| ==> q.options[i].letter == Letter(i) && Stripped(q.options[i].text))
      && (forall i :: 0 <= i < |q.correctAnswer| ==> q.correctAnswer[i] != "")
  {
    var blocks := Blocks(Content(reply).value);
    KeptPicks(blocks, McqParse(numOptions));
    var i := SuccessIndices(blocks, McqParse(numOptions))[j];
    ParsedShape(blocks[i], numOptions);
  }

  // The binary generators.

  /** `BinaryQuestionGenerator`'s `QuestionConfig`. */
  datatype BinaryConfig = BinaryConfig(field: string, difficulty: string, numQuestions: int,
                                       questionType: string, maxTokens: int, subfield: Option<string>)

  /** The `QuestionConfig` with the defaults of its optional fields. */
  function DefaultBinaryConfig(field: string, difficulty: string, numQuestions: int): (c: BinaryConfig)
    ensures c.field == field && c.difficulty == difficulty && c.numQuestions == numQuestions
    ensures c.questionType == TrueFalseType && c.maxTokens == 2000 && c.subfield.None?
  {
    BinaryConfig(field, difficulty, numQuestions, TrueFalseType, 2000, None)
  }

  /** `f"question_type must be one of {VALID_TYPES}, got '{question_type}'"`. */
  function InvalidTypeMessage(questionType: string): string {
    "question_type must be one of ['true_false', 'yes_no'], got '" + questionType + "'"
  }

  /** The prompt for a valid question type. */
  function BinaryPromptFor(config: BinaryConfig): string {
    if config.questionType == TrueFalseType then
      TrueFalsePrompt(config.field, config.numQuestions, config.difficulty)
    else
      YesNoPrompt(config.field, config.numQuestions, config.difficulty)
  }

  /** `parse_question(choice, question_type)` as the block parser of the loop. */
  function BinaryParse(questionType: string): string -> Option<BinaryRecord> {
    t => ParseBinary(t, questionType)
  }

  /** What `BinaryQuestionGenerator.generate_questions` returns once the model's reply is in. */
  function BinaryFromReply(reply: Result<Option<string>>, questionType: string): seq<BinaryRecord> {
    match Content(reply)
    case None => []
    case Some(content) => Kept(Blocks(content), BinaryParse(questionType))
  }

  /** The value of `BinaryQuestionGenerator.generate_questions`, or what it raises. */
  function BinaryQuestions(llm: Llm, config: BinaryConfig): (r: Result<seq<BinaryRecord>>)
    ensures !ValidType(config.questionType) <==> r.Err?
    ensures r.Err? ==> r.error == ValueError(InvalidTypeMessage(config.questionType))
  {
    if !ValidType(config.questionType) then Err(ValueError(InvalidTypeMessage(config.questionType)))
    else Ok(BinaryFromReply(CallLlm(llm, BinaryPromptFor(config), config.maxTokens), config.questionType))
  }

  /**
   * `BinaryQuestionGenerator.generate_questions`. `prompts` lists the prompts handed to
   * the model: none when the type check raises, since it comes before the prompt.
   */
  method GenerateBinaryQuestions(llm: Llm, config: BinaryConfig)
    returns (questions: Result<seq<BinaryRecord>>, prompts: seq<string>)
    ensures questions == BinaryQuestions(llm, config)
    ensures prompts == if ValidType(config.questionType) then [BinaryPromptFor(config)] else []
  {
    if !ValidType(config.questionType) {
      return Err(ValueError(InvalidTypeMessage(config.questionType))), [];
    }
    var prompt := BinaryPromptFor(config);
    prompts := [prompt];
    var reply := CallLlm(llm, prompt, config.maxTokens);
    if reply.Err? || reply.value.None? {
      return Ok([]), prompts;
    }
    var blocks := Blocks(reply.value.value);
    var kept: seq<BinaryRecord> := [];
    var i := 0;
    while i < |blocks|
      invariant 0 <= i <= |blocks|
      invariant kept == Kept(blocks[..i], BinaryParse(config.questionType))
    {
      var parsed := ParseBinary(blocks[i], config.questionType);
      KeptStep(blocks, BinaryParse(config.questionType), i);
      if parsed.Some? {
        kept := kept + [parsed.value];
      }
      i := i + 1;
    }
    assert blocks[..i] == blocks;
    questions := Ok(kept);
  }

  /** The empty text does not parse as a binary question. */
  lemma EmptyBlockNotBinary(questionType: string)
    ensures ParseBinary("", questionType) == None
  {
    assert Find("", BinaryParser.QuestionMarker) == None;
  }

  /**
   * A failed call, a `None` content, and a blank reply all give `[]`; otherwise the
   * in-order subsequence of the successful parses of the reply's blocks.
   */
  lemma BinaryReplyOutcome(reply: Result<Option<string>>, questionType: string)
    ensures var r := BinaryFromReply(reply, questionType);
      && (Content(reply).None? ==> r == [])
      && (Content(reply).Some? && Strip(Content(reply).value) == "" ==> r == [])
      && (Content(reply).Some? ==>
            Picks(Blocks(Content(reply).value), BinaryParse(questionType),
                  SuccessIndices(Blocks(Content(reply).value), BinaryParse(questionType)), r))
  {
    if Content(reply).Some? {
      var content := Content(reply).value;
      KeptPicks(Blocks(content), BinaryParse(questionType));
      if Strip(content) == "" {
        BlankReplyIsOneBlock(content);
        EmptyBlockNotBinary(questionType);
        KeptStep([""], BinaryParse(questionType), 0);
      }
    }
  }

  /** Every record the binary generator returns has stripped fields and an answer of its type's vocabulary. */
  lemma BinaryReplyShape(reply: Result<Option<string>>, questionType: string, j: nat)
    requires j < |BinaryFromReply(reply, questionType)|
    ensures var q := BinaryFromReply(reply, questionType)[j];
      && (questionType == TrueFalseType ==> q.correctAnswer == "True" || q.correctAnswer == "False")
      && (questionType == YesNoType ==> q.correctAnswer == "Yes" || q.correctAnswer == "No")
      && Stripped(q.question) && Stripped(q.explanation)
  {
    var blocks := Blocks(Content(reply).value);
    KeptPicks(blocks, BinaryParse(questionType));
    var i := SuccessIndices(blocks, BinaryParse(questionType))[j];
    ParsedBinaryShape(blocks[i], questionType);
  }

  /** `TrueFalseQuestionGenerator.parse_question(choice)` as the block parser of the loop. */
  function TrueFalseParse(): string -> Option<BinaryRecord> {
    t => ParseTrueFalse(t)
  }

  /** What `TrueFalseQuestionGenerator.generate_questions` returns once the model's reply is in. */
  function TrueFalseFromReply(reply: Result<Option<string>>): seq<BinaryRecord> {
    match Content(reply)
    case None => []
    case Some(content) => Kept(Blocks(content), TrueFalseParse())
  }

  /** `TrueFalseQuestionGenerator.generate_questions`, appending each parsed block as the source does. */
  method GenerateTrueFalseQuestions(llm: Llm, field: string, difficulty: string, numQuestions: int, maxTokens: int)
    returns (questions: seq<BinaryRecord>)
    ensures questions == TrueFalseFromReply(CallLlm(llm, TrueFalsePrompt(field, numQuestions, difficulty), maxTokens))
  {
    var reply := CallLlm(llm, TrueFalsePrompt(field, numQuestions, difficulty), maxTokens);
    if reply.Err? || reply.value.None? {
      return [];
    }
    var blocks := Blocks(reply.value.value);
    questions := [];
    var i := 0;
    while i < |blocks|
      invariant 0 <= i <= |blocks|
      invariant questions == Kept(blocks[..i], TrueFalseParse())
    {
      var parsed := ParseTrueFalse(blocks[i]);
      KeptStep(blocks, TrueFalseParse(), i);
      if parsed.Some? {
        questions := questions + [parsed.value];
      }
      i := i + 1;
    }
    assert blocks[..i] == blocks;
  }

  /** On any reply, the True/False loop keeps what the binary loop keeps for the type "true_false". */
  lemma TrueFalseReplyMatchesBinary(reply: Result<Option<string>>)
    ensures TrueFalseFromReply(reply) == BinaryFromReply(reply, TrueFalseType)
  {
    if Content(reply).Some? {
      var blocks := Blocks(Content(reply).value);
      forall i | 0 <= i < |blocks|
        ensures TrueFalseParse()(blocks[i]) == BinaryParse(TrueFalseType)(blocks[i])
      {
        TrueFalseAgrees(blocks[i]);
      }
      KeptCongruent(blocks, TrueFalseParse(), BinaryParse(TrueFalseType));
    }
  }

  /**
   * The True/False generator returns what the binary generator returns for the type
   * "true_false", given the same model, field, difficulty, count and token limit.
   */
  lemma TrueFalseMatchesBinary(llm: Llm, field: string, difficulty: string, numQuestions: int, maxTokens: int)
    ensures var config := BinaryConfig(field, difficulty, numQuestions, TrueFalseType, maxTokens, None);
      BinaryQuestions(llm, config)
        == Ok(TrueFalseFromReply(CallLlm(llm, TrueFalsePrompt(field, numQuestions, difficulty), maxTokens)))
  {
    TrueFalseReplyMatchesBinary(CallLlm(llm, TrueFalsePrompt(field, numQuestions, difficulty), maxTokens));
  }
}

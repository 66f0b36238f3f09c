/**
 * The textual layout of one multiple-choice question, as the generation prompt spells it
 * out: a "Question:" line, one line per option "L. text" joined by a separator, and a
 * "Correct Answer:" line.
 */
module McqLayout {
  import opened McqParser

  /** One option line, `f"{letter}. {text}"`. */
  function OptionLine(c: char, text: string): string {
    Label(c) + " " + text
  }

  /** The option lines for labels `i`, `i + 1`, ..., joined by `sep` (`sep.join(...)`). */
  function OptionLines(texts: seq<string>, i: nat, sep: string): string
    requires i + |texts| <= LabelLimit
    decreases |texts|
  {
    if texts == [] then ""
    else if |texts| == 1 then OptionLine(Letter(i), texts[0])
    else OptionLine(Letter(i), texts[0]) + sep + OptionLines(texts[1..], i + 1, sep)
  }

  /** A whole question block in the layout, its option lines joined by `sep`. */
  function McqBlock(question: string, texts: seq<string>, answer: string, sep: string): string
    requires |texts| <= LabelLimit
  {
    QuestionMarker + " " + question + "\n" + OptionLines(texts, 0, sep) + "\n" + AnswerMarker + " " + answer
  }
}

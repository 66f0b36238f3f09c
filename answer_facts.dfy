/**
 * Properties of the answer normaliser on the answers a prompt asks for: single
 * capital letters joined by ", " come back unchanged, and the answer strings the
 * repository's tests use normalise as those tests expect.
 */
module AnswerFacts {
  import opened Text
  import opened Answers

  /** A single upper-case ASCII letter, the form option labels take. */
  predicate IsLetterLabel(x: string) {
    |x| == 1 && 'A' <= x[0] <= 'Z'
  }

  predicate AllLetterLabels(labels: seq<string>) {
    forall i :: 0 <= i < |labels| ==> IsLetterLabel(labels[i])
  }

  lemma LetterLabelFixed(x: string)
    requires IsLetterLabel(x)
    ensures Strip(x) == x && Upper(x) == x && SeparatorLen(x) == 0
  {
    assert !IsSpace(x[0]);
    assert SpaceRun(x) == 0;
    assert LStrip(x) == x[0..] == x;
    assert RStrip(x) == x;
    assert Upper(x)[0] == x[0];
  }

  lemma {:induction false} LabelsOfLetters(labels: seq<string>)
    requires AllLetterLabels(labels)
    ensures Labels(labels) == labels
  {
    if labels != [] {
      var x := labels[0];
      assert IsLetterLabel(x);
      LetterLabelFixed(x);
      assert AllLetterLabels(labels[1..]) by {
        forall i | 0 <= i < |labels| - 1 ensures IsLetterLabel(labels[1..][i]) {
          assert labels[1..][i] == labels[i + 1];
        }
      }
      LabelsOfLetters(labels[1..]);
      assert Labels(labels) == [x] + Labels(labels[1..]);
      assert labels == [x] + labels[1..];
    }
  }

  lemma AllLetterLabelsTail(labels: seq<string>)
    requires |labels| >= 1 && AllLetterLabels(labels)
    ensures IsLetterLabel(labels[0]) && AllLetterLabels(labels[1..])
  {
    forall i | 0 <= i < |labels| - 1 ensures IsLetterLabel(labels[1..][i]) {
      assert labels[1..][i] == labels[i + 1];
    }
  }

  /** The ", "-joined list of letters is non-empty, starts with a letter and ends with one. */
  lemma {:induction false} JoinedLettersShape(labels: seq<string>)
    requires |labels| >= 1 && AllLetterLabels(labels)
    ensures var y := Join(labels, ", "); y != [] && 'A' <= y[0] <= 'Z' && 'A' <= y[|y| - 1] <= 'Z'
    decreases |labels|
  {
    AllLetterLabelsTail(labels);
    if |labels| > 1 {
      JoinCons(labels[0], labels[1..], ", ");
      JoinedLettersShape(labels[1..]);
    }
  }

  lemma {:induction false} FragmentsOfCommaList(labels: seq<string>)
    requires |labels| >= 1 && AllLetterLabels(labels)
    ensures Fragments(Join(labels, ", "), "") == labels
    decreases |labels|
  {
    AllLetterLabelsTail(labels);
    var x := labels[0];
    LetterLabelFixed(x);
    var c := x[0];
    assert x == [c];
    if |labels| == 1 {
      assert Join(labels, ", ") == x;
      assert x[1..] == [] && "" + [c] == x;
      assert Fragments(x, "") == Fragments([], x);
    } else {
      var rest := labels[1..];
      var y := Join(rest, ", ");
      var s := Join(labels, ", ");
      JoinCons(x, rest, ", ");
      assert labels == [x] + rest;
      assert s == [c] + (", " + y);
      JoinedLettersShape(rest);
      assert SpaceRun(s) == 0;
      assert SeparatorLen(s) == 0;
      assert s[1..] == ", " + y;
      assert "" + [c] == x;
      assert Fragments(s, "") == Fragments(", " + y, x);
      var t := ", " + y;
      assert t[1..] == " " + y;
      assert SpaceRun(y) == 0;
      assert SpaceRun(" " + y) == 1 by { assert (" " + y)[1..] == y; }
      assert SeparatorLen(t) == 2;
      assert t[2..] == y;
      FragmentsOfCommaList(rest);
      assert Fragments(t, x) == [x] + Fragments(y, "");
    }
  }

  /** A stripped answer whose length is none of the four spellings' is no sentinel. */
  lemma OtherLengthNotSentinel(s: string)
    requires Strip(s) == s
    requires |s| != 12 && |s| != 13 && |s| != 16 && |s| != 17
    ensures !IsAllSentinel(s) && !IsNoneSentinel(s)
  {
  }

  /** A stripped answer with a comma second is no sentinel. */
  lemma CommaSecondNotSentinel(s: string)
    requires Strip(s) == s
    requires |s| >= 2 && s[1] == ','
    ensures !IsAllSentinel(s) && !IsNoneSentinel(s)
  {
    assert LowerChar(s[1]) == ',';
    var a1, a2, n1, n2 := "all of the above", "all of above", "none of the above", "none of above";
    assert a1[1] == 'l' && a2[1] == 'l' && n1[1] == 'o' && n2[1] == 'o';
    assert !EqualsIgnoringCase(s, a1) && !EqualsIgnoringCase(s, a2);
    assert !EqualsIgnoringCase(s, n1) && !EqualsIgnoringCase(s, n2);
  }

  /** One letter on its own is too short to be a sentinel. */
  lemma OneLetterNotSentinel(labels: seq<string>)
    requires |labels| == 1 && AllLetterLabels(labels)
    ensures var s := Join(labels, ", "); !IsAllSentinel(s) && !IsNoneSentinel(s)
  {
    AllLetterLabelsTail(labels);
    assert Join(labels, ", ") == labels[0];
    OtherLengthNotSentinel(labels[0]);
  }

  /** Several letters joined have a comma second, which no sentinel has. */
  lemma LettersNotSentinel(labels: seq<string>)
    requires |labels| >= 2 && AllLetterLabels(labels)
    ensures var s := Join(labels, ", "); !IsAllSentinel(s) && !IsNoneSentinel(s)
  {
    var s := Join(labels, ", ");
    JoinedLettersShape(labels);
    JoinCons(labels[0], labels[1..], ", ");
    assert s[1] == ',';
    StrippedIsFixed(s);
    CommaSecondNotSentinel(s);
  }

  /** A joined list of letters is stripped and no sentinel. */
  lemma JoinedLettersNotSentinel(labels: seq<string>)
    requires |labels| >= 1 && AllLetterLabels(labels)
    ensures var s := Join(labels, ", "); Strip(s) == s && !IsAllSentinel(s) && !IsNoneSentinel(s)
  {
    var s := Join(labels, ", ");
    JoinedLettersShape(labels);
    StrippedIsFixed(s);
    if |labels| == 1 {
      OneLetterNotSentinel(labels);
    } else {
      LettersNotSentinel(labels);
    }
  }

  /**
   * Round trip: labels written as `"A, C, D"` (single capital letters joined by
   * ", ") normalise back to the same labels in the same order.
   */
  lemma CommaListRoundTrip(labels: seq<string>)
    requires |labels| >= 1 && AllLetterLabels(labels)
    ensures NormalizeAnswers(Join(labels, ", ")) == labels
  {
    var s := Join(labels, ", ");
    JoinedLettersNotSentinel(labels);
    NormalizedLabels(s);
    FragmentsOfCommaList(labels);
    LabelsOfLetters(labels);
  }

  /** `" and "` before a letter is one separator match of length five. */
  lemma AndSeparator(y: string)
    requires IsLetterLabel(y)
    ensures SeparatorLen(" and " + y) == 5
  {
    var t := " and " + y;
    var u := t[4..];
    assert u == [' ', y[0]];
    assert SpaceRun(t) == 1;
    assert t[1..][..3] == "and";
    assert SpaceRun(u) == 1;
  }

  /** The scanner splits `x and y` at the word "and" with its surrounding spaces. */
  lemma AndPairFragments(x: string, y: string)
    requires IsLetterLabel(x) && IsLetterLabel(y)
    ensures Fragments(x + " and " + y, "") == [x, y]
  {
    var s := x + " and " + y;
    var t := " and " + y;
    assert s[1..] == t;
    assert SeparatorLen(s) == 0;
    assert Fragments(s, "") == Fragments(t, x) by {
      assert "" + [s[0]] == x;
    }
    AndSeparator(y);
    assert t[5..] == y;
    assert Fragments(y, "") == [y] by {
      assert "" + [y[0]] == y;
    }
  }

  lemma AndPairStripped(x: string, y: string)
    requires IsLetterLabel(x) && IsLetterLabel(y)
    ensures Strip(x + " and " + y) == x + " and " + y
  {
    var s := x + " and " + y;
    assert Stripped(s);
    StrippedIsFixed(s);
  }

  /** Two labels joined by " and " normalise to the pair, in order. */
  lemma AndPairRoundTrip(x: string, y: string)
    requires IsLetterLabel(x) && IsLetterLabel(y)
    ensures NormalizeAnswers(x + " and " + y) == [x, y]
  {
    var s := x + " and " + y;
    AndPairStripped(x, y);
    assert |s| == 7;
    OtherLengthNotSentinel(s);
    NormalizedLabels(s);
    AndPairFragments(x, y);
    assert AllLetterLabels([x, y]);
    LabelsOfLetters([x, y]);
  }

  /** Test-pinned: a single label. */
  lemma SingleLabelExample()
    ensures NormalizeAnswers("A") == ["A"]
  {
    CommaListRoundTrip(["A"]);
  }

  /** Test-pinned: a comma list. */
  lemma CommaLabelExample()
    ensures NormalizeAnswers("A, B, C") == ["A", "B", "C"]
  {
    var labels := ["A", "B", "C"];
    assert labels[1..] == ["B", "C"] && labels[1..][1..] == ["C"];
    assert Join(["B", "C"], ", ") == "B, C";
    assert Join(labels, ", ") == "A, B, C";
    CommaListRoundTrip(labels);
  }

  /** Test-pinned: a comma list naming more labels than the requested count. */
  lemma LongerCommaLabelExample()
    ensures NormalizeAnswers("A, B, D") == ["A", "B", "D"]
  {
    var labels := ["A", "B", "D"];
    assert labels[1..] == ["B", "D"] && labels[1..][1..] == ["D"];
    assert Join(["B", "D"], ", ") == "B, D";
    assert Join(labels, ", ") == "A, B, D";
    CommaListRoundTrip(labels);
  }

  lemma AndLabelLayout()
    ensures "A" + " and " + "B" == "A and B"
  {
  }

  /** Test-pinned: labels joined by "and". */
  lemma AndLabelExample()
    ensures NormalizeAnswers("A and B") == ["A", "B"]
  {
    AndLabelLayout();
    AndPairRoundTrip("A", "B");
  }

  /** ", " before text that starts solid is one greedy match of length 2. */
  lemma CommaGap(rest: string)
    requires StartsSolid(rest)
    ensures SeparatorLen(", " + rest) == 2
  {
    var c := ", " + rest;
    assert c[1..] == " " + rest;
    assert (" " + rest)[1..] == rest;
    assert SpaceRun(rest) == 0;
    assert SpaceRun(" " + rest) == 1;
  }

  lemma LetterCommaLayout(x: string, rest: string)
    requires |x| == 1
    ensures (x + (", " + rest))[0] == x[0]
    ensures (x + (", " + rest))[1..] == ", " + rest
    ensures (x + (", " + rest))[3..] == rest
    ensures (x + (", " + rest))[..1] == x
  {
  }

  /** After a single letter, ", " is the first match, so the letter is a fragment of its own. */
  lemma LetterCommaCut(x: string, rest: string)
    requires IsLetterLabel(x) && StartsSolid(rest)
    ensures SplitAnswer(x + (", " + rest)) == [x] + SplitAnswer(rest)
  {
    var s := x + (", " + rest);
    LetterCommaLayout(x, rest);
    assert !CutAt(s, 0) by {
      assert s[0..] == s;
      assert !IsSpace(s[0]) && s[0] != ',';
    }
    CommaGap(rest);
    SplitAnswerLeftmost(s, 1);
  }

  /** No separator match starts in "and " followed by a letter: the blank is not followed by "and". */
  lemma AndWordNoCut(z: string)
    requires IsLetterLabel(z)
    ensures SplitAnswer("and " + z) == ["and " + z]
  {
    var r := "and " + z;
    forall i | 0 <= i < |r|
      ensures !CutAt(r, i)
    {
      if i == 3 {
        assert r[3..][1..] == z;
        assert SpaceRun(z) == 0;
        assert !StartsWith(z, "and");
      } else {
        assert r[i..][0] == r[i];
        assert !IsSpace(r[i]) && r[i] != ',';
      }
    }
    SplitAnswerNoCut(r);
  }

  lemma AndWordStripped(z: string)
    requires IsLetterLabel(z)
    ensures Strip("and " + z) == "and " + z
  {
    var f := "and " + z;
    assert !IsSpace(f[0]) && !IsSpace(f[|f| - 1]);
    StrippedIsFixed(f);
  }

  lemma UpperConcat(a: string, b: string)
    ensures Upper(a + b) == Upper(a) + Upper(b)
  {
    var u, v := Upper(a + b), Upper(a) + Upper(b);
    assert forall i :: 0 <= i < |u| ==> u[i] == v[i] by {
      forall i | 0 <= i < |u|
        ensures u[i] == v[i]
      {
        if i < |a| {
          assert (a + b)[i] == a[i];
        } else {
          assert (a + b)[i] == b[i - |a|];
        }
      }
    }
  }

  lemma UpperAnd()
    ensures Upper("and ") == "AND "
  {
    var u := Upper("and ");
    assert u[0] == 'A' && u[1] == 'N' && u[2] == 'D' && u[3] == ' ';
  }

  lemma AndWordUpper(z: string)
    requires IsLetterLabel(z)
    ensures Upper("and " + z) == "AND " + z
  {
    UpperConcat("and ", z);
    LetterLabelFixed(z);
    UpperAnd();
  }

  /** "and " followed by an upper-case letter is stripped and upper-cases to "AND " and the letter. */
  lemma AndWordLabel(z: string)
    requires IsLetterLabel(z)
    ensures Labels(["and " + z]) == ["AND " + z]
  {
    AndWordStripped(z);
    AndWordUpper(z);
    LabelsSingle("and " + z);
  }

  /**
   * An Oxford comma, "X, Y, and Z": `re.split` cuts at ", " before it can see blanks in
   * front of "and", so "and Z" stays one fragment.
   */
  lemma OxfordCommaSplit(x: string, y: string, z: string)
    requires IsLetterLabel(x) && IsLetterLabel(y) && IsLetterLabel(z)
    ensures SplitAnswer(x + (", " + (y + (", " + ("and " + z))))) == [x, y, "and " + z]
  {
    var tail := y + (", " + ("and " + z));
    assert StartsSolid("and " + z) by { assert ("and " + z)[0] == 'a'; }
    assert StartsSolid(tail) by { assert tail[0] == y[0]; }
    LetterCommaCut(y, "and " + z);
    LetterCommaCut(x, tail);
    AndWordNoCut(z);
    assert [x] + ([y] + ["and " + z]) == [x, y, "and " + z];
  }

  lemma ThreeLayout(x: string, y: string, f: string)
    ensures [x, y] + [f] == [x, y, f]
  {
  }

  lemma LetterPairLabels(x: string, y: string)
    requires IsLetterLabel(x) && IsLetterLabel(y)
    ensures Labels([x, y]) == [x, y]
  {
    assert AllLetterLabels([x, y]);
    LabelsOfLetters([x, y]);
  }

  /** The Oxford-comma fragments label as the two letters and "AND Z". */
  lemma OxfordCommaLabels(x: string, y: string, z: string)
    requires IsLetterLabel(x) && IsLetterLabel(y) && IsLetterLabel(z)
    ensures Labels([x, y, "and " + z]) == [x, y, "AND " + z]
  {
    LabelsAppend([x, y], ["and " + z]);
    ThreeLayout(x, y, "and " + z);
    LetterPairLabels(x, y);
    AndWordLabel(z);
    ThreeLayout(x, y, "AND " + z);
  }

  lemma OxfordLayout()
    ensures "A" + (", " + ("B" + (", " + ("and " + "C")))) == "A, B, and C"
    ensures "and " + "C" == "and C" && "AND " + "C" == "AND C"
  {
  }

  /** "A, B, and C" is stripped and, at eleven characters, spells no sentinel. */
  lemma OxfordNotSentinel()
    ensures Strip("A, B, and C") == "A, B, and C"
    ensures !IsAllSentinel("A, B, and C") && !IsNoneSentinel("A, B, and C")
  {
    var s := "A, B, and C";
    assert !IsSpace(s[0]) && !IsSpace(s[|s| - 1]);
    StrippedIsFixed(s);
    OtherLengthNotSentinel(s);
  }

  /** "A, B, and C" normalises to ["A", "B", "AND C"], not to three letters. */
  lemma OxfordCommaExample()
    ensures SplitAnswer("A, B, and C") == ["A", "B", "and C"]
    ensures NormalizeAnswers("A, B, and C") == ["A", "B", "AND C"]
  {
    OxfordLayout();
    OxfordCommaSplit("A", "B", "C");
    OxfordCommaLabels("A", "B", "C");
    OxfordNotSentinel();
    NormalizedLabels("A, B, and C");
  }

  /** A stripped spelling of the "all" sentinel, in any case. */
  lemma AllSpelling(s: string)
    requires Stripped(s) && EqualsIgnoringCase(s, "all of the above")
    ensures NormalizeAnswers(s) == [AllOfTheAbove]
  {
    StrippedIsFixed(s);
  }

  /** A stripped spelling of the "none" sentinel, in any case. */
  lemma NoneSpelling(s: string)
    requires Stripped(s)
    requires EqualsIgnoringCase(s, "none of the above") || EqualsIgnoringCase(s, "none of above")
    ensures NormalizeAnswers(s) == [NoneOfTheAbove]
  {
    StrippedIsFixed(s);
  }

  /** Test-pinned: the "all" sentinel as written in the prompt. */
  lemma AllSentinelExample()
    ensures NormalizeAnswers("All of the Above") == [AllOfTheAbove]
  {
    AllSpelling("All of the Above");
  }

  /** Test-pinned: the "all" sentinel in lower case. */
  lemma LowerAllSentinelExample()
    ensures NormalizeAnswers("all of the above") == [AllOfTheAbove]
  {
    AllSpelling("all of the above");
  }

  /** Test-pinned: the "none" sentinel as written in the prompt. */
  lemma NoneSentinelExample()
    ensures NormalizeAnswers("None of the Above") == [NoneOfTheAbove]
  {
    NoneSpelling("None of the Above");
  }

  /** Test-pinned: the "none" sentinel in upper case. */
  lemma UpperNoneSentinelExample()
    ensures NormalizeAnswers("NONE OF THE ABOVE") == [NoneOfTheAbove]
  {
    NoneSpelling("NONE OF THE ABOVE");
  }

  /** The shorter spelling "none of above" is accepted too. */
  lemma ShortNoneExample()
    ensures NormalizeAnswers("NONE OF ABOVE") == [NoneOfTheAbove]
  {
    NoneSpelling("NONE OF ABOVE");
  }

  /** No element of a normalised answer list is empty: sentinels are non-empty and empty fragments are dropped. */
  lemma NormalizedNonEmpty(answer: string)
    ensures forall i :: 0 <= i < |NormalizeAnswers(answer)| ==> NormalizeAnswers(answer)[i] != ""
  {
    if !IsAllSentinel(answer) && !IsNoneSentinel(answer) {
      NormalizedLabels(answer);
    }
  }
}

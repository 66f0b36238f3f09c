/**
 * The answer normaliser `QuestionGenerator._parse_correct_answers`: the text of a
 * "Correct Answer:" line becomes either one of two sentinels or the ordered list of
 * labels it names, split on `\s+and\s+|,\s*`, trimmed and upper-cased.
 */
module Answers {
  import opened Text

  const AllOfTheAbove: string := "All of the Above"
  const NoneOfTheAbove: string := "None of the Above"

  /** The stripped input, ignoring case, spells the "all" sentinel. */
  predicate IsAllSentinel(s: string) {
    var t := Strip(s);
    EqualsIgnoringCase(t, "all of the above") || EqualsIgnoringCase(t, "all of above")
  }

  /** The stripped input, ignoring case, spells the "none" sentinel. */
  predicate IsNoneSentinel(s: string) {
    var t := Strip(s);
    EqualsIgnoringCase(t, "none of the above") || EqualsIgnoringCase(t, "none of above")
  }

  /**
   * The length of the match of `\s+and\s+|,\s*` at the start of `s`, or 0 when
   * neither alternative matches there. Both quantifiers are greedy, and since the
   * two alternatives start with disjoint characters their order does not matter.
   */
  function SeparatorLen(s: string): (m: nat)
    ensures m <= |s|
    ensures s != [] && s[0] == ',' ==> m >= 1
    ensures m > 0 ==> s[0] == ',' || IsSpace(s[0])
    ensures m > 0 ==> m == |s| || !IsSpace(s[m])
  {
    if s == [] then 0
    else if s[0] == ',' then 1 + SpaceRun(s[1..])
    else
      var w := SpaceRun(s);
      if w > 0 && StartsWith(s[w..], "and") then
        var w2 := SpaceRun(s[w + 3..]);
        if w2 > 0 then w + 3 + w2 else 0
      else 0
  }

  /**
   * `re.split` scanning `s` left to right with `cur` the text of the fragment read so
   * far: a separator at the front closes the fragment, any other character extends it.
   */
  function Fragments(s: string, cur: string): (r: seq<string>)
    decreases |s|
    ensures |r| >= 1
    ensures NoComma(cur) ==> forall i :: 0 <= i < |r| ==> NoComma(r[i])
  {
    if s == [] then [cur]
    else
      var m := SeparatorLen(s);
      if m > 0 then [cur] + Fragments(s[m..], "")
      else Fragments(s[1..], cur + [s[0]])
  }

  /** No comma anywhere in `s`. */
  predicate NoComma(s: string) {
    forall i :: 0 <= i < |s| ==> s[i] != ','
  }

  /** `re.split(r"\s+and\s+|,\s*", s)`. */
  function SplitAnswer(s: string): (r: seq<string>)
    ensures |r| >= 1
    ensures forall i :: 0 <= i < |r| ==> NoComma(r[i])
  {
    Fragments(s, "")
  }

  /** The strings `\s+and\s+|,\s*` matches in full. */
  predicate IsSeparator(x: string) {
    || (x != [] && x[0] == ',' && forall i :: 1 <= i < |x| ==> IsSpace(x[i]))
    || (var w := SpaceRun(x);
        w > 0 && w + 3 < |x| && x[w..w + 3] == "and" && forall i :: w + 3 <= i < |x| ==> IsSpace(x[i]))
  }

  /** No separator match starts anywhere inside `f`. */
  predicate NoSeparator(f: string) {
    forall j :: 0 <= j < |f| ==> SeparatorLen(f[j..]) == 0
  }

  /** The separators `re.split` cuts `s` at, left to right, in step with `Fragments`. */
  function Separators(s: string): seq<string>
    decreases |s|
  {
    if s == [] then []
    else
      var m := SeparatorLen(s);
      if m > 0 then [s[..m]] + Separators(s[m..]) else Separators(s[1..])
  }

  /** The fragments with the separators put back between them. */
  function Interleave(frags: seq<string>, seps: seq<string>): string
    requires |frags| == |seps| + 1
    decreases |seps|
  {
    if seps == [] then frags[0] else frags[0] + seps[0] + Interleave(frags[1..], seps[1..])
  }

  /** A separator match at the front of `x` is still one, however `x` goes on. */
  lemma SeparatorLenExtend(x: string, y: string)
    requires SeparatorLen(x) > 0
    ensures SeparatorLen(x + y) > 0
  {
    var xy := x + y;
    assert xy[0] == x[0];
    if x[0] != ',' {
      var w := SpaceRun(x);
      SpaceRunExtend(x, y);
      assert x[w..][..3] == "and";
      assert xy[w..][..3] == x[w..][..3];
      var w2 := SpaceRun(x[w + 3..]);
      assert w2 > 0;
      assert xy[w + 3..][0] == x[w + 3..][0];
    }
  }

  /** The prefix a separator match covers is a separator. */
  lemma SeparatorIsMatch(s: string)
    requires SeparatorLen(s) > 0
    ensures IsSeparator(s[..SeparatorLen(s)])
  {
    var m := SeparatorLen(s);
    var x := s[..m];
    if s[0] == ',' {
      assert forall i :: 1 <= i < m ==> x[i] == s[1..][i - 1];
    } else {
      var w := SpaceRun(s);
      var w2 := SpaceRun(s[w + 3..]);
      assert m == w + 3 + w2;
      assert forall i :: 0 <= i < w ==> x[i] == s[i];
      assert x[w] == s[w..][0] == 'a';
      assert SpaceRun(x) == w;
      assert x[w..w + 3] == s[w..][..3];
      assert forall i :: w + 3 <= i < m ==> x[i] == s[w + 3..][i - (w + 3)];
    }
  }

  /** Moving a character from the text into the fragment read so far keeps the rejoined text. */
  lemma InterleaveShift(s: string, cur: string, frags: seq<string>, seps: seq<string>)
    requires s != [] && |frags| == |seps| + 1
    requires Interleave(frags, seps) == cur + [s[0]] + s[1..]
    ensures Interleave(frags, seps) == cur + s
  {
    assert cur + [s[0]] + s[1..] == cur + s;
  }

  /** A cut after `cur` at a separator of length `m` puts `cur` and the separator in front. */
  lemma InterleaveCut(s: string, cur: string, m: nat, frags: seq<string>, seps: seq<string>)
    requires m <= |s| && |frags| == |seps| + 1
    requires Interleave(frags, seps) == s[m..]
    ensures Interleave([cur] + frags, [s[..m]] + seps) == cur + s
  {
    var all, cuts := [cur] + frags, [s[..m]] + seps;
    assert all[1..] == frags && cuts[1..] == seps;
    assert s == s[..m] + s[m..];
  }

  /**
   * The fragments, with the cut separators between them, give back the text read:
   * `re.split` loses nothing and adds nothing.
   */
  lemma {:induction false} FragmentsRejoin(s: string, cur: string)
    ensures |Fragments(s, cur)| == |Separators(s)| + 1
    ensures Interleave(Fragments(s, cur), Separators(s)) == cur + s
    decreases |s|
  {
    if s != [] {
      var m := SeparatorLen(s);
      if m > 0 {
        var rest := s[m..];
        FragmentsRejoin(rest, "");
        assert Fragments(s, cur) == [cur] + Fragments(rest, "");
        assert Separators(s) == [s[..m]] + Separators(rest);
        InterleaveCut(s, cur, m, Fragments(rest, ""), Separators(rest));
      } else {
        var next := cur + [s[0]];
        FragmentsRejoin(s[1..], next);
        assert Fragments(s, cur) == Fragments(s[1..], next);
        assert Separators(s) == Separators(s[1..]);
        InterleaveShift(s, cur, Fragments(s, cur), Separators(s));
      }
    }
  }

  /** Every cut is made at a separator match, and the match is as long as it can be. */
  lemma {:induction false} SeparatorsMatch(s: string)
    ensures forall i :: 0 <= i < |Separators(s)| ==> IsSeparator(Separators(s)[i])
    decreases |s|
  {
    if s != [] {
      var m := SeparatorLen(s);
      if m > 0 {
        SeparatorIsMatch(s);
        SeparatorsMatch(s[m..]);
        assert Separators(s) == [s[..m]] + Separators(s[m..]);
      } else {
        SeparatorsMatch(s[1..]);
      }
    }
  }

  /**
   * No fragment holds a separator match, given that none starts inside the fragment read so
   * far (the text still to come counts, since a match may run on into it).
   */
  lemma {:induction false} FragmentsAvoidSeparators(s: string, cur: string)
    requires forall j :: 0 <= j < |cur| ==> SeparatorLen(cur[j..] + s) == 0
    ensures forall i :: 0 <= i < |Fragments(s, cur)| ==> NoSeparator(Fragments(s, cur)[i])
    decreases |s|
  {
    if s == [] {
      assert forall j :: 0 <= j < |cur| ==> cur[j..] + s == cur[j..];
    } else {
      var m := SeparatorLen(s);
      if m > 0 {
        forall j | 0 <= j < |cur|
          ensures SeparatorLen(cur[j..]) == 0
        {
          if SeparatorLen(cur[j..]) > 0 {
            SeparatorLenExtend(cur[j..], s);
          }
        }
        FragmentsAvoidSeparators(s[m..], "");
        assert Fragments(s, cur) == [cur] + Fragments(s[m..], "");
      } else {
        var next := cur + [s[0]];
        forall j | 0 <= j < |next|
          ensures SeparatorLen(next[j..] + s[1..]) == 0
        {
          if j < |cur| {
            assert next[j..] + s[1..] == cur[j..] + s;
          } else {
            assert next[j..] + s[1..] == s;
          }
        }
        FragmentsAvoidSeparators(s[1..], next);
      }
    }
  }

  /** The fragment read so far is the start of the first fragment. */
  lemma {:induction false} FirstFragmentStarts(s: string, cur: string)
    ensures StartsWith(Fragments(s, cur)[0], cur)
    decreases |s|
  {
    if s != [] && SeparatorLen(s) == 0 {
      FirstFragmentStarts(s[1..], cur + [s[0]]);
      assert (cur + [s[0]])[..|cur|] == cur;
    }
  }

  /** `f` is empty or starts with a character that is not whitespace. */
  predicate StartsSolid(f: string) {
    f == [] || !IsSpace(f[0])
  }

  /** A fragment begun where no whitespace stands starts solid. */
  lemma FreshFragmentSolid(t: string)
    requires StartsSolid(t)
    ensures StartsSolid(Fragments(t, "")[0])
  {
    if t != [] && SeparatorLen(t) == 0 {
      assert "" + [t[0]] == [t[0]];
      assert Fragments(t, "") == Fragments(t[1..], [t[0]]);
      FirstFragmentStarts(t[1..], [t[0]]);
    }
  }

  lemma SolidAfterCons(cur: string, frags: seq<string>)
    requires frags != [] && StartsSolid(frags[0])
    requires forall i :: 1 <= i < |frags| ==> StartsSolid(frags[i])
    ensures forall i :: 1 <= i < |[cur] + frags| ==> StartsSolid(([cur] + frags)[i])
  {
    forall i | 1 <= i < |[cur] + frags|
      ensures StartsSolid(([cur] + frags)[i])
    {
      assert ([cur] + frags)[i] == frags[i - 1];
    }
  }

  /** Since separator matches are greedy, no fragment after a cut starts with whitespace. */
  lemma {:induction false} FragmentsAfterCutsStartSolid(s: string, cur: string)
    ensures forall i :: 1 <= i < |Fragments(s, cur)| ==> StartsSolid(Fragments(s, cur)[i])
    decreases |s|
  {
    if s != [] {
      var m := SeparatorLen(s);
      if m > 0 {
        var rest := s[m..];
        FragmentsAfterCutsStartSolid(rest, "");
        FreshFragmentSolid(rest);
        var frags := Fragments(rest, "");
        SolidAfterCons(cur, frags);
        assert Fragments(s, cur) == [cur] + frags;
      } else {
        FragmentsAfterCutsStartSolid(s[1..], cur + [s[0]]);
      }
    }
  }

  /**
   * The pieces of `re.split(r"\s+and\s+|,\s*", s)`: the fragments and the matched separators
   * alternate to rebuild `s`, every separator is a whole greedy match of the pattern, and
   * no match starts inside a fragment. Where the cuts fall is fixed by `SplitAnswerLeftmost`
   * and `SplitAnswerNoCut` below.
   */
  lemma SplitAnswerRejoin(s: string)
    ensures |SplitAnswer(s)| == |Separators(s)| + 1
    ensures Interleave(SplitAnswer(s), Separators(s)) == s
    ensures forall i :: 0 <= i < |Separators(s)| ==> IsSeparator(Separators(s)[i])
    ensures forall i :: 0 <= i < |SplitAnswer(s)| ==> NoSeparator(SplitAnswer(s)[i])
    ensures forall i :: 1 <= i < |SplitAnswer(s)| ==> StartsSolid(SplitAnswer(s)[i])
  {
    FragmentsRejoin(s, "");
    assert "" + s == s;
    SeparatorsMatch(s);
    FragmentsAvoidSeparators(s, "");
    FragmentsAfterCutsStartSolid(s, "");
  }

  /** A separator match starts at offset `k` of `s`. */
  predicate CutAt(s: string, k: nat) {
    k < |s| && SeparatorLen(s[k..]) > 0
  }

  /** A character where no match starts joins the current fragment. */
  lemma FragmentsStep(s: string, cur: string)
    requires s != [] && SeparatorLen(s) == 0
    ensures Fragments(s, cur) == Fragments(s[1..], cur + [s[0]])
  {
  }

  lemma SkipLayout(s: string, cur: string, j: nat)
    requires 1 <= j <= |s|
    ensures s[1..][j - 1..] == s[j..]
    ensures (cur + [s[0]]) + s[1..][..j - 1] == cur + s[..j]
  {
    assert s[..j] == [s[0]] + s[1..][..j - 1];
  }

  /** Characters where no match starts are read into the current fragment one by one. */
  lemma {:induction false} FragmentsSkip(s: string, cur: string, j: nat)
    requires j <= |s|
    requires forall i :: 0 <= i < j ==> !CutAt(s, i)
    ensures Fragments(s, cur) == Fragments(s[j..], cur + s[..j])
    decreases j
  {
    if j == 0 {
      assert s[0..] == s && cur + s[..0] == cur;
    } else {
      assert !CutAt(s, 0) && s[0..] == s;
      FragmentsStep(s, cur);
      forall i | 0 <= i < j - 1
        ensures !CutAt(s[1..], i)
      {
        assert s[1..][i..] == s[i + 1..];
        assert !CutAt(s, i + 1);
      }
      FragmentsSkip(s[1..], cur + [s[0]], j - 1);
      SkipLayout(s, cur, j);
    }
  }

  /**
   * The scan cuts at the leftmost match, and the match it removes is the greedy one
   * `SeparatorLen` measures there; the rest is split the same way.
   */
  lemma SplitAnswerLeftmost(s: string, k: nat)
    requires CutAt(s, k)
    requires forall i :: 0 <= i < k ==> !CutAt(s, i)
    ensures SplitAnswer(s) == [s[..k]] + SplitAnswer(s[k + SeparatorLen(s[k..])..])
  {
    var m := SeparatorLen(s[k..]);
    FragmentsSkip(s, "", k);
    assert "" + s[..k] == s[..k];
    assert s[k..][m..] == s[k + m..];
  }

  /** Where no match starts anywhere, the split is the whole text. */
  lemma SplitAnswerNoCut(s: string)
    requires forall i :: 0 <= i < |s| ==> !CutAt(s, i)
    ensures SplitAnswer(s) == [s]
  {
    FragmentsSkip(s, "", |s|);
    assert s[|s|..] == [] && "" + s[..|s|] == s;
  }

  lemma StrippedUpper(t: string)
    requires Stripped(t)
    ensures Stripped(Upper(t))
  {
    if t != [] {
      assert Upper(t)[0] == UpperChar(t[0]);
      assert Upper(t)[|t| - 1] == UpperChar(t[|t| - 1]);
    }
  }

  /** What a non-sentinel answer element looks like. */
  predicate CleanLabel(x: string) {
    x != "" && NoLowerCase(x) && Stripped(x) && NoComma(x)
  }

  lemma CleanFragment(f: string)
    requires NoComma(f) && Strip(f) != ""
    ensures CleanLabel(Upper(Strip(f)))
  {
    var t := Strip(f);
    UpperHasNoLowerCase(t);
    StrippedIsFixed(f);
    StrippedUpper(t);
    assert t == LStrip(f)[..|t|];
    assert forall i :: 0 <= i < |t| ==> Upper(t)[i] == UpperChar(t[i]);
  }

  /** `[ans.strip().upper() for ans in frags if ans.strip()]`. */
  function Labels(frags: seq<string>): (r: seq<string>)
    ensures |r| <= |frags|
  {
    if frags == [] then []
    else
      var t := Strip(frags[0]);
      (if t != "" then [Upper(t)] else []) + Labels(frags[1..])
  }

  /** One fragment gives its stripped, upper-cased text, or nothing when it is blank. */
  lemma LabelsSingle(f: string)
    ensures Labels([f]) == if Strip(f) == "" then [] else [Upper(Strip(f))]
  {
    assert [f][1..] == [];
  }

  lemma ConcatAssoc(x: seq<string>, y: seq<string>, z: seq<string>)
    ensures x + (y + z) == (x + y) + z
  {
  }

  /** The comprehension works fragment by fragment: it keeps order and drops only blanks. */
  lemma {:induction false} LabelsAppend(a: seq<string>, b: seq<string>)
    ensures Labels(a + b) == Labels(a) + Labels(b)
    decreases |a|
  {
    if a != [] {
      var t := Strip(a[0]);
      var h := if t != "" then [Upper(t)] else [];
      assert (a + b)[0] == a[0];
      assert (a + b)[1..] == a[1..] + b;
      assert Labels(a + b) == h + Labels(a[1..] + b);
      assert Labels(a) == h + Labels(a[1..]);
      LabelsAppend(a[1..], b);
      ConcatAssoc(h, Labels(a[1..]), Labels(b));
    } else {
      assert a + b == b;
    }
  }

  /** Comma-free fragments give clean labels: non-empty, stripped, upper case, comma-free. */
  lemma {:induction false} LabelsClean(frags: seq<string>)
    requires forall i :: 0 <= i < |frags| ==> NoComma(frags[i])
    ensures forall i :: 0 <= i < |Labels(frags)| ==> CleanLabel(Labels(frags)[i])
  {
    if frags != [] {
      var t := Strip(frags[0]);
      if t != "" {
        CleanFragment(frags[0]);
      }
      assert forall i :: 0 <= i < |frags| - 1 ==> frags[1..][i] == frags[i + 1];
      LabelsClean(frags[1..]);
    }
  }

  /** At most one sentinel can match, since the four spellings differ in length. */
  lemma SentinelsExclusive(s: string)
    ensures !(IsAllSentinel(s) && IsNoneSentinel(s))
  {
  }

  /**
   * `_parse_correct_answers(answer_str)`. The sentinel list comes back exactly when
   * the stripped input spells a sentinel, ignoring case; `NormalizedLabels` below
   * says what the other answers give.
   */
  function NormalizeAnswers(answer: string): (r: seq<string>)
    ensures r == [AllOfTheAbove] <==> IsAllSentinel(answer)
    ensures r == [NoneOfTheAbove] <==> IsNoneSentinel(answer)
  {
    SentinelsExclusive(answer);
    if IsAllSentinel(answer) then [AllOfTheAbove]
    else if IsNoneSentinel(answer) then [NoneOfTheAbove]
    else
      var frags := SplitAnswer(Strip(answer));
      LabelsClean(frags);
      CleanLabelsNotSentinels(Labels(frags));
      Labels(frags)
  }

  /** Clean labels are upper case, so a list of them is never one of the two sentinel lists. */
  lemma CleanLabelsNotSentinels(r: seq<string>)
    requires forall i :: 0 <= i < |r| ==> CleanLabel(r[i])
    ensures r != [AllOfTheAbove] && r != [NoneOfTheAbove]
  {
    if |r| == 1 {
      var x := r[0];
      assert NoLowerCase(x);
      assert |x| >= 2 ==> !('a' <= x[1] <= 'z');
      assert AllOfTheAbove[1] == 'l' && NoneOfTheAbove[1] == 'o';
    }
  }

  /**
   * Outside the sentinels every element of the answer list is a non-empty, stripped,
   * upper-cased fragment without a comma, and there are no more elements than
   * fragments. Order and duplicates are kept; nothing is checked against the
   * option count.
   */
  lemma NormalizedLabels(answer: string)
    requires !IsAllSentinel(answer) && !IsNoneSentinel(answer)
    ensures NormalizeAnswers(answer) == Labels(SplitAnswer(Strip(answer)))
    ensures |NormalizeAnswers(answer)| <= |SplitAnswer(Strip(answer))|
    ensures forall i :: 0 <= i < |NormalizeAnswers(answer)| ==> CleanLabel(NormalizeAnswers(answer)[i])
  {
    LabelsClean(SplitAnswer(Strip(answer)));
  }
}

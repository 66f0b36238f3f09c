/**
 * The string operations the Python code relies on: `str.strip`, `lower`, `upper`,
 * `capitalize`, `startswith`, `in`, `find`, `split(sep)`, `sep.join`, `replace`
 * and integer formatting in f-strings. Characters are Dafny `char`s; case
 * mapping is limited to ASCII letters.
 */
module Text {
  import opened Wrappers

  /** The characters `str.strip()` and `\s` treat as whitespace, among the first 256 code points. */
  predicate IsSpace(c: char) {
    var k := c as int;
    k == 32 || 9 <= k <= 13 || 28 <= k <= 31 || k == 0x85 || k == 0xA0
  }

  /** The length of the run of whitespace that `s` starts with (a greedy `\s*`). */
  function SpaceRun(s: string): (n: nat)
    ensures n <= |s|
    ensures forall i :: 0 <= i < n ==> IsSpace(s[i])
    ensures n == |s| || !IsSpace(s[n])
  {
    if s != [] && IsSpace(s[0]) then 1 + SpaceRun(s[1..]) else 0
  }

  /** A run of whitespace that stops inside `x` stops at the same place in `x + y`. */
  lemma SpaceRunExtend(x: string, y: string)
    requires SpaceRun(x) < |x|
    ensures SpaceRun(x + y) == SpaceRun(x)
  {
    var n := SpaceRun(x);
    assert forall i :: 0 <= i <= n ==> (x + y)[i] == x[i];
  }

  /** `s.lstrip()`: drop leading whitespace. */
  function LStrip(s: string): (r: string)
    ensures |r| <= |s|
    ensures forall i :: 0 <= i < |s| - |r| ==> IsSpace(s[i])
    ensures forall i :: 0 <= i < |r| ==> r[i] == s[|s| - |r| + i]
    ensures r == [] || !IsSpace(r[0])
  {
    s[SpaceRun(s)..]
  }

  /** `s.rstrip()`: drop trailing whitespace. */
  function RStrip(s: string): (r: string)
    ensures |r| <= |s| && r == s[..|r|]
    ensures r == [] || !IsSpace(r[|r| - 1])
    ensures forall i :: |r| <= i < |s| ==> IsSpace(s[i])
  {
    if s != [] && IsSpace(s[|s| - 1]) then RStrip(s[..|s| - 1]) else s
  }

  /** `s.strip()`. */
  function Strip(s: string): string {
    RStrip(LStrip(s))
  }

  /** A string that `strip()` leaves as it is: no whitespace at either end. */
  predicate Stripped(s: string) {
    s == [] || (!IsSpace(s[0]) && !IsSpace(s[|s| - 1]))
  }

  /** `strip()` returns exactly the stripped strings, and the result is stripped. */
  lemma StrippedIsFixed(s: string)
    ensures Stripped(s) <==> Strip(s) == s
    ensures Stripped(Strip(s))
  {
    var l := LStrip(s);
    var r := RStrip(l);
    if r != [] {
      assert r[0] == l[0];
    }
    if Stripped(s) && s != [] {
      assert l == s;
      assert r == s;
    }
  }

  /** Stripping twice is stripping once. */
  lemma StripIdempotent(s: string)
    ensures Strip(Strip(s)) == Strip(s)
  {
    StrippedIsFixed(s);
    StrippedIsFixed(Strip(s));
  }

  function UpperChar(c: char): char {
    if 'a' <= c <= 'z' then (c as int - 32) as char else c
  }

  function LowerChar(c: char): char {
    if 'A' <= c <= 'Z' then (c as int + 32) as char else c
  }

  /** `s.upper()` on ASCII letters. */
  function Upper(s: string): (r: string)
    ensures |r| == |s|
    ensures forall i :: 0 <= i < |s| ==> r[i] == UpperChar(s[i])
  {
    if s == [] then [] else [UpperChar(s[0])] + Upper(s[1..])
  }

  /** `s.lower()` on ASCII letters. */
  function Lower(s: string): (r: string)
    ensures |r| == |s|
    ensures forall i :: 0 <= i < |s| ==> r[i] == LowerChar(s[i])
  {
    if s == [] then [] else [LowerChar(s[0])] + Lower(s[1..])
  }

  /** `s.lower() == lower`, compared position by position. */
  predicate EqualsIgnoringCase(s: string, lower: string) {
    |s| == |lower| && forall i :: 0 <= i < |s| ==> LowerChar(s[i]) == lower[i]
  }

  lemma EqualsIgnoringCaseIsLower(s: string, lower: string)
    ensures EqualsIgnoringCase(s, lower) <==> Lower(s) == lower
  {
    if Lower(s) == lower {
      assert forall i :: 0 <= i < |s| ==> Lower(s)[i] == lower[i];
    }
  }

  /** A string with no lower-case ASCII letter, which `upper()` leaves unchanged. */
  predicate NoLowerCase(s: string) {
    forall i :: 0 <= i < |s| ==> !('a' <= s[i] <= 'z')
  }

  lemma UpperHasNoLowerCase(s: string)
    ensures NoLowerCase(Upper(s))
    ensures NoLowerCase(s) <==> Upper(s) == s
  {
    if NoLowerCase(s) {
      assert forall i :: 0 <= i < |s| ==> Upper(s)[i] == s[i];
    }
    if Upper(s) == s {
      assert forall i :: 0 <= i < |s| ==> UpperChar(s[i]) == s[i];
    }
  }

  /** `s.capitalize()` on ASCII letters: first character upper-cased, the rest lower-cased. */
  function Capitalize(s: string): (r: string)
    ensures |r| == |s|
    ensures s != [] ==> r[0] == UpperChar(s[0]) && r[1..] == Lower(s[1..])
  {
    if s == [] then [] else [UpperChar(s[0])] + Lower(s[1..])
  }

  /** `s.replace(a, b)` for one-character `a` and `b`. */
  function ReplaceChar(s: string, a: char, b: char): (r: string)
    ensures |r| == |s|
    ensures forall i :: 0 <= i < |s| ==> r[i] == (if s[i] == a then b else s[i])
  {
    if s == [] then [] else [if s[0] == a then b else s[0]] + ReplaceChar(s[1..], a, b)
  }

  /** `s.startswith(p)`. */
  predicate StartsWith(s: string, p: string) {
    |p| <= |s| && s[..|p|] == p
  }

  /** `pat` occurs in `s` starting at index `k`. */
  predicate OccursAt(s: string, pat: string, k: nat) {
    k + |pat| <= |s| && s[k..k + |pat|] == pat
  }

  /** `pat in s`. */
  predicate Contains(s: string, pat: string) {
    exists k: nat | k <= |s| :: OccursAt(s, pat, k)
  }

  lemma ContainsMiddle(a: string, x: string, b: string)
    ensures Contains(a + x + b, x)
  {
    assert OccursAt(a + x + b, x, |a|);
  }

  /** An occurrence inside a suffix is an occurrence in the whole string. */
  lemma OccursInSuffix(s: string, k: nat, pat: string, j: nat)
    requires k <= |s| && OccursAt(s[k..], pat, j)
    ensures OccursAt(s, pat, k + j)
  {
    assert s[k..][j..j + |pat|] == s[k + j..k + j + |pat|];
  }

  lemma ContainsSuffix(s: string, k: nat, pat: string)
    requires k <= |s| && Contains(s[k..], pat)
    ensures Contains(s, pat)
  {
    var j: nat :| j <= |s| - k && OccursAt(s[k..], pat, j);
    OccursInSuffix(s, k, pat, j);
  }

  /** An occurrence survives putting text in front. */
  lemma ContainsLeft(a: string, x: string, pat: string)
    requires Contains(x, pat)
    ensures Contains(a + x, pat)
  {
    assert (a + x)[|a|..] == x;
    ContainsSuffix(a + x, |a|, pat);
  }

  /** An occurrence survives putting text behind. */
  lemma ContainsRight(x: string, b: string, pat: string)
    requires Contains(x, pat)
    ensures Contains(x + b, pat)
  {
    var k: nat :| k <= |x| && OccursAt(x, pat, k);
    assert (x + b)[k..k + |pat|] == x[k..k + |pat|];
    assert OccursAt(x + b, pat, k);
  }

  lemma ContainsSelf(x: string)
    ensures Contains(x, x)
  {
    assert x[0..|x|] == x;
    assert OccursAt(x, x, 0);
  }

  lemma ContainsTail(a: string, x: string)
    ensures Contains(a + x, x)
  {
    assert (a + x)[|a|..|a| + |x|] == x;
    assert OccursAt(a + x, x, |a|);
  }

  /** An occurrence inside an occurrence is an occurrence. */
  lemma ContainsTrans(s: string, x: string, pat: string)
    requires Contains(s, x) && Contains(x, pat)
    ensures Contains(s, pat)
  {
    var k: nat :| k <= |s| && OccursAt(s, x, k);
    var j: nat :| j <= |x| && OccursAt(x, pat, j);
    forall t | 0 <= t < |pat|
      ensures s[k + j + t] == pat[t]
    {
      assert x[j..j + |pat|][t] == pat[t];
      assert s[k..k + |x|][j + t] == x[j + t];
    }
    assert OccursAt(s, pat, k + j);
  }

  /** A pattern holding a character that the string lacks does not occur in it. */
  lemma AbsentChar(s: string, pat: string, c: char)
    requires c in pat && c !in s
    ensures !Contains(s, pat)
  {
    var i :| 0 <= i < |pat| && pat[i] == c;
    forall k: nat | k <= |s|
      ensures !OccursAt(s, pat, k)
    {
      if k + |pat| <= |s| {
        assert s[k..k + |pat|][i] == s[k + i];
      }
    }
  }

  /** The first index at or after `k` where `pat` occurs (`s.find(pat, k)`), if any. */
  function FindFrom(s: string, pat: string, k: nat): (r: Option<nat>)
    requires k <= |s|
    decreases |s| - k
    ensures r.Some? ==> k <= r.value && OccursAt(s, pat, r.value)
    ensures r.Some? ==> forall j :: k <= j < r.value ==> !OccursAt(s, pat, j)
    ensures r.None? ==> forall j :: k <= j ==> !OccursAt(s, pat, j)
  {
    if OccursAt(s, pat, k) then Some(k)
    else if k == |s| then None
    else FindFrom(s, pat, k + 1)
  }

  /** `s.find(pat)`. */
  function Find(s: string, pat: string): (r: Option<nat>)
    ensures r.Some? <==> Contains(s, pat)
    ensures r.Some? ==> OccursAt(s, pat, r.value)
    ensures r.Some? ==> forall j :: 0 <= j < r.value ==> !OccursAt(s, pat, j)
  {
    FindFrom(s, pat, 0)
  }

  /** The first occurrence is the one at `k` when nothing occurs earlier. */
  lemma FindIs(s: string, pat: string, k: nat)
    requires OccursAt(s, pat, k)
    requires forall j :: 0 <= j < k ==> !OccursAt(s, pat, j)
    ensures Find(s, pat) == Some(k)
  {
  }

  /** `s.split(sep)`: the pieces between non-overlapping occurrences of `sep`, left to right. */
  function SplitOn(s: string, sep: string): (parts: seq<string>)
    requires |sep| > 0
    decreases |s|
    ensures |parts| >= 1
    ensures |parts| == 1 <==> Find(s, sep).None?
    ensures |parts| == 1 ==> parts[0] == s
    ensures |parts| > 1 ==> Find(s, sep) == Some(|parts[0]|) && parts[0] == s[..|parts[0]|]
  {
    match Find(s, sep)
    case None => [s]
    case Some(k) => [s[..k]] + SplitOn(s[k + |sep|..], sep)
  }

  /**
   * The cuts are made left to right, each at the leftmost occurrence in what is left, so
   * a separator that overlaps itself is cut where it starts first.
   */
  lemma SplitOnLeftmost(s: string, sep: string)
    requires |sep| > 0
    ensures Find(s, sep).None? ==> SplitOn(s, sep) == [s]
    ensures Find(s, sep).Some? ==>
      var k := Find(s, sep).value;
      SplitOn(s, sep) == [s[..k]] + SplitOn(s[k + |sep|..], sep)
  {
  }

  /** `"a\n\n\nb".split("\n\n")` is `["a", "\nb"]`: the first blank line is cut first. */
  lemma SplitOnOverlapExample()
    ensures SplitOn("a\n\n\nb", "\n\n") == ["a", "\nb"]
  {
    var s, sep := "a\n\n\nb", "\n\n";
    assert s[1..3] == sep;
    assert s[0..2] != sep by { assert s[0..2][0] == 'a'; }
    FindIs(s, sep, 1);
    var rest := s[3..];
    assert rest == "\nb";
    assert rest[0..2] != sep by { assert rest[0..2][1] == 'b'; }
    assert Find(rest, sep) == None by {
      assert !OccursAt(rest, sep, 0) && !OccursAt(rest, sep, 1) && !OccursAt(rest, sep, 2);
    }
    assert SplitOn(rest, sep) == [rest];
    assert s[..1] == "a";
    assert SplitOn(s, sep) == [s[..1]] + SplitOn(rest, sep);
  }

  /** `sep.join(parts)`. */
  function Join(parts: seq<string>, sep: string): string
    decreases |parts|
  {
    if |parts| == 0 then ""
    else if |parts| == 1 then parts[0]
    else parts[0] + sep + Join(parts[1..], sep)
  }

  lemma JoinCons(h: string, tail: seq<string>, sep: string)
    requires |tail| >= 1
    ensures Join([h] + tail, sep) == h + sep + Join(tail, sep)
  {
    assert ([h] + tail)[1..] == tail;
  }

  /** Every part occurs in the string the parts are joined into. */
  lemma {:induction false} JoinHoldsParts(parts: seq<string>, sep: string)
    ensures forall i :: 0 <= i < |parts| ==> Contains(Join(parts, sep), parts[i])
    decreases |parts|
  {
    if |parts| == 1 {
      ContainsTail("", parts[0]);
      assert "" + parts[0] == Join(parts, sep);
    } else if |parts| > 1 {
      var rest := Join(parts[1..], sep);
      JoinHoldsParts(parts[1..], sep);
      forall i | 0 <= i < |parts|
        ensures Contains(Join(parts, sep), parts[i])
      {
        if i == 0 {
          ContainsTail("", parts[0]);
          assert "" + parts[0] == parts[0];
          ContainsRight(parts[0], sep + rest, parts[0]);
          assert parts[0] + (sep + rest) == Join(parts, sep);
        } else {
          assert parts[1..][i - 1] == parts[i];
          ContainsLeft(parts[0] + sep, rest, parts[i]);
        }
      }
    }
  }

  /** Single-line parts joined by a single-line separator give a single line. */
  lemma {:induction false} JoinSingleLine(parts: seq<string>, sep: string)
    requires SingleLine(sep)
    requires forall i :: 0 <= i < |parts| ==> SingleLine(parts[i])
    ensures SingleLine(Join(parts, sep))
    decreases |parts|
  {
    if |parts| > 1 {
      assert SingleLine(parts[0]);
      assert forall i :: 0 <= i < |parts| - 1 ==> parts[1..][i] == parts[i + 1];
      JoinSingleLine(parts[1..], sep);
    }
  }

  /** Joining the pieces of a split with the same separator gives the string back. */
  lemma {:induction false} JoinSplit(s: string, sep: string)
    requires |sep| > 0
    ensures Join(SplitOn(s, sep), sep) == s
    decreases |s|
  {
    var f := Find(s, sep);
    if f.Some? {
      var k := f.value;
      var head, rest := s[..k], s[k + |sep|..];
      var tail := SplitOn(rest, sep);
      assert SplitOn(s, sep) == [head] + tail;
      JoinSplit(rest, sep);
      JoinCons(head, tail, sep);
      assert s == head + sep + rest by {
        assert s[k..k + |sep|] == sep;
        assert s == s[..k] + s[k..k + |sep|] + s[k + |sep|..];
      }
    }
  }

  /** No piece of a split contains the separator. */
  lemma {:induction false} SplitPiecesAvoidSep(s: string, sep: string)
    requires |sep| > 0
    ensures forall p :: p in SplitOn(s, sep) ==> !Contains(p, sep)
    decreases |s|
  {
    var f := Find(s, sep);
    if f.Some? {
      var k := f.value;
      var head, rest := s[..k], s[k + |sep|..];
      var tail := SplitOn(rest, sep);
      SplitPiecesAvoidSep(rest, sep);
      assert SplitOn(s, sep) == [head] + tail;
      assert !Contains(head, sep) by {
        forall j: nat | OccursAt(head, sep, j)
          ensures false
        {
          assert s[j..j + |sep|] == head[j..j + |sep|];
          assert OccursAt(s, sep, j);
        }
      }
      forall p | p in SplitOn(s, sep)
        ensures !Contains(p, sep)
      {
        if p != head {
          assert p in tail;
        }
      }
    }
  }

  /** For a one-character separator absent from every part, splitting undoes joining. */
  lemma {:induction false} SplitJoin(parts: seq<string>, c: char)
    requires |parts| >= 1
    requires forall i :: 0 <= i < |parts| ==> c !in parts[i]
    ensures SplitOn(Join(parts, [c]), [c]) == parts
    decreases |parts|
  {
    var p0 := parts[0];
    assert forall j :: 0 <= j < |p0| ==> !OccursAt(p0, [c], j) by {
      forall j | 0 <= j < |p0| ensures !OccursAt(p0, [c], j) {
        assert p0[j..j + 1] == [p0[j]];
      }
    }
    if |parts| == 1 {
      assert forall j: nat :: !OccursAt(p0, [c], j);
    } else {
      var s := Join(parts, [c]);
      var rest := Join(parts[1..], [c]);
      assert s == p0 + [c] + rest;
      assert OccursAt(s, [c], |p0|);
      forall j | 0 <= j < |p0| ensures !OccursAt(s, [c], j) {
        assert s[j] == p0[j];
        assert s[j..j + 1] == [s[j]];
      }
      FindIs(s, [c], |p0|);
      assert s[..|p0|] == p0;
      assert s[|p0| + 1..] == rest;
      SplitJoin(parts[1..], c);
    }
  }

  /** `s` holds no line break. */
  predicate SingleLine(s: string) {
    forall i :: 0 <= i < |s| ==> s[i] != '\n'
  }

  /** A non-empty one-line text with no whitespace at either end. */
  predicate WellFormedText(t: string) {
    t != "" && Stripped(t) && SingleLine(t)
  }

  lemma SingleLineConcat(a: string, b: string)
    requires SingleLine(a) && SingleLine(b)
    ensures SingleLine(a + b)
  {
    assert forall i :: |a| <= i < |a + b| ==> (a + b)[i] == b[i - |a|];
  }

  /** The number of characters before the first line break of `s` (a greedy `[^\n]*`). */
  function LineLength(s: string): (n: nat)
    ensures n <= |s|
    ensures forall i :: 0 <= i < n ==> s[i] != '\n'
    ensures n == |s| || s[n] == '\n'
  {
    if s != [] && s[0] != '\n' then 1 + LineLength(s[1..]) else 0
  }

  /** The text of `s` up to its first line break. */
  function FirstLine(s: string): string {
    s[..LineLength(s)]
  }

  /** The number a string of decimal digits denotes, most significant digit first. */
  function DigitsValue(s: string): nat
    requires forall i :: 0 <= i < |s| ==> '0' <= s[i] <= '9'
  {
    if s == [] then 0 else 10 * DigitsValue(s[..|s| - 1]) + (s[|s| - 1] as int - '0' as int)
  }

  /** The decimal digits of `n`, as an f-string writes them: they denote `n`, with no leading zero. */
  function NatToString(n: nat): (r: string)
    decreases n
    ensures |r| >= 1
    ensures forall i :: 0 <= i < |r| ==> '0' <= r[i] <= '9'
    ensures DigitsValue(r) == n
    ensures r[0] == '0' ==> r == "0"
  {
    var d := ['0' + (n % 10) as char];
    if n < 10 then d
    else
      var high := NatToString(n / 10);
      assert (high + d)[..|high|] == high;
      high + d
  }

  /** `str(i)` / `f"{i}"` for a Python integer. */
  function IntToString(i: int): string {
    if i < 0 then "-" + NatToString(-i) else NatToString(i)
  }
}

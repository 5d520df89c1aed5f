/**
 * The few Python string operations the services rely on, written out over
 * `seq<char>`: `str.isspace`, `strip`, `lstrip(c)`/`rstrip(c)`, `in`, `find`,
 * `split`, `join`, `replace`, ASCII `lower`, slicing `s[:n]` and `str(n)`.
 */
module Text {
  import opened Wrappers

  /** Python's `str.isspace()`; the `\s` class of a `str` regular expression is the same set. */
  predicate IsSpace(c: char) {
    ('\t' <= c <= '\r') || ('\U{1c}' <= c <= '\U{1f}') || c == ' ' || c == '\U{85}' || c == '\U{a0}'
    || c == '\U{1680}' || ('\U{2000}' <= c <= '\U{200a}') || c == '\U{2028}' || c == '\U{2029}'
    || c == '\U{202f}' || c == '\U{205f}' || c == '\U{3000}'
  }

  predicate AllSpace(s: string) {
    forall i :: 0 <= i < |s| ==> IsSpace(s[i])
  }

  /** Characters of the ASCII part of the regular-expression class `\w`. */
  predicate IsWordChar(c: char) {
    ('a' <= c <= 'z') || ('A' <= c <= 'Z') || ('0' <= c <= '9') || c == '_'
  }

  /** A string with no leading and no trailing whitespace. */
  predicate IsStripped(s: string) {
    s == [] || (!IsSpace(s[0]) && !IsSpace(s[|s| - 1]))
  }

  /** Length of the longest all-whitespace prefix of `s`. */
  function SpaceRunLen(s: string): (n: nat)
    ensures n <= |s| && AllSpace(s[..n])
    ensures n == |s| || !IsSpace(s[n])
  {
    if s == [] || !IsSpace(s[0]) then 0
    else
      var n := SpaceRunLen(s[1..]);
      assert s[..n + 1] == [s[0]] + s[1..][..n];
      n + 1
  }

  lemma WordCharIsNotSpace(c: char)
    requires IsWordChar(c)
    ensures !IsSpace(c)
  {
  }

  /** No whitespace prefix is longer than the run `SpaceRunLen` measures. */
  lemma {:induction false} SpaceRunMax(s: string, m: nat)
    requires m <= |s| && AllSpace(s[..m])
    ensures m <= SpaceRunLen(s)
    decreases m
  {
    if m > 0 {
      assert s[0] == s[..m][0];
      assert s[1..][..m - 1] == s[..m][1..];
      SpaceRunMax(s[1..], m - 1);
    }
  }

  /** Python `s.lstrip()`: the longest suffix that does not start with whitespace. */
  function LStrip(s: string): (r: string)
    ensures |r| <= |s| && r == s[|s| - |r|..]
    ensures r == [] || !IsSpace(r[0])
    ensures AllSpace(s[..|s| - |r|])
  {
    if s != [] && IsSpace(s[0]) then
      var r := LStrip(s[1..]);
      assert s[..|s| - |r|] == [s[0]] + s[1..][..|s| - 1 - |r|];
      r
    else s
  }

  /** Python `s.rstrip()`: the longest prefix that does not end with whitespace. */
  function RStrip(s: string): (r: string)
    ensures |r| <= |s| && r == s[..|r|]
    ensures r == [] || !IsSpace(r[|r| - 1])
    ensures AllSpace(s[|r|..])
  {
    if s != [] && IsSpace(s[|s| - 1]) then
      var r := RStrip(s[..|s| - 1]);
      assert s[|r|..] == s[..|s| - 1][|r|..] + [s[|s| - 1]];
      r
    else s
  }

  /** Python `s.strip()`. */
  function Strip(s: string): (r: string)
    ensures |r| <= |s|
    ensures IsStripped(r)
  {
    var l := LStrip(s);
    var r := RStrip(l);
    assert r != [] ==> r[0] == l[0];
    r
  }

  /** Python `s.lstrip(c)` for a single character `c`. */
  function LStripChar(s: string, c: char): (r: string)
    ensures |r| <= |s| && r == s[|s| - |r|..]
    ensures r == [] || r[0] != c
    ensures forall i :: 0 <= i < |s| - |r| ==> s[i] == c
  {
    if s != [] && s[0] == c then LStripChar(s[1..], c) else s
  }

  /** Python `s.rstrip(c)` for a single character `c`. */
  function RStripChar(s: string, c: char): (r: string)
    ensures |r| <= |s| && r == s[..|r|]
    ensures r == [] || r[|r| - 1] != c
    ensures forall i :: |r| <= i < |s| ==> s[i] == c
  {
    if s != [] && s[|s| - 1] == c then RStripChar(s[..|s| - 1], c) else s
  }

  predicate StartsWith(s: string, p: string) {
    |p| <= |s| && s[..|p|] == p
  }

  predicate EndsWith(s: string, p: string) {
    |p| <= |s| && s[|s| - |p|..] == p
  }

  /** `pat` occurs in `s` starting at index `i`. */
  predicate OccursAt(s: string, pat: string, i: nat) {
    i + |pat| <= |s| && s[i..i + |pat|] == pat
  }

  /** Python `s.find(pat, from)`, with `None` for -1. */
  function FindFrom(s: string, pat: string, from: nat): (r: Option<nat>)
    ensures r.Some? ==> from <= r.value && OccursAt(s, pat, r.value)
    ensures forall j: nat {:trigger OccursAt(s, pat, j)} ::
      from <= j && (r.None? || j < r.value) ==> !OccursAt(s, pat, j)
    decreases |s| - from
  {
    if from + |pat| > |s| then None
    else if OccursAt(s, pat, from) then Some(from)
    else FindFrom(s, pat, from + 1)
  }

  lemma ConcatAssoc(x: string, y: string, z: string)
    ensures x + y + z == x + (y + z)
  {
  }

  /** Python `s.find(c, from)` for a single character `c`, with `None` for -1. */
  function CharFrom(s: string, c: char, from: nat): (r: Option<nat>)
    ensures r.Some? ==> from <= r.value < |s| && s[r.value] == c
    ensures forall k :: from <= k < |s| && (r.None? || k < r.value) ==> s[k] != c
    decreases |s| - from
  {
    if from >= |s| then None
    else if s[from] == c then Some(from)
    else CharFrom(s, c, from + 1)
  }

  /** The first index at or after `from` holding `c` is the one `CharFrom` reports. */
  lemma CharFromAt(s: string, c: char, from: nat, e: nat)
    requires from <= e < |s| && s[e] == c
    requires forall k :: from <= k < e ==> s[k] != c
    ensures CharFrom(s, c, from) == Some(e)
  {
  }

  /** Python `pat in s`. */
  predicate Contains(s: string, pat: string) {
    FindFrom(s, pat, 0).Some?
  }

  /** Python `sep.join(parts)`. */
  function Join(parts: seq<string>, sep: string): string
  {
    if |parts| == 0 then ""
    else if |parts| == 1 then parts[0]
    else parts[0] + sep + Join(parts[1..], sep)
  }

  /** Python `s.split(sep)` for a non-empty separator. */
  function Split(s: string, sep: string): (parts: seq<string>)
    requires |sep| > 0
    ensures |parts| >= 1
    ensures Join(parts, sep) == s
    ensures forall k :: 0 <= k < |parts| ==> !Contains(parts[k], sep)
    decreases |s|
  {
    match FindFrom(s, sep, 0)
    case None => [s]
    case Some(i) =>
      var rest := Split(s[i + |sep|..], sep);
      assert s == s[..i] + sep + s[i + |sep|..];
      PrefixBeforeFirstIsFree(s, sep, i);
      [s[..i]] + rest
  }

  /** Python `s.replace(pat, rep)` for a non-empty pattern. */
  function ReplaceAll(s: string, pat: string, rep: string): (r: string)
    requires |pat| > 0
    ensures r == Join(Split(s, pat), rep)
    decreases |s|
  {
    match FindFrom(s, pat, 0)
    case None => s
    case Some(i) => s[..i] + rep + ReplaceAll(s[i + |pat|..], pat, rep)
  }

  function LowerChar(c: char): char {
    if 'A' <= c <= 'Z' then (c as int + 32) as char else c
  }

  /**
   * Python `s.lower()` on ASCII letters. No other character lowers to an ASCII letter
   * other than K or i, so comparing the result with a lower-case ASCII word such as
   * "get" or ".pdf" is exact.
   */
  function LowerAscii(s: string): string {
    seq(|s|, i requires 0 <= i < |s| => LowerChar(s[i]))
  }

  /** Python `s[:n]` for `n >= 0`. */
  function Take(s: string, n: nat): string {
    if |s| <= n then s else s[..n]
  }

  function DigitChar(d: nat): char
    requires d < 10
  {
    ('0' as int + d) as char
  }

  /** Python `str(n)` for a non-negative integer. */
  function NatToString(n: nat): string
    decreases n
  {
    if n < 10 then [DigitChar(n)] else NatToString(n / 10) + [DigitChar(n % 10)]
  }

  /** Python `str(n)` for any integer. */
  function IntToString(n: int): string {
    if n < 0 then "-" + NatToString(-n) else NatToString(n)
  }

  // ----- facts about searching -----

  lemma PrefixBeforeFirstIsFree(s: string, pat: string, i: nat)
    requires |pat| > 0 && FindFrom(s, pat, 0) == Some(i)
    ensures !Contains(s[..i], pat)
  {
    if Contains(s[..i], pat) {
      var j := FindFrom(s[..i], pat, 0).value;
      assert s[..i][j..j + |pat|] == s[j..j + |pat|];
      assert OccursAt(s, pat, j);
      assert false;
    }
  }

  /** An occurrence of `pat` at `j` is an occurrence in `s`, so `pat in s`. */
  lemma OccursThenContains(s: string, pat: string, j: nat)
    requires OccursAt(s, pat, j)
    ensures Contains(s, pat)
  {
  }

  /** Each part of `sep.join(parts)` occurs in it. */
  lemma {:induction false} JoinHasPart(parts: seq<string>, sep: string, k: nat)
    requires k < |parts|
    ensures Contains(Join(parts, sep), parts[k])
    decreases |parts|
  {
    var s := Join(parts, sep);
    if k == 0 {
      assert s[..|parts[0]|] == parts[0];
      OccursThenContains(s, parts[0], 0);
    } else {
      JoinHasPart(parts[1..], sep, k - 1);
      var rest := Join(parts[1..], sep);
      var j := FindFrom(rest, parts[k], 0).value;
      var d := |parts[0]| + |sep|;
      assert s == parts[0] + sep + rest;
      assert s[d + j..d + j + |parts[k]|] == rest[j..j + |parts[k]|];
      OccursThenContains(s, parts[k], d + j);
    }
  }

  /** A pattern whose first character is not among the first `n` characters of `s` does not start there. */
  lemma AbsentBefore(s: string, n: nat, pat: string)
    requires n <= |s| && |pat| > 0 && pat[0] !in s[..n]
    ensures forall j :: 0 <= j < n ==> !OccursAt(s, pat, j)
  {
    forall j | 0 <= j < n
      ensures !OccursAt(s, pat, j)
    {
      assert s[..n][j] == s[j];
      if j + |pat| <= |s| {
        assert s[j..j + |pat|][0] == s[j];
      }
    }
  }

  /** Where an occurrence of `pat` in `x + [c] + y` can lie. */
  lemma OccurrencePlacement(x: string, c: char, y: string, pat: string, j: nat)
    requires OccursAt(x + [c] + y, pat, j)
    ensures || (j + |pat| <= |x| && OccursAt(x, pat, j))
            || (j > |x| && OccursAt(y, pat, j - |x| - 1))
            || (j <= |x| < j + |pat| && pat[|x| - j] == c)
  {
    var s := x + [c] + y;
    if j + |pat| <= |x| {
      assert s[j..j + |pat|] == x[j..j + |pat|];
    } else if j > |x| {
      assert s[j..j + |pat|] == y[j - |x| - 1..j - |x| - 1 + |pat|];
    } else {
      assert pat[|x| - j] == s[j..j + |pat|][|x| - j];
    }
  }

  /**
   * A pattern that does not contain `c` cannot occur across the character `c`:
   * each occurrence in `x + [c] + y` lies wholly inside `x` or wholly inside `y`.
   */
  lemma OccursAcross(x: string, c: char, y: string, pat: string, j: nat)
    requires c !in pat && OccursAt(x + [c] + y, pat, j)
    ensures (j + |pat| <= |x| && OccursAt(x, pat, j))
         || (j > |x| && OccursAt(y, pat, j - |x| - 1))
  {
    OccurrencePlacement(x, c, y, pat, j);
  }

  lemma FreeAcross(x: string, c: char, y: string, pat: string)
    requires c !in pat && !Contains(x, pat) && !Contains(y, pat)
    ensures !Contains(x + [c] + y, pat)
  {
    if Contains(x + [c] + y, pat) {
      var j := FindFrom(x + [c] + y, pat, 0).value;
      OccursAcross(x, c, y, pat, j);
    }
  }

  /** A pattern holding a character that `s` lacks does not occur in `s`. */
  lemma FreeWithout(s: string, pat: string, k: nat)
    requires k < |pat| && pat[k] !in s
    ensures !Contains(s, pat)
  {
  }

  function Shift(o: Option<nat>, d: nat): Option<nat> {
    match o
    case None => None
    case Some(k) => Some(k + d)
  }

  /** Searching `x + [c] + y` for a pattern absent from `x` and without `c` finds what searching `y` finds. */
  lemma FindPastFree(x: string, c: char, y: string, pat: string)
    requires c !in pat && !Contains(x, pat)
    ensures FindFrom(x + [c] + y, pat, 0) == Shift(FindFrom(y, pat, 0), |x| + 1)
  {
    var s := x + [c] + y;
    var a := FindFrom(s, pat, 0);
    var b := FindFrom(y, pat, 0);
    if b.Some? {
      OccursShifted(x, c, y, pat, b.value);
    }
    if a.Some? {
      OccursAcross(x, c, y, pat, a.value);
    }
  }

  /** An occurrence in `y` is an occurrence in `x + [c] + y`, `|x| + 1` places further on. */
  lemma OccursShifted(x: string, c: char, y: string, pat: string, i: nat)
    requires OccursAt(y, pat, i)
    ensures OccursAt(x + [c] + y, pat, i + |x| + 1)
  {
    var s := x + [c] + y;
    assert s[i + |x| + 1..i + |x| + 1 + |pat|] == y[i..i + |pat|];
  }

  /** Searching for one character: the index found holds it and no earlier index does. */
  lemma FoundChar(s: string, c: char, from: nat)
    ensures FindFrom(s, [c], from).Some? ==>
              var e := FindFrom(s, [c], from).value;
              e < |s| && s[e] == c && forall k :: from <= k < e ==> s[k] != c
    ensures FindFrom(s, [c], from).None? ==> forall k :: from <= k < |s| ==> s[k] != c
  {
    var r := FindFrom(s, [c], from);
    var end := if r.Some? then r.value else |s|;
    forall k | from <= k < end && k < |s|
      ensures s[k] != c
    {
      assert s[k..k + 1] == [s[k]];
      assert !OccursAt(s, [c], k);
    }
    if r.Some? {
      assert s[r.value..r.value + 1] == [c];
    }
  }

  /** The first index at or after `from` holding `c` is what the search finds. */
  lemma FirstCharAt(s: string, c: char, from: nat, e: nat)
    requires from <= e < |s| && s[e] == c
    requires forall k :: from <= k < e ==> s[k] != c
    ensures FindFrom(s, [c], from) == Some(e)
  {
    assert s[e..e + 1] == [c];
    assert OccursAt(s, [c], e);
    FoundChar(s, c, from);
  }

  /** A character that is not in `pat` rules out every occurrence whose window covers it. */
  lemma NoOccurrenceOver(s: string, pat: string, i: nat)
    requires i < |s| && s[i] !in pat
    ensures forall j: nat {:trigger OccursAt(s, pat, j)} :: j <= i < j + |pat| ==> !OccursAt(s, pat, j)
  {
    forall j: nat | j <= i < j + |pat| ensures !OccursAt(s, pat, j) {
      if j + |pat| <= |s| {
        assert s[j..j + |pat|][i - j] == s[i];
      }
    }
  }

  /** An occurrence with none before it is the one `find` reports. */
  lemma FirstOccurrence(s: string, pat: string, i: nat)
    requires OccursAt(s, pat, i)
    requires forall j: nat {:trigger OccursAt(s, pat, j)} :: j < i ==> !OccursAt(s, pat, j)
    ensures FindFrom(s, pat, 0) == Some(i)
  {
  }

  /** Searching a string that starts with the pattern finds it at index 0. */
  lemma FindAtStart(s: string, pat: string)
    requires StartsWith(s, pat)
    ensures FindFrom(s, pat, 0) == Some(0)
  {
    assert OccursAt(s, pat, 0);
  }

  /** Splitting at the first occurrence, with none after it, yields the two sides. */
  lemma SplitOnce(s: string, sep: string, i: nat)
    requires |sep| > 0 && FindFrom(s, sep, 0) == Some(i)
    requires !Contains(s[i + |sep|..], sep)
    ensures Split(s, sep) == [s[..i], s[i + |sep|..]]
  {
  }

  /** Deleting a pattern that occurs only at the very start leaves the rest. */
  lemma DeleteLeading(pat: string, t: string)
    requires |pat| > 0 && !Contains(t, pat)
    ensures ReplaceAll(pat + t, pat, "") == t
  {
    FindAtStart(pat + t, pat);
    assert (pat + t)[|pat|..] == t;
    assert (pat + t)[..0] == [];
  }

  // ----- facts about stripping -----

  lemma {:induction false} LStripSpacePrefix(w: string, s: string)
    requires AllSpace(w)
    ensures LStrip(w + s) == LStrip(s)
    decreases |w|
  {
    if w != [] {
      assert (w + s)[1..] == w[1..] + s;
      LStripSpacePrefix(w[1..], s);
    } else {
      assert w + s == s;
    }
  }

  lemma {:induction false} RStripSpaceSuffix(s: string, w: string)
    requires AllSpace(w)
    ensures RStrip(s + w) == RStrip(s)
    decreases |w|
  {
    if w != [] {
      assert (s + w)[..|s + w| - 1] == s + w[..|w| - 1];
      RStripSpaceSuffix(s, w[..|w| - 1]);
    } else {
      assert s + w == s;
    }
  }

  lemma {:induction false} LStripAppend(s: string, w: string)
    requires LStrip(s) != []
    ensures LStrip(s + w) == LStrip(s) + w
    decreases |s|
  {
    if IsSpace(s[0]) {
      assert (s + w)[1..] == s[1..] + w;
      LStripAppend(s[1..], w);
    }
  }

  lemma {:induction false} AllSpaceLStrip(s: string)
    requires AllSpace(s)
    ensures LStrip(s) == []
    decreases |s|
  {
    if s != [] {
      AllSpaceLStrip(s[1..]);
    }
  }

  /** `not s.strip()` holds exactly for the strings made only of whitespace (the empty one included). */
  lemma StripEmpty(s: string)
    ensures Strip(s) == [] <==> AllSpace(s)
  {
    if AllSpace(s) {
      AllSpaceLStrip(s);
    }
  }

  /** Whitespace around a string does not change what `strip()` returns. */
  lemma StripPadded(w1: string, s: string, w2: string)
    requires AllSpace(w1) && AllSpace(w2)
    ensures Strip(w1 + s + w2) == Strip(s)
  {
    assert w1 + s + w2 == w1 + (s + w2);
    LStripSpacePrefix(w1, s + w2);
    if LStrip(s) != [] {
      LStripAppend(s, w2);
      RStripSpaceSuffix(LStrip(s), w2);
    } else {
      var p := s[..|s| - |LStrip(s)|];
      assert p == s;
      assert AllSpace(s + w2);
      AllSpaceLStrip(s + w2);
    }
  }

  /** A stripped string is its own `strip()`. */
  lemma StripStripped(s: string)
    requires IsStripped(s)
    ensures Strip(s) == s
  {
  }
}

/**
 * The string operations of Python that the generator relies on, written out
 * over `seq<char>`: `str.endswith`, the substring test `w in s`,
 * `str.replace` (every occurrence, left to right), decimal rendering of a
 * counter (`f"{n}"`), `str.split(".")[0]` and POSIX `os.path.join`.
 */
module Strings {

  /** Python's `s.endswith(suffix)`. */
  predicate EndsWith(s: string, suffix: string) {
    |suffix| <= |s| && s[|s| - |suffix|..] == suffix
  }

  lemma EndsWithAppended(s: string, suffix: string)
    ensures EndsWith(s + suffix, suffix)
  {
  }

  /** Python's substring test `w in s`: `w` is a prefix of some suffix of `s`. */
  predicate Contains(s: string, w: string)
    decreases |s|
  {
    w <= s || (|s| > 0 && Contains(s[1..], w))
  }

  /** The same test, read as "some window of `s` equals `w`". */
  ghost predicate OccursAt(s: string, w: string, i: int) {
    0 <= i && i + |w| <= |s| && s[i..i + |w|] == w
  }

  lemma {:induction false} ContainsIffWindow(s: string, w: string)
    ensures Contains(s, w) <==> exists i :: OccursAt(s, w, i)
    decreases |s|
  {
    if w <= s {
      assert s[0..|w|] == w;
      assert OccursAt(s, w, 0);
    } else if |s| == 0 {
    } else {
      ContainsIffWindow(s[1..], w);
      if Contains(s[1..], w) {
        var i :| OccursAt(s[1..], w, i);
        assert s[1..][i..i + |w|] == s[i + 1..i + 1 + |w|];
        assert OccursAt(s, w, i + 1);
      }
      if exists i :: OccursAt(s, w, i) {
        var i :| OccursAt(s, w, i);
        if i > 0 {
          assert s[1..][i - 1..i - 1 + |w|] == s[i..i + |w|];
          assert OccursAt(s[1..], w, i - 1);
        }
      }
    }
  }

  /**
   * Python's `s.replace(w, m)`: scanning from the left, every occurrence of
   * `w` that does not overlap an earlier replaced one becomes `m`.  An empty
   * `w` matches before every character and at the end, as in Python.
   */
  function ReplaceAll(s: string, w: string, m: string): string {
    if w == [] then InsertEverywhere(s, m) else ReplaceWord(s, w, m)
  }

  /** `s.replace("", m)`: `m` before every character and at the end. */
  function InsertEverywhere(s: string, m: string): string {
    if s == [] then m else m + [s[0]] + InsertEverywhere(s[1..], m)
  }

  /** `s.replace(w, m)` for a non-empty `w`. */
  function ReplaceWord(s: string, w: string, m: string): string
    requires w != []
    decreases |s|
  {
    if w <= s then m + ReplaceWord(s[|w|..], w, m)
    else if s == [] then []
    else [s[0]] + ReplaceWord(s[1..], w, m)
  }

  lemma OccursAtZero(s: string, w: string)
    ensures OccursAt(s, w, 0) <==> w <= s
  {
    if w <= s {
      assert s[0..|w|] == w;
    }
  }

  lemma OccursAtShift(s: string, w: string, i: nat)
    requires s != []
    ensures OccursAt(s, w, i + 1) <==> OccursAt(s[1..], w, i)
  {
    if i + 1 + |w| <= |s| {
      assert s[1..][i..i + |w|] == s[i + 1..i + 1 + |w|];
    }
  }

  lemma ReplaceHit(s: string, w: string, m: string)
    requires w != [] && w <= s
    ensures ReplaceAll(s, w, m) == m + ReplaceAll(s[|w|..], w, m)
  {
  }

  lemma ReplaceKeep(s: string, w: string, m: string)
    requires w != [] && s != [] && !(w <= s)
    ensures ReplaceAll(s, w, m) == [s[0]] + ReplaceAll(s[1..], w, m)
  {
  }

  lemma NoEarlierOccurrenceShift(s: string, w: string, i: nat)
    requires 0 < i && OccursAt(s, w, i)
    requires forall j :: 0 <= j < i ==> !OccursAt(s, w, j)
    ensures OccursAt(s[1..], w, i - 1)
    ensures forall j :: 0 <= j < i - 1 ==> !OccursAt(s[1..], w, j)
  {
    OccursAtShift(s, w, i - 1);
    forall j | 0 <= j < i - 1 ensures !OccursAt(s[1..], w, j) {
      OccursAtShift(s, w, j);
    }
  }

  lemma SplitShift(s: string, i: nat, n: nat, m: string, rest: string)
    requires 0 < i && i + n <= |s|
    ensures [s[0]] + (s[1..][..i - 1] + m + rest) == s[..i] + m + rest
    ensures s[1..][i - 1 + n..] == s[i + n..]
  {
    assert s[..i] == [s[0]] + s[1..][..i - 1];
  }

  lemma ReplaceAtStart(s: string, w: string, m: string)
    requires w != [] && OccursAt(s, w, 0)
    ensures ReplaceAll(s, w, m) == s[..0] + m + ReplaceAll(s[|w|..], w, m)
  {
    OccursAtZero(s, w);
    ReplaceHit(s, w, m);
    assert s[..0] + m == m;
  }

  /** The step of the induction: the first occurrence found in `s[1..]` is the one in `s`. */
  lemma ReplaceStepBack(s: string, w: string, m: string, i: nat)
    requires 0 < i && w != [] && OccursAt(s, w, i) && !OccursAt(s, w, 0)
    requires ReplaceAll(s[1..], w, m) == s[1..][..i - 1] + m + ReplaceAll(s[1..][i - 1 + |w|..], w, m)
    ensures ReplaceAll(s, w, m) == s[..i] + m + ReplaceAll(s[i + |w|..], w, m)
  {
    OccursAtZero(s, w);
    ReplaceKeep(s, w, m);
    SplitShift(s, i, |w|, m, ReplaceAll(s[i + |w|..], w, m));
  }

  /**
   * Replacing keeps the text before the first occurrence, puts the marker in
   * place of that occurrence, and carries on after it.
   */
  lemma {:induction false} ReplaceAtFirstOccurrence(s: string, w: string, m: string, i: nat)
    requires w != [] && OccursAt(s, w, i)
    requires forall j :: 0 <= j < i ==> !OccursAt(s, w, j)
    ensures ReplaceAll(s, w, m) == s[..i] + m + ReplaceAll(s[i + |w|..], w, m)
    decreases i
  {
    if i == 0 {
      ReplaceAtStart(s, w, m);
    } else {
      NoEarlierOccurrenceShift(s, w, i);
      ReplaceAtFirstOccurrence(s[1..], w, m, i - 1);
      ReplaceStepBack(s, w, m, i);
    }
  }

  /** When `w` does not occur, replacing it changes nothing. */
  lemma {:induction false} ReplaceAbsent(s: string, w: string, m: string)
    requires !Contains(s, w)
    ensures ReplaceAll(s, w, m) == s
    decreases |s|
  {
    if s != [] {
      ReplaceAbsent(s[1..], w, m);
    }
  }

  /** When `w` does occur, the replacement text appears in the result. */
  lemma {:induction false} ReplaceShowsMarker(s: string, w: string, m: string)
    requires Contains(s, w)
    ensures Contains(ReplaceAll(s, w, m), m)
    decreases |s|
  {
    var r := ReplaceAll(s, w, m);
    if w == [] || w <= s {
      assert m <= r;
    } else {
      ReplaceShowsMarker(s[1..], w, m);
      assert r[1..] == ReplaceAll(s[1..], w, m);
    }
  }

  /** No character of `m` occurs in `w`. */
  predicate Disjoint(m: string, w: string) {
    forall i :: 0 <= i < |m| ==> m[i] !in w
  }

  /**
   * A prefix of the result either already holds a character of `m` or is
   * a prefix of the original text (nothing has been replaced yet).
   */
  lemma {:induction false} ReplacePrefix(t: string, w: string, m: string, j: nat)
    requires w != [] && m != []
    requires j <= |ReplaceAll(t, w, m)|
    ensures (exists i :: 0 <= i < j && ReplaceAll(t, w, m)[i] in m)
         || (j <= |t| && ReplaceAll(t, w, m)[..j] == t[..j])
    decreases |t|
  {
    var r := ReplaceAll(t, w, m);
    if j == 0 {
    } else if w <= t {
      assert r[0] == m[0];
    } else if t == [] {
    } else {
      var r' := ReplaceAll(t[1..], w, m);
      assert r == [t[0]] + r';
      ReplacePrefix(t[1..], w, m, j - 1);
      if exists i :: 0 <= i < j - 1 && r'[i] in m {
        var i :| 0 <= i < j - 1 && r'[i] in m;
        assert r[i + 1] == r'[i];
      } else {
        assert r[..j] == [t[0]] + r'[..j - 1];
        assert t[..j] == [t[0]] + t[1..][..j - 1];
      }
    }
  }

  /** A text that starts with `m` contains `w` only inside the rest. */
  lemma {:induction false} ContainsAfterMarker(m: string, rest: string, w: string)
    requires w != [] && Disjoint(m, w)
    requires Contains(m + rest, w)
    ensures Contains(rest, w)
    decreases |m|
  {
    if m != [] {
      assert !(w <= m + rest) by {
        assert w[0] in w;
        assert (m + rest)[0] == m[0];
      }
      assert (m + rest)[1..] == m[1..] + rest;
      ContainsAfterMarker(m[1..], rest, w);
    } else {
      assert m + rest == rest;
    }
  }

  /**
   * `str.replace` blanks EVERY occurrence: when the replacement shares no
   * character with the (non-empty) word, the word no longer occurs at all.
   */
  lemma {:induction false} ReplaceRemovesEvery(s: string, w: string, m: string)
    requires w != [] && m != [] && Disjoint(m, w)
    ensures !Contains(ReplaceAll(s, w, m), w)
    decreases |s|
  {
    var r := ReplaceAll(s, w, m);
    if w <= s {
      ReplaceRemovesEvery(s[|w|..], w, m);
      if Contains(r, w) {
        ContainsAfterMarker(m, ReplaceAll(s[|w|..], w, m), w);
      }
    } else if s == [] {
      assert r == [];
    } else {
      var r' := ReplaceAll(s[1..], w, m);
      assert r == [s[0]] + r';
      ReplaceRemovesEvery(s[1..], w, m);
      assert r[1..] == r';
      NoMatchAtFront(s, w, m);
    }
  }

  /** Where `w` does not start the text, it does not start the result either. */
  lemma NoMatchAtFront(s: string, w: string, m: string)
    requires w != [] && m != [] && Disjoint(m, w)
    requires s != [] && !(w <= s)
    ensures !(w <= [s[0]] + ReplaceAll(s[1..], w, m))
  {
    var r' := ReplaceAll(s[1..], w, m);
    if |w| - 1 <= |r'| {
      ReplacePrefix(s[1..], w, m, |w| - 1);
      FrontMismatch(s, r', w, m);
    }
  }

  /**
   * The character argument behind `NoMatchAtFront`: after the first
   * character, either a marker character comes within `|w| - 1` positions,
   * or the text is copied that far, and neither can start with `w`.
   */
  lemma FrontMismatch(s: string, r': string, w: string, m: string)
    requires w != [] && Disjoint(m, w) && s != [] && !(w <= s)
    requires |w| - 1 <= |r'|
    requires (exists i :: 0 <= i < |w| - 1 && r'[i] in m)
          || (|w| - 1 <= |s[1..]| && r'[..|w| - 1] == s[1..][..|w| - 1])
    ensures !(w <= [s[0]] + r')
  {
    var t := [s[0]] + r';
    var k := |w| - 1;
    if exists i :: 0 <= i < k && r'[i] in m {
      var i :| 0 <= i < k && r'[i] in m;
      var q :| 0 <= q < |m| && m[q] == r'[i];
      assert w[i + 1] in w;
      assert t[i + 1] == m[q] && m[q] !in w;
      assert t[i + 1] != w[i + 1];
    } else {
      assert t[..|w|] == [s[0]] + r'[..k];
      assert s[..|w|] == [s[0]] + s[1..][..k];
      assert t[..|w|] == s[..|w|];
    }
  }

  predicate IsDigit(c: char) {
    '0' <= c <= '9'
  }

  predicate AllDigits(s: string) {
    forall i :: 0 <= i < |s| ==> IsDigit(s[i])
  }

  function DigitChar(d: nat): (c: char)
    requires d < 10
    ensures IsDigit(c) && c as int - '0' as int == d
  {
    "0123456789"[d]
  }

  /** Python's `f"{n}"` for a non-negative counter. */
  function NatToString(n: nat): (r: string)
    ensures r != [] && AllDigits(r)
    ensures r[0] == '0' ==> n == 0
    ensures |r| == 1 <==> n < 10
  {
    if n < 10 then [DigitChar(n)] else NatToString(n / 10) + [DigitChar(n % 10)]
  }

  /** The value of a decimal numeral (the inverse of `NatToString`). */
  function DecimalValue(s: string): nat
    requires AllDigits(s)
  {
    if s == [] then 0
    else DecimalValue(s[..|s| - 1]) * 10 + (s[|s| - 1] as int - '0' as int)
  }

  lemma {:induction false} NatToStringRoundTrip(n: nat)
    ensures DecimalValue(NatToString(n)) == n
  {
    if n >= 10 {
      var s := NatToString(n);
      assert s[..|s| - 1] == NatToString(n / 10);
      NatToStringRoundTrip(n / 10);
    }
  }

  lemma NatToStringInjective(a: nat, b: nat)
    requires NatToString(a) == NatToString(b)
    ensures a == b
  {
    NatToStringRoundTrip(a);
    NatToStringRoundTrip(b);
  }

  /** Python's `s.split(".")[0]`: everything before the first dot. */
  function BeforeFirstDot(s: string): (r: string)
    ensures r <= s && '.' !in r
    ensures r == s || s[|r|] == '.'
  {
    if s == [] || s[0] == '.' then [] else [s[0]] + BeforeFirstDot(s[1..])
  }

  /** POSIX `os.path.join(folder, name)` for one name. */
  function JoinPath(folder: string, name: string): (r: string)
    ensures EndsWith(r, name)
    ensures name != [] && name[0] == '/' ==> r == name
    ensures (name == [] || name[0] != '/') && (folder == [] || folder[|folder| - 1] == '/') ==>
      r == folder + name
    ensures (name == [] || name[0] != '/') && folder != [] && folder[|folder| - 1] != '/' ==>
      r == folder + "/" + name
  {
    EndsWithAppended(folder, name);
    EndsWithAppended(folder + "/", name);
    if name != [] && name[0] == '/' then
      assert name[|name| - |name|..] == name;
      name
    else if folder == [] || folder[|folder| - 1] == '/' then folder + name
    else folder + "/" + name
  }
}

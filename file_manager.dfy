/**
 * Collision-free file naming: `FileManager.get_unique_filename` and the two
 * counter loops of `DocumentGenerator.generate_test_paper` in services.py.
 *
 * The output folder is modelled by the finite set of names already in it.
 * All three loops try `{prefix}{ext}`, then `{prefix}-1{ext}`,
 * `{prefix}-2{ext}`, ... and stop at the first name that is not taken.
 */
module FileManager {
  import opened Strings

  /** The candidate with counter `n`. */
  function Numbered(prefix: string, ext: string, n: nat): string {
    if n == 0 then prefix + ext else prefix + "-" + NatToString(n) + ext
  }

  /** Distinct counters give distinct candidates, so the loops always move on. */
  lemma NumberedInjective(prefix: string, ext: string, a: nat, b: nat)
    ensures a != b ==> Numbered(prefix, ext, a) != Numbered(prefix, ext, b)
  {
    if a != b && a != 0 && b != 0 {
      var sa, sb := NatToString(a), NatToString(b);
      var x, y := prefix + "-" + sa + ext, prefix + "-" + sb + ext;
      if x == y {
        assert |sa| == |sb|;
        assert x[|prefix| + 1..|prefix| + 1 + |sa|] == sa;
        assert y[|prefix| + 1..|prefix| + 1 + |sb|] == sb;
        NatToStringInjective(a, b);
      }
    }
  }

  /**
   * The loop: starting from counter 0, step past every taken candidate.
   * It returns the first free candidate and its counter: the result is not
   * taken, and every candidate before it is.
   */
  method FirstFreeNumbered(existing: set<string>, prefix: string, ext: string) returns (name: string, n: nat)
    ensures name == Numbered(prefix, ext, n)
    ensures name !in existing
    ensures forall j :: 0 <= j < n ==> Numbered(prefix, ext, j) in existing
  {
    n := 0;
    name := prefix + ext;
    ghost var tried: set<string> := {};
    while name in existing
      invariant name == Numbered(prefix, ext, n)
      invariant forall j :: 0 <= j < n ==> Numbered(prefix, ext, j) in tried
      invariant forall x :: x in tried ==> exists j :: 0 <= j < n && x == Numbered(prefix, ext, j)
      invariant tried <= existing
      decreases existing - tried
    {
      forall j | 0 <= j < n ensures Numbered(prefix, ext, j) != name {
        NumberedInjective(prefix, ext, j, n);
      }
      tried := tried + {name};
      n := n + 1;
      name := prefix + "-" + NatToString(n) + ext;
    }
  }

  /** The first free candidate is unique, whatever loop computed it. */
  ghost predicate IsFirstFree(existing: set<string>, prefix: string, ext: string, name: string) {
    name !in existing &&
    exists n: nat :: name == Numbered(prefix, ext, n) &&
      forall j :: 0 <= j < n ==> Numbered(prefix, ext, j) in existing
  }

  /** `FileManager.get_unique_filename(base_filename, extension)`. */
  method GetUniqueFilename(existing: set<string>, baseFilename: string, extension: string := ".docx")
    returns (filename: string)
    ensures filename !in existing
    ensures IsFirstFree(existing, baseFilename, extension, filename)
  {
    var n;
    filename, n := FirstFreeNumbered(existing, baseFilename, extension);
  }

  lemma {:induction false} FirstFreeIsUnique(existing: set<string>, prefix: string, ext: string, a: string, b: string)
    requires IsFirstFree(existing, prefix, ext, a) && IsFirstFree(existing, prefix, ext, b)
    ensures a == b
  {
  }

  /** `{base}_test.docx` for counter 0, `{base}_test-{k}.docx` otherwise. */
  function TestFileName(base: string, k: nat): string {
    if k == 0 then base + "_test.docx" else base + "_test-" + NatToString(k) + ".docx"
  }

  /** The answer name reuses the test counter `k`, even when it is 0. */
  function AnswerPrefix(base: string, k: nat): string {
    base + "_test-" + NatToString(k) + "-ans"
  }

  /** `{base}_test-{k}-ans.docx` for counter 0, `{base}_test-{k}-ans-{n}.docx` otherwise. */
  function AnswerFileName(base: string, k: nat, n: nat): string {
    if n == 0 then base + "_test-" + NatToString(k) + "-ans.docx"
    else base + "_test-" + NatToString(k) + "-ans-" + NatToString(n) + ".docx"
  }

  lemma TestFileNameIsNumbered(base: string, k: nat)
    ensures TestFileName(base, k) == Numbered(base + "_test", ".docx", k)
  {
  }

  lemma AnswerFileNameIsNumbered(base: string, k: nat, n: nat)
    ensures AnswerFileName(base, k, n) == Numbered(AnswerPrefix(base, k), ".docx", n)
  {
  }

  /** Two numerals followed by non-digits can only match if the numerals are equal. */
  lemma NumeralPrefixUnique(d1: string, r1: string, d2: string, r2: string)
    requires AllDigits(d1) && AllDigits(d2)
    requires r1 != [] && !IsDigit(r1[0]) && r2 != [] && !IsDigit(r2[0])
    requires d1 + r1 == d2 + r2
    ensures d1 == d2
  {
    var k := if |d1| <= |d2| then |d1| else |d2|;
    var c := (d1 + r1)[k];
    assert IsDigit(c) <==> k < |d1|;
    assert c == (d2 + r2)[k];
    assert IsDigit(c) <==> k < |d2|;
    assert (d1 + r1)[..|d1|] == d1;
    assert (d2 + r2)[..|d2|] == d2;
  }

  /** A test file name is never an answer file name, so the two files of a run never collide. */
  lemma TestAndAnswerNamesDiffer(base: string, k: nat, k': nat, n: nat)
    ensures TestFileName(base, k) != AnswerFileName(base, k', n)
  {
    var t, a := TestFileName(base, k), AnswerFileName(base, k', n);
    var p := |base| + 5;
    var sk' := NatToString(k');
    var answerRest := if n == 0 then "-ans.docx" else "-ans-" + NatToString(n) + ".docx";
    assert a == base + "_test-" + (sk' + answerRest);
    if k == 0 {
      assert t[p] == '.';
      assert a[p] == '-';
    } else {
      var sk := NatToString(k);
      assert t == base + "_test-" + (sk + ".docx");
      if t == a {
        var q := base + "_test-";
        assert (q + (sk + ".docx"))[|q|..] == sk + ".docx";
        assert (q + (sk' + answerRest))[|q|..] == sk' + answerRest;
        NumeralPrefixUnique(sk, ".docx", sk', answerRest);
      }
    }
  }

  /** Distinct counters give distinct answer names (for the first answer candidate). */
  lemma FirstAnswerNameInjective(base: string, a: nat, b: nat)
    ensures a != b ==> AnswerFileName(base, a, 0) != AnswerFileName(base, b, 0)
  {
    if a != b {
      var sa, sb := NatToString(a), NatToString(b);
      if AnswerFileName(base, a, 0) == AnswerFileName(base, b, 0) {
        assert base + "_test-" + sa + "-ans.docx" == base + "_test-" + (sa + "-ans.docx");
        assert base + "_test-" + sb + "-ans.docx" == base + "_test-" + (sb + "-ans.docx");
        var q := base + "_test-";
        assert (q + (sa + "-ans.docx"))[|q|..] == sa + "-ans.docx";
        assert (q + (sb + "-ans.docx"))[|q|..] == sb + "-ans.docx";
        NumeralPrefixUnique(sa, "-ans.docx", sb, "-ans.docx");
        NatToStringInjective(a, b);
      }
    }
  }

  /**
   * After `runs` earlier runs against an output folder that holds exactly
   * their files, the next run takes test counter `runs` and the first answer
   * candidate: neither name is taken.
   */
  lemma NextRunGetsNextCounter(existing: set<string>, base: string, runs: nat)
    requires forall j :: 0 <= j < runs ==> TestFileName(base, j) in existing
    requires forall x :: x in existing ==>
      exists j :: 0 <= j < runs && (x == TestFileName(base, j) || x == AnswerFileName(base, j, 0))
    ensures TestFileName(base, runs) !in existing
    ensures AnswerFileName(base, runs, 0) !in existing
  {
    forall j | 0 <= j < runs
      ensures TestFileName(base, runs) != TestFileName(base, j)
      ensures TestFileName(base, runs) != AnswerFileName(base, j, 0)
      ensures AnswerFileName(base, runs, 0) != TestFileName(base, j)
      ensures AnswerFileName(base, runs, 0) != AnswerFileName(base, j, 0)
    {
      TestFileNameIsNumbered(base, runs);
      TestFileNameIsNumbered(base, j);
      NumberedInjective(base + "_test", ".docx", j, runs);
      TestAndAnswerNamesDiffer(base, runs, j, 0);
      TestAndAnswerNamesDiffer(base, j, runs, 0);
      FirstAnswerNameInjective(base, j, runs);
    }
  }
}

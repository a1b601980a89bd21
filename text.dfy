/** Whitespace trimming and answer grading, as done by `str.strip()` and `==`
    in the answer check. Strings are sequences of Unicode scalar values. */
module Text {

  /** The characters Python's `str.isspace` accepts, which are the ones
      `str.strip()` removes when called without arguments. */
  const Whitespace: set<char> :=
    {'\t', '\n', '\U{B}', '\U{C}', '\r', '\U{1C}', '\U{1D}', '\U{1E}', '\U{1F}', ' ',
     '\U{85}', '\U{A0}', '\U{1680}', '\U{2000}', '\U{2001}', '\U{2002}', '\U{2003}',
     '\U{2004}', '\U{2005}', '\U{2006}', '\U{2007}', '\U{2008}', '\U{2009}', '\U{200A}',
     '\U{2028}', '\U{2029}', '\U{202F}', '\U{205F}', '\U{3000}'}

  predicate IsSpace(c: char)
  {
    c in Whitespace
  }

  predicate AllSpace(s: string)
  {
    forall i :: 0 <= i < |s| ==> IsSpace(s[i])
  }

  /** Drops the leading whitespace (see TrimStartShape). */
  function TrimStart(s: string): (r: string)
  {
    if s != [] && IsSpace(s[0]) then TrimStart(s[1..]) else s
  }

  /** Drops the trailing whitespace (see TrimEndShape). */
  function TrimEnd(s: string): (r: string)
  {
    if s != [] && IsSpace(s[|s| - 1]) then TrimEnd(s[..|s| - 1]) else s
  }

  /** TrimStart gives the longest suffix of `s` that does not start with a
      space: what it drops is all whitespace, and what it keeps starts with a
      character that is not. */
  lemma {:induction false} TrimStartShape(s: string)
    ensures var r := TrimStart(s);
      |r| <= |s| && r == s[|s| - |r|..] && AllSpace(s[..|s| - |r|]) &&
      (r == [] || !IsSpace(r[0]))
  {
    if s != [] && IsSpace(s[0]) {
      TrimStartShape(s[1..]);
      var r := TrimStart(s);
      assert s[..|s| - |r|] == [s[0]] + s[1..][..|s| - 1 - |r|];
    }
  }

  /** TrimEnd gives the longest prefix of `s` that does not end with a space:
      what it drops is all whitespace, and what it keeps ends with a character
      that is not. */
  lemma {:induction false} TrimEndShape(s: string)
    ensures var r := TrimEnd(s);
      |r| <= |s| && r == s[..|r|] && AllSpace(s[|r|..]) &&
      (r == [] || !IsSpace(r[|r| - 1]))
  {
    if s != [] && IsSpace(s[|s| - 1]) {
      var s' := s[..|s| - 1];
      TrimEndShape(s');
      var r := TrimEnd(s);
      assert s[|r|..] == s'[|r|..] + [s[|s| - 1]];
    }
  }

  /** `str.strip()` without arguments. The result is a piece of `s` that
      neither starts nor ends with whitespace; TrimIsCore says which piece. */
  function Trim(s: string): (r: string)
    ensures |r| <= |s|
    ensures r == [] || (!IsSpace(r[0]) && !IsSpace(r[|r| - 1]))
  {
    TrimStartShape(s);
    TrimEndShape(TrimStart(s));
    TrimEnd(TrimStart(s))
  }

  /** The grade of an answer: the stripped input equals the stripped expected
      answer, character for character. */
  function Matches(input: string, expected: string): (r: bool)
    ensures input == expected ==> r
  {
    Trim(input) == Trim(expected)
  }

  /** TrimStart stops at the first character that is not a space. */
  lemma {:induction false} TrimStartAt(s: string, i: nat)
    requires i <= |s| && AllSpace(s[..i])
    requires i == |s| || !IsSpace(s[i])
    ensures TrimStart(s) == s[i..]
  {
    if i > 0 {
      assert IsSpace(s[..i][0]);
      assert s[1..][..i - 1] == s[..i][1..];
      TrimStartAt(s[1..], i - 1);
    }
  }

  /** TrimEnd stops at the last character that is not a space. */
  lemma {:induction false} TrimEndAt(s: string, j: nat)
    requires j <= |s| && AllSpace(s[j..])
    requires j == 0 || !IsSpace(s[j - 1])
    ensures TrimEnd(s) == s[..j]
  {
    if j < |s| {
      assert IsSpace(s[j..][|s| - 1 - j]);
      var s' := s[..|s| - 1];
      assert s'[j..] == s[j..][..|s| - 1 - j];
      TrimEndAt(s', j);
      assert s'[..j] == s[..j];
    }
  }

  /** Trim cuts `s` into three pieces: whitespace, a core that neither starts
      nor ends with whitespace, and whitespace. Any such cut gives Trim. */
  lemma TrimIsCore(s: string, i: nat, j: nat)
    requires i <= j <= |s|
    requires AllSpace(s[..i]) && AllSpace(s[j..])
    requires i == j || (!IsSpace(s[i]) && !IsSpace(s[j - 1]))
    ensures Trim(s) == s[i..j]
  {
    if i == j {
      AllSpaceJoin(s[..i], s[j..]);
      assert s[..i] + s[j..] == s;
      TrimStartAt(s, |s|);
    } else {
      TrimStartAt(s, i);
      var t := s[i..];
      assert t[j - i..] == s[j..];
      TrimEndAt(t, j - i);
      assert t[..j - i] == s[i..j];
    }
  }

  lemma AllSpaceJoin(a: string, b: string)
    requires AllSpace(a) && AllSpace(b)
    ensures AllSpace(a + b)
  {
  }

  /** Stripping leaves nothing to strip. */
  lemma TrimIdempotent(s: string)
    ensures Trim(Trim(s)) == Trim(s)
  {
    TrimStartShape(s);
    TrimEndShape(TrimStart(s));
    var t := Trim(s);
    assert t[..0] == [] && t[|t|..] == [];
    TrimIsCore(t, 0, |t|);
  }

  /** Leading whitespace does not change what TrimStart keeps. */
  lemma {:induction false} TrimStartSpaces(p: string, x: string)
    requires AllSpace(p)
    ensures TrimStart(p + x) == TrimStart(x)
  {
    if p == [] {
      assert p + x == x;
    } else {
      assert (p + x)[0] == p[0] && (p + x)[1..] == p[1..] + x;
      TrimStartSpaces(p[1..], x);
    }
  }

  /** Trailing whitespace does not change what TrimEnd keeps. */
  lemma {:induction false} TrimEndSpaces(x: string, q: string)
    requires AllSpace(q)
    ensures TrimEnd(x + q) == TrimEnd(x)
  {
    if q == [] {
      assert x + q == x;
    } else {
      var q' := q[..|q| - 1];
      assert (x + q)[|x + q| - 1] == q[|q| - 1] && (x + q)[..|x + q| - 1] == x + q';
      TrimEndSpaces(x, q');
    }
  }

  /** TrimStart of a concatenation: unless the left part is all whitespace,
      the right part is kept whole. */
  lemma {:induction false} TrimStartAppend(s: string, q: string)
    ensures TrimStart(s) == [] ==> TrimStart(s + q) == TrimStart(q)
    ensures TrimStart(s) != [] ==> TrimStart(s + q) == TrimStart(s) + q
  {
    if s == [] {
      assert s + q == q;
    } else {
      assert (s + q)[0] == s[0] && (s + q)[1..] == s[1..] + q;
      if IsSpace(s[0]) {
        TrimStartAppend(s[1..], q);
      }
    }
  }

  /** Trailing whitespace does not change the stripped string. */
  lemma TrimTrailing(s: string, q: string)
    requires AllSpace(q)
    ensures Trim(s + q) == Trim(s)
  {
    TrimStartAppend(s, q);
    if TrimStart(s) == [] {
      TrimStartSpaces(q, []);
      assert q + [] == q;
    } else {
      TrimEndSpaces(TrimStart(s), q);
    }
  }

  /** Leading and trailing whitespace do not change the stripped string. */
  lemma TrimPadded(p: string, s: string, q: string)
    requires AllSpace(p) && AllSpace(q)
    ensures Trim(p + s + q) == Trim(s)
  {
    assert p + s + q == p + (s + q);
    TrimStartSpaces(p, s + q);
    TrimTrailing(s, q);
  }

  /** Grading ignores surrounding whitespace on the input. */
  lemma MatchesIgnoresPadding(p: string, input: string, q: string, expected: string)
    requires AllSpace(p) && AllSpace(q)
    ensures Matches(p + input + q, expected) <==> Matches(input, expected)
  {
    TrimPadded(p, input, q);
  }

  /** A string that neither starts nor ends with whitespace is its own strip. */
  lemma TrimUnpadded(s: string)
    requires s == [] || (!IsSpace(s[0]) && !IsSpace(s[|s| - 1]))
    ensures Trim(s) == s
  {
    assert s[..0] == [] && s[|s|..] == [] && s[0..|s|] == s;
    TrimIsCore(s, 0, |s|);
  }

  /** On strings without surrounding whitespace, grading is plain equality:
      case and inner spacing count. */
  lemma MatchesIsExact(input: string, expected: string)
    requires input == [] || (!IsSpace(input[0]) && !IsSpace(input[|input| - 1]))
    requires expected == [] || (!IsSpace(expected[0]) && !IsSpace(expected[|expected| - 1]))
    ensures Matches(input, expected) <==> input == expected
  {
    TrimUnpadded(input);
    TrimUnpadded(expected);
  }

  /** A trailing space is forgiven. */
  lemma TrailingSpaceForgiven()
    ensures Matches("猫 ", "猫")
  {
    var padded, cat := "猫 ", "猫";
    assert padded[1..] == " " && padded[..0] == [] && padded[0..1] == cat;
    assert cat[1..] == [] && cat[..0] == [] && cat[0..1] == cat;
    TrimIsCore(padded, 0, 1);
    TrimIsCore(cat, 0, 1);
  }

  /** A change of case is not forgiven. */
  lemma CaseCounts()
    ensures !Matches("Neko", "neko")
  {
    var neko, upper := "neko", "Neko";
    assert !IsSpace(neko[0]) && !IsSpace(neko[3]);
    assert !IsSpace(upper[0]) && !IsSpace(upper[3]);
    MatchesIsExact(upper, neko);
  }

  /** A change of inner spacing is not forgiven. */
  lemma InnerSpaceCounts()
    ensures !Matches("ne ko", "neko")
  {
    var neko, spaced := "neko", "ne ko";
    assert !IsSpace(neko[0]) && !IsSpace(neko[3]);
    assert !IsSpace(spaced[0]) && !IsSpace(spaced[4]);
    MatchesIsExact(spaced, neko);
  }
}

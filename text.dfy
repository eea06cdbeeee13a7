/** String primitives with Python's semantics, used by the field normaliser and
    the payer-name cleaner: whitespace stripping, non-overlapping replace-all,
    substring containment, split-before-a-character and upper-casing. */
module Text {

  /** Python's `str.isspace` for one code point: the ASCII whitespace and
      separator controls, NEL, NBSP and the Unicode space separators. */
  predicate IsSpace(c: char)
  {
    c == ' ' || ('\t' <= c <= '\r') || ('\U{1C}' <= c <= '\U{1F}')
    || c == '\U{85}' || c == '\U{A0}' || c == '\U{1680}'
    || ('\U{2000}' <= c <= '\U{200A}') || c == '\U{2028}' || c == '\U{2029}'
    || c == '\U{202F}' || c == '\U{205F}' || c == '\U{3000}'
  }

  predicate AllSpace(s: string)
  {
    forall i :: 0 <= i < |s| ==> IsSpace(s[i])
  }

  function StripLeft(s: string): (r: string)
    ensures |r| <= |s| && r == s[|s| - |r|..]
    ensures AllSpace(s[..|s| - |r|])
    ensures r == [] || !IsSpace(r[0])
  {
    if |s| > 0 && IsSpace(s[0]) then
      var t := StripLeft(s[1..]);
      LeftStep(s, s[1..], t);
      t
    else s
  }

  function StripRight(s: string): (r: string)
    ensures |r| <= |s| && r == s[..|r|]
    ensures AllSpace(s[|r|..])
    ensures r == [] || !IsSpace(r[|r| - 1])
  {
    if |s| > 0 && IsSpace(s[|s| - 1]) then
      var t := StripRight(s[..|s| - 1]);
      RightStep(s, s[..|s| - 1], t);
      t
    else s
  }

  /** A leading space followed by a stripped tail: the tail's suffix is a
      suffix of the whole, behind spaces only. */
  lemma LeftStep(s: string, u: string, t: string)
    requires |s| > 0 && IsSpace(s[0]) && u == s[1..]
    requires |t| <= |u| && t == u[|u| - |t|..] && AllSpace(u[..|u| - |t|])
    ensures |t| <= |s| && t == s[|s| - |t|..] && AllSpace(s[..|s| - |t|])
  {
    assert s[..|s| - |t|] == [s[0]] + u[..|u| - |t|];
    SpacesJoined([s[0]], u[..|u| - |t|]);
  }

  /** A trailing space after a stripped front: the front's prefix is a
      prefix of the whole, before spaces only. */
  lemma RightStep(s: string, u: string, t: string)
    requires |s| > 0 && IsSpace(s[|s| - 1]) && u == s[..|s| - 1]
    requires |t| <= |u| && t == u[..|t|] && AllSpace(u[|t|..])
    ensures |t| <= |s| && t == s[..|t|] && AllSpace(s[|t|..])
  {
    assert s[|t|..] == u[|t|..] + [s[|s| - 1]];
    SpacesJoined(u[|t|..], [s[|s| - 1]]);
  }

  lemma SpacesJoined(a: string, b: string)
    requires AllSpace(a) && AllSpace(b)
    ensures AllSpace(a + b)
  {
  }

  /** Python's `s.strip()`: the longest infix of `s` that neither starts nor
      ends with whitespace, once only whitespace has been cut from both ends. */
  function Strip(s: string): (r: string)
    ensures exists i, j ::
      0 <= i <= j <= |s| && r == s[i..j] && AllSpace(s[..i]) && AllSpace(s[j..])
    ensures r == [] || (!IsSpace(r[0]) && !IsSpace(r[|r| - 1]))
  {
    var l := StripLeft(s);
    var r := StripRight(l);
    StripBoth(s, l, r);
    r
  }

  /** Cutting whitespace from the left of `s` and then from the right of
      what remains leaves an infix of `s` framed by whitespace. */
  lemma StripBoth(s: string, l: string, r: string)
    requires |l| <= |s| && l == s[|s| - |l|..] && AllSpace(s[..|s| - |l|])
    requires |r| <= |l| && r == l[..|r|] && AllSpace(l[|r|..])
    ensures r == s[|s| - |l|..|s| - |l| + |r|] && AllSpace(s[|s| - |l| + |r|..])
  {
    var i := |s| - |l|;
    assert s[i..][..|r|] == s[i..i + |r|];
    assert s[i..][|r|..] == s[i + |r|..];
  }

  /** `p` is a prefix of `s`. */
  predicate StartsWith(s: string, p: string)
  {
    |p| <= |s| && s[..|p|] == p
  }

  /** Python's `p in s`. */
  predicate Contains(s: string, p: string)
    decreases |s|
  {
    StartsWith(s, p) || (|s| > 0 && Contains(s[1..], p))
  }

  /** Python's `s.replace(p, r)` for a non-empty pattern: a left-to-right scan
      that replaces non-overlapping occurrences and does not rescan what it
      has produced. */
  function ReplaceAll(s: string, p: string, r: string): string
    requires |p| > 0
    decreases |s|
  {
    if |s| < |p| then s
    else if s[..|p|] == p then r + ReplaceAll(s[|p|..], p, r)
    else [s[0]] + ReplaceAll(s[1..], p, r)
  }

  /** The text before the first `c` (all of `s` when there is none): Python's
      `s.split(c)[0]`. */
  function Before(s: string, c: char): (r: string)
    ensures |r| <= |s| && r == s[..|r|] && c !in r
    ensures |r| < |s| ==> s[|r|] == c
  {
    if |s| == 0 || s[0] == c then [] else [s[0]] + Before(s[1..], c)
  }

  /** Python's `str.upper` on one code point, for ASCII and Latin-1 letters. */
  function UpperChar(c: char): char
  {
    if 'a' <= c <= 'z' then (c as int - 32) as char
    else if '\U{E0}' <= c <= '\U{FE}' && c != '\U{F7}' then (c as int - 32) as char
    else if c == '\U{FF}' then '\U{178}'
    else if c == '\U{B5}' then '\U{39C}'
    else c
  }

  function Upper(s: string): (r: string)
    ensures |r| == |s|
    ensures forall i :: 0 <= i < |s| ==> r[i] == UpperChar(s[i])
  {
    seq(|s|, i requires 0 <= i < |s| => UpperChar(s[i]))
  }

  /** No ASCII lower-case letter occurs in `s`. */
  predicate NoAsciiLower(s: string)
  {
    forall i :: 0 <= i < |s| ==> !('a' <= s[i] <= 'z')
  }

  // ---------------------------------------------------------------------------
  // Lemmas

  /** `p` occurs in `s` at position `i`. */
  predicate MatchAt(s: string, p: string, i: int)
  {
    0 <= i <= |s| - |p| && s[i..i + |p|] == p
  }

  /** Containment is the existence of a matching window. */
  lemma {:induction false} ContainsIff(s: string, p: string)
    ensures Contains(s, p) <==> exists i :: MatchAt(s, p, i)
    decreases |s|
  {
    if StartsWith(s, p) {
      assert MatchAt(s, p, 0);
    } else if |s| > 0 {
      ContainsIff(s[1..], p);
      if Contains(s[1..], p) {
        var i :| MatchAt(s[1..], p, i);
        assert s[1..][i..i + |p|] == s[i + 1..i + 1 + |p|];
        assert MatchAt(s, p, i + 1);
      }
      if exists i :: MatchAt(s, p, i) {
        var i :| MatchAt(s, p, i);
        assert i != 0;
        assert s[1..][i - 1..i - 1 + |p|] == s[i..i + |p|];
        assert MatchAt(s[1..], p, i - 1);
      }
    }
  }

  /** A window that matches `p` at position `i` witnesses containment. */
  lemma ContainsAt(s: string, p: string, i: nat)
    requires i + |p| <= |s| && s[i..i + |p|] == p
    ensures Contains(s, p)
  {
    assert MatchAt(s, p, i);
    ContainsIff(s, p);
  }

  /** A string cannot contain a pattern one of whose characters it lacks. */
  lemma {:induction false} NotContainsMissingChar(s: string, p: string, k: nat)
    requires k < |p| && p[k] !in s
    ensures !Contains(s, p)
    decreases |s|
  {
    assert forall i :: 0 <= i < |s| ==> s[i] != p[k];
    if |s| > 0 {
      assert forall c :: c in s[1..] ==> c in s;
      NotContainsMissingChar(s[1..], p, k);
    }
  }

  /** Every character of a replace-all result with an empty replacement comes
      from the input. */
  lemma {:induction false} ReplaceAllChars(s: string, p: string)
    requires |p| > 0
    ensures forall c :: c in ReplaceAll(s, p, "") ==> c in s
    decreases |s|
  {
    if |s| >= |p| {
      if s[..|p|] == p {
        ReplaceAllChars(s[|p|..], p);
        assert forall c :: c in s[|p|..] ==> c in s;
      } else {
        ReplaceAllChars(s[1..], p);
        assert forall c :: c in s[1..] ==> c in s;
      }
    }
  }

  /** Replacing a single character by nothing removes every occurrence of it. */
  lemma {:induction false} ReplaceAllCharGone(s: string, c: char)
    ensures c !in ReplaceAll(s, [c], "")
    decreases |s|
  {
    if |s| >= 1 {
      ReplaceAllCharGone(s[1..], c);
      if s[..1] != [c] {
        assert s[0] != c;
      }
    }
  }

  /** A replace-all never lengthens its input when it replaces by nothing. */
  lemma {:induction false} ReplaceAllShrinks(s: string, p: string)
    requires |p| > 0
    ensures |ReplaceAll(s, p, "")| <= |s|
    decreases |s|
  {
    if |s| >= |p| {
      if s[..|p|] == p { ReplaceAllShrinks(s[|p|..], p); }
      else { ReplaceAllShrinks(s[1..], p); }
    }
  }

  /** Replacing a pattern that does not occur changes nothing. */
  lemma {:induction false} ReplaceAllAbsent(s: string, p: string, r: string)
    requires |p| > 0 && !Contains(s, p)
    ensures ReplaceAll(s, p, r) == s
    decreases |s|
  {
    if |s| >= |p| {
      ReplaceAllAbsent(s[1..], p, r);
      assert [s[0]] + s[1..] == s;
    }
  }

  /** A replace-all result starts with the replacement when the input starts
      with the pattern: the scan resumes right after that occurrence. */
  lemma ReplaceAllPrefix(p: string, rest: string, r: string)
    requires |p| > 0
    ensures ReplaceAll(p + rest, p, r) == r + ReplaceAll(rest, p, r)
  {
    assert (p + rest)[..|p|] == p;
    assert (p + rest)[|p|..] == rest;
  }

  /** For a one-character pattern the replacement distributes over
      concatenation: no occurrence straddles the join. */
  lemma {:induction false} ReplaceAllCharConcat(u: string, v: string, c: char, r: string)
    ensures ReplaceAll(u + v, [c], r) == ReplaceAll(u, [c], r) + ReplaceAll(v, [c], r)
    decreases |u|
  {
    if |u| > 0 {
      assert (u + v)[..1] == u[..1];
      assert (u + v)[1..] == u[1..] + v;
      ReplaceAllCharConcat(u[1..], v, c, r);
    } else {
      assert u + v == v;
    }
  }

  /** One pass only: a pattern formed by the replacement is not rescanned. */
  lemma OnePass()
    ensures ReplaceAll("SS//", "S/", "") == "S/"
  {
    assert "SS//"[..2][1] != "S/"[1];
    assert "SS//"[1..] == "S//";
    ReplaceAllPrefix("S/", "/", "");
    assert "S/" + "/" == "S//";
  }

  /** Stripping keeps only characters of the input. */
  lemma StripChars(s: string)
    ensures forall c :: c in Strip(s) ==> c in s
  {
    var i, j :| 0 <= i <= j <= |s| && Strip(s) == s[i..j];
    assert forall c :: c in s[i..j] ==> c in s;
  }

  /** Upper-casing leaves no ASCII lower-case letter. */
  lemma UpperNoLower(s: string)
    ensures NoAsciiLower(Upper(s))
  {
  }

  /** A string that neither starts nor ends with whitespace is its own strip. */
  lemma StripStripped(s: string)
    requires s == [] || (!IsSpace(s[0]) && !IsSpace(s[|s| - 1]))
    ensures Strip(s) == s
  {
    assert StripLeft(s) == s;
    assert StripRight(s) == s;
  }

  /** Stripping twice is stripping once. */
  lemma StripIdempotent(s: string)
    ensures Strip(Strip(s)) == Strip(s)
  {
    StripStripped(Strip(s));
  }

  /** Upper-casing works character by character, so it distributes over
      concatenation. */
  lemma UpperConcat(u: string, v: string)
    ensures Upper(u + v) == Upper(u) + Upper(v)
  {
  }

  /** Without the separator the text before it is all of the text. */
  lemma BeforeAbsent(s: string, c: char)
    requires c !in s
    ensures Before(s, c) == s
  {
  }

  /** Stripping keeps a text free of ASCII lower-case letters. */
  lemma StripNoLower(w: string)
    requires NoAsciiLower(w)
    ensures NoAsciiLower(Strip(w))
  {
    StripChars(w);
    forall k | 0 <= k < |Strip(w)| ensures !('a' <= Strip(w)[k] <= 'z') {
      assert Strip(w)[k] in Strip(w);
      var j :| 0 <= j < |w| && w[j] == Strip(w)[k];
    }
  }

  /** Upper-casing and stripping leaves no ASCII lower-case letter. */
  lemma StripUpperNoLower(s: string)
    ensures NoAsciiLower(Strip(Upper(s)))
  {
    UpperNoLower(s);
    StripNoLower(Upper(s));
  }

  /** The text before the first `c` ends where `c` first occurs. */
  lemma BeforeAt(s: string, c: char, k: nat)
    requires k < |s| && s[k] == c && c !in s[..k]
    ensures Before(s, c) == s[..k]
  {
  }
}

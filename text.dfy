/**
 * The string primitives the game's rules are written with, restricted to
 * ASCII: `toUpperCase`, `toLowerCase`, `trim`, `includes` and
 * `substring(0, n)` as JavaScript defines them on ASCII text.
 */
module Text {

  /** The ASCII characters JavaScript's `trim` removes. */
  predicate IsSpace(c: char) {
    c == ' ' || c == '\t' || c == '\n' || c == '\r' || c == '\U{000B}' || c == '\U{000C}'
  }

  predicate IsLower(c: char) {
    'a' <= c <= 'z'
  }

  predicate IsUpper(c: char) {
    'A' <= c <= 'Z'
  }

  /** ASCII `toUpperCase` of one character: a lower-case letter moves down 32 code points to its capital. */
  function UpperChar(c: char): (r: char)
    ensures IsLower(c) ==> IsUpper(r) && r as int == c as int - 32
    ensures !IsLower(c) ==> r == c
    ensures IsSpace(r) <==> IsSpace(c)
  {
    if IsLower(c) then (c as int - 'a' as int + 'A' as int) as char else c
  }

  /** ASCII `toLowerCase` of one character: a capital moves up 32 code points to its lower-case letter. */
  function LowerChar(c: char): (r: char)
    ensures IsUpper(c) ==> IsLower(r) && r as int == c as int + 32
    ensures !IsUpper(c) ==> r == c
  {
    if IsUpper(c) then (c as int - 'A' as int + 'a' as int) as char else c
  }

  /** `s.toUpperCase()` on ASCII text: letter by letter, length kept. */
  function Upper(s: string): (r: string)
    ensures |r| == |s|
    ensures forall i :: 0 <= i < |s| ==> r[i] == UpperChar(s[i])
  {
    seq(|s|, i requires 0 <= i < |s| => UpperChar(s[i]))
  }

  /** `s.toLowerCase()` on ASCII text. */
  function Lower(s: string): (r: string)
    ensures |r| == |s|
    ensures forall i :: 0 <= i < |s| ==> r[i] == LowerChar(s[i])
  {
    seq(|s|, i requires 0 <= i < |s| => LowerChar(s[i]))
  }

  function TrimStart(s: string): (r: string)
    decreases |s|
  {
    if s != [] && IsSpace(s[0]) then TrimStart(s[1..]) else s
  }

  function TrimEnd(s: string): (r: string)
    decreases |s|
  {
    if s != [] && IsSpace(s[|s| - 1]) then TrimEnd(s[..|s| - 1]) else s
  }

  /** `s.trim()`: leading and trailing whitespace removed. */
  function Trim(s: string): (r: string)
    ensures |r| <= |s|
  {
    TrimStartShape(s);
    TrimEndShape(TrimStart(s));
    TrimEnd(TrimStart(s))
  }

  /** `!s.trim()`: the string is empty once trimmed. */
  predicate IsBlank(s: string) {
    Trim(s) == []
  }

  /** A string with no whitespace at either end, which `trim` leaves alone. */
  predicate Trimmed(s: string) {
    s == [] || (!IsSpace(s[0]) && !IsSpace(s[|s| - 1]))
  }

  /** `p` is the first `|p|` characters of `s`. */
  predicate IsPrefix(p: string, s: string) {
    |p| <= |s| && s[..|p|] == p
  }

  /** `hay.includes(needle)`: `needle` occurs at some offset of `hay` (the empty string always does). */
  predicate Contains(hay: string, needle: string) {
    exists i :: 0 <= i <= |hay| && IsPrefix(needle, hay[i..])
  }

  /** `s.substring(0, n)` for `n >= 0`: JavaScript clamps `n` to the length. */
  function Take(s: string, n: nat): (r: string)
    ensures |r| == if n <= |s| then n else |s|
    ensures IsPrefix(r, s)
    ensures n >= |s| ==> r == s
  {
    if n <= |s| then s[..n] else s
  }

  // ---------------------------------------------------------------------
  // Trimming

  /** `TrimStart(s)` is a suffix of `s` that starts with a non-space; everything dropped is whitespace. */
  lemma {:induction false} TrimStartShape(s: string)
    ensures |TrimStart(s)| <= |s| && TrimStart(s) == s[|s| - |TrimStart(s)|..]
    ensures TrimStart(s) == [] || !IsSpace(TrimStart(s)[0])
    ensures forall i :: 0 <= i < |s| - |TrimStart(s)| ==> IsSpace(s[i])
    decreases |s|
  {
    if s != [] && IsSpace(s[0]) {
      TrimStartShape(s[1..]);
      assert s[1..][|s| - 1 - |TrimStart(s[1..])|..] == s[|s| - |TrimStart(s)|..];
      forall i | 1 <= i < |s| - |TrimStart(s)|
        ensures IsSpace(s[i])
      {
        assert s[i] == s[1..][i - 1];
      }
    }
  }

  /** `TrimEnd(s)` is a prefix of `s` that ends with a non-space; everything dropped is whitespace. */
  lemma {:induction false} TrimEndShape(s: string)
    ensures |TrimEnd(s)| <= |s| && TrimEnd(s) == s[..|TrimEnd(s)|]
    ensures TrimEnd(s) == [] || !IsSpace(TrimEnd(s)[|TrimEnd(s)| - 1])
    ensures forall i :: |TrimEnd(s)| <= i < |s| ==> IsSpace(s[i])
    decreases |s|
  {
    if s != [] && IsSpace(s[|s| - 1]) {
      TrimEndShape(s[..|s| - 1]);
      assert s[..|s| - 1][..|TrimEnd(s)|] == s[..|TrimEnd(s)|];
      forall i | |TrimEnd(s)| <= i < |s| - 1
        ensures IsSpace(s[i])
      {
        assert s[i] == s[..|s| - 1][i];
      }
    }
  }

  /** The trim has no whitespace at either end and is a substring of the original. */
  lemma TrimShape(s: string)
    ensures Trimmed(Trim(s))
    ensures Contains(s, Trim(s))
  {
    var t := TrimStart(s);
    TrimStartShape(s);
    TrimEndShape(t);
    var k := |s| - |t|;
    assert IsPrefix(Trim(s), s[k..]);
  }

  /**
   * `s` is its trim with whitespace before and after it: `trim` removes the
   * surrounding whitespace and nothing else.
   */
  lemma TrimRemovesOnlySpace(s: string)
    ensures |TrimStart(s)| <= |s|
    ensures var k := |s| - |TrimStart(s)|;
      && k + |Trim(s)| <= |s|
      && s[k..k + |Trim(s)|] == Trim(s)
      && (forall i :: 0 <= i < k ==> IsSpace(s[i]))
      && (forall i :: k + |Trim(s)| <= i < |s| ==> IsSpace(s[i]))
  {
    var t := TrimStart(s);
    TrimStartShape(s);
    TrimEndShape(t);
    var k := |s| - |t|;
    var r := TrimEnd(t);
    assert r == Trim(s);
    forall i | k <= i < |s|
      ensures s[i] == t[i - k]
    {
    }
    assert s[k..k + |r|] == r;
  }

  /** A string with no whitespace at either end is its own trim. */
  lemma TrimFixed(s: string)
    requires Trimmed(s)
    ensures Trim(s) == s
  {
    assert TrimStart(s) == s;
    assert TrimEnd(s) == s;
  }

  /** Trimming twice is trimming once. */
  lemma TrimIdempotent(s: string)
    ensures Trim(Trim(s)) == Trim(s)
  {
    TrimShape(s);
    TrimFixed(Trim(s));
  }

  lemma {:induction false} UpperTrimStart(s: string)
    ensures Upper(TrimStart(s)) == TrimStart(Upper(s))
    decreases |s|
  {
    if s != [] && IsSpace(s[0]) {
      assert Upper(s)[1..] == Upper(s[1..]);
      UpperTrimStart(s[1..]);
    }
  }

  lemma {:induction false} UpperTrimEnd(s: string)
    ensures Upper(TrimEnd(s)) == TrimEnd(Upper(s))
    decreases |s|
  {
    var u := Upper(s);
    if s != [] && IsSpace(s[|s| - 1]) {
      assert u[..|s| - 1] == Upper(s[..|s| - 1]);
      assert IsSpace(u[|u| - 1]);
      assert TrimEnd(u) == TrimEnd(u[..|u| - 1]);
      UpperTrimEnd(s[..|s| - 1]);
    } else {
      assert TrimEnd(s) == s;
      assert u == [] || !IsSpace(u[|u| - 1]);
      assert TrimEnd(u) == u;
    }
  }

  /**
   * Trimming and upper-casing commute on ASCII: `w.toUpperCase().trim()`
   * and `w.trim().toUpperCase()` are the same string.
   */
  lemma UpperTrim(s: string)
    ensures Upper(Trim(s)) == Trim(Upper(s))
  {
    UpperTrimStart(s);
    UpperTrimEnd(TrimStart(s));
  }

  /** Upper-casing twice is upper-casing once. */
  lemma UpperIdempotent(s: string)
    ensures Upper(Upper(s)) == Upper(s)
  {
  }

  /** Upper- and lower-casing undo each other on ASCII letters. */
  lemma CaseRoundTrip(c: char)
    ensures IsLower(c) ==> LowerChar(UpperChar(c)) == c
    ensures IsUpper(c) ==> UpperChar(LowerChar(c)) == c
  {
  }

  /** A capital occurs in `Upper(w)` exactly when it or its lower-case letter occurs in `w`. */
  lemma UpperContainsCapital(w: string, c: char)
    requires IsUpper(c)
    ensures c in Upper(w) <==> c in w || LowerChar(c) in w
  {
    if c in Upper(w) {
      var i :| 0 <= i < |w| && Upper(w)[i] == c;
      assert w[i] == c || w[i] == LowerChar(c);
    }
    if c in w {
      var i :| 0 <= i < |w| && w[i] == c;
      assert Upper(w)[i] == c;
    }
    if LowerChar(c) in w {
      var i :| 0 <= i < |w| && w[i] == LowerChar(c);
      assert Upper(w)[i] == c;
    }
  }

  /**
   * The normalised answer `Upper(Trim(w))` is a fixed point of the
   * normalisation `isRelatedWord` applies again (`toUpperCase().trim()`).
   */
  lemma NormalizeIdempotent(w: string)
    ensures Trim(Upper(Upper(Trim(w)))) == Upper(Trim(w))
  {
    UpperIdempotent(Trim(w));
    UpperTrim(Trim(w));
    TrimIdempotent(w);
  }

  /** `Trim(Upper(w))` only depends on `Upper(Trim(w))`. */
  lemma NormalizeOfNormalized(w: string)
    ensures Trim(Upper(Upper(Trim(w)))) == Trim(Upper(w))
  {
    NormalizeIdempotent(w);
    UpperTrim(w);
  }

  /** Strings equal up to case have the same upper-cased trim. */
  lemma UpperTrimCaseInsensitive(a: string, b: string)
    requires Upper(a) == Upper(b)
    ensures Upper(Trim(a)) == Upper(Trim(b))
  {
    UpperTrim(a);
    UpperTrim(b);
  }

  // ---------------------------------------------------------------------
  // Substrings

  lemma ContainsSelf(s: string)
    ensures Contains(s, s)
  {
    assert IsPrefix(s, s[0..]);
  }

  lemma ContainsEmpty(s: string)
    ensures Contains(s, [])
  {
    assert IsPrefix([], s[0..]);
  }

  /** A prefix of `s` is a substring of `s`. */
  lemma PrefixContained(p: string, s: string)
    requires IsPrefix(p, s)
    ensures Contains(s, p)
  {
    assert s[0..] == s;
  }

  lemma ContainsShorter(hay: string, needle: string)
    requires Contains(hay, needle)
    ensures |needle| <= |hay|
  {
  }

  /** A substring as long as the whole string is the whole string. */
  lemma ContainsSameLength(hay: string, needle: string)
    requires Contains(hay, needle)
    requires |needle| == |hay|
    ensures needle == hay
  {
    var i :| 0 <= i <= |hay| && IsPrefix(needle, hay[i..]);
    assert i == 0;
    assert hay[0..] == hay;
  }

  /** A substring of a substring is a substring. */
  lemma ContainsTransitive(a: string, b: string, c: string)
    requires Contains(a, b) && Contains(b, c)
    ensures Contains(a, c)
  {
    var i :| 0 <= i <= |a| && IsPrefix(b, a[i..]);
    var j :| 0 <= j <= |b| && IsPrefix(c, b[j..]);
    assert a[i + j..][..|c|] == c by {
      assert forall k :: 0 <= k < |c| ==> a[i + j..][k] == b[j..][k];
    }
  }

  /** Upper-casing keeps substrings. */
  lemma ContainsUpper(hay: string, needle: string)
    requires Contains(hay, needle)
    ensures Contains(Upper(hay), Upper(needle))
  {
    var i :| 0 <= i <= |hay| && IsPrefix(needle, hay[i..]);
    assert Upper(hay)[i..][..|needle|] == Upper(needle) by {
      assert forall k :: 0 <= k < |needle| ==> Upper(hay)[i..][k] == UpperChar(needle[k]);
    }
  }

  /** A character of `needle` that `hay` lacks rules out `hay.includes(needle)`. */
  lemma MissingCharNotContained(hay: string, needle: string, c: char)
    requires c in needle && c !in hay
    ensures !Contains(hay, needle)
  {
    var k :| 0 <= k < |needle| && needle[k] == c;
    forall i | 0 <= i <= |hay|
      ensures !IsPrefix(needle, hay[i..])
    {
      if k < |hay[i..]| {
        assert hay[i..][k] == hay[i + k];
        assert hay[i + k] in hay;
      }
    }
  }
}

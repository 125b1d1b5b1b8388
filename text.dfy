/** Option, for values the source leaves as None, null or undefined. */
module Wrappers {
  datatype Option<+T> = None | Some(value: T)
}

/**
 * String helpers shared by the backend (Python) and the frontend (JavaScript)
 * models: the two languages' whitespace classes, ASCII case mapping, prefix
 * and substring tests, Python's `str.strip`, `str.split(sep)[0]` and
 * `sep.join`.
 */
module Text {

  /** Characters for which Python's `str.isspace()` holds; `str.strip()` removes these. */
  predicate IsPySpace(c: char) {
    ('\t' <= c <= '\r') || ('\U{1c}' <= c <= '\U{1f}') || c == ' ' || c == '\U{85}' || c == '\U{a0}'
    || c == '\U{1680}' || ('\U{2000}' <= c <= '\U{200a}') || c == '\U{2028}' || c == '\U{2029}'
    || c == '\U{202f}' || c == '\U{205f}' || c == '\U{3000}'
  }

  /** Characters matched by the JavaScript regular-expression class `\s`. */
  predicate IsJsSpace(c: char) {
    ('\t' <= c <= '\r') || c == ' ' || c == '\U{a0}' || c == '\U{1680}'
    || ('\U{2000}' <= c <= '\U{200a}') || c == '\U{2028}' || c == '\U{2029}'
    || c == '\U{202f}' || c == '\U{205f}' || c == '\U{3000}' || c == '\U{feff}'
  }

  /** ASCII part of Python's `str.lower()` and JavaScript's `toLowerCase()`. */
  function LowerChar(c: char): (r: char)
    ensures 'A' <= c <= 'Z' ==> r as int == c as int + 32
    ensures !('A' <= c <= 'Z') ==> r == c
  {
    if 'A' <= c <= 'Z' then (c as int + 32) as char else c
  }

  /** ASCII part of JavaScript's `toUpperCase()`. */
  function UpperChar(c: char): (r: char)
    ensures 'a' <= c <= 'z' ==> r as int == c as int - 32
    ensures !('a' <= c <= 'z') ==> r == c
  {
    if 'a' <= c <= 'z' then (c as int - 32) as char else c
  }

  function Lower(s: string): (r: string)
    ensures |r| == |s|
  {
    seq(|s|, i requires 0 <= i < |s| => LowerChar(s[i]))
  }

  function Upper(s: string): (r: string)
    ensures |r| == |s|
  {
    seq(|s|, i requires 0 <= i < |s| => UpperChar(s[i]))
  }

  /** Lower-casing twice is lower-casing once. */
  lemma LowerIdempotent(s: string)
    ensures Lower(Lower(s)) == Lower(s)
  {
    assert forall i :: 0 <= i < |s| ==> Lower(Lower(s))[i] == Lower(s)[i];
  }

  lemma LowerAppend(a: string, b: string)
    ensures Lower(a + b) == Lower(a) + Lower(b)
  {
    assert forall i :: 0 <= i < |a + b| ==> Lower(a + b)[i] == (Lower(a) + Lower(b))[i];
  }

  predicate StartsWith(s: string, prefix: string) {
    |prefix| <= |s| && s[..|prefix|] == prefix
  }

  /** `w` occurs in `s` starting at position `i`. */
  predicate OccursAt(s: string, w: string, i: int) {
    0 <= i && i + |w| <= |s| && s[i..i + |w|] == w
  }

  /** `w in s` in Python, `s.includes(w)` in JavaScript. */
  predicate Contains(s: string, w: string) {
    exists i | 0 <= i <= |s| - |w| :: OccursAt(s, w, i)
  }

  /** The empty string occurs in every string. */
  lemma ContainsEmpty(s: string)
    ensures Contains(s, "")
  {
    assert OccursAt(s, "", 0);
  }

  /** A string longer than `s` never occurs in `s`. */
  lemma NotContainsLonger(s: string, w: string)
    requires |w| > |s|
    ensures !Contains(s, w)
  {
  }

  /** `w` does not occur in `s` when its first character does not. */
  lemma NotContainsByFirstChar(s: string, w: string)
    requires |w| > 0 && w[0] !in s
    ensures !Contains(s, w)
  {
    forall i | 0 <= i <= |s| - |w| ensures !OccursAt(s, w, i) {
      assert s[i] in s;
      assert s[i..i + |w|][0] == s[i];
    }
  }

  lemma ContainsWitness(s: string, w: string, i: nat)
    requires OccursAt(s, w, i)
    ensures Contains(s, w)
  {
  }

  /** Python's `s.lstrip()`: drop the leading whitespace. */
  function TrimLeft(s: string): (r: string)
    ensures |r| <= |s| && r == s[|s| - |r|..]
    ensures r == [] || !IsPySpace(r[0])
    ensures forall k :: 0 <= k < |s| - |r| ==> IsPySpace(s[k])
  {
    if s != [] && IsPySpace(s[0]) then TrimLeft(s[1..]) else s
  }

  /** Python's `s.rstrip()`: drop the trailing whitespace. */
  function TrimRight(s: string): (r: string)
    ensures |r| <= |s| && r == s[..|r|]
    ensures r == [] || !IsPySpace(r[|r| - 1])
    ensures forall k :: |r| <= k < |s| ==> IsPySpace(s[k])
  {
    if s != [] && IsPySpace(s[|s| - 1]) then TrimRight(s[..|s| - 1]) else s
  }

  /**
   * Python's `s.strip()`. The result is the infix of `s` left after removing
   * whitespace-only margins, and it neither starts nor ends with whitespace.
   */
  function Strip(s: string): (r: string)
    ensures |r| <= |s|
    ensures r == [] || (!IsPySpace(r[0]) && !IsPySpace(r[|r| - 1]))
    ensures exists i | 0 <= i <= |s| - |r| :: StrippedAt(s, r, i)
  {
    var t := TrimLeft(s);
    var r := TrimRight(t);
    StripSpec(s, t, r);
    assert r != [] ==> r[0] == t[0];
    r
  }

  lemma StripSpec(s: string, t: string, r: string)
    requires |t| <= |s| && t == s[|s| - |t|..]
    requires forall k :: 0 <= k < |s| - |t| ==> IsPySpace(s[k])
    requires |r| <= |t| && r == t[..|r|]
    requires forall k :: |r| <= k < |t| ==> IsPySpace(t[k])
    ensures StrippedAt(s, r, |s| - |t|)
  {
    var i := |s| - |t|;
    assert OccursAt(s, r, i);
    forall k | i + |r| <= k < |s| ensures IsPySpace(s[k]) {
      assert IsPySpace(t[k - i]);
      assert s[k] == t[k - i];
    }
  }

  /** `r` is `s` without the whitespace-only margins `s[..i]` and `s[i + |r|..]`. */
  predicate StrippedAt(s: string, r: string, i: int) {
    OccursAt(s, r, i)
    && (forall k :: 0 <= k < i ==> IsPySpace(s[k]))
    && (forall k :: i + |r| <= k < |s| ==> IsPySpace(s[k]))
  }

  /** Stripping only removes characters: every character left was in the input. */
  lemma StripKeepsChars(s: string)
    ensures forall c | c in Strip(s) :: c in s
  {
    var t := TrimLeft(s);
    var r := TrimRight(t);
    assert Strip(s) == r;
    forall k | 0 <= k < |r| ensures r[k] in s {
      assert r[k] == t[k] == s[|s| - |t| + k];
    }
  }

  /** Python's `s.split(sep)[0]`: everything before the first `sep`, or all of `s`. */
  function FirstField(s: string, sep: char): (r: string)
    ensures |r| <= |s| && r == s[..|r|]
    ensures sep !in r
    ensures |r| < |s| ==> s[|r|] == sep
  {
    if s == [] || s[0] == sep then [] else [s[0]] + FirstField(s[1..], sep)
  }

  /** Python's `sep.join(xs)` and JavaScript's `xs.join(sep)`. */
  function Join(sep: string, xs: seq<string>): string
  {
    if xs == [] then "" else if |xs| == 1 then xs[0] else xs[0] + sep + Join(sep, xs[1..])
  }

  /** JavaScript's `s.replace(/x/g, '')` for a one-character class `x`: keep the rest in order. */
  function Without(s: string, drop: char -> bool): (r: string)
    ensures |r| <= |s|
    ensures forall c :: c in r ==> c in s && !drop(c)
  {
    if s == [] then [] else (if drop(s[0]) then [] else [s[0]]) + Without(s[1..], drop)
  }

  lemma {:induction false} WithoutAppend(a: string, b: string, drop: char -> bool)
    ensures Without(a + b, drop) == Without(a, drop) + Without(b, drop)
  {
    if a != [] {
      var head := if drop(a[0]) then [] else [a[0]];
      assert (a + b)[0] == a[0] && (a + b)[1..] == a[1..] + b;
      calc {
        Without(a + b, drop);
        head + Without(a[1..] + b, drop);
        { WithoutAppend(a[1..], b, drop); }
        head + (Without(a[1..], drop) + Without(b, drop));
        (head + Without(a[1..], drop)) + Without(b, drop);
        Without(a, drop) + Without(b, drop);
      }
    } else {
      assert a + b == b;
    }
  }
  /** Whatever occurs in `a` occurs in `a + b`. */
  lemma ContainsInLeft(a: string, b: string, w: string)
    requires Contains(a, w)
    ensures Contains(a + b, w)
  {
    var i :| 0 <= i <= |a| - |w| && OccursAt(a, w, i);
    assert (a + b)[i..i + |w|] == a[i..i + |w|];
    assert OccursAt(a + b, w, i);
  }

  /** Whatever occurs in `b` occurs in `a + b`. */
  lemma ContainsInRight(a: string, b: string, w: string)
    requires Contains(b, w)
    ensures Contains(a + b, w)
  {
    var i :| 0 <= i <= |b| - |w| && OccursAt(b, w, i);
    assert (a + b)[|a| + i..|a| + i + |w|] == b[i..i + |w|];
    assert OccursAt(a + b, w, |a| + i);
  }

  /** Upper-casing first does not change the lower-cased result. */
  lemma LowerOfUpper(s: string)
    ensures Lower(Upper(s)) == Lower(s)
  {
    assert forall i :: 0 <= i < |s| ==> Lower(Upper(s))[i] == Lower(s)[i];
  }

  /** `s` has no ASCII capital letters, so lower-casing leaves it as it is. */
  predicate IsLowered(s: string) {
    forall c | c in s :: !('A' <= c <= 'Z')
  }

  lemma LowerIsLowered(s: string)
    ensures IsLowered(Lower(s))
  {
    forall c | c in Lower(s) ensures !('A' <= c <= 'Z') {
      var i :| 0 <= i < |s| && Lower(s)[i] == c;
    }
  }

  lemma LoweredIsFixed(s: string)
    requires IsLowered(s)
    ensures Lower(s) == s
  {
    forall i | 0 <= i < |s| ensures Lower(s)[i] == s[i] {
      assert s[i] in s;
    }
  }

  /** Removing characters that do not occur changes nothing. */
  lemma {:induction false} WithoutNothing(s: string, drop: char -> bool)
    requires forall c | c in s :: !drop(c)
    ensures Without(s, drop) == s
  {
    if s != [] {
      assert s[0] in s;
      assert forall c | c in s[1..] :: c in s;
      WithoutNothing(s[1..], drop);
      assert s == [s[0]] + s[1..];
    }
  }

  /** The first field of `first + [sep] + rest` is `first`, when `first` holds no separator. */
  lemma {:induction false} FirstFieldConcat(first: string, sep: char, rest: string)
    requires sep !in first
    ensures FirstField(first + [sep] + rest, sep) == first
    ensures FirstField(first, sep) == first
  {
    if first != [] {
      assert (first + [sep] + rest)[0] == first[0];
      assert (first + [sep] + rest)[1..] == first[1..] + [sep] + rest;
      FirstFieldConcat(first[1..], sep, rest);
    }
  }
  /** Stripping a string that has no whitespace margins leaves it as it is. */
  lemma StripNoMargins(s: string)
    requires s == [] || (!IsPySpace(s[0]) && !IsPySpace(s[|s| - 1]))
    ensures Strip(s) == s
  {
  }

  /** Stripping twice is stripping once. */
  lemma StripIdempotent(s: string)
    ensures Strip(Strip(s)) == Strip(s)
  {
    StripNoMargins(Strip(s));
  }
  /** A dropped character in the middle leaves no trace. */
  lemma WithoutSkips(x: string, d: char, y: string, drop: char -> bool)
    requires drop(d)
    ensures Without(x + [d] + y, drop) == Without(x + y, drop)
  {
    assert [d][1..] == [];
    assert Without([d], drop) == [];
    calc {
      Without(x + [d] + y, drop);
      { WithoutAppend(x + [d], y, drop); }
      Without(x + [d], drop) + Without(y, drop);
      { WithoutAppend(x, [d], drop); }
      Without(x, drop) + Without(y, drop);
      { WithoutAppend(x, y, drop); }
      Without(x + y, drop);
    }
  }

  /** A kept character in the middle is kept in place. */
  lemma WithoutKeeps(x: string, d: char, y: string, drop: char -> bool)
    requires !drop(d)
    ensures Without(x + [d] + y, drop) == Without(x, drop) + [d] + Without(y, drop)
  {
    assert [d][1..] == [];
    assert Without([d], drop) == [d];
    WithoutAppend(x + [d], y, drop);
    WithoutAppend(x, [d], drop);
  }
}

/** String helpers the page relies on: Python's `str.strip()`, the `in` substring
    test and `str.replace("%", "")`. */
module Text {

  /** The characters Python's `str.strip()` removes when called without arguments
      (those for which `str.isspace()` holds). */
  predicate IsSpace(c: char) {
    ('\t' <= c <= '\r') || ('\U{1c}' <= c <= '\U{1f}') || c == ' ' || c == '\U{85}' || c == '\U{a0}'
    || c == '\U{1680}' || ('\U{2000}' <= c <= '\U{200a}') || c == '\U{2028}' || c == '\U{2029}'
    || c == '\U{202f}' || c == '\U{205f}' || c == '\U{3000}'
  }

  /** Number of whitespace characters at the front of `s`. */
  function LeadingSpaces(s: string): (n: nat)
    ensures n <= |s|
    ensures forall i | 0 <= i < n :: IsSpace(s[i])
    ensures n < |s| ==> !IsSpace(s[n])
  {
    if s != [] && IsSpace(s[0]) then 1 + LeadingSpaces(s[1..]) else 0
  }

  /** Number of whitespace characters at the back of `s`. */
  function TrailingSpaces(s: string): (n: nat)
    ensures n <= |s|
    ensures forall i | |s| - n <= i < |s| :: IsSpace(s[i])
    ensures n < |s| ==> !IsSpace(s[|s| - n - 1])
  {
    if s != [] && IsSpace(s[|s| - 1]) then 1 + TrailingSpaces(s[..|s| - 1]) else 0
  }

  /** Python's `s.strip()`: `s` without its leading and trailing whitespace. */
  function Strip(s: string): (r: string)
    ensures LeadingSpaces(s) + |r| <= |s|
    ensures forall k | 0 <= k < |r| :: r[k] == s[LeadingSpaces(s) + k]
    ensures forall i | 0 <= i < LeadingSpaces(s) :: IsSpace(s[i])
    ensures forall i | LeadingSpaces(s) + |r| <= i < |s| :: IsSpace(s[i])
    ensures r != [] ==> !IsSpace(r[0]) && !IsSpace(r[|r| - 1])
  {
    var t := s[LeadingSpaces(s)..];
    t[..|t| - TrailingSpaces(t)]
  }

  /** `m` occurs in `s` starting at index `i`. */
  predicate OccursAt(s: string, m: string, i: nat) {
    i + |m| <= |s| && forall k | 0 <= k < |m| :: s[i + k] == m[k]
  }

  /** Python's `m in s` for strings. */
  predicate Contains(s: string, m: string) {
    exists i: nat | i <= |s| :: OccursAt(s, m, i)
  }

  /** An occurrence in the stripped string is an occurrence in the original,
      shifted by the leading whitespace. */
  lemma OccursInStripped(s: string, m: string, i: nat)
    requires OccursAt(Strip(s), m, i)
    ensures OccursAt(s, m, LeadingSpaces(s) + i)
  {
  }

  /** An occurrence of a marker with non-whitespace ends lies inside the part
      `strip()` keeps. */
  lemma OccursInOriginal(s: string, m: string, i: nat)
    requires m != [] && !IsSpace(m[0]) && !IsSpace(m[|m| - 1])
    requires OccursAt(s, m, i)
    ensures LeadingSpaces(s) <= i && OccursAt(Strip(s), m, i - LeadingSpaces(s))
  {
    var a, r := LeadingSpaces(s), Strip(s);
    assert !IsSpace(s[i]) by { assert s[i + 0] == m[0]; }
    assert !IsSpace(s[i + |m| - 1]) by { assert s[i + (|m| - 1)] == m[|m| - 1]; }
    assert a <= i;
    assert i + |m| <= a + |r|;
    forall k | 0 <= k < |m| ensures r[i - a + k] == m[k] {
      assert r[i - a + k] == s[a + (i - a + k)];
    }
  }

  /** Stripping never changes whether a marker that neither starts nor ends with
      whitespace occurs in a string: an occurrence cannot reach into the
      whitespace that `strip()` removes. */
  lemma ContainsStripped(s: string, m: string)
    requires m != [] && !IsSpace(m[0]) && !IsSpace(m[|m| - 1])
    ensures Contains(Strip(s), m) <==> Contains(s, m)
  {
    if Contains(Strip(s), m) {
      var i: nat :| i <= |Strip(s)| && OccursAt(Strip(s), m, i);
      OccursInStripped(s, m, i);
    }
    if Contains(s, m) {
      var i: nat :| i <= |s| && OccursAt(s, m, i);
      OccursInOriginal(s, m, i);
    }
  }

  /** Python's `s.replace("%", "")`. */
  function RemovePercent(s: string): (r: string)
    ensures '%' !in r
    ensures |r| <= |s|
    ensures forall c :: c in r <==> c in s && c != '%'
  {
    if s == [] then []
    else (if s[0] == '%' then [] else [s[0]]) + RemovePercent(s[1..])
  }

  /** Text without '%' passes through unchanged, so removing twice is removing once. */
  lemma {:induction false} RemovePercentKeeps(s: string)
    requires '%' !in s
    ensures RemovePercent(s) == s
  {
    if s != [] {
      assert '%' !in s[1..] by { assert forall c | c in s[1..] :: c in s; }
      RemovePercentKeeps(s[1..]);
      assert s == [s[0]] + s[1..];
    }
  }

  /** `replace` works character by character: on a concatenation it is the
      concatenation of the parts. With `RemovePercentOfOne` this fixes the
      result of every input, order and repeats included. */
  lemma {:induction false} RemovePercentSplits(a: string, b: string)
    ensures RemovePercent(a + b) == RemovePercent(a) + RemovePercent(b)
  {
    if a == [] {
      assert a + b == b;
    } else {
      var c := if a[0] == '%' then [] else [a[0]];
      assert (a + b)[0] == a[0];
      assert (a + b)[1..] == a[1..] + b;
      RemovePercentSplits(a[1..], b);
      calc {
        RemovePercent(a + b);
        c + RemovePercent(a[1..] + b);
        c + (RemovePercent(a[1..]) + RemovePercent(b));
        (c + RemovePercent(a[1..])) + RemovePercent(b);
      }
    }
  }

  /** A '%' vanishes and any other character stays. */
  lemma RemovePercentOfOne(c: char)
    ensures RemovePercent([c]) == if c == '%' then [] else [c]
  {
    assert [c][1..] == [];
  }

  /** A typical realtime rate keeps its sign and digits and loses only its '%'. */
  lemma RemovePercentOfRate()
    ensures RemovePercent("-0.52%") == "-0.52"
  {
    RemovePercentSplits("-0.52", "%");
    RemovePercentOfOne('%');
    assert "-0.52" + "%" == "-0.52%";
    RemovePercentKeeps("-0.52");
  }
}

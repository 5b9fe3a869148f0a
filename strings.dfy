/** String arithmetic the pipeline utilities rely on: Python's `str(n)` for a
    counter, `s.split(sep)`, `sep.join(pieces)`, the substring test `a in b`
    and Python's ordering of strings (code point by code point). */
module Strings {

  predicate IsDigit(c: char) { '0' <= c <= '9' }

  predicate AllDigits(s: string) { forall i :: 0 <= i < |s| ==> IsDigit(s[i]) }

  function DigitChar(d: nat): (c: char)
    requires d < 10
    ensures IsDigit(c) && (c as int) - ('0' as int) == d
  {
    (('0' as int) + d) as char
  }

  /** Python's `str(n)` for a non-negative integer: its decimal digits. */
  function NatToString(n: nat): (s: string)
    ensures |s| > 0
    decreases n
  {
    if n < 10 then [DigitChar(n)] else NatToString(n / 10) + [DigitChar(n % 10)]
  }

  /** `str(n)` is made of digits only. */
  lemma {:induction false} NatToStringDigits(n: nat)
    ensures AllDigits(NatToString(n))
    decreases n
  {
    if n >= 10 {
      NatToStringDigits(n / 10);
    }
  }

  /** Python's `int(s)` on a string of decimal digits; the inverse of NatToString. */
  function ParseNat(s: string): int
  {
    if |s| == 0 then 0 else ParseNat(s[..|s| - 1]) * 10 + ((s[|s| - 1] as int) - ('0' as int))
  }

  lemma {:induction false} ParseNatToString(n: nat)
    ensures ParseNat(NatToString(n)) == n
    decreases n
  {
    if n >= 10 {
      var s := NatToString(n);
      assert s[..|s| - 1] == NatToString(n / 10);
      ParseNatToString(n / 10);
    }
  }

  /** Distinct counters print differently. */
  lemma NatToStringInjective(a: nat, b: nat)
    ensures NatToString(a) == NatToString(b) ==> a == b
  {
    ParseNatToString(a);
    ParseNatToString(b);
  }

  /** Python's `s.split(sep)`: the pieces between the separators, at least one. */
  function Split(s: string, sep: char): (pieces: seq<string>)
    ensures |pieces| >= 1
    ensures forall i :: 0 <= i < |pieces| ==> sep !in pieces[i]
    decreases |s|
  {
    if |s| == 0 then [""]
    else
      var rest := Split(s[..|s| - 1], sep);
      var c := s[|s| - 1];
      if c == sep then rest + [""]
      else rest[..|rest| - 1] + [rest[|rest| - 1] + [c]]
  }

  /** Python's `sep.join(pieces)`. */
  function Join(pieces: seq<string>, sep: char): string
  {
    if |pieces| == 0 then ""
    else if |pieces| == 1 then pieces[0]
    else Join(pieces[..|pieces| - 1], sep) + [sep] + pieces[|pieces| - 1]
  }

  /** Joining the pieces of a split gives back the original string. */
  lemma {:induction false} JoinSplit(s: string, sep: char)
    ensures Join(Split(s, sep), sep) == s
    decreases |s|
  {
    if |s| > 0 {
      var init, c := s[..|s| - 1], s[|s| - 1];
      assert s == init + [c];
      var rest := Split(init, sep);
      JoinSplit(init, sep);
      if c == sep {
        var r := rest + [""];
        assert r[..|r| - 1] == rest;
      } else {
        var r := rest[..|rest| - 1] + [rest[|rest| - 1] + [c]];
        assert r[..|r| - 1] == rest[..|rest| - 1];
        if |rest| > 1 {
          assert Join(rest, sep) == Join(rest[..|rest| - 1], sep) + [sep] + rest[|rest| - 1];
        }
      }
    }
  }

  /** A string without the separator splits into itself alone. */
  lemma {:induction false} SplitWithoutSeparator(s: string, sep: char)
    requires sep !in s
    ensures Split(s, sep) == [s]
    decreases |s|
  {
    if |s| > 0 {
      var init := s[..|s| - 1];
      assert s == init + [s[|s| - 1]];
      SplitWithoutSeparator(init, sep);
    }
  }

  /** Appending a separator and a separator-free piece adds exactly one piece. */
  lemma {:induction false} SplitAppend(s: string, sep: char, t: string)
    requires sep !in t
    ensures Split(s + [sep] + t, sep) == Split(s, sep) + [t]
    decreases |t|
  {
    var u := s + [sep] + t;
    if |t| == 0 {
      assert u[..|u| - 1] == s;
    } else {
      var t', c := t[..|t| - 1], t[|t| - 1];
      assert u[..|u| - 1] == s + [sep] + t';
      assert t == t' + [c];
      assert u[|u| - 1] == c && c != sep;
      SplitAppend(s, sep, t');
    }
  }

  /** Python's `a.startswith(b)` with the arguments swapped: `p` is a prefix of `s`. */
  predicate IsPrefix(p: string, s: string)
  {
    |p| <= |s| && s[..|p|] == p
  }

  /** Python's substring test `p in s`. */
  predicate IsSubstring(p: string, s: string)
    decreases |s|
  {
    IsPrefix(p, s) || (|s| > 0 && IsSubstring(p, s[1..]))
  }

  /** Every string is a substring of itself extended on the right. */
  lemma PrefixIsSubstring(p: string, rest: string)
    ensures IsSubstring(p, p + rest)
  {
    assert (p + rest)[..|p|] == p;
  }

  /** Python's `a < b` on strings: lexicographic by code point. */
  predicate LessThan(a: string, b: string)
    decreases |a|
  {
    if |a| == 0 then |b| > 0
    else if |b| == 0 then false
    else if a[0] != b[0] then a[0] < b[0]
    else LessThan(a[1..], b[1..])
  }

  lemma {:induction false} LessThanIrreflexive(a: string)
    ensures !LessThan(a, a)
    decreases |a|
  {
    if |a| > 0 { LessThanIrreflexive(a[1..]); }
  }

  lemma {:induction false} LessThanTransitive(a: string, b: string, c: string)
    requires LessThan(a, b) && LessThan(b, c)
    ensures LessThan(a, c)
    decreases |a|
  {
    if |a| > 0 && |b| > 0 && |c| > 0 && a[0] == b[0] && b[0] == c[0] {
      LessThanTransitive(a[1..], b[1..], c[1..]);
    }
  }

  lemma {:induction false} LessThanTotal(a: string, b: string)
    ensures a == b || LessThan(a, b) || LessThan(b, a)
    decreases |a|
  {
    if |a| > 0 && |b| > 0 && a[0] == b[0] {
      LessThanTotal(a[1..], b[1..]);
      if a[1..] == b[1..] {
        assert a == [a[0]] + a[1..] && b == [b[0]] + b[1..];
      }
    }
  }
}

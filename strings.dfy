/**
 * String helpers shared by the front end (TypeScript) and the back end (Python):
 * separator joins and splits, decimal printing of numbers, and the two languages'
 * notions of white space for trimming.
 */
module Strings {

  /** `parts.join(sep)` in JavaScript and `sep.join(parts)` in Python. */
  function Join(parts: seq<string>, sep: string): (r: string)
    ensures |parts| == 1 ==> r == parts[0]
    ensures |parts| == 0 ==> r == ""
  {
    if |parts| == 0 then ""
    else if |parts| == 1 then parts[0]
    else parts[0] + sep + Join(parts[1..], sep)
  }

  /** Joining a concatenation puts one separator between the two joins. */
  lemma {:induction false} JoinAppend(a: seq<string>, b: seq<string>, sep: string)
    requires |a| >= 1 && |b| >= 1
    ensures Join(a + b, sep) == Join(a, sep) + sep + Join(b, sep)
  {
    if |a| == 1 {
      assert (a + b)[1..] == b;
    } else {
      assert (a + b)[1..] == a[1..] + b;
      JoinAppend(a[1..], b, sep);
    }
  }

  /** `"".join(parts)`: plain concatenation. */
  function Concat(parts: seq<string>): string
  {
    if |parts| == 0 then "" else parts[0] + Concat(parts[1..])
  }

  lemma {:induction false} ConcatAppend(a: seq<string>, b: seq<string>)
    ensures Concat(a + b) == Concat(a) + Concat(b)
  {
    if |a| == 0 {
      assert a + b == b;
    } else {
      assert (a + b)[1..] == a[1..] + b;
      ConcatAppend(a[1..], b);
    }
  }

  /** Index of the first occurrence of `c` in `s`, if any. */
  function IndexOf(s: string, c: char): (r: int)
    ensures -1 <= r < |s|
    ensures r == -1 <==> c !in s
    ensures r >= 0 ==> s[r] == c && c !in s[..r]
  {
    if |s| == 0 then -1
    else if s[0] == c then 0
    else
      var k := IndexOf(s[1..], c);
      if k == -1 then -1
      else
        assert s[..k + 1] == [s[0]] + s[1..][..k];
        k + 1
  }

  /** `s.split(sep)` with a one-character separator (JavaScript and Python agree on it). */
  function Split(s: string, sep: char): (r: seq<string>)
    ensures |r| >= 1
    decreases |s|
  {
    var k := IndexOf(s, sep);
    if k == -1 then [s] else [s[..k]] + Split(s[k + 1..], sep)
  }

  /** Splitting on a separator and joining back with it gives the original string. */
  lemma {:induction false} JoinSplit(s: string, sep: char)
    ensures Join(Split(s, sep), [sep]) == s
    decreases |s|
  {
    var k := IndexOf(s, sep);
    if k != -1 {
      var rest := Split(s[k + 1..], sep);
      var parts := [s[..k]] + rest;
      JoinSplit(s[k + 1..], sep);
      assert Split(s, sep) == parts;
      assert |parts| >= 2 && parts[0] == s[..k] && parts[1..] == rest;
      assert Join(parts, [sep]) == s[..k] + [sep] + s[k + 1..];
      assert s == s[..k] + [sep] + s[k + 1..];
    }
  }

  /** Joining parts that do not contain the separator and splitting again recovers the parts. */
  lemma {:induction false} SplitJoin(parts: seq<string>, sep: char)
    requires |parts| >= 1
    requires forall i :: 0 <= i < |parts| ==> sep !in parts[i]
    ensures Split(Join(parts, [sep]), sep) == parts
  {
    if |parts| == 1 {
      assert IndexOf(parts[0], sep) == -1;
    } else {
      var tail := Join(parts[1..], [sep]);
      assert Join(parts, [sep]) == parts[0] + [sep] + tail;
      SplitCons(parts[0], sep, tail);
      SplitJoin(parts[1..], sep);
      assert parts == [parts[0]] + parts[1..];
    }
  }

  /** A part free of the separator, then the separator, splits off as the first piece. */
  lemma SplitCons(a: string, sep: char, b: string)
    requires sep !in a
    ensures Split(a + [sep] + b, sep) == [a] + Split(b, sep)
  {
    var s := a + [sep] + b;
    NoSepPrefix(a, sep, b);
    assert s[..|a|] == a;
    assert s[|a| + 1..] == b;
  }

  lemma {:induction false} NoSepPrefix(a: string, sep: char, b: string)
    requires sep !in a
    ensures IndexOf(a + [sep] + b, sep) == |a|
  {
    var s := a + [sep] + b;
    if |a| > 0 {
      assert s[0] == a[0] && s[1..] == a[1..] + [sep] + b;
      NoSepPrefix(a[1..], sep, b);
    }
  }

  /** Decimal digits of a natural number, as Python's `str` and JavaScript's template strings print it. */
  function NatToString(n: nat): (r: string)
    ensures |r| >= 1
    ensures AllDigits(r)
    ensures r[0] == '0' ==> n == 0
    decreases n
  {
    if n < 10 then
      assert [DigitChar(n)][..0] == [];
      [DigitChar(n)]
    else
      var t := NatToString(n / 10);
      var r := t + [DigitChar(n % 10)];
      assert r[..|r| - 1] == t;
      r
  }

  function DigitChar(d: nat): (c: char)
    requires d < 10
    ensures '0' <= c <= '9'
    ensures (c as int) - ('0' as int) == d
  {
    (('0' as int) + d) as char
  }

  /** Every character is an ASCII decimal digit. */
  predicate AllDigits(s: string)
  {
    |s| == 0 || (AllDigits(s[..|s| - 1]) && '0' <= s[|s| - 1] <= '9')
  }

  lemma {:induction false} AllDigitsAt(s: string, k: nat)
    requires AllDigits(s) && k < |s|
    ensures '0' <= s[k] <= '9'
  {
    if k < |s| - 1 {
      AllDigitsAt(s[..|s| - 1], k);
    }
  }

  /** Every character of a printed natural number is a decimal digit. */
  lemma NatToStringDigits(n: nat)
    ensures forall i :: 0 <= i < |NatToString(n)| ==> '0' <= NatToString(n)[i] <= '9'
  {
    forall i | 0 <= i < |NatToString(n)| {
      AllDigitsAt(NatToString(n), i);
    }
  }

  /** The value a string of decimal digits denotes (Python's `int` on ASCII digits). */
  function DigitsValue(s: string): nat
    requires AllDigits(s)
  {
    if |s| == 0 then 0 else DigitsValue(s[..|s| - 1]) * 10 + ((s[|s| - 1] as int) - ('0' as int))
  }

  lemma DigitsValueSnoc(t: string, d: nat)
    requires AllDigits(t) && d < 10
    ensures AllDigits(t + [DigitChar(d)])
    ensures DigitsValue(t + [DigitChar(d)]) == DigitsValue(t) * 10 + d
  {
    var s := t + [DigitChar(d)];
    assert s[..|s| - 1] == t;
  }

  /** Printing and reading back a natural number is the identity. */
  lemma {:induction false} DigitsValueOfNatToString(n: nat)
    ensures DigitsValue(NatToString(n)) == n
    decreases n
  {
    if n >= 10 {
      var t := NatToString(n / 10);
      DigitsValueOfNatToString(n / 10);
      DigitsValueSnoc(t, n % 10);
    } else {
      assert NatToString(n)[..0] == [];
    }
  }

  /** Printing natural numbers is injective. */
  lemma NatToStringInjective(m: nat, n: nat)
    requires NatToString(m) == NatToString(n)
    ensures m == n
  {
    DigitsValueOfNatToString(m);
    DigitsValueOfNatToString(n);
  }

  /** The two white-space classes the source relies on. */
  datatype Dialect = JavaScript | Python

  /**
   * White space as `String.prototype.trim` (JavaScript) or `str.strip`/`str.split()`
   * (Python) sees it. The two disagree on U+FEFF (JavaScript only) and on
   * U+001C..U+001F and U+0085 (Python only).
   */
  predicate IsSpace(d: Dialect, c: char)
  {
    || '\U{0009}' <= c <= '\U{000D}' || c == ' ' || c == '\U{00A0}' || c == '\U{1680}'
    || '\U{2000}' <= c <= '\U{200A}' || c == '\U{2028}' || c == '\U{2029}' || c == '\U{202F}'
    || c == '\U{205F}' || c == '\U{3000}'
    || match d
       case JavaScript => c == '\U{FEFF}'
       case Python => '\U{001C}' <= c <= '\U{001F}' || c == '\U{0085}'
  }

  /** Every character is white space (`not s.strip()` in Python, `s.trim() === ""` in JavaScript). */
  predicate AllSpace(d: Dialect, s: string)
  {
    |s| == 0 || (IsSpace(d, s[0]) && AllSpace(d, s[1..]))
  }

  lemma {:induction false} AllSpaceAppend(d: Dialect, a: string, b: string)
    ensures AllSpace(d, a + b) <==> AllSpace(d, a) && AllSpace(d, b)
  {
    if |a| > 0 {
      assert (a + b)[0] == a[0] && (a + b)[1..] == a[1..] + b;
      AllSpaceAppend(d, a[1..], b);
    } else {
      assert a + b == b;
    }
  }

  lemma {:induction false} AllSpaceAt(d: Dialect, s: string, k: nat)
    requires k < |s|
    ensures AllSpace(d, s) ==> IsSpace(d, s[k])
  {
    if k > 0 {
      AllSpaceAt(d, s[1..], k - 1);
    }
  }

  function StripStart(d: Dialect, s: string): (r: string)
    ensures |r| <= |s| && r == s[|s| - |r|..]
    ensures |r| > 0 ==> !IsSpace(d, r[0])
  {
    if |s| > 0 && IsSpace(d, s[0]) then StripStart(d, s[1..]) else s
  }

  /** What `StripStart` drops is white space. */
  lemma {:induction false} StripStartDropsSpace(d: Dialect, s: string)
    ensures AllSpace(d, s[..|s| - |StripStart(d, s)|])
  {
    if |s| > 0 && IsSpace(d, s[0]) {
      var r := StripStart(d, s[1..]);
      StripStartDropsSpace(d, s[1..]);
      var dropped := s[..|s| - |r|];
      assert dropped[0] == s[0] && dropped[1..] == s[1..][..|s| - 1 - |r|];
    } else {
      assert s[..0] == [];
    }
  }

  function StripEnd(d: Dialect, s: string): (r: string)
    ensures |r| <= |s| && r == s[..|r|]
    ensures |r| > 0 ==> !IsSpace(d, r[|r| - 1])
  {
    if |s| > 0 && IsSpace(d, s[|s| - 1]) then StripEnd(d, s[..|s| - 1]) else s
  }

  /** What `StripEnd` drops is white space. */
  lemma {:induction false} StripEndDropsSpace(d: Dialect, s: string)
    ensures AllSpace(d, s[|StripEnd(d, s)|..])
  {
    if |s| > 0 && IsSpace(d, s[|s| - 1]) {
      var r := StripEnd(d, s[..|s| - 1]);
      StripEndDropsSpace(d, s[..|s| - 1]);
      var last := [s[|s| - 1]];
      assert last[0] == s[|s| - 1] && last[1..] == [];
      assert s[|r|..] == s[..|s| - 1][|r|..] + last;
      AllSpaceAppend(d, s[..|s| - 1][|r|..], last);
    } else {
      assert s[|s|..] == [];
    }
  }

  /** JavaScript `s.trim()` / Python `s.strip()`: drop white space at both ends. */
  function Strip(d: Dialect, s: string): (r: string)
    ensures |r| > 0 ==> !IsSpace(d, r[0]) && !IsSpace(d, r[|r| - 1])
  {
    StripEnd(d, StripStart(d, s))
  }

  lemma {:induction false} StripStartEmptyIff(d: Dialect, s: string)
    ensures |StripStart(d, s)| == 0 <==> AllSpace(d, s)
  {
    if |s| > 0 && IsSpace(d, s[0]) {
      StripStartEmptyIff(d, s[1..]);
    }
  }

  lemma {:induction false} StripEndEmptyIff(d: Dialect, s: string)
    ensures |StripEnd(d, s)| == 0 <==> AllSpace(d, s)
  {
    if |s| > 0 {
      var init, last := s[..|s| - 1], [s[|s| - 1]];
      assert s == init + last;
      AllSpaceAppend(d, init, last);
      assert last[0] == s[|s| - 1] && last[1..] == [];
      if IsSpace(d, s[|s| - 1]) {
        StripEndEmptyIff(d, init);
      }
    }
  }

  /** A string strips to nothing exactly when every character of it is white space. */
  lemma StripEmptyIff(d: Dialect, s: string)
    ensures Strip(d, s) == "" <==> AllSpace(d, s)
  {
    var a := StripStart(d, s);
    StripStartEmptyIff(d, s);
    StripEndEmptyIff(d, a);
    assert |a| > 0 ==> !AllSpace(d, a);
  }

  /** Characters of a non-empty stripped string sit strictly inside the original. */
  lemma StripKeepsFirstNonSpace(d: Dialect, s: string)
    requires |s| > 0 && !IsSpace(d, s[0])
    ensures Strip(d, s) != ""
  {
    StripEmptyIff(d, s);
  }

  /** `pat` occurs in `s` at index `i`. */
  predicate OccursAt(s: string, pat: string, i: nat)
  {
    i + |pat| <= |s| && s[i..i + |pat|] == pat
  }

  /** `s.replace(pat, rep)`: every non-overlapping occurrence of `pat`, leftmost first, becomes `rep`. */
  function ReplaceAll(s: string, pat: string, rep: string): string
    requires |pat| > 0
    decreases |s|
  {
    if |s| < |pat| then s
    else if s[..|pat|] == pat then rep + ReplaceAll(s[|pat|..], pat, rep)
    else [s[0]] + ReplaceAll(s[1..], pat, rep)
  }

  lemma JoinCons(x: string, rest: seq<string>, sep: string)
    requires |rest| >= 1
    ensures Join([x] + rest, sep) == x + sep + Join(rest, sep)
  {
    assert ([x] + rest)[1..] == rest;
  }

  /** No occurrence of `pat` starts before index `k` of `t`. */
  predicate NoMatchBefore(t: string, pat: string, k: nat)
  {
    forall i: nat :: i < k ==> !OccursAt(t, pat, i)
  }

  /** Where the pattern occurs at the front, `replace` puts the replacement there and goes on after it. */
  lemma ReplaceAllAt(t: string, pat: string, rep: string)
    requires |pat| > 0 && OccursAt(t, pat, 0)
    ensures ReplaceAll(t, pat, rep) == rep + ReplaceAll(t[|pat|..], pat, rep)
  {
    assert t[..|pat|] == t[0..|pat|];
  }

  /** A stretch where no occurrence starts is copied unchanged, and the scan goes on after it. */
  lemma {:induction false} ReplaceAllSkip(t: string, pat: string, rep: string, k: nat)
    requires |pat| > 0 && k <= |t| && NoMatchBefore(t, pat, k)
    ensures ReplaceAll(t, pat, rep) == t[..k] + ReplaceAll(t[k..], pat, rep)
    decreases k
  {
    if k == 0 {
      assert t[..0] == "" && t[0..] == t;
    } else if |t| < |pat| {
      assert t[..k] + t[k..] == t;
    } else {
      assert !OccursAt(t, pat, 0);
      assert t[0..|pat|] == t[..|pat|];
      var u := t[1..];
      forall i: nat | i < k - 1
        ensures !OccursAt(u, pat, i)
      {
        assert !OccursAt(t, pat, i + 1);
        if i + |pat| <= |u| {
          assert u[i..i + |pat|] == t[i + 1..i + 1 + |pat|];
        }
      }
      ReplaceAllSkip(u, pat, rep, k - 1);
      assert u[k - 1..] == t[k..];
      assert [t[0]] + u[..k - 1] == t[..k];
    }
  }

  /** Text in which the pattern occurs nowhere is left as it is. */
  lemma ReplaceAllAbsent(s: string, pat: string, rep: string)
    requires |pat| > 0 && forall i: nat :: !OccursAt(s, pat, i)
    ensures ReplaceAll(s, pat, rep) == s
  {
    ReplaceAllSkip(s, pat, rep, |s|);
    assert s[..|s|] == s && s[|s|..] == "";
  }

  /** The number of decimal digits `s` starts with. */
  function DigitRun(s: string): (k: nat)
    ensures k <= |s| && AllDigits(s[..k])
    ensures k < |s| ==> !('0' <= s[k] <= '9')
  {
    if |s| > 0 && '0' <= s[0] <= '9' then
      var k := DigitRun(s[1..]);
      AllDigitsCons(s[0], s[1..][..k]);
      assert s[..k + 1] == [s[0]] + s[1..][..k];
      k + 1
    else 0
  }

  lemma {:induction false} AllDigitsCons(c: char, t: string)
    requires '0' <= c <= '9' && AllDigits(t)
    ensures AllDigits([c] + t)
    decreases |t|
  {
    var s := [c] + t;
    if |t| == 0 {
      assert s[..0] == [];
    } else {
      AllDigitsCons(c, t[..|t| - 1]);
      assert s[..|s| - 1] == [c] + t[..|t| - 1];
    }
  }

  /** ASCII `str.lower()`; other characters are left as they are. */
  function AsciiLower(s: string): (r: string)
    ensures |r| == |s|
    ensures forall i :: 0 <= i < |s| ==> (if 'A' <= s[i] <= 'Z' then r[i] as int == s[i] as int + 32 else r[i] == s[i])
  {
    if |s| == 0 then ""
    else [if 'A' <= s[0] <= 'Z' then (s[0] as int + 32) as char else s[0]] + AsciiLower(s[1..])
  }
}

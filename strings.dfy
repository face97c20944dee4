/**
 * The JavaScript string built-ins the resolver relies on, over `seq<char>`:
 * `indexOf`, `split` and `join` with a one-character separator, `trim`,
 * the leading-digit reading of `parseInt`, and the decimal rendering of a
 * natural number (array keys, counts in messages).
 */
module Strings {
  import opened Wrappers

  // ----- indexOf -----

  /** `find` occurs in `s` starting at position `j`. */
  predicate OccursAt(s: string, find: string, j: int)
  {
    0 <= j && j + |find| <= |s| && s[j..j + |find|] == find
  }

  /** The first position at or after `from` where `find` occurs in `s`, or -1. */
  function IndexFrom(s: string, find: string, from: nat): (r: int)
    ensures r == -1 || (from <= r && OccursAt(s, find, r))
    decreases |s| - from
  {
    if from + |find| > |s| then -1
    else if OccursAt(s, find, from) then from
    else IndexFrom(s, find, from + 1)
  }

  /** `s.indexOf(find)`: -1, or a position where `find` occurs. */
  function IndexOf(s: string, find: string): (r: int)
    ensures r == -1 || OccursAt(s, find, r)
  {
    IndexFrom(s, find, 0)
  }

  /** No occurrence is skipped between `from` and the result of `IndexFrom`. */
  lemma {:induction false} IndexFromFirst(s: string, find: string, from: nat)
    ensures IndexFrom(s, find, from) == -1 ==> forall j :: from <= j ==> !OccursAt(s, find, j)
    ensures IndexFrom(s, find, from) >= 0 ==> forall j :: from <= j < IndexFrom(s, find, from) ==> !OccursAt(s, find, j)
    decreases |s| - from
  {
    if from + |find| <= |s| && !OccursAt(s, find, from) {
      IndexFromFirst(s, find, from + 1);
    }
  }

  /** `indexOf` finds the first occurrence, and returns -1 exactly when there is none. */
  lemma IndexOfFirst(s: string, find: string)
    ensures IndexOf(s, find) == -1 <==> forall j :: !OccursAt(s, find, j)
    ensures IndexOf(s, find) >= 0 ==> forall j :: j < IndexOf(s, find) ==> !OccursAt(s, find, j)
  {
    IndexFromFirst(s, find, 0);
  }

  /** Dropping a first character that does not begin `find` moves every search one place left. */
  lemma {:induction false} IndexFromShift(s: string, find: string, k: nat)
    requires |s| > 0
    ensures IndexFrom(s, find, k + 1)
         == (if IndexFrom(s[1..], find, k) < 0 then -1 else IndexFrom(s[1..], find, k) + 1)
    decreases |s| - k
  {
    if k + 1 + |find| <= |s| {
      assert s[1..][k..k + |find|] == s[k + 1..k + 1 + |find|];
      if !OccursAt(s, find, k + 1) {
        IndexFromShift(s, find, k + 1);
      }
    }
  }

  lemma IndexOfTail(s: string, find: string)
    requires |s| > 0 && !OccursAt(s, find, 0)
    ensures IndexOf(s[1..], find) == (if IndexOf(s, find) < 0 then -1 else IndexOf(s, find) - 1)
  {
    IndexFromShift(s, find, 0);
  }

  // ----- split and join on a one-character separator -----

  /** `s.split(d)`: never empty; `"".split(d)` is `[""]`. */
  function Split(s: string, d: char): (r: seq<string>)
    ensures |r| >= 1
    ensures forall i :: 0 <= i < |r| ==> d !in r[i]
    decreases |s|
  {
    if |s| == 0 then [""]
    else if s[0] == d then [""] + Split(s[1..], d)
    else
      var rest := Split(s[1..], d);
      [[s[0]] + rest[0]] + rest[1..]
  }

  /** `xs.join(d)`. */
  function Join(xs: seq<string>, d: char): string
    decreases |xs|
  {
    if |xs| == 0 then ""
    else if |xs| == 1 then xs[0]
    else xs[0] + [d] + Join(xs[1..], d)
  }

  /** Number of occurrences of `c` in `s`. */
  function Count(s: string, c: char): nat
  {
    if |s| == 0 then 0 else (if s[0] == c then 1 else 0) + Count(s[1..], c)
  }

  lemma {:induction false} SplitWithoutSeparator(s: string, d: char)
    requires d !in s
    ensures Split(s, d) == [s]
    decreases |s|
  {
    if |s| > 0 {
      SplitWithoutSeparator(s[1..], d);
      assert s[0] != d && [s[0]] + s[1..] == s;
    }
  }

  /** Splitting at a separator concatenates the splits of the two sides. */
  lemma {:induction false} SplitAtSeparator(a: string, b: string, d: char)
    ensures Split(a + [d] + b, d) == Split(a, d) + Split(b, d)
    decreases |a|
  {
    var s := a + [d] + b;
    if |a| == 0 {
      assert s[0] == d && s[1..] == b;
    } else {
      assert s[0] == a[0];
      assert s[1..] == a[1..] + [d] + b;
      SplitAtSeparator(a[1..], b, d);
    }
  }

  /** The number of pieces is one more than the number of separators. */
  lemma {:induction false} SplitCount(s: string, d: char)
    ensures |Split(s, d)| == Count(s, d) + 1
    decreases |s|
  {
    if |s| > 0 {
      SplitCount(s[1..], d);
    }
  }

  /** Joining the pieces of a split gives the string back. */
  lemma {:induction false} JoinSplit(s: string, d: char)
    ensures Join(Split(s, d), d) == s
    decreases |s|
  {
    if |s| > 0 {
      var rest := Split(s[1..], d);
      JoinSplit(s[1..], d);
      if s[0] == d {
        assert Split(s, d) == [""] + rest;
        assert ([""] + rest)[1..] == rest;
      } else {
        var r := [[s[0]] + rest[0]] + rest[1..];
        assert Split(s, d) == r;
        if |rest| == 1 {
          assert Join(rest, d) == rest[0];
        } else {
          assert Join(rest, d) == rest[0] + [d] + Join(rest[1..], d);
          assert r[1..] == rest[1..];
        }
      }
    }
  }

  /** Joining one more piece appends the separator and the piece. */
  lemma {:induction false} JoinSnoc(xs: seq<string>, y: string, d: char)
    requires |xs| >= 1
    ensures Join(xs + [y], d) == Join(xs, d) + [d] + y
    decreases |xs|
  {
    if |xs| > 1 {
      assert (xs + [y])[1..] == xs[1..] + [y];
      JoinSnoc(xs[1..], y, d);
    } else {
      assert (xs + [y])[1..] == [y];
    }
  }

  /** Splitting a join of separator-free pieces gives the pieces back. */
  lemma {:induction false} SplitJoin(xs: seq<string>, d: char)
    requires |xs| >= 1
    requires forall i :: 0 <= i < |xs| ==> d !in xs[i]
    ensures Split(Join(xs, d), d) == xs
    decreases |xs|
  {
    if |xs| == 1 {
      SplitWithoutSeparator(xs[0], d);
    } else {
      SplitAtSeparator(xs[0], Join(xs[1..], d), d);
      SplitWithoutSeparator(xs[0], d);
      SplitJoin(xs[1..], d);
    }
  }

  // ----- trim -----

  /** The characters `String.prototype.trim` removes: white space and line terminators. */
  predicate IsWhitespace(c: char)
  {
    || c == ' ' || c == '\t' || c == '\n' || c == '\r'
    || c == '\U{000B}' || c == '\U{000C}' || c == '\U{00A0}' || c == '\U{1680}'
    || ('\U{2000}' <= c <= '\U{200A}')
    || c == '\U{2028}' || c == '\U{2029}' || c == '\U{202F}' || c == '\U{205F}'
    || c == '\U{3000}' || c == '\U{FEFF}'
  }

  function TrimLeft(s: string): (r: string)
    ensures |r| <= |s| && r == s[|s| - |r|..]
    ensures forall i :: 0 <= i < |s| - |r| ==> IsWhitespace(s[i])
    ensures |r| > 0 ==> !IsWhitespace(r[0])
    decreases |s|
  {
    if |s| > 0 && IsWhitespace(s[0]) then TrimLeft(s[1..]) else s
  }

  function TrimRight(s: string): (r: string)
    ensures |r| <= |s| && r == s[..|r|]
    ensures forall i :: |r| <= i < |s| ==> IsWhitespace(s[i])
    ensures |r| > 0 ==> !IsWhitespace(r[|r| - 1])
    decreases |s|
  {
    if |s| > 0 && IsWhitespace(s[|s| - 1]) then TrimRight(s[..|s| - 1]) else s
  }

  /** `s.trim()`: a run of `s` with white space only outside it and at neither end of it. */
  function Trim(s: string): (r: string)
    ensures exists i, j :: 0 <= i <= j <= |s| && r == s[i..j]
    ensures |r| > 0 ==> !IsWhitespace(r[0]) && !IsWhitespace(r[|r| - 1])
  {
    var l := TrimLeft(s);
    var r := TrimRight(l);
    assert r == s[|s| - |l|..|s| - |l| + |r|];
    r
  }

  // ----- numbers -----

  predicate IsDigit(c: char)
  {
    '0' <= c <= '9'
  }

  function DigitValue(c: char): nat
    requires IsDigit(c)
  {
    (c as int) - ('0' as int)
  }

  function DigitChar(d: nat): (c: char)
    requires d < 10
    ensures IsDigit(c) && DigitValue(c) == d
  {
    (d + ('0' as int)) as char
  }

  /** The decimal rendering of `n`, as `String(n)` gives it. */
  function NatToString(n: nat): (r: string)
    ensures |r| >= 1
    ensures forall i :: 0 <= i < |r| ==> IsDigit(r[i])
    decreases n
  {
    if n < 10 then [DigitChar(n)] else NatToString(n / 10) + [DigitChar(n % 10)]
  }

  /** The longest prefix of `s` made of decimal digits. */
  function LeadingDigits(s: string): (r: string)
    ensures |r| <= |s| && r == s[..|r|]
    ensures forall i :: 0 <= i < |r| ==> IsDigit(r[i])
    ensures |r| < |s| ==> !IsDigit(s[|r|])
    decreases |s|
  {
    if |s| > 0 && IsDigit(s[0]) then [s[0]] + LeadingDigits(s[1..]) else ""
  }

  /** The value of a string of decimal digits. */
  function DigitsValue(ds: string): nat
    requires forall i :: 0 <= i < |ds| ==> IsDigit(ds[i])
    decreases |ds|
  {
    if |ds| == 0 then 0 else DigitsValue(ds[..|ds| - 1]) * 10 + DigitValue(ds[|ds| - 1])
  }

  /**
   * `parseInt(s)` as the resolver uses it on path segments: the value of the
   * leading decimal digits, or `None` (NaN) when `s` does not start with one.
   */
  function ParseInt(s: string): (r: Option<nat>)
    ensures r.None? <==> (|s| == 0 || !IsDigit(s[0]))
  {
    var ds := LeadingDigits(s);
    if |ds| == 0 then None else Some(DigitsValue(ds))
  }
}

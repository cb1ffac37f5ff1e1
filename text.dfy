/** The JavaScript string operations the handlers and schema setters apply:
    `toLowerCase`, `trim`, `split`/`join`, `startsWith`, and the rendering of a
    number inside a template literal. Letters are folded for ASCII only. */
module Text {

  predicate IsUpper(c: char) { 'A' <= c <= 'Z' }

  predicate IsDigit(c: char) { '0' <= c <= '9' }

  /** The characters `trim` removes: ECMAScript's white space (tab, vertical
      tab, form feed, space, no-break space, the byte order mark and the other
      space separators) and its line terminators. */
  predicate IsSpace(c: char) {
    || c == '\t' || c == '\U{000B}' || c == '\U{000C}' || c == ' ' || c == '\U{00A0}' || c == '\U{FEFF}'
    || c == '\n' || c == '\r' || c == '\U{2028}' || c == '\U{2029}'
    || c == '\U{1680}' || '\U{2000}' <= c <= '\U{200A}' || c == '\U{202F}' || c == '\U{205F}' || c == '\U{3000}'
  }

  function LowerChar(c: char): (d: char)
    ensures !IsUpper(d)
    ensures IsSpace(d) <==> IsSpace(c)
    ensures !IsUpper(c) ==> d == c
  {
    if IsUpper(c) then (c as int + 32) as char else c
  }

  /** `s.toLowerCase()` */
  function Lower(s: string): (r: string)
    ensures |r| == |s|
    ensures forall i :: 0 <= i < |s| ==> r[i] == LowerChar(s[i])
  {
    if s == [] then [] else [LowerChar(s[0])] + Lower(s[1..])
  }

  lemma LowerIdempotent(s: string)
    ensures Lower(Lower(s)) == Lower(s)
  {
  }

  /** The number of white-space characters `s` starts with. */
  function LeadingSpaces(s: string): (k: nat)
    ensures k <= |s|
    ensures k < |s| ==> !IsSpace(s[k])
  {
    if s != [] && IsSpace(s[0]) then 1 + LeadingSpaces(s[1..]) else 0
  }

  /** The number of white-space characters `s` ends with. */
  function TrailingSpaces(s: string): (k: nat)
    ensures k <= |s|
    ensures k < |s| ==> !IsSpace(s[|s| - 1 - k])
  {
    if s != [] && IsSpace(s[|s| - 1]) then 1 + TrailingSpaces(s[..|s| - 1]) else 0
  }

  /** Neither end of `s` is white space. */
  predicate Trimmed(s: string) {
    s == [] || (!IsSpace(s[0]) && !IsSpace(s[|s| - 1]))
  }

  /** `s.trim()`: the leading and then the trailing white space dropped; the
      result has no white space at either end. */
  function Trim(s: string): (r: string)
    ensures Trimmed(r)
    ensures |r| <= |s|
  {
    var a := LeadingSpaces(s);
    var b := TrailingSpaces(s[a..]);
    s[a..|s| - b]
  }

  /** Trimming a trimmed string changes nothing, so `trim` is idempotent. */
  lemma TrimOfTrimmed(s: string)
    requires Trimmed(s)
    ensures Trim(s) == s
  {
  }

  /** A string is its own trim exactly when neither end is white space. */
  lemma TrimFixedPoints(s: string)
    ensures Trim(s) == s <==> Trimmed(s)
  {
    if Trimmed(s) {
      TrimOfTrimmed(s);
    }
  }

  /** Every character of `s` is white space. */
  predicate AllSpace(s: string) {
    forall i :: 0 <= i < |s| ==> IsSpace(s[i])
  }

  /** What `LeadingSpaces` counts is white space throughout. */
  lemma {:induction false} LeadingAllSpace(s: string)
    ensures AllSpace(s[..LeadingSpaces(s)])
  {
    if s != [] && IsSpace(s[0]) {
      LeadingAllSpace(s[1..]);
      assert s[..LeadingSpaces(s)] == [s[0]] + s[1..][..LeadingSpaces(s[1..])];
    }
  }

  /** What `TrailingSpaces` counts is white space throughout. */
  lemma {:induction false} TrailingAllSpace(s: string)
    ensures AllSpace(s[|s| - TrailingSpaces(s)..])
  {
    if s != [] && IsSpace(s[|s| - 1]) {
      var t := s[..|s| - 1];
      TrailingAllSpace(t);
      assert s[|s| - TrailingSpaces(s)..] == t[|t| - TrailingSpaces(t)..] + [s[|s| - 1]];
    }
  }

  /** Trimming only removes white space: the input is the trimmed text with a
      run of white space before it and another after it. */
  lemma TrimSplits(s: string)
    ensures exists p, q :: s == p + Trim(s) + q && AllSpace(p) && AllSpace(q)
  {
    var a := LeadingSpaces(s);
    var rest := s[a..];
    var b := TrailingSpaces(rest);
    LeadingAllSpace(s);
    TrailingAllSpace(rest);
    var p, m, q := s[..a], s[a..|s| - b], s[|s| - b..];
    assert rest[|rest| - b..] == q;
    assert m == Trim(s);
    SliceThree(s, a, |s| - b);
    assert s == p + Trim(s) + q && AllSpace(p) && AllSpace(q);
  }

  lemma SliceThree(s: string, i: nat, j: nat)
    requires i <= j <= |s|
    ensures s == s[..i] + s[i..j] + s[j..]
  {
  }

  /** The split is unique: any text without white space at its ends that is
      surrounded only by white space in `s` is `Trim(s)`. Together with
      `TrimSplits` this pins `Trim` down completely. */
  lemma TrimUnique(s: string, p: string, t: string, q: string)
    requires s == p + t + q && AllSpace(p) && AllSpace(q) && Trimmed(t)
    ensures t == Trim(s)
  {
    TrimSplits(s);
    var p', q' :| s == p' + Trim(s) + q' && AllSpace(p') && AllSpace(q');
    var r := Trim(s);
    MiddleEmptyIffAllSpace(s, p, t, q);
    MiddleEmptyIffAllSpace(s, p', r, q');
    if t != [] {
      SplitPositions(s, p, t, q, p', r, q');
      SplitPositions(s, p', r, q', p, t, q);
      assert t == s[|p|..|s| - |q|] == r;
    }
  }

  /** In a split of `s` around a middle without white space at its ends, the
      middle is empty exactly when `s` is all white space. */
  lemma MiddleEmptyIffAllSpace(s: string, p: string, t: string, q: string)
    requires s == p + t + q && AllSpace(p) && AllSpace(q) && Trimmed(t)
    ensures t == [] <==> AllSpace(s)
  {
    if t == [] {
      forall i | 0 <= i < |s|
        ensures IsSpace(s[i])
      {
        if i < |p| {
          assert s[i] == p[i];
        } else {
          assert s[i] == q[i - |p|];
        }
      }
    } else {
      assert s[|p|] == t[0];
    }
  }

  /** In two splits of `s` whose middles are non-empty and do not start or end
      with white space, the first middle begins no later and ends no earlier. */
  lemma SplitPositions(s: string, p: string, t: string, q: string, p': string, t': string, q': string)
    requires s == p + t + q && AllSpace(p) && AllSpace(q) && Trimmed(t) && t != []
    requires s == p' + t' + q' && AllSpace(p') && AllSpace(q') && Trimmed(t') && t' != []
    ensures |p| <= |p'| && |q| <= |q'|
  {
    assert !IsSpace(s[|p'|]) by {
      assert s[|p'|] == t'[0];
    }
    assert !IsSpace(s[|s| - 1 - |q'|]) by {
      assert s[|s| - 1 - |q'|] == t'[|t'| - 1];
    }
    forall i | 0 <= i < |p|
      ensures IsSpace(s[i])
    {
      assert s[i] == p[i];
    }
    forall i | |s| - |q| <= i < |s|
      ensures IsSpace(s[i])
    {
      assert s[i] == q[i - (|s| - |q|)];
    }
  }

  /** No upper-case letter anywhere. */
  predicate NoUpper(s: string) {
    forall i :: 0 <= i < |s| ==> !IsUpper(s[i])
  }

  /** A string is its own lower-casing exactly when it holds no upper-case letter. */
  lemma LowerFixedPoints(s: string)
    ensures Lower(s) == s <==> NoUpper(s)
  {
    if !NoUpper(s) {
      var i :| 0 <= i < |s| && IsUpper(s[i]);
      assert Lower(s)[i] != s[i];
    }
  }

  /** Folding case keeps the ends of a trimmed string free of white space. */
  lemma LowerKeepsTrimmed(s: string)
    requires Trimmed(s)
    ensures Trimmed(Lower(s))
  {
  }

  /** `s.startsWith(p)` */
  predicate StartsWith(s: string, p: string) {
    |p| <= |s| && s[..|p|] == p
  }

  /** The number of occurrences of `c` in `s`. */
  function CountChar(s: string, c: char): nat {
    if s == [] then 0 else (if s[0] == c then 1 else 0) + CountChar(s[1..], c)
  }

  lemma {:induction false} CountCharAppend(a: string, b: string, c: char)
    ensures CountChar(a + b, c) == CountChar(a, c) + CountChar(b, c)
  {
    if a != [] {
      assert (a + b)[1..] == a[1..] + b;
      CountCharAppend(a[1..], b, c);
    } else {
      assert a + b == b;
    }
  }

  lemma {:induction false} CountCharAbsent(s: string, c: char)
    requires c !in s
    ensures CountChar(s, c) == 0
  {
    if s != [] {
      CountCharAbsent(s[1..], c);
    }
  }

  /** `s.split(sep)` for a one-character separator: the pieces between the
      separators, always at least one (`"".split(" ")` is `[""]`). */
  function Split(s: string, sep: char): (parts: seq<string>)
    ensures |parts| >= 1
  {
    if s == [] then [[]]
    else
      var rest := Split(s[1..], sep);
      if s[0] == sep then [[]] + rest
      else [[s[0]] + rest[0]] + rest[1..]
  }

  /** A string without the separator splits into itself alone. */
  lemma {:induction false} SplitWithoutSeparator(s: string, sep: char)
    requires sep !in s
    ensures Split(s, sep) == [s]
  {
    if s != [] {
      SplitWithoutSeparator(s[1..], sep);
      assert [s[0]] + s[1..] == s;
    }
  }

  /** A piece without the separator, then the separator, then the rest: the
      piece comes first, followed by the pieces of the rest. */
  lemma {:induction false} SplitAtFirstSeparator(a: string, sep: char, b: string)
    requires sep !in a
    ensures Split(a + [sep] + b, sep) == [a] + Split(b, sep)
  {
    var s := a + [sep] + b;
    if a == [] {
      assert s[1..] == b;
    } else {
      assert s[1..] == a[1..] + [sep] + b;
      SplitAtFirstSeparator(a[1..], sep, b);
      assert [a[0]] + a[1..] == a;
    }
  }

  /** `parts.join(sep)`; the empty array joins to the empty string. */
  function JoinWith(parts: seq<string>, sep: string): string {
    if |parts| == 0 then []
    else if |parts| == 1 then parts[0]
    else parts[0] + sep + JoinWith(parts[1..], sep)
  }

  /** Every occurrence of `a` in `s` replaced by `b`. */
  function ReplaceChar(s: string, a: char, b: char): (r: string)
    ensures |r| == |s|
    ensures forall i :: 0 <= i < |s| ==> r[i] == if s[i] == a then b else s[i]
  {
    if s == [] then [] else [if s[0] == a then b else s[0]] + ReplaceChar(s[1..], a, b)
  }

  lemma JoinPrependToFirst(c: char, parts: seq<string>, sep: string)
    requires |parts| >= 1
    ensures JoinWith([[c] + parts[0]] + parts[1..], sep) == [c] + JoinWith(parts, sep)
  {
    var q := [[c] + parts[0]] + parts[1..];
    if |parts| > 1 {
      assert q[1..] == parts[1..];
    }
  }

  /** Splitting on one character and joining with another replaces each
      occurrence of the first by the second, one for one. */
  lemma {:induction false} JoinSplit(s: string, a: char, b: char)
    ensures JoinWith(Split(s, a), [b]) == ReplaceChar(s, a, b)
  {
    if s != [] {
      var rest := Split(s[1..], a);
      JoinSplit(s[1..], a, b);
      if s[0] == a {
        var parts := [[]] + rest;
        assert parts[1..] == rest;
        assert JoinWith(parts, [b]) == [] + [b] + JoinWith(rest, [b]);
      } else {
        JoinPrependToFirst(s[0], rest, [b]);
      }
    }
  }

  function DigitChar(d: nat): (c: char)
    requires d < 10
    ensures IsDigit(c)
  {
    ('0' as int + d) as char
  }

  /** The decimal numeral of `n`, as a template literal renders it. */
  function NatToDecimal(n: nat): (r: string)
    ensures |r| >= 1
    ensures forall i :: 0 <= i < |r| ==> IsDigit(r[i])
  {
    if n < 10 then [DigitChar(n)] else NatToDecimal(n / 10) + [DigitChar(n % 10)]
  }

  /** The value a string of digits denotes. */
  function DecimalValue(s: string): nat
    requires forall i :: 0 <= i < |s| ==> IsDigit(s[i])
  {
    if s == [] then 0
    else
      assert IsDigit(s[|s| - 1]);
      DecimalValue(s[..|s| - 1]) * 10 + (s[|s| - 1] as int - '0' as int)
  }

  /** Rendering a number and reading it back gives the number. */
  lemma {:induction false} DecimalRoundTrip(n: nat)
    ensures DecimalValue(NatToDecimal(n)) == n
  {
    if n >= 10 {
      var a := NatToDecimal(n / 10);
      var s := a + [DigitChar(n % 10)];
      assert s[..|s| - 1] == a;
      DecimalRoundTrip(n / 10);
    }
  }

  /** `${i}` for an integer. */
  function IntToDecimal(i: int): (r: string)
    ensures '\n' !in r && '"' !in r
  {
    if i < 0 then "-" + NatToDecimal(-i) else NatToDecimal(i)
  }
}

/** JavaScript strings as the adapters see them: sequences of UTF-16 code
    units, with the few built-in string operations the adapters rely on
    (`trim`, `startsWith`, `join`, a global `replace` of a literal pattern,
    and decimal conversion of integers). */
module JsText {

  /** One UTF-16 code unit, the element type of a JavaScript string. */
  newtype CodeUnit = x: int | 0 <= x < 0x1_0000

  type Text = seq<CodeUnit>

  /** A Dafny string literal whose characters all lie in the Basic
      Multilingual Plane, as the code units JavaScript stores for it. */
  function Lit(s: string): (t: Text)
    requires forall i :: 0 <= i < |s| ==> s[i] as int < 0x1_0000
    ensures |t| == |s|
    ensures forall i :: 0 <= i < |s| ==> t[i] as int == s[i] as int
  {
    seq(|s|, i requires 0 <= i < |s| => s[i] as int as CodeUnit)
  }

  /** The code units that `String.prototype.trim` removes: the white-space
      characters (including the space separators of category Zs) and the
      line terminators of ECMAScript. */
  predicate IsTrimmable(c: CodeUnit)
  {
    c == 0x09 || c == 0x0A || c == 0x0B || c == 0x0C || c == 0x0D || c == 0x20
    || c == 0xA0 || c == 0x1680 || (0x2000 <= c <= 0x200A) || c == 0x2028
    || c == 0x2029 || c == 0x202F || c == 0x205F || c == 0x3000 || c == 0xFEFF
  }

  /** Number of trimmable code units at the front of `s`. */
  function LeadingSpace(s: Text): (k: nat)
    ensures k <= |s|
    ensures forall i :: 0 <= i < k ==> IsTrimmable(s[i])
    ensures k < |s| ==> !IsTrimmable(s[k])
  {
    if s == [] || !IsTrimmable(s[0]) then 0 else 1 + LeadingSpace(s[1..])
  }

  /** Number of trimmable code units at the back of `s`. */
  function TrailingSpace(s: Text): (k: nat)
    ensures k <= |s|
    ensures forall i :: |s| - k <= i < |s| ==> IsTrimmable(s[i])
    ensures k < |s| ==> !IsTrimmable(s[|s| - 1 - k])
  {
    if s == [] || !IsTrimmable(s[|s| - 1]) then 0 else 1 + TrailingSpace(s[..|s| - 1])
  }

  /** `s.trim()`: the white space removed from both ends. */
  function Trim(s: Text): (r: Text)
    ensures |r| <= |s|
  {
    var a := LeadingSpace(s);
    var rest := s[a..];
    rest[..|rest| - TrailingSpace(rest)]
  }

  /** The result of `trim` is a slice of `s` with only white space cut off
      before and after it; it is empty exactly when `s` is all white space,
      and otherwise neither begins nor ends with white space; text that
      already has no white space at its ends is returned unchanged. */
  lemma TrimFacts(s: Text)
    ensures exists a, b :: 0 <= a <= b <= |s| && Trim(s) == s[a..b]
                           && (forall i :: 0 <= i < a ==> IsTrimmable(s[i]))
                           && (forall i :: b <= i < |s| ==> IsTrimmable(s[i]))
    ensures Trim(s) == [] <==> forall i :: 0 <= i < |s| ==> IsTrimmable(s[i])
    ensures Trim(s) != [] ==> !IsTrimmable(Trim(s)[0]) && !IsTrimmable(Trim(s)[|Trim(s)| - 1])
    ensures s == [] || (!IsTrimmable(s[0]) && !IsTrimmable(s[|s| - 1])) ==> Trim(s) == s
  {
    var a := LeadingSpace(s);
    var rest := s[a..];
    assert a < |s| ==> rest[0] == s[a];
    var b := a + |rest| - TrailingSpace(rest);
    assert Trim(s) == s[a..b];
    assert forall i :: b <= i < |s| ==> s[i] == rest[i - a];
  }

  /** Trimming twice is trimming once. */
  lemma TrimIdempotent(s: Text)
    ensures Trim(Trim(s)) == Trim(s)
  {
    TrimFacts(s);
    TrimFacts(Trim(s));
  }

  /** `s.startsWith(p)`: `p` agrees with `s` code unit by code unit, and
      `s` is then `p` followed by the rest of `s`. */
  predicate StartsWith(s: Text, p: Text): (b: bool)
    ensures b <==> |p| <= |s| && forall i :: 0 <= i < |p| ==> s[i] == p[i]
    ensures b ==> s == p + s[|p|..]
  {
    |p| <= |s| && s[..|p|] == p
  }

  /** `s.replace(/pat/g, rep)` for a pattern that matches only itself: the
      occurrences of `pat` are found from left to right without overlap and
      each is replaced by `rep`. Replacing by something no longer than the
      pattern never lengthens the text, and text in which the pattern's
      first code unit does not occur is returned unchanged. */
  function ReplaceAll(s: Text, pat: Text, rep: Text): (r: Text)
    requires pat != []
    ensures |rep| <= |pat| ==> |r| <= |s|
    ensures pat[0] !in s ==> r == s
    ensures rep != [] && s != [] ==> r != []
    decreases |s|
  {
    if |s| < |pat| then s
    else if s[..|pat|] == pat then rep + ReplaceAll(s[|pat|..], pat, rep)
    else [s[0]] + ReplaceAll(s[1..], pat, rep)
  }

  /** Splitting off the first code unit of the front part of a
      concatenation. */
  lemma ConsAppend(x: Text, t: Text)
    requires x != []
    ensures [x[0]] + (x[1..] + t) == x + t
  {
    assert [x[0]] + x[1..] == x;
  }

  /** A text that does not start with the pattern's first code unit keeps
      that code unit, and replacement goes on after it. */
  lemma ReplaceAllSkip(s: Text, pat: Text, rep: Text)
    requires pat != [] && s != [] && s[0] != pat[0]
    ensures ReplaceAll(s, pat, rep) == [s[0]] + ReplaceAll(s[1..], pat, rep)
  {
    if |s| >= |pat| {
      assert s[..|pat|][0] != pat[0];
    }
  }

  /** A text that starts with the pattern gets the replacement in its
      place, and replacement goes on after it. */
  lemma ReplaceAllHit(pat: Text, rep: Text, y: Text)
    requires pat != []
    ensures ReplaceAll(pat + y, pat, rep) == rep + ReplaceAll(y, pat, rep)
  {
    var s := pat + y;
    assert s[..|pat|] == pat && s[|pat|..] == y;
  }

  /** A text that does not start with the pattern keeps its first code
      unit, and replacement goes on after it. */
  lemma ReplaceAllMiss(s: Text, pat: Text, rep: Text)
    requires pat != [] && s != [] && !StartsWith(s, pat)
    ensures ReplaceAll(s, pat, rep) == [s[0]] + ReplaceAll(s[1..], pat, rep)
  {
    if |s| < |pat| {
      assert [s[0]] + s[1..] == s;
    }
  }

  /** A front part at none of whose positions an occurrence of the pattern
      starts is copied as it is, and replacement goes on with the rest. */
  lemma {:induction false} ReplaceAllPrefix(x: Text, pat: Text, rep: Text, y: Text)
    requires pat != []
    requires forall i :: 0 <= i < |x| ==> !StartsWith((x + y)[i..], pat)
    ensures ReplaceAll(x + y, pat, rep) == x + ReplaceAll(y, pat, rep)
    decreases |x|
  {
    var s := x + y;
    if x == [] {
      assert s == y;
    } else {
      assert s[0..] == s;
      ReplaceAllMiss(s, pat, rep);
      assert s[1..] == x[1..] + y;
      forall i | 0 <= i < |x[1..]|
        ensures !StartsWith((x[1..] + y)[i..], pat)
      {
        assert (x[1..] + y)[i..] == s[i + 1..];
      }
      ReplaceAllPrefix(x[1..], pat, rep, y);
      ConsAppend(x, ReplaceAll(y, pat, rep));
    }
  }

  /** Text in which no occurrence of the pattern starts anywhere is
      returned unchanged. */
  lemma ReplaceAllNoMatch(s: Text, pat: Text, rep: Text)
    requires pat != []
    requires forall i :: 0 <= i < |s| ==> !StartsWith(s[i..], pat)
    ensures ReplaceAll(s, pat, rep) == s
  {
    assert s + [] == s;
    ReplaceAllPrefix(s, pat, rep, []);
  }

  /** The first occurrence of the pattern, after a front part in which no
      occurrence starts, is replaced by the replacement text, and
      replacement goes on in the text after that occurrence. */
  lemma ReplaceAllFirst(x: Text, pat: Text, rep: Text, y: Text)
    requires pat != []
    requires forall i :: 0 <= i < |x| ==> !StartsWith((x + pat)[i..], pat)
    ensures ReplaceAll(x + pat + y, pat, rep) == x + (rep + ReplaceAll(y, pat, rep))
  {
    var s := x + pat + y;
    forall i | 0 <= i < |x|
      ensures !StartsWith((x + (pat + y))[i..], pat)
    {
      assert (x + (pat + y))[i..] == (x + pat)[i..] + y;
    }
    assert s == x + (pat + y);
    ReplaceAllPrefix(x, pat, rep, pat + y);
    ReplaceAllHit(pat, rep, y);
  }

  /** The case of `ReplaceAllFirst` where the front part does not even hold
      the pattern's first code unit. */
  lemma ReplaceAllAfter(x: Text, pat: Text, rep: Text, y: Text)
    requires pat != [] && pat[0] !in x
    ensures ReplaceAll(x + pat + y, pat, rep) == x + (rep + ReplaceAll(y, pat, rep))
  {
    forall i | 0 <= i < |x|
      ensures !StartsWith((x + pat)[i..], pat)
    {
      assert (x + pat)[i..][0] == x[i];
    }
    ReplaceAllFirst(x, pat, rep, y);
  }

  /** `parts.join(sep)`. With a non-empty separator the result is empty only
      for no parts or a single empty part. */
  function Join(parts: seq<Text>, sep: Text): (r: Text)
    ensures parts == [] ==> r == []
    ensures |parts| == 1 ==> r == parts[0]
    ensures sep != [] ==> (r == [] <==> parts == [] || (|parts| == 1 && parts[0] == []))
  {
    if parts == [] then []
    else if |parts| == 1 then parts[0]
    else parts[0] + sep + Join(parts[1..], sep)
  }

  /** An ASCII decimal digit, what `\d` matches. */
  predicate IsDigit(c: CodeUnit)
  {
    0x30 <= c <= 0x39
  }

  predicate IsDigits(s: Text)
  {
    forall i :: 0 <= i < |s| ==> IsDigit(s[i])
  }

  /** The integer a string of decimal digits denotes. */
  function DecimalValue(s: Text): (n: nat)
    requires IsDigits(s)
  {
    if s == [] then 0 else DecimalValue(s[..|s| - 1]) * 10 + (s[|s| - 1] - 0x30) as int
  }

  function DigitOf(d: nat): (c: CodeUnit)
    requires d < 10
    ensures IsDigit(c) && (c - 0x30) as int == d
  {
    (0x30 + d) as CodeUnit
  }

  /** A non-negative integer written in decimal, as a template literal
      `${n}` writes it: digits only, with no leading zero. */
  function DecimalText(n: nat): (s: Text)
    ensures s != [] && IsDigits(s)
    ensures |s| > 1 ==> s[0] != 0x30
  {
    if n < 10 then [DigitOf(n)] else DecimalText(n / 10) + [DigitOf(n % 10)]
  }

  /** Reading back the digits `DecimalText` writes gives the number again. */
  lemma {:induction false} DecimalRoundTrip(n: nat)
    ensures DecimalValue(DecimalText(n)) == n
  {
    if n >= 10 {
      var s := DecimalText(n);
      assert s[..|s| - 1] == DecimalText(n / 10);
      DecimalRoundTrip(n / 10);
    }
  }

  /** Distinct numbers are written differently. */
  lemma DecimalTextInjective(m: nat, n: nat)
    requires DecimalText(m) == DecimalText(n)
    ensures m == n
  {
    DecimalRoundTrip(m);
    DecimalRoundTrip(n);
  }

  predicate IsHighSurrogate(c: CodeUnit)
  {
    0xD800 <= c <= 0xDBFF
  }

  predicate IsLowSurrogate(c: CodeUnit)
  {
    0xDC00 <= c <= 0xDFFF
  }

  /** Every surrogate is half of a pair: what `encodeURIComponent` demands
      of its argument before it will encode it (it throws a `URIError`
      otherwise). */
  predicate WellFormed(s: Text)
    decreases |s|
  {
    if s == [] then true
    else if IsHighSurrogate(s[0]) then |s| >= 2 && IsLowSurrogate(s[1]) && WellFormed(s[2..])
    else !IsLowSurrogate(s[0]) && WellFormed(s[1..])
  }

  /** Text without surrogates is well formed, so plain Basic Multilingual
      Plane text never makes `encodeURIComponent` throw. */
  lemma {:induction false} NoSurrogatesWellFormed(s: Text)
    requires forall i :: 0 <= i < |s| ==> !IsHighSurrogate(s[i]) && !IsLowSurrogate(s[i])
    ensures WellFormed(s)
    decreases |s|
  {
    if s != [] {
      NoSurrogatesWellFormed(s[1..]);
    }
  }
}

/** The pieces of Rust's text formatting that rendering a device address relies on:
    the `{:X?}` rendering of an integer (upper-case hexadecimal, no padding, no prefix),
    `[String]::join` and, as its inverse, `str::split`. */
module Fmt {

  const HexDigits: string := "0123456789ABCDEF"

  predicate IsUpperHexDigit(c: char) {
    '0' <= c <= '9' || 'A' <= c <= 'F'
  }

  predicate IsUpperHex(s: string) {
    forall i :: 0 <= i < |s| ==> IsUpperHexDigit(s[i])
  }

  /** The value of one upper-case hexadecimal digit. */
  function DigitValue(c: char): (v: nat)
    requires IsUpperHexDigit(c)
    ensures v < 16
  {
    if c <= '9' then c as int - '0' as int else c as int - 'A' as int + 10
  }

  /** The digit for a value below 16. */
  function HexDigit(n: nat): (c: char)
    requires n < 16
    ensures IsUpperHexDigit(c) && DigitValue(c) == n
  {
    HexDigits[n]
  }

  /** The number a string of upper-case hexadecimal digits denotes, most significant first. */
  function HexValue(s: string): nat
    requires IsUpperHex(s)
  {
    if s == [] then 0 else HexValue(s[..|s| - 1]) * 16 + DigitValue(s[|s| - 1])
  }

  /** `format!("{:X?}", n)`: the digits of n in base 16, most significant first,
      without leading zeros (zero itself is "0"). */
  function UpperHex(n: nat): (s: string)
    ensures 1 <= |s| && IsUpperHex(s)
    ensures HexValue(s) == n
    ensures |s| > 1 ==> s[0] != '0'
    ensures n < 16 <==> |s| == 1
    ensures n < 256 ==> |s| <= 2
  {
    if n < 16 then [HexDigit(n)] else UpperHex(n / 16) + [HexDigit(n % 16)]
  }

  /** `parts.join(sep)` for a one-character separator. */
  function Join(parts: seq<string>, sep: char): string {
    if |parts| == 0 then ""
    else if |parts| == 1 then parts[0]
    else parts[0] + [sep] + Join(parts[1..], sep)
  }

  /** `s.split(sep)`: the pieces between separators, always at least one. */
  function Split(s: string, sep: char): (parts: seq<string>)
    ensures |parts| >= 1
  {
    if |s| == 0 then [""]
    else
      var rest := Split(s[1..], sep);
      if s[0] == sep then [""] + rest else [[s[0]] + rest[0]] + rest[1..]
  }

  /** The number of occurrences of c in s. */
  function Count(s: string, c: char): nat {
    if s == [] then 0 else (if s[0] == c then 1 else 0) + Count(s[1..], c)
  }

  /** Rust's `.rev()`: the last element first. */
  function Reverse<T>(s: seq<T>): (r: seq<T>)
    ensures |r| == |s|
    ensures forall i :: 0 <= i < |s| ==> r[i] == s[|s| - 1 - i]
  {
    if s == [] then [] else [s[|s| - 1]] + Reverse(s[..|s| - 1])
  }

  lemma {:induction false} CountAppend(a: string, b: string, c: char)
    ensures Count(a + b, c) == Count(a, c) + Count(b, c)
  {
    if a == [] {
      assert a + b == b;
    } else {
      assert (a + b)[1..] == a[1..] + b;
      CountAppend(a[1..], b, c);
    }
  }

  /** A piece with no separator in it splits to itself. */
  lemma {:induction false} SplitPiece(p: string, sep: char)
    requires sep !in p
    ensures Split(p, sep) == [p]
  {
    if |p| > 0 {
      assert p[0] in p;
      assert forall c :: c in p[1..] ==> c in p;
      SplitPiece(p[1..], sep);
      assert [p[0]] + p[1..] == p;
    }
  }

  /** Splitting off a leading piece that holds no separator. */
  lemma {:induction false} SplitLeadingPiece(p: string, sep: char, t: string)
    requires sep !in p
    ensures Split(p + [sep] + t, sep) == [p] + Split(t, sep)
  {
    if |p| == 0 {
      assert p + [sep] + t == [sep] + t;
      assert ([sep] + t)[1..] == t;
    } else {
      assert (p + [sep] + t)[1..] == p[1..] + [sep] + t;
      SplitLeadingPiece(p[1..], sep, t);
      assert [p[0]] + p[1..] == p;
    }
  }

  /** Splitting on the separator undoes joining with it, provided no part contains it. */
  lemma {:induction false} SplitJoin(parts: seq<string>, sep: char)
    requires |parts| >= 1
    requires forall k :: 0 <= k < |parts| ==> sep !in parts[k]
    ensures Split(Join(parts, sep), sep) == parts
  {
    if |parts| == 1 {
      SplitPiece(parts[0], sep);
    } else {
      SplitJoin(parts[1..], sep);
      SplitLeadingPiece(parts[0], sep, Join(parts[1..], sep));
      assert [parts[0]] + parts[1..] == parts;
    }
  }

  /** Joining n parts that hold no separator puts exactly n - 1 separators in the result. */
  lemma {:induction false} CountJoin(parts: seq<string>, sep: char)
    requires |parts| >= 1
    requires forall k :: 0 <= k < |parts| ==> Count(parts[k], sep) == 0
    ensures Count(Join(parts, sep), sep) == |parts| - 1
  {
    if |parts| > 1 {
      CountJoin(parts[1..], sep);
      CountAppend(parts[0] + [sep], Join(parts[1..], sep), sep);
      CountAppend(parts[0], [sep], sep);
      assert Count([sep], sep) == 1 by {
        assert [sep][1..] == [];
      }
    }
  }

  /** A string with no occurrence of c does not contain c. */
  lemma {:induction false} CountZero(s: string, c: char)
    ensures Count(s, c) == 0 <==> c !in s
  {
    if s != [] {
      CountZero(s[1..], c);
      assert s == [s[0]] + s[1..];
    }
  }
}

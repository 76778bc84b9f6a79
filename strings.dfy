/**
 * The JavaScript string operations the handlers and pages use: `toLowerCase`,
 * `toUpperCase`, `trim`, `includes`, `endsWith`, `Array.prototype.join`, `split`
 * (the inverse used to read a CSV back) and `Number.prototype.toString`.
 * Case mapping covers ASCII letters only.
 */
module Strings {

  function LowerChar(c: char): char
  {
    if 'A' <= c <= 'Z' then (c as int + 32) as char else c
  }

  function UpperChar(c: char): char
  {
    if 'a' <= c <= 'z' then (c as int - 32) as char else c
  }

  /** `s.toLowerCase()`. */
  function ToLower(s: string): string
  {
    seq(|s|, i requires 0 <= i < |s| => LowerChar(s[i]))
  }

  /** `s.toUpperCase()`. */
  function ToUpper(s: string): string
  {
    seq(|s|, i requires 0 <= i < |s| => UpperChar(s[i]))
  }

  /** Lower-casing twice is lower-casing once. */
  lemma ToLowerIdempotent(s: string)
    ensures ToLower(ToLower(s)) == ToLower(s)
  {
    var l := ToLower(s);
    assert forall i :: 0 <= i < |l| ==> LowerChar(l[i]) == l[i];
  }

  /** The white space `String.prototype.trim` removes (the ASCII ones, no-break space and the byte-order mark). */
  predicate IsSpace(c: char)
  {
    c == ' ' || c == '\t' || c == '\n' || c == '\r' ||
    c as int == 0x0B || c as int == 0x0C || c as int == 0xA0 || c as int == 0xFEFF
  }

  function TrimStart(s: string): (r: string)
    ensures |r| <= |s| && r == s[|s| - |r|..]
    ensures forall i :: 0 <= i < |s| - |r| ==> IsSpace(s[i])
    ensures r == [] || !IsSpace(r[0])
  {
    if s != [] && IsSpace(s[0]) then TrimStart(s[1..]) else s
  }

  function TrimEnd(s: string): (r: string)
    ensures |r| <= |s| && r == s[..|r|]
    ensures forall i :: |r| <= i < |s| ==> IsSpace(s[i])
    ensures r == [] || !IsSpace(r[|r| - 1])
  {
    if s != [] && IsSpace(s[|s| - 1]) then TrimEnd(s[..|s| - 1]) else s
  }

  /** `needle` occurs in `hay` starting at position `k`. */
  predicate SubstringAt(hay: string, needle: string, k: int)
  {
    0 <= k <= |hay| - |needle| && hay[k..k + |needle|] == needle
  }

  /** `s.trim()`: no white space is left at either end. */
  function Trim(s: string): (r: string)
    ensures r == [] || (!IsSpace(r[0]) && !IsSpace(r[|r| - 1]))
  {
    TrimEnd(TrimStart(s))
  }

  /** Only white space is removed: the trimmed string is a piece of the original. */
  lemma TrimIsPiece(s: string)
    ensures exists k :: SubstringAt(s, Trim(s), k)
  {
    var t := TrimStart(s);
    var r := TrimEnd(t);
    var k := |s| - |t|;
    assert t == s[k..];
    assert r == t[..|r|];
    assert r == s[k..k + |r|];
    assert SubstringAt(s, r, k);
    assert r == Trim(s);
  }

  /** Trimming a string that is already trimmed changes nothing. */
  lemma TrimTrimmed(s: string)
    requires s == [] || (!IsSpace(s[0]) && !IsSpace(s[|s| - 1]))
    ensures Trim(s) == s
  {
  }

  /** Lower-casing never creates or removes white space. */
  lemma LowerKeepsSpace(c: char)
    ensures IsSpace(LowerChar(c)) == IsSpace(c)
  {
  }

  /** A piece of a lower-cased string is already lower case. */
  lemma LowerIsFixedPoint(l: string, n: string)
    requires forall i :: 0 <= i < |l| ==> LowerChar(l[i]) == l[i]
    requires exists k :: SubstringAt(l, n, k)
    ensures ToLower(n) == n
  {
    var k :| SubstringAt(l, n, k);
    forall i | 0 <= i < |n|
      ensures LowerChar(n[i]) == n[i]
    {
      assert n[i] == l[k + i];
    }
  }

  /** A trimmed lower-case string is a fixed point of both operations: normalising an email twice is normalising it once. */
  lemma NormalizedIsFixedPoint(s: string)
    ensures var n := Trim(ToLower(s)); Trim(ToLower(n)) == n
  {
    var l := ToLower(s);
    var n := Trim(l);
    TrimIsPiece(l);
    LowerIsFixedPoint(l, n);
    TrimTrimmed(n);
  }

  /** `hay.includes(needle)`. */
  predicate Contains(hay: string, needle: string)
  {
    needle <= hay || (hay != [] && Contains(hay[1..], needle))
  }

  /** Every string includes the empty string, so an empty search matches everything. */
  lemma {:induction false} ContainsEmpty(hay: string)
    ensures Contains(hay, "")
  {
  }

  /** A string that `includes` the needle holds it at some position. */
  lemma {:induction false} ContainsGivesSubstring(hay: string, needle: string)
    requires Contains(hay, needle)
    ensures exists k :: SubstringAt(hay, needle, k)
  {
    if needle <= hay {
      assert SubstringAt(hay, needle, 0);
    } else {
      ContainsGivesSubstring(hay[1..], needle);
      var k :| SubstringAt(hay[1..], needle, k);
      assert hay[1..][k..k + |needle|] == hay[k + 1..k + 1 + |needle|];
      assert SubstringAt(hay, needle, k + 1);
    }
  }

  /** A needle found at any position makes `includes` true. */
  lemma {:induction false} SubstringGivesContains(hay: string, needle: string, k: int)
    requires SubstringAt(hay, needle, k)
    ensures Contains(hay, needle)
    decreases k
  {
    if k == 0 {
      assert needle <= hay;
    } else {
      assert hay[1..][k - 1..k - 1 + |needle|] == hay[k..k + |needle|];
      SubstringGivesContains(hay[1..], needle, k - 1);
    }
  }

  /** `includes` is satisfied exactly by the substrings. */
  lemma ContainsIsSubstring(hay: string, needle: string)
    ensures Contains(hay, needle) <==> exists k :: SubstringAt(hay, needle, k)
  {
    if Contains(hay, needle) {
      ContainsGivesSubstring(hay, needle);
    }
    if exists k :: SubstringAt(hay, needle, k) {
      var k :| SubstringAt(hay, needle, k);
      SubstringGivesContains(hay, needle, k);
    }
  }

  /** `s.endsWith(suffix)`. */
  predicate EndsWith(s: string, suffix: string)
  {
    |suffix| <= |s| && s[|s| - |suffix|..] == suffix
  }

  /** `parts.join(sep)`: no separator before the first part or after the last. */
  function Join(parts: seq<string>, sep: string): string
  {
    if parts == [] then ""
    else if |parts| == 1 then parts[0]
    else parts[0] + sep + Join(parts[1..], sep)
  }

  /** `s.split(c)` for a one-character separator: one more piece than there are separators. */
  function Split(s: string, c: char): (r: seq<string>)
    ensures |r| >= 1
    ensures forall i :: 0 <= i < |r| ==> c !in r[i]
  {
    if s == [] then [""]
    else
      var rest := Split(s[1..], c);
      if s[0] == c then [""] + rest
      else [[s[0]] + rest[0]] + rest[1..]
  }

  /** A string without the separator is one piece. */
  lemma {:induction false} SplitWithout(s: string, c: char)
    requires c !in s
    ensures Split(s, c) == [s]
  {
    if s != [] {
      SplitWithout(s[1..], c);
      assert [s[0]] + s[1..] == s;
    }
  }

  /** Splitting at the first separator. */
  lemma {:induction false} SplitAt(a: string, c: char, b: string)
    requires c !in a
    ensures Split(a + [c] + b, c) == [a] + Split(b, c)
  {
    if a == [] {
      assert a + [c] + b == [c] + b;
      assert ([c] + b)[1..] == b;
    } else {
      var s := a + [c] + b;
      assert s[0] == a[0] && s[1..] == a[1..] + [c] + b;
      SplitAt(a[1..], c, b);
      assert [a[0]] + a[1..] == a;
    }
  }

  /** Splitting a join at a separator that occurs in no part gives the parts back. */
  lemma {:induction false} SplitJoin(parts: seq<string>, c: char)
    requires |parts| >= 1
    requires forall i :: 0 <= i < |parts| ==> c !in parts[i]
    ensures Split(Join(parts, [c]), c) == parts
  {
    if |parts| == 1 {
      SplitWithout(parts[0], c);
    } else {
      SplitJoin(parts[1..], c);
      SplitAt(parts[0], c, Join(parts[1..], [c]));
      assert parts == [parts[0]] + parts[1..];
    }
  }

  function DigitChar(d: nat): char
    requires d < 10
  {
    ('0' as int + d) as char
  }

  predicate IsDigit(c: char)
  {
    '0' <= c <= '9'
  }

  /** `String(n)` for a non-negative integer: decimal, no leading zero. */
  function NatToString(n: nat): (r: string)
    ensures |r| >= 1
    ensures forall i :: 0 <= i < |r| ==> IsDigit(r[i])
    ensures r[0] != '0' || n == 0
  {
    if n < 10 then [DigitChar(n)] else NatToString(n / 10) + [DigitChar(n % 10)]
  }

  /** `String(i)` for an integer. */
  function IntToString(i: int): string
  {
    if i < 0 then "-" + NatToString(-i) else NatToString(i)
  }

  /** Reading a decimal numeral. */
  function ParseNat(s: string): nat
    requires forall i :: 0 <= i < |s| ==> IsDigit(s[i])
  {
    if s == [] then 0
    else
      var d := s[|s| - 1] as int - '0' as int;
      assert IsDigit(s[|s| - 1]);
      ParseNat(s[..|s| - 1]) * 10 + d
  }

  /** Printing a number and reading it back gives the number. */
  lemma {:induction false} ParsePrinted(n: nat)
    ensures ParseNat(NatToString(n)) == n
  {
    if n >= 10 {
      ParsePrinted(n / 10);
      var s := NatToString(n);
      assert s[..|s| - 1] == NatToString(n / 10);
    }
  }

  function Pow10(k: nat): nat
  {
    if k == 0 then 1 else 10 * Pow10(k - 1)
  }

  /** A number in `[10^(k-1), 10^k)` prints with exactly `k` digits. */
  lemma {:induction false} DigitCount(n: nat, k: nat)
    requires k >= 1 && Pow10(k - 1) <= n < Pow10(k)
    ensures |NatToString(n)| == k
  {
    if k > 1 {
      DigitCount(n / 10, k - 1);
    }
  }
}

/** Wrappers and the .NET string operations the modelled library relies on:
    String.IndexOf, String.Split, String.Replace, String.StartsWith,
    Int64 formatting and parsing, and the character classes it tests. */
module Text {

  datatype Option<+T> = None | Some(value: T)

  datatype Result<+T, +E> = Success(value: T) | Failure(error: E)

  /** An 8-bit unsigned value, a C# byte. */
  newtype byte = b: int | 0 <= b < 0x100

  /** Largest value of a C# long. */
  const Int64Max: int := 0x7FFF_FFFF_FFFF_FFFF

  // ---------------------------------------------------------------------
  // Character classes (ASCII; see README for the Unicode detail left out)
  // ---------------------------------------------------------------------

  predicate IsAsciiLetter(c: char) { 'a' <= c <= 'z' || 'A' <= c <= 'Z' }

  predicate IsAsciiDigit(c: char) { '0' <= c <= '9' }

  predicate IsAsciiLetterOrDigit(c: char) { IsAsciiLetter(c) || IsAsciiDigit(c) }

  /** The regular-expression class \w restricted to ASCII. */
  predicate IsWordChar(c: char) { IsAsciiLetterOrDigit(c) || c == '_' }

  /** char.IsWhiteSpace: the Unicode space, line and paragraph separators,
      U+0009 to U+000D and U+0085. */
  predicate IsWhiteSpace(c: char)
  {
    var n := c as int;
    (9 <= n <= 13) || n == 0x20 || n == 0x85 || n == 0xA0 || n == 0x1680
    || (0x2000 <= n <= 0x200A) || n == 0x2028 || n == 0x2029 || n == 0x202F
    || n == 0x205F || n == 0x3000
  }

  /** string.IsNullOrWhiteSpace for a non-null string. */
  predicate IsBlank(s: string)
  {
    forall k :: 0 <= k < |s| ==> IsWhiteSpace(s[k])
  }

  /** A character beyond U+FFFF, which UTF-16 stores as a surrogate pair. */
  predicate IsSupplementary(c: char) { c as int >= 0x10000 }

  /** String.Length: the number of UTF-16 code units, two for each
      supplementary character and one for every other. */
  function Utf16Length(s: string): (n: nat)
    ensures |s| <= n <= 2 * |s|
    ensures n == |s| <==> forall k :: 0 <= k < |s| ==> !IsSupplementary(s[k])
    ensures (forall k :: 0 <= k < |s| ==> IsSupplementary(s[k])) ==> n == 2 * |s|
  {
    if s == [] then 0
    else
      var front := s[..|s| - 1];
      assert forall k :: 0 <= k < |front| ==> front[k] == s[k];
      Utf16Length(front) + (if IsSupplementary(s[|s| - 1]) then 2 else 1)
  }

  /** A string of ASCII characters takes one UTF-16 code unit a character. */
  lemma AsciiUtf16Length(s: string)
    requires forall k :: 0 <= k < |s| ==> s[k] as int < 0x80
    ensures Utf16Length(s) == |s|
  {
  }

  lemma {:induction false} Utf16LengthAppend(a: string, b: string)
    ensures Utf16Length(a + b) == Utf16Length(a) + Utf16Length(b)
    decreases |b|
  {
    if b != [] {
      var front := b[..|b| - 1];
      assert (a + b)[..|a + b| - 1] == a + front;
      Utf16LengthAppend(a, front);
    } else {
      assert a + b == a;
    }
  }

  /** char.ToUpperInvariant on ASCII. */
  function UpperChar(c: char): char
  {
    if 'a' <= c <= 'z' then (c as int - 32) as char else c
  }

  function ToUpper(s: string): (r: string)
    ensures |r| == |s|
    ensures forall k :: 0 <= k < |s| ==> r[k] == UpperChar(s[k])
  {
    seq(|s|, k requires 0 <= k < |s| => UpperChar(s[k]))
  }

  /** String.StartsWith(prefix, StringComparison.OrdinalIgnoreCase). */
  predicate StartsWithIgnoreCase(s: string, prefix: string)
  {
    |prefix| <= |s| && ToUpper(prefix) == ToUpper(s[..|prefix|])
  }

  lemma AppendAssociative<T>(a: seq<T>, b: seq<T>, c: seq<T>)
    ensures (a + b) + c == a + (b + c)
  {
  }

  // ---------------------------------------------------------------------
  // Searching and splitting
  // ---------------------------------------------------------------------

  /** String.IndexOf(char) where the character occurs. */
  function IndexOf(s: string, c: char): (i: nat)
    requires c in s
    ensures i < |s| && s[i] == c && c !in s[..i]
  {
    if s[0] == c then 0
    else
      var j := IndexOf(s[1..], c);
      assert s[..j + 1] == [s[0]] + s[1..][..j];
      1 + j
  }

  /** The text before the first c, or all of s when c does not occur. */
  function UpTo(s: string, c: char): (r: string)
    ensures c !in r && r <= s
  {
    if c in s then s[..IndexOf(s, c)] else s
  }

  /** The text after the first c. */
  function After(s: string, c: char): (r: string)
    requires c in s
    ensures s == UpTo(s, c) + [c] + r
  {
    s[IndexOf(s, c) + 1..]
  }

  /** The first c of a + [c] + b is the one after a, when a holds none. */
  lemma UpToAfterConcat(a: string, c: char, b: string)
    requires c !in a
    ensures c in a + [c] + b
    ensures UpTo(a + [c] + b, c) == a && After(a + [c] + b, c) == b
  {
    var s := a + [c] + b;
    assert s[|a|] == c;
    assert s[..|a|] == a;
  }

  /** String.Contains(string). */
  predicate ContainsSubstring(s: string, sub: string)
    decreases |s|
  {
    sub <= s || (s != [] && ContainsSubstring(s[1..], sub))
  }

  /** A string in which the first two characters of sub never stand next to
      each other does not contain sub. */
  lemma {:induction false} NoSubstringWithoutPair(s: string, sub: string)
    requires |sub| >= 2
    requires forall k :: 0 <= k < |s| - 1 && s[k] == sub[0] ==> s[k + 1] != sub[1]
    ensures !ContainsSubstring(s, sub)
    decreases |s|
  {
    if s != [] {
      if |s| >= 2 && s[0] == sub[0] { assert s[1] != sub[1]; }
      NoSubstringWithoutPair(s[1..], sub);
    }
  }

  /** Number of occurrences of c in s. */
  function Count(s: string, c: char): nat
  {
    if s == [] then 0 else (if s[0] == c then 1 else 0) + Count(s[1..], c)
  }

  /** String.Split(char): the pieces between the occurrences of c, in order,
      empty pieces included; there is always at least one. */
  function Split(s: string, c: char): (parts: seq<string>)
    ensures |parts| >= 1 && parts[0] == UpTo(s, c)
    ensures forall k :: 0 <= k < |parts| ==> c !in parts[k]
    decreases |s|
  {
    if c in s then
      var i := IndexOf(s, c);
      [s[..i]] + Split(s[i + 1..], c)
    else [s]
  }

  /** Every character of s other than c lies in one of its pieces. */
  lemma {:induction false} SplitCovers(s: string, c: char, x: char)
    requires x in s && x != c
    ensures exists p :: p in Split(s, c) && x in p
    decreases |s|
  {
    if c in s {
      var rest := After(s, c);
      if x !in UpTo(s, c) {
        SplitCovers(rest, c, x);
        var p :| p in Split(rest, c) && x in p;
        assert p in Split(s, c);
      }
    }
  }

  /** String.Join with a one-character separator. */
  function Join(parts: seq<string>, c: char): string
    requires |parts| >= 1
  {
    if |parts| == 1 then parts[0] else parts[0] + [c] + Join(parts[1..], c)
  }

  /** Splitting loses nothing: joining the pieces back gives the input. */
  lemma {:induction false} SplitJoin(s: string, c: char)
    ensures Join(Split(s, c), c) == s
    decreases |s|
  {
    if c in s {
      var rest := After(s, c);
      SplitJoin(rest, c);
      assert Split(s, c)[1..] == Split(rest, c);
    }
  }

  /** There is one more piece than there are separators. */
  lemma {:induction false} SplitCount(s: string, c: char)
    ensures |Split(s, c)| == Count(s, c) + 1
    decreases |s|
  {
    if c in s {
      var i := IndexOf(s, c);
      CountAppend(s[..i], s[i..], c);
      assert s[..i] + s[i..] == s;
      CountAbsent(s[..i], c);
      assert s[i..] == [c] + After(s, c);
      SplitCount(After(s, c), c);
    } else {
      CountAbsent(s, c);
    }
  }

  lemma {:induction false} CountAbsent(s: string, c: char)
    requires c !in s
    ensures Count(s, c) == 0
  {
    if s != [] { CountAbsent(s[1..], c); }
  }

  lemma {:induction false} CountAppend(a: string, b: string, c: char)
    ensures Count(a + b, c) == Count(a, c) + Count(b, c)
  {
    if a == [] {
      assert a + b == b;
    } else {
      assert (a + b)[1..] == a[1..] + b;
      CountAppend(a[1..], b, c);
    }
  }

  // ---------------------------------------------------------------------
  // Replacing
  // ---------------------------------------------------------------------

  /** String.Replace(pat, rep): scanning left to right, every occurrence of
      pat that does not overlap an earlier one is replaced by rep. */
  function Replace(s: string, pat: string, rep: string): (r: string)
    requires pat != []
    ensures forall ch :: ch in r ==> ch in s || ch in rep
    ensures |pat| == 1 && pat[0] !in rep ==> pat[0] !in r
    decreases |s|
  {
    if s == [] then []
    else if pat <= s then rep + Replace(s[|pat|..], pat, rep)
    else [s[0]] + Replace(s[1..], pat, rep)
  }

  /** One step of replacing a single character. */
  lemma ReplaceCharStep(s: string, c: char, rep: string)
    requires s != []
    ensures Replace(s, [c], rep) == (if s[0] == c then rep else [s[0]]) + Replace(s[1..], [c], rep)
  {
    assert [c] <= s <==> s[0] == c;
  }

  /** Replacing a character that does not occur changes nothing. */
  lemma {:induction false} ReplaceCharAbsent(s: string, c: char, rep: string)
    requires c !in s
    ensures Replace(s, [c], rep) == s
  {
    if s != [] {
      ReplaceCharStep(s, c, rep);
      ReplaceCharAbsent(s[1..], c, rep);
    }
  }

  /** Replacing a single character works piece by piece. */
  lemma {:induction false} ReplaceCharAppend(a: string, b: string, c: char, rep: string)
    ensures Replace(a + b, [c], rep) == Replace(a, [c], rep) + Replace(b, [c], rep)
  {
    if a == [] {
      assert a + b == b;
    } else {
      assert (a + b)[1..] == a[1..] + b;
      assert [c] <= a + b <==> [c] <= a;
      ReplaceCharAppend(a[1..], b, c, rep);
    }
  }

  /** Replacing a character by another character maps the string position
      by position. */
  lemma {:induction false} ReplaceCharMap(s: string, c: char, d: char)
    ensures |Replace(s, [c], [d])| == |s|
    ensures forall k :: 0 <= k < |s| ==> Replace(s, [c], [d])[k] == if s[k] == c then d else s[k]
  {
    if s != [] {
      ReplaceCharMap(s[1..], c, d);
      assert [c] <= s <==> s[0] == c;
    }
  }

  // ---------------------------------------------------------------------
  // Windows paths
  // ---------------------------------------------------------------------

  predicate IsDirectorySeparator(c: char) { c == '\\' || c == '/' }

  /** Path.Combine on Windows for a relative name that does not start with a
      separator: a separator is put between the two unless the directory is
      empty or already ends in one. */
  function PathCombine(directory: string, name: string): string
    requires name != [] && !IsDirectorySeparator(name[0])
  {
    if directory == [] then name
    else if IsDirectorySeparator(directory[|directory| - 1]) then directory + name
    else directory + "\\" + name
  }

  // ---------------------------------------------------------------------
  // Decimal rendering and parsing of non-negative integers
  // ---------------------------------------------------------------------

  function DigitChar(d: nat): char
    requires d < 10
  {
    ('0' as int + d) as char
  }

  /** Int64.ToString() of a non-negative value: decimal, no leading zeros. */
  function NatToString(n: nat): (s: string)
    ensures |s| >= 1
    ensures forall k :: 0 <= k < |s| ==> IsAsciiDigit(s[k])
  {
    if n < 10 then [DigitChar(n)] else NatToString(n / 10) + [DigitChar(n % 10)]
  }

  /** The value of a string of decimal digits (leading zeros allowed). */
  function DigitsValue(s: string): nat
    requires forall k :: 0 <= k < |s| ==> IsAsciiDigit(s[k])
  {
    if s == [] then 0
    else DigitsValue(s[..|s| - 1]) * 10 + DigitValue(s[|s| - 1])
  }

  function DigitValue(c: char): (d: nat)
    requires IsAsciiDigit(c)
    ensures d < 10
  {
    c as int - '0' as int
  }

  /** Reading back a rendered number gives the number. */
  lemma {:induction false} NatToStringRoundTrip(n: nat)
    ensures DigitsValue(NatToString(n)) == n
  {
    if n >= 10 {
      var s := NatToString(n);
      assert s[..|s| - 1] == NatToString(n / 10);
      assert DigitValue(s[|s| - 1]) == n % 10;
      NatToStringRoundTrip(n / 10);
    }
  }

  /** Distinct numbers are rendered differently. */
  lemma NatToStringInjective(a: nat, b: nat)
    requires NatToString(a) == NatToString(b)
    ensures a == b
  {
    NatToStringRoundTrip(a);
    NatToStringRoundTrip(b);
  }
}

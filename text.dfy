// Python string and integer-formatting primitives that the reservation code
// relies on: str.strip, str.split, str.replace, str.startswith,
// str.isdigit, int(...) on a digit string and the "{n:0Nd}" / "{n:0NX}"
// format specifications.

module Text {

  datatype Option<T> = None | Some(value: T)

  // ---------------------------------------------------------------------
  // Character classes
  // ---------------------------------------------------------------------

  /** The characters for which Python's str.isspace() holds (and which
      str.strip() with no argument removes). */
  predicate IsSpace(c: char)
  {
    || c == ' '
    || ('\t' <= c <= '\r')
    || ('\U{1C}' <= c <= '\U{1F}')
    || c == '\U{85}' || c == '\U{A0}' || c == '\U{1680}'
    || ('\U{2000}' <= c <= '\U{200A}')
    || c == '\U{2028}' || c == '\U{2029}' || c == '\U{202F}'
    || c == '\U{205F}' || c == '\U{3000}'
  }

  predicate IsDigit(c: char)
  {
    '0' <= c <= '9'
  }

  predicate IsAsciiLetter(c: char)
  {
    ('a' <= c <= 'z') || ('A' <= c <= 'Z')
  }

  /** str.isdigit(): non-empty and made of digits only (ASCII digits). */
  predicate IsDigits(s: string)
  {
    |s| > 0 && forall i :: 0 <= i < |s| ==> IsDigit(s[i])
  }

  /** A digit string holds no character other than a digit. */
  lemma DigitsExclude(s: string, c: char)
    requires IsDigits(s) && !IsDigit(c)
    ensures c !in s
  {
  }

  // ---------------------------------------------------------------------
  // Whole-string helpers
  // ---------------------------------------------------------------------

  predicate StartsWith(s: string, prefix: string)
  {
    |prefix| <= |s| && s[..|prefix|] == prefix
  }

  /** s.replace(c, ""): every occurrence of c dropped, the rest kept in order. */
  function Remove(s: string, c: char): (r: string)
    ensures |r| <= |s|
    ensures forall i :: 0 <= i < |r| ==> r[i] != c
    ensures forall x :: x in r <==> x in s && x != c
  {
    if s == [] then []
    else if s[0] == c then Remove(s[1..], c)
    else [s[0]] + Remove(s[1..], c)
  }

  /** s.replace(" ", "").replace("-", ""): the card-number clean-up. */
  function CleanCardNumber(s: string): (r: string)
    ensures forall i :: 0 <= i < |r| ==> r[i] != ' ' && r[i] != '-'
  {
    var r := Remove(Remove(s, ' '), '-');
    assert forall i :: 0 <= i < |r| ==> r[i] in r;
    r
  }

  /** The number of white-space characters at the start of s. */
  function LeadingSpace(s: string): (n: nat)
    ensures n <= |s|
    ensures forall k :: 0 <= k < n ==> IsSpace(s[k])
    ensures n == |s| || !IsSpace(s[n])
  {
    if s != [] && IsSpace(s[0]) then
      var n := 1 + LeadingSpace(s[1..]);
      assert forall k :: 1 <= k < n ==> s[k] == s[1..][k - 1];
      n
    else 0
  }

  /** Where the white space at the end of s begins. */
  function TrailingSpace(s: string): (e: nat)
    ensures e <= |s|
    ensures forall k :: e <= k < |s| ==> IsSpace(s[k])
    ensures e == 0 || !IsSpace(s[e - 1])
  {
    if s != [] && IsSpace(s[|s| - 1]) then TrailingSpace(s[..|s| - 1]) else |s|
  }

  /** str.strip() with no argument: the slice of s left once the white
      space at both ends is cut off. */
  function Strip(s: string): (r: string)
    ensures r == [] || (!IsSpace(r[0]) && !IsSpace(r[|r| - 1]))
    ensures exists i, j :: (0 <= i <= j <= |s| && r == s[i..j] &&
      (forall k :: 0 <= k < i ==> IsSpace(s[k])) && (forall k :: j <= k < |s| ==> IsSpace(s[k])))
  {
    var i := LeadingSpace(s);
    var e := TrailingSpace(s);
    if e <= i then
      assert s[i..i] == [];
      []
    else
      s[i..e]
  }

  /** Strip picks out exactly the slice between the white space at the ends:
      any slice with only white space around it and none at its own ends
      (or an all-white-space string) is the one str.strip() returns. */
  lemma StripSpan(s: string, i: nat, j: nat)
    requires i <= j <= |s|
    requires forall k :: 0 <= k < i ==> IsSpace(s[k])
    requires forall k :: j <= k < |s| ==> IsSpace(s[k])
    requires i == j || (!IsSpace(s[i]) && !IsSpace(s[j - 1]))
    ensures Strip(s) == s[i..j]
  {
    if i < j {
      assert LeadingSpace(s) == i;
      assert TrailingSpace(s) == j;
    } else {
      assert TrailingSpace(s) <= LeadingSpace(s);
    }
  }

  /** White space around a string does not change what str.strip() returns. */
  lemma StripPadded(a: string, s: string, b: string)
    requires forall k :: 0 <= k < |a| ==> IsSpace(a[k])
    requires forall k :: 0 <= k < |b| ==> IsSpace(b[k])
    ensures Strip(a + s + b) == Strip(s)
  {
    StripPaddedLeft(a, s + b);
    StripPaddedRight(s, b);
    assert a + s + b == a + (s + b);
  }

  lemma StripPaddedLeft(a: string, s: string)
    requires forall k :: 0 <= k < |a| ==> IsSpace(a[k])
    ensures Strip(a + s) == Strip(s)
  {
    var i := LeadingSpace(s);
    var e := TrailingSpace(s);
    var x := a + s;
    assert forall k :: |a| <= k < |x| ==> x[k] == s[k - |a|];
    if e <= i {
      assert forall k :: 0 <= k < |x| ==> IsSpace(x[k]);
      StripSpan(x, 0, 0);
    } else {
      StripSpan(x, |a| + i, |a| + e);
      assert x[|a| + i..|a| + e] == s[i..e];
    }
  }

  lemma StripPaddedRight(s: string, b: string)
    requires forall k :: 0 <= k < |b| ==> IsSpace(b[k])
    ensures Strip(s + b) == Strip(s)
  {
    var i := LeadingSpace(s);
    var e := TrailingSpace(s);
    var x := s + b;
    assert forall k :: |s| <= k < |x| ==> x[k] == b[k - |s|];
    if e <= i {
      assert forall k :: 0 <= k < |x| ==> IsSpace(x[k]);
      StripSpan(x, 0, 0);
    } else {
      StripSpan(x, i, e);
      assert x[i..e] == s[i..e];
    }
  }

  /** s.replace(c, "") distributes over concatenation. */
  lemma {:induction false} RemoveAppend(a: string, b: string, c: char)
    ensures Remove(a + b, c) == Remove(a, c) + Remove(b, c)
  {
    if a != [] {
      assert (a + b)[0] == a[0] && (a + b)[1..] == a[1..] + b;
      RemoveAppend(a[1..], b, c);
    } else {
      assert a + b == b;
    }
  }

  /** s.replace(c, "") leaves a string without c alone. */
  lemma {:induction false} RemoveAbsent(s: string, c: char)
    requires c !in s
    ensures Remove(s, c) == s
  {
    if s != [] {
      RemoveAbsent(s[1..], c);
      assert [s[0]] + s[1..] == s;
    }
  }

  /** Stripping leaves a string without surrounding white space alone. */
  lemma StripUnpadded(s: string)
    requires s != [] && !IsSpace(s[0]) && !IsSpace(s[|s| - 1])
    ensures Strip(s) == s
  {
  }

  /** str.split(sep) for a one-character separator: always at least one part,
      and no part contains the separator. */
  function Split(s: string, sep: char): (parts: seq<string>)
    ensures |parts| >= 1
    ensures forall k :: 0 <= k < |parts| ==> sep !in parts[k]
    decreases |s|
  {
    if s == [] then [""]
    else
      var rest := Split(s[1..], sep);
      if s[0] == sep then [""] + rest
      else [[s[0]] + rest[0]] + rest[1..]
  }

  lemma {:induction false} SplitWithoutSeparator(s: string, sep: char)
    requires sep !in s
    ensures Split(s, sep) == [s]
    decreases |s|
  {
    if s != [] {
      SplitWithoutSeparator(s[1..], sep);
      assert [s[0]] + s[1..] == s;
    }
  }

  /** Splitting a + [sep] + b, where a holds no separator, yields a as its
      first part followed by the parts of b. */
  lemma {:induction false} SplitAtFirst(a: string, sep: char, b: string)
    requires sep !in a
    ensures Split(a + [sep] + b, sep) == [a] + Split(b, sep)
    decreases |a|
  {
    var s := a + [sep] + b;
    if a == [] {
      assert s[0] == sep && s[1..] == b;
    } else {
      assert s[0] == a[0];
      assert s[1..] == a[1..] + [sep] + b;
      SplitAtFirst(a[1..], sep, b);
      assert [a[0]] + a[1..] == a;
    }
  }

  /** Concatenating the parts of s.split(sep) with sep between them gives s back. */
  function Join(parts: seq<string>, sep: char): string
    requires |parts| >= 1
  {
    if |parts| == 1 then parts[0] else parts[0] + [sep] + Join(parts[1..], sep)
  }

  lemma {:induction false} JoinSplit(s: string, sep: char)
    ensures Join(Split(s, sep), sep) == s
    decreases |s|
  {
    if s != [] {
      JoinSplit(s[1..], sep);
      var rest := Split(s[1..], sep);
      if s[0] != sep {
        var parts := [[s[0]] + rest[0]] + rest[1..];
        if |rest| > 1 {
          assert parts[1..] == rest[1..];
        }
        assert [s[0]] + s[1..] == s;
      } else {
        assert ([""] + rest)[1..] == rest;
        assert [s[0]] + s[1..] == s;
      }
    }
  }

  // ---------------------------------------------------------------------
  // Integers as digit strings
  // ---------------------------------------------------------------------

  function DigitChar(d: nat): (c: char)
    requires d < 10
    ensures IsDigit(c)
  {
    (('0' as int) + d) as char
  }

  function DigitValue(c: char): (d: nat)
    requires IsDigit(c)
    ensures d < 10
  {
    (c as int) - ('0' as int)
  }

  /** The value of a string of decimal digits, most significant first. */
  function DigitsValue(s: string): nat
    requires forall i :: 0 <= i < |s| ==> IsDigit(s[i])
  {
    if s == [] then 0 else DigitsValue(s[..|s| - 1]) * 10 + DigitValue(s[|s| - 1])
  }

  /** int(s) for a string that passed isdigit(); None where Python raises. */
  function ParseInt(s: string): (r: Option<nat>)
    ensures r.Some? <==> IsDigits(s)
  {
    if IsDigits(s) then Some(DigitsValue(s)) else None
  }

  /** The digits part of a Python integer literal: ASCII digits, where an
      underscore may stand between two digits. */
  predicate UnderscoredDigits(b: string)
  {
    |b| > 0 && b[0] != '_' && b[|b| - 1] != '_' &&
    (forall i :: 0 <= i < |b| ==> IsDigit(b[i]) || b[i] == '_') &&
    (forall i :: 0 <= i < |b| ==> !UnderscorePair(b, i))
  }

  /** Two underscores in a row at position i. */
  predicate UnderscorePair(b: string, i: int)
  {
    0 <= i < |b| - 1 && b[i] == '_' && b[i + 1] == '_'
  }

  /** The value of such a digits part: the underscores are ignored. */
  function UnderscoredValue(b: string): nat
    requires UnderscoredDigits(b)
  {
    var d := Remove(b, '_');
    assert forall i :: 0 <= i < |d| ==> IsDigit(d[i]) by {
      forall i | 0 <= i < |d| ensures IsDigit(d[i]) {
        assert d[i] in d;
        assert d[i] in b && d[i] != '_';
        var j :| 0 <= j < |b| && b[j] == d[i];
      }
    }
    DigitsValue(d)
  }

  /** int() once white space is stripped: a "+" or "-" sign may come
      first, then the digits part. */
  function SignedLiteral(t: string): (r: Option<int>)
    ensures r.Some? && '-' !in t ==> r.value >= 0
  {
    var signed := t != [] && (t[0] == '+' || t[0] == '-');
    var body := if signed then t[1..] else t;
    if !UnderscoredDigits(body) then None
    else if signed && t[0] == '-' then
      var v: int := UnderscoredValue(body);
      Some(-v)
    else Some(UnderscoredValue(body))
  }

  /** int(s) on text: white space around the text is stripped, a "+" or
      "-" sign may come first, and the digits may hold single underscores
      between digits; None where Python raises ValueError. Agrees with
      ParseInt on every string that passed isdigit(), and never yields a
      negative number for text without a "-". */
  function PyInt(s: string): (r: Option<int>)
    ensures IsDigits(s) ==> r == Some(DigitsValue(s))
    ensures r.Some? && '-' !in s ==> r.value >= 0
  {
    var t := Strip(s);
    assert IsDigits(s) ==> SignedLiteral(t) == Some(DigitsValue(s)) by {
      if IsDigits(s) {
        StripUnpadded(s);
        SignedLiteralDigits(s);
      }
    }
    assert '-' !in s ==> '-' !in t by {
      var i, j :| 0 <= i <= j <= |s| && t == s[i..j];
    }
    SignedLiteral(t)
  }

  /** A plain digit string reads as its decimal value. */
  lemma SignedLiteralDigits(s: string)
    requires IsDigits(s)
    ensures SignedLiteral(s) == Some(DigitsValue(s))
  {
    RemoveAbsent(s, '_');
    assert UnderscoredDigits(s);
  }

  /** int() reads a minus sign followed by digits as the negated value. */
  lemma PyIntNegative(d: string)
    requires IsDigits(d)
    ensures PyInt(['-'] + d).Some? && PyInt(['-'] + d).value == -(DigitsValue(d) as int)
  {
    var s := ['-'] + d;
    assert s[0] == '-' && s[1..] == d && s[|s| - 1] == d[|d| - 1];
    StripUnpadded(s);
    RemoveAbsent(d, '_');
    assert UnderscoredDigits(d);
  }

  /** Round trip: int(str(n)) == n for every integer. */
  lemma PyIntText(n: int)
    ensures PyInt(IntText(n)) == Some(n)
  {
    var s := IntText(n);
    if n < 0 {
      DecimalValue(-n);
      PyIntNegative(Decimal(-n));
      assert s == ['-'] + Decimal(-n);
      assert PyInt(s).value == n;
    } else {
      DecimalValue(n);
      assert IsDigits(s) && s == Decimal(n);
      assert PyInt(s) == Some(DigitsValue(s));
      assert PyInt(s).value == n;
    }
  }

  /** int() accepts a leading "+". */
  lemma PyIntPlus(d: string)
    requires IsDigits(d)
    ensures PyInt(['+'] + d) == Some(DigitsValue(d))
  {
    var s := ['+'] + d;
    assert s[0] == '+' && s[1..] == d && s[|s| - 1] == d[|d| - 1];
    StripUnpadded(s);
    SignedLiteralDigits(d);
  }

  /** int() accepts one underscore between two digits and ignores it. */
  lemma PyIntUnderscore(a: string, b: string)
    requires IsDigits(a) && IsDigits(b)
    ensures PyInt(a + ['_'] + b) == Some(DigitsValue(a + b))
  {
    var s := a + ['_'] + b;
    assert s[0] == a[0] && s[|s| - 1] == b[|b| - 1];
    StripUnpadded(s);
    UnderscoreJoin(a, b);
    assert !(s[0] == '+' || s[0] == '-');
    assert SignedLiteral(s) == Some(UnderscoredValue(s));
  }

  /** Two digit strings joined by one underscore form a digits part whose
      digits are the two strings together. */
  lemma UnderscoreJoin(a: string, b: string)
    requires IsDigits(a) && IsDigits(b)
    ensures UnderscoredDigits(a + ['_'] + b)
    ensures Remove(a + ['_'] + b, '_') == a + b
  {
    var s := a + ['_'] + b;
    forall i | 0 <= i < |s| ensures IsDigit(s[i]) || s[i] == '_' {
      if i < |a| {
        assert s[i] == a[i];
      } else if i > |a| {
        assert s[i] == b[i - |a| - 1];
      }
    }
    forall i | 0 <= i < |s| ensures !UnderscorePair(s, i) {
      if i == |s| - 1 {
      } else if i < |a| {
        assert s[i] == a[i];
      } else {
        assert s[i + 1] == b[i - |a|];
      }
    }
    assert s[0] == a[0] && s[|s| - 1] == b[|b| - 1];
    RemoveAppend(a + ['_'], b, '_');
    RemoveAppend(a, ['_'], '_');
    RemoveAbsent(a, '_');
    RemoveAbsent(b, '_');
    assert Remove(['_'], '_') == [];
  }

  /** ...but refuses two underscores in a row. */
  lemma PyIntDoubleUnderscore(a: string, b: string)
    requires IsDigits(a) && IsDigits(b)
    ensures PyInt(a + ['_', '_'] + b).None?
  {
    var s := a + ['_', '_'] + b;
    assert s[0] == a[0] && s[|s| - 1] == b[|b| - 1];
    StripUnpadded(s);
    assert UnderscorePair(s, |a|);
    assert !(s[0] == '+' || s[0] == '-');
    assert SignedLiteral(s) == None;
  }

  /** int() ignores white space around the number. */
  lemma PyIntPadded(a: string, s: string, b: string)
    requires forall k :: 0 <= k < |a| ==> IsSpace(a[k])
    requires forall k :: 0 <= k < |b| ==> IsSpace(b[k])
    ensures PyInt(a + s + b) == PyInt(s)
  {
    StripPadded(a, s, b);
  }

  /** str(n) for a non-negative integer: no leading zeros. */
  function Decimal(n: nat): (s: string)
    ensures IsDigits(s)
  {
    if n < 10 then [DigitChar(n)] else Decimal(n / 10) + [DigitChar(n % 10)]
  }

  function Zeros(k: nat): (z: string)
    ensures |z| == k && forall i :: 0 <= i < k ==> z[i] == '0'
  {
    if k == 0 then [] else Zeros(k - 1) + ['0']
  }

  /** Left-pads s with '0' up to the given width (never truncates). */
  function ZeroPad(s: string, width: nat): (r: string)
    ensures |r| == if |s| >= width then |s| else width
    ensures r[|r| - |s|..] == s
  {
    if |s| >= width then s else Zeros(width - |s|) + s
  }

  /** f"{n:0{width}d}" for n >= 0. */
  function FormatInt(n: nat, width: nat): (s: string)
    ensures IsDigits(s)
    ensures |s| >= width
  {
    ZeroPad(Decimal(n), width)
  }

  /** str(n) for any integer: a minus sign before the digits of |n|. */
  function IntText(n: int): (s: string)
    ensures |s| >= 1
    ensures n >= 0 ==> s == Decimal(n)
    ensures n < 0 ==> s[0] == '-' && s[1..] == Decimal(-n)
  {
    if n < 0 then "-" + Decimal(-n) else Decimal(n)
  }

  /** f"{n:0{width}d}" for any integer: the sign comes first and counts
      towards the width, the zeros go between it and the digits. */
  function FormatSignedInt(n: int, width: nat): (s: string)
    ensures n >= 0 ==> s == FormatInt(n, width)
    ensures n < 0 ==> |s| >= 2 && s[0] == '-' && s[1..] == FormatInt(-n, if width > 0 then width - 1 else 0)
  {
    if n < 0 then "-" + FormatInt(-n, if width > 0 then width - 1 else 0) else FormatInt(n, width)
  }

  lemma {:induction false} DecimalValue(n: nat)
    ensures DigitsValue(Decimal(n)) == n
  {
    if n >= 10 {
      DecimalValue(n / 10);
      var s := Decimal(n);
      assert s[..|s| - 1] == Decimal(n / 10);
    }
  }

  lemma {:induction false} LeadingZerosValue(k: nat, s: string)
    requires forall i :: 0 <= i < |s| ==> IsDigit(s[i])
    ensures DigitsValue(Zeros(k) + s) == DigitsValue(s)
    decreases |s|
  {
    var z := Zeros(k);
    if s == [] {
      assert z + s == z;
      ZerosValue(k);
    } else {
      var t := z + s;
      assert t[..|t| - 1] == z + s[..|s| - 1];
      LeadingZerosValue(k, s[..|s| - 1]);
    }
  }

  lemma {:induction false} ZerosValue(k: nat)
    ensures DigitsValue(Zeros(k)) == 0
  {
    if k > 0 {
      ZerosValue(k - 1);
      assert Zeros(k)[..k - 1] == Zeros(k - 1);
    }
  }

  /** Round trip: int() reads back every zero-padded rendering. */
  lemma ParseFormatInt(n: nat, width: nat)
    ensures ParseInt(FormatInt(n, width)) == Some(n)
  {
    DecimalValue(n);
    var d := Decimal(n);
    if |d| < width {
      LeadingZerosValue(width - |d|, d);
    }
  }

  /** "{n:02d}" is exactly two characters below 100. */
  lemma TwoDigits(n: nat)
    requires n < 100
    ensures |FormatInt(n, 2)| == 2
  {
    if n >= 10 {
      assert Decimal(n) == Decimal(n / 10) + [DigitChar(n % 10)];
    }
  }

  /** Zero-padded renderings of distinct numbers are distinct. */
  lemma FormatIntInjective(a: nat, b: nat, width: nat)
    requires FormatInt(a, width) == FormatInt(b, width)
    ensures a == b
  {
    ParseFormatInt(a, width);
    ParseFormatInt(b, width);
  }

  // ---------------------------------------------------------------------
  // Hexadecimal, upper case ("{n:04X}")
  // ---------------------------------------------------------------------

  predicate IsUpperHexDigit(c: char)
  {
    IsDigit(c) || ('A' <= c <= 'F')
  }

  function HexDigitChar(d: nat): (c: char)
    requires d < 16
    ensures IsUpperHexDigit(c)
  {
    if d < 10 then DigitChar(d) else (('A' as int) + d - 10) as char
  }

  function Hex(n: nat): (s: string)
    ensures |s| >= 1 && forall i :: 0 <= i < |s| ==> IsUpperHexDigit(s[i])
  {
    if n < 16 then [HexDigitChar(n)] else Hex(n / 16) + [HexDigitChar(n % 16)]
  }

  /** f"{n:0{width}X}" for n >= 0. */
  function FormatHex(n: nat, width: nat): (s: string)
    ensures |s| >= width
    ensures forall i :: 0 <= i < |s| ==> IsUpperHexDigit(s[i])
  {
    ZeroPad(Hex(n), width)
  }

  // ---------------------------------------------------------------------
  // Case
  // ---------------------------------------------------------------------

  /** str.lower() on the ASCII letters. */
  function AsciiLower(s: string): (r: string)
    ensures |r| == |s|
    ensures forall i :: 0 <= i < |s| ==>
      r[i] == if 'A' <= s[i] <= 'Z' then (s[i] as int + 32) as char else s[i]
  {
    if s == [] then []
    else [if 'A' <= s[0] <= 'Z' then (s[0] as int + 32) as char else s[0]] + AsciiLower(s[1..])
  }
}

/**
 * The JavaScript string operations the adapter relies on: decimal rendering of
 * integers (`Number.prototype.toString`, zero padding), `String.prototype.trim`,
 * ASCII lower-casing, and the relational operators `<=`/`>=` on strings.
 *
 * Strings are `seq<char>`. JavaScript compares strings by UTF-16 code unit;
 * here characters are compared by their Dafny `char` order, which agrees with
 * the code-unit order on the Basic Multilingual Plane.
 */
module Text {

  // ---------------------------------------------------------------------------
  // Decimal digits
  // ---------------------------------------------------------------------------

  predicate IsDigit(c: char) { '0' <= c <= '9' }

  predicate AllDigits(s: string) { forall i :: 0 <= i < |s| ==> IsDigit(s[i]) }

  predicate AllZeros(s: string) { forall i :: 0 <= i < |s| ==> s[i] == '0' }

  function DigitValue(c: char): nat
    requires IsDigit(c)
  {
    c as int - '0' as int
  }

  function DigitChar(d: nat): (c: char)
    requires d < 10
    ensures IsDigit(c) && DigitValue(c) == d
  {
    ('0' as int + d) as char
  }

  function Pow10(k: nat): (p: nat)
    ensures p >= 1
  {
    if k == 0 then 1 else 10 * Pow10(k - 1)
  }

  /** The decimal numeral of a natural number, as `n.toString()` renders it: no sign, no leading zero. */
  function NatToString(n: nat): (s: string)
    ensures |s| >= 1 && AllDigits(s)
    ensures n > 0 ==> s[0] != '0'
    ensures n < 10 <==> |s| == 1
  {
    if n < 10 then [DigitChar(n)] else NatToString(n / 10) + [DigitChar(n % 10)]
  }

  /** The value of a string of decimal digits, most significant first. */
  function DigitsValue(s: string): nat
    requires AllDigits(s)
  {
    if s == [] then 0 else DigitsValue(s[..|s| - 1]) * 10 + DigitValue(s[|s| - 1])
  }

  /** Reading back a rendered natural number gives the number. */
  lemma {:induction false} NatToStringRoundTrip(n: nat)
    ensures DigitsValue(NatToString(n)) == n
  {
    if n >= 10 {
      var s := NatToString(n / 10);
      NatToStringRoundTrip(n / 10);
      assert NatToString(n)[..|s|] == s;
    }
  }

  lemma NatToStringInjective(a: nat, b: nat)
    ensures NatToString(a) == NatToString(b) <==> a == b
  {
    NatToStringRoundTrip(a);
    NatToStringRoundTrip(b);
  }

  /** A numeral of at most `w` digits renders every number below 10^w. */
  lemma {:induction false} NatToStringLength(n: nat, w: nat)
    requires w >= 1 && n < Pow10(w)
    ensures |NatToString(n)| <= w
  {
    if n >= 10 {
      NatToStringLength(n / 10, w - 1);
    }
  }

  /** `i.toString()` for an integer: a minus sign before the magnitude of a negative number. */
  function IntToString(i: int): (s: string)
    ensures |s| >= 1 && (s[0] == '-' <==> i < 0)
  {
    if i < 0 then "-" + NatToString(-i) else NatToString(i)
  }

  predicate IsIntText(s: string)
  {
    (s != [] && AllDigits(s)) || (|s| >= 2 && s[0] == '-' && AllDigits(s[1..]))
  }

  function ParseIntText(s: string): int
    requires IsIntText(s)
  {
    if s[0] == '-' then -(DigitsValue(s[1..]) as int) else DigitsValue(s)
  }

  /** Reading back a rendered integer gives the integer. */
  lemma IntToStringRoundTrip(i: int)
    ensures IsIntText(IntToString(i)) && ParseIntText(IntToString(i)) == i
  {
    var s := IntToString(i);
    if i < 0 {
      assert s[0] == '-' && s[1..] == NatToString(-i);
      NatToStringRoundTrip(-i);
    } else {
      assert s == NatToString(i);
      assert IsDigit(s[0]);
      NatToStringRoundTrip(i);
    }
  }

  lemma IntToStringInjective(a: int, b: int)
    ensures IntToString(a) == IntToString(b) <==> a == b
  {
    IntToStringRoundTrip(a);
    IntToStringRoundTrip(b);
  }

  /** The numeral of `n`, left-padded with zeros to at least `w` characters. */
  function Pad(n: nat, w: nat): (s: string)
    ensures AllDigits(s)
  {
    var d := NatToString(n);
    if |d| >= w then d else seq(w - |d|, _ => '0') + d
  }

  lemma {:induction false} ZerosValue(z: string)
    requires AllZeros(z)
    ensures AllDigits(z) && DigitsValue(z) == 0
  {
    if z != [] {
      ZerosValue(z[..|z| - 1]);
    }
  }

  /** Leading zeros do not change the value of a numeral. */
  lemma {:induction false} LeadingZerosValue(z: string, s: string)
    requires AllZeros(z) && AllDigits(s)
    ensures AllDigits(z + s) && DigitsValue(z + s) == DigitsValue(s)
    decreases |s|
  {
    if s == [] {
      assert z + s == z;
      ZerosValue(z);
    } else {
      var s' := s[..|s| - 1];
      assert (z + s)[..|z + s| - 1] == z + s';
      LeadingZerosValue(z, s');
    }
  }

  /** A padded numeral reads back as its number and has exactly `w` characters when the number fits. */
  lemma PadRoundTrip(n: nat, w: nat)
    ensures DigitsValue(Pad(n, w)) == n
    ensures |Pad(n, w)| >= w
    ensures w >= 1 && n < Pow10(w) ==> |Pad(n, w)| == w
  {
    var d := NatToString(n);
    NatToStringRoundTrip(n);
    if |d| < w {
      LeadingZerosValue(seq(w - |d|, _ => '0'), d);
    }
    if w >= 1 && n < Pow10(w) {
      NatToStringLength(n, w);
    }
  }

  /** A number that already has `w` digits is not padded. */
  lemma PadWide(n: nat, w: nat)
    requires w <= 1 || Pow10(w - 1) <= n
    ensures Pad(n, w) == NatToString(n)
  {
    if w >= 2 {
      NatToStringAtLeast(n, w - 1);
    }
  }

  lemma {:induction false} NatToStringAtLeast(n: nat, k: nat)
    requires Pow10(k) <= n
    ensures |NatToString(n)| >= k + 1
  {
    if k > 0 {
      NatToStringAtLeast(n / 10, k - 1);
    }
  }

  /** A numeral never contains anything but digits. */
  lemma DigitsExclude(s: string, c: char)
    requires AllDigits(s) && !IsDigit(c)
    ensures c !in s
  {
  }

  // ---------------------------------------------------------------------------
  // String.prototype.trim
  // ---------------------------------------------------------------------------

  /** The WhiteSpace and LineTerminator code points that `trim` removes (ECMA-262, sections 12.2 and 12.3). */
  predicate IsJsWhiteSpace(c: char)
  {
    || c == '\t' || c == '\n' || c == '\U{000B}' || c == '\U{000C}' || c == '\r'
    || c == ' ' || c == '\U{00A0}' || c == '\U{1680}' || ('\U{2000}' <= c <= '\U{200A}')
    || c == '\U{2028}' || c == '\U{2029}' || c == '\U{202F}' || c == '\U{205F}'
    || c == '\U{3000}' || c == '\U{FEFF}'
  }

  /** `trimStart`: drops the leading white space; what is left is a suffix of `s`. */
  function TrimStart(s: string): (r: string)
    ensures |r| <= |s| && r == s[|s| - |r|..]
  {
    if s != [] && IsJsWhiteSpace(s[0]) then TrimStart(s[1..]) else s
  }

  /** `trimEnd`: drops the trailing white space; what is left is a prefix of `s`. */
  function TrimEnd(s: string): (r: string)
    ensures |r| <= |s| && r == s[..|r|]
  {
    if s != [] && IsJsWhiteSpace(s[|s| - 1]) then TrimEnd(s[..|s| - 1]) else s
  }

  /** Every character of `w` is white space. */
  predicate AllWhiteSpace(w: string)
  {
    w == [] || (IsJsWhiteSpace(w[0]) && AllWhiteSpace(w[1..]))
  }

  /** White space followed by one more white-space character is white space. */
  lemma {:induction false} AllWhiteSpaceAppend(w: string, c: char)
    requires AllWhiteSpace(w) && IsJsWhiteSpace(c)
    ensures AllWhiteSpace(w + [c])
  {
    if w != [] {
      AllWhiteSpaceAppend(w[1..], c);
      assert (w + [c])[1..] == w[1..] + [c];
    }
  }

  /** `trimStart` drops white space only, and what it keeps does not start with white space. */
  lemma {:induction false} TrimStartDrops(s: string)
    ensures AllWhiteSpace(s[..|s| - |TrimStart(s)|])
    ensures TrimStart(s) != [] ==> !IsJsWhiteSpace(TrimStart(s)[0])
  {
    if s != [] && IsJsWhiteSpace(s[0]) {
      TrimStartDrops(s[1..]);
      var n := |s| - |TrimStart(s)|;
      assert s[..n][1..] == s[1..][..n - 1];
    }
  }

  /** `trimEnd` drops white space only, and what it keeps does not end with white space. */
  lemma {:induction false} TrimEndDrops(s: string)
    ensures AllWhiteSpace(s[|TrimEnd(s)|..])
    ensures TrimEnd(s) != [] ==> !IsJsWhiteSpace(TrimEnd(s)[|TrimEnd(s)| - 1])
  {
    if s != [] && IsJsWhiteSpace(s[|s| - 1]) {
      var p := s[..|s| - 1];
      TrimEndDrops(p);
      AllWhiteSpaceAppend(p[|TrimEnd(s)|..], s[|s| - 1]);
      assert s[|TrimEnd(s)|..] == p[|TrimEnd(s)|..] + [s[|s| - 1]];
    }
  }

  /** `s.trim()`: removes leading and trailing white space and line terminators. */
  function Trim(s: string): string
  {
    TrimEnd(TrimStart(s))
  }

  /**
   * What `trim` returns: the slice of `s` after its leading white space, with
   * only white space before and after it, and neither starting nor ending with
   * white space.
   */
  lemma TrimIsCore(s: string)
    ensures TrimOffset(s) + |Trim(s)| <= |s|
    ensures Trim(s) == s[TrimOffset(s)..TrimOffset(s) + |Trim(s)|]
    ensures AllWhiteSpace(s[..TrimOffset(s)])
    ensures AllWhiteSpace(s[TrimOffset(s) + |Trim(s)|..])
    ensures Trim(s) != [] ==> !IsJsWhiteSpace(Trim(s)[0]) && !IsJsWhiteSpace(Trim(s)[|Trim(s)| - 1])
  {
    TrimIsSlice(s);
    var t := TrimStart(s);
    var i := |s| - |t|;
    TrimStartDrops(s);
    TrimEndDrops(t);
    assert s[i + |Trim(s)|..] == t[|Trim(s)|..];
    if Trim(s) != [] {
      assert Trim(s)[0] == t[0];
    }
  }

  /** `trim` returns the slice of `s` that starts after its leading white space. */
  lemma TrimIsSlice(s: string)
    ensures TrimOffset(s) + |Trim(s)| <= |s|
    ensures Trim(s) == s[TrimOffset(s)..TrimOffset(s) + |Trim(s)|]
  {
    var t := TrimStart(s);
    var r := TrimEnd(t);
    var i := |s| - |t|;
    assert t == s[i..];
    assert r == t[..|r|];
  }

  /** The number of leading white-space characters that `trim` drops. */
  function TrimOffset(s: string): nat
  {
    |s| - |TrimStart(s)|
  }

  /** A string without surrounding white space is its own trim. */
  lemma TrimClean(s: string)
    requires s == [] || (!IsJsWhiteSpace(s[0]) && !IsJsWhiteSpace(s[|s| - 1]))
    ensures Trim(s) == s
  {
  }

  lemma TrimIdempotent(s: string)
    ensures Trim(Trim(s)) == Trim(s)
  {
    TrimIsCore(s);
    TrimClean(Trim(s));
  }

  // ---------------------------------------------------------------------------
  // Lower-casing
  // ---------------------------------------------------------------------------

  function LowerChar(c: char): char
  {
    if 'A' <= c <= 'Z' then (c as int + 32) as char else c
  }

  /** `toLowerCase` on the ASCII letters; every other character is kept. */
  function LowerAscii(s: string): (r: string)
    ensures |r| == |s| && forall i :: 0 <= i < |s| ==> r[i] == LowerChar(s[i])
  {
    seq(|s|, i requires 0 <= i < |s| => LowerChar(s[i]))
  }

  // ---------------------------------------------------------------------------
  // String comparison (`a <= b` on strings)
  // ---------------------------------------------------------------------------

  /** `a <= b` for strings: lexicographic, and a prefix sorts first. */
  predicate LexLe(a: string, b: string)
  {
    if a == [] then true
    else if b == [] then false
    else if a[0] != b[0] then a[0] < b[0]
    else LexLe(a[1..], b[1..])
  }

  lemma {:induction false} LexLeReflexive(a: string)
    ensures LexLe(a, a)
  {
    if a != [] {
      LexLeReflexive(a[1..]);
    }
  }

  lemma {:induction false} LexLeTransitive(a: string, b: string, c: string)
    requires LexLe(a, b) && LexLe(b, c)
    ensures LexLe(a, c)
  {
    if a != [] && b != [] && c != [] && a[0] == b[0] && b[0] == c[0] {
      LexLeTransitive(a[1..], b[1..], c[1..]);
    }
  }

  lemma {:induction false} LexLeTotal(a: string, b: string)
    ensures LexLe(a, b) || LexLe(b, a)
  {
    if a != [] && b != [] && a[0] == b[0] {
      LexLeTotal(a[1..], b[1..]);
    }
  }

  lemma {:induction false} LexLeAntisymmetric(a: string, b: string)
    requires LexLe(a, b) && LexLe(b, a)
    ensures a == b
  {
    if a != [] && b != [] {
      LexLeAntisymmetric(a[1..], b[1..]);
    }
  }

  /** A common prefix does not affect the comparison. */
  lemma {:induction false} LexLeCommonPrefix(p: string, a: string, b: string)
    ensures LexLe(p + a, p + b) == LexLe(a, b)
  {
    if p != [] {
      assert (p + a)[1..] == p[1..] + a;
      assert (p + b)[1..] == p[1..] + b;
      LexLeCommonPrefix(p[1..], a, b);
    } else {
      assert p + a == a && p + b == b;
    }
  }

  /** A string sorts before every extension of it. */
  lemma LexLePrefix(p: string, a: string)
    ensures LexLe(p, p + a)
  {
    LexLeCommonPrefix(p, [], a);
    assert p + [] == p;
  }

  /** After a common prefix, the first differing character decides. */
  lemma LexLeFirstDifference(p: string, x: char, a: string, y: char, b: string)
    requires x != y
    ensures LexLe(p + [x] + a, p + [y] + b) == (x < y)
  {
    assert p + [x] + a == p + ([x] + a);
    assert p + [y] + b == p + ([y] + b);
    LexLeCommonPrefix(p, [x] + a, [y] + b);
  }

  /** A string between `p` and an extension of `p` starts with `p`. */
  lemma {:induction false} BetweenPrefixAndExtension(p: string, q: string, s: string)
    requires LexLe(p, s) && LexLe(s, p + q)
    ensures |p| <= |s| && s[..|p|] == p
  {
    if p != [] {
      assert (p + q)[0] == p[0] && (p + q)[1..] == p[1..] + q;
      BetweenPrefixAndExtension(p[1..], q, s[1..]);
      assert s == [s[0]] + s[1..];
    }
  }

  // ---------------------------------------------------------------------------
  // Splitting
  // ---------------------------------------------------------------------------

  /** `s.split(c)[0]`: the part of `s` before the first `c`, or all of `s`. */
  function SplitFirst(s: string, c: char): (r: string)
    ensures |r| <= |s| && r == s[..|r|] && c !in r
    ensures |r| < |s| ==> s[|r|] == c
  {
    if s == [] then []
    else if s[0] == c then []
    else [s[0]] + SplitFirst(s[1..], c)
  }

  /** Splitting at a character the head does not contain gives back the head. */
  lemma {:induction false} SplitFirstAt(a: string, c: char, b: string)
    requires c !in a
    ensures SplitFirst(a + [c] + b, c) == a
  {
    if a != [] {
      assert (a + [c] + b)[1..] == a[1..] + [c] + b;
      SplitFirstAt(a[1..], c, b);
    }
  }

  /** A marker character absent from both heads splits two equal strings the same way. */
  lemma SplitAtMarker(a: string, b: string, c: string, d: string, m: char)
    requires m !in a && m !in c && a + [m] + b == c + [m] + d
    ensures a == c && b == d
  {
    SplitFirstAt(a, m, b);
    SplitFirstAt(c, m, d);
    assert b == (a + [m] + b)[|a| + 1..];
    assert d == (c + [m] + d)[|c| + 1..];
  }
}

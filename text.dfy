/**
 * The pieces of Kotlin's and Java's string library that the downloader relies on:
 * `Char.isWhitespace`, `isNullOrBlank`, `trim`, `String.format("%0<w>d", n)`,
 * `Int.toString()`, `joinToString` and, as the inverse used by the proofs, splitting
 * at a character and reading a decimal number back.
 */
module Text {
  import opened Wrappers

  // ---------------------------------------------------------------------------
  // Whitespace, blank strings and trimming
  // ---------------------------------------------------------------------------

  /**
   * Kotlin's `Char.isWhitespace()`: Java's `Character.isWhitespace` (the ASCII
   * controls 9-13 and 28-31, and the Unicode space and line/paragraph separators)
   * together with `Character.isSpaceChar` (which adds the no-break spaces).
   */
  predicate IsWhitespace(c: char) {
    ('\t' <= c <= '\r') || ('\U{1C}' <= c <= '\U{1F}') || c == ' '
    || c == '\U{A0}' || c == '\U{1680}' || ('\U{2000}' <= c <= '\U{200A}')
    || c == '\U{2028}' || c == '\U{2029}' || c == '\U{202F}' || c == '\U{205F}'
    || c == '\U{3000}'
  }

  /** Kotlin's `CharSequence.isBlank()`: empty, or whitespace only. */
  predicate IsBlank(s: string) {
    forall i :: 0 <= i < |s| ==> IsWhitespace(s[i])
  }

  /** Kotlin's `String?.isNullOrBlank()`. */
  predicate IsNullOrBlank(s: Option<string>) {
    s.None? || IsBlank(s.value)
  }

  /** How many whitespace characters `s` starts with. */
  function BlankPrefix(s: string): (n: nat)
    ensures n <= |s|
  {
    if s == [] || !IsWhitespace(s[0]) then 0 else 1 + BlankPrefix(s[1..])
  }

  /** How many whitespace characters `s` ends with. */
  function BlankSuffix(s: string): (n: nat)
    ensures n <= |s|
  {
    if s == [] || !IsWhitespace(s[|s| - 1]) then 0 else 1 + BlankSuffix(s[..|s| - 1])
  }

  /** The leading whitespace is whitespace, and the character after it is not. */
  lemma {:induction false} BlankPrefixSpans(s: string)
    ensures var n := BlankPrefix(s);
      && (forall i :: 0 <= i < n ==> IsWhitespace(s[i]))
      && (n < |s| ==> !IsWhitespace(s[n]))
  {
    if s != [] && IsWhitespace(s[0]) {
      var t := s[1..];
      BlankPrefixSpans(t);
      forall i | 1 <= i < BlankPrefix(s) ensures IsWhitespace(s[i]) {
        assert s[i] == t[i - 1];
      }
      assert BlankPrefix(s) < |s| ==> s[BlankPrefix(s)] == t[BlankPrefix(t)];
    }
  }

  /** The trailing whitespace is whitespace, and the character before it is not. */
  lemma {:induction false} BlankSuffixSpans(s: string)
    ensures var n := BlankSuffix(s);
      && (forall i :: |s| - n <= i < |s| ==> IsWhitespace(s[i]))
      && (n < |s| ==> !IsWhitespace(s[|s| - n - 1]))
  {
    if s != [] && IsWhitespace(s[|s| - 1]) {
      var t := s[..|s| - 1];
      BlankSuffixSpans(t);
      forall i | |s| - BlankSuffix(s) <= i < |s| - 1 ensures IsWhitespace(s[i]) {
        assert s[i] == t[i];
      }
    }
  }

  /**
   * Kotlin's `String.trim()`: skips the leading whitespace, then the trailing
   * whitespace of what is left, and keeps what lies between.
   */
  function Trim(s: string): (r: string)
    ensures |r| <= |s|
  {
    var a := BlankPrefix(s);
    s[a..|s| - BlankSuffix(s[a..])]
  }

  /**
   * What `Trim` keeps is an infix of its argument, starting where the leading
   * whitespace ends and flanked by whitespace only.
   */
  lemma TrimIsInfix(s: string)
    ensures var r, a := Trim(s), BlankPrefix(s);
      a + |r| <= |s| && s[a..a + |r|] == r && IsBlank(s[..a]) && IsBlank(s[a + |r|..])
  {
    TrimKeepsInfix(s);
    TrimCutsFront(s);
    TrimCutsBack(s);
  }

  /** What `Trim` keeps neither starts nor ends with whitespace. */
  lemma TrimEdges(s: string)
    ensures var r := Trim(s); r == [] || (!IsWhitespace(r[0]) && !IsWhitespace(r[|r| - 1]))
  {
    var a := BlankPrefix(s);
    var t := s[a..];
    var k := BlankSuffix(t);
    var r := Trim(s);
    BlankPrefixSpans(s);
    BlankSuffixSpans(t);
    if r != [] {
      assert r[0] == s[a];
      assert r[|r| - 1] == t[|t| - k - 1];
    }
  }

  /** `Trim` keeps the infix that starts where the leading whitespace ends. */
  lemma TrimKeepsInfix(s: string)
    ensures var r, a := Trim(s), BlankPrefix(s); a + |r| <= |s| && s[a..a + |r|] == r
  {
    var a := BlankPrefix(s);
    var e := |s| - BlankSuffix(s[a..]);
    assert Trim(s) == s[a..e];
  }

  /** What `Trim` cuts off at the front is whitespace. */
  lemma TrimCutsFront(s: string)
    ensures IsBlank(s[..BlankPrefix(s)])
  {
    var a := BlankPrefix(s);
    BlankPrefixSpans(s);
    forall i | 0 <= i < a ensures IsWhitespace(s[..a][i]) {
      assert s[..a][i] == s[i];
    }
  }

  /** What `Trim` cuts off at the back is whitespace. */
  lemma TrimCutsBack(s: string)
    ensures var r, a := Trim(s), BlankPrefix(s); a + |r| <= |s| && IsBlank(s[a + |r|..])
  {
    TrimEnds(s);
    BlankTail(s, BlankPrefix(s));
  }

  /** Where the text `Trim` keeps ends. */
  lemma TrimEnds(s: string)
    ensures var a := BlankPrefix(s); a + |Trim(s)| == |s| - BlankSuffix(s[a..])
  {
  }

  /** The trailing whitespace of a suffix of `s` is trailing whitespace of `s`. */
  lemma BlankTail(s: string, a: nat)
    requires a <= |s|
    ensures IsBlank(s[|s| - BlankSuffix(s[a..])..])
  {
    var t := s[a..];
    var k := BlankSuffix(t);
    var tail := s[|s| - k..];
    BlankSuffixSpans(t);
    forall j | 0 <= j < k ensures IsWhitespace(tail[j]) {
      assert tail[j] == t[|t| - k + j];
    }
  }

  /** A text whose first character is not whitespace is not blank. */
  lemma StartsNotBlank(s: string)
    requires |s| > 0 && !IsWhitespace(s[0])
    ensures !IsNullOrBlank(Some(s))
  {
  }

  /** Trimming keeps only characters of its argument. */
  lemma TrimKeepsCharacters(s: string)
    ensures forall c :: c in Trim(s) ==> c in s
  {
    var r, a := Trim(s), BlankPrefix(s);
    TrimKeepsInfix(s);
    forall c | c in r ensures c in s {
      var i :| 0 <= i < |r| && r[i] == c;
      assert s[a..a + |r|][i] == s[a + i];
    }
  }

  /** Trimming leaves nothing exactly when the text is blank. */
  lemma TrimBlank(s: string)
    ensures Trim(s) == [] <==> IsBlank(s)
  {
    var a := BlankPrefix(s);
    var t := s[a..];
    BlankPrefixSpans(s);
    if Trim(s) == [] {
      BlankSuffixSpans(t);
      assert BlankSuffix(t) == |t|;
      assert a == |s|;
    }
  }

  /** Trimming twice is trimming once. */
  lemma TrimIdempotent(s: string)
    ensures Trim(Trim(s)) == Trim(s)
  {
    var r := Trim(s);
    if r != [] {
      TrimEdges(s);
      assert BlankPrefix(r) == 0;
      assert r[0..] == r;
      assert BlankSuffix(r) == 0;
    }
  }

  // ---------------------------------------------------------------------------
  // Decimal numbers: Java's "%0<width>d", Kotlin's Int.toString(), and parsing back
  // ---------------------------------------------------------------------------

  predicate IsDigit(c: char) {
    '0' <= c <= '9'
  }

  predicate AllDigits(s: string) {
    forall i :: 0 <= i < |s| ==> IsDigit(s[i])
  }

  function DigitChar(d: nat): (c: char)
    requires d < 10
    ensures IsDigit(c) && c as int - '0' as int == d
  {
    ('0' as int + d) as char
  }

  /** The decimal digits of `n`, most significant first, with no leading zero. */
  function Digits(n: nat): (r: string)
    ensures |r| >= 1 && AllDigits(r)
    ensures r[0] == '0' ==> n == 0
  {
    if n < 10 then [DigitChar(n)] else Digits(n / 10) + [DigitChar(n % 10)]
  }

  function Zeros(k: nat): (r: string)
    ensures |r| == k && AllDigits(r)
  {
    seq(k, _ => '0')
  }

  /** Left-pads `s` with '0' up to `width` characters. */
  function ZeroPad(s: string, width: int): (r: string)
    ensures |r| == if |s| >= width then |s| else width
    ensures r[|r| - |s|..] == s
  {
    if |s| >= width then s else Zeros(width - |s|) + s
  }

  /** Everything `ZeroPad` puts before `s` is a '0'. */
  lemma ZeroPadZeros(s: string, width: int)
    ensures var r := ZeroPad(s, width);
      forall i :: 0 <= i < |r| - |s| ==> r[i] == '0'
  {
    if |s| < width {
      var r, z := ZeroPad(s, width), Zeros(width - |s|);
      forall i | 0 <= i < |r| - |s| ensures r[i] == '0' {
        assert r[i] == z[i];
      }
    }
  }

  /**
   * Java's `String.format("%0<width>d", n)`: an optional '-' and then the digits of
   * |n|, zero-padded so that the whole text (sign included) is at least `width`
   * characters long. `FormatInt(n, 0)` is Kotlin's `Int.toString()`.
   */
  function FormatInt(n: int, width: nat): (r: string)
    ensures var sign := if n < 0 then 1 else 0;
      var natural := sign + |Digits(if n < 0 then -n else n)|;
      |r| == if natural >= width then natural else width
    ensures |r| >= width && |r| >= 1
    ensures n >= 0 ==> AllDigits(r)
    ensures n < 0 ==> r[0] == '-' && AllDigits(r[1..])
  {
    if n < 0 then "-" + ZeroPad(Digits(-n), width - 1) else ZeroPad(Digits(n), width)
  }

  /** The value of a string of decimal digits (leading zeros allowed). */
  function DigitsValue(s: string): nat
    requires AllDigits(s)
  {
    if s == [] then 0 else DigitsValue(s[..|s| - 1]) * 10 + (s[|s| - 1] as int - '0' as int)
  }

  /** Reads a non-empty text of decimal digits; `None` for anything else. */
  function ParseDigits(s: string): Option<nat> {
    if |s| > 0 && AllDigits(s) then Some(DigitsValue(s)) else None
  }

  /** Reads an optionally negative decimal number; `None` for anything else. */
  function ParseInt(s: string): Option<int> {
    if |s| > 1 && s[0] == '-' && ParseDigits(s[1..]).Some? then Some(-(ParseDigits(s[1..]).value as int))
    else match ParseDigits(s)
      case Some(v) => Some(v as int)
      case None => None
  }

  lemma {:induction false} DigitsValueOfDigits(n: nat)
    ensures DigitsValue(Digits(n)) == n
  {
    if n >= 10 {
      var d := Digits(n);
      assert d[..|d| - 1] == Digits(n / 10);
      DigitsValueOfDigits(n / 10);
    }
  }

  lemma {:induction false} DigitsValueIgnoresZeros(k: nat, s: string)
    requires AllDigits(s)
    ensures DigitsValue(Zeros(k) + s) == DigitsValue(s)
  {
    if s == [] {
      assert Zeros(k) + s == Zeros(k);
      ZerosValue(k);
    } else {
      var t := s[..|s| - 1];
      assert (Zeros(k) + s)[..|Zeros(k) + s| - 1] == Zeros(k) + t;
      DigitsValueIgnoresZeros(k, t);
    }
  }

  lemma {:induction false} ZerosValue(k: nat)
    ensures DigitsValue(Zeros(k)) == 0
  {
    if k > 0 {
      assert Zeros(k)[..k - 1] == Zeros(k - 1);
      ZerosValue(k - 1);
    }
  }

  lemma DigitsValueOfPadded(n: nat, width: int)
    ensures AllDigits(ZeroPad(Digits(n), width))
    ensures DigitsValue(ZeroPad(Digits(n), width)) == n
  {
    var d := Digits(n);
    DigitsValueOfDigits(n);
    if |d| < width {
      var z := Zeros(width - |d|);
      assert ZeroPad(d, width) == z + d;
      AllDigitsAppend(z, d);
      DigitsValueIgnoresZeros(width - |d|, d);
    }
  }

  lemma AllDigitsAppend(s: string, t: string)
    requires AllDigits(s) && AllDigits(t)
    ensures AllDigits(s + t)
  {
    forall i | 0 <= i < |s + t| ensures IsDigit((s + t)[i]) {
      if i >= |s| { assert (s + t)[i] == t[i - |s|]; }
    }
  }

  lemma ParsePadded(n: nat, width: int)
    ensures ParseDigits(ZeroPad(Digits(n), width)) == Some(n)
  {
    DigitsValueOfPadded(n, width);
  }

  lemma ParseNonNegative(p: string, v: nat)
    requires ParseDigits(p) == Some(v)
    ensures ParseInt(p) == Some(v as int)
  {
    assert IsDigit(p[0]);
  }

  lemma ParseNegative(p: string, v: nat)
    requires ParseDigits(p) == Some(v)
    ensures ParseInt("-" + p) == Some(-(v as int))
  {
    assert ("-" + p)[1..] == p;
  }

  lemma FormatNegativeRoundTrip(n: int, width: nat)
    requires n < 0
    ensures ParseInt(FormatInt(n, width)) == Some(n)
  {
    var m: nat := -n;
    var p := ZeroPad(Digits(m), width - 1);
    assert FormatInt(n, width) == "-" + p;
    ParsePadded(m, width - 1);
    ParseNegative(p, m);
  }

  lemma FormatNonNegativeRoundTrip(n: nat, width: nat)
    ensures ParseInt(FormatInt(n, width)) == Some(n)
  {
    var p := ZeroPad(Digits(n), width);
    assert FormatInt(n, width) == p;
    ParsePadded(n, width);
    ParseNonNegative(p, n);
  }

  /** Reading back what `FormatInt` wrote gives the number: the format loses nothing. */
  lemma FormatIntRoundTrip(n: int, width: nat)
    ensures ParseInt(FormatInt(n, width)) == Some(n)
  {
    if n < 0 {
      FormatNegativeRoundTrip(n, width);
    } else {
      FormatNonNegativeRoundTrip(n, width);
    }
  }

  /**
   * The layout of `"%0<width>d"`: the sign if `n` is negative, then as many '0's as
   * the width still asks for, then the digits of |n| without leading zeros.
   */
  lemma FormatIntLayout(n: int, width: nat)
    ensures var m: nat := if n < 0 then -n else n;
      var sign := if n < 0 then "-" else "";
      var r := FormatInt(n, width);
      var pad := |r| - |sign| - |Digits(m)|;
      && pad >= 0
      && r[..|sign|] == sign
      && (forall i :: |sign| <= i < |sign| + pad ==> r[i] == '0')
      && r[|sign| + pad..] == Digits(m)
  {
    var m: nat := if n < 0 then -n else n;
    var r := FormatInt(n, width);
    if n < 0 {
      var p := ZeroPad(Digits(m), width - 1);
      assert r == "-" + p;
      ZeroPadZeros(Digits(m), width - 1);
      forall i | 1 <= i < |r| - |Digits(m)| ensures r[i] == '0' {
        assert r[i] == p[i - 1];
      }
      assert r[1 + (|p| - |Digits(m)|)..] == p[|p| - |Digits(m)|..];
    } else {
      ZeroPadZeros(Digits(m), width);
    }
  }

  /** Distinct numbers are written differently at the same width. */
  lemma FormatIntInjective(a: int, b: int, width: nat)
    requires FormatInt(a, width) == FormatInt(b, width)
    ensures a == b
  {
    FormatIntRoundTrip(a, width);
    FormatIntRoundTrip(b, width);
  }

  /** A number's text holds only digits and a minus sign. */
  lemma FormatIntAlphabet(n: int, width: nat)
    ensures forall i :: 0 <= i < |FormatInt(n, width)| ==>
      IsDigit(FormatInt(n, width)[i]) || FormatInt(n, width)[i] == '-'
  {
    var r := FormatInt(n, width);
    if n < 0 {
      forall i | 1 <= i < |r| ensures IsDigit(r[i]) {
        assert r[i] == r[1..][i - 1];
      }
    }
  }

  /** A number's text holds no character other than digits and '-'. */
  lemma FormatIntExcludes(n: int, width: nat, c: char)
    requires !IsDigit(c) && c != '-'
    ensures c !in FormatInt(n, width)
  {
    FormatIntAlphabet(n, width);
  }

  // ---------------------------------------------------------------------------
  // Joining and splitting
  // ---------------------------------------------------------------------------

  /** Kotlin's `joinToString(separator = sep)`. */
  function Join(sep: string, xs: seq<string>): string {
    if |xs| == 0 then "" else if |xs| == 1 then xs[0] else xs[0] + sep + Join(sep, xs[1..])
  }

  /** A character that is neither in the separator nor in any part is not in the joined text. */
  lemma {:induction false} JoinExcludes(sep: string, xs: seq<string>, c: char)
    requires c !in sep
    requires forall i :: 0 <= i < |xs| ==> c !in xs[i]
    ensures c !in Join(sep, xs)
  {
    if |xs| > 1 {
      JoinExcludes(sep, xs[1..], c);
    }
  }

  /** The pieces of `s` between occurrences of `c` (always at least one piece). */
  function Split(s: string, c: char): (r: seq<string>)
    ensures |r| >= 1
    ensures forall i :: 0 <= i < |r| ==> c !in r[i]
  {
    if s == [] then [""]
    else
      var rest := Split(s[1..], c);
      if s[0] == c then [""] + rest else [[s[0]] + rest[0]] + rest[1..]
  }

  /** A prefix free of `c` only extends the first piece. */
  lemma {:induction false} SplitPrepend(a: string, b: string, c: char)
    requires c !in a
    ensures Split(a + b, c) == [a + Split(b, c)[0]] + Split(b, c)[1..]
  {
    if a != [] {
      var s := a + b;
      assert s[0] == a[0] && s[0] != c;
      assert s[1..] == a[1..] + b;
      SplitPrepend(a[1..], b, c);
      var rest := Split(s[1..], c);
      assert rest[0] == a[1..] + Split(b, c)[0];
      assert rest[1..] == Split(b, c)[1..];
      assert [a[0]] + rest[0] == a + Split(b, c)[0];
    } else {
      var r := Split(b, c);
      assert a + b == b && a + r[0] == r[0];
      assert r == [r[0]] + r[1..];
    }
  }

  /** A `c`-free prefix followed by `c` is exactly the first piece. */
  lemma SplitAtSeparator(a: string, b: string, c: char)
    requires c !in a
    ensures Split(a + [c] + b, c) == [a] + Split(b, c)
  {
    assert a + [c] + b == a + ([c] + b);
    SplitPrepend(a, [c] + b, c);
    assert ([c] + b)[1..] == b;
    assert a + "" == a;
  }

  /** A string without `c` is one piece. */
  lemma SplitNone(a: string, c: char)
    requires c !in a
    ensures Split(a, c) == [a]
  {
    SplitPrepend(a, "", c);
    assert a + "" == a;
  }

  /** Splitting undoes joining, when no piece contains the separator. */
  lemma {:induction false} SplitJoin(xs: seq<string>, c: char)
    requires |xs| >= 1
    requires forall i :: 0 <= i < |xs| ==> c !in xs[i]
    ensures Split(Join([c], xs), c) == xs
  {
    if |xs| == 1 {
      SplitNone(xs[0], c);
    } else {
      SplitAtSeparator(xs[0], Join([c], xs[1..]), c);
      SplitJoin(xs[1..], c);
    }
  }

  /** Joining undoes splitting. */
  lemma {:induction false} JoinSplit(s: string, c: char)
    ensures Join([c], Split(s, c)) == s
  {
    if s != [] {
      var rest := Split(s[1..], c);
      JoinSplit(s[1..], c);
      if s[0] == c {
        assert s == [c] + s[1..];
      } else if |rest| == 1 {
        assert s == [s[0]] + s[1..];
      } else {
        assert s == [s[0]] + s[1..];
        assert ([[s[0]] + rest[0]] + rest[1..])[1..] == rest[1..];
      }
    }
  }

  /** Whatever precedes the last `c` does not affect the last piece. */
  lemma {:induction false} SplitLastPiece(a: string, b: string, c: char)
    requires c !in b
    ensures var r := Split(a + [c] + b, c); |r| >= 2 && r[|r| - 1] == b
  {
    if a == [] {
      assert a + [c] + b == [c] + b;
      SplitNone(b, c);
    } else {
      assert (a + [c] + b)[1..] == a[1..] + [c] + b;
      SplitLastPiece(a[1..], b, c);
    }
  }
}

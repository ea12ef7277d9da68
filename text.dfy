// Text handling used by the map formats: .NET's String.Split and
// String.Join, the invariant-culture integer and decimal forms the editor
// writes, and the number parsers that read them back.

module Text {
  import opened Common

  predicate IsDigit(c: char) { '0' <= c <= '9' }

  /** The white space that NumberStyles.Integer and NumberStyles.Float trim: U+0009 to U+000D and U+0020. */
  predicate IsWhite(c: char)
  {
    c == ' ' || c == '\t' || c == '\n' || c == '\r' || c == '\U{000B}' || c == '\U{000C}'
  }

  /**
   * Char.IsWhiteSpace: the Unicode White_Space characters, that is IsWhite,
   * the next line U+0085, the space separators and the line and paragraph
   * separators.
   */
  predicate IsUnicodeWhite(c: char)
  {
    || IsWhite(c)
    || c == '\U{0085}' || c == '\U{00A0}' || c == '\U{1680}'
    || ('\U{2000}' <= c <= '\U{200A}')
    || c == '\U{2028}' || c == '\U{2029}' || c == '\U{202F}' || c == '\U{205F}' || c == '\U{3000}'
  }

  predicate AllDigits(s: string) { forall i :: 0 <= i < |s| ==> IsDigit(s[i]) }

  /** string.IsNullOrWhiteSpace on a non-null string. */
  predicate IsBlank(s: string) { forall i :: 0 <= i < |s| ==> IsUnicodeWhite(s[i]) }

  function DigitChar(d: nat): (c: char)
    requires d < 10
    ensures IsDigit(c) && c as int - '0' as int == d
  {
    (d + '0' as int) as char
  }

  function DigitValue(c: char): nat
    requires IsDigit(c)
  {
    c as int - '0' as int
  }

  /** The value of a run of decimal digits, most significant first. */
  function DigitsValue(s: string): nat
    requires AllDigits(s)
  {
    if s == [] then 0 else DigitsValue(s[..|s| - 1]) * 10 + DigitValue(s[|s| - 1])
  }

  function NatToString(n: nat): (r: string)
    ensures |r| > 0 && AllDigits(r)
  {
    if n < 10 then [DigitChar(n)] else NatToString(n / 10) + [DigitChar(n % 10)]
  }

  /** long.ToString() in the invariant culture. */
  function IntToString(i: int): (r: string)
    ensures |r| > 0 && !IsWhite(r[0]) && !IsWhite(r[|r| - 1])
    ensures forall k :: 0 <= k < |r| ==> IsDigit(r[k]) || (k == 0 && r[k] == '-')
  {
    if i < 0 then "-" + NatToString(-i) else NatToString(i)
  }

  lemma {:induction false} NatToStringValue(n: nat)
    ensures DigitsValue(NatToString(n)) == n
  {
    if n >= 10 {
      var s := NatToString(n);
      assert s[..|s| - 1] == NatToString(n / 10);
      NatToStringValue(n / 10);
    }
  }

  function TrimStart(s: string): (r: string)
    ensures |r| > 0 ==> !IsWhite(r[0])
    ensures |s| > 0 && !IsWhite(s[0]) ==> r == s
  {
    if |s| > 0 && IsWhite(s[0]) then TrimStart(s[1..]) else s
  }

  function TrimEnd(s: string): (r: string)
    ensures |r| > 0 ==> !IsWhite(r[|r| - 1])
    ensures |s| > 0 && !IsWhite(s[|s| - 1]) ==> r == s
  {
    if |s| > 0 && IsWhite(s[|s| - 1]) then TrimEnd(s[..|s| - 1]) else s
  }

  function Trim(s: string): string { TrimEnd(TrimStart(s)) }

  lemma TrimUntouched(s: string)
    requires |s| > 0 && !IsWhite(s[0]) && !IsWhite(s[|s| - 1])
    ensures Trim(s) == s
  {}

  function UnsignedInt(s: string): Option<nat>
  {
    if |s| > 0 && AllDigits(s) then Some(DigitsValue(s)) else None
  }

  /**
   * long.Parse / long.TryParse with NumberStyles.Integer: white space on
   * either side, one optional sign, then at least one digit.
   */
  function ParseInt(s: string): Option<int>
  {
    var t := Trim(s);
    var signed := |t| > 0 && (t[0] == '-' || t[0] == '+');
    var digits := if signed then t[1..] else t;
    match UnsignedInt(digits)
    case None => None
    case Some(n) =>
      var v: int := if signed && t[0] == '-' then -(n as int) else n;
      Some(v)
  }

  /** Whatever integer the editor writes, the parser reads back unchanged. */
  lemma IntRoundTrip(i: int)
    ensures ParseInt(IntToString(i)) == Some(i)
  {
    var s := IntToString(i);
    TrimUntouched(s);
    if i < 0 {
      assert s[1..] == NatToString(-i);
      NatToStringValue(-i);
    } else {
      NatToStringValue(i);
    }
  }

  function Pow10(n: nat): (r: nat)
    ensures r > 0
  {
    if n == 0 then 1 else 10 * Pow10(n - 1)
  }

  /** The value of the digits after a decimal point. */
  function Fraction(digits: string): real
    requires AllDigits(digits)
  {
    DigitsValue(digits) as real / Pow10(|digits|) as real
  }

  /** Digits with at most one '.', at least one digit on some side of it. */
  function UnsignedDecimal(s: string): Option<real>
  {
    var parts := Split(s, '.');
    if |parts| == 1 then
      (if |s| > 0 && AllDigits(s) then Some(DigitsValue(s) as real) else None)
    else if |parts| == 2 && AllDigits(parts[0]) && AllDigits(parts[1]) && |parts[0]| + |parts[1]| > 0 then
      Some(DigitsValue(parts[0]) as real + Fraction(parts[1]))
    else None
  }

  /**
   * float.Parse / float.TryParse with NumberStyles.Float in the invariant
   * culture, without exponents: white space on either side, one optional
   * sign, digits with an optional decimal point. The value is exact.
   */
  function ParseDecimal(s: string): Option<real>
  {
    var t := Trim(s);
    var signed := |t| > 0 && (t[0] == '-' || t[0] == '+');
    var body := if signed then t[1..] else t;
    match UnsignedDecimal(body)
    case None => None
    case Some(v) => Some(if signed && t[0] == '-' then -v else v)
  }

  /** The text of a non-negative number of hundredths: no trailing zeros and no point for whole numbers. */
  function UnsignedHundredths(h: nat): (r: string)
    ensures |r| > 0 && IsDigit(r[0]) && IsDigit(r[|r| - 1])
    ensures forall k :: 0 <= k < |r| ==> IsDigit(r[k]) || r[k] == '.'
  {
    var w := h / 100;
    var f := h % 100;
    if f == 0 then NatToString(w)
    else if f % 10 == 0 then NatToString(w) + "." + [DigitChar(f / 10)]
    else NatToString(w) + "." + [DigitChar(f / 10), DigitChar(f % 10)]
  }

  /** The text .NET gives Math.Round(x, 2) when that value is h hundredths. */
  function FormatHundredths(h: int): (r: string)
    ensures |r| > 0 && !IsWhite(r[0]) && !IsWhite(r[|r| - 1])
    ensures forall k :: 0 <= k < |r| ==> IsDigit(r[k]) || r[k] == '.' || (k == 0 && r[k] == '-')
  {
    if h < 0 then "-" + UnsignedHundredths(-h) else UnsignedHundredths(h)
  }

  lemma DecimalParts(ws: string, fs: string, s: string)
    requires |ws| > 0 && AllDigits(ws) && AllDigits(fs) && |fs| > 0
    requires Split(s, '.') == [ws, fs]
    ensures UnsignedDecimal(s) == Some(DigitsValue(ws) as real + Fraction(fs))
  {
    var parts := Split(s, '.');
    assert |parts| == 2 && parts[0] == ws && parts[1] == fs;
  }

  lemma NoPoint(s: string)
    requires AllDigits(s)
    ensures '.' !in s
  {
    forall k | 0 <= k < |s| ensures s[k] != '.' {
      assert IsDigit(s[k]);
    }
  }

  lemma HundredthsArithmetic(h: nat, w: nat, f: nat, v: nat, n: nat)
    requires (n == 1 || n == 2) && h == w * 100 + f && f == v * Pow10(2 - n)
    ensures w as real + v as real / Pow10(n) as real == h as real / 100.0
  {
    if n == 1 {
      assert Pow10(1) == 10;
      assert f == v * 10;
    } else {
      assert Pow10(2) == 100;
    }
  }

  lemma PointSplit(ws: string, fs: string)
    requires AllDigits(ws) && AllDigits(fs)
    ensures Split(ws + "." + fs, '.') == [ws, fs]
  {
    NoPoint(ws);
    NoPoint(fs);
    SplitTwo(ws, fs, '.');
    assert ws + "." + fs == ws + ['.'] + fs;
  }

  lemma DigitsValueOne(a: nat)
    requires a < 10
    ensures DigitsValue([DigitChar(a)]) == a
  {
    assert [DigitChar(a)][..0] == [];
  }

  lemma DigitsValueTwo(a: nat, b: nat)
    requires a < 10 && b < 10
    ensures DigitsValue([DigitChar(a), DigitChar(b)]) == a * 10 + b
  {
    var s := [DigitChar(a), DigitChar(b)];
    assert s[..1] == [DigitChar(a)];
    DigitsValueOne(a);
  }

  lemma UnsignedHundredthsRoundTrip(h: nat)
    ensures UnsignedDecimal(UnsignedHundredths(h)) == Some(h as real / 100.0)
  {
    var w := h / 100;
    var f := h % 100;
    var ws := NatToString(w);
    NatToStringValue(w);
    if f == 0 {
      NoPoint(ws);
      SplitNone(ws, '.');
    } else {
      var fs, v, n;
      if f % 10 == 0 {
        fs, v, n := [DigitChar(f / 10)], f / 10, 1;
        DigitsValueOne(f / 10);
      } else {
        fs, v, n := [DigitChar(f / 10), DigitChar(f % 10)], f, 2;
        DigitsValueTwo(f / 10, f % 10);
      }
      assert UnsignedHundredths(h) == ws + "." + fs;
      PointSplit(ws, fs);
      DecimalParts(ws, fs, ws + "." + fs);
      HundredthsArithmetic(h, w, f, v, n);
    }
  }

  /** Whatever hundredths value the editor writes, the decimal parser reads back exactly. */
  lemma DecimalRoundTrip(h: int)
    ensures ParseDecimal(FormatHundredths(h)) == Some(h as real / 100.0)
  {
    var s := FormatHundredths(h);
    TrimUntouched(s);
    if h < 0 {
      assert s[1..] == UnsignedHundredths(-h);
      assert UnsignedDecimal(s[1..]) == Some((-h) as real / 100.0) by {
        UnsignedHundredthsRoundTrip(-h);
      }
    } else {
      assert UnsignedDecimal(s) == Some(h as real / 100.0) by {
        UnsignedHundredthsRoundTrip(h);
      }
    }
  }

  // ---------------------------------------------------------------------
  // String.Split(char) and String.Join(char)

  /** String.Split(c) with no options: every separator cuts, empty pieces are kept. */
  function Split(s: string, c: char): (r: seq<string>)
    ensures |r| >= 1
  {
    if s == [] then [""]
    else
      var rest := Split(s[1..], c);
      if s[0] == c then [""] + rest else [[s[0]] + rest[0]] + rest[1..]
  }

  function Join(parts: seq<string>, c: char): string
    requires |parts| >= 1
  {
    if |parts| == 1 then parts[0] else parts[0] + [c] + Join(parts[1..], c)
  }

  lemma {:induction false} SplitNone(a: string, c: char)
    requires c !in a
    ensures Split(a, c) == [a]
  {
    if a != [] {
      SplitNone(a[1..], c);
      assert [a[0]] + a[1..] == a;
    }
  }

  lemma {:induction false} SplitPrefix(a: string, t: string, c: char)
    requires c !in a
    ensures Split(a + t, c) == [a + Split(t, c)[0]] + Split(t, c)[1..]
  {
    if a != [] {
      var s := a + t;
      var r := Split(t, c);
      assert s[1..] == a[1..] + t;
      var rest := Split(s[1..], c);
      assert rest[0] == a[1..] + r[0] && rest[1..] == r[1..] by {
        SplitPrefix(a[1..], t, c);
      }
      assert Split(s, c) == [[a[0]] + rest[0]] + rest[1..] by {
        assert s[0] == a[0];
      }
      assert [a[0]] + (a[1..] + r[0]) == a + r[0] by {
        assert a == [a[0]] + a[1..];
      }
    } else {
      assert a + t == t;
      var r := Split(t, c);
      assert a + r[0] == r[0];
      assert r == [r[0]] + r[1..];
    }
  }

  lemma SplitAtSeparator(t: string, c: char)
    ensures Split([c] + t, c) == [""] + Split(t, c)
  {
    assert ([c] + t)[1..] == t;
  }

  lemma SplitTwo(a: string, b: string, c: char)
    requires c !in a && c !in b
    ensures Split(a + [c] + b, c) == [a, b]
  {
    assert a + [c] + b == a + ([c] + b);
    SplitPrefix(a, [c] + b, c);
    SplitAtSeparator(b, c);
    SplitNone(b, c);
    var x := Split([c] + b, c);
    assert x == ["", b];
    assert a + x[0] == a;
    assert x[1..] == [b];
  }

  /** Splitting a join gives back the pieces, when no piece holds the separator. */
  lemma {:induction false} SplitJoin(parts: seq<string>, c: char)
    requires |parts| >= 1
    requires forall k :: 0 <= k < |parts| ==> c !in parts[k]
    ensures Split(Join(parts, c), c) == parts
  {
    if |parts| == 1 {
      SplitNone(parts[0], c);
    } else {
      var tail := Join(parts[1..], c);
      SplitJoin(parts[1..], c);
      assert Join(parts, c) == parts[0] + ([c] + tail);
      SplitPrefix(parts[0], [c] + tail, c);
      SplitAtSeparator(tail, c);
      var x := Split([c] + tail, c);
      assert x == [""] + parts[1..];
      assert parts[0] + x[0] == parts[0];
      assert x[1..] == parts[1..];
      assert [parts[0]] + parts[1..] == parts;
    }
  }

  /** A character that is neither the separator nor in any piece is not in the join. */
  lemma {:induction false} JoinWithout(parts: seq<string>, c: char, ch: char)
    requires |parts| >= 1 && ch != c
    requires forall k :: 0 <= k < |parts| ==> ch !in parts[k]
    ensures ch !in Join(parts, c)
  {
    if |parts| > 1 {
      JoinWithout(parts[1..], c, ch);
      assert Join(parts, c) == parts[0] + [c] + Join(parts[1..], c);
    }
  }

  // ---------------------------------------------------------------------
  // String.Split(string) and String.Join(string)

  /** String.Split(sep) with no options: scans left to right, cutting at each non-overlapping match. */
  function SplitOn(s: string, sep: string): (r: seq<string>)
    requires |sep| > 0
    ensures |r| >= 1
    decreases |s|
  {
    if |s| < |sep| then [s]
    else if s[..|sep|] == sep then [""] + SplitOn(s[|sep|..], sep)
    else
      var rest := SplitOn(s[1..], sep);
      [[s[0]] + rest[0]] + rest[1..]
  }

  function JoinWith(parts: seq<string>, sep: string): string
    requires |parts| >= 1
  {
    if |parts| == 1 then parts[0] else parts[0] + sep + JoinWith(parts[1..], sep)
  }

  /** No match of sep starts anywhere in s. */
  predicate MatchAt(s: string, i: int, sep: string)
  {
    0 <= i && i + |sep| <= |s| && s[i..i + |sep|] == sep
  }

  predicate Free(s: string, sep: string)
  {
    forall i :: 0 <= i <= |s| ==> !MatchAt(s, i, sep)
  }

  lemma {:induction false} SplitOnNone(s: string, sep: string)
    requires |sep| > 0 && Free(s, sep)
    ensures SplitOn(s, sep) == [s]
    decreases |s|
  {
    if |s| >= |sep| {
      assert s[0..|sep|] == s[..|sep|];
      assert !MatchAt(s, 0, sep);
      forall i | 0 <= i <= |s[1..]| ensures !MatchAt(s[1..], i, sep) {
        assert !MatchAt(s, i + 1, sep);
        if 0 <= i && i + |sep| <= |s[1..]| {
          assert s[1..][i..i + |sep|] == s[i + 1..i + 1 + |sep|];
        }
      }
      SplitOnNone(s[1..], sep);
      assert [s[0]] + s[1..] == s;
    }
  }

  lemma {:induction false} SplitOnPrefix(a: string, t: string, sep: string)
    requires |sep| > 0 && sep[0] !in a
    ensures SplitOn(a + t, sep) == [a + SplitOn(t, sep)[0]] + SplitOn(t, sep)[1..]
  {
    if a != [] {
      var s := a + t;
      if |s| < |sep| {
        assert SplitOn(t, sep) == [t];
      } else {
        assert s[0] == a[0];
        assert s[..|sep|][0] == a[0];
        assert s[1..] == a[1..] + t;
        SplitOnPrefix(a[1..], t, sep);
        var rest := SplitOn(s[1..], sep);
        assert rest == [a[1..] + SplitOn(t, sep)[0]] + SplitOn(t, sep)[1..];
        assert rest[0] == a[1..] + SplitOn(t, sep)[0];
        assert rest[1..] == SplitOn(t, sep)[1..];
        assert SplitOn(s, sep) == [[a[0]] + rest[0]] + rest[1..];
        assert [a[0]] + (a[1..] + SplitOn(t, sep)[0]) == a + SplitOn(t, sep)[0];
      }
    } else {
      assert a + t == t;
      var r := SplitOn(t, sep);
      assert a + r[0] == r[0];
      assert r == [r[0]] + r[1..];
    }
  }

  lemma SplitOnAtSeparator(t: string, sep: string)
    requires |sep| > 0
    ensures SplitOn(sep + t, sep) == [""] + SplitOn(t, sep)
  {
    assert (sep + t)[..|sep|] == sep;
    assert (sep + t)[|sep|..] == t;
  }

  /**
   * Splitting a join on a separator gives back the pieces when no piece
   * before the last holds the separator's first character and the last
   * piece holds no match of it.
   */
  lemma {:induction false} SplitOnJoinWith(parts: seq<string>, sep: string)
    requires |sep| > 0 && |parts| >= 1
    requires forall k :: 0 <= k < |parts| - 1 ==> sep[0] !in parts[k]
    requires Free(parts[|parts| - 1], sep)
    ensures SplitOn(JoinWith(parts, sep), sep) == parts
  {
    if |parts| == 1 {
      SplitOnNone(parts[0], sep);
    } else {
      var tail := JoinWith(parts[1..], sep);
      SplitOnJoinWith(parts[1..], sep);
      assert JoinWith(parts, sep) == parts[0] + (sep + tail);
      SplitOnPrefix(parts[0], sep + tail, sep);
      SplitOnAtSeparator(tail, sep);
      var x := SplitOn(sep + tail, sep);
      assert x == [""] + parts[1..];
      assert parts[0] + x[0] == parts[0];
      assert x[1..] == parts[1..];
      assert [parts[0]] + parts[1..] == parts;
    }
  }

  lemma FreeOfFirst(s: string, sep: string)
    requires |sep| > 0 && sep[0] !in s
    ensures Free(s, sep)
  {
    forall i | 0 <= i <= |s| ensures !MatchAt(s, i, sep) {
      if 0 <= i && i + |sep| <= |s| {
        assert s[i..i + |sep|][0] == s[i];
      }
    }
  }

  /** string.ToUpper() on the ASCII letters. */
  function ToUpper(s: string): (r: string)
    ensures |r| == |s|
    ensures forall k :: 0 <= k < |s| ==> (if 'a' <= s[k] <= 'z' then r[k] as int == s[k] as int - 32 else r[k] == s[k])
  {
    if s == [] then []
    else [if 'a' <= s[0] <= 'z' then (s[0] as int - 32) as char else s[0]] + ToUpper(s[1..])
  }
}

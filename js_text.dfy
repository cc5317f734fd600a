/**
 * The JavaScript string built-ins the widget relies on, on `seq<char>`:
 * `String.prototype.trim`, `String(n)` for integers, `Number(digits)`,
 * `padStart(2, "0")`, `Array.prototype.join`, and the time-of-day pattern
 * `^(\d{1,2}):(\d{2})` that both time normalisers match.
 */
module JsText {
  import opened Wrappers

  /** The WhiteSpace and LineTerminator code points of ECMAScript, which `trim` removes. */
  predicate IsJsWhitespace(c: char) {
    || c == '\t' || c == '\n' || c == '\U{000B}' || c == '\U{000C}' || c == '\r' || c == ' '
    || c == '\U{00A0}' || c == '\U{1680}' || ('\U{2000}' <= c <= '\U{200A}')
    || c == '\U{2028}' || c == '\U{2029}' || c == '\U{202F}' || c == '\U{205F}'
    || c == '\U{3000}' || c == '\U{FEFF}'
  }

  predicate AllWhitespace(s: string) {
    forall i :: 0 <= i < |s| ==> IsJsWhitespace(s[i])
  }

  /** Neither end of `s` is white space: `s` is its own trim. */
  predicate IsTrimmed(s: string) {
    s == [] || (!IsJsWhitespace(s[0]) && !IsJsWhitespace(s[|s| - 1]))
  }

  function TrimStart(s: string): (r: string)
    ensures |r| <= |s|
    ensures r == [] || !IsJsWhitespace(r[0])
    decreases |s|
  {
    if |s| > 0 && IsJsWhitespace(s[0]) then TrimStart(s[1..]) else s
  }

  function TrimEnd(s: string): (r: string)
    ensures |r| <= |s|
    ensures r != [] ==> r[0] == s[0] && !IsJsWhitespace(r[|r| - 1])
    decreases |s|
  {
    if |s| > 0 && IsJsWhitespace(s[|s| - 1]) then TrimEnd(s[..|s| - 1]) else s
  }

  /** `s.trim()`: the longest infix of `s` with no white space at either end. */
  function Trim(s: string): (r: string)
    ensures IsTrimmed(r)
    ensures |r| <= |s|
  {
    TrimEnd(TrimStart(s))
  }

  /** `TrimStart` drops a prefix of white space and keeps the rest. */
  lemma {:induction false} TrimStartSplits(s: string)
    ensures TrimStart(s) == s[|s| - |TrimStart(s)|..]
    ensures AllWhitespace(s[..|s| - |TrimStart(s)|])
    decreases |s|
  {
    if |s| > 0 && IsJsWhitespace(s[0]) {
      var t := s[1..];
      TrimStartSplits(t);
      var k := |s| - |TrimStart(s)|;
      assert t[|t| - |TrimStart(t)|..] == s[k..];
      forall i | 0 <= i < k
        ensures IsJsWhitespace(s[..k][i])
      {
        if i > 0 {
          assert s[..k][i] == t[..k - 1][i - 1];
        }
      }
    }
  }

  /** `TrimEnd` keeps a prefix and drops a suffix of white space. */
  lemma {:induction false} TrimEndSplits(s: string)
    ensures TrimEnd(s) == s[..|TrimEnd(s)|]
    ensures AllWhitespace(s[|TrimEnd(s)|..])
    decreases |s|
  {
    if |s| > 0 && IsJsWhitespace(s[|s| - 1]) {
      var t := s[..|s| - 1];
      TrimEndSplits(t);
      var k := |TrimEnd(s)|;
      assert t[..k] == s[..k];
      forall i | 0 <= i < |s| - k
        ensures IsJsWhitespace(s[k..][i])
      {
        if i < |s| - k - 1 {
          assert s[k..][i] == t[k..][i];
        }
      }
    }
  }

  lemma {:induction false} TrimStartOfTrimmed(s: string)
    requires s == [] || !IsJsWhitespace(s[0])
    ensures TrimStart(s) == s
  {
  }

  lemma {:induction false} TrimEndOfTrimmed(s: string)
    requires s == [] || !IsJsWhitespace(s[|s| - 1])
    ensures TrimEnd(s) == s
  {
  }

  /** A string with no white space at its ends is left alone by `trim`. */
  lemma {:induction false} TrimOfTrimmed(s: string)
    requires IsTrimmed(s)
    ensures Trim(s) == s
  {
    TrimStartOfTrimmed(s);
    TrimEndOfTrimmed(s);
  }

  /** `trim` is idempotent. */
  lemma TrimIdempotent(s: string)
    ensures Trim(Trim(s)) == Trim(s)
  {
    TrimOfTrimmed(Trim(s));
  }

  lemma {:induction false} TrimStartOfWhitespace(s: string)
    requires AllWhitespace(s)
    ensures TrimStart(s) == []
    decreases |s|
  {
    if s != [] {
      TrimStartOfWhitespace(s[1..]);
    }
  }

  /** `s.trim()` is empty exactly when `s` is all white space. */
  lemma {:induction false} TrimEmptyIffWhitespace(s: string)
    ensures Trim(s) == [] <==> AllWhitespace(s)
  {
    var a := TrimStart(s);
    if AllWhitespace(s) {
      TrimStartOfWhitespace(s);
    }
    if TrimEnd(a) == [] {
      // A first character of `a` would be kept, so nothing is left after the white space.
      TrimStartSplits(s);
      TrimEndSplits(a);
      assert a[0..] == a;
      assert a == [];
      assert s[..|s|] == s;
    }
  }

  predicate IsDigit(c: char) {
    '0' <= c <= '9'
  }

  predicate AllDigits(s: string) {
    forall i :: 0 <= i < |s| ==> IsDigit(s[i])
  }

  function DigitValue(c: char): (n: nat)
    requires IsDigit(c)
    ensures n < 10
  {
    (c as int) - ('0' as int)
  }

  function DigitChar(n: nat): (c: char)
    requires n < 10
    ensures IsDigit(c) && DigitValue(c) == n
  {
    ((('0' as int) + n) as char)
  }

  /** `Number(s)` for a non-empty string of ASCII digits (leading zeros allowed). */
  function DecimalValue(s: string): nat
    requires AllDigits(s)
  {
    if s == [] then 0 else 10 * DecimalValue(s[..|s| - 1]) + DigitValue(s[|s| - 1])
  }

  /** `String(n)` for a non-negative integer: its shortest decimal spelling. */
  function NatToDecimal(n: nat): (r: string)
    ensures |r| >= 1 && AllDigits(r)
  {
    if n < 10 then [DigitChar(n)] else NatToDecimal(n / 10) + [DigitChar(n % 10)]
  }

  /** The spelling reads back as the number, and has no leading zero. */
  lemma {:induction false} NatToDecimalValue(n: nat)
    ensures DecimalValue(NatToDecimal(n)) == n
    ensures NatToDecimal(n)[0] == '0' ==> n == 0
  {
    if n >= 10 {
      NatToDecimalValue(n / 10);
      var p := NatToDecimal(n / 10);
      var r := NatToDecimal(n);
      assert r == p + [DigitChar(n % 10)];
      assert r[..|r| - 1] == p;
      assert r[0] == p[0];
    }
  }

  /** `String(i)` for an integer. */
  function IntToDecimal(i: int): (r: string)
    ensures i >= 0 ==> r == NatToDecimal(i)
    ensures i < 0 ==> r == "-" + NatToDecimal(-i)
  {
    if i < 0 then "-" + NatToDecimal(-i) else NatToDecimal(i)
  }

  /** `s.padStart(2, "0")`. */
  function PadStart2(s: string): (r: string)
    ensures |r| == if |s| < 2 then 2 else |s|
    ensures r[|r| - |s|..] == s
    ensures forall i :: 0 <= i < |r| - |s| ==> r[i] == '0'
  {
    if |s| >= 2 then s else if |s| == 1 then "0" + s else "00"
  }

  /** `String(n).padStart(2, "0")` spells a number below 100 as exactly its two decimal digits. */
  lemma TwoDigits(n: nat)
    requires n < 100
    ensures PadStart2(NatToDecimal(n)) == [DigitChar(n / 10), DigitChar(n % 10)]
  {
    if n < 10 {
      assert n / 10 == 0 && n % 10 == n;
      assert NatToDecimal(n) == [DigitChar(n)];
    } else {
      assert n / 10 < 10;
      assert NatToDecimal(n / 10) == [DigitChar(n / 10)];
      assert NatToDecimal(n) == [DigitChar(n / 10), DigitChar(n % 10)];
    }
  }

  /** Two digits read back as the number they spell. */
  lemma TwoDigitValue(s: string)
    requires |s| == 2 && AllDigits(s)
    ensures DecimalValue(s) == 10 * DigitValue(s[0]) + DigitValue(s[1])
  {
    var h := s[..1];
    assert h[..0] == [] && h[0] == s[0];
    assert DecimalValue(h) == DigitValue(s[0]);
    assert s[..|s| - 1] == h;
  }

  /** `parts.join(sep)`. */
  function Join(parts: seq<string>, sep: string): (r: string)
    ensures parts == [] ==> r == ""
    ensures |parts| == 1 ==> r == parts[0]
  {
    if parts == [] then "" else if |parts| == 1 then parts[0] else parts[0] + sep + Join(parts[1..], sep)
  }

  /** Joining more than one part puts the separator between the join of all but the last and the last. */
  lemma {:induction false} JoinSnoc(parts: seq<string>, sep: string)
    requires |parts| >= 2
    ensures Join(parts, sep) == Join(parts[..|parts| - 1], sep) + sep + parts[|parts| - 1]
  {
    var n := |parts|;
    if n > 2 {
      JoinSnoc(parts[1..], sep);
      assert parts[1..][..n - 2] == parts[..n - 1][1..];
      assert parts[1..][n - 2] == parts[n - 1];
    } else {
      assert parts[1..] == [parts[1]];
    }
  }

  /**
   * The time pattern `^(\d{1,2}):(\d{2})` matched at the start of `s` with
   * `width` hour digits. JavaScript's `\d` is the ASCII digits only.
   */
  predicate HourMinuteAt(s: string, width: nat) {
    && (width == 1 || width == 2)
    && |s| >= width + 3
    && AllDigits(s[..width])
    && s[width] == ':'
    && AllDigits(s[width + 1..width + 3])
  }

  /** At most one hour width fits: a second hour digit is not a colon. */
  lemma HourMinuteWidthUnique(s: string)
    ensures HourMinuteAt(s, 1) ==> !HourMinuteAt(s, 2)
  {
    if HourMinuteAt(s, 1) {
      assert s[..2][1] == s[1] == ':';
    }
  }

  /** The two captured groups of `s.match(/^(\d{1,2}):(\d{2})/)` as numbers, or None without a match. */
  function HourMinutePrefix(s: string): (r: Option<(nat, nat)>)
    ensures r.None? <==> !HourMinuteAt(s, 1) && !HourMinuteAt(s, 2)
    ensures r.Some? ==> r.value.0 <= 99 && r.value.1 <= 99
    ensures r.Some? ==> exists w: nat :: HourMinuteAt(s, w) && r.value == (DecimalValue(s[..w]), DecimalValue(s[w + 1..w + 3]))
  {
    // The greedy `\d{1,2}` tries two hour digits before one.
    if HourMinuteAt(s, 2) then
      TwoDigitValue(s[..2]);
      TwoDigitValue(s[3..5]);
      Some((DecimalValue(s[..2]), DecimalValue(s[3..5])))
    else if HourMinuteAt(s, 1) then
      assert s[..1][..0] == [];
      TwoDigitValue(s[2..4]);
      Some((DecimalValue(s[..1]), DecimalValue(s[2..4])))
    else
      None
  }
}

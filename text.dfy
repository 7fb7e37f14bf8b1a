/**
 * The pieces of Python's `str` behaviour that the judge relies on, written
 * out over `string` (a sequence of Unicode scalar values, as Python's `str`).
 */
module Text {

  datatype Option<+T> = None | Some(value: T)

  /** A value, or the error that Python would raise instead. */
  datatype Result<+T, +E> = Ok(value: T) | Err(error: E)

  // ---------------------------------------------------------------------
  // str.split(c) for a one-character separator
  // ---------------------------------------------------------------------

  /** `s.split(c)`: the pieces between the occurrences of `c`, empty pieces kept. */
  function Split(s: string, c: char): (r: seq<string>)
    ensures |r| >= 1
    decreases |s|
  {
    if s == [] then [""]
    else
      var rest := Split(s[1..], c);
      if s[0] == c then [""] + rest else [[s[0]] + rest[0]] + rest[1..]
  }

  /** `c.join(parts)`. */
  function Join(parts: seq<string>, c: char): string
    requires |parts| >= 1
  {
    if |parts| == 1 then parts[0] else parts[0] + [c] + Join(parts[1..], c)
  }

  /** Splitting and joining again gives back the text, and no piece holds the separator. */
  lemma {:induction false} SplitJoin(s: string, c: char)
    ensures Join(Split(s, c), c) == s
    ensures forall k :: 0 <= k < |Split(s, c)| ==> c !in Split(s, c)[k]
    decreases |s|
  {
    if s != [] {
      SplitJoin(s[1..], c);
      var rest := Split(s[1..], c);
      if s[0] == c {
        assert Split(s, c) == [""] + rest;
        assert Split(s, c)[1..] == rest;
      } else {
        var r := Split(s, c);
        assert r == [[s[0]] + rest[0]] + rest[1..];
        if |rest| == 1 {
          assert r == [[s[0]] + rest[0]];
        } else {
          assert r[1..] == rest[1..];
          assert Join(rest, c) == rest[0] + [c] + Join(rest[1..], c);
        }
        forall k | 0 <= k < |r| ensures c !in r[k] {
          if k > 0 { assert r[k] == rest[k]; }
        }
      }
    }
  }

  /** A text without the separator is one piece. */
  lemma {:induction false} SplitNoSeparator(s: string, c: char)
    requires c !in s
    ensures Split(s, c) == [s]
    decreases |s|
  {
    if s != [] {
      assert c !in s[1..];
      SplitNoSeparator(s[1..], c);
      assert [s[0]] + s[1..] == s;
    }
  }

  /** Splitting `a + [c] + b` splits `a` and `b` apart. */
  lemma {:induction false} SplitAppend(a: string, c: char, b: string)
    ensures Split(a + [c] + b, c) == Split(a, c) + Split(b, c)
    decreases |a|
  {
    if a == [] {
      assert a + [c] + b == [c] + b;
      assert ([c] + b)[1..] == b;
    } else {
      assert (a + [c] + b)[1..] == a[1..] + [c] + b;
      SplitAppend(a[1..], c, b);
    }
  }

  // ---------------------------------------------------------------------
  // Substrings, prefixes, find
  // ---------------------------------------------------------------------

  predicate IsPrefix(p: string, s: string) {
    |p| <= |s| && s[..|p|] == p
  }

  /** Python's `sub in s`. */
  predicate Contains(s: string, sub: string)
    decreases |s|
  {
    IsPrefix(sub, s) || (|s| > 0 && Contains(s[1..], sub))
  }

  /** `s.find(c)`: the first index of `c`, or -1. */
  function Find(s: string, c: char): (r: int)
    ensures -1 <= r < |s|
    ensures r == -1 <==> c !in s
    ensures r >= 0 ==> s[r] == c && c !in s[..r]
  {
    if s == [] then -1
    else if s[0] == c then 0
    else
      var k := Find(s[1..], c);
      if k == -1 then -1
      else
        assert s[..k+1] == [s[0]] + s[1..][..k];
        k + 1
  }

  /** `s.rfind(c)`: the last index of `c`, or -1. */
  function RFind(s: string, c: char): (r: int)
    ensures -1 <= r < |s|
    ensures r == -1 <==> c !in s
    ensures r >= 0 ==> s[r] == c && c !in s[r+1..]
    decreases |s|
  {
    if s == [] then -1
    else if s[|s|-1] == c then |s| - 1
    else
      var prefix := s[..|s|-1];
      var r := RFind(prefix, c);
      assert s == prefix + [s[|s|-1]];
      assert r >= 0 ==> s[r+1..] == prefix[r+1..] + [s[|s|-1]];
      r
  }

  /** Python's `s[a:b]` for indices the caller already clipped to `0 <= a, b <= |s|`. */
  function Slice(s: string, a: nat, b: nat): string
    requires a <= |s| && b <= |s|
  {
    if a <= b then s[a..b] else ""
  }

  // ---------------------------------------------------------------------
  // str.replace
  // ---------------------------------------------------------------------

  /** `s.replace(pat, rep, 1)`. */
  function ReplaceFirst(s: string, pat: string, rep: string): string
    decreases |s|
  {
    if IsPrefix(pat, s) then rep + s[|pat|..]
    else if s == [] then s
    else [s[0]] + ReplaceFirst(s[1..], pat, rep)
  }

  /** `s.replace(pat, rep)`: every occurrence, left to right, without overlap. */
  function ReplaceAll(s: string, pat: string, rep: string): string
    requires pat != []
    decreases |s|
  {
    if IsPrefix(pat, s) then rep + ReplaceAll(s[|pat|..], pat, rep)
    else if s == [] then s
    else [s[0]] + ReplaceAll(s[1..], pat, rep)
  }

  /** A character in neither the text nor the replacement is not in the result. */
  lemma {:induction false} ReplaceAllKeepsOut(s: string, pat: string, rep: string, x: char)
    requires pat != [] && x !in s && x !in rep
    ensures x !in ReplaceAll(s, pat, rep)
    decreases |s|
  {
    if IsPrefix(pat, s) {
      ReplaceAllKeepsOut(s[|pat|..], pat, rep, x);
    } else if s != [] {
      ReplaceAllKeepsOut(s[1..], pat, rep, x);
    }
  }

  /** Removing every one-character `pat` leaves none behind. */
  lemma {:induction false} ReplaceAllRemovesChar(s: string, x: char)
    ensures x !in ReplaceAll(s, [x], "")
    decreases |s|
  {
    if s != [] {
      ReplaceAllRemovesChar(s[1..], x);
    }
  }

  // ---------------------------------------------------------------------
  // str.strip()
  // ---------------------------------------------------------------------

  /** The characters for which Python's `str.isspace()` holds. */
  predicate IsSpace(ch: char) {
    ch == ' ' || ('\U{9}' <= ch <= '\U{d}') || ('\U{1c}' <= ch <= '\U{1f}') || ch == '\U{85}' || ch == '\U{a0}'
    || ch == '\U{1680}' || ('\U{2000}' <= ch <= '\U{200a}') || ch == '\U{2028}' || ch == '\U{2029}'
    || ch == '\U{202f}' || ch == '\U{205f}' || ch == '\U{3000}'
  }

  /** `s.lstrip()`. */
  function LStrip(s: string): string
    decreases |s|
  {
    if s != [] && IsSpace(s[0]) then LStrip(s[1..]) else s
  }

  /** `s.rstrip()`. */
  function RStrip(s: string): string
    decreases |s|
  {
    if s != [] && IsSpace(s[|s|-1]) then RStrip(s[..|s|-1]) else s
  }

  /** `s.strip()`. */
  function Strip(s: string): string {
    RStrip(LStrip(s))
  }

  /** `lstrip` keeps a suffix that does not start with white space. */
  lemma {:induction false} LStripSuffix(s: string)
    ensures var r := LStrip(s); |r| <= |s| && r == s[|s| - |r|..] && (r == [] || !IsSpace(r[0]))
    decreases |s|
  {
    if s != [] && IsSpace(s[0]) {
      LStripSuffix(s[1..]);
    }
  }

  /** `rstrip` keeps a prefix that does not end with white space. */
  lemma {:induction false} RStripPrefix(s: string)
    ensures var r := RStrip(s); |r| <= |s| && r == s[..|r|] && (r == [] || !IsSpace(r[|r|-1]))
    decreases |s|
  {
    if s != [] && IsSpace(s[|s|-1]) {
      RStripPrefix(s[..|s|-1]);
    }
  }

  /** `strip` leaves no white space at either end. */
  lemma StripEnds(s: string)
    ensures var r := Strip(s); |r| <= |s| && (r == [] || (!IsSpace(r[0]) && !IsSpace(r[|r|-1])))
  {
    var l := LStrip(s);
    LStripSuffix(s);
    RStripPrefix(l);
    var r := RStrip(l);
    if r != [] {
      assert r[0] == l[0];
    }
  }

  /** Stripping only removes characters. */
  lemma StripKeeps(s: string, x: char)
    requires x !in s
    ensures x !in Strip(s)
  {
    var l := LStrip(s);
    LStripSuffix(s);
    assert forall k :: 0 <= k < |l| ==> l[k] == s[|s| - |l| + k];
    RStripPrefix(l);
    var r := RStrip(l);
    assert forall k :: 0 <= k < |r| ==> r[k] == l[k];
  }

  // ---------------------------------------------------------------------
  // Integers and decimals as Python prints and parses them
  // ---------------------------------------------------------------------

  predicate IsDigit(ch: char) { '0' <= ch <= '9' }

  predicate AllDigits(s: string) { forall k :: 0 <= k < |s| ==> IsDigit(s[k]) }

  function DigitValue(ch: char): nat requires IsDigit(ch) { ch as int - '0' as int }

  /** The value of a string of decimal digits. */
  function DigitsValue(s: string): nat
    requires AllDigits(s)
    decreases |s|
  {
    if s == [] then 0 else DigitsValue(s[..|s|-1]) * 10 + DigitValue(s[|s|-1])
  }

  function NatToString(n: nat): (r: string)
    ensures |r| >= 1 && AllDigits(r) && DigitsValue(r) == n
    ensures |r| > 1 ==> r[0] != '0'
    decreases n
  {
    if n < 10 then [('0' as int + n) as char]
    else
      var p := NatToString(n / 10);
      var r := p + [('0' as int + n % 10) as char];
      assert r[..|r|-1] == p;
      r
  }

  /** `str(n)`. */
  function IntToString(n: int): string {
    if n < 0 then "-" + NatToString(-n) else NatToString(n)
  }

  /** `s.zfill(width)`: pad with zeros after any sign until `width` characters. */
  function ZFill(s: string, width: nat): (r: string)
    ensures |r| == if |s| >= width then |s| else width
  {
    if |s| >= width then s
    else
      var zeros := seq(width - |s|, _ => '0');
      if s != [] && (s[0] == '+' || s[0] == '-') then [s[0]] + zeros + s[1..] else zeros + s
  }

  /** `int(tok)` for an optional sign and decimal digits, with surrounding white space. */
  function ParseInt(tok: string): Option<int> {
    var t := Strip(tok);
    if t != [] && (t[0] == '+' || t[0] == '-') then
      var body := t[1..];
      if body != [] && AllDigits(body) then
        Some(if t[0] == '-' then 0 - DigitsValue(body) else DigitsValue(body) as int)
      else None
    else if t != [] && AllDigits(t) then Some(DigitsValue(t))
    else None
  }

  /** An exact decimal number: `mantissa / 10^scale`. */
  datatype Decimal = Decimal(mantissa: int, scale: nat)

  const Zero := Decimal(0, 0)

  /** Splits an unsigned decimal literal `digits[.digits]` into its digits and the number after the point. */
  function ParseUnsignedDecimal(t: string): Option<Decimal> {
    var dot := Find(t, '.');
    var whole := if dot == -1 then t else t[..dot];
    var frac := if dot == -1 then "" else t[dot + 1..];
    if AllDigits(whole) && AllDigits(frac) && |whole| + |frac| >= 1 then
      Some(Decimal(DigitsValue(whole + frac), |frac|))
    else None
  }

  /** `float(tok)` for an optional sign, digits and at most one decimal point. */
  function ParseDecimal(tok: string): Option<Decimal> {
    var t := Strip(tok);
    var signed := t != [] && (t[0] == '+' || t[0] == '-');
    match ParseUnsignedDecimal(if signed then t[1..] else t)
    case None => None
    case Some(d) => Some(if signed && t[0] == '-' then Decimal(-d.mantissa, d.scale) else d)
  }

  /** `n` with its last `k` decimal digits dropped, rounding down. */
  function DropDigits(n: int, k: nat): int
    decreases k
  {
    if k == 0 then n else DropDigits(n / 10, k - 1)
  }

  /** Whether any of the last `k` decimal digits of `n` is not zero. */
  predicate AnyDigits(n: int, k: nat)
    decreases k
  {
    k > 0 && (n % 10 != 0 || AnyDigits(n / 10, k - 1))
  }

  /** `round(n / 10^k)`, decided on the dropped digits: the first of them, then whether any other is not zero. */
  function RoundDigits(n: int, k: nat): int {
    if k == 0 then n
    else
      var q := DropDigits(n, k);
      var d := DropDigits(n, k - 1) % 10;
      if d < 5 then q
      else if d > 5 || AnyDigits(n, k - 1) then q + 1
      else if q % 2 == 0 then q else q + 1
  }

  /** `round(x * 1000)` for the exact value of `x`. */
  function Millis(x: Decimal): int {
    RoundDigits(x.mantissa * 1000, x.scale)
  }
}

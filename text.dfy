/**
 * The JavaScript string primitives the service relies on: character classes, `trim()`,
 * number formatting, `startsWith`/`includes`, character replacement and ASCII lower-casing.
 * Strings are sequences of Unicode scalar values (JavaScript counts UTF-16 code units).
 */
module Text {

  /** `\d` in a JavaScript regular expression without the `u` flag: ASCII 0-9 only. */
  predicate IsDigit(c: char) {
    '0' <= c <= '9'
  }

  predicate IsHexDigit(c: char) {
    IsDigit(c) || 'a' <= c <= 'f' || 'A' <= c <= 'F'
  }

  predicate AllDigits(s: string) {
    forall i :: 0 <= i < |s| ==> IsDigit(s[i])
  }

  /**
   * The characters `String.prototype.trim` removes: ECMAScript WhiteSpace (TAB, VT, FF, SP,
   * NBSP, ZWNBSP and the Space_Separator category) and LineTerminator (LF, CR, LS, PS).
   */
  predicate IsSpace(c: char) {
    || c == '\t' || c == '\n' || c == '\U{000B}' || c == '\U{000C}' || c == '\r'
    || c == ' ' || c == '\U{00A0}' || c == '\U{1680}' || '\U{2000}' <= c <= '\U{200A}'
    || c == '\U{2028}' || c == '\U{2029}' || c == '\U{202F}' || c == '\U{205F}'
    || c == '\U{3000}' || c == '\U{FEFF}'
  }

  /** Removes leading whitespace; what it drops is all whitespace and what it keeps is a suffix. */
  function TrimStart(s: string): (r: string)
    ensures |r| <= |s| && r == s[|s| - |r|..]
    ensures r == [] || !IsSpace(r[0])
    ensures forall i :: 0 <= i < |s| - |r| ==> IsSpace(s[i])
  {
    if s != [] && IsSpace(s[0]) then TrimStart(s[1..]) else s
  }

  /** Removes trailing whitespace; what it drops is all whitespace and what it keeps is a prefix. */
  function TrimEnd(s: string): (r: string)
    ensures |r| <= |s| && r == s[..|r|]
    ensures r == [] || !IsSpace(r[|r| - 1])
    ensures forall i :: |r| <= i < |s| ==> IsSpace(s[i])
  {
    if s != [] && IsSpace(s[|s| - 1]) then TrimEnd(s[..|s| - 1]) else s
  }

  /**
   * `String.prototype.trim`: the result is the infix of `s` left after dropping whitespace at
   * both ends; it neither starts nor ends with whitespace.
   */
  function Trim(s: string): (r: string)
    ensures r == [] || (!IsSpace(r[0]) && !IsSpace(r[|r| - 1]))
    ensures var start := |s| - |TrimStart(s)|;
      && start + |r| <= |s|
      && r == s[start..start + |r|]
      && (forall i :: 0 <= i < start ==> IsSpace(s[i]))
      && (forall i :: start + |r| <= i < |s| ==> IsSpace(s[i]))
  {
    TrimEnd(TrimStart(s))
  }

  lemma TrimIdempotent(s: string)
    ensures Trim(Trim(s)) == Trim(s)
  {
    var t := Trim(s);
    if t != [] {
      assert TrimStart(t) == t;
      assert TrimEnd(t) == t;
    }
  }

  /** A string without whitespace is left as it is by `trim()`. */
  lemma {:induction false} TrimNoSpace(s: string)
    requires forall i :: 0 <= i < |s| ==> !IsSpace(s[i])
    ensures Trim(s) == s
  {
    assert TrimStart(s) == s;
    assert TrimEnd(s) == s;
  }

  /** A string that neither starts nor ends with whitespace is left as it is, inner spaces included. */
  lemma TrimUnpadded(s: string)
    requires s == [] || (!IsSpace(s[0]) && !IsSpace(s[|s| - 1]))
    ensures Trim(s) == s
  {
    assert TrimStart(s) == s;
    assert TrimEnd(s) == s;
  }

  /** A sign followed by digits has no surrounding whitespace. */
  lemma TrimSignedDigits(sign: char, digits: string)
    requires !IsSpace(sign) && AllDigits(digits)
    ensures Trim([sign] + digits) == [sign] + digits
  {
    var t := [sign] + digits;
    if digits != [] {
      assert t[|t| - 1] == digits[|digits| - 1];
      assert IsDigit(digits[|digits| - 1]);
    }
    TrimUnpadded(t);
  }

  // ---------------------------------------------------------------------------
  // Numerals in base 2..16 (decimal for `Array.prototype.join` of numbers, hexadecimal for ids)

  function DigitChar(d: nat): (c: char)
    requires d < 16
    ensures IsHexDigit(c)
  {
    if d < 10 then ('0' as int + d) as char else ('a' as int + d - 10) as char
  }

  /** The value of a (hexa)decimal digit, in either case. */
  function DigitValue(c: char): nat {
    if '0' <= c <= '9' then c as int - '0' as int
    else if 'a' <= c <= 'f' then c as int - 'a' as int + 10
    else if 'A' <= c <= 'F' then c as int - 'A' as int + 10
    else 0
  }

  lemma DigitCharValue(d: nat)
    requires d < 16
    ensures DigitValue(DigitChar(d)) == d
    ensures d < 10 ==> IsDigit(DigitChar(d))
  {
  }

  function Pow(base: nat, e: nat): (p: nat)
    ensures base > 0 ==> p > 0
  {
    if e == 0 then 1 else base * Pow(base, e - 1)
  }

  /** `n` written in `base` with lower-case digits, left-padded with zeros to at least `width` digits. */
  function Numeral(n: nat, base: nat, width: nat): (r: string)
    requires 2 <= base <= 16
    ensures |r| >= width
    decreases n, width
  {
    if n == 0 && width == 0 then []
    else
      var q, d := n / base, n % base;
      DivMod(n, base);
      Numeral(q, base, if width == 0 then 0 else width - 1) + [DigitChar(d)]
  }

  /** Every character of a numeral is a digit of its base. */
  lemma {:induction false} NumeralDigits(n: nat, base: nat, width: nat)
    requires 2 <= base <= 16
    ensures forall i :: 0 <= i < |Numeral(n, base, width)| ==>
      && IsHexDigit(Numeral(n, base, width)[i])
      && DigitValue(Numeral(n, base, width)[i]) < base
      && (base == 10 ==> IsDigit(Numeral(n, base, width)[i]))
    decreases n, width
  {
    if n != 0 || width != 0 {
      DivMod(n, base);
      var q, d, w := n / base, n % base, if width == 0 then 0 else width - 1;
      NumeralDigits(q, base, w);
      DigitCharValue(d);
      var front, last := Numeral(q, base, w), DigitChar(d);
      assert IsHexDigit(last) && DigitValue(last) < base && (base == 10 ==> IsDigit(last));
      var r := front + [last];
      assert Numeral(n, base, width) == r;
      forall i | 0 <= i < |r|
        ensures IsHexDigit(r[i]) && DigitValue(r[i]) < base && (base == 10 ==> IsDigit(r[i]))
      {
        if i < |front| {
          assert r[i] == front[i];
        } else {
          assert r[i] == last;
        }
      }
    }
  }

  /** The value of a numeral read in `base`. */
  function NumeralValue(s: string, base: nat): nat {
    if s == [] then 0 else NumeralValue(s[..|s| - 1], base) * base + DigitValue(s[|s| - 1])
  }

  /** Appending a digit multiplies the value by the base and adds the digit. */
  lemma NumeralValueSnoc(s: string, c: char, base: nat)
    ensures NumeralValue(s + [c], base) == NumeralValue(s, base) * base + DigitValue(c)
  {
    assert (s + [c])[..|s|] == s;
  }

  /** Decimal representation, as JavaScript's `String(n)` for a non-negative integer. */
  function DecimalString(n: nat): (r: string)
    ensures |r| >= 1 && AllDigits(r)
  {
    NumeralDigits(n, 10, 1);
    Numeral(n, 10, 1)
  }

  lemma {:induction false} NumeralRoundTrip(n: nat, base: nat, width: nat)
    requires 2 <= base <= 16
    ensures NumeralValue(Numeral(n, base, width), base) == n
    decreases n, width
  {
    if n == 0 && width == 0 {
    } else {
      var w := if width == 0 then 0 else width - 1;
      DivMod(n, base);
      NumeralRoundTrip(n / base, base, w);
      var front := Numeral(n / base, base, w);
      var r := front + [DigitChar(n % base)];
      assert r == Numeral(n, base, width);
      assert r[..|r| - 1] == front;
      DigitCharValue(n % base);
    }
  }

  lemma NumeralInjective(m: nat, n: nat, base: nat, width: nat)
    requires 2 <= base <= 16
    requires Numeral(m, base, width) == Numeral(n, base, width)
    ensures m == n
  {
    NumeralRoundTrip(m, base, width);
    NumeralRoundTrip(n, base, width);
  }

  lemma DivMod(n: nat, base: nat)
    requires 2 <= base
    ensures n == (n / base) * base + n % base && n % base < base
    ensures n > 0 ==> n / base < n
    ensures n == 0 ==> n / base == 0 && n % base == 0
  {
  }

  lemma AtLeastTimes(n: nat, base: nat, p: nat)
    requires base > 0 && n / base >= p
    ensures n >= base * p
  {
    assert base * (n / base) >= base * p;
  }

  lemma DivBelow(n: nat, base: nat, p: nat)
    requires base > 0 && n < base * p
    ensures n / base < p
  {
    if n / base >= p {
      AtLeastTimes(n, base, p);
      assert false;
    }
  }

  /** A number below base^width takes exactly `width` digits. */
  lemma {:induction false} NumeralLength(n: nat, base: nat, width: nat)
    requires 2 <= base <= 16
    requires n < Pow(base, width)
    ensures |Numeral(n, base, width)| == width
    decreases width
  {
    if width > 0 {
      QuotientBelowPow(n, base, width);
      NumeralLength(n / base, base, width - 1);
      NumeralUnfold(n, base, width);
    }
  }

  lemma QuotientBelowPow(n: nat, base: nat, width: nat)
    requires 2 <= base && width > 0 && n < Pow(base, width)
    ensures n / base < Pow(base, width - 1)
  {
    DivBelow(n, base, Pow(base, width - 1));
  }

  lemma NumeralUnfold(n: nat, base: nat, width: nat)
    requires 2 <= base <= 16 && width > 0
    ensures |Numeral(n, base, width)| == |Numeral(n / base, base, width - 1)| + 1
  {
  }

  // ---------------------------------------------------------------------------
  // Searching and rewriting

  /**
   * `parts.join(sep)`: the parts in order with `sep` between neighbours, so the result starts
   * with the first part, ends with the last, and `sep` follows the first part when there are two
   * or more.
   */
  function Join(parts: seq<string>, sep: string): (r: string)
    ensures parts == [] ==> r == []
    ensures parts != [] ==> StartsWith(r, parts[0])
    ensures parts != [] ==> |parts[|parts| - 1]| <= |r| && r[|r| - |parts[|parts| - 1]|..] == parts[|parts| - 1]
    ensures |parts| >= 2 ==> OccursAt(r, sep, |parts[0]|)
  {
    if parts == [] then []
    else if |parts| == 1 then parts[0]
    else
      var rest := Join(parts[1..], sep);
      assert parts[1..][|parts| - 2] == parts[|parts| - 1];
      parts[0] + sep + rest
  }

  /** With a non-empty separator, a join is empty only for no parts or a single empty part. */
  lemma JoinIsEmpty(parts: seq<string>, sep: string)
    requires sep != []
    ensures Join(parts, sep) == [] <==> parts == [] || parts == [[]]
  {
    if |parts| >= 2 {
      assert |Join(parts, sep)| >= |sep|;
    } else if |parts| == 1 {
      assert parts == [parts[0]];
    }
  }

  /** `s.startsWith(prefix)` */
  predicate StartsWith(s: string, prefix: string) {
    |prefix| <= |s| && s[..|prefix|] == prefix
  }

  predicate OccursAt(s: string, sub: string, i: int) {
    0 <= i <= |s| - |sub| && s[i..i + |sub|] == sub
  }

  /** `s.includes(sub)` */
  predicate Contains(s: string, sub: string)
    decreases |s|
  {
    StartsWith(s, sub) || (|s| > 0 && Contains(s[1..], sub))
  }

  /** `s.includes(sub)` holds exactly when `sub` occurs at some position of `s`. */
  lemma {:induction false} ContainsIff(s: string, sub: string)
    ensures Contains(s, sub) <==> exists i :: OccursAt(s, sub, i)
    decreases |s|
  {
    if StartsWith(s, sub) {
      assert OccursAt(s, sub, 0);
    } else if |s| > 0 {
      ContainsIff(s[1..], sub);
      if Contains(s[1..], sub) {
        var i :| OccursAt(s[1..], sub, i);
        assert s[1..][i..i + |sub|] == s[i + 1..i + 1 + |sub|];
        assert OccursAt(s, sub, i + 1);
      }
      if i :| OccursAt(s, sub, i) {
        assert i != 0;
        assert s[1..][i - 1..i - 1 + |sub|] == s[i..i + |sub|];
        assert OccursAt(s[1..], sub, i - 1);
      }
    }
  }

  lemma ContainsWhereOccurs(s: string, sub: string, i: int)
    requires OccursAt(s, sub, i)
    ensures Contains(s, sub)
  {
    ContainsIff(s, sub);
  }

  /** Every occurrence of `from` replaced by `to` (`s.replace(/from/g, to)` for one character). */
  function ReplaceChar(s: string, from: char, to: char): (r: string)
    ensures |r| == |s|
    ensures forall i :: 0 <= i < |s| ==> r[i] == if s[i] == from then to else s[i]
  {
    if s == [] then [] else [if s[0] == from then to else s[0]] + ReplaceChar(s[1..], from, to)
  }

  function ToLowerAsciiChar(c: char): char {
    if 'A' <= c <= 'Z' then (c as int - 'A' as int + 'a' as int) as char else c
  }

  /** `String.prototype.toLowerCase` restricted to ASCII letters. */
  function ToLowerAscii(s: string): (r: string)
    ensures |r| == |s|
    ensures forall i :: 0 <= i < |s| ==> r[i] == ToLowerAsciiChar(s[i])
  {
    if s == [] then [] else [ToLowerAsciiChar(s[0])] + ToLowerAscii(s[1..])
  }
}

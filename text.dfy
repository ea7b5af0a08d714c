/**
 * The JavaScript string operations the handlers and pages rely on:
 * `trim`, ASCII case mapping, `includes`/SQL `contains`, `split(c)[0]`,
 * number-to-text conversion in template literals, and `parseInt`.
 */
module Text {
  import opened Wrappers

  /** JavaScript's WhiteSpace and LineTerminator code points: what `trim`
      removes, what `\s` matches in a regular expression, and what `parseInt`
      skips before the number. */
  predicate IsSpace(c: char) {
    c == ' ' || c == '\t' || c == '\n' || c == '\r' || c == '\U{B}' || c == '\U{C}'
    || c == '\U{A0}' || c == '\U{1680}' || ('\U{2000}' <= c <= '\U{200A}')
    || c == '\U{2028}' || c == '\U{2029}' || c == '\U{202F}' || c == '\U{205F}'
    || c == '\U{3000}' || c == '\U{FEFF}'
  }

  predicate NoSpace(s: string) {
    forall k | 0 <= k < |s| :: !IsSpace(s[k])
  }

  /** `s.trimStart()`: a suffix of `s` whose dropped prefix is all white space. */
  function TrimStart(s: string): (r: string)
    ensures |r| <= |s| && r == s[|s| - |r|..]
    ensures r != [] ==> !IsSpace(r[0])
    ensures forall k | 0 <= k < |s| - |r| :: IsSpace(s[k])
  {
    if s != [] && IsSpace(s[0]) then TrimStart(s[1..]) else s
  }

  /** `s.trimEnd()`: a prefix of `s` whose dropped suffix is all white space. */
  function TrimEnd(s: string): (r: string)
    ensures |r| <= |s| && r == s[..|r|]
    ensures r != [] ==> !IsSpace(r[|r| - 1])
    ensures forall k | |r| <= k < |s| :: IsSpace(s[k])
  {
    if s != [] && IsSpace(s[|s| - 1]) then TrimEnd(s[..|s| - 1]) else s
  }

  /** `s.trim()`: empty exactly when `s` is all white space. */
  function Trim(s: string): (r: string)
    ensures |r| <= |s|
    ensures r == [] <==> forall k | 0 <= k < |s| :: IsSpace(s[k])
    ensures r != [] ==> !IsSpace(r[0]) && !IsSpace(r[|r| - 1])
  {
    var t := TrimStart(s);
    var r := TrimEnd(t);
    r
  }

  /** A string without white space is its own trim. */
  lemma {:induction false} TrimNoSpace(s: string)
    requires NoSpace(s)
    ensures Trim(s) == s
  {
    if s != [] {
      assert !IsSpace(s[0]);
      assert !IsSpace(s[|s| - 1]);
    }
  }

  function UpperChar(c: char): char {
    if 'a' <= c <= 'z' then (c as int - 'a' as int + 'A' as int) as char else c
  }

  function LowerChar(c: char): char {
    if 'A' <= c <= 'Z' then (c as int - 'A' as int + 'a' as int) as char else c
  }

  /** `s.toUpperCase()` on the ASCII letters; every other character is kept. */
  function ToUpper(s: string): (r: string)
    ensures |r| == |s| && forall k | 0 <= k < |s| :: r[k] == UpperChar(s[k])
  {
    seq(|s|, k requires 0 <= k < |s| => UpperChar(s[k]))
  }

  /** `s.toLowerCase()` on the ASCII letters; every other character is kept. */
  function ToLower(s: string): (r: string)
    ensures |r| == |s| && forall k | 0 <= k < |s| :: r[k] == LowerChar(s[k])
  {
    seq(|s|, k requires 0 <= k < |s| => LowerChar(s[k]))
  }

  /** Upper-casing forgets whatever case the letters had. */
  lemma UpperOfLower(s: string)
    ensures ToUpper(ToLower(s)) == ToUpper(s)
  {
  }

  /** A string without lower-case ASCII letters is its own upper case. */
  lemma UpperOfUpper(s: string)
    requires forall k | 0 <= k < |s| :: !('a' <= s[k] <= 'z')
    ensures ToUpper(s) == s
  {
  }

  /** `s.includes(sub)`, and the store's `contains` filter: `sub` occurs at some position of `s`. */
  function Contains(s: string, sub: string): (r: bool)
    ensures r <==> exists i | 0 <= i <= |s| :: sub <= s[i..]
  {
    if sub <= s then
      assert s[0..] == s;
      true
    else if s == [] then false
    else
      var r := Contains(s[1..], sub);
      assert r ==> exists i | 0 <= i <= |s| :: sub <= s[i..] by {
        if r {
          var i :| 0 <= i <= |s[1..]| && sub <= s[1..][i..];
          assert s[1..][i..] == s[i + 1..];
        }
      }
      assert (exists i | 0 <= i <= |s| :: sub <= s[i..]) ==> r by {
        if exists i | 0 <= i <= |s| :: sub <= s[i..] {
          var i :| 0 <= i <= |s| && sub <= s[i..];
          assert i != 0;
          assert s[1..][i - 1..] == s[i..];
        }
      }
      r
  }

  /** `s.split(c)[0]`: the text before the first `c`, or all of `s` when there is none. */
  function PrefixBefore(s: string, c: char): (r: string)
    ensures r <= s && c !in r
    ensures |r| < |s| ==> s[|r|] == c
  {
    if s == [] || s[0] == c then [] else [s[0]] + PrefixBefore(s[1..], c)
  }

  /** The text before the first `c` of `a + [c] + b` is `a` when `a` has no `c`. */
  lemma {:induction false} PrefixBeforeAppend(a: string, c: char, b: string)
    requires c !in a
    ensures PrefixBefore(a + [c] + b, c) == a
  {
    if a != [] {
      assert (a + [c] + b)[1..] == a[1..] + [c] + b;
      PrefixBeforeAppend(a[1..], c, b);
    }
  }

  /** The text before the first `c` of a string without `c` is all of it. */
  lemma {:induction false} PrefixBeforeAbsent(a: string, c: char)
    requires c !in a
    ensures PrefixBefore(a, c) == a
  {
    if a != [] {
      PrefixBeforeAbsent(a[1..], c);
    }
  }

  /** The text after the first `c`, when `s` contains one. */
  function AfterFirst(s: string, c: char): (r: Option<string>)
    ensures r.None? <==> c !in s
    ensures r.Some? ==> s == PrefixBefore(s, c) + [c] + r.value
  {
    var p := PrefixBefore(s, c);
    if |p| == |s| then
      assert p == s;
      None
    else
      assert s == p + [c] + s[|p| + 1..];
      Some(s[|p| + 1..])
  }

  /** `s.length`: JavaScript counts UTF-16 code units, so a character above
      U+FFFF (a surrogate pair) counts twice. */
  function Utf16Length(s: string): (n: nat)
    ensures |s| <= n <= 2 * |s|
    ensures n == 0 <==> s == []
  {
    if s == [] then 0
    else (if s[0] > '\U{FFFF}' then 2 else 1) + Utf16Length(s[1..])
  }

  /** The length of a concatenation is the sum of the lengths, so each
      character adds one, or two when it lies above U+FFFF. */
  lemma {:induction false} Utf16LengthAppend(a: string, b: string)
    ensures Utf16Length(a + b) == Utf16Length(a) + Utf16Length(b)
  {
    if a == [] {
      assert a + b == b;
    } else {
      assert (a + b)[1..] == a[1..] + b;
      Utf16LengthAppend(a[1..], b);
    }
  }

  /** Text within the Basic Multilingual Plane has as many code units as
      characters. */
  lemma {:induction false} Utf16LengthInBmp(s: string)
    requires forall k | 0 <= k < |s| :: s[k] <= '\U{FFFF}'
    ensures Utf16Length(s) == |s|
  {
    if s != [] {
      assert forall k | 0 <= k < |s[1..]| :: s[1..][k] == s[k + 1];
      Utf16LengthInBmp(s[1..]);
    }
  }

  /** Text made only of characters above U+FFFF has twice as many code units
      as characters. */
  lemma {:induction false} Utf16LengthAstral(s: string)
    requires forall k | 0 <= k < |s| :: s[k] > '\U{FFFF}'
    ensures Utf16Length(s) == 2 * |s|
  {
    if s != [] {
      assert forall k | 0 <= k < |s[1..]| :: s[1..][k] == s[k + 1];
      Utf16LengthAstral(s[1..]);
    }
  }

  predicate IsDigit(c: char) { '0' <= c <= '9' }

  predicate AllDigits(s: string) {
    forall k | 0 <= k < |s| :: IsDigit(s[k])
  }

  function DigitChar(d: nat): (c: char)
    requires d < 10
    ensures IsDigit(c) && DigitValue(c, 10) == d
  {
    "0123456789"[d]
  }

  /** The value of `c` as a digit in base `radix` (10 or 16), or `radix` itself when it is not one. */
  function DigitValue(c: char, radix: nat): (v: nat)
    ensures v <= radix
  {
    var v :=
      if '0' <= c <= '9' then c as int - '0' as int
      else if 'a' <= c <= 'f' then c as int - 'a' as int + 10
      else if 'A' <= c <= 'F' then c as int - 'A' as int + 10
      else radix;
    if v < radix then v else radix
  }

  predicate IsRadixDigit(c: char, radix: nat) { DigitValue(c, radix) < radix }

  lemma ProductNat(a: nat, b: nat)
    ensures a * b >= 0
  {
  }

  /** The value of a string of base-`radix` digits, most significant first. */
  function DigitsValue(ds: string, radix: nat): nat
    requires forall k | 0 <= k < |ds| :: IsRadixDigit(ds[k], radix)
  {
    if ds == [] then 0
    else
      var init := ds[..|ds| - 1];
      assert forall k | 0 <= k < |init| :: init[k] == ds[k];
      var high := DigitsValue(init, radix);
      ProductNat(high, radix);
      high * radix + DigitValue(ds[|ds| - 1], radix)
  }

  /** The longest prefix of `s` made of base-`radix` digits. */
  function LeadingDigits(s: string, radix: nat): (r: string)
    ensures r <= s
    ensures forall k | 0 <= k < |r| :: IsRadixDigit(r[k], radix)
    ensures |r| < |s| ==> !IsRadixDigit(s[|r|], radix)
  {
    if s == [] || !IsRadixDigit(s[0], radix) then [] else [s[0]] + LeadingDigits(s[1..], radix)
  }

  /** `String(n)` for a natural number: its decimal digits, without leading zeros. */
  function NatToString(n: nat): (r: string)
    ensures |r| >= 1 && AllDigits(r)
    ensures r[0] == '0' ==> n == 0 && r == "0"
  {
    if n < 10 then [DigitChar(n)] else NatToString(n / 10) + [DigitChar(n % 10)]
  }

  /** Decimal digits contain no dash and no slash. */
  lemma DigitsHaveNoSeparator(t: string)
    requires AllDigits(t)
    ensures '-' !in t && '/' !in t
  {
  }

  /** `String(i)` for an integer: a minus sign before the digits when negative. */
  function IntToString(i: int): (r: string)
    ensures r != []
  {
    if i < 0 then "-" + NatToString(-i) else NatToString(i)
  }

  /** The digits after an optional sign, as `parseInt` reads them: hexadecimal
      after `0x`/`0X`, decimal otherwise, up to the first non-digit. */
  function ParseUnsigned(u: string): (r: Option<nat>)
    ensures r.Some? ==> u != [] && IsRadixDigit(u[0], 16)
  {
    var hex := |u| >= 2 && u[0] == '0' && (u[1] == 'x' || u[1] == 'X');
    var radix := if hex then 16 else 10;
    var z := LeadingDigits(if hex then u[2..] else u, radix);
    if z == [] then None else Some(DigitsValue(z, radix))
  }

  /** `parseInt(s)` without a radix: skip leading white space, then read
      what `ParseSigned` reads. `None` is NaN. */
  function ParseInt(s: string): (r: Option<int>)
  {
    ParseSigned(TrimStart(s))
  }

  /** An optional sign, then the digits `ParseUnsigned` reads. */
  function ParseSigned(t: string): (r: Option<int>)
  {
    var negative := t != [] && t[0] == '-';
    var u := if t != [] && (t[0] == '-' || t[0] == '+') then t[1..] else t;
    match ParseUnsigned(u)
    case None => None
    case Some(v) =>
      var n: int := v;
      Some(if negative then -n else n)
  }

  lemma {:induction false} LeadingDigitsOfDigits(s: string)
    requires AllDigits(s)
    ensures LeadingDigits(s, 10) == s
  {
    if s != [] {
      assert IsRadixDigit(s[0], 10);
      LeadingDigitsOfDigits(s[1..]);
    }
  }

  lemma {:induction false} NatToStringValue(n: nat)
    ensures forall k | 0 <= k < |NatToString(n)| :: IsRadixDigit(NatToString(n)[k], 10)
    ensures DigitsValue(NatToString(n), 10) == n
  {
    var r := NatToString(n);
    if n >= 10 {
      NatToStringValue(n / 10);
      var p := NatToString(n / 10);
      assert r == p + [DigitChar(n % 10)];
      assert r[..|r| - 1] == p;
    }
  }

  lemma {:induction false} ParseUnsignedDigits(d: string)
    requires AllDigits(d) && d != []
    ensures forall k | 0 <= k < |d| :: IsRadixDigit(d[k], 10)
    ensures ParseUnsigned(d) == Some(DigitsValue(d, 10))
  {
    assert !(|d| >= 2 && d[0] == '0' && (d[1] == 'x' || d[1] == 'X')) by {
      if |d| >= 2 { assert IsDigit(d[1]); }
    }
    LeadingDigitsOfDigits(d);
  }

  /** Text that does not start with white space is parsed as it stands. */
  lemma {:induction false} ParseUntrimmed(s: string)
    requires s != [] && (s[0] == '-' || IsDigit(s[0]))
    ensures ParseInt(s) == ParseSigned(s)
  {
    assert TrimStart(s) == s;
  }

  /** Without a sign, `ParseSigned` reads what `ParseUnsigned` reads. */
  lemma {:induction false} SignedUnsigned(d: string)
    requires d != [] && IsDigit(d[0])
    ensures ParseSigned(d) == ParseUnsigned(d)
  {
  }

  /** After a minus sign, `parseInt` negates what `ParseUnsigned` reads. */
  lemma {:induction false} ParseMinus(s: string, d: string, v: nat)
    requires s == "-" + d && ParseUnsigned(d) == Some(v)
    ensures ParseInt(s) == Some(-(v as int))
  {
    assert s[0] == '-' && s[1..] == d;
    assert ParseSigned(s) == Some(-(v as int));
    ParseUntrimmed(s);
  }

  /** The unsigned reading of `String(n)` is `n`. */
  lemma {:induction false} ParseUnsignedNatToString(n: nat)
    ensures ParseUnsigned(NatToString(n)) == Some(n)
  {
    ParseUnsignedDigits(NatToString(n));
    NatToStringValue(n);
  }

  /** Reading back what `String(n)` wrote gives `n`. */
  lemma {:induction false} ParseNatToString(n: nat)
    ensures ParseInt(NatToString(n)) == Some(n)
  {
    var d := NatToString(n);
    ParseUnsignedNatToString(n);
    assert IsDigit(d[0]);
    SignedUnsigned(d);
    ParseUntrimmed(d);
  }

  lemma {:induction false} ParseNegativeToString(i: int)
    requires i < 0
    ensures ParseInt(IntToString(i)) == Some(i)
  {
    var n: nat := -i;
    var d := NatToString(n);
    var s := IntToString(i);
    assert s == "-" + d;
    ParseUnsignedNatToString(n);
    ParseMinus(s, d, n);
  }

  /** Reading back what `String(i)` wrote gives `i`, for negative numbers too. */
  lemma {:induction false} ParseIntToString(i: int)
    ensures ParseInt(IntToString(i)) == Some(i)
  {
    if i < 0 {
      ParseNegativeToString(i);
    } else {
      ParseNatToString(i);
    }
  }

  /** `parseInt` on text that starts with neither white space, a sign nor a digit is NaN. */
  lemma ParseNonNumeric(s: string)
    requires s != [] && !IsSpace(s[0]) && s[0] != '-' && s[0] != '+' && !IsDigit(s[0])
    ensures ParseInt(s).None?
  {
    assert TrimStart(s) == s;
    assert !IsRadixDigit(s[0], 10);
  }

  /** Two numbers with the same decimal text are the same number. */
  lemma NatToStringInjective(m: nat, n: nat)
    requires NatToString(m) == NatToString(n)
    ensures m == n
  {
    ParseNatToString(m);
    ParseNatToString(n);
  }
}

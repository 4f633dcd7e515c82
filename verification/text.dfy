/** The string operations the front end relies on: number-to-string
    coercion of integer ids, `parseInt`, `join`/`split` with a one-character
    separator, and JavaScript's relational order on strings. */
module Text {
  import opened Collections

  predicate IsDigit(c: char) {
    '0' <= c <= '9'
  }

  predicate AllDigits(s: string) {
    forall i :: 0 <= i < |s| ==> IsDigit(s[i])
  }

  function DigitChar(d: nat): (c: char)
    requires d < 10
    ensures IsDigit(c)
  {
    (48 + d) as char
  }

  function DigitValue(c: char): (d: nat)
    requires IsDigit(c)
    ensures d < 10
  {
    c as int - 48
  }

  /** `String(n)` for a non-negative integer: its shortest decimal form. */
  function NatToString(n: nat): (r: string)
    ensures |r| > 0 && AllDigits(r)
    ensures r[0] == '0' ==> n == 0
  {
    if n < 10 then [DigitChar(n)]
    else NatToString(n / 10) + [DigitChar(n % 10)]
  }

  /** The value of a string of decimal digits, read left to right. */
  function DigitsValue(s: string): nat
    requires AllDigits(s)
  {
    if |s| == 0 then 0
    else DigitsValue(s[..|s| - 1]) * 10 + DigitValue(s[|s| - 1])
  }

  lemma {:induction false} DigitsValueOfNatToString(n: nat)
    ensures DigitsValue(NatToString(n)) == n
  {
    if n >= 10 {
      var s := NatToString(n);
      assert s[..|s| - 1] == NatToString(n / 10);
      DigitsValueOfNatToString(n / 10);
    }
  }

  /** Distinct ids never share a property key. */
  lemma NatToStringInjective(a: nat, b: nat)
    ensures NatToString(a) == NatToString(b) ==> a == b
  {
    DigitsValueOfNatToString(a);
    DigitsValueOfNatToString(b);
  }

  /** The longest prefix of `s` made of decimal digits. */
  function LeadingDigits(s: string): (r: string)
    ensures AllDigits(r) && r <= s
    ensures |r| < |s| ==> !IsDigit(s[|r|])
  {
    if |s| > 0 && IsDigit(s[0]) then [s[0]] + LeadingDigits(s[1..]) else ""
  }

  lemma {:induction false} LeadingDigitsOfDigitsThen(a: string, t: string)
    requires AllDigits(a)
    requires |t| == 0 || !IsDigit(t[0])
    ensures LeadingDigits(a + t) == a
  {
    if |a| > 0 {
      assert (a + t)[1..] == a[1..] + t;
      LeadingDigitsOfDigitsThen(a[1..], t);
    }
  }

  /** The white-space characters `parseInt` skips (the ASCII ones). */
  predicate IsSpace(c: char) {
    c == ' ' || c == '\t' || c == '\n' || c == '\r' || c == '\U{B}' || c == '\U{C}'
  }

  function TrimStart(s: string): (r: string)
    ensures |r| <= |s|
    ensures |r| == 0 || !IsSpace(r[0])
  {
    if |s| > 0 && IsSpace(s[0]) then TrimStart(s[1..]) else s
  }

  /** The value of the leading digit run of `u`; `None` when there is none. */
  function ParseDigits(u: string): Option<nat> {
    var d := LeadingDigits(u);
    if |d| == 0 then None else Some(DigitsValue(d))
  }

  predicate IsHexDigit(c: char) {
    IsDigit(c) || 'a' <= c <= 'f' || 'A' <= c <= 'F'
  }

  predicate AllHexDigits(s: string) {
    forall i :: 0 <= i < |s| ==> IsHexDigit(s[i])
  }

  function HexDigitValue(c: char): (d: nat)
    requires IsHexDigit(c)
    ensures d < 16
  {
    if IsDigit(c) then DigitValue(c)
    else if 'a' <= c <= 'f' then c as int - 87
    else c as int - 55
  }

  /** The value of a string of hexadecimal digits, read left to right. */
  function HexValue(s: string): nat
    requires AllHexDigits(s)
  {
    if |s| == 0 then 0
    else HexValue(s[..|s| - 1]) * 16 + HexDigitValue(s[|s| - 1])
  }

  /** The longest prefix of `s` made of hexadecimal digits. */
  function LeadingHexDigits(s: string): (r: string)
    ensures AllHexDigits(r) && r <= s
    ensures |r| < |s| ==> !IsHexDigit(s[|r|])
  {
    if |s| > 0 && IsHexDigit(s[0]) then [s[0]] + LeadingHexDigits(s[1..]) else ""
  }

  /** `0x` or `0X`: without a radix argument `parseInt` reads what follows
      in radix 16. */
  predicate HasHexPrefix(u: string) {
    |u| >= 2 && u[0] == '0' && (u[1] == 'x' || u[1] == 'X')
  }

  /** The unsigned part of `parseInt(u)` with no radix: a hexadecimal
      digit run after a `0x` prefix, otherwise a decimal digit run. */
  function ParseMagnitude(u: string): (r: Option<nat>)
    ensures !HasHexPrefix(u) ==> r == ParseDigits(u)
    ensures HasHexPrefix(u) ==> (r.Some? <==> |u| > 2 && IsHexDigit(u[2]))
  {
    if HasHexPrefix(u) then
      var h := LeadingHexDigits(u[2..]);
      if |h| == 0 then None else Some(HexValue(h))
    else ParseDigits(u)
  }

  /** `parseInt(s)` with no radix argument: optional white space, an
      optional sign, then a `0x`-prefixed hexadecimal run or a decimal
      run; `None` stands for `NaN`. */
  function ParseInt(s: string): Option<int> {
    var t := TrimStart(s);
    if |t| > 0 && t[0] == '-' then
      match ParseMagnitude(t[1..])
      case None => None
      case Some(v) => Some(-(v as int))
    else if |t| > 0 && t[0] == '+' then
      match ParseMagnitude(t[1..])
      case None => None
      case Some(v) => Some(v as int)
    else
      match ParseMagnitude(t)
      case None => None
      case Some(v) => Some(v as int)
  }

  /** `parseInt` of a string that starts with a digit, and not with `0x`,
      reads its leading decimal digit run. */
  lemma ParseIntUnsigned(s: string)
    requires |s| > 0 && IsDigit(s[0])
    requires !HasHexPrefix(s)
    ensures ParseInt(s) == ParseDigits(s)
  {
    assert TrimStart(s) == s;
  }

  /** `parseInt` of `0x` followed by no hexadecimal digit is `NaN`, and of
      `0x` and one hexadecimal digit is that digit's value. */
  lemma ParseIntHex(c: char)
    ensures ParseInt("0x") == None
    ensures IsHexDigit(c) ==> ParseInt("0x" + [c]) == Some(HexDigitValue(c) as int)
  {
    assert TrimStart("0x") == "0x";
    var s := "0x" + [c];
    assert TrimStart(s) == s;
    if IsHexDigit(c) {
      assert s[2..] == [c];
      assert LeadingHexDigits([c]) == [c];
      assert HexValue([c]) == HexValue([]) * 16 + HexDigitValue(c);
    }
  }

  lemma {:induction false} LeadingHexDigitsOfHexThen(a: string, t: string)
    requires AllHexDigits(a)
    requires |t| == 0 || !IsHexDigit(t[0])
    ensures LeadingHexDigits(a + t) == a
  {
    if |a| > 0 {
      assert (a + t)[1..] == a[1..] + t;
      LeadingHexDigitsOfHexThen(a[1..], t);
    }
  }

  /** `parseInt` of `0x` (or `0X`), a hexadecimal run and text that does
      not continue the run reads the run in radix 16:
      `parseInt("0x1Fg") == 31`. */
  lemma ParseIntOfHexThen(x: char, h: string, suffix: string)
    requires x == 'x' || x == 'X'
    requires |h| > 0 && AllHexDigits(h)
    requires |suffix| == 0 || !IsHexDigit(suffix[0])
    ensures ParseInt(['0', x] + h + suffix) == Some(HexValue(h) as int)
  {
    var t := h + suffix;
    var s := ['0', x] + t;
    assert ['0', x] + h + suffix == s;
    assert s[0] == '0' && s[1] == x;
    assert TrimStart(s) == s by {
      assert !IsSpace(s[0]);
    }
    assert HasHexPrefix(s);
    assert LeadingHexDigits(s[2..]) == h by {
      assert s[2..] == t;
      LeadingHexDigitsOfHexThen(h, suffix);
    }
    assert ParseMagnitude(s) == Some(HexValue(h));
  }

  /** The lower-case hexadecimal digit of `d`. */
  function HexChar(d: nat): (c: char)
    requires d < 16
    ensures IsHexDigit(c) && HexDigitValue(c) == d
  {
    if d < 10 then DigitChar(d) else (87 + d) as char
  }

  /** `n.toString(16)`: the shortest lower-case hexadecimal form of `n`. */
  function ToHex(n: nat): (r: string)
    ensures |r| > 0 && AllHexDigits(r)
  {
    if n < 16 then [HexChar(n)]
    else ToHex(n / 16) + [HexChar(n % 16)]
  }

  lemma {:induction false} HexValueOfToHex(n: nat)
    ensures HexValue(ToHex(n)) == n
  {
    if n >= 16 {
      var s := ToHex(n);
      assert s[..|s| - 1] == ToHex(n / 16);
      HexValueOfToHex(n / 16);
    } else {
      assert HexValue(ToHex(n)) == HexValue([]) * 16 + HexDigitValue(HexChar(n));
    }
  }

  /** `parseInt` reads back every number written as `0x` and its
      hexadecimal form. */
  lemma ParseIntOfToHex(n: nat, x: char)
    requires x == 'x' || x == 'X'
    ensures ParseInt(['0', x] + ToHex(n)) == Some(n as int)
  {
    ParseIntOfHexThen(x, ToHex(n), "");
    assert ['0', x] + ToHex(n) + "" == ['0', x] + ToHex(n);
    HexValueOfToHex(n);
  }

  /** `parseInt` of a digit run followed by a non-digit reads the run,
      unless the two together begin with `0x`. */
  lemma ParseIntOfDigitsThen(digits: string, suffix: string)
    requires |digits| > 0 && AllDigits(digits)
    requires |suffix| == 0 || !IsDigit(suffix[0])
    requires !HasHexPrefix(digits + suffix)
    ensures ParseInt(digits + suffix) == Some(DigitsValue(digits))
  {
    var s := digits + suffix;
    assert IsDigit(s[0]) by {
      assert s[0] == digits[0];
    }
    ParseIntUnsigned(s);
    assert LeadingDigits(s) == digits by {
      LeadingDigitsOfDigitsThen(digits, suffix);
    }
  }

  /** `parseInt` reads back a printed id, whatever non-digit text follows
      it (`parseInt("5%") == 5`), except that `0` followed by `x` or `X`
      starts a hexadecimal number. */
  lemma ParseIntOfNatToString(n: nat, suffix: string)
    requires |suffix| == 0 || !IsDigit(suffix[0])
    requires n != 0 || |suffix| == 0 || (suffix[0] != 'x' && suffix[0] != 'X')
    ensures ParseInt(NatToString(n) + suffix) == Some(n)
  {
    var d := NatToString(n);
    assert !HasHexPrefix(d + suffix) by {
      if |d| == 1 {
        assert (d + suffix)[0] == d[0];
        if n != 0 {
          assert d[0] != '0';
        } else if |suffix| > 0 {
          assert (d + suffix)[1] == suffix[0];
        }
      } else {
        assert (d + suffix)[1] == d[1];
      }
    }
    ParseIntOfDigitsThen(d, suffix);
    DigitsValueOfNatToString(n);
  }

  /** `Array.prototype.join(sep)` with a one-character separator. */
  function Join(xs: seq<string>, sep: char): string {
    if |xs| == 0 then ""
    else if |xs| == 1 then xs[0]
    else xs[0] + [sep] + Join(xs[1..], sep)
  }

  /** `String.prototype.split(sep)` with a one-character separator; like
      JavaScript it yields `[""]` for the empty string. */
  function Split(s: string, sep: char): (r: seq<string>)
    ensures |r| > 0
  {
    if |s| == 0 then [""]
    else
      var rest := Split(s[1..], sep);
      if s[0] == sep then [""] + rest else [[s[0]] + rest[0]] + rest[1..]
  }

  lemma {:induction false} SplitWithoutSeparator(a: string, sep: char)
    requires sep !in a
    ensures Split(a, sep) == [a]
  {
    if |a| > 0 {
      SplitWithoutSeparator(a[1..], sep);
      assert [a[0]] + a[1..] == a;
    }
  }

  lemma {:induction false} SplitAtSeparator(a: string, b: string, sep: char)
    requires sep !in a
    ensures Split(a + [sep] + b, sep) == [a] + Split(b, sep)
  {
    var s := a + [sep] + b;
    if |a| == 0 {
      assert s[1..] == b;
    } else {
      assert s[1..] == a[1..] + [sep] + b;
      SplitAtSeparator(a[1..], b, sep);
      assert [a[0]] + a[1..] == a;
    }
  }

  /** Splitting a joined list gives the list back when no element holds the
      separator. */
  lemma {:induction false} SplitJoin(xs: seq<string>, sep: char)
    requires |xs| > 0
    requires forall i :: 0 <= i < |xs| ==> sep !in xs[i]
    ensures Split(Join(xs, sep), sep) == xs
  {
    if |xs| == 1 {
      SplitWithoutSeparator(xs[0], sep);
    } else {
      SplitJoin(xs[1..], sep);
      SplitAtSeparator(xs[0], Join(xs[1..], sep), sep);
    }
  }

  /** JavaScript's `<=` on strings: lexicographic order of characters. */
  predicate StrLe(a: string, b: string) {
    |a| == 0 || (|b| > 0 && (a[0] < b[0] || (a[0] == b[0] && StrLe(a[1..], b[1..]))))
  }

  lemma {:induction false} StrLeTotal(a: string, b: string)
    ensures StrLe(a, b) || StrLe(b, a)
  {
    if |a| > 0 && |b| > 0 && a[0] == b[0] {
      StrLeTotal(a[1..], b[1..]);
    }
  }

  lemma {:induction false} StrLeTransitive(a: string, b: string, c: string)
    requires StrLe(a, b) && StrLe(b, c)
    ensures StrLe(a, c)
  {
    if |a| > 0 && a[0] == b[0] && b[0] == c[0] {
      StrLeTransitive(a[1..], b[1..], c[1..]);
    }
  }

  lemma {:induction false} StrLeAntisymmetric(a: string, b: string)
    requires StrLe(a, b) && StrLe(b, a)
    ensures a == b
  {
    if |a| > 0 {
      StrLeAntisymmetric(a[1..], b[1..]);
      assert a == [a[0]] + a[1..] && b == [b[0]] + b[1..];
    }
  }
}

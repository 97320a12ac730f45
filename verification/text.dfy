/** String primitives the JavaScript code relies on, restricted to ASCII:
    `toLowerCase`, the `\s` class and `trim`, `includes`, `String(n)` for
    integers, `padStart`, `split(':')[0]` and `parseInt`. */
module Text {
  import opened Wrappers

  // ---------------------------------------------------------------- characters

  predicate IsDigit(c: char) { '0' <= c <= '9' }

  predicate IsUpper(c: char) { 'A' <= c <= 'Z' }

  predicate IsLowerLetter(c: char) { 'a' <= c <= 'z' }

  predicate IsAlnum(c: char) { IsDigit(c) || IsUpper(c) || IsLowerLetter(c) }

  /** The ASCII members of the regular-expression class `\s`: space, tab,
      line feed, vertical tab, form feed and carriage return. */
  predicate IsSpace(c: char) { c == ' ' || 9 <= c as int <= 13 }

  function LowerChar(c: char): char {
    if IsUpper(c) then (c as int + 32) as char else c
  }

  /** `toLowerCase`, ASCII letters only. */
  function Lower(s: string): (r: string)
    ensures |r| == |s|
    ensures forall i :: 0 <= i < |s| ==> r[i] == LowerChar(s[i])
  {
    seq(|s|, i requires 0 <= i < |s| => LowerChar(s[i]))
  }

  lemma LowerIdempotent(s: string)
    ensures Lower(Lower(s)) == Lower(s)
  {
  }

  // ---------------------------------------------------------------- trimming

  predicate AllSpace(s: string) {
    forall i :: 0 <= i < |s| ==> IsSpace(s[i])
  }

  function TrimStart(s: string): string
    decreases |s|
  {
    if |s| > 0 && IsSpace(s[0]) then TrimStart(s[1..]) else s
  }

  function TrimEnd(s: string): string
    decreases |s|
  {
    if |s| > 0 && IsSpace(s[|s| - 1]) then TrimEnd(s[..|s| - 1]) else s
  }

  /** `String.prototype.trim`. */
  function Trim(s: string): string {
    TrimEnd(TrimStart(s))
  }

  lemma {:induction false} TrimStartEmpty(s: string)
    ensures TrimStart(s) == [] <==> AllSpace(s)
    decreases |s|
  {
    if |s| > 0 && IsSpace(s[0]) {
      TrimStartEmpty(s[1..]);
      assert AllSpace(s) <==> AllSpace(s[1..]) by {
        if AllSpace(s[1..]) {
          forall i | 0 <= i < |s| ensures IsSpace(s[i]) {
            if i > 0 { assert s[i] == s[1..][i - 1]; }
          }
        }
      }
    }
  }

  lemma {:induction false} TrimEndNonEmpty(s: string)
    requires |s| > 0 && !IsSpace(s[0])
    ensures |TrimEnd(s)| > 0
    decreases |s|
  {
    if IsSpace(s[|s| - 1]) {
      TrimEndNonEmpty(s[..|s| - 1]);
    }
  }

  /** A string trims to the empty string exactly when every character is whitespace. */
  lemma {:induction false} TrimEmptyIffBlank(s: string)
    ensures Trim(s) == [] <==> AllSpace(s)
  {
    TrimStartEmpty(s);
    var t := TrimStart(s);
    if t != [] {
      assert !IsSpace(t[0]) by { TrimStartHead(s); }
      TrimEndNonEmpty(t);
    }
  }

  lemma {:induction false} TrimStartHead(s: string)
    requires TrimStart(s) != []
    ensures !IsSpace(TrimStart(s)[0])
    decreases |s|
  {
    if |s| > 0 && IsSpace(s[0]) {
      TrimStartHead(s[1..]);
    }
  }

  // ---------------------------------------------------------------- substring search

  /** `t` occurs in `s` starting at index `i`. */
  predicate OccursAt(s: string, t: string, i: int) {
    0 <= i && i + |t| <= |s| && s[i..i + |t|] == t
  }

  /** `s.includes(t)`; every string includes the empty string. */
  predicate Includes(s: string, t: string) {
    exists i | 0 <= i <= |s| - |t| :: OccursAt(s, t, i)
  }

  lemma IncludesEmpty(s: string)
    ensures Includes(s, [])
  {
    assert OccursAt(s, [], 0);
  }

  // ---------------------------------------------------------------- decimal numerals

  function DigitChar(d: int): (c: char)
    requires 0 <= d <= 9
    ensures IsDigit(c)
  {
    ('0' as int + d) as char
  }

  function DigitValue(c: char): (d: nat)
    requires IsDigit(c)
    ensures d <= 9
  {
    c as int - '0' as int
  }

  predicate AllDigits(s: string) {
    forall i :: 0 <= i < |s| ==> IsDigit(s[i])
  }

  /** `String(n)` for a non-negative integer below 10^21: its decimal numeral. */
  function Decimal(n: nat): (r: string)
    ensures 1 <= |r|
    ensures AllDigits(r)
    decreases n
  {
    if n < 10 then [DigitChar(n)] else Decimal(n / 10) + [DigitChar(n % 10)]
  }

  /** `String(n)` for an integer: a minus sign before the magnitude when negative. */
  function IntString(n: int): string {
    if n < 0 then "-" + Decimal(-n) else Decimal(n)
  }

  /** The value of a numeral (`Number(s)` on a string of digits). */
  function DigitsValue(s: string): nat
    requires AllDigits(s)
    decreases |s|
  {
    if |s| == 0 then 0 else DigitsValue(s[..|s| - 1]) * 10 + DigitValue(s[|s| - 1])
  }

  lemma {:induction false} DecimalLength(n: nat)
    ensures n < 10 ==> |Decimal(n)| == 1
    ensures 10 <= n < 100 ==> |Decimal(n)| == 2
    ensures 100 <= n ==> |Decimal(n)| >= 3
    ensures 100 <= n < 1000 ==> |Decimal(n)| == 3
    ensures 1000 <= n < 10000 ==> |Decimal(n)| == 4
    decreases n
  {
    if n >= 10 {
      DecimalLength(n / 10);
    }
  }

  /** Reading back the numeral of `n` yields `n`. */
  lemma {:induction false} DecimalRoundTrip(n: nat)
    ensures DigitsValue(Decimal(n)) == n
    decreases n
  {
    if n >= 10 {
      DecimalRoundTrip(n / 10);
      var d := Decimal(n);
      assert d[..|d| - 1] == Decimal(n / 10);
    }
  }

  /** The last two characters of the numeral of `n >= 10` read as `n % 100`. */
  lemma {:induction false} DecimalLastTwo(n: nat)
    requires n >= 10
    ensures |Decimal(n)| >= 2
    ensures AllDigits(Decimal(n)[|Decimal(n)| - 2..])
    ensures DigitsValue(Decimal(n)[|Decimal(n)| - 2..]) == n % 100
  {
    var d := Decimal(n);
    var h := Decimal(n / 10);
    assert d == h + [DigitChar(n % 10)];
    var t := d[|d| - 2..];
    assert t == [h[|h| - 1], DigitChar(n % 10)];
    DecimalLastDigit(n / 10);
    TwoDigits(t);
    HundredsSplit(n);
  }

  lemma TwoDigits(t: string)
    requires |t| == 2 && AllDigits(t)
    ensures DigitsValue(t) == DigitValue(t[0]) * 10 + DigitValue(t[1])
  {
    var p := t[..1];
    assert p[..0] == [];
    assert DigitsValue(p) == DigitValue(t[0]);
  }

  lemma HundredsSplit(n: nat)
    ensures (n / 10) % 10 * 10 + n % 10 == n % 100
  {
    var q, r := n / 10, n % 10;
    var a, b := q / 10, q % 10;
    assert n == 100 * a + (10 * b + r);
  }

  lemma {:induction false} DecimalLastDigit(n: nat)
    ensures DigitValue(Decimal(n)[|Decimal(n)| - 1]) == n % 10
  {
  }

  // ---------------------------------------------------------------- padding

  /** `s.padStart(width, fill)`: fill characters in front up to `width`; never truncates. */
  function PadStart(s: string, width: nat, fill: char): (r: string)
    ensures |r| == if |s| >= width then |s| else width
    ensures r[|r| - |s|..] == s
    ensures forall i :: 0 <= i < |r| - |s| ==> r[i] == fill
  {
    if |s| >= width then s else seq(width - |s|, _ => fill) + s
  }

  /** `String(n).padStart(2, '0')`, the field format of every date and time:
      a zero in front of a single digit, any other numeral as it is. */
  function Pad2(n: int): string {
    if 0 <= n < 10 then "0" + Decimal(n) else IntString(n)
  }

  /** `Pad2` is `padStart` to width 2 with `'0'` on the decimal string. */
  lemma Pad2IsPadStart(n: int)
    ensures Pad2(n) == PadStart(IntString(n), 2, '0')
  {
    DecimalLength(if n < 0 then -n else n);
    if 0 <= n < 10 {
      assert PadStart(IntString(n), 2, '0') == ['0'] + Decimal(n);
    }
  }

  /** Two-digit fields: a value in 0..99 renders as two digits that read back as it. */
  lemma Pad2Field(n: int)
    ensures 0 <= n <= 99 ==> |Pad2(n)| == 2 && AllDigits(Pad2(n)) && DigitsValue(Pad2(n)) == n
  {
    if 0 <= n <= 99 {
      DecimalLength(n);
      DecimalRoundTrip(n);
      var p := Pad2(n);
      if n < 10 {
        assert p == ['0'] + Decimal(n);
        assert p[..1] == ['0'];
        assert DigitsValue(p[..1]) == 0 by { assert p[..1][..0] == []; }
      } else {
        assert p == Decimal(n);
      }
    }
  }

  /** Two two-character fields and a third joined by slashes sit at fixed positions. */
  lemma SlashedFields(d: string, m: string, y: string)
    requires |d| == 2 && |m| == 2
    ensures var r := d + "/" + m + "/" + y;
            |r| == 6 + |y| && r[2] == '/' && r[5] == '/' && r[..2] == d && r[3..5] == m && r[6..] == y
  {
    var r := d + "/" + m + "/" + y;
    assert r[..2] == d && r[3..5] == m && r[6..] == y;
  }

  /** A value of 100 or more is rendered in full, never cut to two characters. */
  lemma Pad2Wide(n: int)
    requires n >= 100
    ensures Pad2(n) == Decimal(n)
    ensures |Pad2(n)| >= 3
  {
    DecimalLength(n);
  }

  // ---------------------------------------------------------------- splitting and parseInt

  /** `s.split(':')[0]`: everything before the first colon. */
  function BeforeColon(s: string): (r: string)
    ensures |r| <= |s|
    ensures r == s[..|r|]
    ensures ':' !in r
    decreases |s|
  {
    if |s| == 0 || s[0] == ':' then [] else [s[0]] + BeforeColon(s[1..])
  }

  /** Everything after the first colon (`""` when there is none). */
  function AfterColon(s: string): string
    decreases |s|
  {
    if |s| == 0 then [] else if s[0] == ':' then s[1..] else AfterColon(s[1..])
  }

  lemma {:induction false} SplitAtColon(a: string, b: string)
    requires ':' !in a
    ensures BeforeColon(a + ":" + b) == a
    ensures AfterColon(a + ":" + b) == b
    decreases |a|
  {
    if |a| > 0 {
      assert (a + ":" + b)[1..] == a[1..] + ":" + b;
      SplitAtColon(a[1..], b);
    }
  }

  /** Without a colon, `split(':')[0]` is the whole string. */
  lemma {:induction false} BeforeColonWhole(s: string)
    requires ':' !in s
    ensures BeforeColon(s) == s
    decreases |s|
  {
    if |s| > 0 {
      BeforeColonWhole(s[1..]);
    }
  }

  lemma DigitsHaveNoColon(s: string)
    requires AllDigits(s)
    ensures ':' !in s
  {
  }

  /** The number before the colon of `h:m` is the value of `h`. */
  lemma ParseBeforeColon(h: string, m: string)
    requires |h| > 0 && AllDigits(h)
    ensures ParseInt(BeforeColon(h + ":" + m)) == Some(DigitsValue(h))
  {
    SplitAtColon(h, m);
    ParseIntDigits(h);
  }

  function HexValue(c: char): int {
    if IsDigit(c) then DigitValue(c)
    else if 'a' <= c <= 'f' then c as int - 'a' as int + 10
    else if 'A' <= c <= 'F' then c as int - 'A' as int + 10
    else -1
  }

  /** Length of the longest prefix of digits valid in base `radix` (10 or 16). */
  function DigitRun(s: string, radix: int): (k: nat)
    ensures k <= |s|
    decreases |s|
  {
    if |s| > 0 && 0 <= HexValue(s[0]) < radix then 1 + DigitRun(s[1..], radix) else 0
  }

  function RadixValue(s: string, radix: int): int
    decreases |s|
  {
    if |s| == 0 then 0 else RadixValue(s[..|s| - 1], radix) * radix + HexValue(s[|s| - 1])
  }

  /** `parseInt(s)` with no radix: leading whitespace, a sign, an optional `0x`
      prefix selecting base 16, then the longest run of digits; no digit is
      `NaN`, modelled as `None`. */
  function ParseInt(s: string): Option<int> {
    var t := TrimStart(s);
    var negative := |t| > 0 && t[0] == '-';
    var u := if |t| > 0 && (t[0] == '-' || t[0] == '+') then t[1..] else t;
    var hex := |u| >= 2 && u[0] == '0' && (u[1] == 'x' || u[1] == 'X');
    var radix := if hex then 16 else 10;
    var body := if hex then u[2..] else u;
    var k := DigitRun(body, radix);
    if k == 0 then None
    else if negative then Some(-RadixValue(body[..k], radix))
    else Some(RadixValue(body[..k], radix))
  }

  lemma {:induction false} DigitRunAll(s: string)
    requires AllDigits(s)
    ensures DigitRun(s, 10) == |s|
    decreases |s|
  {
    if |s| > 0 {
      DigitRunAll(s[1..]);
    }
  }

  lemma {:induction false} RadixValueDecimal(s: string)
    requires AllDigits(s)
    ensures RadixValue(s, 10) == DigitsValue(s)
    decreases |s|
  {
    if |s| > 0 {
      RadixValueDecimal(s[..|s| - 1]);
    }
  }

  /** On a non-empty numeral `parseInt` is its value. */
  lemma ParseIntDigits(s: string)
    requires |s| > 0 && AllDigits(s)
    ensures ParseInt(s) == Some(DigitsValue(s))
  {
    assert TrimStart(s) == s;
    DigitRunAll(s);
    RadixValueDecimal(s);
    assert s[..|s|] == s;
  }
}

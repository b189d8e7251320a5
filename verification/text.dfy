/**
 * The JavaScript string and number conversions the screens rely on:
 * `String(n)`, `padStart(2, '0')`, `split(c)`, `Number(s)`, `trim()`,
 * `toLowerCase()` and `includes(...)`, on strings as sequences of characters.
 */
module Text {

  predicate IsDigit(c: char) { '0' <= c <= '9' }

  predicate AllDigits(s: string) { forall i :: 0 <= i < |s| ==> IsDigit(s[i]) }

  function DigitChar(d: nat): (c: char)
    requires d < 10
    ensures IsDigit(c) && c as int - '0' as int == d
  {
    ('0' as int + d) as char
  }

  /** `String(n)` for a non-negative integer: its decimal digits, without leading zeros. */
  function NatStr(n: nat): (s: string)
    ensures 1 <= |s| && AllDigits(s)
    ensures |s| == 1 <==> n < 10
    decreases n
  {
    if n < 10 then [DigitChar(n)] else NatStr(n / 10) + [DigitChar(n % 10)]
  }

  /** `String(i)` for any integer: a minus sign before the digits of a negative number. */
  function IntStr(i: int): (s: string)
    ensures 1 <= |s|
    ensures i >= 0 ==> AllDigits(s)
    ensures i < 0 ==> s[0] == '-'
  {
    if i < 0 then "-" + NatStr(-i) else NatStr(i)
  }

  /** The number a string of decimal digits denotes (the empty string denotes 0). */
  function DigitsValue(s: string): nat
    requires AllDigits(s)
  {
    if s == [] then 0 else DigitsValue(s[..|s| - 1]) * 10 + (s[|s| - 1] as int - '0' as int)
  }

  lemma {:induction false} NatStrValue(n: nat)
    ensures DigitsValue(NatStr(n)) == n
    decreases n
  {
    if n >= 10 {
      NatStrValue(n / 10);
      var s := NatStr(n);
      assert s[..|s| - 1] == NatStr(n / 10);
    }
  }

  function Pow10(n: nat): nat
  {
    if n == 0 then 1 else 10 * Pow10(n - 1)
  }

  /** A string of `n` digits denotes a number below 10^n. */
  lemma {:induction false} DigitsBelow(s: string)
    requires AllDigits(s)
    ensures DigitsValue(s) < Pow10(|s|)
  {
    if s != [] {
      DigitsBelow(s[..|s| - 1]);
    }
  }

  /** Digit strings of one length that denote the same number are the same string. */
  lemma {:induction false} DigitsInjective(x: string, y: string)
    requires AllDigits(x) && AllDigits(y) && |x| == |y| && DigitsValue(x) == DigitsValue(y)
    ensures x == y
  {
    if x != [] {
      var n := |x| - 1;
      LastDigit(DigitsValue(x[..n]), x[n] as int - '0' as int, DigitsValue(y[..n]), y[n] as int - '0' as int);
      DigitsInjective(x[..n], y[..n]);
      assert x == x[..n] + [x[n]] && y == y[..n] + [y[n]];
    }
  }

  lemma LastDigit(p: int, a: int, q: int, b: int)
    requires p * 10 + a == q * 10 + b && 0 <= a < 10 && 0 <= b < 10
    ensures a == b && p == q
  {
  }

  /** `s.padStart(2, '0')`: zeros in front of a string shorter than two characters. */
  function PadStart2(s: string): (r: string)
    ensures |r| == if |s| >= 2 then |s| else 2
    ensures r[|r| - |s|..] == s
    ensures forall i :: 0 <= i < |r| - |s| ==> r[i] == '0'
  {
    if |s| >= 2 then s else seq(2 - |s|, _ => '0') + s
  }

  /** `String(n).padStart(2, '0')`. */
  function Pad2(n: int): string
  {
    PadStart2(IntStr(n))
  }

  lemma Pad2Length(n: int)
    requires 0 <= n < 100
    ensures |Pad2(n)| == 2
  {
    if n >= 10 {
      assert |NatStr(n / 10)| == 1;
    }
  }

  /** Two digits for every number below 100, and they read back as the number. */
  lemma Pad2TwoDigits(n: int)
    requires 0 <= n < 100
    ensures |Pad2(n)| == 2 && AllDigits(Pad2(n)) && DigitsValue(Pad2(n)) == n
  {
    NatStrValue(n);
    var s := NatStr(n);
    if n < 10 {
      assert Pad2(n) == ['0'] + s;
      assert Pad2(n)[..1] == ['0'];
    } else {
      assert |NatStr(n / 10)| == 1;
    }
  }

  lemma Pad2Injective(a: int, b: int)
    requires 0 <= a < 100 && 0 <= b < 100 && Pad2(a) == Pad2(b)
    ensures a == b
  {
    Pad2TwoDigits(a);
    Pad2TwoDigits(b);
  }

  /** `s.split(sep)` for a one-character separator: the pieces between separators, at least one. */
  function Split(s: string, sep: char): (r: seq<string>)
    ensures 1 <= |r|
    ensures |r| > 1 <==> sep in s
    ensures sep !in r[0]
  {
    if s == [] then [""]
    else
      var rest := Split(s[1..], sep);
      if s[0] == sep then [""] + rest else [[s[0]] + rest[0]] + rest[1..]
  }

  /** Splitting at the first separator gives the text before it and the split of the text after it. */
  lemma {:induction false} SplitAtFirst(a: string, sep: char, b: string)
    requires sep !in a
    ensures Split(a + [sep] + b, sep) == [a] + Split(b, sep)
  {
    if a != [] {
      SplitAtFirst(a[1..], sep, b);
      assert (a + [sep] + b)[1..] == a[1..] + [sep] + b;
      assert [a[0]] + a[1..] == a;
    } else {
      assert (a + [sep] + b)[1..] == b;
    }
  }

  /** A string without the separator is its own only piece. */
  lemma {:induction false} SplitWithoutSeparator(a: string, sep: char)
    requires sep !in a
    ensures Split(a, sep) == [a]
  {
    if a != [] {
      SplitWithoutSeparator(a[1..], sep);
      assert [a[0]] + a[1..] == a;
    }
  }

  /** The JavaScript values a time field can hold after `split(':').map(Number)`. */
  datatype JsValue = Num(n: int) | NaN | Undefined

  /**
   * `Number(s)` on the strings the pickers produce: a run of decimal digits is its value
   * and the empty string is 0; every other string is read as NaN.
   */
  function NumberOf(s: string): (v: JsValue)
    ensures v.Num? <==> AllDigits(s)
    ensures v.Num? ==> v.n >= 0
  {
    if AllDigits(s) then Num(DigitsValue(s)) else NaN
  }

  /** `String(v)`. */
  function JsString(v: JsValue): string
  {
    match v
    case Num(n) => IntStr(n)
    case NaN => "NaN"
    case Undefined => "undefined"
  }

  /** The characters `trim()` removes: ECMAScript WhiteSpace and LineTerminator. */
  predicate IsJsWhitespace(c: char)
  {
    var k := c as int;
    (0x09 <= k <= 0x0D) || k == 0x20 || k == 0xA0 || k == 0x1680 || (0x2000 <= k <= 0x200A)
    || k == 0x2028 || k == 0x2029 || k == 0x202F || k == 0x205F || k == 0x3000 || k == 0xFEFF
  }

  function TrimStart(s: string): (r: string)
    ensures |r| <= |s| && r == s[|s| - |r|..]
    ensures forall i :: 0 <= i < |s| - |r| ==> IsJsWhitespace(s[i])
    ensures r == [] || !IsJsWhitespace(r[0])
  {
    if s != [] && IsJsWhitespace(s[0]) then TrimStart(s[1..]) else s
  }

  function TrimEnd(s: string): (r: string)
    ensures |r| <= |s| && r == s[..|r|]
    ensures forall i :: |r| <= i < |s| ==> IsJsWhitespace(s[i])
    ensures r == [] || !IsJsWhitespace(r[|r| - 1])
  {
    if s != [] && IsJsWhitespace(s[|s| - 1]) then TrimEnd(s[..|s| - 1]) else s
  }

  /**
   * `s.trim()`: the slice of `s` that starts after its leading whitespace, with nothing but
   * whitespace on either side of it and no whitespace at either of its ends.
   */
  function Trim(s: string): (r: string)
    ensures TrimmedAt(s, r, |s| - |TrimStart(s)|)
  {
    TrimParts(s);
    TrimEnd(TrimStart(s))
  }

  lemma TrimParts(s: string)
    ensures TrimmedAt(s, TrimEnd(TrimStart(s)), |s| - |TrimStart(s)|)
  {
    SliceTrimmed(s, TrimStart(s), TrimEnd(TrimStart(s)));
  }

  /** A start-trimmed suffix `t` of `s`, end-trimmed to `r`: `r` is `s` trimmed at both ends. */
  lemma SliceTrimmed(s: string, t: string, r: string)
    requires |t| <= |s| && t == s[|s| - |t|..]
    requires (forall i :: 0 <= i < |s| - |t| ==> IsJsWhitespace(s[i])) && (t == [] || !IsJsWhitespace(t[0]))
    requires |r| <= |t| && r == t[..|r|]
    requires (forall i :: |r| <= i < |t| ==> IsJsWhitespace(t[i])) && (r == [] || !IsJsWhitespace(r[|r| - 1]))
    ensures TrimmedAt(s, r, |s| - |t|)
  {
    TrimSlice(s, t, r);
    assert r != [] ==> r[0] == t[0];
  }

  /**
   * `r` is the slice of `s` starting at `k` with nothing but whitespace before and after it,
   * and it neither starts nor ends with whitespace.
   */
  predicate TrimmedAt(s: string, r: string, k: int)
  {
    && 0 <= k && k + |r| <= |s| && r == s[k..k + |r|]
    && (forall i :: 0 <= i < k ==> IsJsWhitespace(s[i]))
    && (forall i :: k + |r| <= i < |s| ==> IsJsWhitespace(s[i]))
    && (r == [] || (!IsJsWhitespace(r[0]) && !IsJsWhitespace(r[|r| - 1])))
  }

  /** The end-trimmed suffix `t` of `s` is a slice of `s` followed by whitespace only. */
  lemma TrimSlice(s: string, t: string, r: string)
    requires |t| <= |s| && t == s[|s| - |t|..]
    requires |r| <= |t| && r == t[..|r|] && forall i :: |r| <= i < |t| ==> IsJsWhitespace(t[i])
    ensures var k := |s| - |t|; r == s[k..k + |r|] && forall i :: k + |r| <= i < |s| ==> IsJsWhitespace(s[i])
  {
    var k := |s| - |t|;
    forall i | k + |r| <= i < |s| ensures IsJsWhitespace(s[i]) {
      assert s[i] == t[i - k];
    }
  }

  /** `!s.trim()` holds exactly for the strings made only of whitespace (the empty one included). */
  lemma TrimEmptyIffBlank(s: string)
    ensures Trim(s) == [] <==> forall i :: 0 <= i < |s| ==> IsJsWhitespace(s[i])
  {
    var t := TrimStart(s);
    assert |t| > 0 ==> t[0] == s[|s| - |t|];
  }

  /**
   * `toLowerCase()` on the letters the analysis names use: Latin A-Z and the Cyrillic
   * capitals U+0400..U+042F; every other character is left as it is.
   */
  function LowerChar(c: char): (l: char)
    ensures 'A' <= c <= 'Z' ==> l as int == c as int + 32
    ensures 'А' <= c <= 'Я' ==> l as int == c as int + 32
    ensures 'Ѐ' <= c <= 'Џ' ==> l as int == c as int + 80
    ensures !('A' <= c <= 'Z' || 'Ѐ' <= c <= 'Я') ==> l == c
    ensures 'а' <= l <= 'я' <==> 'а' <= c <= 'я' || 'А' <= c <= 'Я'
  {
    if 'A' <= c <= 'Z' || 'А' <= c <= 'Я' then (c as int + 32) as char
    else if 'Ѐ' <= c <= 'Џ' then (c as int + 80) as char
    else c
  }

  function Lower(s: string): (r: string)
    ensures |r| == |s| && forall i :: 0 <= i < |s| ==> r[i] == LowerChar(s[i])
  {
    seq(|s|, i requires 0 <= i < |s| => LowerChar(s[i]))
  }

  /** `sub` occurs in `s` starting at position `k`. */
  predicate OccursAt(s: string, sub: string, k: int)
  {
    0 <= k && k + |sub| <= |s| && s[k..k + |sub|] == sub
  }

  /** `s.includes(sub)`: `sub` occurs in `s` at some position. */
  function Contains(s: string, sub: string): (b: bool)
    ensures b <==> exists k :: OccursAt(s, sub, k)
    decreases |s|
  {
    if sub <= s then
      assert OccursAt(s, sub, 0);
      true
    else if s == [] then
      false
    else
      OccursShift(s, sub);
      Contains(s[1..], sub)
  }

  /** An occurrence not at the front of `s` is an occurrence in `s[1..]`, one place earlier. */
  lemma OccursShift(s: string, sub: string)
    requires s != [] && !(sub <= s)
    ensures (exists k :: OccursAt(s, sub, k)) <==> exists k :: OccursAt(s[1..], sub, k)
  {
    if exists k :: OccursAt(s, sub, k) {
      var k :| OccursAt(s, sub, k);
      assert k != 0;
      assert s[1..][k - 1..k - 1 + |sub|] == s[k..k + |sub|];
      assert OccursAt(s[1..], sub, k - 1);
    }
    if exists k :: OccursAt(s[1..], sub, k) {
      var k :| OccursAt(s[1..], sub, k);
      assert s[1..][k..k + |sub|] == s[k + 1..k + 1 + |sub|];
      assert OccursAt(s, sub, k + 1);
    }
  }
}

/**
 * The ECMAScript value semantics the tracker relies on, written out over
 * unbounded integers: String values as sequences of UTF-16 code units,
 * ToInt32 and the `<<` and `&` operators, Number::toString for integral
 * Numbers, String.prototype.trim, split and substring, Array.prototype.join,
 * the global parseInt, and the truthiness that `||` and `&&` test.
 */
module Js {

  datatype Option<+T> = None | Some(value: T)

  /** One UTF-16 code unit, the element of an ECMAScript String value. */
  type CodeUnit = u: int | 0 <= u < 0x1_0000

  /** An ECMAScript String value: `length`, `charCodeAt` and `substring` count code units. */
  type JsString = seq<CodeUnit>

  /**
   * The completion of a call that may throw: a normal result, or an abrupt
   * one carrying the thrown error's `message`.
   */
  datatype Completion<+T> = Normal(value: T) | Abrupt(message: JsString)

  /** A primitive value as the source binds it into a column: a Number or a String. */
  datatype JsValue = Number(n: int) | Str(s: JsString)

  const Tab: CodeUnit := 0x09
  const Newline: CodeUnit := 0x0A
  const Space: CodeUnit := 0x20
  const Plus: CodeUnit := 0x2B
  const Minus: CodeUnit := 0x2D
  const Dot: CodeUnit := 0x2E
  const Slash: CodeUnit := 0x2F
  const Zero: CodeUnit := 0x30
  const UpperX: CodeUnit := 0x58
  const LowerX: CodeUnit := 0x78

  // ---------------------------------------------------------------------
  // String literals

  /** The UTF-16 code units of one Unicode scalar value (section 11.1.1 of ECMA-262). */
  function CharUnits(c: char): (r: JsString)
    ensures 1 <= |r| <= 2
    ensures (c as int < 0x1_0000) <==> r == [c as int]
  {
    var v := c as int;
    if v < 0x1_0000 then [v]
    else [0xD800 + (v - 0x1_0000) / 0x400, 0xDC00 + (v - 0x1_0000) % 0x400]
  }

  /** The String value a source-text literal denotes: its UTF-16 encoding. */
  function Utf16(s: string): (r: JsString)
    ensures |s| <= |r| <= 2 * |s|
  {
    Flatten(seq(|s|, i requires 0 <= i < |s| => CharUnits(s[i])))
  }

  /** The concatenation of a list of unit sequences of one or two units each. */
  function Flatten(units: seq<JsString>): (r: JsString)
    requires forall k :: 0 <= k < |units| ==> 1 <= |units[k]| <= 2
    ensures |units| <= |r| <= 2 * |units|
    decreases |units|
  {
    if units == [] then [] else units[0] + Flatten(units[1..])
  }

  /** Units of one each concatenate to the sequence of those units. */
  lemma {:induction false} FlattenSingles(units: seq<JsString>)
    requires forall k :: 0 <= k < |units| ==> |units[k]| == 1
    ensures Flatten(units) == seq(|units|, k requires 0 <= k < |units| => units[k][0])
    decreases |units|
  {
    if units != [] {
      FlattenSingles(units[1..]);
    }
  }

  /** A string without astral characters encodes to one code unit per character. */
  lemma Utf16Bmp(s: string)
    requires forall i :: 0 <= i < |s| ==> s[i] as int < 0x1_0000
    ensures Utf16(s) == seq(|s|, i requires 0 <= i < |s| => s[i] as int)
  {
    FlattenSingles(seq(|s|, i requires 0 <= i < |s| => CharUnits(s[i])));
  }

  // ---------------------------------------------------------------------
  // 32-bit integer conversions and operators

  const TwoTo31: int := 0x8000_0000
  const TwoTo32: int := 0x1_0000_0000

  predicate IsInt32(x: int) {
    -TwoTo31 <= x < TwoTo31
  }

  /**
   * ToInt32 (section 7.1.6 of ECMA-262) on an integral Number: the unique
   * 32-bit two's complement value congruent to x modulo 2^32.
   */
  function ToInt32(x: int): (r: int)
    ensures IsInt32(r)
    ensures (r - x) % TwoTo32 == 0
  {
    var m := x % TwoTo32;
    if m >= TwoTo31 then m - TwoTo32 else m
  }

  /** ToInt32 does not distinguish numbers that differ by a multiple of 2^32. */
  lemma ToInt32Congruent(x: int, y: int)
    requires (x - y) % TwoTo32 == 0
    ensures ToInt32(x) == ToInt32(y)
  {
    var q := (x - y) / TwoTo32;
    assert x == y + q * TwoTo32;
    assert x % TwoTo32 == y % TwoTo32;
  }

  /** ToInt32 is the identity on 32-bit values. */
  lemma ToInt32OfInt32(x: int)
    requires IsInt32(x)
    ensures ToInt32(x) == x
  {
    if x < 0 {
      assert (x + TwoTo32) % TwoTo32 == x + TwoTo32;
    }
  }

  function Pow2(n: nat): (r: nat)
    ensures r >= 1
  {
    if n == 0 then 1 else 2 * Pow2(n - 1)
  }

  /** ToUint32 (section 7.1.7 of ECMA-262) on an integral Number. */
  function ToUint32(x: int): (r: nat)
    ensures r < TwoTo32
  {
    x % TwoTo32
  }

  /** The bitwise AND of the low n bits of a and b. */
  function AndBits(a: nat, b: nat, n: nat): (r: nat)
    decreases n
  {
    if n == 0 then 0
    else 2 * AndBits(a / 2, b / 2, n - 1) + (if a % 2 == 1 && b % 2 == 1 then 1 else 0)
  }

  /** `x << y` (section 6.1.6.1.9 of ECMA-262): shift ToInt32(x) by y mod 32 bits. */
  function LeftShift(x: int, y: nat): (r: int)
    ensures IsInt32(r)
  {
    ToInt32(ToInt32(x) * Pow2(y % 32))
  }

  /**
   * `x & y` (section 6.1.6.1.17 of ECMA-262) on integral Numbers: the AND of
   * the 32-bit patterns, read back as a signed 32-bit value.
   */
  function BitAnd(x: int, y: int): (r: int)
    ensures IsInt32(r)
  {
    ToInt32(AndBits(ToUint32(x), ToUint32(y), 32))
  }

  /** ANDing a number with itself keeps its low n bits. */
  lemma {:induction false} AndBitsSelf(a: nat, n: nat)
    ensures AndBits(a, a, n) == a % Pow2(n)
    decreases n
  {
    if n > 0 {
      AndBitsSelf(a / 2, n - 1);
      var p := Pow2(n - 1);
      assert AndBits(a, a, n) == 2 * ((a / 2) % p) + a % 2;
      ModHalf(a, p);
    }
  }

  /** a mod 2p, split into its lowest bit and the rest. */
  lemma ModHalf(a: nat, p: nat)
    requires p >= 1
    ensures a % (2 * p) == 2 * ((a / 2) % p) + a % 2
  {
    var h := a / 2;
    var q := h / p;
    var m := h % p;
    assert h == q * p + m;
    assert a == (2 * p) * q + (2 * m + a % 2);
    assert 0 <= 2 * m + a % 2 < 2 * p;
    DivModUnique(a, 2 * p, q, 2 * m + a % 2);
  }

  lemma DivModUnique(a: int, d: int, q: int, r: int)
    requires d > 0 && a == d * q + r && 0 <= r < d
    ensures a % d == r
  {
    var k := q - a / d;
    assert a == d * (a / d) + a % d;
    assert d * k == d * q - d * (a / d);
    assert d * k == a % d - r;
    if k >= 1 {
      MulAtLeast(d, k);
    } else if k <= -1 {
      MulAtLeast(d, -k);
    }
  }

  lemma {:induction false} MulAtLeast(d: int, k: int)
    requires d > 0 && k >= 1
    ensures d * k >= d
    decreases k
  {
    if k > 1 {
      MulAtLeast(d, k - 1);
      assert d * k == d * (k - 1) + d;
    }
  }

  lemma Pow2Of32()
    ensures Pow2(32) == TwoTo32
  {
    assert Pow2(8) == 256;
    assert Pow2(16) == 256 * 256 by {
      Pow2Add(8, 8);
    }
    Pow2Add(16, 16);
  }

  lemma {:induction false} Pow2Add(a: nat, b: nat)
    ensures Pow2(a + b) == Pow2(a) * Pow2(b)
    decreases a
  {
    if a > 0 {
      Pow2Add(a - 1, b);
    }
  }

  /** `x & x` is ToInt32(x): the idiom the source uses to truncate to 32 bits. */
  lemma BitAndSelf(x: int)
    ensures BitAnd(x, x) == ToInt32(x)
  {
    var u := ToUint32(x);
    AndBitsSelf(u, 32);
    Pow2Of32();
    assert AndBits(u, u, 32) == u % TwoTo32;
    DivModUnique(u, TwoTo32, 0, u);
    var q := x / TwoTo32;
    assert x == TwoTo32 * q + u;
    DivModUnique(u - x, TwoTo32, -q, 0);
    ToInt32Congruent(u, x);
  }

  // ---------------------------------------------------------------------
  // Number::toString and parseInt

  /** The code unit of a decimal digit 0..9. */
  function DigitUnit(d: nat): (r: CodeUnit)
    requires d < 10
  {
    Zero + d
  }

  /** The value of a code unit as a digit: 0-9, then a/A = 10 up to z/Z = 35; 36 for a non-digit. */
  function DigitValue(c: CodeUnit): (r: nat)
    ensures r <= 36
  {
    if 0x30 <= c <= 0x39 then c - 0x30
    else if 0x61 <= c <= 0x7A then c - 0x61 + 10
    else if 0x41 <= c <= 0x5A then c - 0x41 + 10
    else 36
  }

  predicate IsDecimalDigit(c: CodeUnit) {
    DigitValue(c) < 10
  }

  /** The decimal digits of n, most significant first, without leading zeros. */
  function Digits(n: nat): (r: JsString)
    ensures |r| >= 1
    ensures forall k :: 0 <= k < |r| ==> IsDecimalDigit(r[k])
    decreases n
  {
    (if n >= 10 then Digits(n / 10) else []) + [DigitUnit(n % 10)]
  }

  /**
   * Number::toString (section 6.1.6.1.20 of ECMA-262) for an integral Number
   * whose magnitude is below 10^21: an optional minus sign, then decimal digits.
   */
  function NumberToString(n: int): (r: JsString)
    ensures |r| >= 1
    ensures r[0] == Minus <==> n < 0
  {
    if n < 0 then [Minus] + Digits(-n) else Digits(n)
  }

  /** The value of a string of digits in the given radix, most significant first. */
  function DigitsValue(z: JsString, radix: nat): (r: nat)
    decreases |z|
  {
    if z == [] then 0 else DigitsValue(z[..|z| - 1], radix) * radix + DigitValue(z[|z| - 1])
  }

  /** The longest prefix of s made of digits of the radix. */
  function DigitPrefix(s: JsString, radix: nat): (r: JsString)
    ensures r <= s
    ensures forall k :: 0 <= k < |r| ==> DigitValue(r[k]) < radix
    ensures |r| < |s| ==> DigitValue(s[|r|]) >= radix
    decreases |s|
  {
    if s != [] && DigitValue(s[0]) < radix then [s[0]] + DigitPrefix(s[1..], radix) else []
  }

  /**
   * The digits after the sign as parseInt reads them with the radix left
   * undefined: hex after `0x` or `0X`, decimal otherwise, up to the first
   * code unit that is not a digit. None when there is no digit at all.
   */
  function ParseMagnitude(u: JsString): (r: Option<nat>)
  {
    var hex := |u| >= 2 && u[0] == Zero && (u[1] == LowerX || u[1] == UpperX);
    var radix := if hex then 16 else 10;
    var z := DigitPrefix(if hex then u[2..] else u, radix);
    if z == [] then None else Some(DigitsValue(z, radix))
  }

  /**
   * The global parseInt(string) with the radix left undefined (section 19.2.5
   * of ECMA-262): skip leading white space, take an optional sign, then read
   * the magnitude. None stands for NaN (no digit at all).
   */
  function ParseInt(s: JsString): (r: Option<int>)
    ensures TrimStart(s) == [] ==> r.None?
    ensures var t := TrimStart(s); t != [] && t[0] != Minus && t[0] != Plus && DigitValue(t[0]) >= 10 ==> r.None?
  {
    var t := TrimStart(s);
    var sign := if t != [] && t[0] == Minus then -1 else 1;
    var u := if t != [] && (t[0] == Minus || t[0] == Plus) then t[1..] else t;
    match ParseMagnitude(u)
    case None => None
    case Some(m) => Some(sign * m)
  }

  lemma {:induction false} DigitsValueOfDigits(n: nat)
    ensures DigitsValue(Digits(n), 10) == n
    decreases n
  {
    var d := Digits(n);
    var front: JsString := if n >= 10 then Digits(n / 10) else [];
    assert d == front + [DigitUnit(n % 10)];
    assert d[..|d| - 1] == front;
    assert DigitValue(d[|d| - 1]) == n % 10;
    assert DigitsValue(d, 10) == DigitsValue(front, 10) * 10 + n % 10;
    if n >= 10 {
      DigitsValueOfDigits(n / 10);
      assert DigitsValue(front, 10) == n / 10;
    }
  }

  lemma {:induction false} DigitPrefixOfDigits(s: JsString, radix: nat)
    requires forall k :: 0 <= k < |s| ==> DigitValue(s[k]) < radix
    ensures DigitPrefix(s, radix) == s
    decreases |s|
  {
    if s != [] {
      DigitPrefixOfDigits(s[1..], radix);
    }
  }

  /** The decimal digits of n read back as n. */
  lemma ParseMagnitudeOfDigits(n: nat)
    ensures ParseMagnitude(Digits(n)) == Some(n)
  {
    var u := Digits(n);
    assert !(|u| >= 2 && (u[1] == LowerX || u[1] == UpperX)) by {
      if |u| >= 2 { assert IsDecimalDigit(u[1]); }
    }
    DigitPrefixOfDigits(u, 10);
    DigitsValueOfDigits(n);
  }

  /** parseInt reads back every integer that Number::toString writes. */
  lemma ParseIntOfNumberToString(n: int)
    ensures ParseInt(NumberToString(n)) == Some(n)
  {
    var s := NumberToString(n);
    var m: nat := if n < 0 then -n else n;
    var u := Digits(m);
    assert s[0] == Minus || IsDecimalDigit(s[0]);
    assert TrimStart(s) == s by {
      assert !IsWhite(s[0]);
    }
    assert n < 0 ==> s[1..] == u;
    assert n >= 0 ==> s == u && s[0] != Plus && s[0] != Minus;
    ParseMagnitudeOfDigits(m);
  }

  /** Distinct integers have distinct decimal strings. */
  lemma NumberToStringInjective(a: int, b: int)
    ensures NumberToString(a) == NumberToString(b) <==> a == b
  {
    if NumberToString(a) == NumberToString(b) {
      ParseIntOfNumberToString(a);
      ParseIntOfNumberToString(b);
    }
  }

  // ---------------------------------------------------------------------
  // White space and trim

  /**
   * WhiteSpace or LineTerminator (sections 12.2 and 12.3 of ECMA-262): the
   * code units that trim and parseInt skip.
   */
  predicate IsWhite(c: CodeUnit) {
    c == 0x09 || c == 0x0A || c == 0x0B || c == 0x0C || c == 0x0D || c == 0x20 ||
    c == 0xA0 || c == 0x1680 || (0x2000 <= c <= 0x200A) || c == 0x2028 || c == 0x2029 ||
    c == 0x202F || c == 0x205F || c == 0x3000 || c == 0xFEFF
  }

  /** s without its leading white space. */
  function TrimStart(s: JsString): (r: JsString)
    ensures |r| <= |s| && r == s[|s| - |r|..]
    ensures forall k :: 0 <= k < |s| - |r| ==> IsWhite(s[k])
    ensures r != [] ==> !IsWhite(r[0])
    decreases |s|
  {
    if s != [] && IsWhite(s[0]) then TrimStart(s[1..]) else s
  }

  /** s without its trailing white space. */
  function TrimEnd(s: JsString): (r: JsString)
    ensures |r| <= |s| && r == s[..|r|]
    ensures forall k :: |r| <= k < |s| ==> IsWhite(s[k])
    ensures r != [] ==> !IsWhite(r[|r| - 1])
    decreases |s|
  {
    if s != [] && IsWhite(s[|s| - 1]) then TrimEnd(s[..|s| - 1]) else s
  }

  /**
   * String.prototype.trim (section 22.1.3.32 of ECMA-262): the slice of s
   * between its leading and its trailing white space.
   */
  function Trim(s: JsString): (r: JsString)
    ensures r == [] <==> forall k :: 0 <= k < |s| ==> IsWhite(s[k])
    ensures r != [] ==> !IsWhite(r[0]) && !IsWhite(r[|r| - 1])
    ensures |r| <= |s|
  {
    var t := TrimStart(s);
    var r := TrimEnd(t);
    assert r == [] ==> t == [] by {
      assert t != [] ==> !IsWhite(t[0]);
    }
    r
  }

  /** Trimming a trimmed string changes nothing. */
  lemma TrimIdempotent(s: JsString)
    ensures Trim(Trim(s)) == Trim(s)
  {
    var r := Trim(s);
    if r != [] {
      assert TrimStart(r) == r;
      assert TrimEnd(r) == r;
    }
  }

  // ---------------------------------------------------------------------
  // split and join

  /**
   * String.prototype.split (section 22.1.3.23 of ECMA-262) with a separator
   * of one code unit: the pieces between consecutive separators, so that a
   * run of separators yields empty pieces and the empty string yields [""].
   */
  function Split(s: JsString, sep: CodeUnit): (r: seq<JsString>)
    ensures |r| >= 1
    ensures forall k :: 0 <= k < |r| ==> sep !in r[k]
    decreases |s|
  {
    if s == [] then [[]]
    else
      var rest := Split(s[1..], sep);
      if s[0] == sep then [[]] + rest else [[s[0]] + rest[0]] + rest[1..]
  }

  /** Array.prototype.join (section 23.1.3.18 of ECMA-262) over strings. */
  function Join(parts: seq<JsString>, sep: JsString): (r: JsString)
    decreases |parts|
  {
    if parts == [] then [] else if |parts| == 1 then parts[0] else parts[0] + sep + Join(parts[1..], sep)
  }

  /** Joining the pieces of a split with the separator gives back the string. */
  lemma {:induction false} JoinSplit(s: JsString, sep: CodeUnit)
    ensures Join(Split(s, sep), [sep]) == s
    decreases |s|
  {
    if s != [] {
      var rest := Split(s[1..], sep);
      JoinSplit(s[1..], sep);
      if s[0] != sep {
        if |rest| > 1 {
          assert ([[s[0]] + rest[0]] + rest[1..])[1..] == rest[1..];
          assert rest == [rest[0]] + rest[1..];
        }
      }
    }
  }

  /** Splitting a join of separator-free pieces gives back the pieces. */
  lemma {:induction false} SplitJoin(parts: seq<JsString>, sep: CodeUnit)
    requires |parts| >= 1
    requires forall k :: 0 <= k < |parts| ==> sep !in parts[k]
    ensures Split(Join(parts, [sep]), sep) == parts
    decreases |parts|, |parts[0]|
  {
    var p := parts[0];
    if p == [] {
      if |parts| > 1 {
        SplitJoin(parts[1..], sep);
        assert Join(parts, [sep]) == [sep] + Join(parts[1..], [sep]);
      }
    } else {
      var tail := [p[1..]] + parts[1..];
      assert forall k :: 0 <= k < |tail| ==> sep !in tail[k] by {
        forall k | 0 <= k < |tail| ensures sep !in tail[k] {
          if k > 0 { assert tail[k] == parts[k]; }
        }
      }
      SplitJoin(tail, sep);
      var j := Join(parts, [sep]);
      var jt := Join(tail, [sep]);
      if |parts| == 1 {
        assert j == [p[0]] + jt;
      } else {
        assert tail[1..] == parts[1..];
        assert j == [p[0]] + jt;
      }
      assert j[0] == p[0] && j[1..] == jt;
      assert p[0] != sep;
      assert [p[0]] + p[1..] == p;
      assert parts == [[p[0]] + tail[0]] + tail[1..];
    }
  }

  /** A string without the separator is one piece. */
  lemma {:induction false} SplitWithout(a: JsString, sep: CodeUnit)
    requires sep !in a
    ensures Split(a, sep) == [a]
    decreases |a|
  {
    if a != [] {
      SplitWithout(a[1..], sep);
      assert [a[0]] + a[1..] == a;
    }
  }

  /** Splitting at the first separator: the piece before it, then the pieces of the rest. */
  lemma {:induction false} SplitAtFirst(a: JsString, b: JsString, sep: CodeUnit)
    requires sep !in a
    ensures Split(a + [sep] + b, sep) == [a] + Split(b, sep)
    decreases |a|
  {
    var s := a + [sep] + b;
    if a == [] {
      assert s[1..] == b;
    } else {
      assert s[1..] == a[1..] + [sep] + b;
      SplitAtFirst(a[1..], b, sep);
      assert [a[0]] + a[1..] == a;
    }
  }

  /** The first piece is the text up to the first separator, or all of it. */
  lemma {:induction false} SplitHead(s: JsString, sep: CodeUnit)
    ensures var h := Split(s, sep)[0];
      h <= s && sep !in h && (|h| == |s| || s[|h|] == sep)
    decreases |s|
  {
    if s != [] {
      SplitHead(s[1..], sep);
    }
  }

  /** There is one piece more than there are separators. */
  lemma {:induction false} SplitLength(s: JsString, sep: CodeUnit)
    ensures |Split(s, sep)| == multiset(s)[sep] + 1
    decreases |s|
  {
    if s != [] {
      SplitLength(s[1..], sep);
      assert s == [s[0]] + s[1..];
      assert multiset(s) == multiset([s[0]]) + multiset(s[1..]);
    }
  }

  // ---------------------------------------------------------------------
  // Other String operations and truthiness

  /** String.prototype.startsWith with a one-code-unit search string. */
  predicate StartsWith(s: JsString, c: CodeUnit) {
    |s| >= 1 && s[0] == c
  }

  function Min(a: int, b: int): int { if a <= b then a else b }
  function Max(a: int, b: int): int { if a <= b then b else a }

  /**
   * String.prototype.substring (section 22.1.3.25 of ECMA-262): both bounds
   * are clamped to [0, length] and swapped when out of order.
   */
  function Substring(s: JsString, start: int, end: int): (r: JsString)
    ensures |r| <= |s|
  {
    var a := Min(Max(start, 0), |s|);
    var b := Min(Max(end, 0), |s|);
    s[Min(a, b)..Max(a, b)]
  }

  /** `substring(0, n)` is the first n code units, or the whole string when it is shorter. */
  lemma SubstringPrefix(s: JsString, n: nat)
    ensures Substring(s, 0, n) == s[..Min(n, |s|)]
  {
  }

  /** The JavaScript `v || d` for a value that is a String or null. */
  function OrElse(v: Option<JsString>, d: JsString): (r: JsString)
    ensures r == d <==> (v == None || v.value == [] || v.value == d)
    ensures v.Some? && v.value != [] ==> r == v.value
  {
    if v.Some? && v.value != [] then v.value else d
  }

  /** ToBoolean (section 7.1.2 of ECMA-262) of a nullable column value. */
  predicate Truthy(v: Option<JsValue>) {
    match v
    case None => false
    case Some(Number(n)) => n != 0
    case Some(Str(s)) => s != []
  }
}

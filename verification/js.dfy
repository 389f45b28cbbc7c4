/**
 * The JavaScript built-ins the application's logic relies on, stated over
 * `string` = `seq<char>`: `String.prototype.slice(0, n)`, `includes`,
 * the default `Array.prototype.sort` order on strings, number-to-string
 * conversion of whole numbers and `parseInt`.
 */
module Js {
  import opened Wrappers

  /** A JavaScript number as the model needs it: NaN or a finite value. */
  datatype Number = NaN | Finite(value: real)
  {
    /** True for a finite number without a fractional part (`Number.isInteger`). */
    predicate IsInteger()
    {
      Finite? && value.Floor as real == value
    }
  }

  /** The number of UTF-16 code units of `c`: two (a surrogate pair) above U+FFFF, otherwise one. */
  function Units(c: char): (n: nat)
    ensures n == 1 || n == 2
  {
    if c as int >= 0x10000 then 2 else 1
  }

  /** `s.length`: the number of UTF-16 code units of `s`. */
  function Length(s: string): (n: nat)
    ensures |s| <= n <= 2 * |s|
  {
    if s == [] then 0 else Units(s[0]) + Length(s[1..])
  }

  /** Without characters above U+FFFF, `length` counts characters. */
  lemma {:induction false} LengthOfBmp(s: string)
    requires forall i :: 0 <= i < |s| ==> s[i] as int < 0x10000
    ensures Length(s) == |s|
  {
    if s != [] {
      LengthOfBmp(s[1..]);
    }
  }

  lemma {:induction false} LengthAppend(a: string, b: string)
    ensures Length(a + b) == Length(a) + Length(b)
  {
    if a == [] {
      assert a + b == b;
    } else {
      assert (a + b)[0] == a[0] && (a + b)[1..] == a[1..] + b;
      LengthAppend(a[1..], b);
    }
  }

  /** Characters above U+FFFF count twice. */
  lemma {:induction false} LengthOfAstral(s: string)
    requires forall i :: 0 <= i < |s| ==> s[i] as int >= 0x10000
    ensures Length(s) == 2 * |s|
  {
    if s != [] {
      LengthOfAstral(s[1..]);
    }
  }

  /** `r` is `s.slice(0, n)`: the longest prefix of `s` of at most `n` code units. */
  ghost predicate IsSlice(r: string, s: string, n: nat)
  {
    && r <= s
    && Length(r) <= n
    && (r != s ==> Length(r) + Units(s[|r|]) > n)
  }

  /** `s.slice(0, n)`, taking whole characters while they fit in `n` code units. */
  function Slice(s: string, n: nat): (r: string)
    ensures IsSlice(r, s, n)
  {
    if s == [] || Units(s[0]) > n then []
    else
      var rest := Slice(s[1..], n - Units(s[0]));
      assert ([s[0]] + rest)[1..] == rest;
      [s[0]] + rest
  }

  /** At most one prefix fits the description of `slice`. */
  lemma SliceUnique(r1: string, r2: string, s: string, n: nat)
    requires IsSlice(r1, s, n) && IsSlice(r2, s, n)
    ensures r1 == r2
  {
    if |r1| < |r2| {
      LongerThanSlice(r1, r2, s, n);
      assert false;
    } else if |r2| < |r1| {
      LongerThanSlice(r2, r1, s, n);
      assert false;
    } else {
      assert r1 == s[..|r1|] == r2;
    }
  }

  /** A prefix longer than the slice exceeds the `n` code units. */
  lemma LongerThanSlice(r1: string, r2: string, s: string, n: nat)
    requires IsSlice(r1, s, n) && r2 <= s && |r1| < |r2|
    ensures Length(r2) > n
  {
    assert r2 == r1 + [s[|r1|]] + r2[|r1| + 1..];
    LengthAppend(r1 + [s[|r1|]], r2[|r1| + 1..]);
    LengthAppend(r1, [s[|r1|]]);
  }

  /** On text without characters above U+FFFF, `slice(0, n)` keeps the first `n` characters. */
  lemma SliceOfBmp(s: string, n: nat)
    requires forall i :: 0 <= i < |s| ==> s[i] as int < 0x10000
    ensures Slice(s, n) == if |s| < n then s else s[..n]
  {
    var t := if |s| < n then s else s[..n];
    LengthOfBmp(t);
    assert IsSlice(t, s, n);
    SliceUnique(Slice(s, n), t, s, n);
  }


  /** `s.includes(sub)`, by scanning the start positions of `s` from left to right. */
  function Includes(s: string, sub: string): bool
  {
    sub <= s || (s != [] && Includes(s[1..], sub))
  }

  /** `sub` occurs in `s` starting at position `i`. */
  ghost predicate OccursAt(s: string, sub: string, i: int)
  {
    0 <= i && i + |sub| <= |s| && s[i..i + |sub|] == sub
  }

  /** `Includes` holds exactly when `sub` occurs at some position of `s`. */
  lemma {:induction false} IncludesIff(s: string, sub: string)
    ensures Includes(s, sub) <==> exists i :: OccursAt(s, sub, i)
  {
    if Includes(s, sub) {
      var i := IncludesWitness(s, sub);
    }
    if exists i :: OccursAt(s, sub, i) {
      var i :| OccursAt(s, sub, i);
      OccursIncludes(s, sub, i);
    }
  }

  lemma {:induction false} IncludesWitness(s: string, sub: string) returns (i: nat)
    requires Includes(s, sub)
    ensures OccursAt(s, sub, i)
  {
    if sub <= s {
      i := 0;
    } else {
      var j := IncludesWitness(s[1..], sub);
      assert s[1..][j..j + |sub|] == s[j + 1..j + 1 + |sub|];
      i := j + 1;
    }
  }

  lemma {:induction false} OccursIncludes(s: string, sub: string, i: int)
    requires OccursAt(s, sub, i)
    ensures Includes(s, sub)
  {
    if i == 0 {
      assert s[..|sub|] == sub;
    } else {
      assert s[1..][i - 1..i - 1 + |sub|] == s[i..i + |sub|];
      OccursIncludes(s[1..], sub, i - 1);
    }
  }

  /** Every string includes the empty string, so an empty search matches everything. */
  lemma IncludesEmpty(s: string)
    ensures Includes(s, "")
  {
  }

  /**
   * The position of `c` in UTF-16 code-unit order. A character above U+FFFF
   * is stored as a surrogate pair whose first unit lies in D800-DBFF, so it
   * sorts after U+0000-U+D7FF and before U+E000-U+FFFF.
   */
  function UnitKey(c: char): (k: int)
    ensures c as int < 0xD800 ==> k == c as int
    ensures 0xD800 <= k < 0x10E000 <==> c as int >= 0x10000
  {
    if c as int < 0xD800 then c as int
    else if c as int >= 0x10000 then c as int - 0x10000 + 0xD800
    else c as int + 0x100000
  }

  lemma UnitKeyInjective(x: char, y: char)
    requires UnitKey(x) == UnitKey(y)
    ensures x == y
  {
  }

  /**
   * The default order of `Array.prototype.sort` on strings: lexicographic by
   * UTF-16 code unit, a proper prefix coming first.
   */
  predicate CodeUnitLe(a: string, b: string)
  {
    if a == [] then true
    else if b == [] then false
    else if a[0] != b[0] then UnitKey(a[0]) < UnitKey(b[0])
    else CodeUnitLe(a[1..], b[1..])
  }

  /** Unlike the order of characters, the code-unit order puts U+1F600 before U+FF01. */
  lemma PairSortsBeforeHighBmp()
    ensures CodeUnitLe("\U{1F600}", "\U{FF01}") && !CodeUnitLe("\U{FF01}", "\U{1F600}")
    ensures '\U{FF01}' < '\U{1F600}'
  {
  }

  lemma {:induction false} CodeUnitLeTotal(a: string, b: string)
    ensures CodeUnitLe(a, b) || CodeUnitLe(b, a)
  {
    if a != [] && b != [] {
      if a[0] == b[0] {
        CodeUnitLeTotal(a[1..], b[1..]);
      } else if UnitKey(a[0]) == UnitKey(b[0]) {
        UnitKeyInjective(a[0], b[0]);
      }
    }
  }

  lemma {:induction false} CodeUnitLeTransitive(a: string, b: string, c: string)
    requires CodeUnitLe(a, b) && CodeUnitLe(b, c)
    ensures CodeUnitLe(a, c)
  {
    if a != [] && b != [] && c != [] && a[0] == b[0] == c[0] {
      CodeUnitLeTransitive(a[1..], b[1..], c[1..]);
    }
  }

  lemma {:induction false} CodeUnitLeAntisymmetric(a: string, b: string)
    requires CodeUnitLe(a, b) && CodeUnitLe(b, a)
    ensures a == b
  {
    if a != [] && b != [] {
      CodeUnitLeAntisymmetric(a[1..], b[1..]);
      assert a == [a[0]] + a[1..] && b == [b[0]] + b[1..];
    }
  }

  /** `s.toLowerCase()` with the case mapping `fold` applied to each character. */
  function Lower(s: string, fold: char -> char): (r: string)
    ensures |r| == |s|
    ensures forall i :: 0 <= i < |s| ==> r[i] == fold(s[i])
  {
    seq(|s|, i requires 0 <= i < |s| => fold(s[i]))
  }

  // ---- whole numbers as decimal text ----

  predicate IsDecimalDigit(c: char)
  {
    '0' <= c <= '9'
  }

  function DigitChar(d: nat): (c: char)
    requires d < 10
    ensures IsDecimalDigit(c)
  {
    ('0' as int + d) as char
  }

  /** `String(n)` for a whole number `n >= 0`: its decimal numeral without leading zeros. */
  function NatToString(n: nat): (r: string)
    ensures |r| >= 1
    ensures forall i :: 0 <= i < |r| ==> IsDecimalDigit(r[i])
    ensures |r| > 1 ==> r[0] != '0'
  {
    if n < 10 then [DigitChar(n)] else NatToString(n / 10) + [DigitChar(n % 10)]
  }

  // ---- parseInt ----

  /**
   * The white space `parseInt` skips before the number: the ECMAScript
   * WhiteSpace and LineTerminator characters, including every space
   * separator (category Zs) of Unicode 15.
   */
  predicate IsJsSpace(c: char)
  {
    c == ' ' || c == '\t' || c == '\n' || c == '\r' || c == '\U{B}' || c == '\U{C}'
    || c == '\U{A0}' || c == '\U{FEFF}' || c == '\U{2028}' || c == '\U{2029}'
    || c == '\U{1680}' || '\U{2000}' <= c <= '\U{200A}' || c == '\U{202F}' || c == '\U{205F}' || c == '\U{3000}'
  }

  function TrimStart(s: string): (r: string)
    ensures r <= s || (|r| <= |s| && r == s[|s| - |r|..])
    ensures r != [] ==> !IsJsSpace(r[0])
  {
    if s != [] && IsJsSpace(s[0]) then TrimStart(s[1..]) else s
  }

  /** The value of `c` as a digit in base `radix` (10 or 16), if it is one. */
  function DigitValue(c: char, radix: nat): Option<nat>
  {
    if '0' <= c <= '9' then Some(c as int - '0' as int)
    else if radix == 16 && 'a' <= c <= 'f' then Some(c as int - 'a' as int + 10)
    else if radix == 16 && 'A' <= c <= 'F' then Some(c as int - 'A' as int + 10)
    else None
  }

  /** The length of the longest prefix of `s` made of digits of base `radix`. */
  function DigitRun(s: string, radix: nat): (k: nat)
    ensures k <= |s|
    ensures forall i :: 0 <= i < k ==> DigitValue(s[i], radix).Some?
    ensures k < |s| ==> DigitValue(s[k], radix).None?
  {
    if s == [] || DigitValue(s[0], radix).None? then 0 else 1 + DigitRun(s[1..], radix)
  }

  /** The value of a numeral, read from left to right. */
  function NumeralValue(z: string, radix: nat): nat
    requires forall i :: 0 <= i < |z| ==> DigitValue(z[i], radix).Some?
  {
    if z == [] then 0
    else NumeralValue(z[..|z| - 1], radix) * radix + DigitValue(z[|z| - 1], radix).value
  }

  /**
   * `parseInt(s)` without a radix argument: skip leading white space, read an
   * optional sign, switch to base 16 after a `0x`/`0X` prefix, then take the
   * longest run of digits; no digits gives NaN.
   */
  function ParseInt(s: string): (r: Number)
  {
    var t := TrimStart(s);
    if t != [] && t[0] == '-' then Negate(ParseUnsigned(t[1..]))
    else if t != [] && t[0] == '+' then ParseUnsigned(t[1..])
    else ParseUnsigned(t)
  }

  /** The number after the sign: base 16 after `0x`/`0X`, otherwise base 10. */
  function ParseUnsigned(u: string): Number
  {
    if |u| >= 2 && u[0] == '0' && (u[1] == 'x' || u[1] == 'X') then ParseDigits(u[2..], 16)
    else ParseDigits(u, 10)
  }

  /** The longest run of digits at the start of `v`, or NaN when there is none. */
  function ParseDigits(v: string, radix: nat): Number
  {
    var k := DigitRun(v, radix);
    if k == 0 then NaN else Finite(NumeralValue(v[..k], radix) as real)
  }

  function Negate(x: Number): Number
  {
    match x
    case NaN => NaN
    case Finite(v) => Finite(-v)
  }

  /** `parseInt` yields NaN or a whole number. */
  lemma ParseIntIsInteger(s: string)
    ensures ParseInt(s).Finite? ==> ParseInt(s).IsInteger()
  {
    var t := TrimStart(s);
    var u := if t != [] && (t[0] == '-' || t[0] == '+') then t[1..] else t;
    ParseUnsignedIsWhole(u);
  }

  lemma ParseUnsignedIsWhole(u: string)
    ensures Negate(ParseUnsigned(u)).NaN? || Negate(ParseUnsigned(u)).IsInteger()
    ensures ParseUnsigned(u).NaN? || ParseUnsigned(u).IsInteger()
  {
    var hex := |u| >= 2 && u[0] == '0' && (u[1] == 'x' || u[1] == 'X');
    var v := if hex then u[2..] else u;
    var radix := if hex then 16 else 10;
    var k := DigitRun(v, radix);
    if k > 0 {
      var m: int := NumeralValue(v[..k], radix);
      assert ParseUnsigned(u) == Finite(m as real);
      assert (m as real).Floor == m;
      assert -(m as real) == (-m) as real;
      assert ((-m) as real).Floor == -m;
    }
  }

  lemma {:induction false} NumeralOfNatToString(n: nat)
    ensures NumeralValue(NatToString(n), 10) == n
  {
    if n >= 10 {
      NumeralOfNatToString(n / 10);
      var r := NatToString(n);
      assert r[..|r| - 1] == NatToString(n / 10);
    }
  }

  lemma {:induction false} DigitRunOfNumeral(z: string, rest: string)
    requires forall i :: 0 <= i < |z| ==> IsDecimalDigit(z[i])
    requires rest == [] || !IsDecimalDigit(rest[0])
    ensures DigitRun(z + rest, 10) == |z|
  {
    if z != [] {
      assert (z + rest)[1..] == z[1..] + rest;
      DigitRunOfNumeral(z[1..], rest);
    }
  }

  /** Text that starts with a decimal digit not followed by `x`/`X` is read in base 10, without trimming or sign. */
  lemma ParseIntOfDecimal(s: string)
    requires s != [] && IsDecimalDigit(s[0])
    requires |s| < 2 || (s[1] != 'x' && s[1] != 'X')
    ensures ParseInt(s) == ParseDigits(s, 10)
  {
    assert TrimStart(s) == s;
  }

  /** The digits of a numeral followed by a non-digit are read as the numeral's value. */
  lemma ParseDigitsOfNumeral(z: string, rest: string)
    requires z != [] && forall i :: 0 <= i < |z| ==> IsDecimalDigit(z[i]) && DigitValue(z[i], 10).Some?
    requires rest == [] || !IsDecimalDigit(rest[0])
    ensures ParseDigits(z + rest, 10) == Finite(NumeralValue(z, 10) as real)
  {
    DigitRunOfNumeral(z, rest);
    assert (z + rest)[..|z|] == z;
  }

  /**
   * `parseInt` reads back the numeral of every whole number, and stops at the
   * first character that is not a digit (so `"2.5"` reads as 2). An `x` right
   * after a lone `0` would instead start a hexadecimal numeral.
   */
  lemma ParseIntOfNumeral(n: nat, rest: string)
    requires rest == [] || (!IsDecimalDigit(rest[0]) && rest[0] != 'x' && rest[0] != 'X')
    ensures ParseInt(NatToString(n) + rest) == Finite(n as real)
  {
    var z := NatToString(n);
    var s := z + rest;
    assert s[0] == z[0];
    assert |s| >= 2 ==> s[1] == if |z| >= 2 then z[1] else rest[0];
    ParseIntOfDecimal(s);
    ParseDigitsOfNumeral(z, rest);
    NumeralOfNatToString(n);
  }

  /** An empty or digit-less field reads as NaN. */
  lemma ParseIntNoDigits(s: string)
    requires forall i :: 0 <= i < |s| ==> !IsDecimalDigit(s[i])
    ensures ParseInt(s) == NaN
  {
    var t := TrimStart(s);
    var u := if t != [] && (t[0] == '-' || t[0] == '+') then t[1..] else t;
    assert u == [] || u[0] == s[|s| - |u|];
    assert DigitRun(u, 10) == 0;
  }
}

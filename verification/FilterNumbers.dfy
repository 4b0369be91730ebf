/** What number literals mean: decimal notation, with leading zeros and a sign, against the conversions of the lexer
    (pkg/consolegraphql/filter/lex.go:643-677). */
module FilterNumbers {
  import opened FilterLexer

  // ----- Decimal notation -----

  const DIGITS := "0123456789"

  /** A number in decimal notation, by repeated division. */
  function Decimal(n: nat): (s: string)
    ensures s != []
  {
    if n < 10 then [DIGITS[n]] else Decimal(n / 10) + [DIGITS[n % 10]]
  }

  predicate Digits(s: string) { s != [] && AllDigits(s) }

  predicate AllZeros(s: string) { forall c :: c in s ==> c == '0' }

  /** The decimal notation of `n` after any number of zeros. */
  ghost predicate Spells(digits: string, n: nat) {
    exists k :: 0 <= k <= |digits| && AllZeros(digits[..k]) && digits[k..] == Decimal(n)
  }

  predicate IsSign(s: string) { s == "" || s == "+" || s == "-" }

  function WithSign(sign: string, n: nat): int { if sign == "-" then 0 - n else n }

  ghost predicate SpellsInt(text: string, i: int) {
    exists sign, digits, n: nat :: IsSign(sign) && text == sign + digits && Spells(digits, n) && i == WithSign(sign, n)
  }

  /** `text` is the number `r` with a decimal point: as many times ten as digits come after the point, it is the integer that the
      digits before and after the point spell together. */
  ghost predicate SpellsFloat(text: string, r: real) {
    exists sign, a, b, n: nat ::
      && IsSign(sign) && text == sign + (a + ("." + b)) && a != [] && b != []
      && Spells(a + b, n) && r * TenTo(|b|) == WithSign(sign, n) as real
  }

  // ----- Digits against numbers -----

  lemma DigitFacts(d: nat)
    requires d < 10
    ensures IsDigit(DIGITS[d]) && Digit(DIGITS[d]) == d
  {
  }

  lemma DigitSpelled(c: char)
    requires IsDigit(c)
    ensures 0 <= Digit(c) < 10 && DIGITS[Digit(c)] == c
  {
  }

  lemma NaturalLast(s: string, c: char)
    ensures Natural(s + [c]) == 10 * Natural(s) + Digit(c)
  {
    assert (s + [c])[..|s|] == s;
  }

  lemma {:induction false} NaturalDecimal(n: nat)
    ensures Digits(Decimal(n)) && Natural(Decimal(n)) == n
  {
    if n < 10 {
      DigitFacts(n);
      NaturalLast([], DIGITS[n]);
      assert [] + [DIGITS[n]] == Decimal(n);
    } else {
      NaturalDecimal(n / 10);
      DigitFacts(n % 10);
      NaturalLast(Decimal(n / 10), DIGITS[n % 10]);
    }
  }

  lemma {:induction false} NaturalAfterZeros(zeros: string, s: string)
    requires AllZeros(zeros)
    ensures Natural(zeros + s) == Natural(s)
    decreases |zeros| + |s|
  {
    if s != [] {
      var t, c := s[..|s| - 1], s[|s| - 1];
      NaturalAfterZeros(zeros, t);
      NaturalLast(t, c);
      NaturalLast(zeros + t, c);
      assert s == t + [c] && zeros + s == (zeros + t) + [c];
    } else if zeros != [] {
      var z, c := zeros[..|zeros| - 1], zeros[|zeros| - 1];
      assert c in zeros && zeros + s == z + [c] && z + [] == z && forall d :: d in z ==> d in zeros;
      NaturalAfterZeros(z, []);
      NaturalLast(z, c);
    }
  }

  lemma SpelledIsNatural(digits: string, n: nat)
    requires Spells(digits, n)
    ensures Digits(digits) && Natural(digits) == n
  {
    var k :| 0 <= k <= |digits| && AllZeros(digits[..k]) && digits[k..] == Decimal(n);
    assert digits == digits[..k] + digits[k..];
    NaturalDecimal(n);
    NaturalAfterZeros(digits[..k], digits[k..]);
  }

  lemma SpellsWith(digits: string, k: nat, n: nat)
    requires k <= |digits| && AllZeros(digits[..k]) && digits[k..] == Decimal(n)
    ensures Spells(digits, n)
  {
  }

  lemma DecimalNext(m: nat, c: char)
    requires IsDigit(c)
    ensures 0 <= Digit(c) && Decimal(10 * m + Digit(c)) == if m == 0 then [c] else Decimal(m) + [c]
  {
    DigitSpelled(c);
    Parted(m, Digit(c));
  }

  lemma Parted(m: nat, d: nat)
    requires d < 10
    ensures (10 * m + d) / 10 == m && (10 * m + d) % 10 == d
  {
  }

  /** One more digit. */
  lemma SpellsNext(t: string, m: nat, c: char)
    requires Spells(t, m) && IsDigit(c)
    ensures 0 <= Digit(c) && Spells(t + [c], 10 * m + Digit(c))
  {
    hide Spells;
    var digits := t + [c];
    var k := ZerosOf(t, m);
    DecimalNext(m, c);
    if m == 0 {
      assert t == t[..k] + "0" && digits[..|t|] == t && digits[|t|..] == [c];
      hide Decimal;
      SpellsWith(digits, |t|, Digit(c));
    } else {
      hide Decimal;
      assert digits[..k] == t[..k] && digits[k..] == t[k..] + [c];
      SpellsWith(digits, k, 10 * m + Digit(c));
    }
  }

  lemma ZerosOf(digits: string, n: nat) returns (k: nat)
    requires Spells(digits, n)
    ensures k <= |digits| && AllZeros(digits[..k]) && digits[k..] == Decimal(n)
  {
    k :| 0 <= k <= |digits| && AllZeros(digits[..k]) && digits[k..] == Decimal(n);
  }

  lemma {:induction false} NaturalIsSpelled(digits: string) returns (n: nat)
    requires Digits(digits)
    ensures n == Natural(digits) && Spells(digits, n)
    decreases |digits|
  {
    hide Spells, Natural, Decimal;
    var t, c := digits[..|digits| - 1], digits[|digits| - 1];
    assert digits == t + [c] && c in digits && forall d :: d in t ==> d in digits;
    DigitSpelled(c);
    NaturalLast(t, c);
    if t == [] {
      n := Digit(c);
      DecimalNext(0, c);
      NaturalOfNone();
      SpellsWith(digits, 0, n);
    } else {
      var m := NaturalIsSpelled(t);
      n := 10 * m + Digit(c);
      SpellsNext(t, m, c);
    }
  }

  lemma NaturalOfNone()
    ensures Natural([]) == 0
  {
  }

  /** Every list of digits spells one number: the decimal notation and the digit sum agree both ways. */
  lemma SpellsExactly(digits: string, n: nat)
    ensures Spells(digits, n) <==> Digits(digits) && Natural(digits) == n
  {
    hide Spells;
    if Spells(digits, n) {
      SpelledIsNatural(digits, n);
    } else if Digits(digits) {
      var m := NaturalIsSpelled(digits);
    }
  }

  // ----- The conversions of the lexer -----

  lemma SignOf(text: string) returns (sign: string)
    ensures IsSign(sign) && text == sign + Unsigned(text) && (sign == "-" <==> text != [] && text[0] == '-')
  {
    sign := if Unsigned(text) == text then [] else [text[0]];
  }

  lemma SignDrops(sign: string, rest: string)
    requires IsSign(sign) && rest != [] && IsDigit(rest[0])
    ensures Unsigned(sign + rest) == rest && ((sign + rest)[0] == '-' <==> sign == "-")
  {
    assert [] + rest == rest;
  }

  /** The lexeme of an integer is a sign and digits, and its value is the number that they spell. */
  lemma IntegralExact(text: string, i: int)
    ensures SpellsInt(text, i) <==> Digits(Unsigned(text)) && IntegralValue(text) == i
  {
    hide Spells, Natural, Unsigned;
    if SpellsInt(text, i) {
      var sign, digits, n: nat :| IsSign(sign) && text == sign + digits && Spells(digits, n) && i == WithSign(sign, n);
      SpellsExactly(digits, n);
      assert digits[0] in digits;
      SignDrops(sign, digits);
    }
    if Digits(Unsigned(text)) {
      var sign := SignOf(text);
      var n := NaturalIsSpelled(Unsigned(text));
      assert IntegralValue(text) == WithSign(sign, n);
      assert SpellsInt(text, IntegralValue(text));
    }
  }

  lemma TenToNext(n: nat)
    ensures TenTo(0) == 1.0 && TenTo(n + 1) == 10.0 * TenTo(n)
  {
  }

  lemma Shifted(x: real, p: real, y: real, d: real)
    ensures 10.0 * (x * p + y) + d == x * (10.0 * p) + (10.0 * y + d)
  {
  }

  lemma {:induction false} NaturalConcat(a: string, b: string)
    ensures Natural(a + b) as real == Natural(a) as real * TenTo(|b|) + Natural(b) as real
    decreases |b|
  {
    hide Natural, TenTo;
    if b == [] {
      assert a + b == a;
      TenToNext(0);
      NaturalOfNone();
    } else {
      var t, c := b[..|b| - 1], b[|b| - 1];
      NaturalConcat(a, t);
      TenToNext(|t|);
      NaturalLast(t, c);
      NaturalLast(a + t, c);
      assert b == t + [c] && a + b == (a + t) + [c];
      Shifted(Natural(a) as real, TenTo(|t|), Natural(t) as real, Digit(c) as real);
    }
  }

  lemma {:induction false} PointAfter(a: string, b: string)
    requires AllDigits(a)
    ensures Point(a + ("." + b)) == |a|
  {
    if a != [] {
      assert a[0] in a && (a + ("." + b))[1..] == a[1..] + ("." + b) && forall d :: d in a[1..] ==> d in a;
      PointAfter(a[1..], b);
    }
  }

  lemma UnsignedParts(sign: string, a: string, b: string)
    requires IsSign(sign) && Digits(a)
    ensures var u := a + ("." + b);
            && Unsigned(sign + u) == u && Point(u) == |a| && u[..|a|] == a && u[|a| + 1..] == b
            && sign + u != [] && ((sign + u)[0] == '-' <==> sign == "-")
  {
    hide Point;
    var u := a + ("." + b);
    assert a[0] in a;
    SignDrops(sign, u);
    PointAfter(a, b);
  }

  lemma FloatParts(sign: string, a: string, b: string)
    requires IsSign(sign) && Digits(a)
    ensures var text, v := sign + (a + ("." + b)), Magnitude(a, b);
            Unsigned(text) == a + ("." + b) && FloatValue(text) == if sign == "-" then -v else v
  {
    hide Magnitude, Point, Unsigned, Digits, IsSign;
    UnsignedParts(sign, a, b);
  }

  lemma MagnitudeScaled(a: string, b: string)
    ensures Magnitude(a, b) * TenTo(|b|) == Natural(a + b) as real && (-Magnitude(a, b)) * TenTo(|b|) == -(Natural(a + b) as real)
  {
    hide Natural, TenTo;
    TenToPositive(|b|);
    NaturalConcat(a, b);
    Scaled(Natural(a) as real, Natural(b) as real, TenTo(|b|));
  }

  /** The value of a lexeme with a point, scaled up by its fraction. */
  lemma FloatScaled(sign: string, a: string, b: string)
    requires IsSign(sign) && Digits(a)
    ensures var text := sign + (a + ("." + b));
            && Unsigned(text) == a + ("." + b)
            && FloatValue(text) * TenTo(|b|) == if sign == "-" then -(Natural(a + b) as real) else Natural(a + b) as real
  {
    hide Natural, Unsigned, TenTo, FloatValue, Magnitude;
    FloatParts(sign, a, b);
    MagnitudeScaled(a, b);
  }

  lemma Scaled(x: real, y: real, p: real)
    requires p > 0.0
    ensures (x + y / p) * p == x * p + y && (-(x + y / p)) * p == -(x * p + y)
  {
    assert (y / p) * p == y;
  }

  lemma ScaledOnce(x: real, y: real, p: real)
    requires p > 0.0 && x * p == y * p
    ensures x == y
  {
    assert (x - y) * p == 0.0;
  }

  lemma SpelledIsFloat(text: string, r: real)
    requires SpellsFloat(text, r)
    ensures (exists a, b :: Unsigned(text) == a + ("." + b) && Digits(a) && Digits(b)) && FloatValue(text) == r
  {
    hide Spells, Natural, Unsigned, FloatValue, TenTo;
    var sign, a, b, n: nat :| IsSign(sign) && text == sign + (a + ("." + b)) && a != [] && b != []
                              && Spells(a + b, n) && r * TenTo(|b|) == WithSign(sign, n) as real;
    SpellsExactly(a + b, n);
    assert forall c :: c in a || c in b ==> c in a + b;
    FloatScaled(sign, a, b);
    TenToPositive(|b|);
    ScaledOnce(FloatValue(text), r, TenTo(|b|));
  }

  lemma FloatIsSpelled(text: string, a: string, b: string)
    requires Unsigned(text) == a + ("." + b) && Digits(a) && Digits(b)
    ensures SpellsFloat(text, FloatValue(text))
  {
    hide Spells, Natural, Unsigned, FloatValue, TenTo;
    var sign := SignOf(text);
    FloatScaled(sign, a, b);
    var n := NaturalIsSpelled(a + b);
    assert text == sign + (a + ("." + b)) && FloatValue(text) * TenTo(|b|) == WithSign(sign, n) as real;
  }

  /** The lexeme of a float is a sign and digits with a point among them, and its value is the number that they spell. */
  lemma FloatExact(text: string, r: real)
    ensures SpellsFloat(text, r) <==>
            (exists a, b :: Unsigned(text) == a + ("." + b) && Digits(a) && Digits(b)) && FloatValue(text) == r
  {
    hide SpellsFloat, FloatValue, Unsigned, Digits;
    if SpellsFloat(text, r) {
      SpelledIsFloat(text, r);
    }
    if a, b :| Unsigned(text) == a + ("." + b) && Digits(a) && Digits(b) {
      FloatIsSpelled(text, a, b);
    }
  }

  // ----- The largest double -----

  lemma {:induction false} PowersAdd(m: nat, n: nat)
    ensures PowerOfTwo(m + n) == PowerOfTwo(m) * PowerOfTwo(n)
  {
    if m > 0 {
      PowersAdd(m - 1, n);
      assert PowerOfTwo(m + n) == 2.0 * PowerOfTwo((m - 1) + n);
    }
  }

  /** 53 binary digits. */
  lemma Mantissa()
    ensures PowerOfTwo(53) == 0x20_0000_0000_0000 as real
  {
    assert PowerOfTwo(4) == 16.0;
    PowersAdd(4, 4);
    PowersAdd(8, 8);
    PowersAdd(16, 16);
    PowersAdd(32, 16);
    PowersAdd(48, 4);
    PowersAdd(52, 1);
  }

  lemma Below(m: real, p: real, q: real)
    requires p == 2.0 * q
    ensures (m - 1.0) * p + q == m * p - q
  {
  }

  lemma Doubled()
    ensures PowerOfTwo(971) == 2.0 * PowerOfTwo(970) && PowerOfTwo(970) > 0.0
  {
    PowerPositive(970);
  }

  lemma {:induction false} PowerPositive(n: nat)
    ensures PowerOfTwo(n) > 0.0
  {
    if n > 0 {
      PowerPositive(n - 1);
    }
  }

  /** A float is refused exactly when it lies half a unit in the last place, or more, beyond the largest double: 53 ones in
      binary, the last of them worth the 971st power of two. */
  lemma FloatLimit(r: real)
    ensures var largest := (0x20_0000_0000_0000 - 1) as real * PowerOfTwo(971);
            IsFloat(r) <==> (if r < 0.0 then -r else r) < largest + PowerOfTwo(970)
  {
    hide PowerOfTwo;
    Mantissa();
    PowersAdd(53, 971);
    Doubled();
    Below(PowerOfTwo(53), PowerOfTwo(971), PowerOfTwo(970));
  }
}

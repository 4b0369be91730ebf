/** When a call of the lexer panics (pkg/consolegraphql/filter/lex.go:89-831). */
module FilterPanics {
  import opened GoInt
  import opened FilterSyntax
  import opened FilterLexer
  import opened FilterNumbers
  import opened FilterText

  // ----- The text from a position on -----

  /** The first position from `i` on that holds no white space. */
  function InkFrom(data: string, i: nat): (j: nat)
    requires i <= |data|
    ensures i <= j <= |data| && (j < |data| ==> !IsSpace(data[j]))
    decreases |data| - i
  {
    if i < |data| && IsSpace(data[i]) then InkFrom(data, i + 1) else i
  }

  function DigitsEnd(data: string, i: nat): (j: nat)
    requires i <= |data|
    ensures i <= j <= |data| && (forall k :: i <= k < j ==> IsDigit(data[k])) && (j < |data| ==> !IsDigit(data[j]))
    decreases |data| - i
  {
    if i < |data| && IsDigit(data[i]) then DigitsEnd(data, i + 1) else i
  }

  function SignEnd(data: string, i: nat): (j: nat)
    requires i <= |data|
    ensures i <= j <= |data|
  {
    if i < |data| && (data[i] == '+' || data[i] == '-') then i + 1 else i
  }

  predicate StartsNumber(data: string, i: nat)
    requires i <= |data|
  {
    var j := SignEnd(data, i);
    j < |data| && IsDigit(data[j])
  }

  predicate HasFraction(data: string, e: nat) { e + 1 < |data| && data[e] == '.' && IsDigit(data[e + 1]) }

  /** A number starts here that, as spelled, fits no int or no double. */
  ghost predicate HugeNumber(data: string, i: nat)
    requires i <= |data|
  {
    StartsNumber(data, i) &&
    var e := DigitsEnd(data, SignEnd(data, i));
    if HasFraction(data, e) then exists r :: SpellsFloat(data[i..DigitsEnd(data, e + 1)], r) && !IsFloat(r)
    else exists n :: SpellsInt(data[i..e], n) && !IsInt(n)
  }

  /** A string or a path is opened, and its delimiter does not come again. */
  predicate OpenLiteral(data: string, i: nat)
    requires i <= |data|
  {
    i < |data| && (data[i] == '\'' || data[i] == '`') && data[i] !in data[i + 1..]
  }

  /** The call that starts here panics: the next number is too large, or an open literal starts right here while `act` still
      remembers an earlier literal. */
  ghost predicate WillPanic(data: string, s: Scan)
    requires 0 <= s.p <= |data|
  {
    HugeNumber(data, InkFrom(data, s.p)) || (OpenLiteral(data, s.p) && (s.act == 3 || s.act == 4))
  }

  // ----- White space -----

  lemma {:induction false} SkipsToInk(data: string, s: Scan)
    requires 0 <= s.p <= |data| && s.cs == START
    ensures var i := InkFrom(data, s.p);
            Lexed(data, s) == Lexed(data, if i == s.p then s else Scan(i, START, 0, i, 0))
    decreases |data| - s.p
  {
    hide Lexed;
    if s.p < |data| && IsSpace(data[s.p]) {
      var s1 := Scan(s.p + 1, START, 0, s.p + 1, 0);
      assert Advance(data, s) == Resume(s1);
      hide Advance;
      Resumes(data, s, s1);
      SkipsToInk(data, s1);
    }
  }

  // ----- Keywords and signs -----

  /** The states inside keywords and operators. */
  predicate InWord(cs: int) { cs == 1 || 5 <= cs <= 26 || cs == 33 || cs == 34 }

  lemma WordStep(data: string, s: Scan)
    requires 0 <= s.p < |data| && InWord(s.cs)
    ensures match Advance(data, s)
            case Resume(s') => InWord(s'.cs)
            case Return(o) => !o.Panic?
  {
    hide Letter;
  }

  lemma {:induction false} WordsNeverPanic(data: string, s: Scan)
    requires 0 <= s.p <= |data| && InWord(s.cs)
    ensures !Lexed(data, s).Panic?
    decreases |data| - s.p
  {
    hide Advance;
    if s.p < |data| {
      WordStep(data, s);
      if Advance(data, s).Resume? {
        WordsNeverPanic(data, Advance(data, s).s);
      }
    }
  }

  // ----- Strings and paths -----

  /** A literal whose delimiter has come again can end there. */
  predicate Closable(s: Scan) {
    0 <= s.ts && s.ts + 2 <= s.te <= s.p && (((s.cs == 2 || s.cs == 30) && s.act == 3) || ((s.cs == 27 || s.cs == 28 || s.cs == 35) && s.act == 4))
  }

  lemma ClosableStep(data: string, s: Scan)
    requires 0 <= s.p < |data| && Closable(s)
    ensures match Advance(data, s)
            case Resume(s') => Closable(s')
            case Return(o) => !o.Panic?
  {
    hide UndoubleQuotes, UntripleTicks;
    var (cs, move) := Transition(s.cs, data[s.p]);
    assert (cs, move) == if s.cs == 2 then (if data[s.p] == '\'' then (30, MarkAs(3)) else (2, Go))
                         else if s.cs == 30 then (if data[s.p] == '\'' then (2, Go) else (START, Hold(StringKind)))
                         else if s.cs == 27 then (if data[s.p] == '`' then (35, MarkAs(4)) else (27, Go))
                         else if s.cs == 35 then (if data[s.p] == '`' then (28, Go) else (START, Hold(PathKind)))
                         else (if data[s.p] == '`' then (27, Go) else (START, Back(PathKind)));
    hide Transition;
  }

  lemma {:induction false} ClosableNeverPanics(data: string, s: Scan)
    requires 0 <= s.p <= |data| && Closable(s)
    ensures !Lexed(data, s).Panic?
    decreases |data| - s.p
  {
    hide UndoubleQuotes, UntripleTicks;
    if s.p < |data| {
      ClosableStep(data, s);
      hide Advance;
      if Advance(data, s).Resume? {
        ClosableNeverPanics(data, Advance(data, s).s);
      }
    }
  }

  /** Inside a literal whose delimiter has not come again. */
  lemma {:induction false} OpenPanics(data: string, s: Scan)
    requires 0 <= s.ts < s.p <= |data| && 0 <= s.te <= s.ts && (s.cs == 2 || s.cs == 27)
    ensures Lexed(data, s).Panic? <==> (if s.cs == 2 then '\'' else '`') !in data[s.p..] && (s.act == 3 || s.act == 4)
    decreases |data| - s.p
  {
    var quote := if s.cs == 2 then '\'' else '`';
    if s.p < |data| {
      assert data[s.p..] == [data[s.p]] + data[s.p + 1..];
      if data[s.p] != quote {
        var s1 := s.(p := s.p + 1);
        Resumes(data, s, s1);
        OpenPanics(data, s1);
      } else {
        var s1 := s.(p := s.p + 1, te := s.p + 1, cs := if s.cs == 2 then 30 else 35, act := if s.cs == 2 then 3 else 4);
        Resumes(data, s, s1);
        ClosableNeverPanics(data, s1);
      }
    }
  }

  // ----- Numbers -----

  /** What the digits up to `e` are converted to, with the fraction that may follow, fits no int or no double. */
  predicate Unfit(data: string, ts: nat, e: nat)
    requires ts <= e <= |data|
  {
    if HasFraction(data, e) then !IsFloat(FloatValue(data[ts..DigitsEnd(data, e + 1)]))
    else !IsInt(IntegralValue(data[ts..e]))
  }

  lemma UnsignedPart(data: string, i: nat, e: nat)
    requires i <= e <= |data| && StartsNumber(data, i) && SignEnd(data, i) <= e
    ensures Unsigned(data[i..e]) == data[SignEnd(data, i)..e]
  {
    var j := SignEnd(data, i);
    assert j < e ==> data[i..e][0] == data[i];
  }

  /** An integer is as spelled. */
  lemma IntegerSpelled(text: string, digits: string)
    requires Unsigned(text) == digits && Digits(digits)
    ensures (exists n :: SpellsInt(text, n) && !IsInt(n)) <==> !IsInt(IntegralValue(text))
  {
    hide IntegralValue, SpellsInt, Unsigned;
    IntegralExact(text, IntegralValue(text));
    forall n | SpellsInt(text, n)
      ensures n == IntegralValue(text)
    {
      IntegralExact(text, n);
    }
  }

  lemma FloatSpelled(text: string, a: string, b: string)
    requires Unsigned(text) == a + ("." + b) && Digits(a) && Digits(b)
    ensures (exists r :: SpellsFloat(text, r) && !IsFloat(r)) <==> !IsFloat(FloatValue(text))
  {
    hide IsFloat, FloatValue, SpellsFloat, Unsigned;
    FloatExact(text, FloatValue(text));
    forall r | SpellsFloat(text, r)
      ensures r == FloatValue(text)
    {
      FloatExact(text, r);
    }
  }

  lemma DigitsBetween(data: string, i: nat)
    requires i < |data| && IsDigit(data[i])
    ensures i < DigitsEnd(data, i) && Digits(data[i..DigitsEnd(data, i)])
  {
    assert DigitsEnd(data, i) >= i + 1;
  }

  lemma Parts(data: string, j: nat, e: nat, f: nat)
    requires j <= e < f <= |data| && data[e] == '.'
    ensures data[j..f] == data[j..e] + ("." + data[e + 1..f])
  {
  }

  lemma HugeFloat(data: string, i: nat, e: nat)
    requires i <= |data| && StartsNumber(data, i) && e == DigitsEnd(data, SignEnd(data, i)) && HasFraction(data, e)
    ensures var text := data[i..DigitsEnd(data, e + 1)];
            (exists r :: SpellsFloat(text, r) && !IsFloat(r)) <==> !IsFloat(FloatValue(text))
  {
    hide IsFloat, FloatValue, SpellsFloat, Unsigned, Digits, DigitsEnd, AllDigits;
    var j, f := SignEnd(data, i), DigitsEnd(data, e + 1);
    DigitsBetween(data, j);
    UnsignedPart(data, i, f);
    DigitsBetween(data, e + 1);
    Parts(data, j, e, f);
    FloatSpelled(data[i..f], data[j..e], data[e + 1..f]);
  }

  lemma HugeInteger(data: string, i: nat, e: nat)
    requires i <= |data| && StartsNumber(data, i) && e == DigitsEnd(data, SignEnd(data, i))
    ensures (exists n :: SpellsInt(data[i..e], n) && !IsInt(n)) <==> !IsInt(IntegralValue(data[i..e]))
  {
    hide IntegralValue, SpellsInt, Unsigned, Digits, DigitsEnd, AllDigits;
    var j := SignEnd(data, i);
    DigitsBetween(data, j);
    UnsignedPart(data, i, e);
    IntegerSpelled(data[i..e], data[j..e]);
  }

  lemma HugeIsUnfit(data: string, i: nat)
    requires i <= |data| && StartsNumber(data, i)
    ensures HugeNumber(data, i) <==> Unfit(data, i, DigitsEnd(data, SignEnd(data, i)))
  {
    hide IsFloat, FloatValue, IntegralValue, SpellsInt, SpellsFloat, DigitsEnd, StartsNumber, IsInt;
    var e := DigitsEnd(data, SignEnd(data, i));
    if HasFraction(data, e) {
      HugeFloat(data, i, e);
    } else {
      HugeInteger(data, i, e);
    }
  }

  /** Inside the fraction. */
  lemma {:induction false} FractionPanics(data: string, s: Scan)
    requires 0 <= s.ts < s.p <= |data| && s.cs == 32
    ensures Lexed(data, s).Panic? <==> !IsFloat(FloatValue(data[s.ts..DigitsEnd(data, s.p)]))
    decreases |data| - s.p
  {
    hide IsFloat, FloatValue;
    if s.p < |data| && IsDigit(data[s.p]) {
      var s1 := s.(p := s.p + 1);
      Resumes(data, s, s1);
      FractionPanics(data, s1);
    }
  }

  /** After the decimal point. */
  lemma PointPanics(data: string, s: Scan)
    requires 0 <= s.ts < s.p <= |data| && s.cs == 4 && s.te == s.p - 1 >= s.ts && data[s.te] == '.'
    ensures Lexed(data, s).Panic? <==> Unfit(data, s.ts, s.te)
  {
    hide IsFloat, FloatValue, IntegralValue;
    if s.p < |data| && IsDigit(data[s.p]) {
      var s1 := s.(p := s.p + 1, cs := 32);
      Resumes(data, s, s1);
      FractionPanics(data, s1);
      assert DigitsEnd(data, s.p) == DigitsEnd(data, s1.p);
    }
  }

  /** After digits. */
  lemma {:induction false} IntegralPanics(data: string, s: Scan)
    requires 0 <= s.ts < s.p <= |data| && s.cs == 31 && s.te == s.p
    ensures Lexed(data, s).Panic? <==> Unfit(data, s.ts, DigitsEnd(data, s.p))
    decreases |data| - s.p
  {
    hide IsFloat, FloatValue, IntegralValue;
    if s.p < |data| && IsDigit(data[s.p]) {
      var s1 := s.(p := s.p + 1, te := s.p + 1);
      Resumes(data, s, s1);
      IntegralPanics(data, s1);
    } else if s.p < |data| && data[s.p] == '.' {
      var s1 := s.(p := s.p + 1, cs := 4);
      Resumes(data, s, s1);
      PointPanics(data, s1);
    }
  }

  // ----- A call -----

  lemma HugeStarts(data: string, i: nat)
    requires i <= |data|
    ensures HugeNumber(data, i) ==> StartsNumber(data, i)
  {
    hide DigitsEnd, SpellsInt, SpellsFloat, IsFloat;
  }

  lemma NumberPanics(data: string, s: Scan)
    requires 0 <= s.te <= s.p < |data| && s.cs == START && (IsDigit(data[s.p]) || data[s.p] == '+' || data[s.p] == '-')
    ensures Lexed(data, s).Panic? <==> HugeNumber(data, s.p)
  {
    hide Unfit, HugeNumber;
    if StartsNumber(data, s.p) {
      HugeIsUnfit(data, s.p);
    }
    HugeStarts(data, s.p);
    if IsDigit(data[s.p]) {
      var s1 := Scan(s.p + 1, 31, s.p, s.p + 1, s.act);
      Resumes(data, s, s1);
      IntegralPanics(data, s1);
    } else {
      var s1 := Scan(s.p + 1, 3, s.p, s.te, s.act);
      Resumes(data, s, s1);
      if s1.p < |data| && IsDigit(data[s1.p]) {
        var s2 := Scan(s.p + 2, 31, s.p, s.p + 2, s.act);
        Resumes(data, s1, s2);
        IntegralPanics(data, s2);
      }
    }
  }

  lemma InkPanics(data: string, s: Scan)
    requires 0 <= s.te <= s.p <= |data| && s.cs == START && (s.p < |data| ==> !IsSpace(data[s.p]))
    ensures Lexed(data, s).Panic? <==> HugeNumber(data, s.p) || (OpenLiteral(data, s.p) && (s.act == 3 || s.act == 4))
  {
    hide HugeNumber;
    HugeStarts(data, s.p);
    if s.p < |data| {
      var c := data[s.p];
      if IsDigit(c) || c == '+' || c == '-' {
        NumberPanics(data, s);
      } else if c == '\'' || c == '`' {
        var s1 := s.(p := s.p + 1, ts := s.p, cs := if c == '\'' then 2 else 27);
        Resumes(data, s, s1);
        OpenPanics(data, s1);
      } else {
        OtherPanics(data, s);
      }
    }
  }

  lemma OtherPanics(data: string, s: Scan)
    requires 0 <= s.p < |data| && s.cs == START && !IsSpace(data[s.p])
    requires var c := data[s.p]; !IsDigit(c) && c != '+' && c != '-' && c != '\'' && c != '`'
    ensures !Lexed(data, s).Panic?
  {
    var s1 := s.(p := s.p + 1, ts := s.p, cs := Transition(START, data[s.p]).0);
    if InWord(s1.cs) {
      Resumes(data, s, s1);
      WordsNeverPanic(data, s1);
    }
  }

  /** Exactly when a call panics. */
  lemma PanicExact(data: string, s: Scan)
    requires 0 <= s.te <= s.p <= |data| && s.cs == START
    ensures Lexed(data, s).Panic? <==> WillPanic(data, s)
  {
    hide HugeNumber, Lexed;
    var i := InkFrom(data, s.p);
    SkipsToInk(data, s);
    InkPanics(data, if i == s.p then s else Scan(i, START, 0, i, 0));
  }

  /** Two tokens are read from 'a'='b, and the third call panics: the string closed before has left `act` at 3. */
  lemma StaleLiteral()
    ensures TokensFrom("'a'='b", FRESH) == [STRING("a"), EQ] && Breaks("'a'='b", FRESH)
  {
    var data := "'a'='b";
    var s1, s2, s3 := Scan(1, 2, 0, 0, 0), Scan(2, 2, 0, 0, 0), Scan(3, 30, 0, 3, 3);
    Resumes(data, FRESH, s1);
    Resumes(data, s1, s2);
    Resumes(data, s2, s3);
    var s4, s5 := Scan(3, START, 0, 3, 3), Scan(4, START, 3, 4, 3);
    assert data[1..2] == "a" && UndoubleQuotes("a") == "a";
    assert Lexed(data, s3) == Found(STRING("a"), s4);
    assert Lexed(data, s4) == Found(EQ, s5);
    assert data[4] == '\'' && data[5..] == "b";
    PanicExact(data, s5);
    hide Lexed;
    TokensNext(data, FRESH);
    TokensNext(data, s4);
    TokensNext(data, s5);
  }

  // ----- The text of an integer -----

  lemma {:induction false} AllDigitsEnd(data: string, i: nat)
    requires i <= |data| && AllDigits(data[i..])
    ensures DigitsEnd(data, i) == |data|
    decreases |data| - i
  {
    if i < |data| {
      assert data[i] == data[i..][0] && data[i..] == [data[i]] + data[i + 1..];
      AllDigitsEnd(data, i + 1);
    }
  }

  lemma HugeText(text: string, digits: string, n: int)
    requires Unsigned(text) == digits && Digits(digits) && SpellsInt(text, n) && !IsInt(n)
    ensures WillPanic(text, FRESH)
  {
    hide SpellsInt, SpellsFloat, IsFloat;
    var j := SignEnd(text, 0);
    assert digits == text[j..] && digits[0] == text[j];
    assert digits[0] in digits;
    AllDigitsEnd(text, j);
    assert text[0..|text|] == text;
  }

  lemma TokenText(text: string, t: Token)
    requires Writes(text, t)
    ensures TokensFrom(text, FRESH) == [t] && !Breaks(text, FRESH)
  {
    hide TokensFrom, Breaks, Lexed, Reachable, Writes;
    FreshIsReachable(text);
    var ws := [Written([], text, t)];
    assert ws[1..] == [];
    assert Text([], []) == [] && Text(ws, []) == [] + (text + []) == text;
    assert text[0..] == text && TokensOf([]) == [] && TokensOf(ws) == [t];
    assert WellWritten([], []) && Separates(t, []);
    LexesWritten(text, FRESH, ws, []);
    LexesToTokens(text, FRESH, [t]);
  }

  /** A text that is just an integer, with any number of leading zeros, is one token with that number, or a panic if the number
      fits no int. */
  lemma IntegralText(sign: string, zeros: string, n: nat)
    requires IsSign(sign) && AllZeros(zeros)
    ensures var text, v := sign + (zeros + Decimal(n)), WithSign(sign, n);
            if IsInt(v) then TokensFrom(text, FRESH) == [INTEGRAL(v)] && !Breaks(text, FRESH) else Breaks(text, FRESH)
  {
    hide TokensFrom, Breaks, Lexed, Reachable, Decimal, WillPanic;
    var digits, v := zeros + Decimal(n), WithSign(sign, n);
    var text := sign + digits;
    SpellsWith(digits, |zeros|, n);
    assert SpellsInt(text, v);
    hide Spells, SpellsInt, Unsigned, IntegralValue;
    if IsInt(v) {
      TokenText(text, INTEGRAL(v));
    } else {
      IntegralExact(text, v);
      FreshIsReachable(text);
      HugeText(text, Unsigned(text), v);
      PanicExact(text, FRESH);
      TokensNext(text, FRESH);
    }
  }

  lemma FreshIsReachable(data: string)
    ensures Reachable(data, FRESH)
  {
  }
}

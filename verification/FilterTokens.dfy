/** Every token that the lexer returns was written in the text (pkg/consolegraphql/filter/lex.go:89-831). */
module FilterTokens {
  import opened FilterSyntax
  import opened FilterLexer
  import opened FilterNumbers
  import opened FilterText
  import opened FilterPanics

  /** The call from `s` has read the token in `o` from position `from` on. */
  ghost predicate Wrote(data: string, o: LexOutcome, from: nat) {
    o.Found? ==> from <= o.scan.p <= |data| && Writes(data[from..o.scan.p], o.t)
  }

  // ----- Keywords and operators -----

  /** What has been read in a state inside a keyword or an operator, in capitals. */
  function WordAt(cs: int): string {
    match cs
    case 1 => "!" case 33 => "<" case 34 => ">"
    case 5 => "A" case 6 => "AN" case 7 => "AS"
    case 8 => "D" case 9 => "DE" case 10 => "DES"
    case 11 => "F" case 12 => "FA" case 13 => "FAL" case 14 => "FALS"
    case 15 => "I"
    case 16 => "L" case 17 => "LI" case 18 => "LIK"
    case 19 => "N" case 20 => "NO" case 21 => "NU" case 22 => "NUL"
    case 23 => "O"
    case 24 => "T" case 25 => "TR" case 26 => "TRU"
    case _ => ""
  }

  /** Keywords and punctuation as they are written in capitals. */
  function Spelling(t: Token): string {
    match t
    case OR => "OR" case AND => "AND" case NOT => "NOT" case LIKE => "LIKE" case IS => "IS" case NULL => "NULL"
    case TRUE => "TRUE" case FALSE => "FALSE" case ASC => "ASC" case DESC => "DESC"
    case EQ => "=" case LT => "<" case GT => ">" case LE => "<=" case GE => ">=" case NE => "!="
    case LPAREN => "(" case RPAREN => ")" case COMMA => ","
    case _ => ""
  }

  lemma SpelledIsWritten(text: string, t: Token)
    requires SameLetters(text, Spelling(t)) && Spelling(t) != ""
    ensures Writes(text, t)
  {
  }

  /** What a transition does to a word: it adds a letter, completes it, or shows that it was complete before. */
  predicate Continues(cs: int, c: char, next: int, move: Move) {
    && (move.Go? && next != ERROR ==> InWord(next) && WordAt(next) == WordAt(cs) + [Upper(c)])
    && (move.Emit? ==> next == START && Spelling(move.t) == WordAt(cs) + [Upper(c)])
    && (move.Hold? ==> next == START && ((cs == 33 && move.kind.LessKind?) || (cs == 34 && move.kind.GreaterKind?)))
    && (move.Go? || move.Emit? || move.Hold?)
  }

  lemma EarlyWordMove(cs: int, c: char)
    requires InWord(cs) && cs <= 14
    ensures var (next, move) := Transition(cs, c); Continues(cs, c, next, move)
  {
  }

  lemma MiddleWordMove(cs: int, c: char)
    requires InWord(cs) && 14 < cs <= 22
    ensures var (next, move) := Transition(cs, c); Continues(cs, c, next, move)
  {
  }

  lemma LateWordMove(cs: int, c: char)
    requires InWord(cs) && 22 < cs
    ensures var (next, move) := Transition(cs, c); Continues(cs, c, next, move)
  {
  }

  lemma WordMove(cs: int, c: char)
    requires InWord(cs)
    ensures var (next, move) := Transition(cs, c); Continues(cs, c, next, move)
  {
    hide Transition, Continues;
    if cs <= 14 {
      EarlyWordMove(cs, c);
    } else if cs <= 22 {
      MiddleWordMove(cs, c);
    } else {
      LateWordMove(cs, c);
    }
  }

  lemma WordStart(c: char)
    ensures var (next, move) := Transition(START, c);
            && (move.Go? && InWord(next) ==> WordAt(next) == [Upper(c)])
            && (move.Emit? ==> next == START && Spelling(move.t) == [Upper(c)])
  {
  }

  lemma SameLettersSnoc(text: string, word: string, c: char)
    requires SameLetters(text, word)
    ensures SameLetters(text + [c], word + [Upper(c)])
  {
  }

  lemma SliceSnoc(data: string, i: nat, j: nat)
    requires i <= j < |data|
    ensures data[i..j + 1] == data[i..j] + [data[j]]
  {
  }

  lemma WordEnds(data: string, s: Scan)
    requires 0 <= s.ts < s.p == |data| && InWord(s.cs) && SameLetters(data[s.ts..s.p], WordAt(s.cs))
    ensures Wrote(data, Lexed(data, s), s.ts)
  {
    hide Writes, SameLetters;
    if s.cs == 33 || s.cs == 34 {
      SpelledIsWritten(data[s.ts..s.p], if s.cs == 33 then LT else GT);
    }
  }

  lemma WordGoesOn(data: string, s: Scan)
    requires 0 <= s.ts < s.p < |data| && InWord(s.cs) && SameLetters(data[s.ts..s.p], WordAt(s.cs))
    ensures match Advance(data, s)
            case Return(o) => Wrote(data, o, s.ts)
            case Resume(s1) => s1 == s.(p := s.p + 1, cs := s1.cs) && InWord(s1.cs) && SameLetters(data[s1.ts..s1.p], WordAt(s1.cs))
  {
    hide Transition, Writes, SameLetters, Upper, InWord, WordAt, Spelling;
    var c := data[s.p];
    var (next, move) := Transition(s.cs, c);
    WordMove(s.cs, c);
    SliceSnoc(data, s.ts, s.p);
    SameLettersSnoc(data[s.ts..s.p], WordAt(s.cs), c);
    WordFacts(s.cs);
    WordFacts(next);
    if move.Emit? {
      SpelledIsWritten(data[s.ts..s.p + 1], move.t);
    } else if move.Hold? {
      SpelledIsWritten(data[s.ts..s.p], if s.cs == 33 then LT else GT);
    }
  }

  lemma WordFacts(cs: int)
    ensures InWord(cs) ==> cs != START && cs != ERROR
    ensures WordAt(33) == Spelling(LT) == "<" && WordAt(34) == Spelling(GT) == ">"
  {
  }

  /** From inside a word on. */
  lemma {:induction false} WordWrites(data: string, s: Scan)
    requires 0 <= s.ts < s.p <= |data| && InWord(s.cs) && SameLetters(data[s.ts..s.p], WordAt(s.cs))
    ensures Wrote(data, Lexed(data, s), s.ts)
    decreases |data| - s.p
  {
    hide Advance, Wrote, SameLetters, WordAt;
    if s.p == |data| {
      WordEnds(data, s);
    } else {
      WordGoesOn(data, s);
      if Advance(data, s).Resume? {
        WordWrites(data, Advance(data, s).s);
      }
    }
  }

  // ----- Numbers -----

  /** Where a number that began before ends, and what it is. */
  function NumberLexed(data: string, s: Scan, e: nat): LexOutcome
    requires e <= |data|
  {
    if HasFraction(data, e) then
      var f := DigitsEnd(data, e + 1); Build(FloatKind, data, s.ts, f, s.(p := f, cs := START, te := f))
    else Build(IntegralKind, data, s.ts, e, s.(p := e, cs := START, te := e))
  }

  lemma {:induction false} FractionLexed(data: string, s: Scan)
    requires 0 <= s.ts < s.p <= |data| && s.cs == 32
    ensures var f := DigitsEnd(data, s.p); Lexed(data, s) == Build(FloatKind, data, s.ts, f, s.(p := f, cs := START, te := f))
    decreases |data| - s.p
  {
    hide Build;
    if s.p < |data| && IsDigit(data[s.p]) {
      var s1 := s.(p := s.p + 1);
      Resumes(data, s, s1);
      FractionLexed(data, s1);
    }
  }

  lemma PointLexed(data: string, s: Scan)
    requires 0 <= s.ts < s.p <= |data| && s.cs == 4 && s.te == s.p - 1 >= s.ts && data[s.te] == '.'
    ensures Lexed(data, s) == NumberLexed(data, s, s.te)
  {
    hide Build;
    if s.p < |data| && IsDigit(data[s.p]) {
      var s1 := s.(p := s.p + 1, cs := 32);
      Resumes(data, s, s1);
      FractionLexed(data, s1);
      assert DigitsEnd(data, s.p) == DigitsEnd(data, s1.p);
    }
  }

  lemma {:induction false} IntegralLexed(data: string, s: Scan)
    requires 0 <= s.ts < s.p <= |data| && s.cs == 31 && s.te == s.p
    ensures Lexed(data, s) == NumberLexed(data, s, DigitsEnd(data, s.p))
    decreases |data| - s.p
  {
    hide Build;
    if s.p < |data| && IsDigit(data[s.p]) {
      var s1 := s.(p := s.p + 1, te := s.p + 1);
      Resumes(data, s, s1);
      IntegralLexed(data, s1);
    } else if s.p < |data| && data[s.p] == '.' {
      var s1 := s.(p := s.p + 1, cs := 4);
      Resumes(data, s, s1);
      PointLexed(data, s1);
    }
  }

  lemma IntegerIsWritten(data: string, i: nat, e: nat, s: Scan)
    requires i <= e <= |data| && StartsNumber(data, i) && e == DigitsEnd(data, SignEnd(data, i))
    ensures Wrote(data, Build(IntegralKind, data, i, e, s.(p := e, cs := START, te := e)), i)
  {
    hide IntegralValue, SpellsInt, Unsigned, Digits, DigitsEnd, AllDigits;
    DigitsBetween(data, SignEnd(data, i));
    UnsignedPart(data, i, e);
    IntegralExact(data[i..e], IntegralValue(data[i..e]));
  }

  lemma FloatIsWritten(data: string, i: nat, e: nat, s: Scan)
    requires i <= e <= |data| && StartsNumber(data, i) && e == DigitsEnd(data, SignEnd(data, i)) && HasFraction(data, e)
    ensures var f := DigitsEnd(data, e + 1); Wrote(data, Build(FloatKind, data, i, f, s.(p := f, cs := START, te := f)), i)
  {
    hide IsFloat, FloatValue, SpellsFloat, Unsigned, Digits, DigitsEnd, AllDigits;
    var j, f := SignEnd(data, i), DigitsEnd(data, e + 1);
    DigitsBetween(data, j);
    UnsignedPart(data, i, f);
    DigitsBetween(data, e + 1);
    Parts(data, j, e, f);
    FloatExact(data[i..f], FloatValue(data[i..f]));
  }

  lemma NumberIsWritten(data: string, i: nat, s: Scan)
    requires i <= |data| && StartsNumber(data, i) && s.ts == i
    ensures Wrote(data, NumberLexed(data, s, DigitsEnd(data, SignEnd(data, i))), i)
  {
    hide Wrote, Build, StartsNumber;
    var e := DigitsEnd(data, SignEnd(data, i));
    if HasFraction(data, e) {
      FloatIsWritten(data, i, e, s);
    } else {
      IntegerIsWritten(data, i, e, s);
    }
  }

  lemma NumberWrites(data: string, s: Scan)
    requires 0 <= s.p < |data| && s.cs == START && (IsDigit(data[s.p]) || data[s.p] == '+' || data[s.p] == '-')
    ensures Wrote(data, Lexed(data, s), s.p)
  {
    hide Wrote, NumberLexed;
    if IsDigit(data[s.p]) {
      var s1 := Scan(s.p + 1, 31, s.p, s.p + 1, s.act);
      Resumes(data, s, s1);
      IntegralLexed(data, s1);
      NumberIsWritten(data, s.p, s1);
    } else {
      var s1 := Scan(s.p + 1, 3, s.p, s.te, s.act);
      Resumes(data, s, s1);
      if s1.p < |data| && IsDigit(data[s1.p]) {
        var s2 := Scan(s.p + 2, 31, s.p, s.p + 2, s.act);
        Resumes(data, s1, s2);
        IntegralLexed(data, s2);
        NumberIsWritten(data, s.p, s2);
      } else {
        SignAlone(data, s1, s.p);
      }
    }
  }

  lemma SignAlone(data: string, s: Scan, from: nat)
    requires 0 <= s.p <= |data| && s.cs == 3 && (s.p < |data| ==> !IsDigit(data[s.p]))
    ensures Wrote(data, Lexed(data, s), from)
  {
  }

  // ----- Strings -----

  ghost predicate IsDoubled(s: string) { exists b :: s == DoubleQuotes(b) }

  lemma {:induction false} DoubleSnoc(b: string, c: char)
    ensures DoubleQuotes(b + [c]) == DoubleQuotes(b) + if c == '\'' then "''" else [c]
  {
    if b == [] {
      assert b + [c] == [c] && [c][1..] == [];
    } else {
      DoubleSnoc(b[1..], c);
      assert (b + [c])[1..] == b[1..] + [c];
    }
  }

  lemma DoubledSnoc(s: string, c: char)
    requires IsDoubled(s)
    ensures IsDoubled(s + if c == '\'' then "''" else [c])
  {
    hide DoubleQuotes;
    var b :| s == DoubleQuotes(b);
    DoubleSnoc(b, c);
  }

  lemma NoneDoubled()
    ensures IsDoubled([])
  {
    assert DoubleQuotes([]) == [];
  }

  /** A string literal from `i` to `e`. */
  ghost predicate IsString(data: string, i: int, e: int) {
    0 <= i < e - 1 < |data| && data[i] == data[e - 1] == '\'' && IsDoubled(data[i + 1..e - 1])
  }

  lemma StringIsWritten(data: string, i: nat, e: nat, next: Scan)
    requires IsString(data, i, e) && next.p == e
    ensures Wrote(data, Build(StringKind, data, i, e, next), i)
  {
    hide DoubleQuotes, UndoubleQuotes;
    var body := data[i + 1..e - 1];
    var b :| body == DoubleQuotes(b);
    UndoubleDoubled(b);
    assert data[i..e] == "'" + body + "'";
  }

  /** Inside a string that began at ts: where it could have ended so far, if anywhere. */
  ghost predicate InLiteral(data: string, s: Scan) {
    && 0 <= s.ts < s.p <= |data| && data[s.ts] == '\''
    && (s.te <= s.ts || (s.act == 3 && s.te <= s.p && IsString(data, s.ts, s.te)))
    && (s.cs == 2 ==> IsDoubled(data[s.ts + 1..s.p])) && (s.cs == 30 ==> s.te == s.p > s.ts)
  }

  /** One character further inside a string. */
  function Inside(data: string, s: Scan): Scan
    requires 0 <= s.p < |data|
  {
    if s.cs == 2 && data[s.p] == '\'' then s.(p := s.p + 1, cs := 30, te := s.p + 1, act := 3) else s.(p := s.p + 1, cs := 2)
  }

  lemma InsideKeeps(data: string, s: Scan)
    requires InLiteral(data, s) && s.p < |data| && (s.cs == 2 || (s.cs == 30 && data[s.p] == '\''))
    ensures InLiteral(data, Inside(data, s))
  {
    hide IsDoubled;
    if s.cs == 30 {
      assert IsString(data, s.ts, s.p);
      assert data[s.ts + 1..s.p + 1] == data[s.ts + 1..s.p - 1] + [data[s.p - 1], data[s.p]];
      assert [data[s.p - 1], data[s.p]] == "''";
      DoubledSnoc(data[s.ts + 1..s.p - 1], '\'');
    } else if data[s.p] != '\'' {
      SliceSnoc(data, s.ts + 1, s.p);
      DoubledSnoc(data[s.ts + 1..s.p], data[s.p]);
    }
  }

  lemma StringEnds(data: string, s: Scan)
    requires (s.cs == 2 || s.cs == 30) && s.p == |data| && InLiteral(data, s)
    ensures Wrote(data, Lexed(data, s), s.ts)
  {
    hide IsDoubled, IsString, UndoubleQuotes, UntripleTicks, Writes;
    if s.te > s.ts {
      StringIsWritten(data, s.ts, s.te, s.(cs := START, p := s.te));
    }
  }

  lemma StringCloses(data: string, s: Scan)
    requires s.cs == 30 && s.p < |data| && InLiteral(data, s) && data[s.p] != '\''
    ensures Wrote(data, Lexed(data, s), s.ts)
  {
    hide IsDoubled, IsString, UndoubleQuotes, Writes;
    StringIsWritten(data, s.ts, s.te, s.(cs := START, p := s.te));
  }

  lemma {:induction false} StringWrites(data: string, s: Scan)
    requires (s.cs == 2 || s.cs == 30) && InLiteral(data, s)
    ensures Wrote(data, Lexed(data, s), s.ts)
    decreases |data| - s.p
  {
    hide Wrote, IsDoubled, Lexed, IsString;
    if s.p == |data| {
      StringEnds(data, s);
    } else if s.cs == 2 || data[s.p] == '\'' {
      Resumes(data, s, Inside(data, s));
      InsideKeeps(data, s);
      StringWrites(data, Inside(data, s));
    } else {
      StringCloses(data, s);
    }
  }

  // ----- Paths -----

  ghost predicate IsTripled(s: string) { exists b :: s == TripleTicks(b) }

  lemma {:induction false} TripleSnoc(b: string, c: char)
    ensures TripleTicks(b + [c]) == TripleTicks(b) + if c == '`' then "```" else [c]
  {
    if b == [] {
      assert b + [c] == [c] && [c][1..] == [];
    } else {
      TripleSnoc(b[1..], c);
      assert (b + [c])[1..] == b[1..] + [c];
    }
  }

  lemma TripledSnoc(s: string, c: char)
    requires IsTripled(s)
    ensures IsTripled(s + if c == '`' then "```" else [c])
  {
    hide TripleTicks;
    var b :| s == TripleTicks(b);
    TripleSnoc(b, c);
  }

  lemma NoneTripled()
    ensures IsTripled([])
  {
    assert TripleTicks([]) == [];
  }

  /** A path literal from `i` to `e`. */
  ghost predicate IsPath(data: string, i: int, e: int) {
    0 <= i < e - 1 < |data| && data[i] == data[e - 1] == '`' && IsTripled(data[i + 1..e - 1])
  }

  lemma PathIsWritten(data: string, i: nat, e: nat, next: Scan)
    requires IsPath(data, i, e) && next.p == e
    ensures Wrote(data, Build(PathKind, data, i, e, next), i)
  {
    hide TripleTicks, UntripleTicks;
    var body := data[i + 1..e - 1];
    var b :| body == TripleTicks(b);
    UntripleTripled(b);
    assert data[i..e] == "`" + body + "`";
  }

  /** Inside a path that began at ts: where it could have ended so far, if anywhere. */
  ghost predicate InPathLiteral(data: string, s: Scan) {
    && 0 <= s.ts < s.p <= |data| && data[s.ts] == '`'
    && (s.te <= s.ts || (s.act == 4 && s.te <= s.p && IsPath(data, s.ts, s.te)))
    && (s.cs == 27 ==> IsTripled(data[s.ts + 1..s.p])) && (s.cs == 35 ==> s.te == s.p > s.ts)
    && (s.cs == 28 ==> s.te == s.p - 1 > s.ts && data[s.p - 1] == '`')
  }

  /** One character further inside a path. */
  function Along(data: string, s: Scan): Scan
    requires 0 <= s.p < |data|
  {
    if s.cs == 27 && data[s.p] == '`' then s.(p := s.p + 1, cs := 35, te := s.p + 1, act := 4)
    else if s.cs == 35 then s.(p := s.p + 1, cs := 28)
    else s.(p := s.p + 1, cs := 27)
  }

  lemma AlongKeeps(data: string, s: Scan)
    requires InPathLiteral(data, s) && s.p < |data| && (s.cs == 27 || ((s.cs == 35 || s.cs == 28) && data[s.p] == '`'))
    ensures InPathLiteral(data, Along(data, s))
  {
    hide IsTripled;
    if s.cs == 28 {
      assert IsPath(data, s.ts, s.p - 1);
      assert data[s.ts + 1..s.p + 1] == data[s.ts + 1..s.p - 2] + [data[s.p - 2], data[s.p - 1], data[s.p]];
      assert [data[s.p - 2], data[s.p - 1], data[s.p]] == "```";
      TripledSnoc(data[s.ts + 1..s.p - 2], '`');
    } else if s.cs == 27 && data[s.p] != '`' {
      SliceSnoc(data, s.ts + 1, s.p);
      TripledSnoc(data[s.ts + 1..s.p], data[s.p]);
    }
  }

  lemma PathEnds(data: string, s: Scan)
    requires (s.cs == 27 || s.cs == 35 || s.cs == 28) && s.p == |data| && InPathLiteral(data, s)
    ensures Wrote(data, Lexed(data, s), s.ts)
  {
    hide IsTripled, IsPath, UndoubleQuotes, UntripleTicks, Writes;
    if s.te > s.ts {
      PathIsWritten(data, s.ts, s.te, s.(cs := START, p := s.te));
    }
  }

  lemma PathCloses(data: string, s: Scan)
    requires (s.cs == 35 || s.cs == 28) && s.p < |data| && InPathLiteral(data, s) && data[s.p] != '`'
    ensures Wrote(data, Lexed(data, s), s.ts)
  {
    hide IsTripled, IsPath, Build, Wrote;
    assert Transition(s.cs, data[s.p]) == (START, if s.cs == 35 then Hold(PathKind) else Back(PathKind));
    hide Transition;
    PathIsWritten(data, s.ts, s.te, s.(cs := START, p := s.te));
  }

  lemma {:induction false} PathWrites(data: string, s: Scan)
    requires (s.cs == 27 || s.cs == 35 || s.cs == 28) && InPathLiteral(data, s)
    ensures Wrote(data, Lexed(data, s), s.ts)
    decreases |data| - s.p
  {
    hide Wrote, IsTripled, Lexed, IsPath;
    if s.p == |data| {
      PathEnds(data, s);
    } else if s.cs == 27 || data[s.p] == '`' {
      Resumes(data, s, Along(data, s));
      AlongKeeps(data, s);
      PathWrites(data, Along(data, s));
    } else {
      PathCloses(data, s);
    }
  }

  // ----- A call -----

  lemma OtherWrites(data: string, s: Scan)
    requires 0 <= s.p < |data| && s.cs == START && !IsSpace(data[s.p])
    requires var c := data[s.p]; !IsDigit(c) && c != '+' && c != '-' && c != '\'' && c != '`'
    ensures Wrote(data, Lexed(data, s), s.p)
  {
    var c := data[s.p];
    var (next, move) := Transition(START, c);
    assert (move.Go? && (next == ERROR || InWord(next))) || move.Emit?;
    WordStart(c);
    SliceSnoc(data, s.p, s.p);
    assert data[s.p..s.p] == [] && [] + [c] == [c] && SameLetters([c], [Upper(c)]);
    hide Transition, FromStart, SameLetters, Writes, Upper;
    if move.Emit? {
      SpelledIsWritten([c], move.t);
    } else if next != ERROR {
      var s1 := s.(p := s.p + 1, ts := s.p, cs := next);
      Resumes(data, s, s1);
      WordWrites(data, s1);
    }
  }

  lemma InkWrites(data: string, s: Scan)
    requires 0 <= s.te <= s.p <= |data| && s.cs == START && (s.p < |data| ==> !IsSpace(data[s.p]))
    ensures Wrote(data, Lexed(data, s), s.p)
  {
    if s.p < |data| {
      var c := data[s.p];
      hide Wrote, Lexed;
      if IsDigit(c) || c == '+' || c == '-' {
        NumberWrites(data, s);
      } else if c == '\'' {
        var s1 := s.(p := s.p + 1, ts := s.p, cs := 2);
        Resumes(data, s, s1);
        NoneDoubled();
        assert data[s1.ts + 1..s1.p] == [];
        StringWrites(data, s1);
      } else if c == '`' {
        var s1 := s.(p := s.p + 1, ts := s.p, cs := 27);
        Resumes(data, s, s1);
        NoneTripled();
        assert data[s1.ts + 1..s1.p] == [];
        PathWrites(data, s1);
      } else {
        OtherWrites(data, s);
      }
    }
  }

  lemma {:induction false} GapIsBlank(data: string, i: nat)
    requires i <= |data|
    ensures Blank(data[i..InkFrom(data, i)])
    decreases |data| - i
  {
    var j := InkFrom(data, i);
    if i < |data| && IsSpace(data[i]) {
      GapIsBlank(data, i + 1);
      assert data[i..j] == [data[i]] + data[i + 1..j];
    } else {
      assert data[i..j] == [];
    }
  }

  /** A call that returns a token has skipped white space and then read a way to write that token. */
  lemma TokenIsWritten(data: string, s: Scan)
    requires 0 <= s.te <= s.p <= |data| && s.cs == START
    ensures var i := InkFrom(data, s.p); Blank(data[s.p..i]) && Wrote(data, Lexed(data, s), i)
  {
    hide Lexed, Wrote;
    var i := InkFrom(data, s.p);
    GapIsBlank(data, s.p);
    SkipsToInk(data, s);
    InkWrites(data, if i == s.p then s else Scan(i, START, 0, i, 0));
  }

  ghost predicate AllWritten(ws: seq<Written>) { forall w :: w in ws ==> Blank(w.gap) && Writes(w.text, w.t) }

  /** Whatever text is lexed, the tokens that it yields are written in it one after the other, with nothing but white space
      between them, from the start up to where lexing stops. */
  lemma {:induction false} TokensAreWritten(data: string, s: Scan) returns (ws: seq<Written>, rest: string)
    requires Reachable(data, s) && s.cs == START
    ensures data[s.p..] == Text(ws, rest) && TokensOf(ws) == TokensFrom(data, s) && AllWritten(ws)
    decreases |data| - s.p
  {
    hide Lexed, Writes, TokensFrom;
    TokensNext(data, s);
    var o := Lexed(data, s);
    ws, rest := [], data[s.p..];
    if o.Found? {
      CallKeeps(data, s, s.p);
      TokenIsWritten(data, s);
      var i := InkFrom(data, s.p);
      var more;
      more, rest := TokensAreWritten(data, o.scan);
      var w := Written(data[s.p..i], data[i..o.scan.p], o.t);
      ws := [w] + more;
      assert ws[1..] == more;
      assert data[s.p..] == data[s.p..i] + (data[i..o.scan.p] + data[o.scan.p..]);
    }
  }
}

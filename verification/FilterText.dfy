/** From tokens to text and back: every way of writing down a list of tokens lexes back to those tokens
    (pkg/consolegraphql/filter/lex.go:89-831). */
module FilterText {
  import opened GoInt
  import opened FilterSyntax
  import opened FilterLexer
  import opened FilterNumbers

  // ----- How tokens are written -----

  function DoubleQuotes(s: string): string {
    if s == [] then [] else (if s[0] == '\'' then "''" else [s[0]]) + DoubleQuotes(s[1..])
  }

  function TripleTicks(s: string): string {
    if s == [] then [] else (if s[0] == '`' then "```" else [s[0]]) + TripleTicks(s[1..])
  }

  lemma {:induction false} UndoubleDoubled(s: string)
    ensures UndoubleQuotes(DoubleQuotes(s)) == s
  {
    if s != [] {
      var d, rest := DoubleQuotes(s), DoubleQuotes(s[1..]);
      UndoubleDoubled(s[1..]);
      if s[0] == '\'' {
        assert d[2..] == rest;
      } else {
        assert d[1..] == rest;
      }
    }
  }

  lemma {:induction false} UntripleTripled(s: string)
    ensures UntripleTicks(TripleTicks(s)) == s
  {
    if s != [] {
      var d, rest := TripleTicks(s), TripleTicks(s[1..]);
      UntripleTripled(s[1..]);
      if s[0] == '`' {
        assert d[3..] == rest;
      } else {
        assert d[1..] == rest;
      }
    }
  }

  function Upper(c: char): char { if 'a' <= c <= 'z' then (c as int - 32) as char else c }

  /** `text` is `word` in any mix of cases. */
  predicate SameLetters(text: string, word: string) { |text| == |word| && forall i :: 0 <= i < |word| ==> Upper(text[i]) == word[i] }

  /** A space, a tab, a line feed, a vertical tab, a form feed or a carriage return. */
  predicate IsBlank(c: char) { c == ' ' || c as int == 9 || c as int == 10 || c as int == 11 || c as int == 12 || c as int == 13 }

  /** `text` is a way to write token `t`. */
  ghost predicate Writes(text: string, t: Token) {
    match t
    case OR => SameLetters(text, "OR") case AND => SameLetters(text, "AND") case NOT => SameLetters(text, "NOT")
    case LIKE => SameLetters(text, "LIKE") case IS => SameLetters(text, "IS") case NULL => SameLetters(text, "NULL")
    case TRUE => SameLetters(text, "TRUE") case FALSE => SameLetters(text, "FALSE")
    case ASC => SameLetters(text, "ASC") case DESC => SameLetters(text, "DESC")
    case EQ => text == "=" case LT => text == "<" case GT => text == ">"
    case LE => text == "<=" case GE => text == ">=" case NE => text == "!="
    case LPAREN => text == "(" case RPAREN => text == ")" case COMMA => text == ","
    case STRING(s) => text == "'" + DoubleQuotes(s) + "'"
    case JSON_PATH(p) => text == "`" + TripleTicks(p) + "`"
    case INTEGRAL(i) => SpellsInt(text, i) && IsInt(i)
    case FLOAT(r) => SpellsFloat(text, r) && IsFloat(r)
    case START_EXPRESSION => false
    case START_ORDER_LIST => false
  }

  /** The character after a token, if any, does not extend it. */
  predicate Separates(t: Token, after: string) {
    after == [] ||
    match t
    case LT => after[0] != '='
    case GT => after[0] != '='
    case STRING(_) => after[0] != '\''
    case JSON_PATH(_) => after[0] != '`'
    case INTEGRAL(_) => !IsDigit(after[0]) && after[0] != '.'
    case FLOAT(_) => !IsDigit(after[0])
    case _ => true
  }

  // ----- One token -----

  /** `s` is about to read `text`, after which comes `after`. */
  predicate Reading(data: string, s: Scan, text: string, after: string) {
    0 <= s.p <= |data| && s.cs != ERROR && data[s.p..] == text + after
  }

  /** The call from `s` returns `t` and leaves the automaton at its start at position `p`. */
  predicate Returns(data: string, s: Scan, t: Token, p: int)
    requires 0 <= s.p <= |data|
  {
    var o := Lexed(data, s);
    o.Found? && o.t == t && o.scan.p == p && o.scan.cs == START
  }

  lemma Take(data: string, s: Scan, text: string, after: string)
    requires Reading(data, s, text, after) && text != []
    ensures s.p < |data| && data[s.p] == text[0] && data[s.p + 1..] == text[1..] + after
  {
    assert data[s.p] == data[s.p..][0] == (text + after)[0];
    assert data[s.p + 1..] == data[s.p..][1..] == (text + after)[1..];
  }

  /** The state reached by plain transitions over `text`, or ERROR. */
  function Walk(cs: int, text: string): int
    decreases |text|
  {
    if text == [] || cs == ERROR then cs
    else if Transition(cs, text[0]).1 != Go then ERROR
    else Walk(Transition(cs, text[0]).0, text[1..])
  }

  lemma PlainNeverRestarts(cs: int, c: char)
    requires Transition(cs, c).1 == Go
    ensures Transition(cs, c).0 != START
  {
  }

  /** Plain transitions change nothing but the state and the position, and on the first one the start of the token. */
  lemma {:induction false} WalkOn(data: string, s: Scan, text: string, after: string) returns (s': Scan)
    requires Reading(data, s, text, after) && Walk(s.cs, text) != ERROR
    ensures s' == s.(p := s.p + |text|, cs := Walk(s.cs, text), ts := if s.cs == START && text != [] then s.p else s.ts)
    ensures Reading(data, s', [], after) && Lexed(data, s) == Lexed(data, s')
    decreases |text|
  {
    hide Transition;
    s' := s;
    if text != [] {
      var c, rest := text[0], text[1..];
      assert data[s.p] == (text + after)[0] == c;
      PlainNeverRestarts(s.cs, c);
      var s1 := s.(p := s.p + 1, cs := Transition(s.cs, c).0, ts := if s.cs == START then s.p else s.ts);
      assert Walk(s.cs, text) == Walk(s1.cs, rest);
      assert s1.cs != ERROR;
      assert Advance(data, s) == Resume(s1);
      assert data[s1.p..] == data[s.p..][1..] == rest + after;
      s' := WalkOn(data, s1, rest, after);
    }
  }

  /** Plain transitions and then one that emits. */
  lemma WalkAndEmit(data: string, s: Scan, text: string, after: string, t: Token)
    requires Reading(data, s, text, after) && text != []
    requires var q := Walk(s.cs, text[..|text| - 1]); q != ERROR && Transition(q, text[|text| - 1]) == (START, Emit(t))
    ensures Returns(data, s, t, s.p + |text|)
  {
    hide Transition;
    var w, c := text[..|text| - 1], text[|text| - 1];
    assert text + after == w + ([c] + after);
    var s1 := WalkOn(data, s, w, [c] + after);
    assert data[s1.p] == data[s1.p..][0] == c;
  }

  lemma {:induction false} WalkAlong(w: string, states: seq<int>)
    requires |states| == |w| + 1
    requires forall i :: 0 <= i < |w| ==> Transition(states[i], w[i]) == (states[i + 1], Go)
    requires forall i :: 0 <= i < |w| ==> states[i] != ERROR
    ensures Walk(states[0], w) == states[|w|]
    decreases |w|
  {
    hide Transition;
    if w != [] {
      WalkAlong(w[1..], states[1..]);
    }
  }

  /** The states that lead to a keyword's last letter. */
  function KeywordStates(t: Token): seq<int> {
    match t
    case OR => [29, 23] case AND => [29, 5, 6] case NOT => [29, 19, 20] case LIKE => [29, 16, 17, 18] case IS => [29, 15]
    case NULL => [29, 19, 21, 22] case TRUE => [29, 24, 25, 26] case FALSE => [29, 11, 12, 13, 14]
    case ASC => [29, 5, 7] case DESC => [29, 8, 9, 10]
    case _ => []
  }

  /** The states lead through a text to the transition that emits its token. */
  predicate Leads(q: seq<int>, text: string, t: Token) {
    && |q| == |text| > 0
    && (forall i :: 0 <= i < |text| - 1 ==> Transition(q[i], text[i]) == (q[i + 1], Go) && q[i] != ERROR)
    && q[0] == START && q[|text| - 1] != ERROR && Transition(q[|text| - 1], text[|text| - 1]) == (START, Emit(t))
  }

  lemma ShortKeywordPath(text: string, t: Token)
    requires Writes(text, t) && (t.OR? || t.AND? || t.NOT? || t.IS? || t.ASC?)
    ensures Leads(KeywordStates(t), text, t)
  {
  }

  lemma LikeNullPath(text: string, t: Token)
    requires Writes(text, t) && (t.LIKE? || t.NULL?)
    ensures Leads(KeywordStates(t), text, t)
  {
  }

  lemma TruePath(text: string, t: Token)
    requires Writes(text, t) && t.TRUE?
    ensures Leads(KeywordStates(t), text, t)
  {
  }

  lemma DescPath(text: string, t: Token)
    requires Writes(text, t) && t.DESC?
    ensures Leads(KeywordStates(t), text, t)
  {
  }

  lemma FalsePath(text: string, t: Token)
    requires Writes(text, t) && t.FALSE?
    ensures Leads(KeywordStates(t), text, t)
  {
  }

  lemma KeywordPath(text: string, t: Token)
    requires Writes(text, t) && KeywordStates(t) != []
    ensures Leads(KeywordStates(t), text, t)
  {
    hide Leads, Writes;
    if t.LIKE? || t.NULL? {
      LikeNullPath(text, t);
    } else if t.TRUE? {
      TruePath(text, t);
    } else if t.DESC? {
      DescPath(text, t);
    } else if t.FALSE? {
      FalsePath(text, t);
    } else {
      ShortKeywordPath(text, t);
    }
  }

  lemma Keyword(data: string, s: Scan, text: string, after: string, t: Token)
    requires Reading(data, s, text, after) && s.cs == START && Writes(text, t) && KeywordStates(t) != []
    ensures Returns(data, s, t, s.p + |text|)
  {
    KeywordPath(text, t);
    hide Transition, Writes, KeywordStates;
    WalkAlong(text[..|text| - 1], KeywordStates(t));
    WalkAndEmit(data, s, text, after, t);
  }

  /** One or two characters of punctuation that need no lookahead. */
  lemma Punctuation(data: string, s: Scan, text: string, after: string, t: Token)
    requires Reading(data, s, text, after) && s.cs == START && Writes(text, t)
    requires t.EQ? || t.LPAREN? || t.RPAREN? || t.COMMA? || t.LE? || t.GE? || t.NE?
    ensures Returns(data, s, t, s.p + |text|)
  {
    WalkAlong(text[..|text| - 1], if t.LE? then [START, 33] else if t.GE? then [START, 34] else if t.NE? then [START, 1] else [START]);
    WalkAndEmit(data, s, text, after, t);
  }

  /** `<` and `>` are known only by what does not follow. */
  lemma Angle(data: string, s: Scan, text: string, after: string, t: Token)
    requires Reading(data, s, text, after) && s.cs == START && Writes(text, t) && (t.LT? || t.GT?) && Separates(t, after)
    ensures Returns(data, s, t, s.p + 1)
  {
    WalkAlong(text, [START, if t.LT? then 33 else 34]);
    var s1 := WalkOn(data, s, text, after);
    if after != [] {
      assert data[s1.p] == data[s1.p..][0] == after[0];
    }
  }

  // ----- Quoted literals -----

  /** A held literal ends where the next character, if any, is not its quote. */
  lemma Closes(data: string, s: Scan, after: string)
    requires Reading(data, s, [], after) && (s.cs == 30 || s.cs == 35)
    requires after != [] ==> after[0] != if s.cs == 30 then '\'' else '`'
    ensures Lexed(data, s) == Build(if s.cs == 30 then StringKind else PathKind, data, s.ts, s.p, s.(cs := START, te := s.p))
  {
    if after != [] {
      Take(data, s, after, []);
    }
  }

  /** Inside a string: the closing quote is the first one that is not doubled. */
  lemma {:induction false} InString(data: string, s: Scan, body: string, after: string)
    requires Reading(data, s, DoubleQuotes(body) + "'", after) && s.cs == 2 && (after == [] || after[0] != '\'')
    ensures var e := s.p + |DoubleQuotes(body)| + 1;
            e <= |data| && Lexed(data, s) == Build(StringKind, data, s.ts, e, Scan(e, START, s.ts, e, 3))
    decreases |body|
  {
    hide Lexed, Build;
    var d := DoubleQuotes(body) + "'";
    Take(data, s, d, after);
    if body == [] {
      var s1 := s.(p := s.p + 1, cs := 30, te := s.p + 1, act := 3);
      Resumes(data, s, s1);
      Closes(data, s1, after);
    } else if body[0] == '\'' {
      var s1 := s.(p := s.p + 1, cs := 30, te := s.p + 1, act := 3);
      var s2 := s1.(p := s.p + 2, cs := 2);
      Take(data, s1, d[1..], after);
      assert d[2..] == DoubleQuotes(body[1..]) + "'";
      Resumes(data, s, s1);
      Resumes(data, s1, s2);
      InString(data, s2, body[1..], after);
    } else {
      var s1 := s.(p := s.p + 1);
      assert d[1..] == DoubleQuotes(body[1..]) + "'";
      Resumes(data, s, s1);
      InString(data, s1, body[1..], after);
    }
  }

  /** The transitions inside a path. */
  lemma PathStep(data: string, s: Scan)
    requires 0 <= s.p < |data| && (s.cs == 27 || ((s.cs == 35 || s.cs == 28) && data[s.p] == '`'))
    ensures Lexed(data, s) == Lexed(data, if s.cs == 35 then s.(p := s.p + 1, cs := 28)
                                          else if s.cs == 28 || data[s.p] != '`' then s.(p := s.p + 1, cs := 27)
                                          else s.(p := s.p + 1, cs := 35, te := s.p + 1, act := 4))
  {
    hide Lexed;
    Resumes(data, s, if s.cs == 35 then s.(p := s.p + 1, cs := 28)
                     else if s.cs == 28 || data[s.p] != '`' then s.(p := s.p + 1, cs := 27)
                     else s.(p := s.p + 1, cs := 35, te := s.p + 1, act := 4));
  }

  lemma PathBody(body: string)
    requires body != []
    ensures var d := TripleTicks(body) + "`";
            if body[0] == '`' then |d| >= 3 && d[0] == d[1] == d[2] == '`' && d[1..][1..][1..] == TripleTicks(body[1..]) + "`"
            else d[0] == body[0] && d[1..] == TripleTicks(body[1..]) + "`"
  {
    var rest := TripleTicks(body[1..]) + "`";
    var head := if body[0] == '`' then "```" else [body[0]];
    assert TripleTicks(body) == head + TripleTicks(body[1..]);
    hide TripleTicks;
    assert TripleTicks(body) + "`" == head + rest;
    assert ("```" + rest)[1..][1..][1..] == rest && ([body[0]] + rest)[1..] == rest;
  }

  /** Inside a path: a single backtick closes it, three stand for one. */
  lemma {:induction false} InPath(data: string, s: Scan, body: string, after: string)
    requires Reading(data, s, TripleTicks(body) + "`", after) && s.cs == 27 && (after == [] || after[0] != '`')
    ensures var e := s.p + |TripleTicks(body)| + 1;
            e <= |data| && Lexed(data, s) == Build(PathKind, data, s.ts, e, Scan(e, START, s.ts, e, 4))
    decreases |body|
  {
    hide Lexed, Build;
    var d := TripleTicks(body) + "`";
    Take(data, s, d, after);
    PathStep(data, s);
    if body == [] {
      Closes(data, s.(p := s.p + 1, cs := 35, te := s.p + 1, act := 4), after);
    } else {
      PathBody(body);
      hide TripleTicks;
      if body[0] == '`' {
        var s1 := s.(p := s.p + 1, cs := 35, te := s.p + 1, act := 4);
        var s2 := s1.(p := s.p + 2, cs := 28);
        Take(data, s1, d[1..], after);
        PathStep(data, s1);
        Take(data, s2, d[1..][1..], after);
        PathStep(data, s2);
        InPath(data, s2.(p := s.p + 3, cs := 27), body[1..], after);
      } else {
        InPath(data, s.(p := s.p + 1), body[1..], after);
      }
    }
  }

  /** A string literal with its quotes doubled lexes to one token with the original text. */
  lemma StringLiteral(data: string, s: Scan, text: string, after: string, t: Token)
    requires Reading(data, s, text, after) && s.cs == START && t.STRING? && Writes(text, t) && Separates(t, after)
    ensures Returns(data, s, t, s.p + |text|)
  {
    hide Lexed, DoubleQuotes, UndoubleQuotes;
    var d, s1 := DoubleQuotes(t.s), s.(p := s.p + 1, cs := 2, ts := s.p);
    Take(data, s, text, after);
    assert text[1..] == d + "'";
    Resumes(data, s, s1);
    InString(data, s1, t.s, after);
    UndoubleDoubled(t.s);
    Inner(data, s.p, text, after);
    assert text[1..|text| - 1] == d;
  }

  /** A path literal with its backticks tripled lexes to one token with the original text. */
  lemma PathLiteral(data: string, s: Scan, text: string, after: string, t: Token)
    requires Reading(data, s, text, after) && s.cs == START && t.JSON_PATH? && Writes(text, t) && Separates(t, after)
    ensures Returns(data, s, t, s.p + |text|)
  {
    hide Lexed, TripleTicks, UntripleTicks;
    var d, s1 := TripleTicks(t.path), s.(p := s.p + 1, cs := 27, ts := s.p);
    Take(data, s, text, after);
    assert text[1..] == d + "`";
    Resumes(data, s, s1);
    InPath(data, s1, t.path, after);
    UntripleTripled(t.path);
    Inner(data, s.p, text, after);
    assert text[1..|text| - 1] == d;
  }

  lemma Assoc(a: string, b: string, c: string)
    ensures (a + b) + c == a + (b + c)
  {
  }

  lemma Inner(data: string, p: nat, text: string, after: string)
    requires p <= |data| && data[p..] == text + after && |text| >= 2
    ensures p + |text| <= |data| && data[p + 1..p + |text| - 1] == text[1..|text| - 1] && data[p..p + |text|] == text
  {
    var u, n := text + after, |text|;
    assert data[p..] == u && |u| == |data| - p;
    assert data[p..p + n] == data[p..][..n] == u[..n] == text;
    assert data[p + 1..p + n - 1] == data[p..p + n][1..n - 1];
  }

  // ----- Numbers -----

  lemma {:induction false} OverDigits(data: string, s: Scan, digits: string, after: string) returns (s': Scan)
    requires Reading(data, s, digits, after) && AllDigits(digits) && (s.cs == 31 || s.cs == 32)
    ensures s' == s.(p := s.p + |digits|, te := s'.te) && Reading(data, s', [], after) && Lexed(data, s) == Lexed(data, s')
    decreases |digits|
  {
    hide Lexed;
    s' := s;
    if digits != [] {
      Take(data, s, digits, after);
      assert digits[0] in digits;
      var s1 := s.(p := s.p + 1, te := if s.cs == 31 then s.p + 1 else s.te);
      Resumes(data, s, s1);
      s' := OverDigits(data, s1, digits[1..], after);
    }
  }

  /** An optional sign and digits bring the automaton to state 31. */
  lemma Integer(data: string, s: Scan, text: string, after: string) returns (s': Scan)
    requires Reading(data, s, text, after) && s.cs == START && Digits(Unsigned(text))
    ensures s' == s.(p := s.p + |text|, cs := 31, ts := s.p, te := s'.te) && Reading(data, s', [], after)
    ensures Lexed(data, s) == Lexed(data, s')
  {
    hide Lexed;
    var u, s0 := Unsigned(text), s;
    Take(data, s, text, after);
    if u != text {
      s0 := s.(p := s.p + 1, cs := 3, ts := s.p);
      Resumes(data, s, s0);
      Take(data, s0, u, after);
    }
    assert u[0] in u;
    var s1 := s0.(p := s0.p + 1, cs := 31, ts := s.p, te := s0.p + 1);
    Resumes(data, s0, s1);
    s' := OverDigits(data, s1, u[1..], after);
  }

  lemma IntegralLiteral(data: string, s: Scan, text: string, after: string, t: Token)
    requires Reading(data, s, text, after) && s.cs == START && t.INTEGRAL? && Writes(text, t) && Separates(t, after)
    ensures Returns(data, s, t, s.p + |text|)
  {
    hide Lexed, Digits, IntegralValue, SpellsInt;
    IntegralExact(text, t.i);
    var s1 := Integer(data, s, text, after);
    EndOfInteger(data, s1, after);
    assert data[s.p..s.p + |text|] == data[s.p..][..|text|] == text;
  }

  lemma EndOfInteger(data: string, s: Scan, after: string)
    requires Reading(data, s, [], after) && s.cs == 31 && (after != [] ==> !IsDigit(after[0]) && after[0] != '.')
    ensures Lexed(data, s) == Build(IntegralKind, data, s.ts, s.p, s.(cs := START, te := s.p))
  {
    hide IntegralValue;
    if after != [] {
      Take(data, s, after, []);
    }
  }

  /** A point and digits after an integer make a float. */
  lemma Fraction(data: string, s: Scan, b: string, after: string) returns (s': Scan)
    requires Reading(data, s, "." + b, after) && s.cs == 31 && Digits(b) && (after != [] ==> !IsDigit(after[0]))
    ensures s'.p == s.p + 1 + |b| && s'.cs == START && Lexed(data, s) == Build(FloatKind, data, s.ts, s'.p, s')
  {
    hide Lexed, Build;
    Take(data, s, "." + b, after);
    var s2 := s.(p := s.p + 1, cs := 4);
    Resumes(data, s, s2);
    assert ("." + b)[1..] == b;
    Take(data, s2, b, after);
    assert b[0] in b;
    var s3 := s2.(p := s2.p + 1, cs := 32);
    Resumes(data, s2, s3);
    var s4 := OverDigits(data, s3, b[1..], after);
    EndOfFloat(data, s4, after);
    s' := s4.(cs := START, te := s4.p);
  }

  lemma SplitFloat(text: string, a: string, b: string) returns (first: string)
    requires Unsigned(text) == a + ("." + b) && Digits(a)
    ensures text == first + ("." + b) && Unsigned(first) == a
  {
    first := text[..|text| - |b| - 1];
  }

  lemma FloatLexeme(data: string, s: Scan, first: string, b: string, after: string) returns (s': Scan)
    requires Reading(data, s, first + ("." + b), after) && s.cs == START && Digits(Unsigned(first)) && Digits(b)
    requires after != [] ==> !IsDigit(after[0])
    ensures s'.p == s.p + |first| + 1 + |b| && s'.cs == START && Lexed(data, s) == Build(FloatKind, data, s.p, s'.p, s')
  {
    hide Lexed, Build, Unsigned;
    Assoc(first, "." + b, after);
    var s1 := Integer(data, s, first, "." + b + after);
    s' := Fraction(data, s1, b, after);
  }

  lemma FloatLiteral(data: string, s: Scan, text: string, after: string, t: Token)
    requires Reading(data, s, text, after) && s.cs == START && t.FLOAT? && Writes(text, t) && Separates(t, after)
    ensures Returns(data, s, t, s.p + |text|)
  {
    hide Lexed, FloatValue, Unsigned, SpellsFloat;
    FloatExact(text, t.r);
    var a, b :| Unsigned(text) == a + ("." + b) && Digits(a) && Digits(b);
    var first := SplitFloat(text, a, b);
    var s' := FloatLexeme(data, s, first, b, after);
    assert |b| > 0 && |text| == |first| + 1 + |b|;
    Inner(data, s.p, text, after);
  }

  lemma EndOfFloat(data: string, s: Scan, after: string)
    requires Reading(data, s, [], after) && s.cs == 32 && (after != [] ==> !IsDigit(after[0]))
    ensures Lexed(data, s) == Build(FloatKind, data, s.ts, s.p, s.(cs := START, te := s.p))
  {
    if after != [] {
      Take(data, s, after, []);
    }
  }

  /** Any written token, followed by nothing that extends it, is returned by one call. */
  lemma LexesToken(data: string, s: Scan, text: string, after: string, t: Token)
    requires Reading(data, s, text, after) && s.cs == START && Writes(text, t) && Separates(t, after)
    ensures Returns(data, s, t, s.p + |text|)
  {
    hide Returns;
    match t {
      case STRING(_) => StringLiteral(data, s, text, after, t);
      case JSON_PATH(_) => PathLiteral(data, s, text, after, t);
      case INTEGRAL(_) => IntegralLiteral(data, s, text, after, t);
      case FLOAT(_) => FloatLiteral(data, s, text, after, t);
      case LT => Angle(data, s, text, after, t);
      case GT => Angle(data, s, text, after, t);
      case _ =>
        if KeywordStates(t) != [] {
          Keyword(data, s, text, after, t);
        } else {
          Punctuation(data, s, text, after, t);
        }
    }
  }

  lemma {:induction false} SkipsSpace(data: string, s: Scan, gap: string, after: string) returns (s': Scan)
    requires Reading(data, s, gap, after) && s.cs == START && forall c :: c in gap ==> IsSpace(c)
    ensures s'.p == s.p + |gap| && s'.cs == START && Reading(data, s', [], after) && Lexed(data, s) == Lexed(data, s')
    decreases |gap|
  {
    hide Lexed;
    s' := s;
    if gap != [] {
      Take(data, s, gap, after);
      assert gap[0] in gap;
      var s1 := Scan(s.p + 1, START, 0, s.p + 1, 0);
      Resumes(data, s, s1);
      s' := SkipsSpace(data, s1, gap[1..], after);
    }
  }

  // ----- Whole texts -----

  /** White space and then a token as written. */
  datatype Written = Written(gap: string, text: string, t: Token)

  function Text(ws: seq<Written>, tail: string): string {
    if ws == [] then tail else ws[0].gap + (ws[0].text + Text(ws[1..], tail))
  }

  function TokensOf(ws: seq<Written>): seq<Token> {
    if ws == [] then [] else [ws[0].t] + TokensOf(ws[1..])
  }

  predicate Blank(s: string) { forall c :: c in s ==> IsBlank(c) }

  ghost predicate WellWritten(ws: seq<Written>, tail: string) {
    if ws == [] then Blank(tail)
    else Blank(ws[0].gap) && Writes(ws[0].text, ws[0].t) && Separates(ws[0].t, Text(ws[1..], tail)) && WellWritten(ws[1..], tail)
  }

  /** Calling Lex again and again returns `tokens` and then 0. */
  ghost predicate LexesTo(data: string, s: Scan, tokens: seq<Token>)
    decreases |tokens|
  {
    0 <= s.p <= |data| &&
    var o := Lexed(data, s);
    if tokens == [] then o.Zero? else o.Found? && o.t == tokens[0] && LexesTo(data, o.scan, tokens[1..])
  }

  lemma {:induction false} LexesWritten(data: string, s: Scan, ws: seq<Written>, tail: string)
    requires 0 <= s.p <= |data| && s.cs == START && data[s.p..] == Text(ws, tail) && WellWritten(ws, tail)
    ensures LexesTo(data, s, TokensOf(ws))
    decreases |ws|
  {
    hide Lexed, Writes, Separates;
    if ws == [] {
      assert tail + [] == tail;
      var s' := SkipsSpace(data, s, tail, []);
      AtTheEnd(data, s');
    } else {
      var w, rest := ws[0], Text(ws[1..], tail);
      var s1 := SkipsSpace(data, s, w.gap, w.text + rest);
      assert [] + (w.text + rest) == w.text + rest;
      LexesToken(data, s1, w.text, rest, w.t);
      var s2 := Lexed(data, s1).scan;
      assert data[s2.p..] == data[s1.p..][|w.text|..] == rest;
      LexesWritten(data, s2, ws[1..], tail);
      assert TokensOf(ws)[1..] == TokensOf(ws[1..]);
    }
  }

  lemma AtTheEnd(data: string, s: Scan)
    requires s.p == |data| && s.cs == START
    ensures Lexed(data, s).Zero?
  {
  }

  /** The calls return just the tokens of the text and then 0, so none of them panics. */
  lemma {:induction false} LexesToTokens(data: string, s: Scan, tokens: seq<Token>)
    requires Reachable(data, s)
    ensures LexesTo(data, s, tokens) <==> TokensFrom(data, s) == tokens && !Breaks(data, s)
    decreases |tokens|
  {
    hide Lexed, Reachable;
    TokensNext(data, s);
    var o := Lexed(data, s);
    if o.Found? && tokens != [] {
      LexesToTokens(data, o.scan, tokens[1..]);
      assert tokens == [tokens[0]] + tokens[1..];
    }
  }
}

/** The lexer: a scanner automaton that Ragel generated from lex.rl, driven one character at a time
    (pkg/consolegraphql/filter/lex.go:88-831). */
module FilterLexer {
  import opened GoInt
  import opened FilterSyntax

  // ----- Numbers and literals -----

  predicate IsDigit(c: char) { '0' <= c <= '9' }

  predicate IsSpace(c: char) { c == ' ' || '\t' <= c <= '\r' }

  predicate AllDigits(s: string) { forall c :: c in s ==> IsDigit(c) }

  function Digit(c: char): int { c as int - '0' as int }

  function Natural(s: string): int {
    if s == [] then 0 else 10 * Natural(s[..|s| - 1]) + Digit(s[|s| - 1])
  }

  function Unsigned(s: string): string {
    if s != [] && (s[0] == '+' || s[0] == '-') then s[1..] else s
  }

  function Signed(s: string, magnitude: real): real {
    if s != [] && s[0] == '-' then -magnitude else magnitude
  }

  /** strconv.Atoi on a lexeme of the automaton. */
  function IntegralValue(s: string): int {
    if s != [] && s[0] == '-' then -Natural(Unsigned(s)) else Natural(Unsigned(s))
  }

  function TenTo(n: nat): real { if n == 0 then 1.0 else 10.0 * TenTo(n - 1) }

  lemma TenToPositive(n: nat)
    ensures TenTo(n) > 0.0
  {
  }

  /** The position of the decimal point. */
  function Point(s: string): (i: nat)
    ensures i <= |s|
  {
    if s == [] || s[0] == '.' then 0 else 1 + Point(s[1..])
  }

  function Magnitude(whole: string, fraction: string): real {
    TenToPositive(|fraction|);
    Natural(whole) as real + Natural(fraction) as real / TenTo(|fraction|)
  }

  /** strconv.ParseFloat without its rounding. */
  function FloatValue(s: string): real {
    var u := Unsigned(s);
    var i := Point(u);
    Signed(s, Magnitude(u[..i], if i < |u| then u[i + 1..] else []))
  }

  function PowerOfTwo(n: nat): real { if n == 0 then 1.0 else 2.0 * PowerOfTwo(n - 1) }

  /** ParseFloat takes a number unless it lies half a unit of the last place, or more, beyond the largest double. */
  predicate IsFloat(r: real) { PowerOfTwo(970) - PowerOfTwo(1024) < r < PowerOfTwo(1024) - PowerOfTwo(970) }

  /** strings.Replace of every `''` by `'`, left to right. */
  function UndoubleQuotes(s: string): string {
    if |s| >= 2 && s[0] == '\'' && s[1] == '\'' then ['\''] + UndoubleQuotes(s[2..])
    else if s == [] then []
    else [s[0]] + UndoubleQuotes(s[1..])
  }

  /** strings.Replace of every three backticks by one, left to right. */
  function UntripleTicks(s: string): string {
    if |s| >= 3 && s[0] == '`' && s[1] == '`' && s[2] == '`' then ['`'] + UntripleTicks(s[3..])
    else if s == [] then []
    else [s[0]] + UntripleTicks(s[1..])
  }

  // ----- The automaton -----

  /** Tokens whose value or extent is known only once a character after them, or the end, has been seen. */
  datatype Kind = IntegralKind | FloatKind | StringKind | PathKind | GreaterKind | LessKind

  /** What a transition does besides changing state. */
  datatype Move =
    | Go                 // nothing
    | Mark               // te = p + 1
    | MarkAs(act: int)   // te = p + 1, and act remembers which literal may end here
    | Emit(t: Token)     // a token that ends with this character
    | Hold(kind: Kind)   // a token that ended before this character
    | Back(kind: Kind)   // a token that ended at te; the characters since are read again
    | ByAct              // whichever literal act remembers, or an error

  const START := 29
  const ERROR := 0

  predicate Letter(c: char, upper: char)
    requires 'A' <= upper <= 'Z'
  {
    c == upper || c as int == upper as int + 32
  }

  /** A keyword state: one letter leads on, all else is an error. */
  function Expect(c: char, upper: char, s: int, m: Move): (int, Move)
    requires 'A' <= upper <= 'Z'
  {
    if Letter(c, upper) then (s, m) else (ERROR, Go)
  }

  function FromStart(c: char): (int, Move) {
    if IsSpace(c) then (START, Mark)
    else if c == '!' then (1, Go)
    else if c == '\'' then (2, Go)
    else if c == '(' then (START, Emit(LPAREN))
    else if c == ')' then (START, Emit(RPAREN))
    else if c == ',' then (START, Emit(COMMA))
    else if c == '<' then (33, Go)
    else if c == '=' then (START, Emit(EQ))
    else if c == '>' then (34, Go)
    else if c == '`' then (27, Go)
    else if c == '+' || c == '-' then (3, Go)
    else if IsDigit(c) then (31, Mark)
    else if Letter(c, 'A') then (5, Go)
    else if Letter(c, 'D') then (8, Go)
    else if Letter(c, 'F') then (11, Go)
    else if Letter(c, 'I') then (15, Go)
    else if Letter(c, 'L') then (16, Go)
    else if Letter(c, 'N') then (19, Go)
    else if Letter(c, 'O') then (23, Go)
    else if Letter(c, 'T') then (24, Go)
    else (ERROR, Go)
  }

  function Transition(cs: int, c: char): (int, Move) {
    match cs
    case 29 => FromStart(c)
    case 1 => if c == '=' then (START, Emit(NE)) else (ERROR, Go)
    case 2 => if c == '\'' then (30, MarkAs(3)) else (2, Go)
    case 30 => if c == '\'' then (2, Go) else (START, Hold(StringKind))
    case 3 => if IsDigit(c) then (31, Mark) else (ERROR, Go)
    case 31 => if c == '.' then (4, Go) else if IsDigit(c) then (31, Mark) else (START, Hold(IntegralKind))
    case 4 => if IsDigit(c) then (32, Go) else (START, Back(IntegralKind))
    case 32 => if IsDigit(c) then (32, Go) else (START, Hold(FloatKind))
    case 33 => if c == '=' then (START, Emit(LE)) else (START, Hold(LessKind))
    case 34 => if c == '=' then (START, Emit(GE)) else (START, Hold(GreaterKind))
    case 5 => if Letter(c, 'N') then (6, Go) else Expect(c, 'S', 7, Go)
    case 6 => Expect(c, 'D', START, Emit(AND))
    case 7 => Expect(c, 'C', START, Emit(ASC))
    case 8 => Expect(c, 'E', 9, Go)
    case 9 => Expect(c, 'S', 10, Go)
    case 10 => Expect(c, 'C', START, Emit(DESC))
    case 11 => Expect(c, 'A', 12, Go)
    case 12 => Expect(c, 'L', 13, Go)
    case 13 => Expect(c, 'S', 14, Go)
    case 14 => Expect(c, 'E', START, Emit(FALSE))
    case 15 => Expect(c, 'S', START, Emit(IS))
    case 16 => Expect(c, 'I', 17, Go)
    case 17 => Expect(c, 'K', 18, Go)
    case 18 => Expect(c, 'E', START, Emit(LIKE))
    case 19 => if Letter(c, 'O') then (20, Go) else Expect(c, 'U', 21, Go)
    case 20 => Expect(c, 'T', START, Emit(NOT))
    case 21 => Expect(c, 'L', 22, Go)
    case 22 => Expect(c, 'L', START, Emit(NULL))
    case 23 => Expect(c, 'R', START, Emit(OR))
    case 24 => Expect(c, 'R', 25, Go)
    case 25 => Expect(c, 'U', 26, Go)
    case 26 => Expect(c, 'E', START, Emit(TRUE))
    case 27 => if c == '`' then (35, MarkAs(4)) else (27, Go)
    case 35 => if c == '`' then (28, Go) else (START, Hold(PathKind))
    case 28 => if c == '`' then (27, Go) else (START, Back(PathKind))
    case _ => (ERROR, Go)
  }

  /** What happens at the end of the input; `Go` is a return without a token. */
  function AtEnd(cs: int): Move {
    match cs
    case 2 => ByAct
    case 27 => ByAct
    case 30 => Hold(StringKind)
    case 31 => Hold(IntegralKind)
    case 4 => Back(IntegralKind)
    case 32 => Hold(FloatKind)
    case 33 => Hold(LessKind)
    case 34 => Hold(GreaterKind)
    case 35 => Hold(PathKind)
    case 28 => Back(PathKind)
    case _ => Go
  }

  // ----- Calls of Lex -----

  /** The fields that live from one call to the next. */
  datatype Scan = Scan(p: int, cs: int, ts: int, te: int, act: int)

  /** A call returns a token, returns 0, or panics: on a number that does not fit an int or a double, or
      on a slice whose end lies before its start. */
  datatype LexOutcome = Found(t: Token, scan: Scan) | Zero(scan: Scan) | Panic

  /** The token of a lexeme from ts to te. */
  function Build(kind: Kind, data: string, ts: int, te: int, next: Scan): LexOutcome {
    match kind
    case GreaterKind => Found(GT, next)
    case LessKind => Found(LT, next)
    case StringKind =>
      if 0 <= ts + 1 <= te - 1 <= |data| then Found(STRING(UndoubleQuotes(data[ts + 1..te - 1])), next) else Panic
    case PathKind =>
      if 0 <= ts + 1 <= te - 1 <= |data| then Found(JSON_PATH(UntripleTicks(data[ts + 1..te - 1])), next) else Panic
    case IntegralKind =>
      if 0 <= ts <= te <= |data| && IsInt(IntegralValue(data[ts..te]))
      then Found(INTEGRAL(IntegralValue(data[ts..te])), next) else Panic
    case FloatKind =>
      if 0 <= ts <= te <= |data| && IsFloat(FloatValue(data[ts..te])) then Found(FLOAT(FloatValue(data[ts..te])), next) else Panic
  }

  /** What a move leads to: a return, or scanning on from the fields given. */
  datatype Effect = Return(o: LexOutcome) | Resume(s: Scan)

  function Again(s: Scan): Effect {
    if s.cs == ERROR then Return(Zero(s))
    else if s.cs == START then Resume(s.(ts := 0, act := 0, p := s.p + 1))
    else Resume(s.(p := s.p + 1))
  }

  function Apply(data: string, s: Scan, move: Move): Effect {
    match move
    case Go => Again(s)
    case Mark => Again(s.(te := s.p + 1))
    case MarkAs(act) => Again(s.(te := s.p + 1, act := act))
    case Emit(t) => Return(Found(t, s.(te := s.p + 1, p := s.p + 1)))
    case Hold(kind) => Return(Build(kind, data, s.ts, s.p, s.(te := s.p)))
    case Back(kind) => Return(Build(kind, data, s.ts, s.te, s.(p := s.te)))
    case ByAct =>
      if s.act == 3 then Return(Build(StringKind, data, s.ts, s.te, s.(p := s.te)))
      else if s.act == 4 then Return(Build(PathKind, data, s.ts, s.te, s.(p := s.te)))
      else Return(Zero(s.(cs := ERROR)))
  }

  /** One character. */
  function Advance(data: string, s: Scan): (e: Effect)
    requires 0 <= s.p < |data|
    ensures e.Resume? ==> e.s.p == s.p + 1
  {
    var s1 := if s.cs == START then s.(ts := s.p) else s;
    var (cs, move) := Transition(s.cs, data[s.p]);
    Apply(data, s1.(cs := cs), move)
  }

  function Finish(data: string, s: Scan): LexOutcome {
    match AtEnd(s.cs)
    case Go => Zero(s)
    case move =>
      match Apply(data, s.(cs := START), move)
      case Return(o) => o
      case Resume(s') => Zero(s')
  }

  /** What a call of Lex does from the given fields. */
  function Lexed(data: string, s: Scan): LexOutcome
    requires 0 <= s.p <= |data|
    decreases |data| - s.p
  {
    if s.p == |data| then Finish(data, s)
    else if s.cs == ERROR then Zero(s)
    else
      match Advance(data, s)
      case Return(o) => o
      case Resume(s') => Lexed(data, s')
  }

  lemma Resumes(data: string, s: Scan, s': Scan)
    requires 0 <= s.p < |data| && s.cs != ERROR && Advance(data, s) == Resume(s')
    ensures Lexed(data, s) == Lexed(data, s')
  {
  }

  // ----- All the calls -----

  /** Inside a call that began at `from`: where the token under way began, and where it could end so far. */
  predicate UnderWay(s: Scan, from: int) {
    && 0 <= from <= s.p && 0 <= s.te <= s.p
    && (s.cs != START && s.cs != ERROR ==> from <= s.ts < s.p)
    && (s.cs == 31 || s.cs == 4 || s.cs == 35 || s.cs == 28 ==> s.ts < s.te)
  }

  /** A token uses up a part of the text. */
  predicate Uses(data: string, o: LexOutcome, from: int) {
    o.Found? ==> from < o.scan.p <= |data| && 0 <= o.scan.te <= o.scan.p && o.scan.cs == START
  }

  predicate Stopped(data: string, o: LexOutcome) {
    o.Zero? ==> 0 <= o.scan.te <= o.scan.p <= |data| && (o.scan.cs == ERROR || (o.scan.p == |data| && AtEnd(o.scan.cs) == Go))
  }

  lemma BuildUses(kind: Kind, data: string, ts: int, te: int, next: Scan, from: int)
    requires 0 <= from < next.p <= |data| && 0 <= next.te <= next.p && next.cs == START
    ensures Uses(data, Build(kind, data, ts, te, next), from) && !Build(kind, data, ts, te, next).Zero?
  {
    hide IsFloat, FloatValue, IntegralValue, UndoubleQuotes, UntripleTicks;
  }

  lemma ApplyUses(data: string, s: Scan, from: int)
    requires 0 <= s.p <= |data| && UnderWay(s, from) && from <= s.ts < s.p && (s.cs == 2 || s.cs == 27)
    ensures var e := Apply(data, s.(cs := START), ByAct);
            e.Return? && Uses(data, e.o, from) && Stopped(data, e.o)
  {
    hide IsFloat, FloatValue, IntegralValue, UndoubleQuotes, UntripleTicks;
  }

  lemma AdvanceKeeps(data: string, s: Scan, from: int)
    requires 0 <= s.p < |data| && UnderWay(s, from) && s.cs != ERROR
    ensures match Advance(data, s)
            case Resume(s') => UnderWay(s', from)
            case Return(o) => Uses(data, o, from) && Stopped(data, o)
  {
    hide Build, Letter, IsDigit, IsSpace;
    var (cs, move) := Transition(s.cs, data[s.p]);
    var s1 := (if s.cs == START then s.(ts := s.p) else s).(cs := cs);
    MoveFacts(s.cs, data[s.p]);
    hide Transition;
    match move {
      case Hold(kind) => BuildUses(kind, data, s1.ts, s1.p, s1.(te := s1.p), from);
      case Back(kind) => BuildUses(kind, data, s1.ts, s1.te, s1.(p := s1.te), from);
      case _ =>
    }
  }

  /** Which transitions lead where. */
  lemma MoveFacts(cs: int, c: char)
    ensures var (next, move) := Transition(cs, c);
            && (move.Emit? || move.Hold? || move.Back? ==> next == START)
            && (move.Hold? || move.Back? ==> cs != START && cs != ERROR) && (move.Back? ==> cs == 4 || cs == 28) && !move.ByAct?
            && (next == 4 ==> cs == 31) && (next == 28 ==> cs == 35)
            && (next == 31 ==> move == Mark) && (next == 35 ==> move == MarkAs(4))
            && (next == START && move == Go ==> false) && (next == START && (move.Mark? || move.MarkAs?) ==> cs == START)
  {
    hide Letter, IsDigit, IsSpace;
  }

  lemma FinishUses(data: string, s: Scan, from: int)
    requires s.p == |data| && UnderWay(s, from)
    ensures Uses(data, Finish(data, s), from) && Stopped(data, Finish(data, s))
  {
    hide Build;
    match AtEnd(s.cs) {
      case Hold(kind) => BuildUses(kind, data, s.ts, s.p, s.(cs := START, te := s.p), from);
      case Back(kind) => BuildUses(kind, data, s.ts, s.te, s.(cs := START, p := s.te), from);
      case ByAct => ApplyUses(data, s, from);
      case _ =>
    }
  }

  /** A call that returns a token has used up a part of the text, and the next one starts afresh; after a call that returns 0,
      every further one does. */
  lemma {:induction false} CallKeeps(data: string, s: Scan, from: int)
    requires 0 <= s.p <= |data| && UnderWay(s, from)
    ensures Uses(data, Lexed(data, s), from) && Stopped(data, Lexed(data, s))
    decreases |data| - s.p
  {
    hide Advance, Finish, AtEnd;
    if s.p == |data| {
      FinishUses(data, s, from);
    } else if s.cs != ERROR {
      AdvanceKeeps(data, s, from);
      if Advance(data, s).Resume? {
        CallKeeps(data, Advance(data, s).s, from);
      }
    }
  }

  lemma StaysStopped(data: string, o: LexOutcome)
    requires o.Zero? && Stopped(data, o)
    ensures Lexed(data, o.scan) == o
  {
  }

  /** Between two calls: a new token starts, or every further call returns 0. */
  predicate Reachable(data: string, s: Scan) {
    0 <= s.te <= s.p <= |data| && (s.cs == START || Lexed(data, s) == Zero(s))
  }

  lemma NextCall(data: string, s: Scan)
    requires Reachable(data, s)
    ensures var o := Lexed(data, s);
            && (o.Found? ==> s.p < o.scan.p && Reachable(data, o.scan))
            && (o.Zero? ==> Reachable(data, o.scan) && Lexed(data, o.scan) == o)
  {
    hide Lexed;
    if s.cs == START {
      CallKeeps(data, s, s.p);
      if Lexed(data, s).Zero? {
        StaysStopped(data, Lexed(data, s));
      }
    }
  }

  /** The tokens that the calls from here on return, up to the first that returns 0 or panics. */
  function TokensFrom(data: string, s: Scan): seq<Token>
    requires Reachable(data, s)
    decreases |data| - s.p
  {
    NextCall(data, s);
    var o := Lexed(data, s);
    if o.Found? then [o.t] + TokensFrom(data, o.scan) else []
  }

  /** The call after those tokens panics. */
  predicate Breaks(data: string, s: Scan)
    requires Reachable(data, s)
    decreases |data| - s.p
  {
    NextCall(data, s);
    var o := Lexed(data, s);
    if o.Found? then Breaks(data, o.scan) else o.Panic?
  }

  const FRESH := Scan(0, START, 0, 0, 0)

  /** A path that the JSON path parser refuses. */
  predicate IsBad(t: Token, parses: string -> bool) { t.JSON_PATH? && !parses(t.path) }

  /** The tokens that tell the two entry points apart; no text lexes to them. */
  predicate IsStart(t: Token) { t.START_EXPRESSION? || t.START_ORDER_LIST? }

  /** The lexer, with what the parser leaves in it. `parses` tells which JSON paths parse. */
  class Lexer {
    const data: string
    const parses: string -> bool
    var p: int
    var cs: int
    var ts: int
    var te: int
    var act: int
    var failed: bool
    var expr: Expr
    var orderBy: seq<Order>
    var startToks: seq<Token>

    constructor (data: string, parses: string -> bool, start: Token)
      requires IsStart(start)
      ensures this.data == data && this.parses == parses && Fields() == FRESH && startToks == [start]
      ensures Valid() && !failed && expr == Absent && orderBy == []
    {
      this.data, this.parses := data, parses;
      p, cs, ts, te, act := 0, START, 0, 0, 0;
      failed, expr, orderBy, startToks := false, Absent, [], [start];
    }

    function Fields(): Scan
      reads `p, `cs, `ts, `te, `act
    {
      Scan(p, cs, ts, te, act)
    }

    predicate Valid()
      reads `p, `cs, `ts, `te, `act, `startToks
    {
      Reachable(data, Fields()) && forall t :: t in startToks ==> IsStart(t)
    }

    /** The tokens still to come. */
    function Coming(): seq<Token>
      requires Valid()
      reads `p, `cs, `ts, `te, `act, `startToks
    {
      startToks + TokensFrom(data, Fields())
    }

    /** The call after them panics. */
    predicate Broken()
      requires Valid()
      reads `p, `cs, `ts, `te, `act, `startToks
    {
      Breaks(data, Fields())
    }

    method Store(s: Scan)
      modifies this`p, this`cs, this`ts, this`te, this`act
      ensures Fields() == s
    {
      p, cs, ts, te, act := s.p, s.cs, s.ts, s.te, s.act;
    }

    /** One call: a start token, or the automaton runs until a token, an error or the end of the text. A path that does not
        parse leaves its error. */
    method Lex() returns (o: LexOutcome)
      requires Valid()
      modifies this`p, this`cs, this`ts, this`te, this`act, this`startToks, this`failed
      ensures o.Panic? ==> old(Coming()) == [] && old(Broken())
      ensures o.Zero? ==> Valid() && old(Coming()) == [] == Coming() && !old(Broken()) && !Broken()
      ensures o.Found? ==> Valid() && old(Coming()) == [o.t] + Coming() && Broken() == old(Broken())
      ensures failed == (old(failed) || (o.Found? && IsBad(o.t, parses)))
    {
      hide TokensFrom, Breaks, Lexed, Reachable;
      if startToks != [] {
        assert IsStart(startToks[0]);
        o := Found(startToks[0], Fields());
        assert startToks == [startToks[0]] + startToks[1..];
        startToks := startToks[1..];
        return;
      }
      TokensNext(data, Fields());
      o := Scanned();
      if o.Found? && IsBad(o.t, parses) {
        failed := true;
      }
      if o.Zero? {
        TokensNext(data, o.scan);
      }
    }

    /** The automaton. */
    method Scanned() returns (o: LexOutcome)
      requires 0 <= p <= |data|
      modifies this`p, this`cs, this`ts, this`te, this`act
      ensures o == Lexed(data, old(Fields()))
      ensures !o.Panic? ==> Fields() == o.scan
    {
      while p < |data| && cs != ERROR
        invariant 0 <= p <= |data|
        invariant Lexed(data, Fields()) == Lexed(data, old(Fields()))
        decreases |data| - p
      {
        match Advance(data, Fields()) {
          case Return(out) =>
            if !out.Panic? {
              Store(out.scan);
            }
            return out;
          case Resume(s) => Store(s);
        }
      }
      o := if p == |data| then Finish(data, Fields()) else Zero(Fields());
      if !o.Panic? {
        Store(o.scan);
      }
    }
  }

  lemma TokensNext(data: string, s: Scan)
    requires Reachable(data, s)
    ensures 0 <= s.p <= |data|
    ensures var o := Lexed(data, s);
            if o.Found? then
              Reachable(data, o.scan) && TokensFrom(data, s) == [o.t] + TokensFrom(data, o.scan) && Breaks(data, s) == Breaks(data, o.scan)
            else
              TokensFrom(data, s) == [] && Breaks(data, s) == o.Panic? && (o.Zero? ==> Reachable(data, o.scan) && Lexed(data, o.scan) == o)
  {
    hide Lexed;
    NextCall(data, s);
  }
}

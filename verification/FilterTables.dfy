/** The tables that goyacc generated from parser.y, and how the parser reads them
    (pkg/consolegraphql/filter/parser.go:92-182 and 307-340). The array literals become functions of
    the index; reading outside an array is a failed precondition. */
module FilterTables {
  import opened FilterSyntax

  /** The action table: packed shift targets and goto targets. */
  function Act(i: int): (s: int)
    requires 0 <= i < 64
    ensures 0 <= s < 51
  {
    match i
    case 0 => 8 case 1 => 19 case 2 => 9 case 3 => 7 case 4 => 13 case 5 => 14 case 6 => 15 case 7 => 16 case 8 => 17
    case 9 => 10 case 10 => 11 case 11 => 35 case 12 => 6 case 13 => 50 case 14 => 13 case 15 => 14 case 16 => 15
    case 17 => 16 case 18 => 17 case 19 => 10 case 20 => 11 case 21 => 37 case 22 => 38 case 23 => 20 case 24 => 45
    case 25 => 47 case 28 => 42 case 29 => 44 case 30 => 2 case 31 => 4 case 32 => 22 case 33 => 21 case 34 => 3
    case 35 => 22 case 36 => 21 case 37 => 48 case 38 => 23 case 39 => 24 case 40 => 46 case 41 => 21 case 42 => 1
    case 43 => 36 case 44 => 41 case 45 => 18 case 47 => 12 case 48 => 49 case 49 => 25 case 50 => 5 case 51 => 0
    case 52 => 0 case 53 => 39 case 54 => 40 case 55 => 27 case 56 => 29 case 57 => 30 case 58 => 31 case 59 => 32
    case 60 => 33 case 61 => 34 case 62 => 26 case 63 => 28
    case _ => 43
  }

  /** Per state, the base of its row in Act; -1000 marks a state that never looks ahead for a shift. */
  function Pact(i: int): int
    requires 0 <= i < 51
  {
    match i
    case 0 => 6 case 2 => -3 case 3 => 3 case 4 => 31 case 6 => -3 case 7 => -3 case 9 => 49 case 18 => -16
    case 20 => -4 case 21 => -3 case 22 => -3 case 23 => 28 case 25 => -13 case 26 => -13 case 27 => 11 case 28 => 19
    case 35 => 3 case 40 => 36 case 45 => -13 case 47 => -8
    case _ => -1000
  }

  /** Per nonterminal, the base of its column in Act. */
  function Pgo(i: int): int
    requires 0 <= i < 11
  {
    match i
    case 1 => 31 case 2 => 50 case 3 => 49 case 4 => 47 case 5 => 2 case 7 => 45 case 8 => 1 case 9 => 43
    case 10 => 42
    case _ => 0
  }

  /** Per production, its left-hand side. */
  function R1(i: int): (n: int)
    requires 0 <= i < 36
    ensures 0 <= n <= 10 && (i > 0 ==> n > 0)
  {
    match i
    case 0 => 0 case 1 => 10 case 2 => 10 case 9 => 2 case 10 => 2 case 11 => 2 case 12 => 2 case 13 => 2 case 14 => 5
    case 15 => 5 case 16 => 3 case 17 => 3 case 18 => 3 case 19 => 3 case 20 => 3 case 21 => 3 case 22 => 4
    case 23 => 4 case 24 => 4 case 25 => 4 case 26 => 4 case 27 => 6 case 28 => 6 case 29 => 7 case 30 => 7
    case 31 => 7 case 32 => 8 case 33 => 9 case 34 => 9 case 35 => 9
    case _ => 1
  }

  /** Per production, the length of its right-hand side. */
  function R2(i: int): (n: int)
    requires 0 <= i < 36
    ensures 0 <= n <= 4
  {
    match i
    case 0 => 0 case 1 => 2 case 2 => 2 case 4 => 3 case 5 => 3 case 6 => 3 case 7 => 2 case 9 => 3 case 10 => 3
    case 11 => 4 case 12 => 3 case 13 => 4 case 29 => 0 case 31 => 3 case 32 => 2 case 33 => 0
    case _ => 1
  }

  /** Per state, the symbol it is entered on: a token, or the negation of a nonterminal. */
  function Chk(i: int): int
    requires 0 <= i < 51
  {
    match i
    case 0 => -1000 case 1 => -10 case 2 => 24 case 3 => 28 case 5 => -2 case 6 => 15 case 7 => 6 case 8 => -6
    case 9 => -5 case 10 => 22 case 11 => 23 case 12 => -4 case 13 => 17 case 14 => 18 case 15 => 19 case 16 => 20
    case 17 => 21 case 18 => -7 case 19 => -8 case 20 => 20 case 21 => 5 case 22 => 4 case 25 => -3 case 26 => 13
    case 27 => 6 case 28 => 14 case 29 => 7 case 30 => 8 case 31 => 9 case 32 => 10 case 33 => 11 case 34 => 12
    case 35 => 27 case 36 => -9 case 37 => 25 case 38 => 26 case 41 => 16 case 42 => -5 case 43 => -6 case 44 => -5
    case 45 => 13 case 46 => 21 case 47 => 6 case 48 => -8 case 49 => -5 case 50 => 21
    case _ => -1
  }

  /** Per state, the default production; -2 sends the parser to the exception table, 0 is an error. */
  function Def(i: int): int
    requires 0 <= i < 51
  {
    match i
    case 1 => -2 case 3 => 29 case 4 => 1 case 5 => 3 case 8 => -2 case 10 => 27 case 11 => 28 case 12 => 14
    case 13 => 22 case 14 => 23 case 15 => 24 case 16 => 25 case 17 => 26 case 18 => 2 case 19 => 30 case 20 => 33
    case 24 => 7 case 29 => 16 case 30 => 17 case 31 => 18 case 32 => 19 case 33 => 20 case 34 => 21 case 36 => 32
    case 37 => 34 case 38 => 35 case 39 => 5 case 40 => 6 case 41 => 4 case 42 => 9 case 43 => 15 case 44 => 10
    case 46 => 12 case 48 => 31 case 49 => 11 case 50 => 13
    case _ => 0
  }

  /** The exception table: pairs (-1, state) followed by (token, production) pairs, closed by (-2, default). */
  function Exca(i: int): int
    requires 0 <= i < 18
  {
    match i
    case 0 => -1 case 1 => 1 case 2 => 1 case 3 => -1 case 4 => -2 case 5 => 0 case 6 => -1 case 8 => 1 case 10 => 4
    case 12 => 5 case 14 => 16 case 16 => -2 case 17 => 15
    case _ => 8
  }

  /** Internal token numbers of single characters. */
  function Tok1(i: int): int
    requires 0 <= i < 63
  {
    match i
    case 0 => 1 case 40 => 15 case 41 => 16 case 44 => 27 case 60 => 8 case 61 => 7 case 62 => 9
    case _ => 3
  }

  /** Internal token numbers of the named tokens. */
  function Tok2(i: int): int
    requires 0 <= i < 21
  {
    match i
    case 1 => 3 case 2 => 4 case 3 => 5 case 4 => 6 case 5 => 10 case 6 => 11 case 7 => 12 case 8 => 13 case 9 => 14
    case 10 => 17 case 11 => 18 case 12 => 19 case 13 => 20 case 14 => 21 case 15 => 22 case 16 => 23 case 17 => 24
    case 18 => 25 case 19 => 26 case 20 => 28
    case _ => 2
  }

  const LAST := 64
  const FLAG := -1000
  const END_TOKEN := 1
  const ERROR_TOKEN := 2

  predicate IsState(s: int) { 0 <= s < 51 }

  predicate IsToken(t: int) { 1 <= t <= 28 }

  /** Filterlex1: the internal number of what Lex returned; 0 is the end of the input. */
  function Translate(code: int): (t: int)
    requires 0 <= code
    ensures IsToken(t)
  {
    if code == 0 then Tok1(0)
    else if code < 63 then Tok1(code)
    else if 57344 <= code < 57344 + 21 then Tok2(code - 57344)
    else Tok2(1)
  }

  /** The state entered by a shift of `t` in state `s`, or -1 when the packed row of `s` has no entry for `t`. */
  function ShiftTarget(s: int, t: int): int
    requires IsState(s) && IsToken(t)
  {
    if Pact(s) <= FLAG then -1
    else if Pact(s) + t < 0 || Pact(s) + t >= LAST then -1
    else if Chk(Act(Pact(s) + t)) == t then Act(Pact(s) + t)
    else -1
  }

  /** Where the exceptions of state `s` start. */
  function ExceptionRow(s: int, xi: int): (r: int)
    requires s == 1 || s == 8
    requires xi == 0 || (s == 8 && 0 <= xi <= 6 && xi % 2 == 0)
    ensures 0 <= r <= 6 && r % 2 == 0 && Exca(r) == -1 && Exca(r + 1) == s
    decreases 6 - xi
  {
    if Exca(xi) == -1 && Exca(xi + 1) == s then xi else ExceptionRow(s, xi + 2)
  }

  /** The entry for token `t` in the exception row that continues at `xi`. */
  function ExceptionEntry(t: int, xi: int): int
    requires 0 <= xi <= 16 && xi % 2 == 0
    decreases 16 - xi
  {
    if Exca(xi) < 0 || Exca(xi) == t || xi == 16 then Exca(xi + 1) else ExceptionEntry(t, xi + 2)
  }

  /** What the parser does in a state once the lookahead it needs is known. */
  datatype Action = Shift(state: int) | Reduce(rule: int) | Accept | SyntaxError

  function DefaultAction(s: int, t: int): Action
    requires IsState(s) && IsToken(t)
  {
    var n := Def(s);
    if n == -2 then
      var m := ExceptionEntry(t, ExceptionRow(s, 0) + 2);
      if m < 0 then Accept else if m == 0 then SyntaxError else Reduce(m)
    else if n == 0 then SyntaxError
    else Reduce(n)
  }

  function Decide(s: int, t: int): Action
    requires IsState(s) && IsToken(t)
  {
    var n := ShiftTarget(s, t);
    if n >= 0 then Shift(n) else DefaultAction(s, t)
  }

  /** True when the parser calls the lexer in state `s` before it can act. */
  predicate NeedsLookahead(s: int)
    requires IsState(s)
  {
    Pact(s) > FLAG || Def(s) == -2
  }

  /** The state entered after a reduction to nonterminal `nt` uncovers state `s`. */
  function Goto(s: int, nt: int): int
    requires IsState(s) && 1 <= nt <= 10
  {
    var g := Pgo(nt);
    var j := g + s + 1;
    if j >= LAST then Act(g)
    else if Chk(Act(j)) != -nt then Act(g)
    else Act(j)
  }

  // ----- What the tables say about the automaton -----

  /** States in which an expression may start. */
  predicate StartsExpression(s: int) { s == 2 || s == 6 || s == 7 || s == 21 || s == 22 }

  /** States in which the second operand of a condition starts. */
  predicate StartsOperand(s: int) { s == 25 || s == 26 || s == 45 }

  /** `b` may lie directly above `a` on the stack: the edges of the LR automaton. */
  predicate Edge(a: int, b: int) {
    match b
    case 1 => a == 0 case 2 => a == 0 case 3 => a == 0
    case 4 => a == 2 case 23 => a == 6 case 24 => a == 7 case 39 => a == 21 case 40 => a == 22
    case 5 => StartsExpression(a) case 6 => StartsExpression(a) case 7 => StartsExpression(a)
    case 8 => StartsExpression(a) case 9 => StartsExpression(a)
    case 21 => a == 4 || a == 23 || a == 40
    case 22 => a == 4 || a == 23
    case 41 => a == 23
    case 42 => a == 25 case 44 => a == 26 case 49 => a == 45
    case 43 => StartsOperand(a)
    case 45 => a == 27 case 46 => a == 28 case 47 => a == 28 case 50 => a == 47
    case 18 => a == 3 case 19 => a == 3 case 20 => a == 3 || a == 35
    case 35 => a == 18 case 48 => a == 35
    case 36 => a == 20 case 37 => a == 20 case 38 => a == 20
    case _ =>
      if 10 <= b <= 17 then StartsExpression(a) || StartsOperand(a)
      else (25 <= b <= 34) && a == 9
  }

  /** Every shift follows an edge, never shifts the end, error or unknown token, and enters a
      state whose symbol is the token. */
  lemma ShiftFacts(s: int, t: int)
    requires IsState(s) && IsToken(t) && ShiftTarget(s, t) >= 0
    ensures IsState(ShiftTarget(s, t)) && Edge(s, ShiftTarget(s, t))
    ensures Chk(ShiftTarget(s, t)) == t && t >= 4
  {
  }

  lemma DecideShift(s: int, t: int)
    requires IsState(s) && IsToken(t) && Decide(s, t).Shift?
    ensures var n := Decide(s, t).state; IsState(n) && Edge(s, n) && Chk(n) == t && t >= 4
  {
    hide Edge, Act, Pact, Chk, Def;
    ShiftFacts(s, t);
  }

  /** The error token cannot be shifted anywhere, so error recovery never resumes. */
  lemma NoErrorShift(s: int)
    requires IsState(s)
    ensures ShiftTarget(s, ERROR_TOKEN) == -1
  {
  }

  /** The internal number of each token. */
  function Number(t: Token): (n: int)
    ensures 4 <= n <= 28
  {
    match t
    case OR => 4 case AND => 5 case NOT => 6 case EQ => 7 case LT => 8 case GT => 9
    case LE => 10 case GE => 11 case NE => 12 case LIKE => 13 case IS => 14
    case LPAREN => 15 case RPAREN => 16
    case STRING(_) => 17 case INTEGRAL(_) => 18 case FLOAT(_) => 19 case JSON_PATH(_) => 20
    case NULL => 21 case TRUE => 22 case FALSE => 23
    case START_EXPRESSION => 24 case ASC => 25 case DESC => 26 case COMMA => 27 case START_ORDER_LIST => 28
  }

  lemma TokenNumber(t: Token)
    ensures Translate(Code(t)) == Number(t)
  {
  }
}

/** The shift/reduce machine of FilterParserImpl.Parse as a function from configuration to
    configuration (pkg/consolegraphql/filter/parser.go:346-733). A configuration is taken at the
    label Filternewstate, where the current state is the one on top of the stack. */
module FilterMachine {
  import opened FilterSyntax
  import opened FilterTables

  /** FilterSymType: a stack slot. Actions copy whole slots, so fields they do not set keep whatever they held. */
  datatype Sym = Sym(
    yys: int, stringValue: string, integralValue: int, floatValue: real, jsonPathValue: string,
    boolVal: bool, orderList: seq<Order>, order: Order, expr: Expr, op: Op, direction: Direction)

  const ZERO_SYM := Sym(0, "", 0, 0.0, "", false, [], Order(Absent, Asc), Absent, EqualOp, Asc)

  const INITIAL_STACK_SIZE := 16

  /** The lookahead: not read yet, the end of the input, or a token whose value is in lval. */
  datatype Look = NoLook | End | Tok(t: Token)

  /** `slots` is the whole stack array, stale slots above `p` included. */
  datatype Machine = Machine(
    slots: seq<Sym>, p: int, lval: Sym, look: Look, input: seq<Token>, expr: Expr, orderBy: seq<Order>)

  /** What Parse returns, with what it left in the lexer: the trees and whether Error was called. */
  datatype Result = Result(code: int, expr: Expr, orderBy: seq<Order>, failed: bool)

  datatype Outcome = Continue(m: Machine) | Done(result: Result)

  function LookCode(l: Look): int {
    match l
    case NoLook => -1
    case End => 0
    case Tok(t) => Code(t)
  }

  function Internal(l: Look): (t: int)
    requires !l.NoLook?
    ensures IsToken(t)
  {
    Translate(LookCode(l))
  }

  /** The value Lex writes into lval along with a token. */
  function WriteValue(lval: Sym, t: Token): Sym {
    match t
    case STRING(s) => lval.(stringValue := s)
    case INTEGRAL(i) => lval.(integralValue := i)
    case FLOAT(r) => lval.(floatValue := r)
    case JSON_PATH(p) => lval.(jsonPathValue := p)
    case _ => lval
  }

  function Fetch(m: Machine): (m': Machine)
    ensures !m'.look.NoLook?
  {
    if !m.look.NoLook? then m
    else if m.input == [] then m.(look := End)
    else m.(look := Tok(m.input[0]), input := m.input[1..], lval := WriteValue(m.lval, m.input[0]))
  }

  /** The stack array, doubled when index `i` is not in it. */
  function Room(slots: seq<Sym>, i: int): seq<Sym>
    requires 0 < |slots|
  {
    if i >= |slots| then slots + seq(|slots|, _ => ZERO_SYM) else slots
  }

  function Push(m: Machine, val: Sym, state: int): (m': Machine)
    requires -1 <= m.p < |m.slots| && 0 < |m.slots|
    ensures m' == m.(p := m.p + 1, slots := m'.slots)
  {
    m.(p := m.p + 1, slots := Room(m.slots, m.p + 1)[m.p + 1 := val.(yys := state)])
  }

  /** The value a production computes: `d[k]` is $k, and `v` the slot it starts from. */
  function Semantics(rule: int, d: seq<Sym>, v: Sym): Sym
    requires 1 <= rule < 36 && |d| == R2(rule) + 1
  {
    match rule
    case 3 => v.(expr := d[1].expr)
    case 4 => v.(expr := d[2].expr)
    case 5 => v.(expr := AndExpr(d[1].expr, d[3].expr))
    case 6 => v.(expr := OrExpr(d[1].expr, d[3].expr))
    case 7 => v.(expr := NotExpr(d[2].expr))
    case 8 => v.(expr := BoolVal(d[1].boolVal))
    case 9 => v.(expr := ComparisonExpr(d[2].op, d[1].expr, d[3].expr))
    case 10 => v.(expr := ComparisonExpr(LikeOp, d[1].expr, d[3].expr))
    case 11 => v.(expr := ComparisonExpr(NotLikeOp, d[1].expr, d[4].expr))
    case 12 => v.(expr := IsNullExpr(true, d[1].expr))
    case 13 => v.(expr := IsNullExpr(false, d[1].expr))
    case 14 => v.(expr := d[1].expr)
    case 15 => v.(expr := BoolVal(d[1].boolVal))
    case 16 => v.(op := EqualOp)
    case 17 => v.(op := LessThanOp)
    case 18 => v.(op := GreaterThanOp)
    case 19 => v.(op := LessEqualOp)
    case 20 => v.(op := GreaterEqualOp)
    case 21 => v.(op := NotEqualOp)
    case 22 => v.(expr := StringVal(d[1].stringValue))
    case 23 => v.(expr := IntVal(d[1].integralValue))
    case 24 => v.(expr := FloatVal(d[1].floatValue))
    case 25 => v.(expr := JSONPathVal(d[1].jsonPathValue))
    case 26 => v.(expr := NullVal)
    case 27 => v.(boolVal := true)
    case 28 => v.(boolVal := false)
    case 29 => v.(orderList := [])
    case 30 => v.(orderList := [d[1].order])
    case 31 => v.(orderList := d[1].orderList + [d[3].order])
    case 32 => v.(order := Order(JSONPathVal(d[1].jsonPathValue), d[2].direction))
    case 33 => v.(direction := Asc)
    case 34 => v.(direction := Asc)
    case 35 => v.(direction := Desc)
    case _ => v
  }

  /** $1, or the stale slot above the stack when the right-hand side is empty. */
  function FirstSlot(m: Machine, k: int): Sym
    requires 0 <= k <= m.p < |m.slots|
  {
    Room(m.slots, m.p - k + 1)[m.p - k + 1]
  }

  /** Pops `k` slots and pushes one. */
  function Replace(m: Machine, k: int, val: Sym, state: int): Machine
    requires 0 <= k <= m.p < |m.slots|
  {
    Push(m.(slots := Room(m.slots, m.p - k + 1), p := m.p - k), val, state)
  }

  /** The slots $0, $1, ... of the right-hand side. */
  function Dollar(m: Machine, k: int): (d: seq<Sym>)
    requires 0 <= k <= m.p < |m.slots|
    ensures |d| == k + 1
  {
    m.slots[m.p - k..m.p + 1]
  }

  function ReduceBy(m: Machine, rule: int): (m': Machine)
    requires 1 <= rule < 36
    requires 0 <= m.p - R2(rule) && m.p < |m.slots| && IsState(m.slots[m.p - R2(rule)].yys)
    ensures m'.look == m.look && m'.lval == m.lval && m'.input == m.input
  {
    var k := R2(rule);
    var d := Dollar(m, k);
    var m' := Replace(m, k, Semantics(rule, d, FirstSlot(m, k)), Goto(d[0].yys, R1(rule)));
    if rule == 1 then m'.(expr := d[2].expr)
    else if rule == 2 then m'.(orderBy := d[2].orderList)
    else m'
  }

  // ----- The invariant -----

  /** The stack in use spells a path of the LR automaton from state 0, and lval holds the value of the lookahead. */
  ghost predicate Valid(m: Machine) {
    && 0 <= m.p < |m.slots|
    && m.slots[0].yys == 0
    && (forall i :: 0 <= i <= m.p ==> IsState(m.slots[i].yys))
    && (forall i :: 0 < i <= m.p ==> Edge(m.slots[i - 1].yys, m.slots[i].yys))
    && (m.look.Tok? ==> m.lval == WriteValue(m.lval, m.look.t))
    && (m.look.End? ==> m.input == [])
  }

  function TopSlot(m: Machine): Sym {
    if 0 <= m.p < |m.slots| then m.slots[m.p] else ZERO_SYM
  }

  /** The current state. */
  function Top(m: Machine): int { TopSlot(m).yys }

  /** The slots in use. */
  ghost function Stack(m: Machine): seq<Sym> {
    if 0 <= m.p < |m.slots| then m.slots[..m.p + 1] else []
  }

  /** Tokens not shifted yet. */
  function Pending(m: Machine): seq<Token> {
    (if m.look.Tok? then [m.look.t] else []) + m.input
  }

  /** Strictly above every state that a reduction of production length one can lead to; the two
      states that start an empty reduction outweigh the slot it adds. */
  function Rank(s: int): nat {
    if s == 3 || s == 20 then 8
    else if (13 <= s <= 17) || s == 10 || s == 11 then 3
    else if s == 12 || s == 8 || s == 43 then 2
    else if s == 5 || s == 19 || (29 <= s <= 34) || s == 37 || s == 38 then 1
    else 0
  }

  lemma PushStack(m: Machine, val: Sym, state: int)
    requires 0 <= m.p < |m.slots|
    ensures var m' := Push(m, val, state);
            0 <= m'.p < |m'.slots| && Stack(m') == Stack(m) + [val.(yys := state)]
  {
  }

  /** The automaton has an edge for nonterminal `nt` out of state `a`. */
  predicate Exposes(a: int, nt: int) {
    match nt
    case 1 => StartsExpression(a) case 2 => StartsExpression(a)
    case 4 => StartsExpression(a) || StartsOperand(a) case 5 => StartsExpression(a) || StartsOperand(a)
    case 6 => StartsExpression(a) || StartsOperand(a)
    case 3 => a == 9 case 7 => a == 3 case 8 => a == 3 || a == 35 case 9 => a == 20
    case _ => nt == 10 && a == 0
  }

  /** The largest rank of a state entered on nonterminal `nt`. */
  function GotoRank(nt: int): nat {
    if nt == 4 || nt == 6 then 2 else if nt == 2 || nt == 8 then 1 else 0
  }

  /** Where the goto entries of the expression nonterminals lead. */
  lemma GotoExpression(a: int)
    requires StartsExpression(a)
    ensures Goto(a, 1) == if a == 2 then 4 else if a == 6 then 23 else if a == 7 then 24 else if a == 21 then 39 else 40
    ensures Goto(a, 2) == 5 && Goto(a, 4) == 12 && Goto(a, 5) == 9 && Goto(a, 6) == 8
  {
    hide Goto;
    GotoNested(a);
    GotoCondition(a);
    GotoValue(a);
  }

  lemma GotoNested(a: int)
    requires StartsExpression(a)
    ensures Goto(a, 1) == if a == 2 then 4 else if a == 6 then 23 else if a == 7 then 24 else if a == 21 then 39 else 40
  {
  }

  lemma GotoCondition(a: int)
    requires StartsExpression(a)
    ensures Goto(a, 2) == 5 && Goto(a, 4) == 12
  {
  }

  lemma GotoValue(a: int)
    requires StartsExpression(a)
    ensures Goto(a, 5) == 9 && Goto(a, 6) == 8
  {
  }

  lemma GotoOperand(a: int)
    requires StartsOperand(a)
    ensures Goto(a, 4) == 12 && Goto(a, 6) == 43
    ensures Goto(a, 5) == if a == 25 then 42 else if a == 26 then 44 else 49
  {
  }

  lemma GotoOther()
    ensures Goto(9, 3) == 25 && Goto(3, 7) == 18 && Goto(3, 8) == 19 && Goto(35, 8) == 48 && Goto(20, 9) == 36 && Goto(0, 10) == 1
  {
  }

  lemma GotoFacts(a: int, nt: int)
    requires IsState(a) && 1 <= nt <= 10 && Exposes(a, nt)
    ensures IsState(Goto(a, nt)) && Edge(a, Goto(a, nt)) && Chk(Goto(a, nt)) == -nt && Rank(Goto(a, nt)) <= GotoRank(nt)
  {
    hide Goto;
    if StartsExpression(a) {
      GotoExpression(a);
    } else if StartsOperand(a) {
      GotoOperand(a);
    } else {
      GotoOther();
    }
  }

  /** `r` is a production that state `s` reduces by. */
  predicate CallsFor(s: int, r: int) {
    IsState(s) && 1 <= r < 36 && s != 0 && (r == Def(s) || (s == 8 && (r == 8 || r == 15)))
  }

  lemma ReduceRule(s: int, t: int)
    requires IsState(s) && IsToken(t) && DefaultAction(s, t).Reduce?
    ensures CallsFor(s, DefaultAction(s, t).rule)
  {
  }

  lemma ReduceEmpty(s: int, r: int)
    requires CallsFor(s, r) && R2(r) == 0
    ensures Rank(s) == 8 && Exposes(s, R1(r))
  {
  }

  lemma ReduceOne(a: int, s: int, r: int)
    requires CallsFor(s, r) && R2(r) == 1 && Edge(a, s)
    ensures Exposes(a, R1(r)) && GotoRank(R1(r)) < Rank(s)
  {
  }

  lemma ReduceTwo(a: int, b: int, s: int, r: int)
    requires CallsFor(s, r) && R2(r) == 2 && Edge(b, s)
    ensures b != 0 && (Edge(a, b) ==> Exposes(a, R1(r)))
  {
  }

  lemma ReduceThree(a: int, b: int, c: int, s: int, r: int)
    requires CallsFor(s, r) && R2(r) == 3 && Edge(c, s)
    ensures c != 0 && (Edge(b, c) ==> b != 0 && (Edge(a, b) ==> Exposes(a, R1(r))))
  {
  }

  lemma ReduceFour(a: int, b: int, c: int, d: int, s: int, r: int)
    requires CallsFor(s, r) && R2(r) == 4 && Edge(d, s)
    ensures d != 0 && (Edge(c, d) ==> c != 0 && (Edge(b, c) ==> b != 0 && (Edge(a, b) ==> Exposes(a, R1(r)))))
  {
  }

  /** The state `i` slots below the top, which is 0 at the bottom of the stack. */
  function Below(m: Machine, i: nat): int
    requires m.p < |m.slots|
  {
    if 0 <= m.p - i then m.slots[m.p - i].yys else 0
  }

  lemma EdgeBelow(m: Machine, i: nat)
    requires Valid(m) && Below(m, i) != 0
    ensures i < m.p && Edge(Below(m, i + 1), Below(m, i))
  {
  }

  lemma ValidTop(m: Machine, r: int)
    requires Valid(m) && CallsFor(Top(m), r)
    ensures 0 <= m.p < |m.slots| && Below(m, 0) == Top(m) != 0 && forall i :: 0 <= i <= m.p ==> IsState(m.slots[i].yys)
  {
    hide Edge;
  }

  /** Walking back over the right-hand side of the production `r` that the top state calls for stays on
      the stack and uncovers a state with an edge for its left-hand side; the measure drops. */
  lemma ReduceFacts(m: Machine, r: int)
    requires Valid(m) && CallsFor(Top(m), r)
    ensures 0 <= m.p - R2(r)
    ensures Exposes(m.slots[m.p - R2(r)].yys, R1(r))
    ensures 4 * (m.p - R2(r) + 1) + GotoRank(R1(r)) < 4 * m.p + Rank(Top(m))
  {
    hide Edge, Exposes, R1, Def, Chk, Valid;
    ValidTop(m, r);
    var s := Top(m);
    EdgeBelow(m, 0);
    var a := Below(m, 1);
    match R2(r) {
      case 0 => ReduceEmpty(s, r);
      case 1 => ReduceOne(a, s, r);
      case 2 =>
        ReduceTwo(0, a, s, r);
        EdgeBelow(m, 1);
        ReduceTwo(Below(m, 2), a, s, r);
      case 3 =>
        ReduceThree(0, 0, a, s, r);
        EdgeBelow(m, 1);
        ReduceThree(0, Below(m, 2), a, s, r);
        EdgeBelow(m, 2);
        ReduceThree(Below(m, 3), Below(m, 2), a, s, r);
      case _ =>
        ReduceFour(0, 0, 0, a, s, r);
        EdgeBelow(m, 1);
        ReduceFour(0, 0, Below(m, 2), a, s, r);
        EdgeBelow(m, 2);
        ReduceFour(0, Below(m, 3), Below(m, 2), a, s, r);
        EdgeBelow(m, 3);
        ReduceFour(Below(m, 4), Below(m, 3), Below(m, 2), a, s, r);
    }
  }

  // ----- Steps and runs -----

  function Prepare(m: Machine): (m': Machine)
    requires 0 <= m.p < |m.slots| && IsState(Top(m))
  {
    if NeedsLookahead(Top(m)) then Fetch(m) else m
  }

  /** The action taken; a state that needs no lookahead takes the same one for every token. */
  function NextAction(m: Machine): Action
    requires 0 <= m.p < |m.slots| && IsState(Top(m))
  {
    Decide(Top(m), if m.look.NoLook? then END_TOKEN else Internal(m.look))
  }

  lemma PrepareFacts(m: Machine)
    requires Valid(m)
    ensures var m' := Prepare(m);
            Valid(m') && Pending(m') == Pending(m) && m'.p == m.p && m'.slots == m.slots && m'.expr == m.expr &&
            m'.orderBy == m.orderBy && (NextAction(m').Shift? ==> m'.look.Tok?)
  {
    hide Decide;
    var m' := Prepare(m);
    if NextAction(m').Shift? {
      DecideShift(Top(m), if m'.look.NoLook? then END_TOKEN else Internal(m'.look));
    }
  }

  lemma ShiftStep(m: Machine)
    requires Valid(m) && m.look.Tok? && NextAction(m).Shift?
    ensures var m' := Push(m.(look := NoLook), m.lval, NextAction(m).state);
            Valid(m') && Pending(m) == [m.look.t] + Pending(m') && Stack(m') == Stack(m) + [m.lval.(yys := NextAction(m).state)]
  {
    hide Decide;
    DecideShift(Top(m), Internal(m.look));
    PushStack(m.(look := NoLook), m.lval, NextAction(m).state);
  }

  lemma ReplaceFacts(m: Machine, k: int, val: Sym, g: int)
    requires Valid(m) && 0 <= k <= m.p && IsState(g) && Edge(m.slots[m.p - k].yys, g)
    ensures var m' := Replace(m, k, val, g);
            && Valid(m') && Pending(m') == Pending(m) && m'.p == m.p - k + 1 && Top(m') == g
            && Stack(m') == Stack(m)[..m.p - k + 1] + [val.(yys := g)]
  {
    hide Edge, WriteValue;
    var slots := Room(m.slots, m.p - k + 1);
    PushStack(m.(slots := slots, p := m.p - k), val, g);
    assert slots[..m.p - k + 1] == Stack(m)[..m.p - k + 1];
  }

  /** A reduction replaces the slots of the right-hand side by one slot for the left-hand side. */
  lemma ReduceStep(m: Machine, r: int)
    requires Valid(m) && CallsFor(Top(m), r)
    ensures 0 <= m.p - R2(r)
    ensures var m', g := ReduceBy(m, r), Goto(m.slots[m.p - R2(r)].yys, R1(r));
            && Valid(m') && Pending(m') == Pending(m) && Top(m') == g && Chk(g) == -R1(r)
            && m'.expr == (if r == 1 then Dollar(m, R2(r))[2].expr else m.expr)
            && m'.orderBy == (if r == 2 then Dollar(m, R2(r))[2].orderList else m.orderBy)
            && 4 * m'.p + Rank(g) < 4 * m.p + Rank(Top(m))
            && Stack(m') == Stack(m)[..m.p - R2(r) + 1] +
                            [Semantics(r, Dollar(m, R2(r)), FirstSlot(m, R2(r))).(yys := g)]
  {
    hide Semantics, Goto, Edge, Rank, GotoRank, Exposes, R1, R2, Chk, Def, ReduceBy, Replace, Dollar, FirstSlot, Stack, Valid, Pending;
    ValidTop(m, r);
    ReduceFacts(m, r);
    var k, a := R2(r), m.slots[m.p - R2(r)].yys;
    GotoFacts(a, R1(r));
    ReduceIsReplace(m, r);
    ReplaceFacts(m, k, Semantics(r, Dollar(m, k), FirstSlot(m, k)), Goto(a, R1(r)));
    DeliverKeeps(Replace(m, k, Semantics(r, Dollar(m, k), FirstSlot(m, k)), Goto(a, R1(r))), ReduceBy(m, r));
  }

  /** A reduction is a replacement on the stack, and the two start productions deliver their result. */
  lemma ReduceIsReplace(m: Machine, r: int)
    requires Valid(m) && CallsFor(Top(m), r) && 0 <= m.p - R2(r)
    ensures var k := R2(r);
            var at, m' := Replace(m, k, Semantics(r, Dollar(m, k), FirstSlot(m, k)), Goto(m.slots[m.p - k].yys, R1(r))), ReduceBy(m, r);
            && m' == at.(expr := m'.expr, orderBy := m'.orderBy)
            && m'.expr == (if r == 1 then Dollar(m, k)[2].expr else m.expr)
            && m'.orderBy == (if r == 2 then Dollar(m, k)[2].orderList else m.orderBy)
  {
    hide Semantics, Goto, Edge, R1, Chk, Def;
  }

  /** What is delivered to the lexer is no part of the stack or of the input. */
  lemma DeliverKeeps(m: Machine, m': Machine)
    requires m' == m.(expr := m'.expr, orderBy := m'.orderBy)
    ensures (Valid(m') <==> Valid(m)) && Pending(m') == Pending(m) && Top(m') == Top(m) && Stack(m') == Stack(m)
  {
    hide Edge, WriteValue;
  }

  lemma ReduceAction(m: Machine)
    requires Valid(m) && NextAction(m).Reduce?
    ensures CallsFor(Top(m), NextAction(m).rule)
  {
    ReduceRule(Top(m), if m.look.NoLook? then END_TOKEN else Internal(m.look));
  }

  /** One pass from Filternewstate to the next, or to a return. */
  function Step(m: Machine): (o: Outcome)
    requires Valid(m)
    ensures o.Continue? ==>
              && Valid(o.m)
              && (|Pending(o.m)| < |Pending(m)| ||
                  (|Pending(o.m)| == |Pending(m)| && 4 * o.m.p + Rank(Top(o.m)) < 4 * m.p + Rank(Top(m))))
  {
    PrepareFacts(m);
    var m1 := Prepare(m);
    match NextAction(m1)
    case Shift(n) =>
      ShiftStep(m1);
      Continue(Push(m1.(look := NoLook), m1.lval, n))
    case Reduce(r) =>
      ReduceAction(m1);
      ReduceStep(m1, r);
      Continue(ReduceBy(m1, r))
    case Accept => Done(Result(0, m1.expr, m1.orderBy, false))
    case SyntaxError => Done(Result(1, m1.expr, m1.orderBy, true))
  }

  /** Parse from a configuration to its return. Every run ends: a step consumes a token or, among
      reductions, lowers the stack or the rank of its top. */
  function Run(m: Machine): (r: Result)
    requires Valid(m)
    ensures r.code == 0 || r.code == 1
    ensures r.failed <==> r.code == 1
    decreases |Pending(m)|, 4 * m.p + Rank(Top(m))
  {
    match Step(m)
    case Continue(m') => Run(m')
    case Done(r) => r
  }

  /** The next step reads a token. */
  predicate Asks(m: Machine)
    requires 0 <= m.p < |m.slots| && IsState(Top(m))
  {
    m.look.NoLook? && NeedsLookahead(Top(m))
  }

  /** The run comes to a point where it asks for a token and none is left. */
  predicate Starves(m: Machine)
    requires Valid(m)
    decreases |Pending(m)|, 4 * m.p + Rank(Top(m))
  {
    (Asks(m) && m.input == []) ||
    match Step(m)
    case Continue(m') => Starves(m')
    case Done(_) => false
  }

  /** The configuration on entry: a zeroed stack array of 16 slots with state 0 pushed. */
  function Initial(tokens: seq<Token>): (m: Machine)
    ensures Valid(m) && m.p == 0 && Top(m) == 0 && Pending(m) == tokens
  {
    Machine(seq(INITIAL_STACK_SIZE, _ => ZERO_SYM), 0, ZERO_SYM, NoLook, tokens, Absent, [])
  }

  function Parsed(tokens: seq<Token>): Result { Run(Initial(tokens)) }
}

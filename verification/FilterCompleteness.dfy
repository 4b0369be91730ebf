/** Every sentence of the grammar is accepted and yields the expression it stands for. */
module FilterCompleteness {
  import opened FilterSyntax
  import opened FilterTables
  import opened FilterMachine
  import opened FilterGrammar

  /** The internal number of the next token, or of the end of the input. */
  function Next(pending: seq<Token>): (t: int)
    ensures IsToken(t)
  {
    if pending == [] then END_TOKEN else Number(pending[0])
  }

  lemma NoLookaheadNoDifference(s: int, t: int, u: int)
    requires IsState(s) && IsToken(t) && IsToken(u) && !NeedsLookahead(s)
    ensures Decide(s, t) == Decide(s, u)
  {
  }

  lemma ActionOfPending(m: Machine)
    requires Valid(m)
    ensures Valid(Prepare(m)) && NextAction(Prepare(m)) == Decide(Top(m), Next(Pending(m)))
  {
    hide Decide;
    PrepareFacts(m);
    if Pending(m) != [] {
      TokenNumber(Pending(m)[0]);
    }
    if !NeedsLookahead(Top(m)) {
      NoLookaheadNoDifference(Top(m), if m.look.NoLook? then END_TOKEN else Internal(m.look), Next(Pending(m)));
    }
  }

  /** `m` is reached from `m0` and has the slots `ss` above those of `m0`. */
  ghost predicate Above(m0: Machine, m: Machine, ss: seq<Sym>)
    requires Valid(m0)
  {
    Valid(m) && Run(m) == Run(m0) && Stack(m) == Stack(m0) + ss && m.expr == m0.expr && m.orderBy == m0.orderBy
  }

  lemma AboveTop(m0: Machine, m: Machine, ss: seq<Sym>)
    requires Valid(m0) && Above(m0, m, ss)
    ensures Valid(m) && IsState(Top(m)) && IsState(Top(m0))
    ensures Top(m) == if ss == [] then Top(m0) else ss[|ss| - 1].yys
  {
    hide Run;
    assert Stack(m)[m.p] == TopSlot(m) && Stack(m0)[m0.p] == TopSlot(m0);
  }

  lemma AboveRefl(m: Machine)
    requires Valid(m)
    ensures Above(m, m, []) && IsState(Top(m))
  {
    hide Run;
  }

  lemma AboveTrans(m0: Machine, m: Machine, ss: seq<Sym>, m': Machine, tt: seq<Sym>)
    requires Valid(m0) && Valid(m) && Above(m0, m, ss) && Above(m, m', tt)
    ensures Above(m0, m', ss + tt)
  {
    hide Run;
  }

  lemma Shifts(m0: Machine, m: Machine, ss: seq<Sym>, t: Token) returns (m': Machine, s: Sym)
    requires Valid(m0) && Above(m0, m, ss) && Pending(m) != [] && Pending(m)[0] == t
    requires Decide(Top(m), Number(t)).Shift?
    ensures Above(m0, m', ss + [s]) && s.yys == Decide(Top(m), Number(t)).state && s == WriteValue(s, t)
    ensures Pending(m') == Pending(m)[1..]
  {
    hide Decide, Prepare, Rank;
    ActionOfPending(m);
    PrepareFacts(m);
    var m1 := Prepare(m);
    ShiftStep(m1);
    s := m1.lval.(yys := NextAction(m1).state);
    m' := Push(m1.(look := NoLook), m1.lval, NextAction(m1).state);
    assert Step(m) == Continue(m');
    assert Stack(m1) == Stack(m);
  }

  lemma StepIsReduction(m: Machine, r: int)
    requires Valid(m) && Decide(Top(m), Next(Pending(m))) == Reduce(r)
    ensures Valid(Prepare(m)) && Top(Prepare(m)) == Top(m) && CallsFor(Top(m), r)
    ensures 0 <= m.p - R2(r) && Valid(ReduceBy(Prepare(m), r)) && Run(ReduceBy(Prepare(m), r)) == Run(m)
  {
    hide Decide, Prepare, Semantics, Goto, R1, R2, Def, Rank;
    ActionOfPending(m);
    PrepareFacts(m);
    ReduceAction(Prepare(m));
    ReduceStep(Prepare(m), r);
    assert Step(m) == Continue(ReduceBy(Prepare(m), r));
  }

  /** Reducing by `r` when the slots above those of `m0` are exactly its right-hand side. */
  lemma Reduces(m0: Machine, m: Machine, ss: seq<Sym>, r: int) returns (m': Machine, s: Sym, v: Sym)
    requires Valid(m0) && Above(m0, m, ss) && Decide(Top(m), Next(Pending(m))) == Reduce(r)
    requires 3 <= r < 36 && |ss| == R2(r)
    ensures Above(m0, m', [s]) && Pending(m') == Pending(m)
    ensures ss != [] ==> v == ss[0]
    ensures s == Semantics(r, [TopSlot(m0)] + ss, v).(yys := Goto(Top(m0), R1(r)))
  {
    hide Decide, Prepare, Semantics, Goto, R1, R2, Def, ReduceBy, Rank, Run;
    StepIsReduction(m, r);
    PrepareFacts(m);
    var m1, k := Prepare(m), R2(r);
    ReduceStep(m1, r);
    m' := ReduceBy(m1, r);
    v := FirstSlot(m1, k);
    DollarAbove(m0, m1, ss);
    hide Stack, Valid, Pending, Dollar, FirstSlot, TopSlot;
    s := Semantics(r, Dollar(m1, k), v).(yys := Goto(Top(m0), R1(r)));
  }

  /** The slots of a right-hand side that lies just above those of `m0`. */
  lemma DollarAbove(m0: Machine, m1: Machine, ss: seq<Sym>)
    requires 0 <= m0.p < |m0.slots| && 0 <= m1.p < |m1.slots| && Stack(m1) == Stack(m0) + ss
    ensures 0 <= m1.p - |ss| && m1.p - |ss| == m0.p && Dollar(m1, |ss|) == [TopSlot(m0)] + ss && Stack(m1)[..m1.p - |ss| + 1] == Stack(m0)
    ensures ss != [] ==> FirstSlot(m1, |ss|) == ss[0]
    ensures m1.slots[m1.p - |ss|] == TopSlot(m0)
  {
    var a, b, p := Stack(m0), Stack(m1), m0.p;
    assert |a| == p + 1 && |b| == m1.p + 1;
    SplitAbove(a, ss, p);
    assert Dollar(m1, |ss|) == b[p..];
    assert m1.slots[p] == b[p] && (ss != [] ==> m1.slots[p + 1] == b[p + 1]);
  }

  lemma SplitAbove(a: seq<Sym>, ss: seq<Sym>, p: nat)
    requires |a| == p + 1
    ensures (a + ss)[p..] == [a[p]] + ss && (a + ss)[..p + 1] == a && (a + ss)[p] == a[p] && (ss != [] ==> (a + ss)[p + 1] == ss[0])
  {
  }

  // ----- Operands -----

  /** The token after an operand does not end an expression. */
  predicate Continues(rest: seq<Token>) {
    var t := Next(rest);
    t != 1 && t != 4 && t != 5 && t != 16
  }

  /** The state entered on the token of a value, and the production that reduces it. */
  function ValueState(v: Expr): int
    requires IsValue(v)
  {
    match v
    case StringVal(_) => 13
    case IntVal(_) => 14
    case FloatVal(_) => 15
    case JSONPathVal(_) => 16
    case NullVal => 17
    case BoolVal(b) => if b then 10 else 11
  }

  function ValueRule(v: Expr): int
    requires IsValue(v)
  {
    match v
    case StringVal(_) => 22
    case IntVal(_) => 23
    case FloatVal(_) => 24
    case JSONPathVal(_) => 25
    case NullVal => 26
    case BoolVal(b) => if b then 27 else 28
  }

  lemma ValueShift(q: int, v: Expr)
    requires IsValue(v) && (StartsExpression(q) || StartsOperand(q))
    ensures Decide(q, Number(ValueToken(v))) == Shift(ValueState(v))
  {
    assert Pact(q) == if StartsExpression(q) then -3 else -13;
    assert 17 <= Number(ValueToken(v)) <= 23;
  }

  lemma ValueGoto(q: int)
    requires StartsExpression(q) || StartsOperand(q)
    ensures Goto(q, 4) == 12 && Goto(q, 6) == if StartsExpression(q) then 8 else 43
  {
    hide Goto;
    if StartsExpression(q) {
      GotoExpression(q);
    } else {
      GotoOperand(q);
    }
  }

  lemma ValueReduce(q: int, v: Expr, t: int)
    requires IsValue(v) && IsToken(t) && (StartsExpression(q) || StartsOperand(q))
    ensures Decide(ValueState(v), t) == Reduce(ValueRule(v)) && R2(ValueRule(v)) == 1
    ensures !v.BoolVal? ==> R1(ValueRule(v)) == 4 && Goto(q, 4) == 12
    ensures v.BoolVal? ==> R1(ValueRule(v)) == 6 && Goto(q, 6) == if StartsExpression(q) then 8 else 43
  {
    hide Goto, Act, Chk, Exca;
    ValueGoto(q);
  }

  lemma OperandReduce(t: int)
    requires IsToken(t)
    ensures Decide(12, t) == Reduce(14) && Decide(43, t) == Reduce(15)
    ensures Decide(8, t) == if t == 1 || t == 4 || t == 5 || t == 16 then Reduce(8) else Reduce(15)
  {
  }

  lemma ValueSemantics(v: Expr, x: Sym, s: Sym)
    requires IsValue(v) && s == WriteValue(s, ValueToken(v)) && R2(ValueRule(v)) == 1
    ensures var u := Semantics(ValueRule(v), [x] + [s], s);
            if v.BoolVal? then u.boolVal == v.b else u.expr == v
  {
  }

  lemma OperandSemantics(x: Sym, s: Sym)
    ensures Semantics(14, [x] + [s], s).expr == s.expr && Semantics(15, [x] + [s], s).expr == BoolVal(s.boolVal)
  {
  }

  lemma ParseValue(m: Machine, v: Expr) returns (m': Machine, s: Sym)
    requires Valid(m) && IsValue(v) && (StartsExpression(Top(m)) || StartsOperand(Top(m)))
    requires Pending(m) != [] && Pending(m)[0] == ValueToken(v)
    requires v.BoolVal? && StartsExpression(Top(m)) ==> Continues(Pending(m)[1..])
    ensures Above(m, m', [s]) && Pending(m') == Pending(m)[1..]
    ensures s.yys == Goto(Top(m), 5) && s.expr == v
  {
    hide Run, Above, Valid, Stack, TopSlot, Decide, Goto, Semantics, WriteValue, Number, ValueToken, ValueRule, ValueState;
    var q, t, x := Top(m), Next(Pending(m)[1..]), TopSlot(m);
    ValueShift(q, v);
    AboveRefl(m);
    m', s := Shifts(m, m, [], ValueToken(v));
    assert [] + [s] == [s];
    AboveTop(m, m', [s]);
    ValueReduce(q, v, t);
    ValueSemantics(v, x, s);
    var w;
    m', s, w := Reduces(m, m', [s], ValueRule(v));
    AboveTop(m, m', [s]);
    OperandReduce(t);
    OperandSemantics(x, s);
    m', s, w := Reduces(m, m', [s], if v.BoolVal? then 15 else 14);
  }

  // ----- Conditions -----

  lemma ConditionGotos(q: int)
    requires StartsExpression(q)
    ensures Goto(q, 5) == 9 && Goto(q, 2) == 5
    ensures Goto(9, 3) == 25 && Goto(25, 5) == 42 && Goto(26, 5) == 44 && Goto(45, 5) == 49
  {
    hide Goto;
    GotoExpression(q);
    GotoOther();
    GotoOperand(25);
    GotoOperand(26);
    GotoOperand(45);
  }

  lemma CompareShifts()
    ensures Decide(9, 7) == Shift(29) && Decide(9, 8) == Shift(30) && Decide(9, 9) == Shift(31)
    ensures Decide(9, 10) == Shift(32) && Decide(9, 11) == Shift(33) && Decide(9, 12) == Shift(34)
  {
    hide DefaultAction, Def, Exca;
  }

  lemma LikeShifts()
    ensures Decide(9, 13) == Shift(26) && Decide(9, 6) == Shift(27) && Decide(27, 13) == Shift(45) && Decide(9, 14) == Shift(28)
  {
    hide DefaultAction, Def, Exca;
  }

  lemma NullShifts()
    ensures Decide(28, 21) == Shift(46) && Decide(28, 6) == Shift(47) && Decide(47, 21) == Shift(50)
  {
    hide DefaultAction, Def, Exca;
  }

  lemma ConditionShifts()
    ensures Decide(9, 7) == Shift(29) && Decide(9, 8) == Shift(30) && Decide(9, 9) == Shift(31)
    ensures Decide(9, 10) == Shift(32) && Decide(9, 11) == Shift(33) && Decide(9, 12) == Shift(34)
    ensures Decide(9, 13) == Shift(26) && Decide(9, 6) == Shift(27) && Decide(27, 13) == Shift(45)
    ensures Decide(9, 14) == Shift(28) && Decide(28, 21) == Shift(46)
    ensures Decide(28, 6) == Shift(47) && Decide(47, 21) == Shift(50)
  {
    hide Decide;
    CompareShifts();
    LikeShifts();
    NullShifts();
  }

  lemma ConditionReduces(t: int)
    requires IsToken(t)
    ensures forall i :: 29 <= i <= 34 ==> Decide(i, t) == Reduce(i - 13)
    ensures Decide(42, t) == Reduce(9) && Decide(44, t) == Reduce(10) && Decide(49, t) == Reduce(11)
    ensures Decide(46, t) == Reduce(12) && Decide(50, t) == Reduce(13) && Decide(5, t) == Reduce(3)
  {
    hide Act, Chk, Exca;
  }

  lemma ConditionRules()
    ensures forall i :: 16 <= i <= 21 ==> R1(i) == 3 && R2(i) == 1
    ensures forall i :: 9 <= i <= 13 ==> R1(i) == 2
    ensures R2(9) == R2(10) == R2(12) == 3 && R2(11) == R2(13) == 4 && R1(3) == 1 && R2(3) == 1
  {
  }

  predicate IsCompare(op: Op) { !op.LikeOp? && !op.NotLikeOp? }

  /** The production of a comparison operator. */
  function CompareRule(op: Op): (r: int)
    requires IsCompare(op)
    ensures 16 <= r <= 21
  {
    match op
    case EqualOp => 16 case LessThanOp => 17 case GreaterThanOp => 18
    case LessEqualOp => 19 case GreaterEqualOp => 20 case NotEqualOp => 21
  }

  lemma CompareToken(op: Op, x: Sym, s: Sym)
    requires IsCompare(op) && R2(CompareRule(op)) == 1
    ensures |OpTokens(op)| == 1
    ensures Number(OpTokens(op)[0]) == CompareRule(op) - 9
    ensures Semantics(CompareRule(op), [x] + [s], s).op == op
  {
  }

  /** A comparison operator leaves its operator in state 25. */
  lemma ParseCompare(m: Machine, op: Op) returns (m': Machine, s: Sym)
    requires Valid(m) && Top(m) == 9 && IsCompare(op)
    requires Pending(m) != [] && OpTokens(op) == [Pending(m)[0]]
    ensures Above(m, m', [s]) && Pending(m') == Pending(m)[1..] && s.yys == 25 && s.op == op
  {
    hide Run, Above, Valid, Stack, TopSlot, Decide, Goto, Semantics, WriteValue, Number, CompareRule, R1, R2, OpTokens;
    var t, x := Pending(m)[0], TopSlot(m);
    ConditionRules();
    CompareToken(op, x, x);
    ConditionShifts();
    AboveRefl(m);
    m', s := Shifts(m, m, [], t);
    assert [] + [s] == [s];
    AboveTop(m, m', [s]);
    ConditionReduces(Next(Pending(m')));
    CompareToken(op, x, s);
    ConditionGotos(2);
    var w;
    m', s, w := Reduces(m, m', [s], CompareRule(op));
  }

  /** Reducing a whole condition by `r` and then to an expression. */
  lemma FinishCondition(m: Machine, m1: Machine, ss: seq<Sym>, r: int) returns (m': Machine, s: Sym)
    requires Valid(m) && StartsExpression(Top(m)) && Above(m, m1, ss)
    requires 9 <= r <= 13 && |ss| == R2(r) && Decide(Top(m1), Next(Pending(m1))) == Reduce(r)
    ensures Above(m, m', [s]) && Pending(m') == Pending(m1) && s.yys == Goto(Top(m), 1)
    ensures s.expr == Semantics(r, [TopSlot(m)] + ss, ss[0]).expr
  {
    hide Run, Above, Valid, Stack, TopSlot, Decide, Goto, R1, R2;
    ConditionRules();
    ConditionGotos(Top(m));
    var w;
    m', s, w := Reduces(m, m1, ss, r);
    AboveTop(m, m', [s]);
    ConditionReduces(Next(Pending(m')));
    m', s, w := Reduces(m, m', [s], 3);
  }

  lemma ConditionSemantics(x: Sym, a: Sym, b: Sym, c: Sym, d: Sym)
    requires R2(9) == R2(10) == R2(12) == 3 && R2(11) == R2(13) == 4
    ensures Semantics(9, [x] + [a, b, c], a).expr == ComparisonExpr(b.op, a.expr, c.expr)
    ensures Semantics(10, [x] + [a, b, c], a).expr == ComparisonExpr(LikeOp, a.expr, c.expr)
    ensures Semantics(11, [x] + [a, b, c, d], a).expr == ComparisonExpr(NotLikeOp, a.expr, d.expr)
    ensures Semantics(12, [x] + [a, b, c], a).expr == IsNullExpr(true, a.expr)
    ensures Semantics(13, [x] + [a, b, c, d], a).expr == IsNullExpr(false, a.expr)
  {
  }

  lemma ParseComparison(m: Machine, e: Expr, rest: seq<Token>) returns (m': Machine, s: Sym)
    requires Valid(m) && StartsExpression(Top(m)) && IsAtom(e) && e.ComparisonExpr? && IsCompare(e.op)
    requires Pending(m) == [ValueToken(e.left)] + OpTokens(e.op) + [ValueToken(e.right)] + rest
    ensures Above(m, m', [s]) && Pending(m') == rest && s.yys == Goto(Top(m), 1) && s.expr == e
  {
    hide Run, Above, Valid, Stack, TopSlot, Decide, Goto, R1, R2, OpTokens, Number, Semantics, ValueToken;
    var x := TopSlot(m);
    ConditionGotos(Top(m));
    ConditionRules();
    CompareToken(e.op, x, x);
    assert Pending(m)[1..] == OpTokens(e.op) + [ValueToken(e.right)] + rest;
    var m1, s1 := ParseValue(m, e.left);
    AboveTop(m, m1, [s1]);
    var m2, s2 := ParseCompare(m1, e.op);
    AboveTop(m1, m2, [s2]);
    assert Pending(m2) == [ValueToken(e.right)] + rest;
    var m3, s3 := ParseValue(m2, e.right);
    AboveTop(m2, m3, [s3]);
    AboveTrans(m1, m2, [s2], m3, [s3]);
    AboveTrans(m, m1, [s1], m3, [s2] + [s3]);
    assert [s1] + ([s2] + [s3]) == [s1, s2, s3];
    ConditionReduces(Next(rest));
    m', s := FinishCondition(m, m3, [s1, s2, s3], 9);
    ConditionSemantics(x, s1, s2, s3, x);
  }

  lemma ParseLike(m: Machine, e: Expr, rest: seq<Token>) returns (m': Machine, s: Sym)
    requires Valid(m) && StartsExpression(Top(m)) && IsAtom(e) && e.ComparisonExpr? && e.op.LikeOp?
    requires Pending(m) == [ValueToken(e.left), LIKE, ValueToken(e.right)] + rest
    ensures Above(m, m', [s]) && Pending(m') == rest && s.yys == Goto(Top(m), 1) && s.expr == e
  {
    hide Run, Above, Valid, Stack, TopSlot, Decide, Goto, R1, R2, Semantics, ValueToken;
    var x := TopSlot(m);
    ConditionGotos(Top(m));
    ConditionRules();
    ConditionShifts();
    assert Pending(m)[1..] == [LIKE, ValueToken(e.right)] + rest;
    var m1, s1 := ParseValue(m, e.left);
    AboveTop(m, m1, [s1]);
    var m2, s2 := Shifts(m, m1, [s1], LIKE);
    AboveTop(m, m2, [s1] + [s2]);
    assert Pending(m2) == [ValueToken(e.right)] + rest;
    var m3, s3 := ParseValue(m2, e.right);
    AboveTop(m2, m3, [s3]);
    AboveTrans(m, m2, [s1] + [s2], m3, [s3]);
    assert [s1] + [s2] + [s3] == [s1, s2, s3];
    ConditionReduces(Next(rest));
    ConditionSemantics(x, s1, s2, s3, s3);
    m', s := FinishCondition(m, m3, [s1, s2, s3], 10);
  }

  /** A value and NOT LIKE. */
  lemma ParseUpToLike(m: Machine, left: Expr, rest: seq<Token>) returns (m3: Machine, s1: Sym, s2: Sym, s3: Sym)
    requires Valid(m) && StartsExpression(Top(m)) && IsValue(left) && Pending(m) == [ValueToken(left), NOT, LIKE] + rest
    ensures Above(m, m3, [s1, s2, s3]) && Pending(m3) == rest && s1.expr == left && s3.yys == 45
  {
    hide Run, Above, Valid, Stack, TopSlot, Decide, Goto, R1, R2, Semantics, ValueToken, Pending;
    ConditionGotos(Top(m));
    ConditionRules();
    ConditionShifts();
    assert Pending(m)[1..] == [NOT, LIKE] + rest;
    var m1;
    m1, s1 := ParseValue(m, left);
    AboveTop(m, m1, [s1]);
    var m2;
    m2, s2 := Shifts(m, m1, [s1], NOT);
    AboveTop(m, m2, [s1] + [s2]);
    m3, s3 := Shifts(m, m2, [s1] + [s2], LIKE);
    assert [s1] + [s2] + [s3] == [s1, s2, s3];
  }

  lemma ParseNotLike(m: Machine, e: Expr, rest: seq<Token>) returns (m': Machine, s: Sym)
    requires Valid(m) && StartsExpression(Top(m)) && IsAtom(e) && e.ComparisonExpr? && e.op.NotLikeOp?
    requires Pending(m) == [ValueToken(e.left), NOT, LIKE, ValueToken(e.right)] + rest
    ensures Above(m, m', [s]) && Pending(m') == rest && s.yys == Goto(Top(m), 1) && s.expr == e
  {
    hide Run, Above, Valid, Stack, TopSlot, Decide, Goto, R1, R2, Semantics, ValueToken, Pending;
    var x := TopSlot(m);
    ConditionGotos(Top(m));
    ConditionRules();
    ConditionShifts();
    var m3, s1, s2, s3 := ParseUpToLike(m, e.left, [ValueToken(e.right)] + rest);
    AboveTop(m, m3, [s1, s2, s3]);
    var m4, s4 := ParseValue(m3, e.right);
    AboveTop(m3, m4, [s4]);
    AboveTrans(m, m3, [s1, s2, s3], m4, [s4]);
    assert [s1, s2, s3] + [s4] == [s1, s2, s3, s4] && ([ValueToken(e.right)] + rest)[1..] == rest;
    ConditionReduces(Next(rest));
    ConditionSemantics(x, s1, s2, s3, s4);
    m', s := FinishCondition(m, m4, [s1, s2, s3, s4], 11);
  }

  lemma ParseIsNull(m: Machine, e: Expr, rest: seq<Token>) returns (m': Machine, s: Sym)
    requires Valid(m) && StartsExpression(Top(m)) && IsAtom(e) && e.IsNullExpr? && e.isNull
    requires Pending(m) == [ValueToken(e.operand), IS, NULL] + rest
    ensures Above(m, m', [s]) && Pending(m') == rest && s.yys == Goto(Top(m), 1) && s.expr == e
  {
    hide Run, Above, Valid, Stack, TopSlot, Decide, Goto, R1, R2, Semantics, ValueToken;
    var x := TopSlot(m);
    ConditionGotos(Top(m));
    ConditionRules();
    ConditionShifts();
    assert Pending(m)[1..] == [IS, NULL] + rest;
    var m1, s1 := ParseValue(m, e.operand);
    AboveTop(m, m1, [s1]);
    var m2, s2 := Shifts(m, m1, [s1], IS);
    AboveTop(m, m2, [s1] + [s2]);
    var m3, s3 := Shifts(m, m2, [s1] + [s2], NULL);
    assert [s1] + [s2] + [s3] == [s1, s2, s3];
    AboveTop(m, m3, [s1, s2, s3]);
    assert Pending(m3) == rest;
    ConditionReduces(Next(rest));
    ConditionSemantics(x, s1, s2, s3, s3);
    m', s := FinishCondition(m, m3, [s1, s2, s3], 12);
  }

  lemma ParseIsNotNull(m: Machine, e: Expr, rest: seq<Token>) returns (m': Machine, s: Sym)
    requires Valid(m) && StartsExpression(Top(m)) && IsAtom(e) && e.IsNullExpr? && !e.isNull
    requires Pending(m) == [ValueToken(e.operand), IS, NOT, NULL] + rest
    ensures Above(m, m', [s]) && Pending(m') == rest && s.yys == Goto(Top(m), 1) && s.expr == e
  {
    hide Run, Above, Valid, Stack, TopSlot, Decide, Goto, R1, R2, Semantics, ValueToken, Pending;
    var x := TopSlot(m);
    ConditionGotos(Top(m));
    ConditionRules();
    ConditionShifts();
    assert Pending(m)[1..] == [IS, NOT, NULL] + rest;
    var m1, s1 := ParseValue(m, e.operand);
    AboveTop(m, m1, [s1]);
    var m2, s2 := Shifts(m, m1, [s1], IS);
    AboveTop(m, m2, [s1] + [s2]);
    var m3, s3 := Shifts(m, m2, [s1] + [s2], NOT);
    AboveTop(m, m3, [s1] + [s2] + [s3]);
    var m4, s4 := Shifts(m, m3, [s1] + [s2] + [s3], NULL);
    assert [s1] + [s2] + [s3] + [s4] == [s1, s2, s3, s4];
    AboveTop(m, m4, [s1, s2, s3, s4]);
    assert Pending(m4) == rest;
    ConditionReduces(Next(rest));
    ConditionSemantics(x, s1, s2, s3, s4);
    m', s := FinishCondition(m, m4, [s1, s2, s3, s4], 13);
  }

  // ----- Expressions -----

  /** A derivation of this shape may stand where an expression starts in state `q`. */
  predicate Fits(q: int, t: Tree) {
    match q
    case 2 => true
    case 6 => true
    case 22 => !t.Or?
    case _ => !t.Or? && !t.And?
  }

  /** The tokens after a derivation end it. */
  predicate Ends(t: Tree, rest: seq<Token>) {
    rest != [] ==> rest[0].OR? || rest[0].RPAREN? || (rest[0].AND? && !t.Or?)
  }

  lemma ExpressionShifts(q: int)
    requires StartsExpression(q)
    ensures Decide(q, 15) == Shift(6) && Decide(q, 6) == Shift(7)
    ensures Decide(q, 22) == Shift(10) && Decide(q, 23) == Shift(11)
    ensures Decide(4, 5) == Shift(21) && Decide(23, 5) == Shift(21) && Decide(40, 5) == Shift(21)
    ensures Decide(4, 4) == Shift(22) && Decide(23, 4) == Shift(22) && Decide(23, 16) == Shift(41)
  {
  }

  lemma ExpressionReduces(t: int)
    requires IsToken(t)
    ensures Decide(24, t) == Reduce(7) && Decide(39, t) == Reduce(5) && Decide(41, t) == Reduce(4)
    ensures Decide(10, t) == Reduce(27) && Decide(11, t) == Reduce(28)
  {
    hide Act, Chk, Exca;
  }

  lemma OrReduce(t: int)
    requires IsToken(t) && t != 5
    ensures Decide(40, t) == Reduce(6)
  {
    assert Pact(40) == 36;
    assert t == 1 || t == 2 || t == 3 || t == 4 || 6 <= t;
  }

  lemma ExpressionRules(x: Sym, a: Sym, b: Sym, c: Sym)
    ensures R1(4) == R1(5) == R1(6) == R1(7) == R1(8) == 1 && R1(27) == R1(28) == 6
    ensures R2(4) == R2(5) == R2(6) == 3 && R2(7) == 2 && R2(8) == R2(27) == R2(28) == 1
    ensures Semantics(4, [x] + [a, b, c], a).expr == b.expr
    ensures Semantics(5, [x] + [a, b, c], a).expr == AndExpr(a.expr, c.expr)
    ensures Semantics(6, [x] + [a, b, c], a).expr == OrExpr(a.expr, c.expr)
    ensures Semantics(7, [x] + [a, b], a).expr == NotExpr(b.expr)
    ensures Semantics(8, [x] + [a], a).expr == BoolVal(a.boolVal)
    ensures Semantics(27, [x] + [a], a).boolVal && !Semantics(28, [x] + [a], a).boolVal
  {
  }

  lemma ParseBool(m: Machine, b: bool, rest: seq<Token>) returns (m': Machine, s: Sym)
    requires Valid(m) && StartsExpression(Top(m)) && Pending(m) == [if b then TRUE else FALSE] + rest
    requires !Continues(rest)
    ensures Above(m, m', [s]) && Pending(m') == rest && s.yys == Goto(Top(m), 1) && s.expr == BoolVal(b)
  {
    hide Run, Above, Valid, Stack, TopSlot, Decide, Goto, R1, R2, Semantics;
    var x := TopSlot(m);
    ExpressionShifts(Top(m));
    ExpressionReduces(Next(rest));
    GotoExpression(Top(m));
    OperandReduce(Next(rest));
    AboveRefl(m);
    m', s := Shifts(m, m, [], if b then TRUE else FALSE);
    assert [] + [s] == [s];
    AboveTop(m, m', [s]);
    ExpressionRules(x, s, s, s);
    var w;
    m', s, w := Reduces(m, m', [s], if b then 27 else 28);
    AboveTop(m, m', [s]);
    ExpressionRules(x, s, s, s);
    m', s, w := Reduces(m, m', [s], 8);
  }

  lemma ParseAtom(m: Machine, e: Expr, rest: seq<Token>) returns (m': Machine, s: Sym)
    requires Valid(m) && StartsExpression(Top(m)) && IsAtom(e) && !Continues(rest)
    requires Pending(m) == AtomTokens(e) + rest
    ensures Above(m, m', [s]) && Pending(m') == rest && s.yys == Goto(Top(m), 1) && s.expr == e
  {
    hide Run, Above, Valid, Stack, TopSlot, Decide, Goto;
    if e.BoolVal? {
      m', s := ParseBool(m, e.b, rest);
    } else if e.IsNullExpr? && e.isNull {
      assert AtomTokens(e) == [ValueToken(e.operand), IS, NULL];
      m', s := ParseIsNull(m, e, rest);
    } else if e.IsNullExpr? {
      assert AtomTokens(e) == [ValueToken(e.operand), IS, NOT, NULL];
      m', s := ParseIsNotNull(m, e, rest);
    } else if IsCompare(e.op) {
      m', s := ParseComparison(m, e, rest);
    } else if e.op.LikeOp? {
      assert AtomTokens(e) == [ValueToken(e.left), LIKE, ValueToken(e.right)];
      m', s := ParseLike(m, e, rest);
    } else {
      assert AtomTokens(e) == [ValueToken(e.left), NOT, LIKE, ValueToken(e.right)];
      m', s := ParseNotLike(m, e, rest);
    }
  }

  /** A derivation is reduced to one slot that holds its meaning, whatever lies below it on the stack. */
  lemma {:induction false} ParseTree(m: Machine, t: Tree, rest: seq<Token>) returns (m': Machine, s: Sym)
    requires Valid(m) && StartsExpression(Top(m)) && WellFormed(t) && Fits(Top(m), t) && Ends(t, rest)
    requires Pending(m) == Yield(t) + rest
    ensures Above(m, m', [s]) && Pending(m') == rest && s.yys == Goto(Top(m), 1) && s.expr == Meaning(t)
    decreases t, 1
  {
    hide Run, Above, Valid, Stack, TopSlot, Decide, Goto;
    match t {
      case Atom(e) => m', s := ParseAtom(m, e, rest);
      case Paren(_) => m', s := ParseParen(m, t, rest);
      case Not(_) => m', s := ParseNot(m, t, rest);
      case And(_, _) => m', s := ParseAnd(m, t, rest);
      case Or(_, _) => m', s := ParseOr(m, t, rest);
    }
  }

  lemma {:induction false} ParseParen(m: Machine, t: Tree, rest: seq<Token>) returns (m': Machine, s: Sym)
    requires Valid(m) && StartsExpression(Top(m)) && t.Paren? && WellFormed(t)
    requires Pending(m) == Yield(t) + rest
    ensures Above(m, m', [s]) && Pending(m') == rest && s.yys == Goto(Top(m), 1) && s.expr == Meaning(t)
    decreases t, 0
  {
    hide Run, Above, Valid, Stack, TopSlot, Decide, Goto, R1, R2, Semantics, Yield, Pending;
    YieldParts(t, rest);
    var x, w := TopSlot(m), TopSlot(m);
    GotoExpression(6);
    ExpressionShifts(Top(m));
    ExpressionReduces(Next(rest));
    AboveRefl(m);
    var m1, s1 := Shifts(m, m, [], LPAREN);
    assert [] + [s1] == [s1];
    AboveTop(m, m1, [s1]);
    var m2, s2 := ParseTree(m1, t.inner, [RPAREN] + rest);
    AboveTrans(m, m1, [s1], m2, [s2]);
    AboveTop(m1, m2, [s2]);
    var m3, s3 := Shifts(m, m2, [s1] + [s2], RPAREN);
    assert [s1] + [s2] + [s3] == [s1, s2, s3];
    AboveTop(m, m3, [s1, s2, s3]);
    ExpressionRules(x, s1, s2, s3);
    m', s, w := Reduces(m, m3, [s1, s2, s3], 4);
  }

  lemma {:induction false} ParseNot(m: Machine, t: Tree, rest: seq<Token>) returns (m': Machine, s: Sym)
    requires Valid(m) && StartsExpression(Top(m)) && t.Not? && WellFormed(t) && Ends(t, rest)
    requires Pending(m) == Yield(t) + rest
    ensures Above(m, m', [s]) && Pending(m') == rest && s.yys == Goto(Top(m), 1) && s.expr == Meaning(t)
    decreases t, 0
  {
    hide Run, Above, Valid, Stack, TopSlot, Decide, Goto, R1, R2, Semantics, Yield, Pending;
    YieldParts(t, rest);
    var x, w := TopSlot(m), TopSlot(m);
    GotoExpression(7);
    ExpressionShifts(Top(m));
    ExpressionReduces(Next(rest));
    AboveRefl(m);
    var m1, s1 := Shifts(m, m, [], NOT);
    assert [] + [s1] == [s1];
    AboveTop(m, m1, [s1]);
    var m2, s2 := ParseTree(m1, t.inner, rest);
    AboveTrans(m, m1, [s1], m2, [s2]);
    assert [s1] + [s2] == [s1, s2];
    AboveTop(m, m2, [s1, s2]);
    ExpressionRules(x, s1, s2, s2);
    m', s, w := Reduces(m, m2, [s1, s2], 7);
  }

  /** Shifting AND or OR after a first operand. */
  lemma ShiftOperator(m: Machine, m1: Machine, s1: Sym, op: Token, rest: seq<Token>) returns (m2: Machine, s2: Sym)
    requires Valid(m) && Above(m, m1, [s1]) && s1.yys == Goto(Top(m), 1) && Pending(m1) == [op] + rest
    requires (op.AND? && (Top(m) == 2 || Top(m) == 6 || Top(m) == 22)) || (op.OR? && (Top(m) == 2 || Top(m) == 6))
    ensures Above(m, m2, [s1] + [s2]) && Valid(m2) && Pending(m2) == rest && Top(m2) == if op.AND? then 21 else 22
  {
    hide Run, Above, Valid, Stack, TopSlot, Decide, Goto, Top, Pending;
    GotoExpression(Top(m));
    ExpressionShifts(Top(m));
    AboveTop(m, m1, [s1]);
    m2, s2 := Shifts(m, m1, [s1], op);
    AboveTop(m, m2, [s1] + [s2]);
  }

  /** Reducing two operands with their operator between them. */
  lemma FinishBinary(m: Machine, m2: Machine, s1: Sym, s2: Sym, m3: Machine, s3: Sym, r: int) returns (m': Machine, s: Sym)
    requires Valid(m) && StartsExpression(Top(m)) && Above(m, m2, [s1] + [s2])
    requires Valid(m2) && Above(m2, m3, [s3])
    requires (r == 5 && s3.yys == 39) || (r == 6 && s3.yys == 40 && (Pending(m3) != [] ==> !Pending(m3)[0].AND?))
    ensures Above(m, m', [s]) && Pending(m') == Pending(m3) && s.yys == Goto(Top(m), 1)
    ensures s.expr == if r == 5 then AndExpr(s1.expr, s3.expr) else OrExpr(s1.expr, s3.expr)
  {
    hide Run, Above, Valid, Stack, TopSlot, Decide, Goto, R1, R2, Semantics;
    ExpressionReduces(Next(Pending(m3)));
    if r == 6 {
      OrReduce(Next(Pending(m3)));
    }
    AboveTop(m2, m3, [s3]);
    AboveTrans(m, m2, [s1] + [s2], m3, [s3]);
    assert [s1] + [s2] + [s3] == [s1, s2, s3];
    ExpressionRules(TopSlot(m), s1, s2, s3);
    var w;
    m', s, w := Reduces(m, m3, [s1, s2, s3], r);
  }

  lemma {:induction false} ParseAnd(m: Machine, t: Tree, rest: seq<Token>) returns (m': Machine, s: Sym)
    requires Valid(m) && StartsExpression(Top(m)) && t.And? && WellFormed(t) && Fits(Top(m), t) && Ends(t, rest)
    requires Pending(m) == Yield(t) + rest
    ensures Above(m, m', [s]) && Pending(m') == rest && s.yys == Goto(Top(m), 1) && s.expr == Meaning(t)
    decreases t, 0
  {
    hide Run, Above, Valid, Stack, TopSlot, Decide, Goto, Top, Pending, Number, Next, Yield;
    var after := Yield(t.right) + rest;
    YieldParts(t, rest);
    assert Fits(Top(m), t.left) && Ends(t.left, [AND] + after) && Fits(21, t.right) && Ends(t.right, rest);
    GotoExpression(21);
    var m1, s1 := ParseTree(m, t.left, [AND] + after);
    var m2, s2 := ShiftOperator(m, m1, s1, AND, after);
    var m3, s3 := ParseTree(m2, t.right, rest);
    m', s := FinishBinary(m, m2, s1, s2, m3, s3, 5);
  }

  lemma {:induction false} ParseOr(m: Machine, t: Tree, rest: seq<Token>) returns (m': Machine, s: Sym)
    requires Valid(m) && StartsExpression(Top(m)) && t.Or? && WellFormed(t) && Fits(Top(m), t) && Ends(t, rest)
    requires Pending(m) == Yield(t) + rest
    ensures Above(m, m', [s]) && Pending(m') == rest && s.yys == Goto(Top(m), 1) && s.expr == Meaning(t)
    decreases t, 0
  {
    hide Run, Above, Valid, Stack, TopSlot, Decide, Goto, Top, Pending, Number, Next, Yield;
    var after := Yield(t.right) + rest;
    YieldParts(t, rest);
    assert Fits(Top(m), t.left) && Ends(t.left, [OR] + after) && Fits(22, t.right) && Ends(t.right, rest);
    GotoExpression(22);
    var m1, s1 := ParseTree(m, t.left, [OR] + after);
    var m2, s2 := ShiftOperator(m, m1, s1, OR, after);
    var m3, s3 := ParseTree(m2, t.right, rest);
    m', s := FinishBinary(m, m2, s1, s2, m3, s3, 6);
  }

  // ----- Order-by lists -----

  lemma OrderShifts()
    ensures Decide(3, 20) == Shift(20) && Decide(35, 20) == Shift(20) && Decide(18, 27) == Shift(35)
    ensures Decide(20, 25) == Shift(37) && Decide(20, 26) == Shift(38)
  {
  }

  lemma OrderReduces(t: int)
    requires IsToken(t)
    ensures Decide(37, t) == Reduce(34) && Decide(38, t) == Reduce(35) && Decide(36, t) == Reduce(32)
    ensures Decide(19, t) == Reduce(30) && Decide(48, t) == Reduce(31)
    ensures t == 1 || t == 27 ==> Decide(20, t) == Reduce(33) && Decide(3, t) == Reduce(29)
  {
  }

  lemma OrderRules(x: Sym, a: Sym, b: Sym, c: Sym)
    ensures R1(29) == R1(30) == R1(31) == 7 && R1(32) == 8 && R1(33) == R1(34) == R1(35) == 9
    ensures R2(29) == R2(33) == 0 && R2(30) == R2(34) == R2(35) == 1 && R2(32) == 2 && R2(31) == 3
    ensures Semantics(29, [x] + [], a).orderList == [] && Semantics(30, [x] + [a], a).orderList == [a.order]
    ensures Semantics(31, [x] + [a, b, c], a).orderList == a.orderList + [c.order]
    ensures Semantics(32, [x] + [a, b], a).order == Order(JSONPathVal(a.jsonPathValue), b.direction)
    ensures Semantics(33, [x] + [], a).direction == Asc
    ensures Semantics(34, [x] + [a], a).direction == Asc && Semantics(35, [x] + [a], a).direction == Desc
  {
  }

  /** What follows an item or a list: the end or a comma. */
  predicate EndsItem(rest: seq<Token>) { rest != [] ==> rest[0].COMMA? }

  /** The direction after a path, given or left out, ends in state 36. */
  lemma ParseDirection(m: Machine, d: OptDirection, rest: seq<Token>) returns (m': Machine, s: Sym)
    requires Valid(m) && Top(m) == 20 && EndsItem(rest)
    requires Pending(m) == (if d.Default? then [] else if d.d.Asc? then [ASC] else [DESC]) + rest
    ensures Above(m, m', [s]) && Pending(m') == rest && s.yys == 36
    ensures s.direction == if d.Default? then Asc else d.d
  {
    hide Run, Above, Valid, Stack, TopSlot, Decide, Goto, R1, R2, Semantics;
    var x, w := TopSlot(m), TopSlot(m);
    AboveRefl(m);
    OrderShifts();
    OrderReduces(Next(rest));
    GotoOther();
    if d.Default? {
      assert Pending(m) == rest;
      OrderRules(x, x, x, x);
      m', s, w := Reduces(m, m, [], 33);
      OrderRules(x, w, x, x);
    } else {
      m', s := Shifts(m, m, [], if d.d.Asc? then ASC else DESC);
      assert [] + [s] == [s];
      AboveTop(m, m', [s]);
      assert Pending(m') == rest;
      OrderRules(x, s, x, x);
      m', s, w := Reduces(m, m', [s], if d.d.Asc? then 34 else 35);
    }
  }

  lemma ParseItem(m: Machine, o: OrderItem, rest: seq<Token>) returns (m': Machine, s: Sym)
    requires Valid(m) && (Top(m) == 3 || Top(m) == 35) && EndsItem(rest)
    requires Pending(m) == ItemTokens(o) + rest
    ensures Above(m, m', [s]) && Pending(m') == rest && s.yys == Goto(Top(m), 8) && s.order == ItemMeaning(o)
  {
    hide Run, Above, Valid, Stack, TopSlot, Decide, Goto, R1, R2, Semantics;
    var x, w := TopSlot(m), TopSlot(m);
    AboveRefl(m);
    OrderShifts();
    var m1, s1 := Shifts(m, m, [], JSON_PATH(o.path));
    assert [] + [s1] == [s1];
    AboveTop(m, m1, [s1]);
    var m2, s2 := ParseDirection(m1, o.direction, rest);
    AboveTop(m1, m2, [s2]);
    AboveTrans(m, m1, [s1], m2, [s2]);
    assert [s1] + [s2] == [s1, s2];
    OrderReduces(Next(rest));
    OrderRules(x, s1, s2, s2);
    m', s, w := Reduces(m, m2, [s1, s2], 32);
  }

  lemma {:induction false} ParseOrderTree(m: Machine, t: OrderTree, rest: seq<Token>) returns (m': Machine, s: Sym)
    requires Valid(m) && Top(m) == 3 && EndsItem(rest) && Pending(m) == OrderYield(t) + rest
    ensures Above(m, m', [s]) && Pending(m') == rest && s.yys == 18 && s.orderList == OrderMeaning(t)
    decreases t
  {
    hide Run, Above, Valid, Stack, TopSlot, Decide, Goto, R1, R2, Semantics;
    var x, w := TopSlot(m), TopSlot(m);
    GotoOther();
    OrderShifts();
    OrderReduces(Next(rest));
    match t {
      case EmptyList =>
        AboveRefl(m);
        assert Pending(m) == rest;
        OrderRules(x, x, x, x);
        m', s, w := Reduces(m, m, [], 29);
        OrderRules(x, w, x, x);
      case Single(o) =>
        m', s := ParseItem(m, o, rest);
        AboveTop(m, m', [s]);
        OrderRules(x, s, x, x);
        m', s, w := Reduces(m, m', [s], 30);
      case Append(l, o) =>
        assert OrderYield(t) + rest == OrderYield(l) + ([COMMA] + (ItemTokens(o) + rest));
        var m1, s1 := ParseOrderTree(m, l, [COMMA] + (ItemTokens(o) + rest));
        AboveTop(m, m1, [s1]);
        var m2, s2 := Shifts(m, m1, [s1], COMMA);
        AboveTop(m, m2, [s1] + [s2]);
        var m3, s3 := ParseItem(m2, o, rest);
        AboveTop(m2, m3, [s3]);
        AboveTrans(m, m2, [s1] + [s2], m3, [s3]);
        assert [s1] + [s2] + [s3] == [s1, s2, s3];
        OrderRules(x, s1, s2, s3);
        m', s, w := Reduces(m, m3, [s1, s2, s3], 31);
    }
  }

  // ----- Sentences -----

  lemma SentenceFacts()
    ensures Decide(0, 24) == Shift(2) && Decide(0, 28) == Shift(3)
    ensures Decide(4, 1) == Reduce(1) && Decide(18, 1) == Reduce(2) && Decide(1, 1) == Accept
    ensures R1(1) == R1(2) == 10 && R2(1) == R2(2) == 2
  {
  }

  /** At the end of the input, the start symbol with its tree is reduced by production 1 or 2 and accepted. */
  lemma Accepts(m0: Machine, m: Machine, s1: Sym, s2: Sym, r: int)
    requires Valid(m0) && Top(m0) == 0 && Above(m0, m, [s1, s2]) && Pending(m) == []
    requires (r == 1 && s2.yys == 4) || (r == 2 && s2.yys == 18)
    ensures Run(m0) == if r == 1 then Result(0, s2.expr, m0.orderBy, false) else Result(0, m0.expr, s2.orderList, false)
  {
    hide Decide, Prepare, Semantics, Goto, R1, R2, Def, Rank;
    AboveTop(m0, m, [s1, s2]);
    SentenceFacts();
    StepIsReduction(m, r);
    PrepareFacts(m);
    var m1 := Prepare(m);
    ReduceStep(m1, r);
    assert Stack(m1)[m1.p] == s2 && Stack(m1)[m1.p - 2] == Stack(m0)[m0.p];
    GotoOther();
    var m2 := ReduceBy(m1, r);
    ActionOfPending(m2);
    PrepareFacts(m2);
  }

  /** Every filter the grammar derives is accepted, and the tree left in the lexer is the expression it stands for. */
  lemma AcceptsExpression(t: Tree)
    requires WellFormed(t)
    ensures Parsed([START_EXPRESSION] + Yield(t)) == Result(0, Meaning(t), [], false)
  {
    hide Run, Above, Valid, Stack, TopSlot, Decide, Goto;
    var m := Initial([START_EXPRESSION] + Yield(t));
    AboveRefl(m);
    assert Top(m) == 0;
    SentenceFacts();
    var m1, s1 := Shifts(m, m, [], START_EXPRESSION);
    assert [] + [s1] == [s1];
    AboveTop(m, m1, [s1]);
    assert Yield(t) + [] == Yield(t);
    var m2, s2 := ParseTree(m1, t, []);
    GotoExpression(2);
    AboveTrans(m, m1, [s1], m2, [s2]);
    assert [s1] + [s2] == [s1, s2];
    Accepts(m, m2, s1, s2, 1);
  }

  /** Every order-by list the grammar derives is accepted, and leaves the columns it stands for in order. */
  lemma AcceptsOrderBy(t: OrderTree)
    ensures Parsed([START_ORDER_LIST] + OrderYield(t)) == Result(0, Absent, OrderMeaning(t), false)
  {
    hide Run, Above, Valid, Stack, TopSlot, Decide, Goto;
    var m := Initial([START_ORDER_LIST] + OrderYield(t));
    AboveRefl(m);
    assert Top(m) == 0;
    SentenceFacts();
    var m1, s1 := Shifts(m, m, [], START_ORDER_LIST);
    assert [] + [s1] == [s1];
    AboveTop(m, m1, [s1]);
    assert OrderYield(t) + [] == OrderYield(t);
    var m2, s2 := ParseOrderTree(m1, t, []);
    AboveTrans(m, m1, [s1], m2, [s2]);
    assert [s1] + [s2] == [s1, s2];
    Accepts(m, m2, s1, s2, 2);
  }

  /** Parsing undoes printing. */
  lemma ParseUndoesPrint(e: Expr)
    requires IsExpression(e)
    ensures Parsed([START_EXPRESSION] + Yield(Print(e))) == Result(0, e, [], false)
  {
    hide Parsed;
    AcceptsExpression(Print(e));
  }
}

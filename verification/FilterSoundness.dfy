/** Nothing but the sentences of the grammar is accepted: every slot of the stack stands for a
    derivation of the tokens it covers, in every configuration a run goes through. */
module FilterSoundness {
  import opened FilterSyntax
  import opened FilterTables
  import opened FilterMachine
  import opened FilterGrammar
  import opened FilterCompleteness

  /** What a slot above the bottom stands for, by the symbol its state is entered on. */
  datatype Node =
    | TokenNode(t: Token)
    | ExpressionNode(tree: Tree)
    | ConditionNode(e: Expr)
    | CompareNode(op: Op)
    | ValueNode(e: Expr)
    | BoolNode(b: bool)
    | ListNode(list: OrderTree)
    | ItemNode(item: OrderItem)
    | DirectionNode(d: OptDirection)
    | FilterNode(tree: Tree)
    | OrderByNode(list: OrderTree)

  predicate Proper(n: Node) {
    match n
    case ExpressionNode(t) => WellFormed(t)
    case FilterNode(t) => WellFormed(t)
    case ConditionNode(e) => IsAtom(e)
    case CompareNode(op) => IsCompare(op)
    case ValueNode(e) => IsValue(e)
    case _ => true
  }

  function Tokens(n: Node): seq<Token> {
    if !Proper(n) then [] else
    match n
    case TokenNode(t) => [t]
    case ExpressionNode(t) => Yield(t)
    case ConditionNode(e) => AtomTokens(e)
    case CompareNode(op) => OpTokens(op)
    case ValueNode(e) => [ValueToken(e)]
    case BoolNode(b) => [if b then TRUE else FALSE]
    case ListNode(l) => OrderYield(l)
    case ItemNode(o) => ItemTokens(o)
    case DirectionNode(d) => if d.Default? then [] else if d.d.Asc? then [ASC] else [DESC]
    case FilterNode(t) => [START_EXPRESSION] + Yield(t)
    case OrderByNode(l) => [START_ORDER_LIST] + OrderYield(l)
  }

  /** The symbol a node is for, as Chk writes it. */
  predicate Symbol(n: Node, c: int) {
    match n
    case TokenNode(t) => c == Number(t)
    case ExpressionNode(_) => c == -1
    case ConditionNode(_) => c == -2
    case CompareNode(_) => c == -3
    case ValueNode(_) => c == -4 || c == -5
    case BoolNode(_) => c == -6
    case ListNode(_) => c == -7
    case ItemNode(_) => c == -8
    case DirectionNode(_) => c == -9
    case FilterNode(_) => c == -10
    case OrderByNode(_) => c == -10
  }

  /** The operand after OR is no OR; the operands after AND and NOT are neither OR nor AND. */
  predicate Level(s: int, n: Node) {
    n.ExpressionNode? ==>
      && (s == 40 ==> !n.tree.Or?)
      && (s == 39 || s == 24 ==> !n.tree.Or? && !n.tree.And?)
  }

  /** The slot holds the value of the node. */
  predicate Holds(n: Node, s: Sym) {
    match n
    case TokenNode(t) => s == WriteValue(s, t)
    case ExpressionNode(t) => s.expr == Meaning(t)
    case ConditionNode(e) => s.expr == e
    case CompareNode(op) => s.op == op
    case ValueNode(e) => s.expr == e
    case BoolNode(b) => s.boolVal == b
    case ListNode(l) => s.orderList == OrderMeaning(l)
    case ItemNode(o) => s.order == ItemMeaning(o)
    case DirectionNode(d) => s.direction == if d.Default? then Asc else d.d
    case FilterNode(_) => true
    case OrderByNode(_) => true
  }

  predicate StandsFor(n: Node, s: Sym) {
    IsState(s.yys) && Proper(n) && Symbol(n, Chk(s.yys)) && Level(s.yys, n) && Holds(n, s)
  }

  // ----- Reductions build nodes -----

  /** The slot a production leaves on `x` in place of `ss`. */
  function Reduced(r: int, x: Sym, ss: seq<Sym>, v: Sym): Sym
    requires 1 <= r < 36 && |ss| == R2(r) && IsState(x.yys)
  {
    Semantics(r, [x] + ss, v).(yys := Goto(x.yys, R1(r)))
  }

  /** What kind of node production `r` can leave. */
  predicate Left(n: Node, r: int) {
    && !n.TokenNode?
    && (n.FilterNode? <==> r == 1) && (n.OrderByNode? <==> r == 2)
    && (n.ExpressionNode? && n.tree.Or? ==> r == 6)
  }

  /** The symbols that states are entered on, besides those a single token leads to. */
  lemma ChkExpressions()
    ensures Chk(4) == -1 && Chk(23) == -1 && Chk(24) == -1 && Chk(39) == -1 && Chk(40) == -1 && Chk(5) == -2
  {
  }

  lemma ChkOperands()
    ensures Chk(8) == -6 && Chk(9) == -5 && Chk(12) == -4 && Chk(42) == -5 && Chk(43) == -6 && Chk(44) == -5 && Chk(49) == -5
  {
  }

  lemma ChkKeywords()
    ensures Chk(21) == 5 && Chk(22) == 4 && Chk(7) == 6 && Chk(27) == 6 && Chk(47) == 6 && Chk(26) == 13 && Chk(45) == 13
  {
  }

  lemma ChkMarks()
    ensures Chk(28) == 14 && Chk(46) == 21 && Chk(50) == 21 && Chk(6) == 15 && Chk(41) == 16 && Chk(25) == -3 && Chk(20) == 20
  {
  }

  lemma ChkOrders()
    ensures Chk(1) == -10 && Chk(2) == 24 && Chk(3) == 28 && Chk(18) == -7 && Chk(19) == -8 && Chk(35) == 27 && Chk(36) == -9 && Chk(48) == -8
  {
  }

  lemma ChkFacts()
    ensures Chk(1) == -10 && Chk(2) == 24 && Chk(3) == 28 && Chk(4) == -1 && Chk(5) == -2 && Chk(6) == 15 && Chk(7) == 6
    ensures Chk(8) == -6 && Chk(9) == -5 && Chk(12) == -4 && Chk(18) == -7 && Chk(19) == -8 && Chk(20) == 20 && Chk(21) == 5
    ensures Chk(22) == 4 && Chk(23) == -1 && Chk(24) == -1 && Chk(25) == -3 && Chk(26) == 13 && Chk(27) == 6 && Chk(28) == 14
    ensures Chk(35) == 27 && Chk(36) == -9 && Chk(39) == -1 && Chk(40) == -1 && Chk(41) == 16 && Chk(42) == -5 && Chk(43) == -6
    ensures Chk(44) == -5 && Chk(45) == 13 && Chk(46) == 21 && Chk(47) == 6 && Chk(48) == -8 && Chk(49) == -5 && Chk(50) == 21
  {
    hide Chk;
    ChkExpressions();
    ChkOperands();
    ChkKeywords();
    ChkMarks();
    ChkOrders();
  }

  /** What a production leaves, by its length. */
  lemma ReducedOne(r: int, x: Sym, a: Sym)
    requires 1 <= r < 36 && R2(r) == 1 && IsState(x.yys)
    ensures var s := Reduced(r, x, [a], a);
            && s.yys == Goto(x.yys, R1(r))
            && (r == 3 ==> s.expr == a.expr) && (r == 8 || r == 15 ==> s.expr == BoolVal(a.boolVal)) && (r == 14 ==> s.expr == a.expr)
            && (r == 16 ==> s.op == EqualOp) && (r == 17 ==> s.op == LessThanOp) && (r == 18 ==> s.op == GreaterThanOp)
            && (r == 19 ==> s.op == LessEqualOp) && (r == 20 ==> s.op == GreaterEqualOp) && (r == 21 ==> s.op == NotEqualOp)
            && (r == 22 ==> s.expr == StringVal(a.stringValue)) && (r == 23 ==> s.expr == IntVal(a.integralValue))
            && (r == 24 ==> s.expr == FloatVal(a.floatValue)) && (r == 25 ==> s.expr == JSONPathVal(a.jsonPathValue))
            && (r == 26 ==> s.expr == NullVal) && (r == 27 ==> s.boolVal) && (r == 28 ==> !s.boolVal)
            && (r == 30 ==> s.orderList == [a.order]) && (r == 34 ==> s.direction == Asc) && (r == 35 ==> s.direction == Desc)
  {
    hide Goto;
  }

  lemma ReducedTwo(r: int, x: Sym, a: Sym, b: Sym)
    requires 1 <= r < 36 && R2(r) == 2 && IsState(x.yys)
    ensures var s := Reduced(r, x, [a, b], a);
            && s.yys == Goto(x.yys, if r <= 2 then 10 else if r == 7 then 1 else 8)
            && (r == 7 ==> s.expr == NotExpr(b.expr)) && (r == 32 ==> s.order == Order(JSONPathVal(a.jsonPathValue), b.direction))
  {
    hide Goto;
  }

  lemma ReducedThree(r: int, x: Sym, a: Sym, b: Sym, c: Sym)
    requires 1 <= r < 36 && R2(r) == 3 && IsState(x.yys)
    ensures var s := Reduced(r, x, [a, b, c], a);
            && s.yys == Goto(x.yys, if r <= 6 then 1 else if r == 31 then 7 else 2)
            && (r == 4 ==> s.expr == b.expr) && (r == 5 ==> s.expr == AndExpr(a.expr, c.expr)) && (r == 6 ==> s.expr == OrExpr(a.expr, c.expr))
            && (r == 9 ==> s.expr == ComparisonExpr(b.op, a.expr, c.expr)) && (r == 10 ==> s.expr == ComparisonExpr(LikeOp, a.expr, c.expr))
            && (r == 12 ==> s.expr == IsNullExpr(true, a.expr)) && (r == 31 ==> s.orderList == a.orderList + [c.order])
  {
    hide Goto;
  }

  lemma ReducedFour(r: int, x: Sym, a: Sym, b: Sym, c: Sym, d: Sym)
    requires 1 <= r < 36 && R2(r) == 4 && IsState(x.yys)
    ensures var s := Reduced(r, x, [a, b, c, d], a);
            && s.yys == Goto(x.yys, 2)
            && (r == 11 ==> s.expr == ComparisonExpr(NotLikeOp, a.expr, d.expr)) && (r == 13 ==> s.expr == IsNullExpr(false, a.expr))
  {
    hide Goto;
  }

  /** The node that stands on a state, by the symbol the state is entered on. */
  lemma NodeAt(n: Node, s: Sym)
    requires StandsFor(n, s)
    ensures var c := Chk(s.yys);
            && (c == -1 ==> n.ExpressionNode? && WellFormed(n.tree) && s.expr == Meaning(n.tree) && Tokens(n) == Yield(n.tree) && Level(s.yys, n))
            && (c == -2 ==> n.ConditionNode? && IsAtom(n.e) && s.expr == n.e && Tokens(n) == AtomTokens(n.e))
            && (c == -3 ==> n.CompareNode? && IsCompare(n.op) && s.op == n.op && Tokens(n) == OpTokens(n.op))
            && (c == -4 || c == -5 ==> n.ValueNode? && IsValue(n.e) && s.expr == n.e && Tokens(n) == [ValueToken(n.e)])
            && (c == -6 ==> n.BoolNode? && s.boolVal == n.b && Tokens(n) == [if n.b then TRUE else FALSE])
            && (c == -7 ==> n.ListNode? && s.orderList == OrderMeaning(n.list) && Tokens(n) == OrderYield(n.list))
            && (c == -8 ==> n.ItemNode? && s.order == ItemMeaning(n.item) && Tokens(n) == ItemTokens(n.item))
            && (c == -9 ==> n.DirectionNode? && s.direction == (if n.d.Default? then Asc else n.d.d) &&
                            Tokens(n) == if n.d.Default? then [] else if n.d.d.Asc? then [ASC] else [DESC])
            && (c > 0 ==> n.TokenNode? && Number(n.t) == c && s == WriteValue(s, n.t) && Tokens(n) == [n.t])
  {
    hide WellFormed, Meaning, Yield, AtomTokens, OpTokens, OrderYield, OrderMeaning, ItemTokens, ItemMeaning, Number, WriteValue, Level;
  }

  lemma ExpressionStands(t: Tree, s: Sym)
    requires IsState(s.yys) && Chk(s.yys) == -1 && WellFormed(t) && s.expr == Meaning(t) && Level(s.yys, ExpressionNode(t))
    ensures StandsFor(ExpressionNode(t), s) && Tokens(ExpressionNode(t)) == Yield(t)
  {
  }

  lemma ConditionStands(e: Expr, s: Sym)
    requires IsState(s.yys) && Chk(s.yys) == -2 && IsAtom(e) && s.expr == e
    ensures StandsFor(ConditionNode(e), s) && Tokens(ConditionNode(e)) == AtomTokens(e)
  {
  }

  lemma ListStands(l: OrderTree, s: Sym)
    requires IsState(s.yys) && Chk(s.yys) == -7 && s.orderList == OrderMeaning(l)
    ensures StandsFor(ListNode(l), s) && Tokens(ListNode(l)) == OrderYield(l)
  {
  }

  lemma ItemStands(o: OrderItem, s: Sym)
    requires IsState(s.yys) && Chk(s.yys) == -8 && s.order == ItemMeaning(o)
    ensures StandsFor(ItemNode(o), s) && Tokens(ItemNode(o)) == ItemTokens(o)
  {
  }

  lemma ValueStands(e: Expr, s: Sym)
    requires IsState(s.yys) && (Chk(s.yys) == -4 || Chk(s.yys) == -5) && IsValue(e) && s.expr == e
    ensures StandsFor(ValueNode(e), s) && Tokens(ValueNode(e)) == [ValueToken(e)]
  {
  }

  lemma CompareStands(op: Op, s: Sym)
    requires IsState(s.yys) && Chk(s.yys) == -3 && IsCompare(op) && s.op == op
    ensures StandsFor(CompareNode(op), s) && Tokens(CompareNode(op)) == OpTokens(op)
  {
  }

  lemma BoolStands(b: bool, s: Sym)
    requires IsState(s.yys) && Chk(s.yys) == -6 && s.boolVal == b
    ensures StandsFor(BoolNode(b), s) && Tokens(BoolNode(b)) == [if b then TRUE else FALSE]
  {
  }

  lemma DirectionStands(d: OptDirection, s: Sym)
    requires IsState(s.yys) && Chk(s.yys) == -9 && s.direction == if d.Default? then Asc else d.d
    ensures StandsFor(DirectionNode(d), s) && Tokens(DirectionNode(d)) == if d.Default? then [] else if d.d.Asc? then [ASC] else [DESC]
  {
  }

  lemma StartStands(n: Node, s: Sym)
    requires IsState(s.yys) && Chk(s.yys) == -10 && ((n.FilterNode? && WellFormed(n.tree)) || n.OrderByNode?)
    ensures StandsFor(n, s)
    ensures Tokens(n) == if n.FilterNode? then [START_EXPRESSION] + Yield(n.tree) else [START_ORDER_LIST] + OrderYield(n.list)
  {
  }

  /** The tokens without a value, by number. */
  lemma NumberedToken(t: Token)
    ensures (Number(t) == 4 ==> t == OR) && (Number(t) == 5 ==> t == AND) && (Number(t) == 6 ==> t == NOT)
    ensures (Number(t) == 7 ==> t == EQ) && (Number(t) == 8 ==> t == LT) && (Number(t) == 9 ==> t == GT)
    ensures (Number(t) == 10 ==> t == LE) && (Number(t) == 11 ==> t == GE) && (Number(t) == 12 ==> t == NE)
    ensures (Number(t) == 13 ==> t == LIKE) && (Number(t) == 14 ==> t == IS) && (Number(t) == 15 ==> t == LPAREN)
    ensures (Number(t) == 16 ==> t == RPAREN) && (Number(t) == 21 ==> t == NULL) && (Number(t) == 22 ==> t == TRUE)
    ensures (Number(t) == 23 ==> t == FALSE) && (Number(t) == 24 ==> t == START_EXPRESSION) && (Number(t) == 25 ==> t == ASC)
    ensures (Number(t) == 26 ==> t == DESC) && (Number(t) == 27 ==> t == COMMA) && (Number(t) == 28 ==> t == START_ORDER_LIST)
    ensures (Number(t) == 17 ==> t.STRING?) && (Number(t) == 18 ==> t.INTEGRAL?) && (Number(t) == 19 ==> t.FLOAT?)
    ensures Number(t) == 20 ==> t.JSON_PATH?
  {
  }

  lemma NodeEmpty(r: int, x: Sym, v: Sym) returns (n: Node)
    requires CallsFor(x.yys, r) && R2(r) == 0
    ensures StandsFor(n, Reduced(r, x, [], v)) && Tokens(n) == [] && Left(n, r)
  {
    hide Goto;
    GotoOther();
    if r == 29 {
      n := ListNode(EmptyList);
    } else {
      n := DirectionNode(Default);
    }
  }

  /** The symbol that a production of length one reduces, and the nonterminal it makes of it. */
  lemma RuleSymbols(s: int, r: int)
    requires CallsFor(s, r) && R2(r) == 1
    ensures 16 <= r <= 21 ==> Chk(s) == r - 9 && R1(r) == 3
    ensures 22 <= r <= 26 ==> Chk(s) == r - 5 && R1(r) == 4
    ensures r == 27 || r == 28 ==> Chk(s) == r - 5 && R1(r) == 6
    ensures r == 34 || r == 35 ==> Chk(s) == r - 9 && R1(r) == 9
    ensures (r == 3 ==> Chk(s) == -2 && R1(r) == 1) && (r == 8 ==> Chk(s) == -6 && R1(r) == 1) && (r == 15 ==> Chk(s) == -6 && R1(r) == 5)
    ensures (r == 14 ==> Chk(s) == -4 && R1(r) == 5) && (r == 30 ==> Chk(s) == -8 && R1(r) == 7)
    ensures 16 <= r <= 28 || r == 34 || r == 35 || r == 3 || r == 8 || r == 14 || r == 15 || r == 30
  {
  }

  /** A production whose right-hand side is one operator token. */
  lemma NodeOperator(r: int, x: Sym, a: Sym, na: Node) returns (n: Node)
    requires IsState(x.yys) && Edge(x.yys, a.yys) && CallsFor(a.yys, r) && R2(r) == 1 && StandsFor(na, a) && 16 <= r <= 21
    ensures StandsFor(n, Reduced(r, x, [a], a)) && Tokens(n) == Tokens(na) && Left(n, r)
  {
    hide Goto, Edge, Exposes, Rank, GotoRank, R1, R2, Reduced, StandsFor, Tokens, Number, Chk, WriteValue, CallsFor;
    ReduceOne(x.yys, a.yys, r);
    GotoFacts(x.yys, R1(r));
    RuleSymbols(a.yys, r);
    ReducedOne(r, x, a);
    NodeAt(na, a);
    NumberedToken(na.t);
    var s := Reduced(r, x, [a], a);
    n := CompareNode(s.op);
    CompareStands(s.op, s);
  }

  /** A production whose right-hand side is one operand token. */
  lemma NodeOperand(r: int, x: Sym, a: Sym, na: Node) returns (n: Node)
    requires IsState(x.yys) && Edge(x.yys, a.yys) && CallsFor(a.yys, r) && R2(r) == 1 && StandsFor(na, a) && 22 <= r <= 28
    ensures StandsFor(n, Reduced(r, x, [a], a)) && Tokens(n) == Tokens(na) && Left(n, r)
  {
    hide Goto, Edge, Exposes, Rank, GotoRank, R1, R2, Reduced, StandsFor, Tokens, Number, Chk, CallsFor;
    ReduceOne(x.yys, a.yys, r);
    GotoFacts(x.yys, R1(r));
    RuleSymbols(a.yys, r);
    ReducedOne(r, x, a);
    NodeAt(na, a);
    NumberedToken(na.t);
    var s := Reduced(r, x, [a], a);
    if r <= 26 {
      n := ValueNode(s.expr);
      ValueStands(s.expr, s);
    } else {
      n := BoolNode(r == 27);
      BoolStands(r == 27, s);
    }
  }

  lemma NodeOne(r: int, x: Sym, a: Sym, na: Node) returns (n: Node)
    requires IsState(x.yys) && Edge(x.yys, a.yys) && CallsFor(a.yys, r) && R2(r) == 1 && StandsFor(na, a)
    ensures StandsFor(n, Reduced(r, x, [a], a)) && Tokens(n) == Tokens(na) && Left(n, r)
  {
    hide Goto, Edge, Exposes, Rank, GotoRank, R1, R2, Reduced, StandsFor, Tokens, Number, Chk, WriteValue, CallsFor;
    RuleSymbols(a.yys, r);
    if 16 <= r <= 21 {
      n := NodeOperator(r, x, a, na);
    } else if 22 <= r <= 28 {
      n := NodeOperand(r, x, a, na);
    } else {
      ReduceOne(x.yys, a.yys, r);
      GotoFacts(x.yys, R1(r));
      ReducedOne(r, x, a);
      NodeAt(na, a);
      var s := Reduced(r, x, [a], a);
      match r {
        case 3 =>
          n := ExpressionNode(Atom(na.e));
          ExpressionStands(n.tree, s);
        case 8 =>
          n := ExpressionNode(Atom(BoolVal(na.b)));
          ExpressionStands(n.tree, s);
        case 14 =>
          n := na;
          ValueStands(na.e, s);
        case 15 =>
          n := ValueNode(BoolVal(na.b));
          ValueStands(n.e, s);
        case 30 =>
          n := ListNode(Single(na.item));
          ListStands(n.list, s);
        case _ =>
          NumberedToken(na.t);
          n := DirectionNode(Given(if r == 34 then Asc else Desc));
          DirectionStands(n.d, s);
      }
    }
  }

  /** The states below a right-hand side of length two or more, from the state on top. */
  lemma StatesTwo(r: int, x: int, a: int, b: int)
    requires IsState(x) && Edge(x, a) && Edge(a, b) && CallsFor(b, r) && R2(r) == 2
    ensures (r == 1 && x == 0 && a == 2 && b == 4) || (r == 2 && x == 0 && a == 3 && b == 18)
         || (r == 7 && StartsExpression(x) && a == 7 && b == 24) || (r == 32 && (x == 3 || x == 35) && a == 20 && b == 36)
  {
  }

  lemma NodeTwo(r: int, x: Sym, a: Sym, b: Sym, na: Node, nb: Node) returns (n: Node)
    requires IsState(x.yys) && Edge(x.yys, a.yys) && Edge(a.yys, b.yys) && CallsFor(b.yys, r) && R2(r) == 2
    requires StandsFor(na, a) && StandsFor(nb, b)
    ensures StandsFor(n, Reduced(r, x, [a, b], a)) && Tokens(n) == Tokens(na) + Tokens(nb)
    ensures Left(n, r)
    ensures r == 1 ==> b.expr == Meaning(n.tree)
    ensures r == 2 ==> b.orderList == OrderMeaning(n.list)
  {
    hide Goto, Edge, CallsFor, Semantics, R1, R2, Reduced, StandsFor, Tokens, Number, Chk;
    ChkFacts();
    StatesTwo(r, x.yys, a.yys, b.yys);
    ReducedTwo(r, x, a, b);
    GotoOther();
    NodeAt(na, a);
    NodeAt(nb, b);
    NumberedToken(na.t);
    var s := Reduced(r, x, [a, b], a);
    if r == 7 {
      GotoExpression(x.yys);
      n := ExpressionNode(Not(nb.tree));
      ExpressionStands(n.tree, s);
    } else if r == 32 {
      n := ItemNode(OrderItem(na.t.path, nb.d));
      ItemStands(n.item, s);
    } else {
      n := if r == 1 then FilterNode(nb.tree) else OrderByNode(nb.list);
      StartStands(n, s);
    }
  }

  lemma StatesThree(r: int, x: int, a: int, b: int, c: int)
    requires IsState(x) && Edge(x, a) && Edge(a, b) && Edge(b, c) && CallsFor(c, r) && R2(r) == 3
    ensures (r == 4 && StartsExpression(x) && a == 6 && b == 23 && c == 41)
         || (r == 5 && (x == 2 || x == 6 || x == 22) && (a == 4 || a == 23 || a == 40) && b == 21 && c == 39)
         || (r == 6 && (x == 2 || x == 6) && (a == 4 || a == 23) && b == 22 && c == 40)
         || (r == 9 && StartsExpression(x) && a == 9 && b == 25 && c == 42)
         || (r == 10 && StartsExpression(x) && a == 9 && b == 26 && c == 44)
         || (r == 12 && StartsExpression(x) && a == 9 && b == 28 && c == 46)
         || (r == 31 && x == 3 && a == 18 && b == 35 && c == 48)
  {
  }

  lemma NodeConnective(r: int, x: Sym, a: Sym, b: Sym, c: Sym, na: Node, nb: Node, nc: Node) returns (n: Node)
    requires IsState(x.yys) && Edge(x.yys, a.yys) && Edge(a.yys, b.yys) && Edge(b.yys, c.yys)
    requires CallsFor(c.yys, r) && R2(r) == 3 && 4 <= r <= 6
    requires StandsFor(na, a) && StandsFor(nb, b) && StandsFor(nc, c)
    requires na.ExpressionNode? && na.tree.Or? ==> nb != TokenNode(AND)
    ensures StandsFor(n, Reduced(r, x, [a, b, c], a)) && Tokens(n) == Tokens(na) + Tokens(nb) + Tokens(nc)
    ensures Left(n, r)
  {
    hide Goto, Edge, CallsFor, Semantics, R1, R2, Reduced, StandsFor, Tokens, Number, WriteValue, Chk;
    ChkFacts();
    StatesThree(r, x.yys, a.yys, b.yys, c.yys);
    ReducedThree(r, x, a, b, c);
    GotoExpression(x.yys);
    NodeAt(na, a);
    NodeAt(nb, b);
    NodeAt(nc, c);
    var t;
    if r == 4 {
      NumberedToken(na.t);
      NumberedToken(nc.t);
      t := Paren(nb.tree);
    } else {
      NumberedToken(nb.t);
      t := if r == 5 then And(na.tree, nc.tree) else Or(na.tree, nc.tree);
    }
    n := ExpressionNode(t);
    ExpressionStands(t, Reduced(r, x, [a, b, c], a));
  }

  lemma NodeThree(r: int, x: Sym, a: Sym, b: Sym, c: Sym, na: Node, nb: Node, nc: Node) returns (n: Node)
    requires IsState(x.yys) && Edge(x.yys, a.yys) && Edge(a.yys, b.yys) && Edge(b.yys, c.yys) && CallsFor(c.yys, r) && R2(r) == 3
    requires StandsFor(na, a) && StandsFor(nb, b) && StandsFor(nc, c)
    requires na.ExpressionNode? && na.tree.Or? ==> nb != TokenNode(AND)
    ensures StandsFor(n, Reduced(r, x, [a, b, c], a)) && Tokens(n) == Tokens(na) + Tokens(nb) + Tokens(nc)
    ensures Left(n, r)
  {
    hide Goto, Edge, Semantics, R1, R2, Reduced, StandsFor, Tokens, Number, Chk, WriteValue;
    if 4 <= r <= 6 {
      n := NodeConnective(r, x, a, b, c, na, nb, nc);
    } else {
      ChkFacts();
      StatesThree(r, x.yys, a.yys, b.yys, c.yys);
      hide CallsFor;
      ReducedThree(r, x, a, b, c);
      NodeAt(na, a);
      NodeAt(nb, b);
      NodeAt(nc, c);
      var s := Reduced(r, x, [a, b, c], a);
      if r == 31 {
        GotoOther();
        NumberedToken(nb.t);
        n := ListNode(Append(na.list, nc.item));
        ListStands(n.list, s);
      } else {
        GotoExpression(x.yys);
        if r == 9 {
          n := ConditionNode(ComparisonExpr(nb.op, na.e, nc.e));
        } else if r == 10 {
          NumberedToken(nb.t);
          n := ConditionNode(ComparisonExpr(LikeOp, na.e, nc.e));
        } else {
          NumberedToken(nb.t);
          NumberedToken(nc.t);
          n := ConditionNode(IsNullExpr(true, na.e));
        }
        ConditionStands(n.e, s);
      }
    }
  }

  lemma StatesFour(r: int, x: int, a: int, b: int, c: int, d: int)
    requires IsState(x) && Edge(x, a) && Edge(a, b) && Edge(b, c) && Edge(c, d) && CallsFor(d, r) && R2(r) == 4
    ensures StartsExpression(x) && a == 9
    ensures (r == 11 && b == 27 && c == 45 && d == 49) || (r == 13 && b == 28 && c == 47 && d == 50)
  {
  }

  lemma NodeFour(r: int, x: Sym, a: Sym, b: Sym, c: Sym, d: Sym, na: Node, nb: Node, nc: Node, nd: Node) returns (n: Node)
    requires IsState(x.yys) && Edge(x.yys, a.yys) && Edge(a.yys, b.yys) && Edge(b.yys, c.yys) && Edge(c.yys, d.yys)
    requires CallsFor(d.yys, r) && R2(r) == 4
    requires StandsFor(na, a) && StandsFor(nb, b) && StandsFor(nc, c) && StandsFor(nd, d)
    ensures StandsFor(n, Reduced(r, x, [a, b, c, d], a)) && Left(n, r)
    ensures Tokens(n) == Tokens(na) + Tokens(nb) + Tokens(nc) + Tokens(nd)
  {
    hide Goto, Edge, CallsFor, Semantics, R1, R2, Reduced, StandsFor, Tokens, Number, Chk, WriteValue;
    ChkFacts();
    StatesFour(r, x.yys, a.yys, b.yys, c.yys, d.yys);
    ReducedFour(r, x, a, b, c, d);
    GotoExpression(x.yys);
    NodeAt(na, a);
    NodeAt(nb, b);
    NodeAt(nc, c);
    NodeAt(nd, d);
    NumberedToken(nb.t);
    NumberedToken(nc.t);
    if r == 11 {
      n := ConditionNode(ComparisonExpr(NotLikeOp, na.e, nd.e));
    } else {
      NumberedToken(nd.t);
      n := ConditionNode(IsNullExpr(false, na.e));
    }
    ConditionStands(n.e, Reduced(r, x, [a, b, c, d], a));
  }

  // ----- The invariant over runs -----

  function Flatten(nodes: seq<Node>): seq<Token> {
    if nodes == [] then [] else Flatten(nodes[..|nodes| - 1]) + Tokens(nodes[|nodes| - 1])
  }

  /** No OR derivation is continued by AND. */
  predicate Grouped(nodes: seq<Node>, pending: seq<Token>) {
    && (forall i :: 0 <= i < |nodes| - 1 && nodes[i].ExpressionNode? && nodes[i].tree.Or? ==> nodes[i + 1] != TokenNode(AND))
    && (nodes != [] && nodes[|nodes| - 1].ExpressionNode? && nodes[|nodes| - 1].tree.Or? && pending != [] ==> pending[0] != AND)
  }

  /** What the actions of productions 1 and 2 have left in the lexer. */
  predicate Delivered(nodes: seq<Node>, m: Machine) {
    if nodes != [] && nodes[|nodes| - 1].FilterNode? then m.expr == Meaning(nodes[|nodes| - 1].tree) && m.orderBy == []
    else if nodes != [] && nodes[|nodes| - 1].OrderByNode? then m.expr == Absent && m.orderBy == OrderMeaning(nodes[|nodes| - 1].list)
    else m.expr == Absent && m.orderBy == []
  }

  /** Each slot above the bottom stands for its node. */
  predicate Spells(nodes: seq<Node>, slots: seq<Sym>) {
    |slots| == |nodes| + 1 && forall i :: 0 <= i < |nodes| ==> StandsFor(nodes[i], slots[i + 1])
  }

  lemma SpellsSnoc(nodes: seq<Node>, slots: seq<Sym>, k: nat, n: Node, s: Sym)
    requires Spells(nodes, slots) && k <= |nodes| && StandsFor(n, s)
    ensures Spells(nodes[..k] + [n], slots[..k + 1] + [s])
  {
    hide StandsFor;
  }

  lemma GroupedShift(nodes: seq<Node>, t: Token, rest: seq<Token>)
    requires Grouped(nodes, [t] + rest)
    ensures Grouped(nodes + [TokenNode(t)], rest)
  {
    assert ([t] + rest)[0] == t;
  }

  lemma GroupedReduce(nodes: seq<Node>, k: nat, n: Node, pending: seq<Token>)
    requires Grouped(nodes, pending) && k <= |nodes| && !n.TokenNode?
    requires n.ExpressionNode? && n.tree.Or? && pending != [] ==> pending[0] != AND
    ensures Grouped(nodes[..k] + [n], pending)
  {
  }

  /** The slots above the bottom stand for `nodes`, which cover the tokens shifted so far. */
  ghost predicate Sound(m: Machine, nodes: seq<Node>, tokens: seq<Token>) {
    && Valid(m)
    && Spells(nodes, Stack(m))
    && Flatten(nodes) + Pending(m) == tokens
    && Grouped(nodes, Pending(m))
    && Delivered(nodes, m)
  }

  lemma FlattenSnoc(nodes: seq<Node>, n: Node)
    ensures Flatten(nodes + [n]) == Flatten(nodes) + Tokens(n)
  {
    assert (nodes + [n])[..|nodes|] == nodes;
  }

  lemma {:induction false} FlattenConcat(a: seq<Node>, b: seq<Node>)
    ensures Flatten(a + b) == Flatten(a) + Flatten(b)
    decreases |b|
  {
    hide Tokens;
    if b == [] {
      assert a + b == a;
    } else {
      hide Flatten;
      var b', z := b[..|b| - 1], b[|b| - 1];
      FlattenConcat(a, b');
      calc {
        Flatten(a + b);
        { assert a + b == (a + b') + [z]; }
        Flatten((a + b') + [z]);
        { FlattenSnoc(a + b', z); }
        Flatten(a) + Flatten(b') + Tokens(z);
        { assert Flatten(a) + Flatten(b') + Tokens(z) == Flatten(a) + (Flatten(b') + Tokens(z)); }
        Flatten(a) + (Flatten(b') + Tokens(z));
        { FlattenSnoc(b', z); assert b == b' + [z]; }
        Flatten(a) + Flatten(b);
      }
    }
  }

  lemma FlattenReplace(nodes: seq<Node>, k: nat, n: Node)
    requires k <= |nodes| && Tokens(n) == Flatten(nodes[k..])
    ensures Flatten(nodes[..k] + [n]) == Flatten(nodes)
  {
    hide Tokens, Flatten;
    FlattenSnoc(nodes[..k], n);
    FlattenConcat(nodes[..k], nodes[k..]);
    assert nodes == nodes[..k] + nodes[k..];
  }

  lemma FlattenFew(s: seq<Node>)
    requires |s| <= 4
    ensures |s| == 0 ==> Flatten(s) == []
    ensures |s| == 1 ==> Flatten(s) == Tokens(s[0])
    ensures |s| == 2 ==> Flatten(s) == Tokens(s[0]) + Tokens(s[1])
    ensures |s| == 3 ==> Flatten(s) == Tokens(s[0]) + Tokens(s[1]) + Tokens(s[2])
    ensures |s| == 4 ==> Flatten(s) == Tokens(s[0]) + Tokens(s[1]) + Tokens(s[2]) + Tokens(s[3])
  {
    hide Tokens;
    if |s| > 0 {
      FlattenFew(s[..|s| - 1]);
      assert s == s[..|s| - 1] + [s[|s| - 1]];
      if |s| == 1 {
        assert [] + Tokens(s[0]) == Tokens(s[0]);
      }
    }
  }

  /** Once production 1 or 2 is reduced, the parser accepts or fails. */
  lemma FinalState(s: int, t: int)
    requires IsState(s) && IsToken(t)
    ensures Chk(s) == -10 <==> s == 1
    ensures s == 1 ==> Decide(s, t) == if t == END_TOKEN then Accept else SyntaxError
    ensures Decide(s, t).Accept? ==> s == 1
  {
  }

  lemma NotFinal(m: Machine, nodes: seq<Node>, tokens: seq<Token>)
    requires Sound(m, nodes, tokens) && (NextAction(m).Shift? || NextAction(m).Reduce?)
    ensures m.expr == Absent && m.orderBy == []
  {
    hide Decide;
    FinalState(Top(m), if m.look.NoLook? then END_TOKEN else Internal(m.look));
  }

  lemma ShiftNode(m: Machine)
    requires Valid(m) && m.look.Tok? && NextAction(m).Shift?
    ensures StandsFor(TokenNode(m.look.t), m.lval.(yys := NextAction(m).state))
  {
    hide Decide;
    TokenNumber(m.look.t);
    DecideShift(Top(m), Internal(m.look));
  }

  lemma SoundShift(m: Machine, nodes: seq<Node>, tokens: seq<Token>)
    requires Sound(m, nodes, tokens) && m.look.Tok? && NextAction(m).Shift?
    ensures Sound(Push(m.(look := NoLook), m.lval, NextAction(m).state), nodes + [TokenNode(m.look.t)], tokens)
  {
    hide Decide, Flatten, StandsFor, Grouped, Internal, Pending, Meaning, OrderMeaning, Edge, WriteValue, Stack;
    var t, s := m.look.t, m.lval.(yys := NextAction(m).state);
    assert |nodes| + 1 == |Stack(m)|;
    NotFinal(m, nodes, tokens);
    ShiftStep(m);
    ShiftNode(m);
    hide Valid, Spells;
    FlattenSnoc(nodes, TokenNode(t));
    SpellsSnoc(nodes, Stack(m), |nodes|, TokenNode(t), s);
    assert nodes[..|nodes|] == nodes && Stack(m)[..|Stack(m)|] == Stack(m);
    GroupedShift(nodes, t, Pending(Push(m.(look := NoLook), m.lval, s.yys)));
  }

  /** The node for the left-hand side of the production reduced on top of the stack. */
  lemma ReduceNode(m: Machine, nodes: seq<Node>, tokens: seq<Token>, r: int) returns (n: Node)
    requires Sound(m, nodes, tokens) && CallsFor(Top(m), r) && 0 <= m.p - R2(r)
    ensures StandsFor(n, Semantics(r, Dollar(m, R2(r)), FirstSlot(m, R2(r))).(yys := Goto(Dollar(m, R2(r))[0].yys, R1(r))))
    ensures Tokens(n) == Flatten(nodes[m.p - R2(r)..])
    ensures Left(n, r)
    ensures r == 1 ==> Dollar(m, R2(r))[2].expr == Meaning(n.tree)
    ensures r == 2 ==> Dollar(m, R2(r))[2].orderList == OrderMeaning(n.list)
  {
    hide Semantics, Goto, R1, Edge, StandsFor, Tokens, Flatten;
    assert |nodes| == m.p;
    var p, k := m.p, R2(r);
    var d := Dollar(m, k);
    var x, v := d[0], FirstSlot(m, k);
    FlattenFew(nodes[p - k..]);
    if k == 0 {
      n := NodeEmpty(r, x, v);
      assert d == [x] + [];
    } else if k == 1 {
      n := NodeOne(r, x, d[1], nodes[p - 1]);
      assert d == [x] + [d[1]];
    } else if k == 2 {
      n := NodeTwo(r, x, d[1], d[2], nodes[p - 2], nodes[p - 1]);
      assert d == [x] + [d[1], d[2]];
    } else if k == 3 {
      n := NodeThree(r, x, d[1], d[2], d[3], nodes[p - 3], nodes[p - 2], nodes[p - 1]);
      assert d == [x] + [d[1], d[2], d[3]];
    } else {
      n := NodeFour(r, x, d[1], d[2], d[3], d[4], nodes[p - 4], nodes[p - 3], nodes[p - 2], nodes[p - 1]);
      assert d == [x] + [d[1], d[2], d[3], d[4]];
    }
  }

  lemma OrNeedsNoAnd(s: int, t: int)
    requires IsState(s) && IsToken(t) && Decide(s, t) == Reduce(6)
    ensures t != 5
  {
  }

  lemma DeliveredReduce(nodes: seq<Node>, n: Node, r: int, m: Machine, m': Machine, d: seq<Sym>)
    requires m.expr == Absent && m.orderBy == [] && Left(n, r)
    requires r == 1 ==> |d| > 2 && m'.expr == d[2].expr == Meaning(n.tree) && m'.orderBy == []
    requires r == 2 ==> |d| > 2 && m'.orderBy == d[2].orderList == OrderMeaning(n.list) && m'.expr == Absent
    requires r != 1 && r != 2 ==> m'.expr == Absent && m'.orderBy == []
    ensures Delivered(nodes + [n], m')
  {
  }

  lemma SoundReduce(m: Machine, nodes: seq<Node>, tokens: seq<Token>, r: int) returns (nodes': seq<Node>)
    requires Sound(m, nodes, tokens) && NextAction(m) == Reduce(r) == Decide(Top(m), Next(Pending(m)))
    ensures CallsFor(Top(m), r) && 0 <= m.p - R2(r) && Sound(ReduceBy(m, r), nodes', tokens)
  {
    assert |nodes| == m.p;
    hide Decide, Flatten, Spells, StandsFor, Grouped, Chk, R1, R2, Semantics, Goto, Rank, Def, Edge, ReduceBy, Dollar,
      FirstSlot, Stack, Pending, Meaning, OrderMeaning;
    NotFinal(m, nodes, tokens);
    ReduceAction(m);
    ReduceStep(m, r);
    var k, m', kept := R2(r), ReduceBy(m, r), m.p - R2(r);
    var n := ReduceNode(m, nodes, tokens, r);
    DeliveredReduce(nodes[..kept], n, r, m, m', Dollar(m, k));
    hide Valid, NextAction, Top, Delivered, Tokens, Left;
    nodes' := nodes[..kept] + [n];
    SpellsSnoc(nodes, Stack(m), kept, n, Semantics(r, Dollar(m, k), FirstSlot(m, k)).(yys := Top(m')));
    if r == 6 {
      OrNeedsNoAnd(Top(m), Next(Pending(m)));
    }
    GroupedReduce(nodes, kept, n, Pending(m));
    FlattenReplace(nodes, kept, n);
  }

  // ----- The language -----

  /** `tokens` is a filter that the grammar derives, and `r` is what it stands for. */
  ghost predicate IsFilter(tokens: seq<Token>, r: Result) {
    exists t: Tree :: WellFormed(t) && tokens == [START_EXPRESSION] + Yield(t) && r == Result(0, Meaning(t), [], false)
  }

  /** `tokens` is an order-by list that the grammar derives, and `r` is what it stands for. */
  ghost predicate IsOrderBy(tokens: seq<Token>, r: Result) {
    exists l: OrderTree :: tokens == [START_ORDER_LIST] + OrderYield(l) && r == Result(0, Absent, OrderMeaning(l), false)
  }

  lemma TopEdge(m: Machine, nodes: seq<Node>, tokens: seq<Token>)
    requires Sound(m, nodes, tokens) && m.p > 1
    ensures Edge(m.slots[m.p - 2].yys, m.slots[m.p - 1].yys)
  {
  }

  lemma SoundAccept(m: Machine, nodes: seq<Node>, tokens: seq<Token>)
    requires Sound(m, nodes, tokens) && Decide(Top(m), Next(Pending(m))).Accept?
    ensures IsFilter(tokens, Result(0, m.expr, m.orderBy, false)) || IsOrderBy(tokens, Result(0, m.expr, m.orderBy, false))
  {
    hide Decide;
    FinalState(Top(m), Next(Pending(m)));
    assert Edge(m.slots[m.p - 1].yys, 1);
    assert m.p == 1 by {
      if m.p > 1 {
        TopEdge(m, nodes, tokens);
      }
    }
    var n := nodes[0];
    assert StandsFor(n, Stack(m)[1]);
    FlattenFew(nodes);
    assert Pending(m) == [];
    assert tokens == Tokens(n);
    if n.FilterNode? {
      assert IsFilter(tokens, Result(0, m.expr, m.orderBy, false));
    } else {
      assert IsOrderBy(tokens, Result(0, m.expr, m.orderBy, false));
    }
  }

  lemma {:induction false} SoundRun(m: Machine, nodes: seq<Node>, tokens: seq<Token>)
    requires Sound(m, nodes, tokens) && Run(m).code == 0
    ensures IsFilter(tokens, Run(m)) || IsOrderBy(tokens, Run(m))
    decreases |Pending(m)|, 4 * m.p + Rank(Top(m))
  {
    hide Decide, Flatten, Spells, Grouped, Edge, Rank, Push, ReduceBy, IsFilter, IsOrderBy;
    PrepareFacts(m);
    ActionOfPending(m);
    var m1 := Prepare(m);
    assert Sound(m1, nodes, tokens);
    match NextAction(m1) {
      case Shift(n) =>
        SoundShift(m1, nodes, tokens);
        SoundRun(Step(m).m, nodes + [TokenNode(m1.look.t)], tokens);
      case Reduce(r) =>
        var nodes' := SoundReduce(m1, nodes, tokens, r);
        SoundRun(Step(m).m, nodes', tokens);
      case Accept => SoundAccept(m1, nodes, tokens);
      case SyntaxError =>
    }
  }

  /** The parser accepts exactly the sentences of the grammar: a return of 0 comes with a derivation
      of the whole input, and the trees left behind are what that derivation stands for. */
  lemma AcceptsExactly(tokens: seq<Token>)
    ensures Parsed(tokens).code == 0 <==> exists r :: IsFilter(tokens, r) || IsOrderBy(tokens, r)
    ensures forall r :: IsFilter(tokens, r) || IsOrderBy(tokens, r) ==> Parsed(tokens) == r
  {
    hide Run, Yield, Meaning, OrderYield, OrderMeaning, WellFormed;
    if Parsed(tokens).code == 0 {
      SoundRun(Initial(tokens), [], tokens);
      assert IsFilter(tokens, Parsed(tokens)) || IsOrderBy(tokens, Parsed(tokens));
    }
    forall r | IsFilter(tokens, r) || IsOrderBy(tokens, r)
      ensures Parsed(tokens) == r
    {
      if IsFilter(tokens, r) {
        var t: Tree :| WellFormed(t) && tokens == [START_EXPRESSION] + Yield(t) && r == Result(0, Meaning(t), [], false);
        AcceptsExpression(t);
      } else {
        var l: OrderTree :| tokens == [START_ORDER_LIST] + OrderYield(l) && r == Result(0, Absent, OrderMeaning(l), false);
        AcceptsOrderBy(l);
      }
    }
  }

  /** Precedence and grouping leave no ambiguity: two derivations of the same tokens stand for the same expression. */
  lemma Unambiguous(t: Tree, u: Tree)
    requires WellFormed(t) && WellFormed(u) && Yield(t) == Yield(u)
    ensures Meaning(t) == Meaning(u)
  {
    hide Parsed;
    AcceptsExpression(t);
    AcceptsExpression(u);
  }
}

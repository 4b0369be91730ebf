/** The grammar of parser.y as derivation trees: what a filter or an order-by list may look like as a
    sequence of tokens, and which expression it stands for. Nothing here mentions the parser. */
module FilterGrammar {
  import opened FilterSyntax

  /** A derivation. Parentheses are nodes of their own; an atom is a condition or a boolean literal. */
  datatype Tree =
    | Or(left: Tree, right: Tree)
    | And(left: Tree, right: Tree)
    | Not(inner: Tree)
    | Paren(inner: Tree)
    | Atom(e: Expr)

  predicate IsAtom(e: Expr) {
    match e
    case BoolVal(_) => true
    case IsNullExpr(_, x) => IsValue(x)
    case ComparisonExpr(_, l, r) => IsValue(l) && IsValue(r)
    case _ => false
  }

  /** NOT binds tighter than AND, AND tighter than OR, and both group to the left. */
  predicate WellFormed(t: Tree) {
    match t
    case Or(l, r) => WellFormed(l) && WellFormed(r) && !r.Or?
    case And(l, r) => WellFormed(l) && WellFormed(r) && !l.Or? && !r.Or? && !r.And?
    case Not(x) => WellFormed(x) && !x.Or? && !x.And?
    case Paren(x) => WellFormed(x)
    case Atom(e) => IsAtom(e)
  }

  /** The expression a derivation stands for. */
  function Meaning(t: Tree): (e: Expr)
    ensures WellFormed(t) ==> IsExpression(e)
  {
    match t
    case Or(l, r) => OrExpr(Meaning(l), Meaning(r))
    case And(l, r) => AndExpr(Meaning(l), Meaning(r))
    case Not(x) => NotExpr(Meaning(x))
    case Paren(x) => Meaning(x)
    case Atom(e) => e
  }

  function ValueToken(v: Expr): Token
    requires IsValue(v)
  {
    match v
    case BoolVal(b) => if b then TRUE else FALSE
    case StringVal(s) => STRING(s)
    case IntVal(i) => INTEGRAL(i)
    case FloatVal(r) => FLOAT(r)
    case JSONPathVal(p) => JSON_PATH(p)
    case NullVal => NULL
  }

  function OpTokens(op: Op): seq<Token> {
    match op
    case EqualOp => [EQ]
    case LessThanOp => [LT]
    case GreaterThanOp => [GT]
    case LessEqualOp => [LE]
    case GreaterEqualOp => [GE]
    case NotEqualOp => [NE]
    case LikeOp => [LIKE]
    case NotLikeOp => [NOT, LIKE]
  }

  function AtomTokens(e: Expr): seq<Token>
    requires IsAtom(e)
  {
    match e
    case BoolVal(b) => [ValueToken(e)]
    case IsNullExpr(isNull, x) => [ValueToken(x)] + (if isNull then [IS, NULL] else [IS, NOT, NULL])
    case ComparisonExpr(op, l, r) => [ValueToken(l)] + OpTokens(op) + [ValueToken(r)]
  }

  /** The tokens a derivation spells. */
  function Yield(t: Tree): seq<Token>
    requires WellFormed(t)
  {
    match t
    case Or(l, r) => Yield(l) + [OR] + Yield(r)
    case And(l, r) => Yield(l) + [AND] + Yield(r)
    case Not(x) => [NOT] + Yield(x)
    case Paren(x) => [LPAREN] + Yield(x) + [RPAREN]
    case Atom(e) => AtomTokens(e)
  }

  /** The tokens of a compound derivation, first part first. */
  lemma {:induction false} YieldParts(t: Tree, rest: seq<Token>)
    requires WellFormed(t)
    ensures t.And? ==> Yield(t) + rest == Yield(t.left) + ([AND] + (Yield(t.right) + rest))
    ensures t.Or? ==> Yield(t) + rest == Yield(t.left) + ([OR] + (Yield(t.right) + rest))
    ensures t.Not? ==> Yield(t) + rest == [NOT] + (Yield(t.inner) + rest)
    ensures t.Paren? ==> Yield(t) + rest == [LPAREN] + (Yield(t.inner) + ([RPAREN] + rest))
  {
    match t
    case Or(_, _) =>
    case And(_, _) =>
    case Not(_) =>
    case Paren(_) =>
    case Atom(_) =>
  }

  // ----- Order-by lists -----

  /** The direction may be left out and then means ascending. */
  datatype OrderItem = OrderItem(path: string, direction: OptDirection)
  datatype OptDirection = Default | Given(d: Direction)

  /** `EmptyList` may be followed by further items, so a leading comma is grammatical. */
  datatype OrderTree = EmptyList | Single(item: OrderItem) | Append(list: OrderTree, item: OrderItem)

  function ItemTokens(o: OrderItem): seq<Token> {
    [JSON_PATH(o.path)] +
    match o.direction
    case Default => []
    case Given(Asc) => [ASC]
    case Given(Desc) => [DESC]
  }

  function OrderYield(t: OrderTree): seq<Token> {
    match t
    case EmptyList => []
    case Single(o) => ItemTokens(o)
    case Append(l, o) => OrderYield(l) + [COMMA] + ItemTokens(o)
  }

  function ItemMeaning(o: OrderItem): Order {
    Order(JSONPathVal(o.path), if o.direction.Default? then Asc else o.direction.d)
  }

  function OrderMeaning(t: OrderTree): seq<Order> {
    match t
    case EmptyList => []
    case Single(o) => [ItemMeaning(o)]
    case Append(l, o) => OrderMeaning(l) + [ItemMeaning(o)]
  }

  // ----- Printing -----

  /** Every pair of parentheses is needed: without it the derivation would not be well formed. */
  predicate Minimal(t: Tree) {
    match t
    case Or(l, r) => !l.Paren? && (r.Paren? ==> r.inner.Or?) && Minimal(l) && Minimal(Inside(r))
    case And(l, r) =>
      && (l.Paren? ==> l.inner.Or?) && (r.Paren? ==> r.inner.Or? || r.inner.And?)
      && Minimal(Inside(l)) && Minimal(Inside(r))
    case Not(x) => (x.Paren? ==> x.inner.Or? || x.inner.And?) && Minimal(Inside(x))
    case Paren(_) => false
    case Atom(_) => true
  }

  function Inside(t: Tree): (r: Tree)
    ensures r == t || r < t
  {
    if t.Paren? then t.inner else t
  }

  function Enclose(t: Tree, needed: bool): Tree { if needed then Paren(t) else t }

  /** The derivation of an expression with parentheses only where precedence or left grouping needs them. */
  function Print(e: Expr): (t: Tree)
    requires IsExpression(e)
    ensures WellFormed(t) && Meaning(t) == e
    ensures Minimal(t) && (t.Or? <==> e.OrExpr?) && (t.And? <==> e.AndExpr?)
  {
    match e
    case OrExpr(l, r) => Or(Print(l), Enclose(Print(r), r.OrExpr?))
    case AndExpr(l, r) => And(Enclose(Print(l), l.OrExpr?), Enclose(Print(r), r.OrExpr? || r.AndExpr?))
    case NotExpr(x) => Not(Enclose(Print(x), x.OrExpr? || x.AndExpr?))
    case _ => Atom(e)
  }
}

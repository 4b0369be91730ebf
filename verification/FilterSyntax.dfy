/** The syntax shared by the lexer, the parser and the evaluator of the console's filter language:
    expression trees, order-by lists and tokens (pkg/consolegraphql/filter/support.go, parser.go). */
module FilterSyntax {

  /** The operator strings that a ComparisonExpr or an IsNullExpr holds. */
  datatype Op = EqualOp | LessThanOp | GreaterThanOp | LessEqualOp | GreaterEqualOp | NotEqualOp | LikeOp | NotLikeOp

  /** An expression tree. The source types every node as the interface Expr, so nothing but the
      grammar keeps, say, a string out of an operand of AND; `Absent` is the nil interface value. */
  datatype Expr =
    | AndExpr(left: Expr, right: Expr)
    | OrExpr(left: Expr, right: Expr)
    | NotExpr(inner: Expr)
    | IsNullExpr(isNull: bool, operand: Expr)
    | ComparisonExpr(op: Op, left: Expr, right: Expr)
    | BoolVal(b: bool)
    | StringVal(s: string)
    | IntVal(i: int)
    | FloatVal(r: real)
    | NullVal
    | JSONPathVal(path: string)
    | Absent

  datatype Direction = Asc | Desc

  datatype Order = Order(expr: Expr, direction: Direction)

  /** The leaves the grammar calls value_expression. */
  predicate IsValue(e: Expr) {
    e.BoolVal? || e.StringVal? || e.IntVal? || e.FloatVal? || e.NullVal? || e.JSONPathVal?
  }

  /** The trees the grammar calls expression. */
  predicate IsExpression(e: Expr) {
    match e
    case AndExpr(l, r) => IsExpression(l) && IsExpression(r)
    case OrExpr(l, r) => IsExpression(l) && IsExpression(r)
    case NotExpr(x) => IsExpression(x)
    case IsNullExpr(_, x) => IsValue(x)
    case ComparisonExpr(_, l, r) => IsValue(l) && IsValue(r)
    case BoolVal(_) => true
    case _ => false
  }

  /** What one call of the lexer delivers: the token kind with the value it writes into lval. */
  datatype Token =
    | OR | AND | NOT
    | EQ | LT | GT | LE | GE | NE | LIKE | IS
    | LPAREN | RPAREN
    | STRING(s: string) | INTEGRAL(i: int) | FLOAT(r: real) | JSON_PATH(path: string)
    | NULL | TRUE | FALSE
    | START_EXPRESSION | ASC | DESC | COMMA | START_ORDER_LIST

  /** The integer that Lex returns for a token: a character code or a generated constant. */
  function Code(t: Token): (c: int)
    ensures c > 0
  {
    match t
    case OR => 57346 case AND => 57347 case NOT => 57348
    case EQ => 61 case LT => 60 case GT => 62
    case LE => 57349 case GE => 57350 case NE => 57351 case LIKE => 57352 case IS => 57353
    case LPAREN => 40 case RPAREN => 41
    case STRING(_) => 57354 case INTEGRAL(_) => 57355 case FLOAT(_) => 57356 case JSON_PATH(_) => 57357
    case NULL => 57358 case TRUE => 57359 case FALSE => 57360
    case START_EXPRESSION => 57361 case ASC => 57362 case DESC => 57363
    case COMMA => 44 case START_ORDER_LIST => 57364
  }
}

/** ParseFilterExpression and ParseOrderByExpression: from a text to its expression or columns, or to an error
    (pkg/consolegraphql/filter/support.go:37-49). */
module FilterFrontEnd {
  import opened FilterSyntax
  import opened FilterGrammar
  import opened FilterTables
  import opened FilterMachine
  import opened FilterLexer
  import opened FilterParser
  import opened FilterSoundness
  import opened FilterText
  import opened FilterTokens

  // ----- What a text stands for -----

  /** Lexing gets through the text, every path in it parses, and its tokens are `ts`. */
  ghost predicate LexesCleanly(text: string, parses: string -> bool, ts: seq<Token>) {
    TokensFrom(text, FRESH) == ts && !Breaks(text, FRESH) && !AnyBad(ts, parses)
  }

  ghost predicate DenotesFilter(text: string, parses: string -> bool, e: Expr) {
    exists t: Tree :: WellFormed(t) && e == Meaning(t) && LexesCleanly(text, parses, Yield(t))
  }

  ghost predicate DenotesOrders(text: string, parses: string -> bool, os: seq<Order>) {
    exists l: OrderTree :: os == OrderMeaning(l) && LexesCleanly(text, parses, OrderYield(l))
  }

  /** Lexing the text panics on a token that the parser asks for. */
  predicate Panics(text: string, start: Token) { Breaks(text, FRESH) && Starves(Initial([start] + TokensFrom(text, FRESH))) }

  // ----- What is accepted -----

  /** A run that is accepted has come to the end of its input. */
  lemma {:induction false} AcceptedStarves(m: Machine)
    requires Valid(m) && Run(m).code == 0
    ensures m.look.End? || Starves(m)
    decreases |Pending(m)|, 4 * m.p + Rank(Top(m))
  {
    hide Decide, Semantics, Goto, R1, R2, Rank, Edge, Def, Push, ReduceBy, WriteValue, CallsFor, Pending, NextAction, Valid, Run, Step, Starves;
    StackStates(m);
    StepFacts(m);
    StarvesStep(m);
    if NextAction(Prepare(m)).Accept? {
      AcceptsAtEnd(m);
    } else {
      StepLook(m);
      AcceptedStarves(Step(m).m);
    }
  }

  lemma StepLook(m: Machine)
    requires Valid(m) && 0 <= m.p < |m.slots| && IsState(Top(m))
    ensures Step(m).Continue? && Step(m).m.look.End? ==> Prepare(m).look.End?
  {
    hide Decide, Semantics, Goto, R1, R2, Rank, Edge, Def, WriteValue, CallsFor, Pending;
    PrepareFacts(m);
  }

  /** The two entry points: nothing is accepted whose lexing panics, and what is accepted is what the grammar derives. */
  method ParseText(text: string, parses: string -> bool, start: Token)
    returns (panicked: bool, failed: bool, expr: Expr, orderBy: seq<Order>)
    requires IsStart(start)
    ensures panicked <==> Panics(text, start)
    ensures !panicked ==>
              (!failed <==> Parsed([start] + TokensFrom(text, FRESH)).code == 0 && LexesCleanly(text, parses, TokensFrom(text, FRESH)))
    ensures !panicked ==> var r := Parsed([start] + TokensFrom(text, FRESH)); expr == r.expr && orderBy == r.orderBy
  {
    hide Run, Starves, TokensFrom, Breaks;
    var lex := new Lexer(text, parses, start);
    var parser := new Parser();
    ghost var ts := [start] + TokensFrom(text, FRESH);
    StartIsGood(start, TokensFrom(text, FRESH), parses);
    var code;
    panicked, code := parser.Parse(lex);
    failed, expr, orderBy := lex.failed, lex.expr, lex.orderBy;
    if Parsed(ts).code == 0 {
      AcceptedStarves(Initial(ts));
    }
  }

  lemma StartIsGood(start: Token, ts: seq<Token>, parses: string -> bool)
    requires IsStart(start)
    ensures AnyBad([start] + ts, parses) <==> AnyBad(ts, parses)
  {
  }

  /** A filter is parsed without an error exactly when it stands for an expression, and then into that one. */
  method ParseFilterExpression(text: string, parses: string -> bool) returns (panicked: bool, failed: bool, expr: Expr)
    ensures panicked <==> Panics(text, START_EXPRESSION)
    ensures !panicked ==> (!failed <==> exists e :: DenotesFilter(text, parses, e))
    ensures !panicked && !failed ==> DenotesFilter(text, parses, expr) && IsExpression(expr)
  {
    hide Run, Starves, TokensFrom, Breaks;
    var orderBy;
    panicked, failed, expr, orderBy := ParseText(text, parses, START_EXPRESSION);
    FilterIsAccepted(text, parses);
  }

  lemma StartTells(ts: seq<Token>, r: Result)
    ensures !IsOrderBy([START_EXPRESSION] + ts, r) && !IsFilter([START_ORDER_LIST] + ts, r)
  {
    hide Yield, OrderYield;
    assert ([START_EXPRESSION] + ts)[0] == START_EXPRESSION && ([START_ORDER_LIST] + ts)[0] == START_ORDER_LIST;
    assert forall t: Tree :: WellFormed(t) ==> ([START_EXPRESSION] + Yield(t))[0] == START_EXPRESSION;
    assert forall l: OrderTree :: ([START_ORDER_LIST] + OrderYield(l))[0] == START_ORDER_LIST;
  }

  lemma FilterIsAccepted(text: string, parses: string -> bool)
    ensures var ts := TokensFrom(text, FRESH);
            var r := Parsed([START_EXPRESSION] + ts);
            && (r.code == 0 && LexesCleanly(text, parses, ts) <==> exists e :: DenotesFilter(text, parses, e))
            && (r.code == 0 && LexesCleanly(text, parses, ts) ==> DenotesFilter(text, parses, r.expr) && IsExpression(r.expr))
            && (forall e :: DenotesFilter(text, parses, e) ==> e == r.expr)
  {
    hide Run, Starves, TokensFrom, Breaks, Yield, OrderYield, AnyBad;
    var ts := TokensFrom(text, FRESH);
    AcceptsExactly([START_EXPRESSION] + ts);
    forall t: Tree | WellFormed(t) && Yield(t) == ts
      ensures Parsed([START_EXPRESSION] + ts) == Result(0, Meaning(t), [], false)
    {
      assert IsFilter([START_EXPRESSION] + ts, Result(0, Meaning(t), [], false));
    }
    if Parsed([START_EXPRESSION] + ts).code == 0 {
      var r :| IsFilter([START_EXPRESSION] + ts, r) || IsOrderBy([START_EXPRESSION] + ts, r);
      StartTells(ts, r);
      var t: Tree :| WellFormed(t) && [START_EXPRESSION] + ts == [START_EXPRESSION] + Yield(t) && r == Result(0, Meaning(t), [], false);
      assert ts == ([START_EXPRESSION] + ts)[1..] == ([START_EXPRESSION] + Yield(t))[1..] == Yield(t);
      assert LexesCleanly(text, parses, ts) ==> DenotesFilter(text, parses, Meaning(t));
    }
  }

  /** The same for order-by lists. */
  method ParseOrderByExpression(text: string, parses: string -> bool) returns (panicked: bool, failed: bool, orders: seq<Order>)
    ensures panicked <==> Panics(text, START_ORDER_LIST)
    ensures !panicked ==> (!failed <==> exists os :: DenotesOrders(text, parses, os))
    ensures !panicked && !failed ==> DenotesOrders(text, parses, orders)
  {
    hide Run, Starves, TokensFrom, Breaks;
    var expr;
    panicked, failed, expr, orders := ParseText(text, parses, START_ORDER_LIST);
    OrdersAreAccepted(text, parses);
  }

  lemma OrdersAreAccepted(text: string, parses: string -> bool)
    ensures var ts := TokensFrom(text, FRESH);
            var r := Parsed([START_ORDER_LIST] + ts);
            && (r.code == 0 && LexesCleanly(text, parses, ts) <==> exists os :: DenotesOrders(text, parses, os))
            && (r.code == 0 && LexesCleanly(text, parses, ts) ==> DenotesOrders(text, parses, r.orderBy))
            && (forall os :: DenotesOrders(text, parses, os) ==> os == r.orderBy)
  {
    hide Run, Starves, TokensFrom, Breaks, Yield, OrderYield, AnyBad;
    var ts := TokensFrom(text, FRESH);
    AcceptsExactly([START_ORDER_LIST] + ts);
    forall l: OrderTree | OrderYield(l) == ts
      ensures Parsed([START_ORDER_LIST] + ts) == Result(0, Absent, OrderMeaning(l), false)
    {
      assert IsOrderBy([START_ORDER_LIST] + ts, Result(0, Absent, OrderMeaning(l), false));
    }
    if Parsed([START_ORDER_LIST] + ts).code == 0 {
      var r :| IsFilter([START_ORDER_LIST] + ts, r) || IsOrderBy([START_ORDER_LIST] + ts, r);
      StartTells(ts, r);
      var l: OrderTree :| [START_ORDER_LIST] + ts == [START_ORDER_LIST] + OrderYield(l) && r == Result(0, Absent, OrderMeaning(l), false);
      assert ts == ([START_ORDER_LIST] + ts)[1..] == ([START_ORDER_LIST] + OrderYield(l))[1..] == OrderYield(l);
      assert LexesCleanly(text, parses, ts) ==> DenotesOrders(text, parses, OrderMeaning(l));
    }
  }

  // ----- Round trips -----

  /** However a derivation is written down, the text stands for its expression and nothing else, if its paths parse. */
  lemma FilterRoundTrip(t: Tree, ws: seq<Written>, tail: string, parses: string -> bool)
    requires WellFormed(t) && WellWritten(ws, tail) && TokensOf(ws) == Yield(t)
    ensures forall e :: DenotesFilter(Text(ws, tail), parses, e) <==> e == Meaning(t) && !AnyBad(Yield(t), parses)
    ensures !Breaks(Text(ws, tail), FRESH)
  {
    hide TokensFrom, Breaks, Yield, AnyBad;
    var text := Text(ws, tail);
    LexesWritten(text, FRESH, ws, tail);
    LexesToTokens(text, FRESH, TokensOf(ws));
    forall u: Tree | WellFormed(u) && Yield(u) == Yield(t)
      ensures Meaning(u) == Meaning(t)
    {
      Unambiguous(t, u);
    }
  }

  /** The same for order-by lists. */
  lemma OrderByRoundTrip(l: OrderTree, ws: seq<Written>, tail: string, parses: string -> bool)
    requires WellWritten(ws, tail) && TokensOf(ws) == OrderYield(l)
    ensures forall os :: DenotesOrders(Text(ws, tail), parses, os) <==> os == OrderMeaning(l) && !AnyBad(OrderYield(l), parses)
    ensures !Breaks(Text(ws, tail), FRESH)
  {
    hide TokensFrom, Breaks, OrderYield, AnyBad, Run;
    var text := Text(ws, tail);
    LexesWritten(text, FRESH, ws, tail);
    LexesToTokens(text, FRESH, TokensOf(ws));
    forall k: OrderTree | OrderYield(k) == OrderYield(l)
      ensures OrderMeaning(k) == OrderMeaning(l)
    {
      AcceptsExactly([START_ORDER_LIST] + OrderYield(l));
      assert IsOrderBy([START_ORDER_LIST] + OrderYield(l), Result(0, Absent, OrderMeaning(k), false));
      assert IsOrderBy([START_ORDER_LIST] + OrderYield(l), Result(0, Absent, OrderMeaning(l), false));
    }
  }

  /** The text begins with the tokens, each written in some way after white space. */
  ghost predicate BeginsWith(text: string, ts: seq<Token>) {
    exists ws, rest :: text == Text(ws, rest) && TokensOf(ws) == ts && AllWritten(ws)
  }

  lemma LexedIsWritten(text: string)
    ensures BeginsWith(text, TokensFrom(text, FRESH))
  {
    hide Writes, TokensFrom;
    var ws, rest := TokensAreWritten(text, FRESH);
    assert text[0..] == text;
  }

  /** A text that stands for an expression has a derivation of it written down in it. */
  lemma DenotedIsWritten(text: string, parses: string -> bool, e: Expr)
    requires DenotesFilter(text, parses, e)
    ensures exists t: Tree :: WellFormed(t) && e == Meaning(t) && BeginsWith(text, Yield(t))
  {
    hide TokensFrom, Breaks, Yield, BeginsWith;
    LexedIsWritten(text);
  }
}

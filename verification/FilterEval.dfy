/** Evaluation of filter expressions (pkg/consolegraphql/filter/support.go:56-744). */
module FilterEval {
  import opened FilterSyntax

  // ----- Values -----

  /** The ten integer types of Go; int and uint have 64 bits. */
  datatype IntType = Int | Int8 | Int16 | Int32 | Int64 | Uint | Uint8 | Uint16 | Uint32 | Uint64

  predicate IsSigned(t: IntType) { t.Int? || t.Int8? || t.Int16? || t.Int32? || t.Int64? }

  function Bits(t: IntType): int {
    match t
    case Int8 => 8 case Uint8 => 8
    case Int16 => 16 case Uint16 => 16
    case Int32 => 32 case Uint32 => 32
    case _ => 64
  }

  function TwoTo(bits: int): int {
    match bits
    case 7 => 0x80 case 8 => 0x100
    case 15 => 0x8000 case 16 => 0x1_0000
    case 31 => 0x8000_0000 case 32 => 0x1_0000_0000
    case 63 => 0x8000_0000_0000_0000
    case _ => 0x1_0000_0000_0000_0000
  }

  function MaxOf(t: IntType): int { if IsSigned(t) then TwoTo(Bits(t) - 1) - 1 else TwoTo(Bits(t)) - 1 }

  function MinOf(t: IntType): int { if IsSigned(t) then -TwoTo(Bits(t) - 1) else 0 }

  predicate InRange(t: IntType, v: int) { MinOf(t) <= v <= MaxOf(t) }

  /** A value as the evaluator sees it; `Other` is any value of a type it does not compare. */
  datatype Value =
    | BoolV(b: bool)
    | StringV(s: string)
    | IntV(t: IntType, v: int)
    | FloatV(bits: int, r: real)
    | NullV
    | Other(tag: int)

  predicate Proper(v: Value) {
    match v
    case IntV(t, n) => InRange(t, n)
    case FloatV(b, _) => b == 32 || b == 64
    case _ => true
  }

  datatype Type = BoolT | StringT | IntT(t: IntType) | FloatT(bits: int) | NullT | OtherT(tag: int)

  function TypeOf(v: Value): Type {
    match v
    case BoolV(_) => BoolT
    case StringV(_) => StringT
    case IntV(t, _) => IntT(t)
    case FloatV(b, _) => FloatT(b)
    case NullV => NullT
    case Other(tag) => OtherT(tag)
  }

  // ----- Numeric widening -----

  /** Conversion between integer types keeps the low bits. */
  function ConvertInt(v: int, t: IntType): int {
    var m := TwoTo(Bits(t));
    var u := v % m;
    if IsSigned(t) && u > MaxOf(t) then u - m else u
  }

  /** widenNumeric: `s` in type `dst` when the signs allow it and `dst` is at least as wide. */
  function Widen(s: Value, dst: Type): Value {
    if TypeOf(s) == dst then s
    else
      match s
      case IntV(t, v) =>
        if dst.IntT?
           && (if IsSigned(t) then IsSigned(dst.t) || v >= 0 else !IsSigned(dst.t) || v <= MaxOf(dst.t))
           && Bits(dst.t) >= Bits(t)
        then IntV(dst.t, ConvertInt(v, dst.t)) else s
      case FloatV(b, r) => if dst.FloatT? && dst.bits >= b then FloatV(dst.bits, r) else s
      case _ => s
  }

  /** intFloatPromotion: an integer next to a float becomes a float of that width. */
  function Promote(l: Value, r: Value): Value {
    if l.FloatV? && r.IntV? then FloatV(l.bits, r.v as real) else r
  }

  /** The two operands as they are compared. */
  function Aligned(l: Value, r: Value): (Value, Value) {
    var l1 := Widen(l, TypeOf(r));
    var r1 := Widen(r, TypeOf(l1));
    var r2 := Promote(l1, r1);
    (Promote(r2, l1), r2)
  }

  // ----- LIKE -----

  /** A LIKE pattern as the anchored regular expression it is rewritten to: `%` is `.*`, `_` is `.`, and `.` stops at a newline. */
  datatype Item = Exactly(c: char) | AnyOne | AnyRun

  function ItemOf(c: char): Item {
    if c == '%' then AnyRun else if c == '_' then AnyOne else Exactly(c)
  }

  function Pattern(p: string): (items: seq<Item>)
    ensures |items| == |p|
  {
    if p == [] then [] else [ItemOf(p[0])] + Pattern(p[1..])
  }

  predicate Matches(items: seq<Item>, s: string)
    decreases |items| + |s|
  {
    if items == [] then s == []
    else
      match items[0]
      case Exactly(c) => s != [] && s[0] == c && Matches(items[1..], s[1..])
      case AnyOne => s != [] && s[0] != '\n' && Matches(items[1..], s[1..])
      case AnyRun => Matches(items[1..], s) || (s != [] && s[0] != '\n' && Matches(items, s[1..]))
  }

  predicate Like(s: string, pattern: string) { Matches(Pattern(pattern), s) }

  // ----- Comparison -----

  /** The relation an operator stands for on numbers, given how the left one lies to the right one. */
  predicate Relates(op: Op, less: bool, equal: bool) {
    match op
    case EqualOp => equal
    case NotEqualOp => !equal
    case LessThanOp => less
    case LessEqualOp => less || equal
    case GreaterThanOp => !less && !equal
    case GreaterEqualOp => !less
    case _ => false
  }

  /** ComparisonExpr.Eval on operand values. Operands whose types differ after alignment satisfy no operator. */
  predicate Compare(op: Op, l: Value, r: Value) {
    match Aligned(l, r)
    case (IntV(t, x), IntV(u, y)) => t == u && Relates(op, x < y, x == y)
    case (FloatV(b, x), FloatV(c, y)) => b == c && Relates(op, x < y, x == y)
    case (BoolV(x), BoolV(y)) => (op.EqualOp? && x == y) || (op.NotEqualOp? && x != y)
    case (StringV(x), StringV(y)) =>
      (match op
       case EqualOp => x == y
       case NotEqualOp => x != y
       case LikeOp => Like(x, y)
       case NotLikeOp => !Like(x, y)
       case _ => false)
    case _ => false
  }

  // ----- Evaluation -----

  datatype Evaluated = Ok(v: Value) | Err

  /** What a JSON path yields on the object at hand; a path without a result is null. */
  type Env = map<string, Evaluated>

  function Eval(e: Expr, env: Env): Evaluated {
    match e
    case AndExpr(l, r) =>
      (match Eval(l, env)
       case Err => Err
       case Ok(BoolV(true)) =>
         (match Eval(r, env)
          case Err => Err
          case Ok(BoolV(b)) => Ok(BoolV(b))
          case Ok(_) => Ok(BoolV(false)))
       case Ok(_) => Ok(BoolV(false)))
    case OrExpr(l, r) =>
      (match Eval(l, env)
       case Err => Err
       case Ok(BoolV(true)) => Ok(BoolV(true))
       case Ok(_) =>
         (match Eval(r, env)
          case Err => Err
          case Ok(BoolV(b)) => Ok(BoolV(b))
          case Ok(_) => Ok(BoolV(false))))
    case NotExpr(x) =>
      (match Eval(x, env)
       case Err => Err
       case Ok(BoolV(b)) => Ok(BoolV(!b))
       case Ok(_) => Ok(BoolV(false)))
    case IsNullExpr(isNull, x) =>
      (match Eval(x, env)
       case Err => Err
       case Ok(v) => Ok(BoolV(v.NullV? == isNull)))
    case ComparisonExpr(op, l, r) =>
      (match Eval(l, env)
       case Err => Err
       case Ok(lv) =>
         (match Eval(r, env)
          case Err => Err
          case Ok(rv) => Ok(BoolV(Compare(op, lv, rv)))))
    case BoolVal(b) => Ok(BoolV(b))
    case StringVal(s) => Ok(StringV(s))
    case IntVal(i) => Ok(IntV(Int, i))
    case FloatVal(r) => Ok(FloatV(64, r))
    case NullVal => Ok(NullV)
    case JSONPathVal(p) => if p in env then env[p] else Ok(NullV)
    case Absent => Err
  }

  // ----- Integer comparison -----

  /** The ranges of Go's integer types. */
  lemma Ranges(v: int)
    ensures InRange(Int8, v) <==> -128 <= v <= 127
    ensures InRange(Int16, v) <==> -32768 <= v <= 32767
    ensures InRange(Int32, v) <==> -2147483648 <= v <= 2147483647
    ensures (InRange(Int64, v) <==> -9223372036854775808 <= v <= 9223372036854775807) && InRange(Int, v) == InRange(Int64, v)
    ensures InRange(Uint8, v) <==> 0 <= v <= 255
    ensures InRange(Uint16, v) <==> 0 <= v <= 65535
    ensures InRange(Uint32, v) <==> 0 <= v <= 4294967295
    ensures (InRange(Uint64, v) <==> 0 <= v <= 18446744073709551615) && InRange(Uint, v) == InRange(Uint64, v)
  {
  }

  /** A number that fits the type is not changed by the conversion. */
  lemma ConvertKeeps(v: int, t: IntType)
    requires InRange(t, v)
    ensures ConvertInt(v, t) == v
  {
  }

  /** A type at least as wide, if the signs allow it, has room for the number. */
  lemma WiderFits(t: IntType, u: IntType, v: int)
    requires InRange(t, v) && Bits(u) >= Bits(t)
    requires if IsSigned(t) then IsSigned(u) || v >= 0 else !IsSigned(u) || v <= MaxOf(u)
    ensures InRange(u, v)
  {
  }

  /** Widening never changes an integer. */
  lemma WidenKeepsInt(s: Value, dst: Type)
    requires s.IntV? && Proper(s)
    ensures Widen(s, dst).IntV? && Widen(s, dst).v == s.v && Proper(Widen(s, dst))
  {
    hide ConvertInt, InRange, MaxOf, Bits, IsSigned;
    if Widen(s, dst) != s {
      WiderFits(s.t, dst.t, s.v);
      ConvertKeeps(s.v, dst.t);
    }
  }

  /** `x` is negative and `y` unsigned, and neither can take the other's type. */
  predicate Incomparable(x: Value, y: Value)
    requires x.IntV? && y.IntV?
  {
    IsSigned(x.t) && !IsSigned(y.t) && x.v < 0 && (Bits(y.t) > Bits(x.t) || y.v > MaxOf(x.t))
  }

  lemma AlignedInts(x: Value, y: Value)
    requires x.IntV? && y.IntV? && Proper(x) && Proper(y)
    ensures var (l, r) := Aligned(x, y);
            l.IntV? && r.IntV? && l.v == x.v && r.v == y.v && (l.t == r.t <==> !Incomparable(x, y) && !Incomparable(y, x))
  {
    WidenKeepsInt(x, TypeOf(y));
    WidenKeepsInt(y, TypeOf(Widen(x, TypeOf(y))));
  }

  /** What an operator says of two numbers. */
  predicate True(op: Op, x: real, y: real) {
    match op
    case EqualOp => x == y
    case NotEqualOp => x != y
    case LessThanOp => x < y
    case LessEqualOp => x <= y
    case GreaterThanOp => x > y
    case GreaterEqualOp => x >= y
    case _ => false
  }

  predicate IsNumber(v: Value) { v.IntV? || v.FloatV? }

  function Number(v: Value): real
    requires IsNumber(v)
  {
    if v.IntV? then v.v as real else v.r
  }

  predicate Misaligned(x: Value, y: Value) { x.IntV? && y.IntV? && (Incomparable(x, y) || Incomparable(y, x)) }

  /** Over all ten integer types, an operator gives the true relation of the two numbers, except that
      a negative number next to an unsigned one it cannot be aligned with satisfies nothing: the
      answer is right exactly when the operands can be aligned or the true answer is false anyway. */
  lemma IntComparison(op: Op, x: Value, y: Value)
    requires x.IntV? && y.IntV? && Proper(x) && Proper(y)
    ensures Compare(op, x, y) <==> True(op, Number(x), Number(y)) && !Misaligned(x, y)
    ensures Compare(op, x, y) == True(op, Number(x), Number(y)) <==> !Misaligned(x, y) || !True(op, Number(x), Number(y))
  {
    hide Widen, Promote;
    AlignedInts(x, y);
  }

  lemma AlignedFloats(x: Value, y: Value)
    requires IsNumber(x) && IsNumber(y) && Proper(x) && Proper(y) && (x.FloatV? || y.FloatV?)
    ensures var (l, r) := Aligned(x, y);
            l.FloatV? && r.FloatV? && l.bits == r.bits && l.r == Number(x) && r.r == Number(y)
  {
  }

  /** The same for all numbers: a float is compared with any number by value. */
  lemma NumberComparison(op: Op, x: Value, y: Value)
    requires IsNumber(x) && IsNumber(y) && Proper(x) && Proper(y)
    ensures Compare(op, x, y) <==> True(op, Number(x), Number(y)) && !Misaligned(x, y)
  {
    hide Widen, Promote;
    if x.IntV? && y.IntV? {
      IntComparison(op, x, y);
    } else {
      AlignedFloats(x, y);
    }
  }

  /** -1 of type int32 against the uint64 0: they differ, yet `!=` is false. */
  lemma IntComparisonFails()
    ensures var x, y := IntV(Int32, -1), IntV(Uint64, 0);
            Proper(x) && Proper(y) && !Compare(NotEqualOp, x, y) && !Compare(LessThanOp, x, y)
  {
  }

  // ----- Strings, booleans and the rest -----

  /** Strings are equal or not, and alike or not; they are in no order. */
  lemma StringComparison(x: string, y: string)
    ensures Compare(EqualOp, StringV(x), StringV(y)) <==> x == y
    ensures Compare(NotEqualOp, StringV(x), StringV(y)) <==> !Compare(EqualOp, StringV(x), StringV(y))
    ensures Compare(LikeOp, StringV(x), StringV(y)) <==> Like(x, y)
    ensures Compare(NotLikeOp, StringV(x), StringV(y)) <==> !Compare(LikeOp, StringV(x), StringV(y))
    ensures forall op :: Compare(op, StringV(x), StringV(y)) ==> op.EqualOp? || op.NotEqualOp? || op.LikeOp? || op.NotLikeOp?
  {
    hide Like;
  }

  /** Booleans are equal or not, and nothing else. */
  lemma BoolComparison(x: bool, y: bool)
    ensures Compare(EqualOp, BoolV(x), BoolV(y)) <==> x == y
    ensures Compare(NotEqualOp, BoolV(x), BoolV(y)) <==> !Compare(EqualOp, BoolV(x), BoolV(y))
    ensures forall op :: Compare(op, BoolV(x), BoolV(y)) ==> op.EqualOp? || op.NotEqualOp?
  {
  }

  /** Both are numbers, both strings or both booleans. */
  predicate SameKind(x: Value, y: Value) { (IsNumber(x) && IsNumber(y)) || (x.StringV? && y.StringV?) || (x.BoolV? && y.BoolV?) }

  /** Operands of different kinds satisfy no operator, and neither does a null or a value of another type, next to whatever. */
  lemma KindsDiffer(op: Op, x: Value, y: Value)
    requires Compare(op, x, y)
    ensures SameKind(x, y)
  {
  }

  function Mirrored(op: Op): Op {
    match op
    case LessThanOp => GreaterThanOp
    case GreaterThanOp => LessThanOp
    case LessEqualOp => GreaterEqualOp
    case GreaterEqualOp => LessEqualOp
    case _ => op
  }

  /** Swapping integer operands and mirroring the operator changes nothing. */
  lemma IntComparisonMirrors(op: Op, x: Value, y: Value)
    requires x.IntV? && y.IntV? && Proper(x) && Proper(y)
    ensures Compare(op, x, y) == Compare(Mirrored(op), y, x)
  {
    hide Compare;
    IntComparison(op, x, y);
    IntComparison(Mirrored(op), y, x);
  }

  // ----- The two-valued meaning -----

  /** The value of an operand, if its path raises no error. */
  function Operand(e: Expr, env: Env): Value
    requires IsValue(e)
  {
    match e
    case BoolVal(b) => BoolV(b)
    case StringVal(s) => StringV(s)
    case IntVal(i) => IntV(Int, i)
    case FloatVal(r) => FloatV(64, r)
    case NullVal => NullV
    case JSONPathVal(p) => if p in env && env[p].Ok? then env[p].v else NullV
  }

  predicate PathFails(e: Expr, env: Env) { e.JSONPathVal? && e.path in env && env[e.path].Err? }

  /** Whether an expression holds, read as two-valued logic over its conditions. */
  predicate Holds(e: Expr, env: Env)
    requires IsExpression(e)
  {
    match e
    case AndExpr(l, r) => Holds(l, env) && Holds(r, env)
    case OrExpr(l, r) => Holds(l, env) || Holds(r, env)
    case NotExpr(x) => !Holds(x, env)
    case IsNullExpr(isNull, x) => Operand(x, env).NullV? == isNull
    case ComparisonExpr(op, l, r) => Compare(op, Operand(l, env), Operand(r, env))
    case BoolVal(b) => b
  }

  /** Whether evaluation reaches a path that raises an error: the right side of AND and OR is reached only when needed. */
  predicate Fails(e: Expr, env: Env)
    requires IsExpression(e)
  {
    match e
    case AndExpr(l, r) => Fails(l, env) || (Holds(l, env) && Fails(r, env))
    case OrExpr(l, r) => Fails(l, env) || (!Holds(l, env) && Fails(r, env))
    case NotExpr(x) => Fails(x, env)
    case IsNullExpr(_, x) => PathFails(x, env)
    case ComparisonExpr(_, l, r) => PathFails(l, env) || PathFails(r, env)
    case BoolVal(_) => false
  }

  lemma EvalOperand(e: Expr, env: Env)
    requires IsValue(e)
    ensures Eval(e, env) == if PathFails(e, env) then Err else Ok(Operand(e, env))
  {
  }

  /** Every tree of the grammar evaluates to its two-valued meaning, or to an error exactly when a
      reached path fails; it never evaluates to anything but a boolean. */
  lemma {:induction false} EvalIsClassical(e: Expr, env: Env)
    requires IsExpression(e)
    ensures Eval(e, env) == if Fails(e, env) then Err else Ok(BoolV(Holds(e, env)))
  {
    hide Compare;
    match e {
      case AndExpr(l, r) => EvalIsClassical(l, env); EvalIsClassical(r, env);
      case OrExpr(l, r) => EvalIsClassical(l, env); EvalIsClassical(r, env);
      case NotExpr(x) => EvalIsClassical(x, env);
      case IsNullExpr(_, x) => EvalOperand(x, env);
      case ComparisonExpr(_, l, r) => EvalOperand(l, env); EvalOperand(r, env);
      case BoolVal(_) =>
    }
  }

  /** De Morgan's laws hold for evaluation as it is carried out, errors and short cuts included. */
  lemma DeMorgan(a: Expr, b: Expr, env: Env)
    requires IsExpression(a) && IsExpression(b)
    ensures Eval(NotExpr(AndExpr(a, b)), env) == Eval(OrExpr(NotExpr(a), NotExpr(b)), env)
    ensures Eval(NotExpr(OrExpr(a, b)), env) == Eval(AndExpr(NotExpr(a), NotExpr(b)), env)
  {
    hide Compare, Eval;
    EvalIsClassical(NotExpr(AndExpr(a, b)), env);
    EvalIsClassical(OrExpr(NotExpr(a), NotExpr(b)), env);
    EvalIsClassical(NotExpr(OrExpr(a, b)), env);
    EvalIsClassical(AndExpr(NotExpr(a), NotExpr(b)), env);
  }

  // ----- What LIKE matches -----

  predicate Plain(s: string) { '%' !in s && '_' !in s }

  lemma {:induction false} PatternConcat(p: string, q: string)
    ensures Pattern(p + q) == Pattern(p) + Pattern(q)
  {
    if p == [] {
      assert p + q == q;
    } else {
      PatternConcat(p[1..], q);
      assert (p + q)[1..] == p[1..] + q;
    }
  }

  /** A plain prefix of a pattern matches itself and nothing else. */
  lemma {:induction false} PlainPrefix(p: string, items: seq<Item>, s: string)
    requires Plain(p)
    ensures Matches(Pattern(p) + items, s) <==> p <= s && Matches(items, s[|p|..])
    decreases |p|
  {
    if p == [] {
      assert Pattern(p) + items == items && s[0..] == s;
    } else {
      var all := Pattern(p) + items;
      assert p[0] in p && all[0] == Exactly(p[0]) && all[1..] == Pattern(p[1..]) + items;
      if s != [] && s[0] == p[0] {
        PlainPrefix(p[1..], items, s[1..]);
        assert p <= s <==> p[1..] <= s[1..];
        assert p <= s ==> s[1..][|p| - 1..] == s[|p|..];
      }
    }
  }

  lemma {:induction false} AnyRunAlone(s: string)
    ensures Matches([AnyRun], s) <==> '\n' !in s
    decreases |s|
  {
    if s != [] {
      AnyRunAlone(s[1..]);
      assert s == [s[0]] + s[1..];
    }
    assert [AnyRun][1..] == [];
  }

  /** A pattern without wildcards matches only itself. */
  lemma LikePlain(s: string, p: string)
    requires Plain(p)
    ensures Like(s, p) <==> s == p
  {
    hide Matches;
    PlainPrefix(p, [], s);
    assert Pattern(p) + [] == Pattern(p);
    EmptyPattern(s[if p <= s then |p| else 0..]);
  }

  lemma EmptyPattern(s: string)
    ensures Matches([], s) <==> s == []
  {
  }

  /** A single trailing `%` means "starts with", as long as the rest of the string stays on one line. */
  lemma LikePrefix(s: string, p: string)
    requires Plain(p)
    ensures Like(s, p + "%") <==> p <= s && '\n' !in s[|p|..]
  {
    hide Matches;
    PatternConcat(p, "%");
    assert Pattern("%") == [AnyRun];
    PlainPrefix(p, [AnyRun], s);
    if p <= s {
      AnyRunAlone(s[|p|..]);
    }
  }

  /** `items` match `s` in two parts, the first of them `k` long. */
  predicate MatchesInParts(a: seq<Item>, b: seq<Item>, s: string, k: nat)
    requires k <= |s|
  {
    Matches(a, s[..k]) && Matches(b, s[k..])
  }

  lemma {:induction false} MatchesSplit(a: seq<Item>, b: seq<Item>, s: string) returns (k: nat)
    requires Matches(a + b, s)
    ensures k <= |s| && MatchesInParts(a, b, s, k)
    decreases |a| + |s|
  {
    if a == [] {
      k := 0;
      assert a + b == b && s[0..] == s && s[..0] == [];
    } else {
      assert (a + b)[0] == a[0] && (a + b)[1..] == a[1..] + b;
      if a[0].AnyRun? && Matches(a[1..] + b, s) {
        k := MatchesSplit(a[1..], b, s);
      } else {
        var rest := if a[0].AnyRun? then a else a[1..];
        var j := MatchesSplit(rest, b, s[1..]);
        k := j + 1;
        assert s[..k][0] == s[0] && s[..k][1..] == s[1..][..k - 1] && s[k..] == s[1..][k - 1..];
      }
    }
  }

  lemma {:induction false} MatchesJoin(a: seq<Item>, b: seq<Item>, s: string, k: nat)
    requires k <= |s| && MatchesInParts(a, b, s, k)
    ensures Matches(a + b, s)
    decreases |a| + k
  {
    if a == [] {
      assert a + b == b && s[..k] == [] && s[k..] == s;
    } else {
      assert (a + b)[0] == a[0] && (a + b)[1..] == a[1..] + b;
      if a[0].AnyRun? && Matches(a[1..], s[..k]) {
        MatchesJoin(a[1..], b, s, k);
      } else {
        var rest := if a[0].AnyRun? then a else a[1..];
        assert s[..k][0] == s[0] && s[..k][1..] == s[1..][..k - 1] && s[k..] == s[1..][k - 1..];
        MatchesJoin(rest, b, s[1..], k - 1);
      }
    }
  }

  /** A pattern in two parts matches the strings in two parts that match them. */
  lemma LikeConcat(s: string, p: string, q: string)
    ensures Like(s, p + q) <==> exists k :: 0 <= k <= |s| && Like(s[..k], p) && Like(s[k..], q)
  {
    hide Matches, Pattern;
    PatternConcat(p, q);
    if Like(s, p + q) {
      var k := MatchesSplit(Pattern(p), Pattern(q), s);
      assert Like(s[..k], p) && Like(s[k..], q);
    }
    if k :| 0 <= k <= |s| && Like(s[..k], p) && Like(s[k..], q) {
      MatchesJoin(Pattern(p), Pattern(q), s, k);
    }
  }

  /** The two wildcards: `_` is one character and `%` any number of them, but never a newline. With `LikePlain` and `LikeConcat`,
      this says of every pattern what it matches. */
  lemma LikeWildcards(s: string)
    ensures Like(s, "_") <==> |s| == 1 && s[0] != '\n'
    ensures Like(s, "%") <==> '\n' !in s
  {
    assert Pattern("_") == [AnyOne] && Pattern("%") == [AnyRun] && [AnyOne][1..] == [];
    AnyRunAlone(s);
    if s != [] {
      EmptyPattern(s[1..]);
    }
  }
}

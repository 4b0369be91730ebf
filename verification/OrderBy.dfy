/** Ordering query results (pkg/consolegraphql/filter/support.go:746-1007). */
module OrderBy {
  import opened FilterSyntax
  import opened FilterEval
  import CacheScan
  import opened StableSort

  /** -1, 0 or 1 as the first of two comparable values lies below, at or above the second. */
  function Sign(less: bool, equal: bool): int { if equal then 0 else if less then -1 else 1 }

  /** Order.compare on column values in ascending direction: nulls first, values of different types tie, and so do
      values of a type it does not order. */
  function Rank(p: Value, q: Value): int {
    if p.NullV? then if q.NullV? then 0 else -1
    else if q.NullV? then 1
    else
      match (p, q)
      case (StringV(a), StringV(b)) => Sign(CacheScan.Less(a, b), a == b)
      case (IntV(t, a), IntV(u, b)) => if t == u then Sign(a < b, a == b) else 0
      case (FloatV(t, a), FloatV(u, b)) => if t == u then Sign(a < b, a == b) else 0
      case _ => 0
  }

  function RankIn(d: Direction, p: Value, q: Value): int { if d.Desc? then -Rank(p, q) else Rank(p, q) }

  /** Order.compare on objects, given what paths yield on them. */
  datatype Ranked = Ranked(r: int) | Failed

  function CompareOn(o: Order, p: Env, q: Env): Ranked {
    match (Eval(o.expr, p), Eval(o.expr, q))
    case (Ok(a), Ok(b)) => Ranked(RankIn(o.direction, a, b))
    case _ => Failed
  }

  /** The comparator: the first column that tells the two apart decides, and an error ends the comparison. */
  predicate LessBy(os: seq<Order>, p: Env, q: Env) {
    os != [] &&
    match CompareOn(os[0], p, q)
    case Failed => false
    case Ranked(r) => r < 0 || (r == 0 && LessBy(os[1..], p, q))
  }

  /** The same as the loop of Sort's less function. */
  method Less(os: seq<Order>, p: Env, q: Env) returns (less: bool)
    requires os != []
    ensures less == LessBy(os, p, q)
  {
    var k := 0;
    while k < |os| - 1
      invariant 0 <= k < |os| && LessBy(os, p, q) == LessBy(os[k..], p, q)
    {
      var rv := CompareOn(os[k], p, q);
      assert os[k..][0] == os[k] && os[k..][1..] == os[k + 1..];
      if rv.Failed? || rv.r > 0 {
        return false;
      } else if rv.r < 0 {
        return true;
      }
      k := k + 1;
    }
    var rv := CompareOn(os[k], p, q);
    assert os[k..] == [os[k]];
    less := rv.Ranked? && rv.r < 0;
  }

  // ----- Antisymmetry and ties -----

  /** Swapping the operands flips the sign, whatever the types. */
  lemma RankAntisymmetric(d: Direction, p: Value, q: Value)
    ensures RankIn(d, p, q) == -RankIn(d, q, p)
  {
    if p.StringV? && q.StringV? {
      CacheScan.LessTotal(p.s, q.s);
      if CacheScan.Less(p.s, q.s) && CacheScan.Less(q.s, p.s) {
        CacheScan.LessTrans(p.s, q.s, p.s);
        CacheScan.LessIrrefl(p.s);
      }
      CacheScan.LessIrrefl(p.s);
    }
  }

  /** `p` lies below `q`: a null below everything else, numbers of one type by size, strings by their bytes. */
  predicate Below(p: Value, q: Value) {
    || (p.NullV? && !q.NullV?)
    || (p.IntV? && q.IntV? && p.t == q.t && p.v < q.v)
    || (p.FloatV? && q.FloatV? && p.bits == q.bits && p.r < q.r)
    || (p.StringV? && q.StringV? && CacheScan.Less(p.s, q.s))
  }

  /** `p` comes before `q` in a direction. */
  predicate Precedes(d: Direction, p: Value, q: Value) { if d.Desc? then Below(q, p) else Below(p, q) }

  predicate Ties(p: Value, q: Value) { !Below(p, q) && !Below(q, p) }

  /** Of any two values, of whatever types, the ranks tell which lies below the other. */
  lemma RankFollowsValues(p: Value, q: Value)
    ensures Rank(p, q) == if Below(p, q) then -1 else if Below(q, p) then 1 else 0
    ensures Below(p, q) ==> !Below(q, p)
  {
    if p.StringV? && q.StringV? {
      CacheScan.LessTotal(p.s, q.s);
      CacheScan.LessIrrefl(p.s);
      if CacheScan.Less(p.s, q.s) && CacheScan.Less(q.s, p.s) {
        CacheScan.LessTrans(p.s, q.s, p.s);
      }
    }
  }

  /** The descending order is the ascending one reversed, for all values. */
  lemma DescReverses(p: Value, q: Value)
    ensures RankIn(Desc, p, q) == -RankIn(Asc, p, q)
    ensures forall d :: (RankIn(d, p, q) < 0 <==> Precedes(d, p, q)) && (RankIn(d, p, q) == 0 <==> Ties(p, q))
  {
    hide Rank, Below;
    RankFollowsValues(p, q);
  }

  /** Nulls come first in ascending order and last in descending order. */
  lemma NullsFirst(d: Direction, q: Value)
    ensures RankIn(d, NullV, q) == if q.NullV? then 0 else if d.Desc? then 1 else -1
  {
  }

  /** Of three values, any two that are told apart have the type of every value that is not null. */
  predicate Agree(a: Value, b: Value, c: Value) {
    (Rank(a, b) != 0 && !a.NullV? && !b.NullV? && !c.NullV? ==> TypeOf(c) == TypeOf(a))
  }

  predicate AgreeAll(a: Value, b: Value, c: Value) { Agree(a, b, c) && Agree(b, c, a) && Agree(a, c, b) }

  lemma AgreeFlip(a: Value, b: Value, c: Value)
    requires AgreeAll(a, b, c)
    ensures AgreeAll(c, b, a)
  {
    RankAntisymmetric(Asc, a, b);
    RankAntisymmetric(Asc, b, c);
    RankAntisymmetric(Asc, a, c);
  }

  lemma RankTransitive(a: Value, b: Value, c: Value)
    requires Rank(a, b) <= 0 && Rank(b, c) <= 0
    requires AgreeAll(a, b, c)
    ensures Rank(a, c) <= 0 && (Rank(a, b) < 0 || Rank(b, c) < 0 ==> Rank(a, c) < 0)
  {
    RankAntisymmetric(Asc, a, c);
    if a.StringV? && b.StringV? && c.StringV? {
      CacheScan.LessTotal(a.s, c.s);
      if CacheScan.Less(a.s, b.s) && CacheScan.Less(b.s, c.s) {
        CacheScan.LessTrans(a.s, b.s, c.s);
        CacheScan.LessIrrefl(a.s);
      }
    }
  }

  /** Whenever two of the values are told apart, every value that is not null has their type. */
  ghost predicate Uniform(vs: seq<Value>) {
    forall i, j, k :: 0 <= i < |vs| && 0 <= j < |vs| && 0 <= k < |vs| ==> Agree(vs[i], vs[j], vs[k])
  }

  /** A column orders its values properly exactly when they are uniform: with a value of another type
      between two that are told apart, ties are not transitive. */
  lemma ColumnExact(vs: seq<Value>)
    ensures StrictWeak(vs, (a, b) => Rank(a, b) < 0) <==> Uniform(vs)
  {
    var lt := (a, b) => Rank(a, b) < 0;
    hide Rank;
    if Uniform(vs) {
      forall i | 0 <= i < |vs|
        ensures !lt(vs[i], vs[i])
      {
        RankAntisymmetric(Asc, vs[i], vs[i]);
      }
      forall i, j, k | 0 <= i < |vs| && 0 <= j < |vs| && 0 <= k < |vs|
        ensures lt(vs[i], vs[j]) && lt(vs[j], vs[k]) ==> lt(vs[i], vs[k])
        ensures !lt(vs[i], vs[j]) && !lt(vs[j], vs[k]) ==> !lt(vs[i], vs[k])
      {
        ColumnTriple(vs[i], vs[j], vs[k]);
      }
    } else {
      var i, j, k :| 0 <= i < |vs| && 0 <= j < |vs| && 0 <= k < |vs| && !Agree(vs[i], vs[j], vs[k]);
      StrangersTie(vs[i], vs[j], vs[k]);
      RankAntisymmetric(Asc, vs[i], vs[j]);
      if lt(vs[i], vs[j]) {
        assert !lt(vs[i], vs[k]) && !lt(vs[k], vs[j]);
      } else {
        assert !lt(vs[j], vs[k]) && !lt(vs[k], vs[i]);
      }
    }
  }

  /** A column with a number, a string and a larger number: both numbers tie with the string, but not with each other. */
  lemma ColumnFails(t: IntType)
    ensures var vs := [IntV(t, 1), StringV("x"), IntV(t, 2)];
            !StrictWeak(vs, (a, b) => Rank(a, b) < 0) && Rank(vs[0], vs[1]) == Rank(vs[1], vs[2]) == 0 && Rank(vs[0], vs[2]) < 0
  {
    var vs := [IntV(t, 1), StringV("x"), IntV(t, 2)];
    ColumnExact(vs);
    assert !Agree(vs[0], vs[2], vs[1]);
  }

  lemma ColumnTriple(a: Value, b: Value, c: Value)
    requires AgreeAll(a, b, c)
    ensures Rank(a, b) < 0 && Rank(b, c) < 0 ==> Rank(a, c) < 0
    ensures Rank(a, b) >= 0 && Rank(b, c) >= 0 ==> Rank(a, c) >= 0
  {
    hide Rank;
    RankAntisymmetric(Asc, a, b);
    RankAntisymmetric(Asc, b, c);
    RankAntisymmetric(Asc, a, c);
    if Rank(a, b) < 0 && Rank(b, c) < 0 {
      RankTransitive(a, b, c);
    } else if Rank(a, b) >= 0 && Rank(b, c) >= 0 {
      AgreeFlip(a, b, c);
      RankTransitive(c, b, a);
    }
  }

  lemma StrangersTie(a: Value, b: Value, c: Value)
    requires !Agree(a, b, c)
    ensures Rank(a, c) == Rank(c, b) == Rank(b, c) == Rank(c, a) == 0 && Rank(a, b) != 0
  {
  }

  // ----- Several columns -----

  /** The value of a column on an object. */
  function Column(o: Order, env: Env): Value { if Eval(o.expr, env).Ok? then Eval(o.expr, env).v else NullV }

  /** No column fails on the object. */
  predicate Evaluates(os: seq<Order>, env: Env) { forall o :: o in os ==> Eval(o.expr, env).Ok? }

  /** The sign of the first column that tells two objects apart. */
  function Lexical(os: seq<Order>, p: Env, q: Env): int {
    if os == [] then 0
    else
      var r := RankIn(os[0].direction, Column(os[0], p), Column(os[0], q));
      if r != 0 then r else Lexical(os[1..], p, q)
  }

  lemma {:induction false} LessIsLexical(os: seq<Order>, p: Env, q: Env)
    requires Evaluates(os, p) && Evaluates(os, q)
    ensures LessBy(os, p, q) <==> Lexical(os, p, q) < 0
    ensures Lexical(os, p, q) == -Lexical(os, q, p)
    decreases |os|
  {
    hide RankIn;
    if os != [] {
      assert os[0] in os;
      RankAntisymmetric(os[0].direction, Column(os[0], p), Column(os[0], q));
      LessIsLexical(os[1..], p, q);
    }
  }

  predicate ColumnsAgree(os: seq<Order>, p: Env, q: Env, r: Env) {
    forall o :: o in os ==> AgreeAll(Column(o, p), Column(o, q), Column(o, r))
  }

  lemma {:induction false} LexicalTransitive(os: seq<Order>, p: Env, q: Env, r: Env)
    requires ColumnsAgree(os, p, q, r) && Lexical(os, p, q) <= 0 && Lexical(os, q, r) <= 0
    ensures Lexical(os, p, r) <= 0 && (Lexical(os, p, q) < 0 || Lexical(os, q, r) < 0 ==> Lexical(os, p, r) < 0)
    decreases |os|
  {
    hide Column, Rank, Agree;
    if os != [] {
      var o := os[0];
      assert o in os;
      var a, b, c := Column(o, p), Column(o, q), Column(o, r);
      DirectedTransitive(o.direction, a, b, c);
      if RankIn(o.direction, a, b) == 0 && RankIn(o.direction, b, c) == 0 {
        LexicalTransitive(os[1..], p, q, r);
      }
    }
  }

  /** The first `k` columns tie, and the next one, if there is one, puts the first object before the second. */
  predicate ComesBefore(os: seq<Order>, p: Env, q: Env, k: nat)
    requires k <= |os|
  {
    && (forall c :: 0 <= c < k ==> Ties(Column(os[c], p), Column(os[c], q)))
    && (k < |os| ==> Precedes(os[k].direction, Column(os[k], p), Column(os[k], q)))
  }

  lemma {:induction false} LexicalTells(os: seq<Order>, p: Env, q: Env) returns (k: nat)
    requires Lexical(os, p, q) <= 0
    ensures k <= |os| && ComesBefore(os, p, q, k)
  {
    hide RankIn, Column, Precedes, Ties;
    k := 0;
    if os != [] {
      DescReverses(Column(os[0], p), Column(os[0], q));
      if RankIn(os[0].direction, Column(os[0], p), Column(os[0], q)) == 0 {
        var j := LexicalTells(os[1..], p, q);
        k := j + 1;
        forall c | 0 <= c < k
          ensures Ties(Column(os[c], p), Column(os[c], q))
        {
          if c > 0 {
            assert os[c] == os[1..][c - 1];
          }
        }
      }
    }
  }

  lemma DirectedTransitive(d: Direction, a: Value, b: Value, c: Value)
    requires AgreeAll(a, b, c)
    ensures RankIn(d, a, b) <= 0 && RankIn(d, b, c) <= 0 ==>
              RankIn(d, a, c) <= 0 && (RankIn(d, a, b) < 0 || RankIn(d, b, c) < 0 ==> RankIn(d, a, c) < 0)
    ensures RankIn(d, a, b) == 0 && RankIn(d, b, c) == 0 ==> RankIn(d, a, c) == 0
  {
    hide Rank;
    RankAntisymmetric(Asc, a, b);
    RankAntisymmetric(Asc, b, c);
    RankAntisymmetric(Asc, a, c);
    if Rank(a, b) <= 0 && Rank(b, c) <= 0 {
      RankTransitive(a, b, c);
    }
    if Rank(a, b) >= 0 && Rank(b, c) >= 0 {
      AgreeFlip(a, b, c);
      RankTransitive(c, b, a);
    }
  }

  /** Every column evaluates on every object, and its values are uniform. */
  ghost predicate Orderable(os: seq<Order>, xs: seq<Env>) {
    && (forall i :: 0 <= i < |xs| ==> Evaluates(os, xs[i]))
    && (forall i, j, k :: 0 <= i < |xs| && 0 <= j < |xs| && 0 <= k < |xs| ==> ColumnsAgree(os, xs[i], xs[j], xs[k]))
  }

  /** Over any number of columns, the comparator is then a strict weak order, so the stable sort has one result. */
  lemma LessIsStrictWeak(os: seq<Order>, xs: seq<Env>)
    requires Orderable(os, xs)
    ensures StrictWeak(xs, (p, q) => LessBy(os, p, q))
  {
    var lt := (p, q) => LessBy(os, p, q);
    hide LessBy, Lexical, ColumnsAgree, Evaluates;
    forall i | 0 <= i < |xs|
      ensures !lt(xs[i], xs[i])
    {
      LessIsLexical(os, xs[i], xs[i]);
    }
    forall i, j, k | 0 <= i < |xs| && 0 <= j < |xs| && 0 <= k < |xs|
      ensures lt(xs[i], xs[j]) && lt(xs[j], xs[k]) ==> lt(xs[i], xs[k])
      ensures !lt(xs[i], xs[j]) && !lt(xs[j], xs[k]) ==> !lt(xs[i], xs[k])
    {
      LessIsLexical(os, xs[i], xs[j]);
      LessIsLexical(os, xs[j], xs[k]);
      LessIsLexical(os, xs[i], xs[k]);
      if lt(xs[i], xs[j]) && lt(xs[j], xs[k]) {
        LexicalTransitive(os, xs[i], xs[j], xs[k]);
      } else if !lt(xs[i], xs[j]) && !lt(xs[j], xs[k]) {
        LexicalTransitive(os, xs[k], xs[j], xs[i]);
      }
    }
  }
}

/** Turning a filter into an index key prefix, and why scanning that prefix loses nothing
    (pkg/consolegraphql/resolvers/resolver.go:57-147, pkg/consolegraphql/filter/support.go:89-95, 538-629). */
module IndexPushDown {
  import opened FilterSyntax
  import opened FilterEval
  import opened CacheScan

  // ----- buildKey -----

  /** Expr.Traverse with the state that its two callbacks share passed along: in order, and not below a node that is not accepted. */
  function Traverse<S>(e: Expr, accept: (S, Expr) -> bool, visit: (S, Expr) -> S, s: S): S
    decreases e
  {
    match e
    case AndExpr(l, r) =>
      if accept(s, e) then Traverse(r, accept, visit, visit(Traverse(l, accept, visit, s), e)) else s
    case OrExpr(l, r) =>
      if accept(s, e) then Traverse(r, accept, visit, visit(Traverse(l, accept, visit, s), e)) else s
    case ComparisonExpr(_, l, r) =>
      if accept(s, e) then Traverse(r, accept, visit, visit(Traverse(l, accept, visit, s), e)) else s
    case NotExpr(x) => if accept(s, e) then visit(Traverse(x, accept, visit, s), e) else s
    case IsNullExpr(_, x) => if accept(s, e) then visit(Traverse(x, accept, visit, s), e) else s
    case Absent => s
    case _ => visit(s, e)
  }

  /** What the callbacks of buildKey share while one key element is looked for. */
  datatype Search = Search(elements: seq<string>, found: bool)

  function IndexOf(s: string, c: char): (i: int)
    ensures -1 <= i < |s|
    ensures i == -1 <==> c !in s
    ensures i >= 0 ==> s[i] == c && c !in s[..i]
  {
    if s == [] then -1
    else if s[0] == c then 0
    else
      var i := IndexOf(s[1..], c);
      if i < 0 then -1 else
      assert s[..i + 1] == [s[0]] + s[1..][..i];
      i + 1
  }

  function TrimPercent(s: string): string { if s != [] && s[|s| - 1] == '%' then s[..|s| - 1] else s }

  /** doCmp: the text compared with key element `k`, if it can serve as a key element. */
  function KeyText(left: Expr, right: Expr, like: bool, k: string): (r: seq<string>)
    ensures |r| <= 1
  {
    if left.JSONPathVal? && left.path == k && right.StringVal? then
      if !like then [right.s]
      else if IndexOf(right.s, '%') == |right.s| - 1 && IndexOf(right.s, '_') == -1 then [TrimPercent(right.s)]
      else []
    else []
  }

  /** The key element that a comparison offers for `k`; LIKE is eligible for the last key element only. */
  function Term(e: Expr, k: string, last: bool): (r: seq<string>)
    ensures |r| <= 1
  {
    if e.ComparisonExpr? && (e.op.EqualOp? || (e.op.LikeOp? && last)) then
      var t := KeyText(e.left, e.right, e.op.LikeOp?, k);
      if t != [] then t else KeyText(e.right, e.left, e.op.LikeOp?, k)
    else []
  }

  function Accept(s: Search, e: Expr): bool { !s.found && (e.AndExpr? || e.ComparisonExpr?) }

  function Visit(s: Search, e: Expr, k: string, last: bool): Search {
    var t := Term(e, k, last);
    if t != [] then Search(s.elements + t, true) else s
  }

  function Join(parts: seq<string>): string {
    if parts == [] then "" else if |parts| == 1 then parts[0] else parts[0] + "/" + Join(parts[1..])
  }

  /** The leftmost comparison, not below anything but AND, that offers a key element for `k`. */
  function FirstTerm(e: Expr, k: string, last: bool): seq<string> {
    match e
    case AndExpr(l, r) => var t := FirstTerm(l, k, last); if t != [] then t else FirstTerm(r, k, last)
    case ComparisonExpr(_, _, _) => Term(e, k, last)
    case _ => []
  }

  /** The key elements found for as many leading elements of `ks` as possible. */
  function Elements(e: Expr, ks: seq<string>): seq<string> {
    if ks == [] then []
    else
      var t := FirstTerm(e, ks[0], |ks| == 1);
      if t == [] then [] else t + Elements(e, ks[1..])
  }

  lemma {:induction false} TraverseFindsFirst(e: Expr, k: string, last: bool, s: Search)
    requires IsExpression(e) && !s.found
    ensures var t := FirstTerm(e, k, last);
            Traverse(e, Accept, (s, e) => Visit(s, e, k, last), s) ==
              if t == [] then s else Search(s.elements + t, true)
    decreases e
  {
    var visit := (s, e) => Visit(s, e, k, last);
    match e {
      case AndExpr(l, r) =>
        TraverseFindsFirst(l, k, last, s);
        if FirstTerm(l, k, last) == [] {
          TraverseFindsFirst(r, k, last, s);
        } else {
          Rejects(r, k, last, Traverse(l, Accept, visit, s));
        }
      case ComparisonExpr(_, l, r) =>
        assert Traverse(l, Accept, visit, s) == s;
        assert Traverse(r, Accept, visit, visit(s, e)) == visit(s, e);
      case _ =>
    }
  }

  /** Once a term is found, the rest of the traversal changes nothing. */
  lemma Rejects(e: Expr, k: string, last: bool, s: Search)
    requires IsExpression(e) && s.found
    ensures Traverse(e, Accept, (s, e) => Visit(s, e, k, last), s) == s
  {
  }

  method BuildKey(e: Expr, ks: seq<string>) returns (key: string)
    requires IsExpression(e)
    ensures var found := Elements(e, ks);
            key == Join(if |found| < |ks| then found + [""] else found)
  {
    hide Join, FirstTerm, Traverse, Elements, Visit;
    var elements, i, foundTerm := [], 0, true;
    assert ks[0..] == ks;
    while i < |ks| && foundTerm
      invariant 0 <= i <= |ks| && |elements| == i
      invariant Elements(e, ks) == elements + Elements(e, ks[i..])
      invariant !foundTerm ==> i < |ks| && Elements(e, ks) == elements
      decreases |ks| - i, foundTerm
    {
      var k, last := ks[i], i == |ks| - 1;
      var s := Traverse(e, Accept, (s, e) => Visit(s, e, k, last), Search(elements, false));
      TraverseFindsFirst(e, k, last, Search(elements, false));
      ElementsStep(e, ks, i, elements);
      TermLength(e, k, last);
      elements, foundTerm := s.elements, s.found;
      if foundTerm {
        i := i + 1;
      }
    }
    if foundTerm {
      NoElements(e);
      assert ks[i..] == [] && elements + [] == elements;
    }
    if |ks| > |elements| {
      elements := elements + [""];
    }
    key := Join(elements);
  }

  lemma NoElements(e: Expr)
    ensures Elements(e, []) == []
  {
  }

  lemma ElementsStep(e: Expr, ks: seq<string>, i: nat, done: seq<string>)
    requires i < |ks|
    ensures var t := FirstTerm(e, ks[i], i == |ks| - 1);
            done + Elements(e, ks[i..]) == if t == [] then done else done + t + Elements(e, ks[i + 1..])
  {
    hide FirstTerm;
    assert ks[i..][0] == ks[i] && ks[i..][1..] == ks[i + 1..];
  }

  lemma TermLength(e: Expr, k: string, last: bool)
    ensures |FirstTerm(e, k, last)| <= 1
  {
  }

  // ----- How narrow the prefix is -----

  /** The conditions that all have to hold, from left to right. */
  function Conjuncts(e: Expr): seq<Expr> {
    if e.AndExpr? then Conjuncts(e.left) + Conjuncts(e.right) else [e]
  }

  /** The condition fixes key element `k` to `t`; or, for the last element, says that it starts with `t`. */
  ghost predicate Offers(c: Expr, k: string, last: bool, t: string) {
    || c == ComparisonExpr(EqualOp, JSONPathVal(k), StringVal(t)) || c == ComparisonExpr(EqualOp, StringVal(t), JSONPathVal(k))
    || (last && exists p :: StartsWith(p, t)
                            && (c == ComparisonExpr(LikeOp, JSONPathVal(k), StringVal(p)) || c == ComparisonExpr(LikeOp, StringVal(p), JSONPathVal(k))))
  }

  /** A pattern without wildcards but a `%` at its end, or the empty pattern. */
  predicate StartsWith(p: string, t: string) { (Plain(t) && p == t + "%") || (p == t == "") }

  lemma PatternExact(p: string, t: string)
    ensures StartsWith(p, t) <==> IndexOf(p, '%') == |p| - 1 && IndexOf(p, '_') == -1 && TrimPercent(p) == t
  {
    hide IndexOf;
    if StartsWith(p, t) && p != "" {
      assert p[..|t|] == t && p[|t|] == '%';
      assert forall c :: c in p <==> c in t || c == '%';
    }
    if IndexOf(p, '%') == |p| - 1 && IndexOf(p, '_') == -1 && TrimPercent(p) == t {
      LikeTerm(p);
    }
  }

  /** A comparison offers a key element exactly in these forms. */
  lemma TermExact(c: Expr, k: string, last: bool, t: string)
    ensures Term(c, k, last) == [t] <==> Offers(c, k, last, t)
  {
    hide IndexOf, TrimPercent, StartsWith;
    if c.ComparisonExpr? && c.left.StringVal? {
      PatternExact(c.left.s, t);
    }
    if c.ComparisonExpr? && c.right.StringVal? {
      PatternExact(c.right.s, t);
    }
  }

  /** The `i`-th condition offers `t`, and none before it offers anything. */
  ghost predicate FirstOffer(cs: seq<Expr>, k: string, last: bool, t: string, i: int) {
    0 <= i < |cs| && Offers(cs[i], k, last, t) && forall j, u :: 0 <= j < i ==> !Offers(cs[j], k, last, u)
  }

  ghost predicate OffersFirst(cs: seq<Expr>, k: string, last: bool, t: string) { exists i :: FirstOffer(cs, k, last, t, i) }

  /** The key element is taken from the leftmost condition that offers one. */
  lemma {:induction false} FirstTermExact(e: Expr, k: string, last: bool, t: string)
    ensures FirstTerm(e, k, last) == [t] <==> OffersFirst(Conjuncts(e), k, last, t)
    ensures FirstTerm(e, k, last) == [] <==> NoOffer(Conjuncts(e), k, last)
    decreases e
  {
    hide Offers, Term, NoOffer, OffersFirst;
    if e.AndExpr? {
      var l, r := Conjuncts(e.left), Conjuncts(e.right);
      FirstTermExact(e.left, k, last, t);
      FirstTermExact(e.right, k, last, t);
      TermLength(e.left, k, last);
      OffersIn(l, r, k, last, t);
      if FirstTerm(e.left, k, last) != [] {
        var u := FirstTerm(e.left, k, last)[0];
        FirstTermExact(e.left, k, last, u);
        OffersIn(l, r, k, last, u);
        assert FirstTerm(e.left, k, last) == [u] == FirstTerm(e, k, last);
      } else {
        assert FirstTerm(e, k, last) == FirstTerm(e.right, k, last);
      }
      assert Conjuncts(e) == l + r;
    } else {
      assert Conjuncts(e) == [e];
      OneOffer(e, k, last, t);
    }
  }

  ghost predicate NoOffer(cs: seq<Expr>, k: string, last: bool) { forall i, u :: 0 <= i < |cs| ==> !Offers(cs[i], k, last, u) }

  lemma OffersIn(l: seq<Expr>, r: seq<Expr>, k: string, last: bool, t: string)
    ensures NoOffer(l + r, k, last) <==> NoOffer(l, k, last) && NoOffer(r, k, last)
    ensures OffersFirst(l + r, k, last, t) <==> OffersFirst(l, k, last, t) || (NoOffer(l, k, last) && OffersFirst(r, k, last, t))
  {
    hide Offers;
    var cs := l + r;
    assert forall i :: 0 <= i < |l| ==> cs[i] == l[i];
    assert forall i :: 0 <= i < |r| ==> cs[|l| + i] == r[i];
    if i :| FirstOffer(cs, k, last, t, i) {
      if i < |l| {
        assert FirstOffer(l, k, last, t, i);
      } else {
        assert cs[i] == r[i - |l|];
        assert FirstOffer(r, k, last, t, i - |l|);
      }
    }
    if i :| FirstOffer(l, k, last, t, i) {
      assert FirstOffer(cs, k, last, t, i);
    } else if NoOffer(l, k, last) {
      if i :| FirstOffer(r, k, last, t, i) {
        forall j, u | 0 <= j < |l| + i
          ensures !Offers(cs[j], k, last, u)
        {
          if j >= |l| {
            assert cs[j] == r[j - |l|];
          }
        }
        assert FirstOffer(cs, k, last, t, |l| + i);
      }
    }
    if NoOffer(l, k, last) && NoOffer(r, k, last) {
      forall i, u | 0 <= i < |cs|
        ensures !Offers(cs[i], k, last, u)
      {
        if i >= |l| {
          assert cs[i] == r[i - |l|];
        }
      }
    }
  }

  lemma OneOffer(e: Expr, k: string, last: bool, t: string)
    requires !e.AndExpr?
    ensures FirstTerm(e, k, last) == [t] <==> OffersFirst([e], k, last, t)
    ensures FirstTerm(e, k, last) == [] <==> NoOffer([e], k, last)
  {
    hide Offers, Term;
    TermExact(e, k, last, t);
    forall u
      ensures Term(e, k, last) == [u] <==> Offers(e, k, last, u)
    {
      TermExact(e, k, last, u);
    }
    assert FirstTerm(e, k, last) == Term(e, k, last) by { OnlyComparisons(e, k, last); }
    if Term(e, k, last) == [t] {
      assert FirstOffer([e], k, last, t, 0);
    }
    if Term(e, k, last) != [] {
      assert Term(e, k, last) == [Term(e, k, last)[0]];
      assert Offers([e][0], k, last, Term(e, k, last)[0]);
    }
  }

  lemma OnlyComparisons(e: Expr, k: string, last: bool)
    requires !e.AndExpr?
    ensures FirstTerm(e, k, last) == Term(e, k, last)
  {
  }

  /** The key is built from as many leading elements as conditions are found for, each from the leftmost condition that offers it. */
  lemma {:induction false} ElementsExact(e: Expr, ks: seq<string>)
    ensures var found, cs := Elements(e, ks), Conjuncts(e);
            && |found| <= |ks| && (forall i :: 0 <= i < |found| ==> OffersFirst(cs, ks[i], i == |ks| - 1, found[i]))
            && (|found| < |ks| ==> NoOffer(cs, ks[|found|], |found| == |ks| - 1))
    decreases |ks|
  {
    hide OffersFirst, NoOffer, FirstTerm, Conjuncts;
    if ks != [] {
      var t := FirstTerm(e, ks[0], |ks| == 1);
      TermLength(e, ks[0], |ks| == 1);
      FirstTermExact(e, ks[0], |ks| == 1, if t == [] then "" else t[0]);
      ElementsExact(e, ks[1..]);
      if t != [] {
        var rest := Elements(e, ks[1..]);
        assert Elements(e, ks) == [t[0]] + rest;
        assert forall i :: 0 < i < |ks| ==> ks[i] == ks[1..][i - 1];
      }
    }
  }

  // ----- Why the prefix loses nothing -----

  function KeyPrefix(e: Expr, ks: seq<string>): string {
    var found := Elements(e, ks);
    Join(if |found| < |ks| then found + [""] else found)
  }

  /** The object's path `ks[i]` yields the string `vals[i]`. */
  predicate Yields(env: Env, ks: seq<string>, vals: seq<string>) {
    |ks| == |vals| && forall i :: 0 <= i < |ks| ==> ks[i] in env && env[ks[i]] == Ok(StringV(vals[i]))
  }

  /** No condition of the form "literal LIKE path" on `k`. */
  predicate NoReversedLike(e: Expr, k: string) {
    match e
    case AndExpr(l, r) => NoReversedLike(l, k) && NoReversedLike(r, k)
    case ComparisonExpr(op, l, r) => !(op.LikeOp? && l.StringVal? && r == JSONPathVal(k))
    case _ => true
  }

  /** A value that satisfies a comparison has the key element that the comparison offers as a prefix,
      and equals it unless the comparison is the LIKE of the last element. */
  lemma TermSound(e: Expr, env: Env, k: string, v: string, last: bool)
    requires IsExpression(e) && e.ComparisonExpr? && Holds(e, env) && k in env && env[k] == Ok(StringV(v))
    requires Term(e, k, last) != []
    requires last ==> NoReversedLike(e, k) || Plain(v)
    ensures var t := Term(e, k, last)[0]; t <= v && (!last ==> t == v)
  {
    if e.op.LikeOp? {
      LikeSound(e, env, k, v);
    } else {
      hide Like, IndexOf;
    }
  }

  lemma LikeSound(e: Expr, env: Env, k: string, v: string)
    requires IsExpression(e) && e.ComparisonExpr? && e.op.LikeOp? && Holds(e, env) && k in env && env[k] == Ok(StringV(v))
    requires Term(e, k, true) != [] && (NoReversedLike(e, k) || Plain(v))
    ensures Term(e, k, true)[0] <= v
  {
    hide Like, IndexOf, Plain, TrimPercent;
    if KeyText(e.left, e.right, true, k) != [] {
      var p := e.right.s;
      LikeTerm(p);
      if p != "" {
        LikePrefix(v, TrimPercent(p));
      }
    } else {
      LikeTerm(e.left.s);
      LikePlain(e.left.s, v);
      assert e.left.s == v;
    }
  }

  lemma LikeTerm(p: string)
    requires IndexOf(p, '%') == |p| - 1 && IndexOf(p, '_') == -1
    ensures var t := TrimPercent(p); Plain(t) && (p == t + "%" || p == t == "")
  {
    hide IndexOf, Plain;
    if p != [] {
      FrontOf(p);
      PlainFront(p);
    } else {
      assert Plain("") by { PlainFront("%"); assert "%"[..0] == ""; }
    }
  }

  lemma FrontOf(p: string)
    requires p != [] && p[|p| - 1] == '%'
    ensures TrimPercent(p) == p[..|p| - 1] && p == p[..|p| - 1] + "%"
  {
  }

  lemma PlainFront(p: string)
    requires p != [] && '%' !in p[..|p| - 1] && '_' !in p
    ensures Plain(p[..|p| - 1])
  {
    var t := p[..|p| - 1];
    if k :| 0 <= k < |t| && t[k] == '_' {
      assert p[k] == '_';
    }
  }

  lemma {:induction false} FirstTermSound(e: Expr, env: Env, k: string, v: string, last: bool)
    requires IsExpression(e) && Holds(e, env) && k in env && env[k] == Ok(StringV(v)) && FirstTerm(e, k, last) != []
    requires last ==> NoReversedLike(e, k) || Plain(v)
    ensures var t := FirstTerm(e, k, last)[0]; t <= v && (!last ==> t == v)
    decreases e
  {
    hide Compare;
    match e {
      case AndExpr(l, r) =>
        if FirstTerm(l, k, last) != [] {
          FirstTermSound(l, env, k, v, last);
        } else {
          FirstTermSound(r, env, k, v, last);
        }
      case ComparisonExpr(_, _, _) => TermSound(e, env, k, v, last);
    }
  }

  /** The built prefix is a prefix of the joined key elements of every object the filter holds for. */
  lemma {:induction false} PrefixSound(e: Expr, env: Env, ks: seq<string>, vals: seq<string>)
    requires IsExpression(e) && Holds(e, env) && Yields(env, ks, vals)
    requires ks != [] ==> NoReversedLike(e, ks[|ks| - 1]) || Plain(vals[|vals| - 1])
    ensures KeyPrefix(e, ks) <= Join(vals)
    decreases |ks|
  {
    hide Holds, FirstTerm, NoReversedLike, Plain;
    if ks != [] {
      var k, v := ks[0], vals[0];
      var t := FirstTerm(e, k, |ks| == 1);
      TermLength(e, k, |ks| == 1);
      if t != [] {
        FirstTermSound(e, env, k, v, |ks| == 1);
        if |ks| > 1 {
          PrefixSound(e, env, ks[1..], vals[1..]);
          JoinStep(e, ks, vals, v);
        } else {
          assert Elements(e, ks) == t;
        }
      }
    }
  }

  lemma JoinStep(e: Expr, ks: seq<string>, vals: seq<string>, v: string)
    requires |ks| == |vals| > 1 && vals[0] == v && FirstTerm(e, ks[0], false) == [v]
    requires KeyPrefix(e, ks[1..]) <= Join(vals[1..])
    ensures KeyPrefix(e, ks) <= Join(vals)
  {
    var found, rest := Elements(e, ks), Elements(e, ks[1..]);
    assert found == [v] + rest;
    var parts, tail := if |found| < |ks| then found + [""] else found, if |rest| < |ks| - 1 then rest + [""] else rest;
    assert parts == [v] + tail && parts[1..] == tail && tail != [];
    assert Join(parts) == v + "/" + Join(tail);
  }

  // ----- The query -----

  /** The matching objects of a list, in order. */
  function Select<T>(os: seq<T>, p: T -> bool): seq<T> {
    if os == [] then [] else (if p(os[0]) then [os[0]] else []) + Select(os[1..], p)
  }

  /** BuildFilter's closure: the verdict of a filter expression on an object, given what paths yield on it. */
  function ExprFilter<S, T>(e: Expr, fields: T -> Env): Filter<S, T> {
    (s, o) =>
      match Eval(e, fields(o))
      case Err => (s, Verdict(false, false, true))
      case Ok(BoolV(b)) => (s, Verdict(b, true, false))
      case Ok(_) => (s, Verdict(false, false, true))
  }

  /** Entries below `base` are keyed by `base`, the elements that `ks` yields joined by slashes, and a NUL. */
  predicate LaidOut<T>(es: seq<Entry<T>>, base: string, ks: seq<string>, fields: T -> Env, elements: T -> seq<string>) {
    forall i :: 0 <= i < |es| && base < es[i].key ==>
      var o := es[i].obj;
      Yields(fields(o), ks, elements(o)) && es[i].key == base + Join(elements(o)) + [NUL]
  }

  /** The last key element of every entry below `base` is free of LIKE wildcards. */
  predicate PlainEnds<T>(es: seq<Entry<T>>, base: string, elements: T -> seq<string>) {
    forall i :: 0 <= i < |es| && base < es[i].key ==>
      var vals := elements(es[i].obj); vals != [] ==> Plain(vals[|vals| - 1])
  }

  /** Narrowing a scan keeps the selection when everything selected lies in the narrower part. */
  lemma {:induction false} NarrowScan<T(!new)>(es: seq<Entry<T>>, base: string, k: string, p: T -> bool)
    requires forall i :: 0 <= i < |es| && base < es[i].key && p(es[i].obj) ==> base + k < es[i].key
    ensures Select(Objects(Extending(es, base + k)), p) == Select(Objects(Extending(es, base)), p)
    decreases |es|
  {
    if es != [] {
      var rest := es[1..];
      NarrowScan(rest, base, k, p);
      SelectStep(es, base, p);
      SelectStep(es, base + k, p);
      if base + k < es[0].key {
        assert base < es[0].key;
      }
    }
  }

  lemma SelectStep<T(!new)>(es: seq<Entry<T>>, p: string, q: T -> bool)
    requires es != []
    ensures Select(Objects(Extending(es, p)), q) ==
            (if p < es[0].key && q(es[0].obj) then [es[0].obj] else []) + Select(Objects(Extending(es[1..], p)), q)
  {
    var a, b := Extending(es, p), Extending(es[1..], p);
    if p < es[0].key {
      assert a[1..] == b && Objects(a)[1..] == Objects(b);
    } else {
      assert a == b;
    }
  }

  /** Pushing the filter into the key changes nothing: scanning `base` extended by the built prefix
      selects the same objects in the same order as scanning all of `base`, whatever else is asked of them
      besides the filter. */
  lemma PushDown<T(!new)>(es: seq<Entry<T>>, base: string, e: Expr, ks: seq<string>, fields: T -> Env,
                          elements: T -> seq<string>, p: T -> bool)
    requires IsExpression(e) && LaidOut(es, base, ks, fields, elements)
    requires ks == [] || NoReversedLike(e, ks[|ks| - 1]) || PlainEnds(es, base, elements)
    requires forall o :: p(o) ==> Holds(e, fields(o))
    ensures Select(Objects(Extending(es, base + KeyPrefix(e, ks))), p) == Select(Objects(Extending(es, base)), p)
  {
    hide Holds, KeyPrefix, Join, Plain, NoReversedLike, IsExpression;
    forall i | 0 <= i < |es| && base < es[i].key && p(es[i].obj)
      ensures base + KeyPrefix(e, ks) < es[i].key
    {
      var o := es[i].obj;
      PrefixSound(e, fields(o), ks, elements(o));
    }
    NarrowScan(es, base, KeyPrefix(e, ks), p);
  }

  /** With the literal on the left, LIKE takes the object's value as the pattern. The prefix is then
      sound for every value exactly when it is empty. */
  lemma ReversedLikeExact(p: string)
    requires Plain(p)
    ensures (forall v :: Like(p + "%", v) ==> p <= v) <==> p == ""
  {
    if p != "" {
      var v, s := "%" + p + "%", p + "%";
      LikePrefix(s, p);
      assert s[|p|..] == "%";
      assert Pattern(v)[0] == AnyRun && v[1..] == s && Pattern(v)[1..] == Pattern(s);
      assert Like(s, v) && v[0] == '%' != p[0];
    }
  }
}

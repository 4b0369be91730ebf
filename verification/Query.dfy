/** The query pipeline: filter, view, sort, page (pkg/consolegraphql/resolvers/resolver_address.go:93-131,
    pkg/consolegraphql/resolvers/resolver_connection.go:24-66, 128-164,
    pkg/consolegraphql/resolvers/resolver.go:38-79). */
module Query {
  import opened GoInt
  import opened FilterSyntax
  import opened FilterEval
  import opened CacheScan
  import opened ConsoleCache
  import opened AccessControl
  import opened IndexPushDown
  import opened StableSort
  import opened OrderBy
  import ResourceWatcher
  import Agents = AgentWatcher

  // ----- Paging -----

  datatype Optional = Nil | Some(v: int)

  function Min(x: int, y: int): int { if x < y then x else y }

  function LowerOf(offset: Optional, n: nat): (lower: nat)
    ensures lower <= n
  {
    if offset.Some? && offset.v > 0 then Min(offset.v, n) else 0
  }

  /** The sum in CalcLowerUpper is too large for a Go int. */
  predicate Overflows(offset: Optional, first: Optional, n: nat) {
    first.Some? && first.v > 0 && LowerOf(offset, n) + first.v > MAX_INT
  }

  function CalcLowerUpper(offset: Optional, first: Optional, n: nat): (int, int) {
    var lower := LowerOf(offset, n);
    (lower, if first.Some? && first.v > 0 then Min(Wrap(lower + first.v), n) else n)
  }

  /** The bounds are valid for slicing exactly when the sum does not overflow. */
  lemma BoundsExact(offset: Optional, first: Optional, n: nat)
    requires n <= MAX_INT && (first.Some? ==> IsInt(first.v))
    ensures var (lower, upper) := CalcLowerUpper(offset, first, n);
            0 <= lower <= upper <= n <==> !Overflows(offset, first, n)
  {
    if Overflows(offset, first, n) {
      var x := LowerOf(offset, n) + first.v;
      assert Wrap(x) == x - (2 * MAX_INT + 2);
    }
  }

  /** One row, an offset of 1 and the largest page size: the upper bound wraps around and slicing panics. */
  lemma BoundsFail()
    ensures CalcLowerUpper(Some(1), Some(MAX_INT), 1) == (1, -MAX_INT - 1) && Overflows(Some(1), Some(MAX_INT), 1)
  {
    assert Wrap(MAX_INT + 1) == -MAX_INT - 1;
  }

  /** The rows of a page. */
  function Page<T>(xs: seq<T>, offset: Optional, first: Optional): seq<T>
    requires |xs| <= MAX_INT && (first.Some? ==> IsInt(first.v)) && !Overflows(offset, first, |xs|)
  {
    BoundsExact(offset, first, |xs|);
    var (lower, upper) := CalcLowerUpper(offset, first, |xs|);
    xs[lower..upper]
  }

  function Dropped<T>(xs: seq<T>, offset: Optional): seq<T> {
    if offset.Nil? || offset.v <= 0 then xs else if offset.v < |xs| then xs[offset.v..] else []
  }

  function Taken<T>(xs: seq<T>, first: Optional): seq<T> {
    if first.Nil? || first.v <= 0 || first.v >= |xs| then xs else xs[..first.v]
  }

  /** A page is what is left after dropping the rows before the offset, cut to the page size. */
  lemma PageIsWindow<T>(xs: seq<T>, offset: Optional, first: Optional)
    requires |xs| <= MAX_INT && (first.Some? ==> IsInt(first.v)) && !Overflows(offset, first, |xs|)
    ensures Page(xs, offset, first) == Taken(Dropped(xs, offset), first)
  {
    BoundsExact(offset, first, |xs|);
  }

  /** The pages of `n` rows from offset `at` on, one after the other. */
  function Pages<T>(xs: seq<T>, n: int, at: nat): seq<T>
    requires 0 < n && at <= |xs| && |xs| + n <= MAX_INT
    decreases |xs| - at
  {
    if at >= |xs| then []
    else Page(xs, Some(at), Some(n)) + if at + n >= |xs| then [] else Pages(xs, n, at + n)
  }

  /** Pages at offsets 0, n, 2n, ... put together are the whole list: nothing is lost or repeated. */
  lemma {:induction false} PagesCover<T>(xs: seq<T>, n: int, at: nat)
    requires 0 < n && at <= |xs| && |xs| + n <= MAX_INT
    ensures Pages(xs, n, at) == xs[at..]
    decreases |xs| - at
  {
    if at < |xs| && at + n < |xs| {
      PagesCover(xs, n, at + n);
      assert Page(xs, Some(at), Some(n)) == xs[at..at + n];
    }
  }

  // ----- Filters -----

  /** A filter that was given, or none. */
  datatype Where = Everything | Such(e: Expr)

  predicate Grammatical(w: Where) { w.Such? ==> IsExpression(w.e) }

  /** The integers that a filter can hold are those of Go's int. */
  lemma LiteralIsProper(i: int)
    ensures IsInt(i) <==> Proper(IntV(Int, i))
  {
  }

  /** What JSON paths yield on an object: the parts of its key as strings, and the rest of it. */
  function Fields(o: Obj): Env {
    match o
    case Address(ns, name, spec, _) => spec["$.metadata.namespace" := Ok(StringV(ns))]["$.metadata.name" := Ok(StringV(name))]
    case AddressSpace(ns, name, spec, _) => spec["$.metadata.namespace" := Ok(StringV(ns))]["$.metadata.name" := Ok(StringV(name))]
    case Connection(ns, space, name, spec, _) =>
      spec["$.metadata.namespace" := Ok(StringV(ns))]["$.spec.addressSpace" := Ok(StringV(space))]["$.metadata.name" := Ok(StringV(name))]
    case Link(ns, space, con, name, _, address, role, _) =>
      map["$.metadata.namespace" := Ok(StringV(ns)), "$.spec.addressSpace" := Ok(StringV(space)),
          "$.spec.connection" := Ok(StringV(con)), "$.metadata.name" := Ok(StringV(name)),
          "$.spec.address" := Ok(StringV(address)), "$.spec.role" := Ok(StringV(role))]
    case Cluster(_, name, spec) => spec["$.metadata.name" := Ok(StringV(name))]
  }

  /** The object meets the condition that a path equals a text. */
  predicate HasAt(o: Obj, path: string, s: string) { Holds(ComparisonExpr(EqualOp, JSONPathVal(path), StringVal(s)), Fields(o)) }

  /** Conditions on the parts of an object's key, and on a link's address and role, hold exactly when those are the texts given. */
  lemma FieldFilters(o: Obj, s: string)
    ensures HasAt(o, "$.metadata.name", s) <==> o.name == s
    ensures !o.Cluster? ==> (HasAt(o, "$.metadata.namespace", s) <==> o.namespace == s)
    ensures o.Connection? || o.Link? ==> (HasAt(o, "$.spec.addressSpace", s) <==> o.addressSpace == s)
    ensures o.Link? ==> (HasAt(o, "$.spec.connection", s) <==> o.connection == s)
    ensures o.Link? ==> (HasAt(o, "$.spec.address", s) <==> o.address == s) && (HasAt(o, "$.spec.role", s) <==> o.role == s)
  {
    hide Fields, Yields, HasAt;
    FieldsAre(o);
    FieldIs(o, "$.metadata.name", o.name, s);
    if !o.Cluster? {
      FieldIs(o, "$.metadata.namespace", o.namespace, s);
    }
    if o.Connection? || o.Link? {
      FieldIs(o, "$.spec.addressSpace", o.addressSpace, s);
    }
    if o.Link? {
      FieldIs(o, "$.spec.connection", o.connection, s);
      FieldIs(o, "$.spec.address", o.address, s);
      FieldIs(o, "$.spec.role", o.role, s);
    }
  }

  lemma FieldIs(o: Obj, path: string, x: string, s: string)
    ensures Yields(Fields(o), [path], [x]) ==> (HasAt(o, path, s) <==> x == s)
  {
    hide Fields, Compare;
    StringComparison(x, s);
    if Yields(Fields(o), [path], [x]) {
      assert [path][0] in Fields(o) && Fields(o)[[path][0]] == Ok(StringV(x));
    }
  }

  lemma FieldsAre(o: Obj)
    ensures Yields(Fields(o), ["$.metadata.name"], [o.name])
    ensures !o.Cluster? ==> Yields(Fields(o), ["$.metadata.namespace"], [o.namespace])
    ensures o.Connection? || o.Link? ==> Yields(Fields(o), ["$.spec.addressSpace"], [o.addressSpace])
    ensures o.Link? ==> Yields(Fields(o), ["$.spec.connection"], [o.connection]) && Yields(Fields(o), ["$.spec.address"], [o.address])
    ensures o.Link? ==> Yields(Fields(o), ["$.spec.role"], [o.role])
  {
  }

  function Whole<S>(): Filter<S, Obj> { (s, o) => (s, Verdict(true, true, false)) }

  /** cache.And of the view filter, where there is one, and BuildFilter's, which is nil without a filter. */
  function QueryFilter(view: bool, api: Api, w: Where): Filter<Memo, Obj> {
    match w
    case Everything => if view then ViewFilter(api) else Whole()
    case Such(e) => if view then And(ViewFilter(api), ExprFilter(e, Fields)) else ExprFilter(e, Fields)
  }

  predicate Meets(w: Where, o: Obj)
    requires Grammatical(w)
  {
    w.Such? ==> Holds(w.e, Fields(o))
  }

  /** The user may see the object and it matches. */
  predicate Wanted(view: bool, truth: Api, w: Where, o: Obj)
    requires Grammatical(w)
  {
    (view ==> Readable(o, truth)) && Meets(w, o)
  }

  /** The scan fails on the object: its review goes unanswered, or a path of the filter fails on it though it may be seen. */
  predicate Breaks(view: bool, truth: Api, w: Where, o: Obj)
    requires Grammatical(w)
  {
    || (view && Undecided(o, truth))
    || ((view ==> Readable(o, truth)) && w.Such? && Fails(w.e, Fields(o)))
  }

  lemma FilterStep(view: bool, api: Api, truth: Api, w: Where, m: Memo, o: Obj)
    requires Grammatical(w) && Faithful(m, api, truth)
    ensures var (m1, v) := QueryFilter(view, api, w)(m, o);
            && Faithful(m1, api, truth) && v.failed == Breaks(view, truth, w, o)
            && (!v.failed ==> v == Verdict(Wanted(view, truth, w, o), true, false))
  {
    hide Fields, Holds, Fails, Eval, ViewFilter;
    ViewDecides(m, o, api, truth);
    if w.Such? {
      EvalIsClassical(w.e, Fields(o));
    }
  }

  /** Running the filter, memo and all, selects what the answers in force allow and the filter's meaning
      asks for, unless some object breaks the scan. */
  lemma {:induction false} FilterRun(view: bool, api: Api, truth: Api, w: Where, os: seq<Obj>, m: Memo)
    requires Grammatical(w) && Faithful(m, api, truth)
    ensures var r := RunFilter(os, m, QueryFilter(view, api, w));
            && Faithful(r.state, api, truth)
            && (r.failed <==> exists o :: o in os && Breaks(view, truth, w, o))
            && (!r.failed ==> r.objs == Select(os, o => Wanted(view, truth, w, o)))
    decreases |os|
  {
    hide QueryFilter, Breaks, Wanted, Faithful;
    if os != [] {
      FilterStep(view, api, truth, w, m, os[0]);
      var (m1, v) := QueryFilter(view, api, w)(m, os[0]);
      if !v.failed {
        FilterRun(view, api, truth, w, os[1..], m1);
        assert forall o :: o in os <==> o == os[0] || o in os[1..];
      }
    }
  }

  // ----- Ordering -----

  function LessOn(orders: seq<Order>): Comparator<Obj> { (p, q) => LessBy(orders, Fields(p), Fields(q)) }

  /** The stable sort by the columns; without any the list is left as it is. */
  function InOrder(orders: seq<Order>, xs: seq<Obj>): (r: seq<Obj>)
    ensures |r| == |xs|
  {
    if orders == [] then xs else Arranged(xs, Sorting(xs, LessOn(orders), |xs|))
  }

  ghost function Envs(xs: seq<Obj>): (r: seq<Env>)
    ensures |r| == |xs| && forall i :: 0 <= i < |xs| ==> r[i] == Fields(xs[i])
  {
    if xs == [] then [] else [Fields(xs[0])] + Envs(xs[1..])
  }

  /** Where every column evaluates and holds values of one type besides nulls, the order is the only stable one. */
  lemma OrderIsStable(orders: seq<Order>, xs: seq<Obj>, pi: seq<nat>)
    requires Orderable(orders, Envs(xs))
    ensures Arranges(xs, LessOn(orders), pi) <==> pi == Sorting(xs, LessOn(orders), |xs|)
  {
    hide Fields, LessBy, Orderable, Envs, Sorting, StrictWeak;
    LessIsStrictWeak(orders, Envs(xs));
    StrictWeakVia(xs, Envs(xs), LessOn(orders), (p, q) => LessBy(orders, p, q));
    StableSortIsUnique(xs, LessOn(orders), pi);
  }

  lemma StrictWeakVia<A, B>(xs: seq<A>, ys: seq<B>, lt: Comparator<A>, lu: Comparator<B>)
    requires |xs| == |ys| && StrictWeak(ys, lu)
    requires forall i, j :: 0 <= i < |xs| && 0 <= j < |xs| ==> lt(xs[i], xs[j]) == lu(ys[i], ys[j])
    ensures StrictWeak(xs, lt)
  {
    forall i, j, k | 0 <= i < |xs| && 0 <= j < |xs| && 0 <= k < |xs|
      ensures lt(xs[i], xs[j]) && lt(xs[j], xs[k]) ==> lt(xs[i], xs[k])
      ensures !lt(xs[i], xs[j]) && !lt(xs[j], xs[k]) ==> !lt(xs[i], xs[k])
    {
      assert lt(xs[i], xs[j]) == lu(ys[i], ys[j]) && lt(xs[j], xs[k]) == lu(ys[j], ys[k]) && lt(xs[i], xs[k]) == lu(ys[i], ys[k]);
    }
  }

  /** As many elements sort.SliceStable sorts by insertion alone. More of them it merges in blocks. */
  const BLOCK_SIZE := 20

  /** `list` are the elements of `xs`: as they were without columns, and in the stable order where the columns order them. For
      a longer list that they do not order, which rearrangement it is depends on how blocks are merged. */
  ghost predicate OrderedBy(orders: seq<Order>, xs: seq<Obj>, list: seq<Obj>) {
    && multiset(list) == multiset(xs) && (orders == [] ==> list == xs)
    && (Orderable(orders, Envs(xs)) || |xs| <= BLOCK_SIZE ==> list == InOrder(orders, xs))
  }

  method Sort(orders: seq<Order>, xs: seq<Obj>) returns (r: seq<Obj>)
    ensures OrderedBy(orders, xs, r)
  {
    if orders == [] {
      return xs;
    }
    hide Orderable, LessOn;
    if xs == [] {
      return [];
    }
    var a := new Obj[|xs|](i requires 0 <= i < |xs| => xs[i]);
    assert a[..] == xs;
    SliceStable(a, LessOn(orders));
    SortingPermutes(xs, LessOn(orders), |xs|);
    assert xs[..|xs|] == xs;
    r := a[..];
  }

  // ----- What the order means -----

  /** Of two objects in an arrangement, the first is never the greater one. */
  lemma NoneGreater<T>(xs: seq<T>, lt: Comparator<T>, i: nat, j: nat)
    requires StrictWeak(xs, lt) && i < j < |xs|
    ensures var list := Arranged(xs, Sorting(xs, lt, |xs|)); !lt(list[j], list[i])
  {
    hide Sorting;
    SortingArranges(xs, lt, |xs|);
    var pi := Sorting(xs, lt, |xs|);
    assert Before(xs, lt, pi[i], pi[j]);
  }

  /** Every object of `list` comes before those after it: at the first column that tells the two apart, or they tie on all. */
  ghost predicate RowsInOrder(orders: seq<Order>, list: seq<Obj>) {
    forall i, j :: 0 <= i < j < |list| ==> InTurn(orders, list[i], list[j])
  }

  ghost predicate InTurn(orders: seq<Order>, p: Obj, q: Obj) {
    exists k :: 0 <= k <= |orders| && ComesBefore(orders, Fields(p), Fields(q), k)
  }

  lemma RowsAscend(orders: seq<Order>, xs: seq<Obj>, list: seq<Obj>)
    requires Orderable(orders, Envs(xs)) && OrderedBy(orders, xs, list) && orders != []
    ensures RowsInOrder(orders, list)
  {
    hide Fields, LessBy, Orderable, Envs, Sorting, StrictWeak, Column, ComesBefore, Lexical, Evaluates;
    LessIsStrictWeak(orders, Envs(xs));
    StrictWeakVia(xs, Envs(xs), LessOn(orders), (p, q) => LessBy(orders, p, q));
    forall i, j | 0 <= i < j < |list|
      ensures InTurn(orders, list[i], list[j])
    {
      assert multiset(list)[list[i]] > 0 && multiset(list)[list[j]] > 0;
      NoneGreater(xs, LessOn(orders), i, j);
      Evaluate(orders, xs, list[i]);
      Evaluate(orders, xs, list[j]);
      LessIsLexical(orders, Fields(list[j]), Fields(list[i]));
      var k := LexicalTells(orders, Fields(list[i]), Fields(list[j]));
    }
  }

  lemma Evaluate(orders: seq<Order>, xs: seq<Obj>, o: Obj)
    requires Orderable(orders, Envs(xs)) && o in xs
    ensures Evaluates(orders, Fields(o))
  {
    var i :| 0 <= i < |xs| && xs[i] == o;
    assert Envs(xs)[i] == Fields(o);
  }

  /** Sorted by one column, the integers, the strings and the floats in it ascend under ASC and descend under DESC. */
  lemma OneColumn(o: Order, xs: seq<Obj>, list: seq<Obj>, i: nat, j: nat)
    requires Orderable([o], Envs(xs)) && OrderedBy([o], xs, list) && i < j < |list|
    ensures var a, b := Column(o, Fields(list[i])), Column(o, Fields(list[j]));
            var (lower, upper) := if o.direction.Desc? then (b, a) else (a, b);
            && (upper.NullV? ==> lower.NullV?)
            && (lower.IntV? && upper.IntV? && lower.t == upper.t ==> lower.v <= upper.v)
            && (lower.FloatV? && upper.FloatV? && lower.bits == upper.bits ==> lower.r <= upper.r)
            && (lower.StringV? && upper.StringV? ==> lower.s == upper.s || CacheScan.Less(lower.s, upper.s))
  {
    hide Fields, Orderable, Column, OrderedBy, CacheScan.Less;
    RowsAscend([o], xs, list);
    assert InTurn([o], list[i], list[j]);
    var k :| 0 <= k <= 1 && ComesBefore([o], Fields(list[i]), Fields(list[j]), k);
    assert k == 1 ==> Ties(Column([o][0], Fields(list[i])), Column([o][0], Fields(list[j])));
    assert k == 0 ==> Precedes(o.direction, Column(o, Fields(list[i])), Column(o, Fields(list[j])));
    var a, b := Column(o, Fields(list[i])), Column(o, Fields(list[j]));
    if a.StringV? && b.StringV? {
      CacheScan.LessTotal(a.s, b.s);
    }
  }

  // ----- The pipeline -----

  datatype Answered = Rows(total: nat, rows: seq<Obj>) | QueryFails | SlicePanics

  /** Everything below `base` that is wanted. */
  function Results(es: Entries, base: string, view: bool, truth: Api, w: Where): seq<Obj>
    requires Grammatical(w)
  {
    Select(Objects(Extending(es, base)), o => Wanted(view, truth, w, o))
  }

  lemma {:induction false} SelectLength<T>(os: seq<T>, p: T -> bool)
    ensures |Select(os, p)| <= |os|
  {
    if os != [] {
      SelectLength(os[1..], p);
    }
  }

  lemma {:induction false} ExtendingLength(es: Entries, p: string)
    ensures |Extending(es, p)| <= |es|
  {
    if es != [] {
      ExtendingLength(es[1..], p);
    }
  }

  function KeyOf(w: Where, ks: seq<string>): string { if w.Such? then KeyPrefix(w.e, ks) else "" }

  /** LIKE with the path on the right counts only against values without wildcards. */
  predicate Eligible(w: Where, ks: seq<string>, es: Entries, base: string, parts: Obj -> seq<string>) {
    w.Such? && ks != [] ==> NoReversedLike(w.e, ks[|ks| - 1]) || PlainEnds(es, base, parts)
  }

  /** Scanning only below the pushed-down key loses no result. */
  lemma NarrowIsEnough(es: Entries, base: string, ks: seq<string>, parts: Obj -> seq<string>, view: bool, truth: Api, w: Where)
    requires Grammatical(w) && LaidOut(es, base, ks, Fields, parts) && Eligible(w, ks, es, base, parts)
    ensures Results(es, base + KeyOf(w, ks), view, truth, w) == Results(es, base, view, truth, w)
  {
    hide LaidOut, KeyPrefix, Holds, Fields, NoReversedLike, PlainEnds, Readable, Select, Extending, Objects;
    if w.Such? {
      PushDown(es, base, w.e, ks, Fields, parts, o => Wanted(view, truth, w, o));
    } else {
      assert base + "" == base;
    }
  }

  /** The rows of the page of `list`, with the list's length. */
  predicate IsPage(r: Answered, list: seq<Obj>, offset: Optional, first: Optional)
    requires first.Some? ==> IsInt(first.v)
  {
    |list| <= MAX_INT && !Overflows(offset, first, |list|) && r == Rows(|list|, Page(list, offset, first))
  }

  /** What a query answers that scans everything below `base`: a page of the ordered list of everything wanted there. It fails
      exactly when an object there breaks the scan, and otherwise panics exactly when the bounds overflow. */
  ghost predicate Correct(r: Answered, es: Entries, base: string, view: bool, truth: Api, w: Where,
                          orders: seq<Order>, offset: Optional, first: Optional)
    requires Grammatical(w) && (first.Some? ==> IsInt(first.v))
  {
    var all := Results(es, base, view, truth, w);
    if exists o :: o in Objects(Extending(es, base)) && Breaks(view, truth, w, o) then r == QueryFails
    else if Overflows(offset, first, |all|) then r == SlicePanics
    else exists list :: OrderedBy(orders, all, list) && IsPage(r, list, offset, first)
  }

  method RunQuery(cache: ObjectCache, rbac: KubernetesRbac, view: bool, api: Api, base: string, ks: seq<string>,
                  w: Where, orders: seq<Order>, offset: Optional, first: Optional)
    returns (r: Answered)
    requires cache.Valid() && |cache.entries| <= MAX_INT && Grammatical(w) && (first.Some? ==> IsInt(first.v))
    modifies rbac
    ensures Faithful(rbac.State(), api, Known(old(rbac.State()), api))
    ensures Correct(r, cache.entries, base + KeyOf(w, ks), view, Known(old(rbac.State()), api), w, orders, offset, first)
  {
    hide KeyPrefix, QueryFilter, Breaks, Wanted, Select, Extending, Objects, InOrder, RunFilter, Sorted, Orderable;
    var key := "";
    if w.Such? {
      key := BuildKey(w.e, ks);
      assert key == KeyPrefix(w.e, ks) by { PrefixIs(w.e, ks); }
    }
    ghost var truth, all := Known(rbac.State(), api), Objects(Extending(cache.entries, base + key));
    FilterRun(view, api, truth, w, all, rbac.State());
    ExtendingLength(cache.entries, base + key);
    SelectLength(all, o => Wanted(view, truth, w, o));
    var found := Get(cache.entries, base + key, rbac.State(), QueryFilter(view, api, w));
    rbac.cached, rbac.cacheUpdated := found.state.cached, found.state.updated;
    if found.failed {
      return QueryFails;
    }
    var objects := Sort(orders, found.objs);
    SameLength(objects, found.objs);
    var (lower, upper) := CalcLowerUpper(offset, first, |objects|);
    BoundsExact(offset, first, |objects|);
    if !(0 <= lower <= upper <= |objects|) {
      return SlicePanics;
    }
    r := Rows(|objects|, objects[lower..upper]);
    assert IsPage(r, objects, offset, first);
  }

  lemma SameLength<T>(a: seq<T>, b: seq<T>)
    requires multiset(a) == multiset(b)
    ensures |a| == |b|
  {
    assert |multiset(a)| == |a| && |multiset(b)| == |b|;
  }

  lemma PrefixIs(e: Expr, ks: seq<string>)
    ensures KeyPrefix(e, ks) == Join(if |Elements(e, ks)| < |ks| then Elements(e, ks) + [""] else Elements(e, ks))
  {
  }

  // ----- Who sees what -----

  /** The query fails exactly when an object that it scans is broken. Otherwise its rows are cached objects to be shown; and if
      scanning just the keys below `base` loses nothing, their total is exact. */
  ghost predicate Shows(r: Answered, es: Entries, base: string, want: Obj -> bool, broken: Obj -> bool, exact: bool) {
    && (r.QueryFails? <==> exists e :: e in es && base < e.key && broken(e.obj))
    && (r.Rows? ==> (forall o :: o in r.rows ==> o in Objects(es) && want(o)) && (exact ==> r.total == |Select(Objects(es), want)|))
  }

  /** Under `top` lie exactly the objects that can be wanted. */
  ghost predicate WantedBelow(es: Entries, top: string, view: bool, truth: Api, w: Where, want: Obj -> bool)
    requires Grammatical(w)
  {
    forall e :: e in es ==> (want(e.obj) <==> top < e.key && Wanted(view, truth, w, e.obj))
  }

  ghost predicate BrokenBelow(es: Entries, top: string, view: bool, truth: Api, w: Where, broken: Obj -> bool)
    requires Grammatical(w)
  {
    forall e :: e in es && top < e.key ==> (broken(e.obj) <==> Breaks(view, truth, w, e.obj))
  }

  lemma {:induction false} SelectBelow(es: Entries, top: string, p: Obj -> bool, want: Obj -> bool)
    requires forall e :: e in es ==> (want(e.obj) <==> top < e.key && p(e.obj))
    ensures Select(Objects(Extending(es, top)), p) == Select(Objects(es), want)
    decreases |es|
  {
    hide Extending, Select;
    if es == [] {
      NoResults(top, p, want);
    } else {
      SelectStep(es, top, p);
      SelectNext(es, want);
      SelectBelow(es[1..], top, p, want);
      assert es[0] in es;
    }
  }

  lemma ResultsAre(es: Entries, top: string, view: bool, truth: Api, w: Where, want: Obj -> bool)
    requires Grammatical(w) && WantedBelow(es, top, view, truth, w, want)
    ensures Results(es, top, view, truth, w) == Select(Objects(es), want)
  {
    hide Wanted;
    SelectBelow(es, top, o => Wanted(view, truth, w, o), want);
  }

  lemma NoResults(top: string, p: Obj -> bool, q: Obj -> bool)
    ensures Select(Objects(Extending([], top)), p) == [] == Select(Objects<Obj>([]), q)
  {
  }

  lemma SelectNext(es: Entries, want: Obj -> bool)
    requires es != []
    ensures Select(Objects(es), want) == (if want(es[0].obj) then [es[0].obj] else []) + Select(Objects(es[1..]), want)
  {
    assert Objects(es)[1..] == Objects(es[1..]);
  }

  lemma {:induction false} SelectedIn<T>(os: seq<T>, p: T -> bool, o: T)
    ensures o in Select(os, p) <==> o in os && p(o)
  {
    if os != [] {
      SelectedIn(os[1..], p, o);
      assert os == [os[0]] + os[1..];
    }
  }

  lemma ResultIn(es: Entries, base: string, view: bool, truth: Api, w: Where, o: Obj)
    requires Grammatical(w) && o in Results(es, base, view, truth, w)
    ensures o in Objects(es) && Wanted(view, truth, w, o) && exists e :: e in es && e.obj == o && base < e.key
  {
    hide Wanted;
    SelectedIn(Objects(Extending(es, base)), o => Wanted(view, truth, w, o), o);
    ObjectsIn(Extending(es, base), o);
    ObjectsIn(es, o);
  }

  lemma RowsAreResults(r: Answered, es: Entries, base: string, view: bool, truth: Api, w: Where,
                       orders: seq<Order>, offset: Optional, first: Optional)
    requires Grammatical(w) && (first.Some? ==> IsInt(first.v)) && r.Rows?
    requires Correct(r, es, base, view, truth, w, orders, offset, first)
    ensures r.total == |Results(es, base, view, truth, w)| && forall o :: o in r.rows ==> o in Results(es, base, view, truth, w)
  {
    hide Results, Breaks, OrderedBy;
    var all := Results(es, base, view, truth, w);
    var list :| OrderedBy(orders, all, list) && IsPage(r, list, offset, first);
    assert multiset(list) == multiset(all) by { Rearranged(orders, all, list); }
    SameLength(list, all);
    PageIsWindow(list, offset, first);
    forall o | o in r.rows
      ensures o in all
    {
      assert o in list && multiset(list)[o] > 0;
    }
  }

  lemma Rearranged(orders: seq<Order>, xs: seq<Obj>, list: seq<Obj>)
    requires OrderedBy(orders, xs, list)
    ensures multiset(list) == multiset(xs)
  {
  }

  lemma FailsWhenBroken(r: Answered, es: Entries, base: string, view: bool, truth: Api, w: Where,
                        orders: seq<Order>, offset: Optional, first: Optional)
    requires Grammatical(w) && (first.Some? ==> IsInt(first.v)) && Correct(r, es, base, view, truth, w, orders, offset, first)
    ensures r.QueryFails? <==> exists e :: e in es && base < e.key && Breaks(view, truth, w, e.obj)
  {
    hide Results, Breaks, OrderedBy, Objects;
    forall o: Obj
      ensures o in Objects(Extending(es, base)) <==> exists e :: e in es && base < e.key && e.obj == o
    {
      ObjectsIn(Extending(es, base), o);
    }
  }

  lemma Showing(r: Answered, es: Entries, top: string, key: string, view: bool, truth: Api, w: Where,
                orders: seq<Order>, offset: Optional, first: Optional, want: Obj -> bool, broken: Obj -> bool, exact: bool)
    requires Grammatical(w) && (first.Some? ==> IsInt(first.v))
    requires WantedBelow(es, top, view, truth, w, want) && BrokenBelow(es, top, view, truth, w, broken)
    requires Correct(r, es, top + key, view, truth, w, orders, offset, first)
    requires exact ==> Results(es, top + key, view, truth, w) == Results(es, top, view, truth, w)
    ensures Shows(r, es, top + key, want, broken, exact)
  {
    hide Results, Correct, Wanted, Breaks, Select, Objects;
    FailsWhenBroken(r, es, top + key, view, truth, w, orders, offset, first);
    assert forall e :: e in es && top + key < e.key ==> top < e.key;
    if r.Rows? {
      RowsAreResults(r, es, top + key, view, truth, w, orders, offset, first);
      ResultsAre(es, top, view, truth, w, want);
      forall o | o in r.rows
        ensures o in Objects(es) && want(o)
      {
        ResultIn(es, top + key, view, truth, w, o);
        var e :| e in es && e.obj == o && top + key < e.key;
        assert top < e.key;
      }
    }
  }

  /** A path of the filter fails on the object. */
  predicate PathBreaks(w: Where, o: Obj)
    requires Grammatical(w)
  {
    w.Such? && Fails(w.e, Fields(o))
  }

  predicate AddressShown(truth: Api, w: Where, o: Obj)
    requires Grammatical(w)
  {
    o.Address? && MayGet(truth, "addresses", o.namespace) && Meets(w, o)
  }

  predicate AddressBroken(truth: Api, w: Where, o: Obj)
    requires Grammatical(w)
  {
    o.Address? && (NoAnswer(truth, "addresses", o.namespace) || (MayGet(truth, "addresses", o.namespace) && PathBreaks(w, o)))
  }

  predicate ConnectionShown(truth: Api, w: Where, o: Obj)
    requires Grammatical(w)
  {
    o.Connection? && MayGet(truth, "addressspaces", o.namespace) && Meets(w, o)
  }

  predicate ConnectionBroken(truth: Api, w: Where, o: Obj)
    requires Grammatical(w)
  {
    o.Connection? && (NoAnswer(truth, "addressspaces", o.namespace) || (MayGet(truth, "addressspaces", o.namespace) && PathBreaks(w, o)))
  }

  predicate LinkShown(id: Agents.Id, w: Where, o: Obj)
    requires Grammatical(w)
  {
    o.Link? && Agents.Owner(o) == id && Meets(w, o)
  }

  lemma AddressesBelow(es: Entries, truth: Api, w: Where)
    requires Grammatical(w) && Keyed(es)
    ensures WantedBelow(es, "Address/", true, truth, w, o => AddressShown(truth, w, o))
    ensures BrokenBelow(es, "Address/", true, truth, w, o => AddressBroken(truth, w, o))
  {
    hide Meets, PathBreaks, IndexKey, Readable, Undecided, MayGet, NoAnswer, HasKey;
    forall e | e in es
      ensures AddressShown(truth, w, e.obj) <==> "Address/" < e.key && Wanted(true, truth, w, e.obj)
      ensures "Address/" < e.key ==> (AddressBroken(truth, w, e.obj) <==> Breaks(true, truth, w, e.obj))
    {
      ResourceWatcher.PrefixIsKind(ResourceWatcher.Addresses, e.obj);
      Reviewed(e.obj, truth);
      KeyEnds(e.obj);
      BreaksBy(true, truth, w, e.obj);
    }
  }

  lemma BreaksBy(view: bool, truth: Api, w: Where, o: Obj)
    requires Grammatical(w)
    ensures Breaks(view, truth, w, o) <==> (view && Undecided(o, truth)) || ((view ==> Readable(o, truth)) && PathBreaks(w, o))
  {
    hide Readable, Undecided;
  }

  lemma ConnectionsBelow(es: Entries, truth: Api, w: Where)
    requires Grammatical(w) && Keyed(es)
    ensures WantedBelow(es, "Connection/", true, truth, w, o => ConnectionShown(truth, w, o))
    ensures BrokenBelow(es, "Connection/", true, truth, w, o => ConnectionBroken(truth, w, o))
  {
    hide Meets, PathBreaks, IndexKey, Readable, Undecided, MayGet, NoAnswer, HasKey;
    forall e | e in es
      ensures ConnectionShown(truth, w, e.obj) <==> "Connection/" < e.key && Wanted(true, truth, w, e.obj)
      ensures "Connection/" < e.key ==> (ConnectionBroken(truth, w, e.obj) <==> Breaks(true, truth, w, e.obj))
    {
      ConnectionPrefix(e.obj);
      Reviewed(e.obj, truth);
      KeyEnds(e.obj);
      BreaksBy(true, truth, w, e.obj);
    }
  }

  lemma LinksBelow(es: Entries, id: Agents.Id, truth: Api, w: Where)
    requires Grammatical(w) && Keyed(es) && Agents.Proper(id) && AllClean(es)
    ensures WantedBelow(es, LinkBase(id), false, truth, w, o => LinkShown(id, w, o))
    ensures BrokenBelow(es, LinkBase(id), false, truth, w, o => PathBreaks(w, o))
  {
    hide Meets, PathBreaks, IndexKey, Readable, Undecided, HasKey, LinkBase, Agents.Clean, Agents.Proper;
    forall e | e in es
      ensures LinkShown(id, w, e.obj) <==> LinkBase(id) < e.key && Wanted(false, truth, w, e.obj)
      ensures PathBreaks(w, e.obj) <==> Breaks(false, truth, w, e.obj)
    {
      LinkBasePicks(id, e.obj);
      BreaksBy(false, truth, w, e.obj);
      LinkKeyEnds(id, e.obj);
    }
  }

  lemma LinkKeyEnds(id: Agents.Id, o: Obj)
    requires HasKey(o) && Agents.Clean(o) && Agents.Proper(id)
    ensures IndexKey(o) != LinkBase(id)
  {
    var k, b := IndexKey(o), LinkBase(id);
    assert k[|k| - 1] == NUL && b[|b| - 1] == '/';
  }

  /** No key is just a kind and a slash: it ends in NUL. */
  lemma KeyEnds(o: Obj)
    ensures IndexKey(o) != "Address/" && IndexKey(o) != "Connection/"
  {
    var k := IndexKey(o);
    assert k[|k| - 1] == NUL;
  }

  // ----- The three queries whose filters are pushed down -----

  ghost predicate Keyed(es: Entries) { forall e :: e in es ==> HasKey(e.obj) && e.key == IndexKey(e.obj) }

  const ADDRESS_KEYS := ["$.metadata.namespace", "$.metadata.name"]

  const CONNECTION_KEYS := ["$.metadata.namespace", "$.spec.addressSpace", "$.metadata.name"]

  const LINK_KEYS := ["$.metadata.name"]

  function AddressParts(o: Obj): seq<string> { if o.Address? then [o.namespace, o.name] else [] }

  function ConnectionParts(o: Obj): seq<string> { if o.Connection? then [o.namespace, o.addressSpace, o.name] else [] }

  function LinkParts(o: Obj): seq<string> { if o.Link? then [o.name] else [] }

  lemma Joined(a: string, b: string, c: string)
    ensures Join([a]) == a && Join([a, b]) == a + "/" + b && Join([a, b, c]) == a + "/" + (b + "/" + c)
  {
    assert [a, b, c][1..] == [b, c] && [b, c][1..] == [c] && [a, b][1..] == [b];
    assert Join([b, c]) == b + "/" + c;
  }

  lemma AddressShape(o: Obj)
    requires HasKey(o) && "Address/" <= IndexKey(o)
    ensures Yields(Fields(o), ADDRESS_KEYS, AddressParts(o)) && IndexKey(o) == "Address/" + Join(AddressParts(o)) + [NUL]
  {
    hide Join;
    ResourceWatcher.PrefixIsKind(ResourceWatcher.Addresses, o);
    Joined(o.namespace, o.name, "");
  }

  lemma AddressLayout(es: Entries)
    requires Keyed(es)
    ensures LaidOut(es, "Address/", ADDRESS_KEYS, Fields, AddressParts)
  {
    hide IndexKey, Join, Yields, Fields, AddressParts, HasKey;
    forall i | 0 <= i < |es| && "Address/" < es[i].key
      ensures Yields(Fields(es[i].obj), ADDRESS_KEYS, AddressParts(es[i].obj))
      ensures es[i].key == "Address/" + Join(AddressParts(es[i].obj)) + [NUL]
    {
      assert es[i] in es;
      AddressShape(es[i].obj);
    }
  }

  lemma ConnectionPrefix(o: Obj)
    requires HasKey(o)
    ensures "Connection/" <= IndexKey(o) <==> o.Connection?
  {
    hide Place, IsClusterKind;
    ResourceWatcher.KindsAreParts(KindOf(o));
    ResourceWatcher.KindsAreParts("Connection");
    PartPrefix("Connection", [], KindOf(o), Place(o) + [NUL]);
    assert KindOf(o) + "/" + (Place(o) + [NUL]) == IndexKey(o) && "Connection" + "/" + [] == "Connection/";
  }

  lemma ConnectionShape(o: Obj)
    requires HasKey(o) && "Connection/" <= IndexKey(o)
    ensures Yields(Fields(o), CONNECTION_KEYS, ConnectionParts(o)) && IndexKey(o) == "Connection/" + Join(ConnectionParts(o)) + [NUL]
  {
    hide Join;
    ConnectionPrefix(o);
    Joined(o.namespace, o.addressSpace, o.name);
  }

  lemma ConnectionLayout(es: Entries)
    requires Keyed(es)
    ensures LaidOut(es, "Connection/", CONNECTION_KEYS, Fields, ConnectionParts)
  {
    hide IndexKey, Join, Yields, Fields, ConnectionParts, HasKey;
    forall i | 0 <= i < |es| && "Connection/" < es[i].key
      ensures Yields(Fields(es[i].obj), CONNECTION_KEYS, ConnectionParts(es[i].obj))
      ensures es[i].key == "Connection/" + Join(ConnectionParts(es[i].obj)) + [NUL]
    {
      assert es[i] in es;
      ConnectionShape(es[i].obj);
    }
  }

  function LinkBase(id: Agents.Id): string { Agents.Under("Link", id, "/") }

  lemma LinkBasePicks(id: Agents.Id, o: Obj)
    requires HasKey(o) && Agents.Clean(o) && Agents.Proper(id)
    ensures LinkBase(id) <= IndexKey(o) <==> o.Link? && Agents.Owner(o) == id
    ensures o.Link? && Agents.Owner(o) == id ==> IndexKey(o) == LinkBase(id) + o.name + [NUL]
  {
    if Agents.Attached(o) {
      var by_ := Agents.Owner(o);
      Agents.KeyShape(o);
      Agents.UnderPrefix("Link", id, "/", KindOf(o), by_, Agents.Rest(o));
      if o.Link? {
        PartPrefix(id.uuid, [], by_.uuid, o.name + [NUL]);
        assert id.uuid + "/" + [] == id.uuid + "/" && by_.uuid + "/" + (o.name + [NUL]) == by_.uuid + Agents.Rest(o);
        if by_ == id {
          Agents.Assoc4("Link", id.namespace, id.addressSpace, id.uuid + "/", o.name + [NUL]);
          assert LinkBase(id) + o.name + [NUL] == LinkBase(id) + (o.name + [NUL]);
        }
      }
    } else {
      Agents.PrefixSkips("Link", id, o);
      assert Agents.Under("Link", id, []) <= LinkBase(id);
    }
  }

  predicate AllClean(es: Entries) { forall e :: e in es ==> Agents.Clean(e.obj) }

  lemma LinkLayout(es: Entries, id: Agents.Id)
    requires Keyed(es) && Agents.Proper(id) && AllClean(es)
    ensures LaidOut(es, LinkBase(id), LINK_KEYS, Fields, LinkParts)
  {
    hide Agents.Clean, LinkBase;
    forall i | 0 <= i < |es| && LinkBase(id) < es[i].key
      ensures Yields(Fields(es[i].obj), LINK_KEYS, LinkParts(es[i].obj))
      ensures es[i].key == LinkBase(id) + Join(LinkParts(es[i].obj)) + [NUL]
    {
      assert es[i] in es;
      LinkBasePicks(id, es[i].obj);
      Joined(es[i].obj.name, "", "");
    }
  }

  method Addresses(cache: ObjectCache, rbac: KubernetesRbac, api: Api, w: Where, orders: seq<Order>, offset: Optional, first: Optional)
    returns (r: Answered)
    requires cache.Valid() && |cache.entries| <= MAX_INT && Grammatical(w) && (first.Some? ==> IsInt(first.v))
    modifies rbac
    ensures Faithful(rbac.State(), api, Known(old(rbac.State()), api))
    ensures Correct(r, cache.entries, "Address/" + KeyOf(w, ADDRESS_KEYS), true, Known(old(rbac.State()), api), w, orders, offset, first)
    ensures Eligible(w, ADDRESS_KEYS, cache.entries, "Address/", AddressParts) ==>
              Results(cache.entries, "Address/" + KeyOf(w, ADDRESS_KEYS), true, Known(old(rbac.State()), api), w) ==
              Results(cache.entries, "Address/", true, Known(old(rbac.State()), api), w)
    ensures Shows(r, cache.entries, "Address/" + KeyOf(w, ADDRESS_KEYS), o => AddressShown(Known(old(rbac.State()), api), w, o),
                  o => AddressBroken(Known(old(rbac.State()), api), w, o), Eligible(w, ADDRESS_KEYS, cache.entries, "Address/", AddressParts))
  {
    hide LaidOut, Eligible, Correct, Results, Faithful, WantedBelow, BrokenBelow, Shows, AddressShown, AddressBroken;
    ghost var truth := Known(rbac.State(), api);
    AddressLayout(cache.entries);
    if Eligible(w, ADDRESS_KEYS, cache.entries, "Address/", AddressParts) {
      NarrowIsEnough(cache.entries, "Address/", ADDRESS_KEYS, AddressParts, true, Known(rbac.State(), api), w);
    }
    r := RunQuery(cache, rbac, true, api, "Address/", ADDRESS_KEYS, w, orders, offset, first);
    AddressesBelow(cache.entries, truth, w);
    Showing(r, cache.entries, "Address/", KeyOf(w, ADDRESS_KEYS), true, truth, w, orders, offset, first,
            o => AddressShown(truth, w, o), o => AddressBroken(truth, w, o),
            Eligible(w, ADDRESS_KEYS, cache.entries, "Address/", AddressParts));
  }

  method Connections(cache: ObjectCache, rbac: KubernetesRbac, api: Api, w: Where, orders: seq<Order>, offset: Optional, first: Optional)
    returns (r: Answered)
    requires cache.Valid() && |cache.entries| <= MAX_INT && Grammatical(w) && (first.Some? ==> IsInt(first.v))
    modifies rbac
    ensures Faithful(rbac.State(), api, Known(old(rbac.State()), api))
    ensures Correct(r, cache.entries, "Connection/" + KeyOf(w, CONNECTION_KEYS), true, Known(old(rbac.State()), api), w, orders, offset, first)
    ensures Eligible(w, CONNECTION_KEYS, cache.entries, "Connection/", ConnectionParts) ==>
              Results(cache.entries, "Connection/" + KeyOf(w, CONNECTION_KEYS), true, Known(old(rbac.State()), api), w) ==
              Results(cache.entries, "Connection/", true, Known(old(rbac.State()), api), w)
    ensures Shows(r, cache.entries, "Connection/" + KeyOf(w, CONNECTION_KEYS), o => ConnectionShown(Known(old(rbac.State()), api), w, o),
                  o => ConnectionBroken(Known(old(rbac.State()), api), w, o),
                  Eligible(w, CONNECTION_KEYS, cache.entries, "Connection/", ConnectionParts))
  {
    hide LaidOut, Eligible, Correct, Results, Faithful, WantedBelow, BrokenBelow, Shows, ConnectionShown, ConnectionBroken;
    ghost var truth := Known(rbac.State(), api);
    ConnectionLayout(cache.entries);
    if Eligible(w, CONNECTION_KEYS, cache.entries, "Connection/", ConnectionParts) {
      NarrowIsEnough(cache.entries, "Connection/", CONNECTION_KEYS, ConnectionParts, true, Known(rbac.State(), api), w);
    }
    r := RunQuery(cache, rbac, true, api, "Connection/", CONNECTION_KEYS, w, orders, offset, first);
    ConnectionsBelow(cache.entries, truth, w);
    Showing(r, cache.entries, "Connection/", KeyOf(w, CONNECTION_KEYS), true, truth, w, orders, offset, first,
            o => ConnectionShown(truth, w, o), o => ConnectionBroken(truth, w, o),
            Eligible(w, CONNECTION_KEYS, cache.entries, "Connection/", ConnectionParts));
  }

  /** The links of one connection; who may see the connection sees them all. */
  method Links(cache: ObjectCache, rbac: KubernetesRbac, api: Api, id: Agents.Id, w: Where, orders: seq<Order>, offset: Optional, first: Optional)
    returns (r: Answered)
    requires cache.Valid() && |cache.entries| <= MAX_INT && Grammatical(w) && (first.Some? ==> IsInt(first.v))
    modifies rbac
    ensures Faithful(rbac.State(), api, Known(old(rbac.State()), api))
    ensures Correct(r, cache.entries, LinkBase(id) + KeyOf(w, LINK_KEYS), false, Known(old(rbac.State()), api), w, orders, offset, first)
    ensures Eligible(w, LINK_KEYS, cache.entries, LinkBase(id), LinkParts) && Agents.Proper(id) && AllClean(cache.entries) ==>
              Results(cache.entries, LinkBase(id) + KeyOf(w, LINK_KEYS), false, Known(old(rbac.State()), api), w) ==
              Results(cache.entries, LinkBase(id), false, Known(old(rbac.State()), api), w)
    ensures Agents.Proper(id) && AllClean(cache.entries) ==>
              Shows(r, cache.entries, LinkBase(id) + KeyOf(w, LINK_KEYS), o => LinkShown(id, w, o), o => PathBreaks(w, o),
                    Eligible(w, LINK_KEYS, cache.entries, LinkBase(id), LinkParts))
  {
    hide LaidOut, Eligible, LinkBase, Correct, Results, Faithful, WantedBelow, BrokenBelow, Shows, LinkShown, PathBreaks, AllClean, Agents.Proper;
    ghost var truth := Known(rbac.State(), api);
    if Eligible(w, LINK_KEYS, cache.entries, LinkBase(id), LinkParts) && Agents.Proper(id) && AllClean(cache.entries) {
      LinkLayout(cache.entries, id);
      NarrowIsEnough(cache.entries, LinkBase(id), LINK_KEYS, LinkParts, false, Known(rbac.State(), api), w);
    }
    r := RunQuery(cache, rbac, false, api, LinkBase(id), LINK_KEYS, w, orders, offset, first);
    if Agents.Proper(id) && AllClean(cache.entries) {
      LinksBelow(cache.entries, id, truth, w);
      Showing(r, cache.entries, LinkBase(id), KeyOf(w, LINK_KEYS), false, truth, w, orders, offset, first,
              o => LinkShown(id, w, o), o => PathBreaks(w, o), Eligible(w, LINK_KEYS, cache.entries, LinkBase(id), LinkParts));
    }
  }
}

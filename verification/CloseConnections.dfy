/** Closing connections by name: one scan whose filter takes each request off the list when it is served
    and stops when the list is empty (pkg/consolegraphql/resolvers/resolver_connection.go:166-197). */
module CloseConnections {
  import opened CacheScan
  import opened ConsoleCache
  import opened AccessControl
  import opened IndexPushDown
  import opened Query

  datatype Request = Request(namespace: string, name: string)

  /** The position of the first request for a name. */
  function Find(rs: seq<Request>, x: Request): (i: int)
    ensures -1 <= i < |rs| && (i < 0 <==> x !in rs)
    ensures i >= 0 ==> rs[i] == x && x !in rs[..i]
  {
    if rs == [] then -1
    else if rs[0] == x then 0
    else
      var i := Find(rs[1..], x);
      if i < 0 then -1 else
      assert rs[..i + 1] == [rs[0]] + rs[1..][..i];
      i + 1
  }

  function DropFirst(rs: seq<Request>, x: Request): seq<Request> {
    var i := Find(rs, x);
    if i < 0 then rs else rs[..i] + rs[i + 1..]
  }

  function NameOf(o: Obj): Request { if o.Connection? then Request(o.namespace, o.name) else Request("", "") }

  /** What the filter captures: the access decisions and the requests left. */
  datatype Session = Session(memo: Memo, requests: seq<Request>)

  function SessionView(api: Api): Filter<Session, Obj> {
    (s: Session, o: Obj) => var (m, v) := ViewFilter(api)(s.memo, o); (s.(memo := m), v)
  }

  /** connFilter. */
  function Serving(s: Session, o: Obj): (Session, Verdict) {
    if !o.Connection? then (s, Verdict(false, false, true))
    else if NameOf(o) in s.requests then
      var left := DropFirst(s.requests, NameOf(o));
      (s.(requests := left), Verdict(true, |left| > 0, false))
    else (s, Verdict(false, |s.requests| > 0, false))
  }

  // ----- What is served, said without a running list -----

  /** The connections returned: each one before which fewer of its name were seen than are requested. */
  function Served(vs: seq<Obj>, asked: multiset<Request>, seen: multiset<Request>): seq<Obj> {
    if vs == [] then []
    else
      var x := NameOf(vs[0]);
      (if seen[x] < asked[x] then [vs[0]] else []) + Served(vs[1..], asked, seen + multiset{x})
  }

  /** The requests left: each one before which as many of its name were made as connections of that name were seen. */
  function Unserved(before: multiset<Request>, rs: seq<Request>, seen: multiset<Request>): seq<Request>
    decreases |rs|
  {
    if rs == [] then []
    else (if before[rs[0]] < seen[rs[0]] then [] else [rs[0]]) + Unserved(before + multiset{rs[0]}, rs[1..], seen)
  }

  function Names(vs: seq<Obj>): multiset<Request> {
    if vs == [] then multiset{} else multiset{NameOf(vs[0])} + Names(vs[1..])
  }

  lemma {:induction false} UnservedHas(before: multiset<Request>, rs: seq<Request>, seen: multiset<Request>, x: Request)
    ensures x in Unserved(before, rs, seen) <==> x in rs && before[x] + multiset(rs)[x] > seen[x]
    decreases |rs|
  {
    if rs != [] {
      UnservedHas(before + multiset{rs[0]}, rs[1..], seen, x);
      assert rs == [rs[0]] + rs[1..];
    }
  }

  lemma DropFirstCons(r: Request, rs: seq<Request>, x: Request)
    ensures DropFirst([r] + rs, x) == if r == x then rs else [r] + DropFirst(rs, x)
  {
    assert ([r] + rs)[1..] == rs;
  }

  /** Seeing one more connection takes the first request for it that is left off the list. */
  lemma {:induction false} UnservedStep(before: multiset<Request>, rs: seq<Request>, seen: multiset<Request>, x: Request)
    ensures var was := Unserved(before, rs, seen);
            Unserved(before, rs, seen + multiset{x}) == if before[x] > seen[x] then was else DropFirst(was, x)
    decreases |rs|
  {
    hide DropFirst;
    if rs == [] {
      assert DropFirst([], x) == [] by { DropFirstNone(x); }
    } else {
      var r := rs[0];
      UnservedStep(before + multiset{r}, rs[1..], seen, x);
      DropFirstCons(r, Unserved(before + multiset{r}, rs[1..], seen), x);
      assert [] + Unserved(before + multiset{r}, rs[1..], seen) == Unserved(before + multiset{r}, rs[1..], seen);
    }
  }

  lemma DropFirstNone(x: Request)
    ensures DropFirst([], x) == []
  {
  }

  lemma {:induction false} UnservedAll(before: multiset<Request>, rs: seq<Request>)
    ensures Unserved(before, rs, multiset{}) == rs
    decreases |rs|
  {
    if rs != [] {
      UnservedAll(before + multiset{rs[0]}, rs[1..]);
      assert rs == [rs[0]] + rs[1..];
    }
  }

  // ----- The scan -----

  /** With every request served, nothing more would be. */
  lemma {:induction false} NothingLeft(vs: seq<Obj>, rs: seq<Request>, seen: multiset<Request>)
    requires Unserved(multiset{}, rs, seen) == []
    ensures Served(vs, multiset(rs), seen) == [] && Unserved(multiset{}, rs, seen + Names(vs)) == []
    decreases |vs|
  {
    hide Unserved;
    if vs == [] {
      assert seen + Names(vs) == seen;
    } else {
      var x := NameOf(vs[0]);
      UnservedHas(multiset{}, rs, seen, x);
      UnservedStep(multiset{}, rs, seen, x);
      assert DropFirst([], x) == [] by { DropFirstNone(x); }
      NothingLeft(vs[1..], rs, seen + multiset{x});
      assert seen + multiset{x} + Names(vs[1..]) == seen + Names(vs);
    }
  }

  lemma ServingStep(rs: seq<Request>, seen: multiset<Request>, s: Session, o: Obj)
    requires o.Connection? && s.requests == Unserved(multiset{}, rs, seen)
    ensures var (s1, v) := Serving(s, o);
            && s1.memo == s.memo && s1.requests == Unserved(multiset{}, rs, seen + multiset{NameOf(o)})
            && v == Verdict(seen[NameOf(o)] < multiset(rs)[NameOf(o)], s1.requests != [], false)
  {
    hide Unserved;
    var x := NameOf(o);
    UnservedHas(multiset{}, rs, seen, x);
    UnservedStep(multiset{}, rs, seen, x);
  }

  function Visible(os: seq<Obj>, truth: Api): seq<Obj> { Select(os, o => Readable(o, truth)) }

  function CloseFilter(api: Api): Filter<Session, Obj> { And(SessionView(api), Serving) }

  lemma CloseStep(api: Api, truth: Api, s: Session, o: Obj)
    requires Faithful(s.memo, api, truth)
    ensures var (s1, v) := CloseFilter(api)(s, o);
            && Faithful(s1.memo, api, truth)
            && (if Undecided(o, truth) then v.failed && s1.requests == s.requests
                else if Readable(o, truth) then
                  var (t, u) := Serving(s, o);
                  s1.requests == t.requests && v == (if u.failed then Verdict(false, false, true) else u)
                else s1.requests == s.requests && v == Verdict(false, true, false))
  {
    hide ViewFilter, DropFirst, Faithful;
    ViewDecides(s.memo, o, api, truth);
    var (m, v) := ViewFilter(api)(s.memo, o);
    assert Serving(s.(memo := m), o).0.requests == Serving(s, o).0.requests;
  }

  lemma VisibleStep(os: seq<Obj>, truth: Api)
    requires os != []
    ensures Visible(os, truth) == (if Readable(os[0], truth) then [os[0]] else []) + Visible(os[1..], truth)
  {
  }

  /** The scan is still going on after the visible connections `vs`: there were none, or a request is left. */
  predicate Open(vs: seq<Obj>, rs: seq<Request>, seen: multiset<Request>) {
    vs == [] || Unserved(multiset{}, rs, seen + Names(vs)) != []
  }

  /** The scan gets to a connection whose review is unanswered. */
  predicate FailsAt(os: seq<Obj>, truth: Api, rs: seq<Request>, seen: multiset<Request>, i: nat)
    requires i < |os|
  {
    Undecided(os[i], truth) && Open(Visible(os[..i], truth), rs, seen)
  }

  /** A scan that goes on after its first connection fails where the scan of the rest does. */
  lemma FailsNext(os: seq<Obj>, truth: Api, rs: seq<Request>, seen: multiset<Request>, i: nat)
    requires 0 < i < |os| && (Readable(os[0], truth) ==> Unserved(multiset{}, rs, seen + multiset{NameOf(os[0])}) != [])
    ensures var seen1 := if Readable(os[0], truth) then seen + multiset{NameOf(os[0])} else seen;
            FailsAt(os, truth, rs, seen, i) <==> FailsAt(os[1..], truth, rs, seen1, i - 1)
  {
    hide Unserved, Undecided, Readable, Visible;
    var o, vs := os[0], Visible(os[1..][..i - 1], truth);
    assert os[..i][0] == o && os[..i][1..] == os[1..][..i - 1];
    VisibleStep(os[..i], truth);
    SeenNext(o, vs, seen);
    assert seen + multiset{NameOf(o)} + Names([]) == seen + multiset{NameOf(o)};
  }

  /** A scan that stops at its first connection fails nowhere. */
  lemma FailsNever(os: seq<Obj>, truth: Api, rs: seq<Request>, seen: multiset<Request>, i: nat)
    requires 0 < i < |os| && Readable(os[0], truth) && Unserved(multiset{}, rs, seen + multiset{NameOf(os[0])}) == []
    ensures !FailsAt(os, truth, rs, seen, i)
  {
    hide Unserved, Undecided, Readable, Visible;
    var o, vs := os[0], Visible(os[1..][..i - 1], truth);
    assert os[..i][0] == o && os[..i][1..] == os[1..][..i - 1];
    VisibleStep(os[..i], truth);
    SeenNext(o, vs, seen);
    NothingLeft(vs, rs, seen + multiset{NameOf(o)});
  }

  /** The scan returns the served connections and leaves the unserved requests, wherever it stops. It fails exactly when it gets
      to a connection whose review is unanswered. */
  lemma {:induction false} CloseRun(api: Api, truth: Api, os: seq<Obj>, s: Session, rs: seq<Request>, seen: multiset<Request>)
    requires Faithful(s.memo, api, truth) && s.requests == Unserved(multiset{}, rs, seen) && forall o :: o in os ==> o.Connection?
    ensures var r, vs := RunFilter(os, s, CloseFilter(api)), Visible(os, truth);
            && (r.failed <==> exists i :: 0 <= i < |os| && FailsAt(os, truth, rs, seen, i))
            && (!r.failed ==> r.objs == Served(vs, multiset(rs), seen) && r.state.requests == Unserved(multiset{}, rs, seen + Names(vs)))
    decreases |os|
  {
    hide CloseFilter, Unserved, Visible, Faithful, Undecided, Readable, Serving, FailsAt;
    if os == [] {
      assert Visible(os, truth) == [] by { VisibleNone(truth); }
      assert seen + Names([]) == seen;
    } else {
      var o := os[0];
      CloseStep(api, truth, s, o);
      VisibleStep(os, truth);
      var (s1, v) := CloseFilter(api)(s, o);
      var seen1, rest := if Readable(o, truth) then seen + multiset{NameOf(o)} else seen, Visible(os[1..], truth);
      FailsFirst(os, truth, rs, seen);
      if !Undecided(o, truth) {
        ServingStep(rs, seen, s, o);
        assert s1.requests == Unserved(multiset{}, rs, seen1);
        if v.cont {
          CloseRun(api, truth, os[1..], s1, rs, seen1);
          FailsLater(os, truth, rs, seen);
        } else {
          NothingLeft(rest, rs, seen1);
          forall i: nat | 0 < i < |os|
            ensures !FailsAt(os, truth, rs, seen, i)
          {
            FailsNever(os, truth, rs, seen, i);
          }
        }
        SeenNext(o, rest, seen);
      }
    }
  }

  lemma FailsFirst(os: seq<Obj>, truth: Api, rs: seq<Request>, seen: multiset<Request>)
    requires os != []
    ensures FailsAt(os, truth, rs, seen, 0) <==> Undecided(os[0], truth)
  {
    VisibleNone(truth);
  }

  lemma FailsLater(os: seq<Obj>, truth: Api, rs: seq<Request>, seen: multiset<Request>)
    requires os != [] && !Undecided(os[0], truth)
    requires Readable(os[0], truth) ==> Unserved(multiset{}, rs, seen + multiset{NameOf(os[0])}) != []
    ensures var seen1 := if Readable(os[0], truth) then seen + multiset{NameOf(os[0])} else seen;
            (exists i :: 0 <= i < |os| && FailsAt(os, truth, rs, seen, i)) <==>
            (exists i :: 0 <= i < |os[1..]| && FailsAt(os[1..], truth, rs, seen1, i))
  {
    FailsFirst(os, truth, rs, seen);
    hide FailsAt, Readable, Undecided, Unserved;
    var seen1 := if Readable(os[0], truth) then seen + multiset{NameOf(os[0])} else seen;
    forall i: nat | 0 < i < |os|
      ensures FailsAt(os, truth, rs, seen, i) <==> FailsAt(os[1..], truth, rs, seen1, i - 1)
    {
      FailsNext(os, truth, rs, seen, i);
    }
    if i: nat :| i < |os[1..]| && FailsAt(os[1..], truth, rs, seen1, i) {
      assert FailsAt(os, truth, rs, seen, i + 1);
    }
  }

  lemma VisibleNone(truth: Api)
    ensures Visible([], truth) == []
  {
  }

  lemma SeenNext(o: Obj, rest: seq<Obj>, seen: multiset<Request>)
    ensures seen + multiset{NameOf(o)} + Names(rest) == seen + Names([o] + rest)
    ensures forall asked :: Served([o] + rest, asked, seen) ==
              (if seen[NameOf(o)] < asked[NameOf(o)] then [o] else []) + Served(rest, asked, seen + multiset{NameOf(o)})
    ensures [] + rest == rest
  {
    assert ([o] + rest)[1..] == rest;
  }

  // ----- What is closed -----

  /** A cached connection in a namespace whose address spaces the user may get. */
  predicate Closable(truth: Api, o: Obj) { o.Connection? && MayGet(truth, "addressspaces", o.namespace) }

  lemma ClosableBelow(es: Entries, truth: Api)
    requires Keyed(es)
    ensures Visible(Objects(Extending(es, "Connection/")), truth) == Select(Objects(es), o => Closable(truth, o))
  {
    hide IndexKey, Readable, MayGet, HasKey, Select, Objects, Extending;
    forall e | e in es
      ensures Closable(truth, e.obj) <==> "Connection/" < e.key && Readable(e.obj, truth)
    {
      ConnectionPrefix(e.obj);
      Reviewed(e.obj, truth);
      KeyEnds(e.obj);
    }
    SelectBelow(es, "Connection/", o => Readable(o, truth), o => Closable(truth, o));
  }

  /** A served connection was seen and asked for. */
  lemma {:induction false} ServedAsked(vs: seq<Obj>, asked: multiset<Request>, seen: multiset<Request>)
    ensures forall o :: o in Served(vs, asked, seen) ==> o in vs && NameOf(o) in asked
    decreases |vs|
  {
    if vs != [] {
      ServedAsked(vs[1..], asked, seen + multiset{NameOf(vs[0])});
    }
  }

  /** Of every name, as many connections are served as were asked for and seen. */
  lemma {:induction false} ServedCount(vs: seq<Obj>, asked: multiset<Request>, seen: multiset<Request>, x: Request)
    ensures seen[x] <= asked[x] ==> Names(Served(vs, asked, seen))[x] == Min(asked[x] - seen[x], Names(vs)[x])
    ensures seen[x] >= asked[x] ==> Names(Served(vs, asked, seen))[x] == 0
    decreases |vs|
  {
    if vs != [] {
      var y := NameOf(vs[0]);
      var rest := Served(vs[1..], asked, seen + multiset{y});
      ServedCount(vs[1..], asked, seen + multiset{y}, x);
      if seen[y] < asked[y] {
        assert ([vs[0]] + rest)[1..] == rest;
      } else {
        assert [] + rest == rest;
      }
    }
  }

  lemma {:induction false} UnservedCount(before: multiset<Request>, rs: seq<Request>, seen: multiset<Request>, x: Request)
    ensures multiset(Unserved(before, rs, seen))[x] ==
            if before[x] + multiset(rs)[x] <= seen[x] then 0 else Min(multiset(rs)[x], before[x] + multiset(rs)[x] - seen[x])
    decreases |rs|
  {
    if rs != [] {
      UnservedCount(before + multiset{rs[0]}, rs[1..], seen, x);
      assert rs == [rs[0]] + rs[1..];
    }
  }

  /** No request is lost and none is served twice. */
  lemma RequestsConserved(vs: seq<Obj>, rs: seq<Request>)
    ensures Names(Served(vs, multiset(rs), multiset{})) + multiset(Unserved(multiset{}, rs, Names(vs))) == multiset(rs)
  {
    hide Served, Unserved, Names;
    forall x
      ensures (Names(Served(vs, multiset(rs), multiset{})) + multiset(Unserved(multiset{}, rs, Names(vs))))[x] == multiset(rs)[x]
    {
      ServedCount(vs, multiset(rs), multiset{}, x);
      UnservedCount(multiset{}, rs, Names(vs), x);
    }
  }

  /** The scan: `closing` are the connections to close, `notFound` the requests to report. Every connection to close was asked for
      by its namespace and name and may be seen, and every request is either served by one of them or reported. */
  method Collect(cache: ObjectCache, rbac: KubernetesRbac, api: Api, requests: seq<Request>)
    returns (failed: bool, closing: seq<Obj>, notFound: seq<Request>)
    requires cache.Valid()
    modifies rbac
    ensures var truth := Known(old(rbac.State()), api);
            var all := Objects(Extending(cache.entries, "Connection/"));
            var visible := Select(Objects(cache.entries), o => Closable(truth, o));
            && Visible(all, truth) == visible
            && (failed <==> exists i :: 0 <= i < |all| && FailsAt(all, truth, requests, multiset{}, i))
            && (forall i :: 0 <= i < |all| ==>
                  all[i].Connection? && (Undecided(all[i], truth) <==> NoAnswer(truth, "addressspaces", all[i].namespace)))
            && (!failed ==> closing == Served(visible, multiset(requests), multiset{}) &&
                            notFound == Unserved(multiset{}, requests, Names(visible)))
            && (!failed ==> forall o :: o in closing ==> o in Objects(cache.entries) && Closable(truth, o) && Request(o.namespace, o.name) in requests)
            && (!failed ==> Names(closing) + multiset(notFound) == multiset(requests))
  {
    hide CloseFilter, Unserved, Served, Visible, RunFilter, Extending, Objects, FailsAt, Sorted, IndexKey, Select, Undecided, MayGet, NoAnswer;
    var start := Session(rbac.State(), requests);
    ghost var truth, all := Known(rbac.State(), api), Objects(Extending(cache.entries, "Connection/"));
    ghost var visible := Select(Objects(cache.entries), o => Closable(truth, o));
    OnlyConnections(cache.entries);
    UnservedAll(multiset{}, requests);
    CloseRun(api, truth, all, start, requests, multiset{});
    assert multiset{} + Names(Visible(all, truth)) == Names(Visible(all, truth));
    ClosableBelow(cache.entries, truth);
    ServedAsked(visible, multiset(requests), multiset{});
    RequestsConserved(visible, requests);
    forall o: Obj
      ensures o in visible <==> o in Objects(cache.entries) && Closable(truth, o)
      ensures o.Connection? ==> (Undecided(o, truth) <==> NoAnswer(truth, "addressspaces", o.namespace))
    {
      SelectedIn(Objects(cache.entries), o => Closable(truth, o), o);
      Reviewed(o, truth);
    }
    var found := Get(cache.entries, "Connection/", start, CloseFilter(api));
    rbac.cached, rbac.cacheUpdated := found.state.memo.cached, found.state.memo.updated;
    failed, closing, notFound := found.failed, found.objs, found.state.requests;
  }

  lemma OnlyConnections(es: Entries)
    requires Keyed(es)
    ensures forall o :: o in Objects(Extending(es, "Connection/")) ==> o.Connection?
  {
    hide IndexKey;
    var found := Extending(es, "Connection/");
    forall o: Obj | o in Objects(found)
      ensures o.Connection?
    {
      ObjectsIn(found, o);
      var e :| e in found && e.obj == o;
      ConnectionPrefix(e.obj);
    }
  }

  // ----- Distinct requests -----

  /** When no connection is requested twice and no requested name is borne by two visible connections, exactly
      the visible requested connections are returned, and exactly the requests without one are left. */
  lemma DistinctRequests(vs: seq<Obj>, rs: seq<Request>)
    requires forall x :: multiset(rs)[x] <= 1 && (x in rs ==> Names(vs)[x] <= 1)
    ensures Served(vs, multiset(rs), multiset{}) == Select(vs, o => NameOf(o) in rs)
    ensures Unserved(multiset{}, rs, Names(vs)) == Select(rs, x => x !in Names(vs))
  {
    DistinctServed(vs, rs, multiset{});
    DistinctUnserved(multiset{}, rs, Names(vs));
  }

  lemma {:induction false} DistinctServed(vs: seq<Obj>, rs: seq<Request>, seen: multiset<Request>)
    requires forall x :: multiset(rs)[x] <= 1 && (x in rs ==> seen[x] + Names(vs)[x] <= 1)
    ensures Served(vs, multiset(rs), seen) == Select(vs, o => NameOf(o) in rs)
    decreases |vs|
  {
    if vs != [] {
      DistinctServed(vs[1..], rs, seen + multiset{NameOf(vs[0])});
    }
  }

  lemma {:induction false} DistinctUnserved(before: multiset<Request>, rs: seq<Request>, seen: multiset<Request>)
    requires forall x :: before[x] + multiset(rs)[x] <= 1
    ensures Unserved(before, rs, seen) == Select(rs, x => x !in seen)
    decreases |rs|
  {
    if rs != [] {
      assert rs == [rs[0]] + rs[1..];
      DistinctUnserved(before + multiset{rs[0]}, rs[1..], seen);
    }
  }
}

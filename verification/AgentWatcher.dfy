/** The agent event handler, which keeps the connections of an address space and their links
    (pkg/consolegraphql/watchers/resource_watcher_agent.go:357-480). */
module AgentWatcher {
  import opened FilterEval
  import opened CacheScan
  import opened ConsoleCache
  import opened AgentLinks
  import opened AgentMetrics
  import opened ResourceWatcher

  /** A part of a key: object names, namespaces and connection ids hold no slash and no NUL. */
  predicate Part(s: string) { '/' !in s && NUL !in s }

  datatype Id = Id(namespace: string, addressSpace: string, uuid: string)

  predicate Proper(id: Id) { Part(id.namespace) && Part(id.addressSpace) && Part(id.uuid) }

  function IdOf(c: AgentConnection): Id { Id(c.namespace, c.addressSpace, c.uuid) }

  // ----- Keys -----

  /** The connection an object is or belongs to. */
  predicate Attached(o: Obj) { o.Connection? || o.Link? }

  function Owner(o: Obj): Id
    requires Attached(o)
  {
    Id(o.namespace, o.addressSpace, if o.Connection? then o.name else o.connection)
  }

  predicate Clean(o: Obj) { Attached(o) ==> Proper(Owner(o)) && (o.Link? ==> o.uid == o.name) }

  /** One id is an extension of the other in the same address space. */
  predicate Extends(id: Id, of: Id) {
    id.namespace == of.namespace && id.addressSpace == of.addressSpace && of.uuid <= id.uuid
  }

  lemma PrefixWithin(u: string, x: string, end: char, y: string)
    requires end !in u
    ensures u <= x + ([end] + y) <==> u <= x
  {
    assert |x| < |u| ==> u[|x|] != end;
  }

  /** What follows the id in a key. */
  function Rest(o: Obj): string
    requires Attached(o)
  {
    if o.Connection? then [NUL] + [] else ['/'] + (o.name + [NUL])
  }

  function Under(kind: string, id: Id, rest: string): string {
    kind + "/" + (id.namespace + "/" + (id.addressSpace + "/" + (id.uuid + rest)))
  }

  lemma Assoc4(k: string, a: string, b: string, c: string, d: string)
    ensures k + "/" + (a + "/" + (b + "/" + c)) + d == k + "/" + (a + "/" + (b + "/" + (c + d)))
  {
    assert b + "/" + c + d == b + "/" + (c + d);
    assert a + "/" + (b + "/" + c) + d == a + "/" + (b + "/" + c + d);
  }

  lemma KeyShape(o: Obj)
    requires Attached(o)
    ensures IndexKey(o) == Under(KindOf(o), Owner(o), Rest(o)) && '/' !in KindOf(o)
  {
    if o.Connection? {
      Assoc4("Connection", o.namespace, o.addressSpace, o.name, [NUL]);
      assert [NUL] + [] == [NUL];
    } else {
      assert o.connection + "/" + o.name == o.connection + (['/'] + o.name);
      Assoc4("Link", o.namespace, o.addressSpace, o.connection + "/" + o.name, [NUL]);
      assert o.connection + "/" + o.name + [NUL] == o.connection + Rest(o);
    }
  }

  lemma UnderPrefix(kind: string, id: Id, rest: string, kind': string, id': Id, rest': string)
    requires '/' !in kind && '/' !in kind' && Proper(id) && Proper(id')
    ensures Under(kind, id, rest) <= Under(kind', id', rest') <==>
            kind == kind' && id.namespace == id'.namespace && id.addressSpace == id'.addressSpace &&
            id.uuid + rest <= id'.uuid + rest'
  {
    PartPrefix(kind, id.namespace + "/" + (id.addressSpace + "/" + (id.uuid + rest)),
               kind', id'.namespace + "/" + (id'.addressSpace + "/" + (id'.uuid + rest')));
    PartPrefix(id.namespace, id.addressSpace + "/" + (id.uuid + rest), id'.namespace, id'.addressSpace + "/" + (id'.uuid + rest'));
    PartPrefix(id.addressSpace, id.uuid + rest, id'.addressSpace, id'.uuid + rest');
  }

  /** A prefix down to an id, without a slash behind it, picks the objects whose id extends it. */
  lemma PrefixPicks(kind: string, id: Id, o: Obj)
    requires Attached(o) && Clean(o) && Proper(id) && '/' !in kind
    ensures Under(kind, id, []) <= IndexKey(o) <==> kind == KindOf(o) && Extends(Owner(o), id)
  {
    hide Under, IndexKey;
    KeyShape(o);
    UnderPrefix(kind, id, [], KindOf(o), Owner(o), Rest(o));
    assert id.uuid + [] == id.uuid;
    if o.Connection? {
      PrefixWithin(id.uuid, o.name, NUL, []);
    } else {
      PrefixWithin(id.uuid, o.connection, '/', o.name + [NUL]);
    }
  }

  /** No other kind of object has such a key. */
  lemma PrefixSkips(kind: string, id: Id, o: Obj)
    requires !Attached(o) && HasKey(o) && (kind == "Connection" || kind == "Link")
    ensures !(Under(kind, id, []) <= IndexKey(o))
  {
    hide Place, IsClusterKind;
    KindsAreParts(KindOf(o));
    KindsAreParts(kind);
    var x, y := id.namespace + "/" + (id.addressSpace + "/" + (id.uuid + [])), Place(o) + [NUL];
    PartPrefix(kind, x, KindOf(o), y);
    assert KindOf(o) + "/" + y == IndexKey(o);
    assert KindOf(o) != kind;
  }

  // ----- The cached connections and links -----

  function ConnectionKey(id: Id): string { Under("Connection", id, [NUL] + []) }

  function LinkKey(id: Id, uid: string): string { Under("Link", id, ['/'] + (uid + [NUL])) }

  ghost predicate Cached(store: Store, o: Obj) { IndexKey(o) in store && store[IndexKey(o)] == o }

  ghost predicate AllProper(ids: iset<Id>) { forall a :: a in ids ==> Proper(a) }

  /** What every event keeps: objects are under their keys, and connections and links have ids among `ids`. */
  ghost predicate Tidy(store: Store, ids: iset<Id>) {
    WellKeyed(store) && forall k :: k in store ==> Clean(store[k]) && (Attached(store[k]) ==> Owner(store[k]) in ids)
  }

  /** The connection of each link is cached. */
  ghost predicate Connected(store: Store) { forall k :: k in store && store[k].Link? ==> ConnectionKey(Owner(store[k])) in store }

  ghost predicate Linked(store: Store, ids: iset<Id>) { Tidy(store, ids) && Connected(store) }

  /** The scan for a connection finds it first, or nothing. */
  ghost predicate Findable(store: Store, id: Id) {
    ConnectionKey(id) in store || forall k :: k in store && store[k].Connection? ==> !Extends(Owner(store[k]), id)
  }

  /** The scan for its links finds no others. */
  ghost predicate OwnLinks(store: Store, id: Id) {
    forall k :: k in store && store[k].Link? && Extends(Owner(store[k]), id) ==> Owner(store[k]) == id
  }

  predicate About(o: Obj, id: Id) { Attached(o) && Owner(o) == id }

  /** Only what is about one connection differs. */
  ghost predicate OthersSame(id: Id, before: Store, after: Store) {
    && (forall k :: k in before && !About(before[k], id) ==> k in after && after[k] == before[k])
    && (forall k :: k in after && !About(after[k], id) ==> k in before && before[k] == after[k])
  }

  lemma KeyTells(o: Obj, p: Obj)
    requires HasKey(o) && Attached(o) && Clean(o) && HasKey(p) && Clean(p) && IndexKey(o) == IndexKey(p)
    ensures Attached(p) && KindOf(o) == KindOf(p) && Owner(o) == Owner(p)
  {
    hide IndexKey, Under;
    KeyShape(o);
    PrefixPicks(KindOf(o), Owner(o), o);
    if !Attached(p) {
      PrefixSkips(KindOf(o), Owner(o), p);
    } else {
      PrefixPicks(KindOf(o), Owner(o), p);
      PrefixPicks(KindOf(p), Owner(p), p);
      PrefixPicks(KindOf(p), Owner(p), o);
    }
  }

  /** What the scan under an id finds. */
  lemma Picks(kind: string, id: Id, o: Obj)
    requires HasKey(o) && Clean(o) && Proper(id) && (kind == "Connection" || kind == "Link")
    ensures Under(kind, id, []) < IndexKey(o) <==> Attached(o) && kind == KindOf(o) && Extends(Owner(o), id)
  {
    if Attached(o) {
      PrefixPicks(kind, id, o);
      if kind == KindOf(o) && Extends(Owner(o), id) {
        KeyShape(o);
        assert |IndexKey(o)| > |Under(kind, id, [])|;
      }
    } else {
      PrefixSkips(kind, id, o);
    }
  }

  lemma FoundIn(es: Entries, p: string, o: Obj)
    requires Sorted(es) && forall e :: e in es ==> HasKey(e.obj) && e.key == IndexKey(e.obj)
    ensures o in Objects(Extending(es, p)) <==> Cached(Contents(es), o) && p < IndexKey(o)
  {
    hide Sorted, IndexKey;
    var found := Extending(es, p);
    ObjectsIn(found, o);
    ContentsHas(es, IndexKey(o));
    if o in Objects(found) {
      var e :| e in found && e.obj == o;
      var i :| 0 <= i < |es| && es[i] == e;
    }
    if Cached(Contents(es), o) && p < IndexKey(o) {
      var i :| 0 <= i < |es| && es[i].key == IndexKey(o);
      assert es[i] in found;
    }
  }

  lemma {:induction false} ExtendingSorted(es: Entries, p: string)
    requires Sorted(es)
    ensures Sorted(Extending(es, p))
    decreases |es|
  {
    if es != [] {
      ExtendingSorted(es[1..], p);
      hide Less;
      var r := Extending(es[1..], p);
      forall e | e in r
        ensures Less(es[0].key, e.key)
      {
        var i :| 0 <= i < |es[1..]| && es[1..][i] == e;
        assert es[i + 1] == e;
      }
      assert forall j :: 0 <= j < |r| ==> r[j] in r;
    }
  }

  lemma {:induction false} ObjectsAt(es: Entries, i: nat)
    requires i < |es|
    ensures Objects(es)[i] == es[i].obj
    decreases |es|
  {
    if i > 0 {
      ObjectsAt(es[1..], i - 1);
    }
  }

  lemma SortedDistinct(es: Entries)
    requires Sorted(es) && forall e :: e in es ==> e.key == IndexKey(e.obj)
    ensures DistinctKeys(Objects(es))
  {
    hide IndexKey, Less;
    var os := Objects(es);
    forall i, j | 0 <= i < j < |os|
      ensures IndexKey(os[i]) != IndexKey(os[j])
    {
      ObjectsAt(es, i);
      ObjectsAt(es, j);
      assert es[i] in es && es[j] in es;
      LessIrrefl(es[i].key);
    }
  }

  function All(s: (), o: Obj): ((), Verdict) { (s, Verdict(true, true, false)) }

  lemma {:induction false} AllRun(os: seq<Obj>)
    ensures RunFilter(os, (), All) == Found(os, (), false)
    decreases |os|
  {
    if os != [] {
      AllRun(os[1..]);
      assert [os[0]] + os[1..] == os;
    }
  }

  /** A scan without a filter, by a prefix that ends in an id. */
  method Pick(cache: ObjectCache, kind: string, id: Id) returns (objs: seq<Obj>)
    requires cache.Valid() && Proper(id) && (kind == "Connection" || kind == "Link")
    requires forall k :: k in cache.Store() ==> Clean(cache.Store()[k])
    ensures forall o :: o in objs <==>
              Cached(cache.Store(), o) && Attached(o) && KindOf(o) == kind && Extends(Owner(o), id)
    ensures DistinctKeys(objs)
    ensures Under(kind, id, []) + [NUL] in cache.Store() ==> objs != [] && IndexKey(objs[0]) == Under(kind, id, []) + [NUL]
  {
    hide Extends, Sorted, IndexKey, Under;
    var p := Under(kind, id, []);
    FirstIsExact(cache.entries, p);
    var found := Get(cache.entries, p, (), All);
    ghost var es := Extending(cache.entries, p);
    AllRun(Objects(es));
    objs := found.objs;
    ExtendingSorted(cache.entries, p);
    SortedDistinct(es);
    forall o
      ensures o in objs <==> Cached(cache.Store(), o) && Attached(o) && KindOf(o) == kind && Extends(Owner(o), id)
    {
      FoundIn(cache.entries, p, o);
      if Cached(cache.Store(), o) {
        ValidIsWellKeyed(cache);
        assert IndexKey(o) in cache.Store();
        Picks(kind, id, o);
      }
    }
  }

  // ----- Inserting or updating a connection -----

  function ToConnection(c: AgentConnection): Obj { Connection(c.namespace, c.addressSpace, c.uuid, c.spec, map[]) }

  function ConnectionUpdates(c: AgentConnection): seq<Update> {
    [Samples("enmasse_messages_in", c.messagesIn), Samples("enmasse_messages_out", c.messagesOut),
     Sets("enmasse_senders", |c.senders|), Sets("enmasse_receivers", |c.receivers|)]
  }

  /** updateConnectionMetrics. */
  function Counted(o: Obj, c: AgentConnection): Obj
    requires o.Connection?
  {
    Connection(o.namespace, o.addressSpace, o.name, o.spec, AllMade(o.metrics, ConnectionUpdates(c), c.now))
  }

  /** What reporting a connection does: its entry is made or its metrics are updated, its links become exactly
      the reported ones, keeping those that were cached, and nothing else changes. */
  ghost predicate Upserted(c: AgentConnection, before: Store, after: Store) {
    var id, current := IdOf(c), ToLinks(c);
    && (var k := ConnectionKey(id);
        && k in after
        && (k in before ==> before[k].Connection?)
        && after[k] == Counted(if k in before then before[k] else ToConnection(c), c))
    && (forall u :: LinkKey(id, u) in after <==> Count(current, u) > 0)
    && (forall u :: LinkKey(id, u) in after ==> LinkAfter(c, u, before, after[LinkKey(id, u)]))
    && OthersSame(id, before, after)
  }

  const CONNECTION_NAMES := {"enmasse_messages_in", "enmasse_messages_out", "enmasse_senders", "enmasse_receivers"}

  /** What a report says of each metric of a connection, by name. */
  ghost predicate ConnectionMeasured(m: Metrics, r: Metrics, c: AgentConnection) {
    && IsSampled(m, r, "enmasse_messages_in", c.messagesIn, c.now) && IsSampled(m, r, "enmasse_messages_out", c.messagesOut, c.now)
    && IsSet(m, r, "enmasse_senders", |c.senders|, c.now) && IsSet(m, r, "enmasse_receivers", |c.receivers|, c.now)
    && AllKeptBut(m, r, CONNECTION_NAMES)
  }

  lemma CountedMeans(o: Obj, c: AgentConnection)
    requires o.Connection?
    ensures ConnectionMeasured(o.metrics, Counted(o, c).metrics, c)
  {
    hide AllMade, IsSet, IsSampled, KeptAt;
    var m, us, r := o.metrics, ConnectionUpdates(c), Counted(o, c).metrics;
    CountNamesDiffer();
    assert DistinctNames(us);
    AllMadeAt(m, us, c.now, 0);
    AllMadeAt(m, us, c.now, 1);
    AllMadeAt(m, us, c.now, 2);
    AllMadeAt(m, us, c.now, 3);
    forall n | n !in CONNECTION_NAMES
      ensures KeptAt(m, r, n)
    {
      KeptByAll(m, us, c.now, n);
    }
  }

  lemma CountNamesDiffer()
    ensures |"enmasse_messages_in"| == 19 && |"enmasse_messages_out"| == 20 && |"enmasse_senders"| == 15 && |"enmasse_receivers"| == 17
    ensures |"enmasse_messages_stored"| == 23
  {
  }

  /** After a report, the connection has its counts; otherwise it is as it was, or as reported if it is new. */
  lemma UpsertMeasures(c: AgentConnection, before: Store, after: Store)
    requires Upserted(c, before, after)
    ensures var k := ConnectionKey(IdOf(c));
            var was := if k in before then before[k] else Connection(c.namespace, c.addressSpace, c.uuid, c.spec, map[]);
            && k in after && was.Connection? && after[k] == Connection(was.namespace, was.addressSpace, was.name, was.spec, after[k].metrics)
            && ConnectionMeasured(was.metrics, after[k].metrics, c)
  {
    hide ConnectionMeasured, ConnectionKey, LinkKey, LinkAfter, AllMade;
    var k := ConnectionKey(IdOf(c));
    CountedMeans(if k in before then before[k] else ToConnection(c), c);
  }

  /** The cached link with new metrics, unless it was not cached or its id is reported twice. */
  ghost predicate LinkAfter(c: AgentConnection, u: string, before: Store, after: Obj) {
    var k := LinkKey(IdOf(c), u);
    || (k in before && before[k].Link? && after == Metered(before[k], c))
    || ((k in before ==> Count(ToLinks(c), u) > 1) && exists l :: l in ToLinks(c) && l.uid == u && after == Metered(l, c))
  }

  predicate IsLinkOf(o: Obj, id: Id) { o.Link? && Owner(o) == id && o.uid == o.name }

  lemma LinkKeyOf(o: Obj)
    requires o.Link? && o.uid == o.name
    ensures IndexKey(o) == LinkKey(Owner(o), o.uid)
  {
    KeyShape(o);
  }

  lemma ConnectionKeyOf(o: Obj)
    requires o.Connection?
    ensures IndexKey(o) == ConnectionKey(Owner(o))
  {
    KeyShape(o);
  }

  lemma LinkKeysDiffer(id: Id, u: string, v: string)
    ensures LinkKey(id, u) == LinkKey(id, v) <==> u == v
  {
    var a, b := LinkKey(id, u), LinkKey(id, v);
    if a == b {
      var n := |Under("Link", id, ['/'])|;
      assert u == a[n..|a| - 1] && v == b[n..|b| - 1];
    }
  }

  lemma ReportedLinks(c: AgentConnection, l: Obj)
    requires l in ToLinks(c)
    ensures IsLinkOf(l, IdOf(c))
  {
  }

  lemma AtLinkKey(store: Store, id: Id, u: string)
    requires WellKeyed(store) && Proper(id) && LinkKey(id, u) in store && Clean(store[LinkKey(id, u)])
    ensures var o := store[LinkKey(id, u)]; IsLinkOf(o, id) && o.uid == u && Cached(store, o)
  {
    hide LinkKey, IndexKey;
    var o, l := store[LinkKey(id, u)], Link(id.namespace, id.addressSpace, id.uuid, u, u, "", "", map[]);
    LinkKeyOf(l);
    KeyTells(l, o);
    LinkKeyOf(o);
    LinkKeysDiffer(id, u, o.uid);
  }

  lemma AtConnectionKey(store: Store, id: Id)
    requires WellKeyed(store) && Proper(id) && ConnectionKey(id) in store && Clean(store[ConnectionKey(id)])
    ensures var o := store[ConnectionKey(id)]; o.Connection? && Owner(o) == id && Cached(store, o)
  {
    hide ConnectionKey, IndexKey;
    var o, l := store[ConnectionKey(id)], Connection(id.namespace, id.addressSpace, id.uuid, map[], map[]);
    ConnectionKeyOf(l);
    KeyTells(l, o);
  }

  /** What resolveLinks makes of the links it is given. */
  datatype Division = Division(existing: seq<LinkObj>, orphans: seq<LinkObj>, fresh_: seq<LinkObj>, updating: seq<LinkObj>)

  function Pending(c: AgentConnection, d: Division): seq<Obj> { AllMetered(d.updating, c) + AllMetered(d.fresh_, c) }

  ghost predicate Divided(c: AgentConnection, d: Division) {
    && (forall o :: o in d.orphans <==> o in d.existing && Count(ToLinks(c), o.uid) == 0)
    && (forall o :: o in d.updating <==> o in d.existing && Count(ToLinks(c), o.uid) > 0)
    && (forall u :: Count(d.fresh_, u) == Excess(Count(ToLinks(c), u), Count(d.existing, u)))
    && (forall l :: l in d.fresh_ ==> l in ToLinks(c))
  }

  /** The links it is given are those in the store whose id extends `id`. */
  ghost predicate Resolved(c: AgentConnection, id: Id, store: Store, d: Division) {
    (forall o :: o in d.existing <==> Cached(store, o) && o.Link? && Extends(Owner(o), id)) && DistinctKeys(d.existing) && Divided(c, d)
  }

  ghost function Swapped(c: AgentConnection, store: Store, d: Division): Store { Added(Spared(store, d), Pending(c, d)) }

  ghost function Spared(store: Store, d: Division): Store { store - set o | o in d.orphans :: IndexKey(o) }

  // ----- What is under each key afterwards -----

  lemma LinkKeysTell(a: Id, u: string, b: Id, v: string)
    requires Proper(a) && Proper(b)
    ensures LinkKey(a, u) == LinkKey(b, v) <==> a == b && u == v
  {
    hide LinkKey, IndexKey;
    var o, q := Link(a.namespace, a.addressSpace, a.uuid, u, u, "", "", map[]), Link(b.namespace, b.addressSpace, b.uuid, v, v, "", "", map[]);
    LinkKeyOf(o);
    LinkKeyOf(q);
    if LinkKey(a, u) == LinkKey(b, v) {
      KeyTells(o, q);
    }
    LinkKeysDiffer(a, u, v);
  }

  lemma MeteredKeeps(l: LinkObj, c: AgentConnection)
    requires l.uid == l.name
    ensures var m := Metered(l, c); Owner(m) == Owner(l) && m.uid == m.name && IndexKey(m) == IndexKey(l) == LinkKey(Owner(l), l.uid)
  {
    hide LinkKey, IndexKey;
    LinkKeyOf(l);
    LinkKeyOf(Metered(l, c));
  }

  /** A pending link is one that was found, or a reported one. */
  lemma PendingAt(c: AgentConnection, ids: iset<Id>, id: Id, store: Store, d: Division, i: nat) returns (l: LinkObj)
    requires Tidy(store, ids) && AllProper(ids) && IdOf(c) in ids && Resolved(c, id, store, d) && i < |Pending(c, d)|
    ensures Pending(c, d)[i] == Metered(l, c) && IndexKey(Pending(c, d)[i]) == IndexKey(l) == LinkKey(Owner(l), l.uid)
    ensures Proper(Owner(l)) && Count(ToLinks(c), l.uid) > 0
    ensures (l in d.updating && l in d.existing && Cached(store, l)) || (l in d.fresh_ && l in ToLinks(c) && Owner(l) == IdOf(c))
  {
    hide LinkKey, IndexKey, Count, ToLinks, Tidy, Resolved, Metered;
    l := if i < |d.updating| then d.updating[i] else d.fresh_[i - |d.updating|];
    if i < |d.updating| {
      UpdatingFacts(c, ids, id, store, d, l);
    } else {
      FreshIsOwn(c, d, l, id, store);
      CountZero(ToLinks(c), l.uid);
    }
    MeteredKeeps(l, c);
  }

  lemma UpdatingFacts(c: AgentConnection, ids: iset<Id>, id: Id, store: Store, d: Division, l: LinkObj)
    requires Tidy(store, ids) && AllProper(ids) && Resolved(c, id, store, d) && l in d.updating
    ensures l in d.existing && Cached(store, l) && l.uid == l.name && Proper(Owner(l)) && Count(ToLinks(c), l.uid) > 0
  {
    hide IndexKey, Count, ToLinks, WellKeyed, Extends, DistinctKeys;
    assert store[IndexKey(l)] == l;
  }

  lemma PendingHas(c: AgentConnection, d: Division, l: LinkObj)
    requires (l in d.updating || l in d.fresh_) && l.uid == l.name
    ensures exists i :: 0 <= i < |Pending(c, d)| && IndexKey(Pending(c, d)[i]) == LinkKey(Owner(l), l.uid)
  {
    hide LinkKey, IndexKey, Metered, AllMetered;
    MeteredKeeps(l, c);
    var i: nat;
    if l in d.updating {
      i :| i < |d.updating| && d.updating[i] == l;
    } else {
      var j :| 0 <= j < |d.fresh_| && d.fresh_[j] == l;
      i := |d.updating| + j;
    }
    assert i < |Pending(c, d)| && Pending(c, d)[i] == Metered(l, c);
  }

  /** What is under a key afterwards: the pending link with it, and otherwise what was there, unless it was an orphan. */
  lemma SwappedAt(c: AgentConnection, store: Store, d: Division, k: string)
    ensures var after := Swapped(c, store, d);
            if exists i :: 0 <= i < |Pending(c, d)| && IndexKey(Pending(c, d)[i]) == k
            then k in after && exists i :: 0 <= i < |Pending(c, d)| && IndexKey(Pending(c, d)[i]) == k && after[k] == Pending(c, d)[i]
            else (k in after <==> k in store && forall o :: o in d.orphans ==> IndexKey(o) != k) && (k in after ==> after[k] == store[k])
  {
    hide IndexKey, Added, Pending;
    AddedHas(Spared(store, d), Pending(c, d), k);
    if i :| LastWith(Pending(c, d), k, i) && Swapped(c, store, d)[k] == Pending(c, d)[i] {
      assert IndexKey(Pending(c, d)[i]) == k;
    }
  }

  /** Another connection's link that was found: gone if it is not reported, and with new metrics otherwise. */
  lemma StrayAfter(c: AgentConnection, ids: iset<Id>, store: Store, d: Division, k: string)
    requires Tidy(store, ids) && AllProper(ids) && IdOf(c) in ids && Resolved(c, IdOf(c), store, d) && k in store && IsStray(store[k], c)
    ensures var after := Swapped(c, store, d);
            && (k in after <==> Count(ToLinks(c), store[k].uid) > 0)
            && (k in after ==> after[k] == Metered(store[k], c))
  {
    var o, after := store[k], Swapped(c, store, d);
    StoredIsCached(store, k);
    hide ToLinks, Count, LinkKey, IndexKey, Swapped, Pending, Metered, WellKeyed, Extends, DistinctKeys;
    LinkKeyOf(o);
    SwappedAt(c, store, d, k);
    if o in d.updating {
      PendingHas(c, d, o);
    }
    forall i | 0 <= i < |Pending(c, d)| && IndexKey(Pending(c, d)[i]) == k
      ensures o in d.updating && Pending(c, d)[i] == Metered(o, c)
    {
      var l := PendingAt(c, ids, IdOf(c), store, d, i);
      LinkKeysTell(Owner(l), l.uid, Owner(o), o.uid);
    }
  }

  /** A link of the connection: there if it is reported and was there or is left to add. */
  lemma OwnAfter(c: AgentConnection, ids: iset<Id>, store: Store, d: Division, u: string)
    requires Tidy(store, ids) && AllProper(ids) && IdOf(c) in ids && Resolved(c, IdOf(c), store, d)
    ensures var after, k := Swapped(c, store, d), LinkKey(IdOf(c), u);
            && (k in after <==> Count(ToLinks(c), u) > 0 && (k in store || Count(d.fresh_, u) > 0))
            && (k in after ==> LinkAfter(c, u, store, after[k]))
  {
    var id := IdOf(c);
    var k, after := LinkKey(id, u), Swapped(c, store, d);
    OwnFound(c, ids, store, d, u);
    hide ToLinks, Count, LinkKey, IndexKey, Swapped, Pending, Metered, Tidy, Resolved;
    SwappedAt(c, store, d, k);
    CountZero(d.fresh_, u);
    if l :| l in d.fresh_ && l.uid == u {
      FreshIsOwn(c, d, l, id, store);
      PendingHas(c, d, l);
    }
    if k in store && Count(ToLinks(c), u) > 0 {
      PendingHas(c, d, store[k]);
    }
    forall i | 0 <= i < |Pending(c, d)| && IndexKey(Pending(c, d)[i]) == k
      ensures Count(ToLinks(c), u) > 0 && (k in store || Count(d.fresh_, u) > 0) && LinkAfter(c, u, store, Pending(c, d)[i])
    {
      OwnPending(c, ids, store, d, u, i);
    }
  }

  lemma FreshIsOwn(c: AgentConnection, d: Division, l: LinkObj, id: Id, store: Store)
    requires Resolved(c, id, store, d) && l in d.fresh_
    ensures l in ToLinks(c) && IsLinkOf(l, IdOf(c))
  {
    hide ToLinks, Count;
    ReportedLinks(c, l);
  }

  /** The connection's own link under a key is among those found. */
  lemma OwnFound(c: AgentConnection, ids: iset<Id>, store: Store, d: Division, u: string)
    requires Tidy(store, ids) && AllProper(ids) && IdOf(c) in ids && Resolved(c, IdOf(c), store, d)
    ensures LinkKey(IdOf(c), u) in store ==>
              var o := store[LinkKey(IdOf(c), u)];
              && IsLinkOf(o, IdOf(c)) && o.uid == u && IndexKey(o) == LinkKey(IdOf(c), u) && Count(d.existing, u) > 0
              && (if Count(ToLinks(c), u) > 0 then o in d.updating else o in d.orphans)
    ensures Count(ToLinks(c), u) > 0 ==> forall o :: o in d.orphans ==> IndexKey(o) != LinkKey(IdOf(c), u)
  {
    hide ToLinks, Count, LinkKey, IndexKey, DistinctKeys;
    var id := IdOf(c);
    if LinkKey(id, u) in store {
      AtLinkKey(store, id, u);
      var o := store[LinkKey(id, u)];
      LinkKeyOf(o);
      assert o in d.existing;
      CountZero(d.existing, u);
    }
    if Count(ToLinks(c), u) > 0 {
      forall o | o in d.orphans
        ensures IndexKey(o) != LinkKey(id, u)
      {
        assert store[IndexKey(o)] == o;
        LinkKeyOf(o);
        LinkKeysTell(Owner(o), o.uid, id, u);
      }
    }
  }

  lemma OwnPending(c: AgentConnection, ids: iset<Id>, store: Store, d: Division, u: string, i: nat)
    requires Tidy(store, ids) && AllProper(ids) && IdOf(c) in ids && Resolved(c, IdOf(c), store, d)
    requires i < |Pending(c, d)| && IndexKey(Pending(c, d)[i]) == LinkKey(IdOf(c), u)
    ensures Count(ToLinks(c), u) > 0 && (LinkKey(IdOf(c), u) in store || Count(d.fresh_, u) > 0)
    ensures LinkAfter(c, u, store, Pending(c, d)[i])
  {
    hide ToLinks, Count, LinkKey, IndexKey, Pending, Metered, Tidy, Resolved;
    var id := IdOf(c);
    var l := PendingAt(c, ids, id, store, d, i);
    LinkKeysTell(Owner(l), l.uid, id, u);
    OwnFound(c, ids, store, d, u);
    if !Cached(store, l) {
      CountZero(d.fresh_, u);
      FreshCount(c, id, store, d, u);
    }
  }

  lemma FreshCount(c: AgentConnection, id: Id, store: Store, d: Division, u: string)
    requires Resolved(c, id, store, d)
    ensures Count(d.fresh_, u) == Excess(Count(ToLinks(c), u), Count(d.existing, u))
  {
    hide ToLinks, Count, IndexKey;
  }

  /** No other keys are touched. */
  lemma SwappedElsewhere(c: AgentConnection, ids: iset<Id>, store: Store, d: Division, k: string)
    requires Tidy(store, ids) && AllProper(ids) && IdOf(c) in ids && Resolved(c, IdOf(c), store, d)
    requires (forall u :: k != LinkKey(IdOf(c), u)) && !(k in store && IsStray(store[k], c))
    ensures var after := Swapped(c, store, d);
            (k in after <==> k in store) && (k in store ==> after[k] == store[k])
  {
    hide ToLinks, Count, LinkKey, IndexKey, Swapped, Pending, Metered, Extends, WellKeyed, DistinctKeys;
    SwappedAt(c, store, d, k);
    forall o | o in d.existing
      ensures IndexKey(o) != k
    {
      assert store[IndexKey(o)] == o;
      LinkKeyOf(o);
    }
    forall i | 0 <= i < |Pending(c, d)|
      ensures IndexKey(Pending(c, d)[i]) != k
    {
      var l := PendingAt(c, ids, IdOf(c), store, d, i);
    }
  }

  lemma KeysApart(id: Id, id': Id, u: string)
    ensures ConnectionKey(id) != LinkKey(id', u)
  {
    assert ConnectionKey(id)[0] == 'C' && LinkKey(id', u)[0] == 'L';
  }

  // ----- How many links are found -----

  /** The keys of the links with a UID. */
  ghost predicate KeysWith(ls: seq<LinkObj>, u: string, keys: set<string>) {
    forall k :: k in keys <==> exists l :: l in ls && l.uid == u && IndexKey(l) == k
  }

  lemma KeysWithTail(ls: seq<LinkObj>, u: string, keys: set<string>)
    requires ls != [] && DistinctKeys(ls) && KeysWith(ls, u, keys)
    ensures DistinctKeys(ls[1..]) && KeysWith(ls[1..], u, if ls[0].uid == u then keys - {IndexKey(ls[0])} else keys)
    ensures ls[0].uid == u ==> IndexKey(ls[0]) in keys
  {
    hide IndexKey;
    var rest := ls[1..];
    assert forall i :: 0 <= i < |rest| ==> rest[i] == ls[i + 1];
    forall l | l in rest
      ensures l in ls && IndexKey(l) != IndexKey(ls[0])
    {
      var i :| 0 <= i < |rest| && rest[i] == l;
      assert ls[i + 1] == l;
    }
    assert forall l :: l in ls <==> l == ls[0] || l in rest;
  }

  /** With different keys, there are as many links with a UID as keys of such links. */
  lemma {:induction false} CountIsSize(ls: seq<LinkObj>, u: string, keys: set<string>)
    requires DistinctKeys(ls) && KeysWith(ls, u, keys)
    ensures Count(ls, u) == |keys|
    decreases |ls|
  {
    hide IndexKey;
    if ls == [] {
      assert keys == {};
    } else {
      KeysWithTail(ls, u, keys);
      hide DistinctKeys, KeysWith;
      var k := IndexKey(ls[0]);
      CountIsSize(ls[1..], u, if ls[0].uid == u then keys - {k} else keys);
      assert ls[0].uid == u ==> |keys - {k}| == |keys| - 1;
    }
  }

  /** Another connection's links that the scan for this one's links finds, by UID. */
  ghost function StraysWith(c: AgentConnection, before: Store, u: string): set<string> {
    set k | k in before && IsStray(before[k], c) && before[k].uid == u
  }

  /** Without a link of its own under the UID, what is left to add is what exceeds the strays. */
  lemma LeftToAdd(c: AgentConnection, ids: iset<Id>, store: Store, d: Division, u: string)
    requires Tidy(store, ids) && AllProper(ids) && IdOf(c) in ids && Resolved(c, IdOf(c), store, d) && LinkKey(IdOf(c), u) !in store
    ensures Count(d.fresh_, u) > 0 <==> Count(ToLinks(c), u) > |StraysWith(c, store, u)|
  {
    FreshCount(c, IdOf(c), store, d, u);
    hide ToLinks, Count, LinkKey, IndexKey, DistinctKeys, Divided;
    var keys := StraysWith(c, store, u);
    forall l | l in d.existing && l.uid == u
      ensures IndexKey(l) in keys
    {
      assert store[IndexKey(l)] == l;
      LinkKeyOf(l);
    }
    forall k | k in keys
      ensures store[k] in d.existing && IndexKey(store[k]) == k
    {
      assert Cached(store, store[k]) by { StoredIsCached(store, k); }
    }
    CountIsSize(d.existing, u, keys);
  }

  lemma UpsertOthers(c: AgentConnection, before: Store, store: Store, after: Store)
    requires WellKeyed(before) && Proper(IdOf(c)) && forall k :: k in before ==> Clean(before[k])
    requires forall k :: k != ConnectionKey(IdOf(c)) ==> (k in before <==> k in store) && (k in store ==> before[k] == store[k])
    requires forall k :: (forall u :: k != LinkKey(IdOf(c), u)) ==> (k in after <==> k in store) && (k in store ==> after[k] == store[k])
    requires forall u :: LinkKey(IdOf(c), u) in after ==> LinkAfter(c, u, before, after[LinkKey(IdOf(c), u)])
    requires ConnectionKey(IdOf(c)) in after && About(after[ConnectionKey(IdOf(c))], IdOf(c))
    ensures OthersSame(IdOf(c), before, after)
  {
    hide ToLinks, Count, LinkKey, ConnectionKey, IndexKey;
    var id := IdOf(c);
    forall k | k in before && !About(before[k], id)
      ensures k in after && after[k] == before[k]
    {
      if k == ConnectionKey(id) {
        AtConnectionKey(before, id);
      } else if u :| k == LinkKey(id, u) {
        AtLinkKey(before, id, u);
      }
    }
    forall k | k in after && !About(after[k], id)
      ensures k in before && before[k] == after[k]
    {
      if u :| k == LinkKey(id, u) {
        LinkAfterIsLink(c, u, before, after[k]);
      }
    }
  }

  lemma LinkAfterIsLink(c: AgentConnection, u: string, before: Store, o: Obj)
    requires WellKeyed(before) && Proper(IdOf(c)) && forall k :: k in before ==> Clean(before[k])
    requires LinkAfter(c, u, before, o)
    ensures IsLinkOf(o, IdOf(c))
  {
    hide ToLinks, LinkKey, IndexKey, Count;
    if LinkKey(IdOf(c), u) in before {
      AtLinkKey(before, IdOf(c), u);
    }
    if l :| l in ToLinks(c) && l.uid == u && o == Metered(l, c) {
      ReportedLinks(c, l);
    }
  }

  /** Reporting a connection keeps every link with its connection. */
  lemma UpsertedIsLinked(c: AgentConnection, ids: iset<Id>, before: Store, after: Store)
    requires Linked(before, ids) && IdOf(c) in ids && AllProper(ids) && WellKeyed(after) && Upserted(c, before, after)
    ensures Linked(after, ids)
  {
    hide ToLinks, Count, LinkKey, ConnectionKey, IndexKey;
    var id := IdOf(c);
    if ConnectionKey(id) in before {
      AtConnectionKey(before, id);
    }
    forall k | k in after
      ensures Clean(after[k]) && (Attached(after[k]) ==> Owner(after[k]) in ids)
      ensures after[k].Link? ==> ConnectionKey(Owner(after[k])) in after
    {
      if About(after[k], id) {
        AboutIsClean(c, before, after, k);
      } else {
        assert before[k] == after[k];
        if after[k].Link? {
          var o := Owner(after[k]);
          assert o in ids;
          AtConnectionKey(before, o);
        }
      }
    }
  }

  lemma AboutIsClean(c: AgentConnection, before: Store, after: Store, k: string)
    requires WellKeyed(before) && Proper(IdOf(c)) && forall k :: k in before ==> Clean(before[k])
    requires WellKeyed(after) && Upserted(c, before, after) && k in after && About(after[k], IdOf(c))
    ensures Clean(after[k])
  {
    hide ToLinks, Count, LinkKey, ConnectionKey, IndexKey, Count, Metered;
    var o := after[k];
    if o.Link? {
      KeyShape(o);
      LinkKeyShape(o);
      LinkAfterIsLink(c, o.name, before, o);
    }
  }

  lemma LinkKeyShape(o: Obj)
    requires o.Link?
    ensures IndexKey(o) == LinkKey(Owner(o), o.name)
  {
    KeyShape(o);
  }

  /** Nothing of other connections is found. */
  ghost predicate Suited(store: Store, id: Id) { Findable(store, id) && OwnLinks(store, id) }

  /** What is found of other connections does no harm: each such link is reported and has the reported metrics, and of each
      reported UID a link of the connection is cached, or more are reported than other connections' links are found. */
  ghost predicate Harmless(c: AgentConnection, before: Store) {
    && (forall k :: k in before && IsStray(before[k], c) ==> Count(ToLinks(c), before[k].uid) > 0 && Metered(before[k], c) == before[k])
    && (forall u :: Count(ToLinks(c), u) > 0 ==> LinkKey(IdOf(c), u) in before || Count(ToLinks(c), u) > |StraysWith(c, before, u)|)
  }

  lemma SuitedIsHarmless(c: AgentConnection, before: Store)
    requires Suited(before, IdOf(c))
    ensures Harmless(c, before)
  {
    hide ToLinks, Count, LinkKey, Extends, ConnectionKey;
    forall u
      ensures |StraysWith(c, before, u)| == 0
    {
      assert StraysWith(c, before, u) == {};
    }
  }

  /** handleEvent for a reported connection. It has its effect if and only if the first scan finds the connection or nothing, and
      what the second finds of other connections does no harm. */
  method UpsertConnection(cache: ObjectCache, c: AgentConnection, ghost ids: iset<Id>)
    requires cache.Valid() && Tidy(cache.Store(), ids) && AllProper(ids) && IdOf(c) in ids
    modifies cache
    ensures cache.Valid() && Tidy(cache.Store(), ids)
    ensures Upserted(c, old(cache.Store()), cache.Store()) <==> Findable(old(cache.Store()), IdOf(c)) && Harmless(c, old(cache.Store()))
    ensures Connected(old(cache.Store())) && Findable(old(cache.Store()), IdOf(c)) ==> Connected(cache.Store())
  {
    hide ToLinks, Count, LinkKey, ConnectionKey, IndexKey, Swapped, Pending, AllMetered, Added, Removed, Tidy, Connected, Findable, Harmless,
      Upserted, Divided, Resolved;
    ghost var before := cache.Store();
    var con := EnterConnection(cache, c, ids);
    ghost var d := ReplaceLinks(cache, c, con, ids);
    ValidIsWellKeyed(cache);
    if Owner(con) == IdOf(c) {
      UpsertExact(c, ids, before, con, d);
      if Connected(before) {
        UpsertConnects(c, ids, before, con, d);
      }
    } else {
      NotEntered(c, before, con, d);
    }
  }

  /** A link of another connection whose id extends the reported one. */
  predicate IsStray(o: Obj, c: AgentConnection) { o.Link? && Owner(o) != IdOf(c) && Extends(Owner(o), IdOf(c)) }

  /** The connection found, or a new one, with new metrics. */
  method EnterConnection(cache: ObjectCache, c: AgentConnection, ghost ids: iset<Id>) returns (con: Obj)
    requires cache.Valid() && Tidy(cache.Store(), ids) && AllProper(ids) && IdOf(c) in ids
    modifies cache
    ensures cache.Valid() && con.Connection? && Owner(con) in ids && Tidy(cache.Store(), ids)
    ensures cache.Store() == old(cache.Store())[ConnectionKey(Owner(con)) := con]
    ensures Findable(old(cache.Store()), IdOf(c)) <==> Owner(con) == IdOf(c)
    ensures Owner(con) == IdOf(c) ==>
              var k, before := ConnectionKey(IdOf(c)), old(cache.Store());
              (k in before ==> before[k].Connection?) && con == Counted(if k in before then before[k] else ToConnection(c), c)
  {
    hide ConnectionKey, IndexKey, Added, Findable, AllMade, Under, Extends, DistinctKeys;
    ghost var before, id := cache.Store(), IdOf(c);
    var objs := Pick(cache, "Connection", IdOf(c));
    ConnectionKeyIs(id);
    FirstConnection(before, ids, id, objs);
    con := Counted(if objs == [] then ToConnection(c) else objs[0], c);
    ConnectionKeyOf(con);
    AddedOne(before, con);
    var failed := cache.Add([con]);
    ValidIsWellKeyed(cache);
    if objs != [] {
      assert objs[0] in objs;
    }
  }

  /** The links found are brought in line with the reported ones. */
  method ReplaceLinks(cache: ObjectCache, c: AgentConnection, con: Obj, ghost ids: iset<Id>) returns (ghost d: Division)
    requires cache.Valid() && Tidy(cache.Store(), ids) && AllProper(ids) && IdOf(c) in ids && con.Connection? && Owner(con) in ids
    modifies cache
    ensures cache.Valid() && Tidy(cache.Store(), ids)
    ensures Resolved(c, Owner(con), old(cache.Store()), d) && cache.Store() == Swapped(c, old(cache.Store()), d)
  {
    hide ToLinks, Count, IndexKey, Swapped, Having, Pending, AllMetered, Added, Removed, Extends, Resolved, Divided, WellKeyed;
    ghost var store := cache.Store();
    var found := Pick(cache, "Link", Owner(con));
    assert forall i :: 0 <= i < |found| ==> found[i] in found;
    var gone, new_, kept := ResolveLinks(ToLinks(c), found);
    d := Division(found, gone, new_, kept);
    ResolvedBy(c, Owner(con), store, d);
    HavingDistinct(found, ToLinks(c), false);
    Discard(cache, gone);
    var pending := UpdateAllLinks(kept, c);
    var more := UpdateAllLinks(new_, c);
    PendingHasKeys(c, d);
    var failed := cache.Add(pending + more);
    SwappedIs(c, store, d);
    ValidIsWellKeyed(cache);
    SwappedIsTidy(c, ids, Owner(con), store, d);
  }

  lemma ResolvedBy(c: AgentConnection, id: Id, store: Store, d: Division)
    requires forall o :: o in d.existing <==> Cached(store, o) && Attached(o) && KindOf(o) == "Link" && Extends(Owner(o), id)
    requires DistinctKeys(d.existing)
    requires d.orphans == Having(d.existing, ToLinks(c), false) && d.updating == Having(d.existing, ToLinks(c), true)
    requires forall u :: Count(d.fresh_, u) == Excess(Count(ToLinks(c), u), Count(d.existing, u))
    requires forall l :: l in d.fresh_ ==> l in ToLinks(c)
    ensures Resolved(c, id, store, d)
  {
    hide ToLinks, Count, IndexKey, Extends, DistinctKeys;
  }

  /** Deletes the orphans, if there are any. */
  method Discard(cache: ObjectCache, gone: seq<LinkObj>)
    requires cache.Valid() && DistinctKeys(gone) && forall o :: o in gone ==> Cached(cache.Store(), o)
    modifies cache
    ensures cache.Valid() && cache.Store() == old(cache.Store()) - set o | o in gone :: IndexKey(o)
  {
    hide IndexKey, Removed;
    ghost var store := cache.Store();
    RemovedAll(store, gone);
    if |gone| > 0 {
      var failed := cache.Delete(gone);
      assert !failed;
    } else {
      assert store - (set o | o in gone :: IndexKey(o)) == store;
    }
  }

  lemma SwappedIsTidy(c: AgentConnection, ids: iset<Id>, id: Id, store: Store, d: Division)
    requires Tidy(store, ids) && AllProper(ids) && IdOf(c) in ids && Resolved(c, id, store, d) && WellKeyed(Swapped(c, store, d))
    ensures Tidy(Swapped(c, store, d), ids)
  {
    hide ToLinks, Count, LinkKey, IndexKey, Swapped, Pending, WellKeyed, Resolved;
    var after := Swapped(c, store, d);
    forall k | k in after
      ensures Clean(after[k]) && (Attached(after[k]) ==> Owner(after[k]) in ids)
    {
      SwappedAt(c, store, d, k);
      if i :| 0 <= i < |Pending(c, d)| && after[k] == Pending(c, d)[i] {
        PendingIsTidy(c, ids, id, store, d, i);
      }
    }
  }

  lemma PendingIsTidy(c: AgentConnection, ids: iset<Id>, id: Id, store: Store, d: Division, i: nat)
    requires Tidy(store, ids) && AllProper(ids) && IdOf(c) in ids && Resolved(c, id, store, d) && i < |Pending(c, d)|
    ensures var o := Pending(c, d)[i]; o.Link? && Clean(o) && Owner(o) in ids
  {
    hide ToLinks, Count, LinkKey, IndexKey, WellKeyed, Pending, DistinctKeys, Divided;
    var l := PendingAt(c, ids, id, store, d, i);
    if Cached(store, l) {
      assert store[IndexKey(l)] == l;
    } else {
      ReportedLinks(c, l);
    }
  }

  /** Exactly when the report has its effect, once the connection is found or new. */
  lemma UpsertExact(c: AgentConnection, ids: iset<Id>, before: Store, con: Obj, d: Division)
    requires Tidy(before, ids) && AllProper(ids) && IdOf(c) in ids && con.Connection? && Owner(con) == IdOf(c)
    requires var k := ConnectionKey(IdOf(c));
             (k in before ==> before[k].Connection?) && con == Counted(if k in before then before[k] else ToConnection(c), c)
    requires Tidy(before[ConnectionKey(IdOf(c)) := con], ids) && Resolved(c, IdOf(c), before[ConnectionKey(IdOf(c)) := con], d)
    ensures Upserted(c, before, Swapped(c, before[ConnectionKey(IdOf(c)) := con], d)) <==> Harmless(c, before)
  {
    hide ToLinks, Count, LinkKey, ConnectionKey, IndexKey, Swapped, Resolved, Metered;
    var store := before[ConnectionKey(IdOf(c)) := con];
    var after := Swapped(c, store, d);
    UpsertFacts(c, ids, before, con, d);
    hide Tidy;
    if Harmless(c, before) {
      UpsertSpares(c, ids, before, con, d);
    }
    if OthersSame(IdOf(c), before, after) {
      forall k | k in before && IsStray(before[k], c)
        ensures Count(ToLinks(c), before[k].uid) > 0 && Metered(before[k], c) == before[k]
      {
        assert !About(before[k], IdOf(c));
      }
    }
  }

  /** What the store holds afterwards, in terms of what it held before. */
  lemma UpsertFacts(c: AgentConnection, ids: iset<Id>, before: Store, con: Obj, d: Division)
    requires Tidy(before, ids) && AllProper(ids) && IdOf(c) in ids && con.Connection? && Owner(con) == IdOf(c)
    requires ConnectionKey(IdOf(c)) in before ==> before[ConnectionKey(IdOf(c))].Connection?
    requires Tidy(before[ConnectionKey(IdOf(c)) := con], ids) && Resolved(c, IdOf(c), before[ConnectionKey(IdOf(c)) := con], d)
    ensures var id, after := IdOf(c), Swapped(c, before[ConnectionKey(IdOf(c)) := con], d);
            && ConnectionKey(id) in after && after[ConnectionKey(id)] == con
            && (forall u :: LinkKey(id, u) in after <==>
                  Count(ToLinks(c), u) > 0 && (LinkKey(id, u) in before || Count(ToLinks(c), u) > |StraysWith(c, before, u)|))
            && (forall u :: LinkKey(id, u) in after ==> LinkAfter(c, u, before, after[LinkKey(id, u)]))
            && (forall k :: k in before && IsStray(before[k], c) ==>
                  (k in after <==> Count(ToLinks(c), before[k].uid) > 0) && (k in after ==> after[k] == Metered(before[k], c)))
  {
    hide ToLinks, Count, LinkKey, ConnectionKey, IndexKey, Swapped, Resolved, Metered, Tidy, Extends;
    var id, ck := IdOf(c), ConnectionKey(IdOf(c));
    var store := before[ck := con];
    var after := Swapped(c, store, d);
    forall u
      ensures LinkKey(id, u) in after <==>
                Count(ToLinks(c), u) > 0 && (LinkKey(id, u) in before || Count(ToLinks(c), u) > |StraysWith(c, before, u)|)
      ensures LinkKey(id, u) in after ==> LinkAfter(c, u, before, after[LinkKey(id, u)])
    {
      KeysApart(id, id, u);
      OwnAfter(c, ids, store, d, u);
      assert StraysWith(c, store, u) == StraysWith(c, before, u);
      if LinkKey(id, u) !in store {
        LeftToAdd(c, ids, store, d, u);
      }
    }
    forall k | k in before && IsStray(before[k], c)
      ensures (k in after <==> Count(ToLinks(c), before[k].uid) > 0) && (k in after ==> after[k] == Metered(before[k], c))
    {
      StrayAfter(c, ids, store, d, k);
    }
    forall u
      ensures ck != LinkKey(id, u)
    {
      KeysApart(id, id, u);
    }
    SwappedElsewhere(c, ids, store, d, ck);
  }

  lemma UpsertSpares(c: AgentConnection, ids: iset<Id>, before: Store, con: Obj, d: Division)
    requires Tidy(before, ids) && AllProper(ids) && IdOf(c) in ids && con.Connection? && Owner(con) == IdOf(c)
    requires ConnectionKey(IdOf(c)) in before ==> before[ConnectionKey(IdOf(c))].Connection?
    requires Tidy(before[ConnectionKey(IdOf(c)) := con], ids) && Resolved(c, IdOf(c), before[ConnectionKey(IdOf(c)) := con], d)
    requires Harmless(c, before)
    ensures OthersSame(IdOf(c), before, Swapped(c, before[ConnectionKey(IdOf(c)) := con], d))
  {
    hide ToLinks, Count, LinkKey, ConnectionKey, IndexKey, Swapped, Resolved, Metered, Extends, WellKeyed;
    var id, ck := IdOf(c), ConnectionKey(IdOf(c));
    var store := before[ck := con];
    var after := Swapped(c, store, d);
    UpsertFacts(c, ids, before, con, d);
    forall k | forall u :: k != LinkKey(id, u)
      ensures (k in after <==> k in store) && (k in store ==> after[k] == store[k])
    {
      if !(k in store && IsStray(store[k], c)) {
        SwappedElsewhere(c, ids, store, d, k);
      }
    }
    UpsertOthers(c, before, store, after);
  }

  /** Once the connection is found or new, every link stays with its connection. */
  lemma UpsertConnects(c: AgentConnection, ids: iset<Id>, before: Store, con: Obj, d: Division)
    requires Linked(before, ids) && AllProper(ids) && IdOf(c) in ids && con.Connection? && Owner(con) == IdOf(c)
    requires ConnectionKey(IdOf(c)) in before ==> before[ConnectionKey(IdOf(c))].Connection?
    requires Tidy(before[ConnectionKey(IdOf(c)) := con], ids) && Resolved(c, IdOf(c), before[ConnectionKey(IdOf(c)) := con], d)
    ensures Connected(Swapped(c, before[ConnectionKey(IdOf(c)) := con], d))
  {
    hide ToLinks, Count, LinkKey, ConnectionKey, IndexKey, Swapped, Resolved, Metered, Pending, Extends, WellKeyed;
    var id, ck := IdOf(c), ConnectionKey(IdOf(c));
    var store := before[ck := con];
    var after := Swapped(c, store, d);
    forall k | k in after && after[k].Link?
      ensures ConnectionKey(Owner(after[k])) in store && Owner(after[k]) in ids
    {
      SwappedAt(c, store, d, k);
      if i :| 0 <= i < |Pending(c, d)| && after[k] == Pending(c, d)[i] {
        PendingConnects(c, ids, before, con, d, i);
      } else {
        assert store[k] == after[k] && before[k] == after[k];
      }
    }
    forall o | o in ids && ConnectionKey(o) in store
      ensures ConnectionKey(o) in after
    {
      ConnectionStays(c, ids, store, d, o);
    }
  }

  lemma PendingConnects(c: AgentConnection, ids: iset<Id>, before: Store, con: Obj, d: Division, i: nat)
    requires Linked(before, ids) && AllProper(ids) && IdOf(c) in ids && con.Connection? && Owner(con) == IdOf(c)
    requires ConnectionKey(IdOf(c)) in before ==> before[ConnectionKey(IdOf(c))].Connection?
    requires Tidy(before[ConnectionKey(IdOf(c)) := con], ids) && Resolved(c, IdOf(c), before[ConnectionKey(IdOf(c)) := con], d)
    requires i < |Pending(c, d)|
    ensures var o, store := Pending(c, d)[i], before[ConnectionKey(IdOf(c)) := con];
            o.Link? && ConnectionKey(Owner(o)) in store && Owner(o) in ids
  {
    hide ToLinks, Count, LinkKey, ConnectionKey, IndexKey, Resolved, Metered, Pending, Extends, WellKeyed;
    var store := before[ConnectionKey(IdOf(c)) := con];
    PendingIsTidy(c, ids, IdOf(c), store, d, i);
    var l := PendingAt(c, ids, IdOf(c), store, d, i);
    assert Cached(store, l) || Owner(l) == IdOf(c);
    SameOwner(l, c);
    if Cached(store, l) {
      assert store[IndexKey(l)] == l && before[IndexKey(l)] == l;
    }
  }

  lemma SameOwner(l: LinkObj, c: AgentConnection)
    ensures Owner(Metered(l, c)) == Owner(l)
  {
  }

  lemma ConnectionStays(c: AgentConnection, ids: iset<Id>, store: Store, d: Division, o: Id)
    requires Tidy(store, ids) && AllProper(ids) && IdOf(c) in ids && Resolved(c, IdOf(c), store, d) && o in ids && ConnectionKey(o) in store
    ensures ConnectionKey(o) in Swapped(c, store, d)
  {
    hide ToLinks, Count, LinkKey, ConnectionKey, IndexKey, Swapped, Resolved, Extends;
    AtConnectionKey(store, o);
    forall u
      ensures ConnectionKey(o) != LinkKey(IdOf(c), u)
    {
      KeysApart(o, IdOf(c), u);
    }
    SwappedElsewhere(c, ids, store, d, ConnectionKey(o));
  }

  /** If the scan takes another connection for the reported one, that one is not entered. */
  lemma NotEntered(c: AgentConnection, before: Store, con: Obj, d: Division)
    requires con.Connection? && Owner(con) != IdOf(c) && !Findable(before, IdOf(c)) && Proper(IdOf(c)) && Proper(Owner(con))
    ensures !Upserted(c, before, Swapped(c, before[ConnectionKey(Owner(con)) := con], d))
  {
    hide ToLinks, Count, LinkKey, ConnectionKey, IndexKey, Swapped, Metered;
    var k, store := ConnectionKey(IdOf(c)), before[ConnectionKey(Owner(con)) := con];
    ConnectionKeysDiffer(Owner(con), IdOf(c));
    SwappedAt(c, store, d, k);
    forall i | 0 <= i < |Pending(c, d)|
      ensures IndexKey(Pending(c, d)[i]) != k
    {
      LinkKeyShape(Pending(c, d)[i]);
      KeysApart(IdOf(c), Owner(Pending(c, d)[i]), Pending(c, d)[i].name);
    }
  }

  lemma ConnectionKeysDiffer(a: Id, b: Id)
    requires Proper(a) && Proper(b) && a != b
    ensures ConnectionKey(a) != ConnectionKey(b)
  {
    hide IndexKey;
    var o, q := Connection(a.namespace, a.addressSpace, a.uuid, map[], map[]), Connection(b.namespace, b.addressSpace, b.uuid, map[], map[]);
    ConnectionKeyOf(o);
    ConnectionKeyOf(q);
    if ConnectionKey(a) == ConnectionKey(b) {
      KeyTells(o, q);
    }
  }

  lemma SwappedIs(c: AgentConnection, store: Store, d: Division)
    ensures Swapped(c, store, d) == Added(store - set o | o in d.orphans :: IndexKey(o), AllMetered(d.updating, c) + AllMetered(d.fresh_, c))
  {
  }

  lemma AddedOne(store: Store, o: Obj)
    ensures Added(store, [o]) == store[IndexKey(o) := o]
  {
    assert [o][1..] == [];
  }

  lemma PendingHasKeys(c: AgentConnection, d: Division)
    ensures forall o :: o in AllMetered(d.updating, c) + AllMetered(d.fresh_, c) ==> HasKey(o)
  {
  }

  /** What the scan for a connection finds first. */
  lemma FirstConnection(store: Store, ids: iset<Id>, id: Id, objs: seq<Obj>)
    requires Tidy(store, ids) && AllProper(ids) && id in ids
    requires forall o :: o in objs <==> Cached(store, o) && Attached(o) && KindOf(o) == "Connection" && Extends(Owner(o), id)
    requires ConnectionKey(id) in store ==> objs != [] && IndexKey(objs[0]) == ConnectionKey(id)
    ensures objs != [] ==> objs[0].Connection? && Owner(objs[0]) in ids && Proper(Owner(objs[0])) && Cached(store, objs[0])
    ensures Findable(store, id) <==> objs == [] || Owner(objs[0]) == id
    ensures objs == [] ==> ConnectionKey(id) !in store
    ensures ConnectionKey(id) in store ==> store[ConnectionKey(id)] == objs[0]
    ensures objs != [] && Owner(objs[0]) == id ==> ConnectionKey(id) in store
  {
    hide IndexKey, ConnectionKey, Extends, WellKeyed;
    if objs != [] {
      assert objs[0] in objs;
      ConnectionKeyOf(objs[0]);
      if ConnectionKey(id) in store && Owner(objs[0]) != id {
        ConnectionKeysDiffer(Owner(objs[0]), id);
      }
    } else {
      forall k | k in store && store[k].Connection?
        ensures !Extends(Owner(store[k]), id)
      {
        assert Cached(store, store[k]) by { StoredIsCached(store, k); }
      }
    }
  }

  lemma ConnectionKeyIs(id: Id)
    ensures Under("Connection", id, []) + [NUL] == ConnectionKey(id)
  {
    assert [NUL] + [] == [NUL];
  }

  lemma StoredIsCached(store: Store, k: string)
    requires WellKeyed(store) && k in store
    ensures Cached(store, store[k])
  {
  }

  lemma {:induction false} HavingDistinct(ls: seq<LinkObj>, current: seq<LinkObj>, wanted: bool)
    requires DistinctKeys(ls)
    ensures DistinctKeys(Having(ls, current, wanted))
    decreases |ls|
  {
    hide IndexKey, Count;
    if ls != [] {
      HavingDistinct(ls[1..], current, wanted);
      var r := Having(ls[1..], current, wanted);
      forall o | o in r
        ensures IndexKey(ls[0]) != IndexKey(o)
      {
        var i :| 0 <= i < |ls[1..]| && ls[1..][i] == o;
        assert ls[i + 1] == o;
      }
      assert forall j :: 0 <= j < |r| ==> r[j] in r;
    }
  }

  // ----- Removing connections -----

  /** The store without the connections and links whose id extends `id`. */
  ghost predicate Dropped(id: Id, before: Store, after: Store) {
    && (forall k :: k in after <==> k in before && !(Attached(before[k]) && Extends(Owner(before[k]), id)))
    && (forall k :: k in after ==> after[k] == before[k])
  }

  /** The two prefix deletions that a restart and a removed connection make. */
  method Drop(cache: ObjectCache, id: Id, ghost ids: iset<Id>)
    requires cache.Valid() && Proper(id) && Tidy(cache.Store(), ids) && AllProper(ids)
    modifies cache
    ensures cache.Valid() && Tidy(cache.Store(), ids) && Dropped(id, old(cache.Store()), cache.Store())
    ensures Connected(old(cache.Store())) ==> Connected(cache.Store())
  {
    hide Under, IndexKey;
    ghost var before := cache.Store();
    cache.DeleteByPrefix(Under("Connection", id, []));
    cache.DeleteByPrefix(Under("Link", id, []));
    DroppedBoth(id, before);
    if Connected(before) {
      DroppedIsLinked(id, ids, before, cache.Store());
    }
  }

  lemma DroppedBoth(id: Id, before: Store)
    requires WellKeyed(before) && Proper(id) && forall k :: k in before ==> Clean(before[k])
    ensures Dropped(id, before, Outside(Outside(before, Under("Connection", id, [])), Under("Link", id, [])))
  {
    hide Under, IndexKey, Extends;
    forall k | k in before
      ensures Under("Connection", id, []) <= k || Under("Link", id, []) <= k <==>
              Attached(before[k]) && Extends(Owner(before[k]), id)
    {
      if Attached(before[k]) {
        PrefixPicks("Connection", id, before[k]);
        PrefixPicks("Link", id, before[k]);
      } else {
        PrefixSkips("Connection", id, before[k]);
        PrefixSkips("Link", id, before[k]);
      }
    }
  }

  /** Whatever the id, links never outlive their connection. */
  lemma DroppedIsLinked(id: Id, ids: iset<Id>, before: Store, after: Store)
    requires Linked(before, ids) && AllProper(ids) && Dropped(id, before, after)
    ensures Linked(after, ids)
  {
    hide IndexKey, ConnectionKey, Extends;
    forall k | k in after && after[k].Link?
      ensures ConnectionKey(Owner(after[k])) in after
    {
      AtConnectionKey(before, Owner(after[k]));
    }
  }

  /** No other cached id extends this one. */
  ghost predicate Alone(store: Store, id: Id) {
    forall k :: k in store && Attached(store[k]) && Extends(Owner(store[k]), id) ==> Owner(store[k]) == id
  }

  /** Removing a connection spares all others exactly when no other cached id extends the removed one. */
  lemma DropIsExact(id: Id, ids: iset<Id>, before: Store, after: Store)
    requires Tidy(before, ids) && Dropped(id, before, after)
    ensures OthersSame(id, before, after) <==> Alone(before, id)
    ensures forall k :: k in after ==> !About(after[k], id)
  {
    if OthersSame(id, before, after) {
      forall k | k in before && Attached(before[k]) && Extends(Owner(before[k]), id)
        ensures Owner(before[k]) == id
      {
        assert k !in after;
      }
    }
  }

  /** With a connection "ab" cached, removing connection "a" removes it. */
  lemma DropFails(spec: Env, metrics: Metrics, after: Store)
    ensures var o := Connection("n", "s", "ab", spec, metrics);
            var before := map[IndexKey(o) := o];
            var id := Id("n", "s", "a");
            Linked(before, iset{Owner(o), id}) && !Alone(before, id) && (Dropped(id, before, after) ==> !OthersSame(id, before, after))
  {
    var o := Connection("n", "s", "ab", spec, metrics);
    var before := map[IndexKey(o) := o];
    hide IndexKey;
    assert IndexKey(o) in before;
    assert "a" <= "ab";
    if Dropped(Id("n", "s", "a"), before, after) {
      DropIsExact(Id("n", "s", "a"), iset{Owner(o), Id("n", "s", "a")}, before, after);
    }
  }

  // ----- Events -----

  datatype Shard = Shard(consumers: int, enqueued: int, acknowledged: int, killed: int)

  /** An address as the agent reports it. */
  datatype AgentAddress = AgentAddress(
    namespace: string, name: string, depth: int, senders: int, receivers: int, messagesIn: int, messagesOut: int, shards: seq<Shard>, now: int)

  datatype AgentEvent =
    | Restarted(namespace: string, addressSpace: string)
    | ConnectionReported(c: AgentConnection)
    | AddressReported(a: AgentAddress)
    | ConnectionGone(id: Id)
    | AddressGone

  predicate InSpace(o: Obj, namespace: string, addressSpace: string) {
    Attached(o) && o.namespace == namespace && o.addressSpace == addressSpace
  }

  /** Everything but the metrics of addresses is the same. */
  ghost predicate SameButAddressMetrics(before: Store, after: Store) {
    && before.Keys == after.Keys
    && forall k :: k in before ==> after[k] == before[k] || (before[k].Address? && after[k].Address? && Payload(after[k]) == Payload(before[k]))
  }

  predicate IsSubscription(o: Obj)
    requires o.Address?
  {
    "$.spec.type" in o.spec && o.spec["$.spec.type"] == Ok(StringV("subscription"))
  }

  function Consumers(ss: seq<Shard>): int { if ss == [] then 0 else Consumers(ss[..|ss| - 1]) + ss[|ss| - 1].consumers }

  function Enqueued(ss: seq<Shard>): int { if ss == [] then 0 else Enqueued(ss[..|ss| - 1]) + ss[|ss| - 1].enqueued }

  function Dequeued(ss: seq<Shard>): int {
    if ss == [] then 0 else Dequeued(ss[..|ss| - 1]) + ss[|ss| - 1].acknowledged + ss[|ss| - 1].killed
  }

  /** What a report of an address does to its metrics: those of a subscription are summed over its shards, and its senders are not
      counted. */
  function AddressUpdates(a: AgentAddress, isSubscription: bool): seq<Update> {
    if isSubscription then
      [Sets("enmasse_messages_stored", a.depth), Sets("enmasse_receivers", Consumers(a.shards)),
       Samples("enmasse_messages_in", Enqueued(a.shards)), Samples("enmasse_messages_out", Dequeued(a.shards))]
    else
      [Sets("enmasse_messages_stored", a.depth), Sets("enmasse_senders", a.senders), Sets("enmasse_receivers", a.receivers),
       Samples("enmasse_messages_in", a.messagesIn), Samples("enmasse_messages_out", a.messagesOut)]
  }

  function AddressMetrics(m: Metrics, a: AgentAddress, isSubscription: bool): Metrics {
    AllMade(m, AddressUpdates(a, isSubscription), a.now)
  }

  /** What a report says of each metric of an address, by name. */
  ghost predicate AddressMeasured(m: Metrics, r: Metrics, a: AgentAddress, isSubscription: bool) {
    && IsSet(m, r, "enmasse_messages_stored", a.depth, a.now)
    && (if isSubscription then
          && IsSet(m, r, "enmasse_receivers", Consumers(a.shards), a.now) && KeptAt(m, r, "enmasse_senders")
          && IsSampled(m, r, "enmasse_messages_in", Enqueued(a.shards), a.now)
          && IsSampled(m, r, "enmasse_messages_out", Dequeued(a.shards), a.now)
        else
          && IsSet(m, r, "enmasse_senders", a.senders, a.now) && IsSet(m, r, "enmasse_receivers", a.receivers, a.now)
          && IsSampled(m, r, "enmasse_messages_in", a.messagesIn, a.now) && IsSampled(m, r, "enmasse_messages_out", a.messagesOut, a.now))
    && AllKeptBut(m, r, CONNECTION_NAMES + {"enmasse_messages_stored"})
  }

  /** Reporting an address leaves it with the counts of the report under their names, and otherwise as it was. */
  lemma MeasuredMeans(o: Obj, a: AgentAddress)
    requires o.Address?
    ensures var r := Measured(o, a);
            && r == Address(o.namespace, o.name, o.spec, r.metrics)
            && AddressMeasured(o.metrics, r.metrics, a, "$.spec.type" in o.spec && o.spec["$.spec.type"] == Ok(StringV("subscription")))
  {
    hide AllMade, IsSet, IsSampled, KeptAt, Consumers, Enqueued, Dequeued;
    var m, us, r := o.metrics, AddressUpdates(a, IsSubscription(o)), Measured(o, a).metrics;
    CountNamesDiffer();
    assert DistinctNames(us);
    AllMadeAt(m, us, a.now, 0);
    AllMadeAt(m, us, a.now, 1);
    AllMadeAt(m, us, a.now, 2);
    AllMadeAt(m, us, a.now, 3);
    if IsSubscription(o) {
      KeptByAll(m, us, a.now, "enmasse_senders");
    } else {
      AllMadeAt(m, us, a.now, 4);
    }
    forall n | n !in CONNECTION_NAMES + {"enmasse_messages_stored"}
      ensures KeptAt(m, r, n)
    {
      KeptByAll(m, us, a.now, n);
    }
  }

  function Measured(o: Obj, a: AgentAddress): Obj
    requires o.Address?
  {
    Address(o.namespace, o.name, o.spec, AddressMetrics(o.metrics, a, IsSubscription(o)))
  }

  /** updateAddressMetrics. */
  method UpdateAddressMetrics(o: Obj, a: AgentAddress) returns (m: Obj)
    requires o.Address?
    ensures m == Measured(o, a)
  {
    hide WithValue, WithSample, AllMade;
    ghost var us := AddressUpdates(a, IsSubscription(o));
    var metrics := WithValue(o.metrics, "enmasse_messages_stored", a.depth, a.now);
    ghost var m1;
    if !IsSubscription(o) {
      metrics := WithValue(metrics, "enmasse_senders", a.senders, a.now);
      MadeTwo(o.metrics, us[0], us[1], us[2..], a.now);
      m1 := metrics;
      metrics := WithValue(metrics, "enmasse_receivers", a.receivers, a.now);
      metrics := WithSample(metrics, "enmasse_messages_in", a.messagesIn, a.now);
      MadeTwo(m1, us[2], us[3], us[4..], a.now);
      MadeOne(metrics, us[4], a.now);
      metrics := WithSample(metrics, "enmasse_messages_out", a.messagesOut, a.now);
      assert us == [us[0], us[1]] + us[2..] && us[2..] == [us[2], us[3]] + us[4..] && us[4..] == [us[4]];
    } else {
      var consumers, messagesIn, messagesOut, i := 0, 0, 0, 0;
      while i < |a.shards|
        invariant 0 <= i <= |a.shards| && consumers == Consumers(a.shards[..i])
        invariant messagesIn == Enqueued(a.shards[..i]) && messagesOut == Dequeued(a.shards[..i])
      {
        assert a.shards[..i + 1][..i] == a.shards[..i];
        consumers := consumers + a.shards[i].consumers;
        messagesIn := messagesIn + a.shards[i].enqueued;
        messagesOut := messagesOut + a.shards[i].acknowledged + a.shards[i].killed;
        i := i + 1;
      }
      assert a.shards[..i] == a.shards;
      metrics := WithValue(metrics, "enmasse_receivers", consumers, a.now);
      MadeTwo(o.metrics, us[0], us[1], us[2..], a.now);
      m1 := metrics;
      metrics := WithSample(metrics, "enmasse_messages_in", messagesIn, a.now);
      metrics := WithSample(metrics, "enmasse_messages_out", messagesOut, a.now);
      MadeTwo(m1, us[2], us[3], [], a.now);
      assert us == [us[0], us[1]] + us[2..] && us[2..] == [us[2], us[3]] + [];
    }
    m := Address(o.namespace, o.name, o.spec, metrics);
  }

  function AddressKey(a: AgentAddress): string { "Address/" + a.namespace + "/" + a.name }

  /** The key is that of the address with the reported namespace and name, and of no other object. */
  lemma AddressKeyTells(a: AgentAddress, o: Obj)
    requires HasKey(o) && '/' !in a.namespace && (o.Address? ==> '/' !in o.namespace)
    ensures IndexKey(o) == AddressKey(a) + [NUL] <==> o.Address? && o.namespace == a.namespace && o.name == a.name
  {
    hide IndexKey, AddressKey, HasKey;
    AddressKeyShape(a);
    PrefixIsKind(Addresses, o);
    if o.Address? {
      AddressIndexKey(o);
      var x, y := o.namespace + "/" + (o.name + [NUL]), a.namespace + "/" + (a.name + [NUL]);
      assert ("Address/" + x)[8..] == x && ("Address/" + y)[8..] == y;
      PairsTell(o.namespace, o.name + [NUL], a.namespace, a.name + [NUL]);
      Terminated(o.name, a.name);
    }
  }

  lemma AddressKeyShape(a: AgentAddress)
    ensures AddressKey(a) + [NUL] == "Address/" + (a.namespace + "/" + (a.name + [NUL])) && Prefix(Addresses) <= AddressKey(a) + [NUL]
  {
  }

  lemma AddressIndexKey(o: Obj)
    requires o.Address?
    ensures IndexKey(o) == "Address/" + (o.namespace + "/" + (o.name + [NUL]))
  {
  }

  /** The first key in order that extends a prefix. */
  ghost predicate IsFirst(store: Store, p: string, x: string) {
    x in store && p < x && forall y :: y in store && p < y && y != x ==> Less(x, y)
  }

  /** What a report on an address does: it sets the metrics of the first object whose key extends that of the address. */
  ghost predicate AddressTaken(a: AgentAddress, before: Store, after: Store) {
    if exists x :: x in before && AddressKey(a) < x
    then exists x :: IsFirst(before, AddressKey(a), x) && before[x].Address? && after == before[x := Measured(before[x], a)]
    else after == before
  }

  /** What it should do: set the metrics of that address if it is cached, and nothing else. */
  ghost predicate AddressEffect(a: AgentAddress, before: Store, after: Store) {
    var k := AddressKey(a) + [NUL];
    if k in before then before[k].Address? && after == before[k := Measured(before[k], a)] else after == before
  }

  /** The address is cached, or its metrics change no other. */
  ghost predicate AddressFits(a: AgentAddress, store: Store) {
    AddressKey(a) + [NUL] in store ||
    forall x :: IsFirst(store, AddressKey(a), x) && store[x].Address? ==> Measured(store[x], a) == store[x]
  }

  /** It does just that if and only if the address is cached, or the first one found has these metrics already. */
  lemma AddressExact(a: AgentAddress, before: Store, after: Store)
    requires WellKeyed(before) && AddressTaken(a, before, after)
    ensures AddressEffect(a, before, after) <==> AddressFits(a, before)
    ensures SameButAddressMetrics(before, after)
  {
    hide IndexKey, AddressKey, Measured, WellKeyed;
    var p := AddressKey(a);
    if x :| IsFirst(before, p, x) && before[x].Address? && after == before[x := Measured(before[x], a)] {
      FirstIsOne(before, p, x);
      MeasuredPayload(before[x], a);
      ExactIsFirst(before, p);
    }
  }

  lemma FirstIsOne(store: Store, p: string, x: string)
    requires IsFirst(store, p, x)
    ensures forall y :: IsFirst(store, p, y) ==> y == x
  {
    forall y | IsFirst(store, p, y)
      ensures y == x
    {
      if y != x {
        LessTrans(x, y, x);
        LessIrrefl(x);
      }
    }
  }

  lemma ExactIsFirst(store: Store, p: string)
    ensures p + [NUL] in store ==> IsFirst(store, p, p + [NUL])
  {
    forall y | y in store && p < y && y != p + [NUL]
      ensures Less(p + [NUL], y)
    {
      PrefixAbove(p, y);
      LessTotal(p + [NUL], y);
    }
  }

  lemma MeasuredPayload(o: Obj, a: AgentAddress)
    requires o.Address?
    ensures Measured(o, a).Address? && Payload(Measured(o, a)) == Payload(o)
  {
  }

  /** What each event does to the cache. */
  ghost predicate Effect(e: AgentEvent, before: Store, after: Store) {
    match e
    case Restarted(ns, space) =>
      && (forall k :: k in after <==> k in before && !InSpace(before[k], ns, space))
      && (forall k :: k in after ==> after[k] == before[k])
    case ConnectionReported(c) => Upserted(c, before, after)
    case AddressReported(a) => AddressEffect(a, before, after)
    case ConnectionGone(id) => OthersSame(id, before, after) && forall k :: k in after ==> !About(after[k], id)
    case AddressGone => after == before
  }

  /** The ids an event speaks of are among `ids`. */
  ghost predicate Speaks(e: AgentEvent, ids: iset<Id>) {
    match e
    case Restarted(ns, space) => Part(ns) && Part(space)
    case ConnectionReported(c) => IdOf(c) in ids
    case ConnectionGone(id) => id in ids
    case _ => true
  }

  /** What the event's scans find of other connections and addresses does no harm. */
  ghost predicate Fits(e: AgentEvent, store: Store) {
    match e
    case AddressReported(a) => AddressFits(a, store)
    case ConnectionReported(c) => Findable(store, IdOf(c)) && Harmless(c, store)
    case ConnectionGone(id) => Alone(store, id)
    case _ => true
  }

  /** Where no id is a prefix of another one of the same address space, every event about a connection fits. */
  lemma PrefixFreeFits(e: AgentEvent, store: Store, ids: iset<Id>)
    requires Tidy(store, ids) && Speaks(e, ids) && forall a, b :: a in ids && b in ids && Extends(a, b) ==> a == b
    ensures !e.AddressReported? ==> Fits(e, store)
  {
    hide ConnectionKey, Extends, IndexKey, Harmless;
    if e.ConnectionReported? {
      forall k | k in store && store[k].Connection? && Extends(Owner(store[k]), IdOf(e.c))
        ensures ConnectionKey(IdOf(e.c)) in store
      {
        StoredIsCached(store, k);
        ConnectionKeyOf(store[k]);
      }
      SuitedIsHarmless(e.c, store);
    }
  }

  /** With a connection "ab" cached, connection "a" is not found, so no report of it has its effect. */
  lemma ReportFails(c: AgentConnection, spec: Env, metrics: Metrics)
    requires IdOf(c) == Id("n", "s", "a")
    ensures var o := Connection("n", "s", "ab", spec, metrics);
            var store := map[IndexKey(o) := o];
            Linked(store, iset{Owner(o), IdOf(c)}) && !Findable(store, IdOf(c)) && !Fits(ConnectionReported(c), store)
  {
    var o := Connection("n", "s", "ab", spec, metrics);
    hide IndexKey, ConnectionKey, Harmless;
    var store := map[IndexKey(o) := o];
    assert IndexKey(o) in store && "a" <= "ab";
    ConnectionKeyOf(o);
    ConnectionKeysDiffer(Owner(o), IdOf(c));
  }

  /** With connections "a" and "ab" and a link of "ab" cached, a report of "a" that does not name that link deletes it. */
  lemma StrayFails(c: AgentConnection, spec: Env, uid: string)
    requires IdOf(c) == Id("n", "s", "a") && Count(ToLinks(c), uid) == 0
    ensures var o, q := Connection("n", "s", "a", spec, map[]), Connection("n", "s", "ab", spec, map[]);
            var l := Link("n", "s", "ab", uid, uid, "", "sender", map[]);
            var store := map[IndexKey(o) := o, IndexKey(q) := q, IndexKey(l) := l];
            && Linked(store, iset{Owner(o), Owner(q)}) && Findable(store, IdOf(c)) && !Fits(ConnectionReported(c), store)
            && (forall d :: Resolved(c, IdOf(c), store, d) ==> IndexKey(l) !in Swapped(c, store, d))
  {
    hide IndexKey, ConnectionKey, LinkKey, ToLinks, Count, Swapped, Resolved;
    var o, q := Connection("n", "s", "a", spec, map[]), Connection("n", "s", "ab", spec, map[]);
    var l := Link("n", "s", "ab", uid, uid, "", "sender", map[]);
    var ids := iset{Owner(o), Owner(q)};
    ConnectionKeyOf(o);
    ConnectionKeyOf(q);
    LinkKeyOf(l);
    ConnectionKeysDiffer(Owner(o), Owner(q));
    KeysApart(Owner(o), Owner(l), uid);
    KeysApart(Owner(q), Owner(l), uid);
    assert "a" <= "ab" && "a" != "ab";
    var store := map[IndexKey(o) := o, IndexKey(q) := q, IndexKey(l) := l];
    assert store[IndexKey(l)] == l && store[IndexKey(o)] == o && store[IndexKey(q)] == q;
    assert IsStray(l, c);
    assert Tidy(store, ids);
    forall d | Resolved(c, IdOf(c), store, d)
      ensures IndexKey(l) !in Swapped(c, store, d)
    {
      StrayAfter(c, ids, store, d, IndexKey(l));
    }
  }

  /** handleEvent. An event has its effect if and only if it fits. */
  method HandleEvent(cache: ObjectCache, e: AgentEvent, ghost ids: iset<Id>)
    requires cache.Valid() && AllProper(ids) && Speaks(e, ids) && Tidy(cache.Store(), ids)
    modifies cache
    ensures cache.Valid() && Tidy(cache.Store(), ids)
    ensures Effect(e, old(cache.Store()), cache.Store()) <==> Fits(e, old(cache.Store()))
    ensures e.ConnectionGone? ==> Dropped(e.id, old(cache.Store()), cache.Store())
    ensures e.AddressReported? ==> AddressTaken(e.a, old(cache.Store()), cache.Store())
    ensures Connected(old(cache.Store())) && Keeps(e, old(cache.Store())) ==> Connected(cache.Store())
  {
    hide Upserted, WellKeyed, Tidy, Connected, Alone, Findable, Harmless, AddressTaken, AddressEffect, AddressFits;
    match e {
      case Restarted(ns, space) => Drop(cache, Id(ns, space, []), ids);
      case ConnectionReported(c) => UpsertConnection(cache, c, ids);
      case AddressReported(a) => UpdateAddress(cache, a, ids);
      case ConnectionGone(id) =>
        ghost var before := cache.Store();
        Drop(cache, id, ids);
        DropIsExact(id, ids, before, cache.Store());
      case AddressGone =>
    }
  }

  /** A connection that is reported is found, or none is found for it. */
  ghost predicate Keeps(e: AgentEvent, store: Store) { e.ConnectionReported? ==> Findable(store, IdOf(e.c)) }

  /** The metrics of the first object whose key extends that of the address; none is made. */
  method UpdateAddress(cache: ObjectCache, a: AgentAddress, ghost ids: iset<Id>)
    requires cache.Valid() && Tidy(cache.Store(), ids)
    modifies cache
    ensures cache.Valid() && Tidy(cache.Store(), ids) && AddressTaken(a, old(cache.Store()), cache.Store())
    ensures AddressEffect(a, old(cache.Store()), cache.Store()) <==> AddressFits(a, old(cache.Store()))
    ensures SameButAddressMetrics(old(cache.Store()), cache.Store())
    ensures Connected(old(cache.Store())) ==> Connected(cache.Store())
  {
    hide IndexKey, Added, Clean, ConnectionKey, AddressKey, Tidy, Connected, AddressTaken, AddressEffect, AddressFits, IsFirst,
      SameButAddressMetrics;
    ghost var before := cache.Store();
    var p := AddressKey(a);
    var found := Get(cache.entries, p, (), All);
    AllRun(Objects(Extending(cache.entries, p)));
    ValidIsWellKeyed(cache);
    if found.objs != [] {
      var o := found.objs[0];
      FirstIsLeast(cache.entries, p);
      FoundIn(cache.entries, p, o);
      AddressFound(a, o);
      var m := UpdateAddressMetrics(o, a);
      MeasuredKey(o, a);
      AddedOne(before, m);
      var failed := cache.Add([m]);
      assert cache.Store() == before[IndexKey(o) := m];
      ValidIsWellKeyed(cache);
      MeasuredStore(a, before, ids, o);
    } else {
      forall k | k in before
        ensures !(p < k)
      {
        StoredIsCached(before, k);
        FoundIn(cache.entries, p, before[k]);
      }
      Unmeasured(a, before);
    }
    AddressExact(a, before, cache.Store());
  }

  lemma Unmeasured(a: AgentAddress, before: Store)
    requires forall k :: k in before ==> !(AddressKey(a) < k)
    ensures AddressTaken(a, before, before)
  {
  }

  lemma MeasuredStore(a: AgentAddress, before: Store, ids: iset<Id>, o: Obj)
    requires Tidy(before, ids) && Cached(before, o) && o.Address? && IsFirst(before, AddressKey(a), IndexKey(o))
    requires WellKeyed(before[IndexKey(o) := Measured(o, a)])
    ensures Tidy(before[IndexKey(o) := Measured(o, a)], ids)
    ensures Connected(before) ==> Connected(before[IndexKey(o) := Measured(o, a)])
    ensures AddressTaken(a, before, before[IndexKey(o) := Measured(o, a)])
  {
    hide IndexKey, ConnectionKey, AddressKey, WellKeyed;
  }

  /** A scan comes first to the first key in order. */
  lemma FirstIsLeast(es: Entries, p: string)
    requires Sorted(es) && (forall e :: e in es ==> e.key == IndexKey(e.obj)) && Objects(Extending(es, p)) != []
    ensures IsFirst(Contents(es), p, IndexKey(Objects(Extending(es, p))[0]))
  {
    hide IndexKey, Less;
    var r := Extending(es, p);
    assert r != [];
    ExtendingSorted(es, p);
    ObjectsAt(r, 0);
    assert r[0] in r && r[0] in es;
    var x := r[0].key;
    var i0 :| 0 <= i0 < |es| && es[i0] == r[0];
    ContentsHas(es, x);
    forall y | y in Contents(es) && p < y && y != x
      ensures Less(x, y)
    {
      ContentsHas(es, y);
      var i :| 0 <= i < |es| && es[i].key == y;
      assert es[i] in r;
      var j :| 0 <= j < |r| && r[j] == es[i];
    }
  }

  lemma MeasuredKey(o: Obj, a: AgentAddress)
    requires o.Address?
    ensures IndexKey(Measured(o, a)) == IndexKey(o) && HasKey(Measured(o, a)) == HasKey(o)
  {
  }

  lemma AddressFound(a: AgentAddress, o: Obj)
    requires HasKey(o) && AddressKey(a) <= IndexKey(o)
    ensures o.Address?
  {
    assert Prefix(Addresses) <= AddressKey(a);
    PrefixIsKind(Addresses, o);
  }

  /** The scan comes first to the key that is the prefix itself, if there is one. */
  lemma FirstIsExact(es: Entries, p: string)
    requires Sorted(es) && forall e :: e in es ==> e.key == IndexKey(e.obj)
    ensures p + [NUL] in Contents(es) ==>
              var os := Objects(Extending(es, p)); os != [] && IndexKey(os[0]) == p + [NUL]
  {
    hide IndexKey;
    ContentsHas(es, p + [NUL]);
    if i :| 0 <= i < |es| && es[i].key == p + [NUL] {
      var r := Extending(es, p);
      ExtendingSorted(es, p);
      assert es[i] in r;
      var j :| 0 <= j < |r| && r[j] == es[i];
      assert r[0] in r;
      ObjectsAt(r, 0);
      PrefixAbove(p, r[0].key);
    }
  }

  /** A whole run: each event has its effect if and only if it fits the store it finds, and as long as reported connections are
      found or new, every cached link belongs to a cached connection. */
  method HandleEvents(cache: ObjectCache, events: seq<AgentEvent>, ghost ids: iset<Id>) returns (ghost stores: seq<Store>)
    requires cache.Valid() && AllProper(ids) && Tidy(cache.Store(), ids) && forall e :: e in events ==> Speaks(e, ids)
    modifies cache
    ensures cache.Valid() && |stores| == |events| + 1 && stores[0] == old(cache.Store()) && stores[|events|] == cache.Store()
    ensures forall i :: 0 <= i <= |events| ==> Tidy(stores[i], ids)
    ensures forall i :: 0 <= i < |events| ==> (Effect(events[i], stores[i], stores[i + 1]) <==> Fits(events[i], stores[i]))
    ensures forall i :: 0 <= i <= |events| && Connected(stores[0]) && AllKeep(events[..i], stores) ==> Connected(stores[i])
  {
    stores := [cache.Store()];
    assert Handling(events, 0, stores, ids);
    hide Tidy, Effect, Speaks, Fits, Keeps, Connected, Handling;
    var i := 0;
    while i < |events|
      invariant cache.Valid() && 0 <= i <= |events| && |stores| == i + 1 && Handling(events, i, stores, ids)
      invariant stores[0] == old(cache.Store()) && stores[i] == cache.Store() && Tidy(cache.Store(), ids)
    {
      HandleEvent(cache, events[i], ids);
      HandlesNext(events, i, stores, ids, cache.Store());
      stores := stores + [cache.Store()];
      i := i + 1;
    }
    HandlingFacts(events, stores, ids);
  }

  /** Every reported connection is found, or none is found for it. */
  ghost predicate AllKeep(events: seq<AgentEvent>, stores: seq<Store>) {
    |events| <= |stores| && forall j :: 0 <= j < |events| ==> Keeps(events[j], stores[j])
  }

  ghost predicate Handling(events: seq<AgentEvent>, i: nat, stores: seq<Store>, ids: iset<Id>)
    requires i <= |events| && |stores| == i + 1
  {
    && (forall j :: 0 <= j <= i ==> Tidy(stores[j], ids))
    && (forall j :: 0 <= j < i ==> (Effect(events[j], stores[j], stores[j + 1]) <==> Fits(events[j], stores[j])))
    && (forall j :: 0 <= j < i && Connected(stores[j]) && Keeps(events[j], stores[j]) ==> Connected(stores[j + 1]))
  }

  lemma HandlesNext(events: seq<AgentEvent>, i: nat, stores: seq<Store>, ids: iset<Id>, store: Store)
    requires i < |events| && |stores| == i + 1 && Handling(events, i, stores, ids) && Tidy(store, ids)
    requires Effect(events[i], stores[i], store) <==> Fits(events[i], stores[i])
    requires Connected(stores[i]) && Keeps(events[i], stores[i]) ==> Connected(store)
    ensures Handling(events, i + 1, stores + [store], ids)
  {
    hide Tidy, Effect, Fits, Keeps, Connected;
    var longer := stores + [store];
    assert forall j :: 0 <= j <= i ==> longer[j] == stores[j];
  }

  lemma HandlingFacts(events: seq<AgentEvent>, stores: seq<Store>, ids: iset<Id>)
    requires |stores| == |events| + 1 && Handling(events, |events|, stores, ids)
    ensures forall i :: 0 <= i <= |events| ==> Tidy(stores[i], ids)
    ensures forall i :: 0 <= i < |events| ==> (Effect(events[i], stores[i], stores[i + 1]) <==> Fits(events[i], stores[i]))
    ensures forall i :: 0 <= i <= |events| && Connected(stores[0]) && AllKeep(events[..i], stores) ==> Connected(stores[i])
  {
    hide Tidy, Effect, Fits, Keeps, Connected;
    forall i: nat | i <= |events| && Connected(stores[0]) && AllKeep(events[..i], stores)
      ensures Connected(stores[i])
    {
      StaysConnected(events, stores, ids, i);
    }
  }

  lemma {:induction false} StaysConnected(events: seq<AgentEvent>, stores: seq<Store>, ids: iset<Id>, i: nat)
    requires |stores| == |events| + 1 && Handling(events, |events|, stores, ids) && i <= |events|
    requires Connected(stores[0]) && AllKeep(events[..i], stores)
    ensures Connected(stores[i])
  {
    hide Tidy, Effect, Fits, Keeps, Connected;
    if i > 0 {
      assert forall j :: 0 <= j < i - 1 ==> events[..i - 1][j] == events[..i][j];
      StaysConnected(events, stores, ids, i - 1);
      assert events[..i][i - 1] == events[i - 1];
    }
  }
}

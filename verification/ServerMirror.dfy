/** What the watchers keep in the cache, said by the names of the resources and without keys
    (pkg/consolegraphql/watchers/resource_watcher_address.go:102-273, pkg/consolegraphql/cache/console_cache.go:41-67). */
module ServerMirror {
  import opened CacheScan
  import opened ConsoleCache
  import opened ResourceWatcher

  /** Namespace and name; resources that are not namespaced have the empty namespace. */
  type Name = (string, string)

  function NameIn(w: Watched, r: Resource): Name { if w.ClusterWide? then ("", r.name) else (r.namespace, r.name) }

  /** The namespace, where it counts, is free of slashes, as those of Kubernetes are. */
  predicate Tame(w: Watched, r: Resource) { w.ClusterWide? || '/' !in r.namespace }

  // ----- Keys and names -----

  /** Only an address name without a dot has no key. */
  lemma CreateHasKey(w: Watched, r: Resource)
    requires Supported(w)
    ensures HasKey(Create(w, r)) <==> (w.Addresses? ==> '.' in r.name)
  {
  }

  /** Two resources have one key exactly when they have one name. */
  lemma KeysTell(w: Watched, r: Resource, s: Resource)
    requires Tame(w, r) && Tame(w, s)
    ensures KeyFor(w, r) == KeyFor(w, s) <==> NameIn(w, r) == NameIn(w, s)
  {
    var p, a, b := Prefix(w), Place(Create(w, r)), Place(Create(w, s));
    assert KeyFor(w, r) == p + a + [NUL] && KeyFor(w, s) == p + b + [NUL];
    Terminated(p + a, p + b);
    assert p + a == p + b <==> a == b by {
      assert (p + a)[|p|..] == a && (p + b)[|p|..] == b;
    }
    if !w.ClusterWide? {
      PairsTell(r.namespace, r.name, s.namespace, s.name);
    }
  }

  // ----- The server -----

  /** What the server lists; of two items with one name the later one counts. */
  function ServerListing(w: Watched, items: seq<Resource>): map<Name, Resource> {
    if items == [] then map[]
    else
      var r := items[|items| - 1];
      ServerListing(w, items[..|items| - 1])[NameIn(w, r) := Kept(w, r)]
  }

  /** What the server has after its events. */
  function ServerAfter(w: Watched, has: map<Name, Resource>, es: seq<Event>): map<Name, Resource> {
    if es == [] then has
    else
      var before := ServerAfter(w, has, es[..|es| - 1]);
      match es[|es| - 1]
      case Create_(r) => before[NameIn(w, r) := Kept(w, r)]
      case Modify(r) => before[NameIn(w, r) := Kept(w, r)]
      case Remove(r) => before - {NameIn(w, r)}
      case _ => before
  }

  predicate TameEvent(w: Watched, e: Event) { (e.Create_? || e.Modify? || e.Remove?) ==> Tame(w, e.r) }

  /** The view by key has what the one by name has. */
  ghost predicate Corresponds(w: Watched, view: map<string, Resource>, has: map<Name, Resource>) {
    forall x :: Tame(w, x) ==>
      (KeyFor(w, x) in view <==> NameIn(w, x) in has) &&
      (KeyFor(w, x) in view && NameIn(w, x) in has ==> view[KeyFor(w, x)] == has[NameIn(w, x)])
  }

  lemma CorrespondsPut(w: Watched, view: map<string, Resource>, has: map<Name, Resource>, r: Resource)
    requires Corresponds(w, view, has) && Tame(w, r)
    ensures Corresponds(w, view[KeyFor(w, r) := Kept(w, r)], has[NameIn(w, r) := Kept(w, r)])
    ensures Corresponds(w, view - {KeyFor(w, r)}, has - {NameIn(w, r)})
  {
    hide KeyFor, NameIn, Kept, Tame;
    forall x | Tame(w, x)
      ensures KeyFor(w, x) == KeyFor(w, r) <==> NameIn(w, x) == NameIn(w, r)
    {
      KeysTell(w, x, r);
    }
  }

  lemma {:induction false} ListingCorresponds(w: Watched, items: seq<Resource>)
    requires forall r :: r in items ==> Tame(w, r)
    ensures Corresponds(w, Listing(w, items), ServerListing(w, items))
    decreases |items|
  {
    hide Corresponds, KeyFor, Kept, Tame;
    if items == [] {
      NothingCorresponds(w);
    } else {
      var front, r := items[..|items| - 1], items[|items| - 1];
      assert r in items && forall x :: x in front ==> x in items;
      ListingCorresponds(w, front);
      CorrespondsPut(w, Listing(w, front), ServerListing(w, front), r);
    }
  }

  lemma NothingCorresponds(w: Watched)
    ensures Corresponds(w, map[], map[])
  {
  }

  lemma {:induction false} EventsCorrespond(w: Watched, view: map<string, Resource>, has: map<Name, Resource>, es: seq<Event>)
    requires Corresponds(w, view, has) && forall e :: e in es ==> TameEvent(w, e)
    ensures Corresponds(w, AllHappened(w, view, es), ServerAfter(w, has, es))
    decreases |es|
  {
    hide Corresponds, KeyFor, Kept, Tame;
    if es != [] {
      var front, e := es[..|es| - 1], es[|es| - 1];
      assert e in es && forall x :: x in front ==> x in es;
      EventsCorrespond(w, view, has, front);
      if e.Create_? || e.Modify? || e.Remove? {
        CorrespondsPut(w, AllHappened(w, view, front), ServerAfter(w, has, front), e.r);
      }
    }
  }

  // ----- The cache against the server -----

  /** The cache holds the resource. */
  ghost predicate HoldsResource(store: Store, w: Watched, x: Resource) {
    exists k :: k in store && OfKind(w, store[k]) && Payload(store[k]) == Kept(w, x)
  }

  lemma HolderKey(w: Watched, o: Obj, x: Resource)
    requires OfKind(w, o) && Payload(o) == Kept(w, x)
    ensures IndexKey(o) == KeyFor(w, x)
  {
  }

  lemma HoldsAtKey(store: Store, w: Watched, x: Resource)
    requires WellKeyed(store) && Supported(w)
    ensures HoldsResource(store, w, x) <==> KeyFor(w, x) in View(store, w) && View(store, w)[KeyFor(w, x)] == Kept(w, x)
  {
    hide KeyFor, Payload, Kept, OfKind, Prefix, HasKey, IndexKey;
    forall k | k in store
      ensures Prefix(w) <= k <==> OfKind(w, store[k])
    {
      PrefixIsKind(w, store[k]);
    }
    if k :| k in store && OfKind(w, store[k]) && Payload(store[k]) == Kept(w, x) {
      HolderKey(w, store[k], x);
    }
  }

  /** While a watcher agrees with the server up to its `n`-th event, the cache holds a resource if and only if the server has it. */
  lemma MirrorsServer(w: Watched, store: Store, pass: Pass, n: nat, x: Resource)
    requires Supported(w) && WellKeyed(store) && Agrees(w, store, pass, n) && Tame(w, x)
    requires (forall r :: r in pass.items ==> Tame(w, r)) && forall e :: e in pass.events ==> TameEvent(w, e)
    ensures var has := ServerAfter(w, ServerListing(w, pass.items), pass.events[..n]);
            HoldsResource(store, w, x) <==> NameIn(w, x) in has && has[NameIn(w, x)] == Kept(w, x)
  {
    hide KeyFor, Kept, Tame, HoldsResource, View, NameIn;
    ListingCorresponds(w, pass.items);
    assert forall e :: e in pass.events[..n] ==> e in pass.events;
    EventsCorrespond(w, Listing(w, pass.items), ServerListing(w, pass.items), pass.events[..n]);
    HoldsAtKey(store, w, x);
  }
}

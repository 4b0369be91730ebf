/** The list/watch/relist loop that keeps the objects of one kind in the cache equal to the API
    server's view; all generated watchers share it (pkg/consolegraphql/watchers/resource_watcher_address.go:102-273,
    pkg/consolegraphql/watchers/resource_watcher.go:42-70). */
module ResourceWatcher {
  import opened FilterEval
  import opened CacheScan
  import opened ConsoleCache

  /** An object as the API server delivers it. */
  datatype Resource = Resource(namespace: string, name: string, spec: Env)

  /** What a watcher watches: addresses, address spaces, or a kind without a namespace. */
  datatype Watched = Addresses | AddressSpaces | ClusterWide(kind: string)

  predicate Supported(w: Watched) { w.ClusterWide? ==> IsClusterKind(w.kind) }

  function KindName(w: Watched): string {
    match w
    case Addresses => "Address"
    case AddressSpaces => "AddressSpace"
    case ClusterWide(kind) => kind
  }

  function Prefix(w: Watched): string { KindName(w) + "/" }

  /** The watcher's create function: a fresh holder without metrics. */
  function Create(w: Watched, r: Resource): Obj {
    match w
    case Addresses => Address(r.namespace, r.name, r.spec, map[])
    case AddressSpaces => AddressSpace(r.namespace, r.name, r.spec, map[])
    case ClusterWide(kind) => Cluster(kind, r.name, r.spec)
  }

  predicate OfKind(w: Watched, o: Obj) {
    match w
    case Addresses => o.Address?
    case AddressSpaces => o.AddressSpace?
    case ClusterWide(kind) => o.Cluster? && o.kind == kind
  }

  /** The resource inside a holder. */
  function Payload(o: Obj): Resource {
    match o
    case Cluster(_, name, spec) => Resource("", name, spec)
    case AddressSpace(ns, name, spec, _) => Resource(ns, name, spec)
    case Address(ns, name, spec, _) => Resource(ns, name, spec)
    case _ => Resource("", "", map[])
  }

  function MetricsOf(o: Obj): Metrics { if o.Address? || o.AddressSpace? then o.metrics else map[] }

  /** The resource as the holder keeps it; cluster-wide kinds have no namespace. */
  function Kept(w: Watched, r: Resource): Resource { if w.ClusterWide? then r.(namespace := "") else r }

  /** The watcher's update function: the payload replaced in place, or nothing when it is unchanged. */
  function Refresh(w: Watched, r: Resource, existing: Obj): Mutation {
    if Payload(existing) == Kept(w, r) then Keeps
    else
      match existing
      case Address(_, _, _, metrics) => Becomes(Address(r.namespace, r.name, r.spec, metrics))
      case AddressSpace(_, _, _, metrics) => Becomes(AddressSpace(r.namespace, r.name, r.spec, metrics))
      case Cluster(kind, _, _) => Becomes(Cluster(kind, r.name, r.spec))
      case _ => Keeps
  }

  function RefreshWith(w: Watched, r: Resource): Obj -> Mutation { o => Refresh(w, r, o) }

  // ----- Keys tell kinds apart -----

  lemma KindsAreParts(kind: string)
    ensures IsClusterKind(kind) || kind == "Address" || kind == "AddressSpace" || kind == "Connection" || kind == "Link" ==>
            '/' !in kind
    ensures IsClusterKind(kind) ==> kind != "Address" && kind != "AddressSpace" && kind != "Connection" && kind != "Link"
  {
  }

  /** A key has a watcher's prefix exactly when its object is of the watched kind. */
  lemma PrefixIsKind(w: Watched, o: Obj)
    requires Supported(w) && HasKey(o)
    ensures Prefix(w) <= IndexKey(o) <==> OfKind(w, o)
  {
    hide Place, IsClusterKind;
    var a, b, y := KindName(w), KindOf(o), Place(o) + [NUL];
    KindsAreParts(a);
    KindsAreParts(b);
    PartPrefix(a, [], b, y);
    assert a + "/" + [] == Prefix(w) && b + "/" + y == IndexKey(o);
    KindNames(w, o);
  }

  lemma KindNames(w: Watched, o: Obj)
    requires Supported(w) && HasKey(o)
    ensures KindName(w) == KindOf(o) <==> OfKind(w, o)
  {
    assert "Address" != "AddressSpace" && "Address" != "Connection" && "Address" != "Link";
    KindsAreParts(KindName(w));
    KindsAreParts(KindOf(o));
  }

  // ----- The server's view -----

  /** Every object is stored under its own key. */
  ghost predicate WellKeyed(store: Store) {
    forall k :: k in store ==> HasKey(store[k]) && k == IndexKey(store[k])
  }

  lemma ValidIsWellKeyed(cache: ObjectCache)
    requires cache.Valid()
    ensures WellKeyed(cache.Store())
  {
    forall k | k in cache.Store()
      ensures HasKey(cache.Store()[k]) && k == IndexKey(cache.Store()[k])
    {
      ContentsHas(cache.entries, k);
      var i :| 0 <= i < |cache.entries| && cache.entries[i].key == k;
      assert cache.entries[i] in cache.entries;
    }
  }

  function KeyFor(w: Watched, r: Resource): string { IndexKey(Create(w, r)) }

  /** The cached resources of the watched kind, by key. */
  ghost function View(store: Store, w: Watched): map<string, Resource> {
    map k | k in store && Prefix(w) <= k :: Payload(store[k])
  }

  /** A listing as the resources by key; of two items with one key the later one counts. */
  function Listing(w: Watched, items: seq<Resource>): map<string, Resource> {
    if items == [] then map[]
    else
      var r := items[|items| - 1];
      Listing(w, items[..|items| - 1])[KeyFor(w, r) := Kept(w, r)]
  }

  /** Nothing but the watched kind differs. */
  ghost predicate OthersKept(w: Watched, before: Store, after: Store) {
    forall k :: !(Prefix(w) <= k) ==> (k in before <==> k in after) && (k in before ==> before[k] == after[k])
  }

  /** How often a key is listed. */
  function Times(w: Watched, items: seq<Resource>, k: string): nat {
    if items == [] then 0
    else Times(w, items[..|items| - 1], k) + if KeyFor(w, items[|items| - 1]) == k then 1 else 0
  }

  lemma {:induction false} ListedIsCounted(w: Watched, items: seq<Resource>, k: string)
    ensures k in Listing(w, items) <==> Times(w, items, k) > 0
    decreases |items|
  {
    hide KeyFor, Kept;
    if items != [] {
      ListedIsCounted(w, items[..|items| - 1], k);
    }
  }

  lemma CreateFacts(w: Watched, r: Resource)
    requires Supported(w) && HasKey(Create(w, r))
    ensures Payload(Create(w, r)) == Kept(w, r) && OfKind(w, Create(w, r)) && Prefix(w) <= KeyFor(w, r)
  {
    PrefixIsKind(w, Create(w, r));
  }

  /** Updating in place keeps the key and the metrics and brings the payload up to date. */
  lemma RefreshFacts(w: Watched, r: Resource, o: Obj)
    requires Supported(w) && HasKey(o) && HasKey(Create(w, r)) && IndexKey(o) == KeyFor(w, r)
    ensures var m := Refresh(w, r, o);
            match m
            case Refuses => false
            case Keeps => Payload(o) == Kept(w, r)
            case Becomes(x) => HasKey(x) && IndexKey(x) == IndexKey(o) && Payload(x) == Kept(w, r) && MetricsOf(x) == MetricsOf(o)
  {
    CreateFacts(w, r);
    PrefixIsKind(w, o);
  }

  // ----- Listing what is cached -----

  /** The filter that fills `curr` during the relist. */
  function Collect(curr: map<string, Obj>, o: Obj): (map<string, Obj>, Verdict) {
    (curr[Key(o) := o], Verdict(false, true, false))
  }

  lemma {:induction false} CollectRun(os: seq<Obj>, curr: map<string, Obj>)
    ensures var r := RunFilter(os, curr, Collect);
            && !r.failed
            && (forall k :: k in r.state <==> k in curr || exists o :: o in os && Key(o) == k)
            && (forall k :: k in r.state ==> (k in curr && r.state[k] == curr[k]) || (r.state[k] in os && Key(r.state[k]) == k))
    decreases |os|
  {
    hide Key;
    if os != [] {
      CollectRun(os[1..], curr[Key(os[0]) := os[0]]);
      assert forall o :: o in os <==> o == os[0] || o in os[1..];
    }
  }

  /** `curr` holds the cached objects of the kind under their keys without the terminator. */
  ghost predicate IsCurrent(curr: map<string, Obj>, store: Store, w: Watched) {
    && (forall k :: k in curr ==> k + [NUL] in store && Prefix(w) <= k + [NUL] && curr[k] == store[k + [NUL]] && Key(curr[k]) == k)
    && (forall k :: k in store && Prefix(w) <= k ==> Key(store[k]) in curr)
  }

  method Current(cache: ObjectCache, w: Watched) returns (curr: map<string, Obj>)
    requires Supported(w) && cache.Valid()
    ensures IsCurrent(curr, cache.Store(), w)
  {
    var found := Get(cache.entries, Prefix(w), map[], Collect);
    curr := found.state;
    ghost var es := Extending(cache.entries, Prefix(w));
    CollectRun(Objects(es), map[]);
    forall k | k in curr
      ensures k + [NUL] in cache.Store() && Prefix(w) <= k + [NUL] && curr[k] == cache.Store()[k + [NUL]] && Key(curr[k]) == k
    {
      ObjectsIn(es, curr[k]);
      var e :| e in es && e.obj == curr[k];
      ContentsHas(cache.entries, e.key);
    }
    forall k | k in cache.Store() && Prefix(w) <= k
      ensures Key(cache.Store()[k]) in curr
    {
      ContentsHas(cache.entries, k);
      var i :| 0 <= i < |cache.entries| && cache.entries[i].key == k;
      var e := cache.entries[i];
      assert e in cache.entries;
      assert Prefix(w) < e.key by { NotWholeKey(w, e.key, e.obj); }
      assert e in es;
      ObjectsIn(es, e.obj);
    }
  }

  lemma NotWholeKey(w: Watched, k: string, o: Obj)
    requires k == IndexKey(o) && Prefix(w) <= k
    ensures Prefix(w) < k
  {
    assert k[|k| - 1] == NUL && Prefix(w)[|Prefix(w)| - 1] == '/';
  }

  // ----- The relist phase -----

  /** The store after the items `done`: they are in it, and all else is as before. */
  ghost predicate MergedStore(w: Watched, before: Store, done: seq<Resource>, store: Store) {
    MergedPayloads(w, before, done, store) && MergedMetrics(w, before, done, store)
  }

  ghost predicate MergedPayloads(w: Watched, before: Store, done: seq<Resource>, store: Store) {
    var listed := Listing(w, done);
    && OthersKept(w, before, store)
    && (forall k :: k in listed ==> Prefix(w) <= k && k in store && Payload(store[k]) == listed[k])
    && (forall k :: Prefix(w) <= k && k !in listed ==> (k in store <==> k in before) && (k in before ==> store[k] == before[k]))
  }

  ghost predicate MergedMetrics(w: Watched, before: Store, done: seq<Resource>, store: Store) {
    forall k :: k in before && k in store && Times(w, done, k) == 1 ==> MetricsOf(store[k]) == MetricsOf(before[k])
  }

  /** `curr` holds the objects from before that are not among `done`. */
  ghost predicate Unseen(w: Watched, before: Store, done: seq<Resource>, curr: map<string, Obj>) {
    var listed := Listing(w, done);
    && (forall k :: k in curr ==> k + [NUL] in before && Prefix(w) <= k + [NUL] && k + [NUL] !in listed &&
                                  curr[k] == before[k + [NUL]] && Key(curr[k]) == k)
    && (forall k :: k in before && Prefix(w) <= k && k !in listed ==> Key(before[k]) in curr)
  }

  ghost predicate Merged(w: Watched, before: Store, done: seq<Resource>, store: Store, curr: map<string, Obj>) {
    MergedStore(w, before, done, store) && Unseen(w, before, done, curr)
  }

  lemma MergedInit(w: Watched, store: Store, curr: map<string, Obj>)
    requires IsCurrent(curr, store, w)
    ensures Merged(w, store, [], store, curr)
  {
    hide Prefix, Key;
  }

  lemma ListingStep(w: Watched, done: seq<Resource>, r: Resource)
    ensures Listing(w, done + [r]) == Listing(w, done)[KeyFor(w, r) := Kept(w, r)]
    ensures forall k :: Times(w, done + [r], k) == Times(w, done, k) + if KeyFor(w, r) == k then 1 else 0
  {
    assert (done + [r])[..|done|] == done;
  }

  lemma UnseenStep(w: Watched, before: Store, done: seq<Resource>, curr: map<string, Obj>, r: Resource, key: string)
    requires Unseen(w, before, done, curr) && KeyFor(w, r) == key + [NUL] && WellKeyed(before)
    ensures Unseen(w, before, done + [r], curr - {key})
  {
    hide Listing, Times, Prefix, Key, KeyFor, Kept, HasKey;
    ListingStep(w, done, r);
    forall k | k in curr - {key}
      ensures k + [NUL] != key + [NUL]
    {
      Terminated(k, key);
    }
    forall k | k in before && Prefix(w) <= k && k !in Listing(w, done + [r])
      ensures Key(before[k]) in curr - {key}
    {
      assert k == Key(before[k]) + [NUL];
    }
  }

  /** One item: an object put under its key, with the metrics of the one it replaces if that one is still in `curr`. */
  lemma MergedStep(w: Watched, before: Store, done: seq<Resource>, store: Store, curr: map<string, Obj>, r: Resource, o: Obj)
    requires Merged(w, before, done, store, curr) && WellKeyed(before) && Supported(w) && HasKey(Create(w, r))
    requires Payload(o) == Kept(w, r) && IndexKey(o) == KeyFor(w, r)
    requires Key(o) in curr ==> KeyFor(w, r) in store && MetricsOf(o) == MetricsOf(store[KeyFor(w, r)])
    ensures Merged(w, before, done + [r], store[KeyFor(w, r) := o], curr - {Key(o)})
  {
    hide Listing, Times, Prefix, Key, KeyFor, Kept, Payload, MetricsOf, HasKey;
    UnseenStep(w, before, done, curr, r, Key(o));
    var key := KeyFor(w, r);
    assert key in before && key !in Listing(w, done) ==> MetricsOf(o) == MetricsOf(before[key]) by {
      if key in before && key !in Listing(w, done) {
        CreateFacts(w, r);
        Terminated(Key(before[key]), Key(o));
      }
    }
    hide MergedStore, Unseen, WellKeyed;
    MergedStoreStep(w, before, done, store, r, o);
  }

  lemma MergedStoreStep(w: Watched, before: Store, done: seq<Resource>, store: Store, r: Resource, o: Obj)
    requires MergedStore(w, before, done, store) && Supported(w) && HasKey(Create(w, r)) && Payload(o) == Kept(w, r)
    requires KeyFor(w, r) in before && KeyFor(w, r) !in Listing(w, done) ==> MetricsOf(o) == MetricsOf(before[KeyFor(w, r)])
    ensures MergedStore(w, before, done + [r], store[KeyFor(w, r) := o])
  {
    hide MergedPayloads, MergedMetrics;
    MergedPayloadsStep(w, before, done, store, r, o);
    MergedMetricsStep(w, before, done, store, r, o);
  }

  lemma MergedPayloadsStep(w: Watched, before: Store, done: seq<Resource>, store: Store, r: Resource, o: Obj)
    requires MergedPayloads(w, before, done, store) && Supported(w) && HasKey(Create(w, r)) && Payload(o) == Kept(w, r)
    ensures MergedPayloads(w, before, done + [r], store[KeyFor(w, r) := o])
  {
    hide Listing, Times, Prefix, KeyFor, Kept, Payload, HasKey, Create, Supported;
    ListingStep(w, done, r);
    CreateFacts(w, r);
  }

  lemma MergedMetricsStep(w: Watched, before: Store, done: seq<Resource>, store: Store, r: Resource, o: Obj)
    requires MergedMetrics(w, before, done, store)
    requires KeyFor(w, r) in before && KeyFor(w, r) !in Listing(w, done) ==> MetricsOf(o) == MetricsOf(before[KeyFor(w, r)])
    ensures MergedMetrics(w, before, done + [r], store[KeyFor(w, r) := o])
  {
    hide Listing, Times, KeyFor, Kept, MetricsOf;
    ListingStep(w, done, r);
    ListedIsCounted(w, done, KeyFor(w, r));
  }

  lemma Terminated(a: string, b: string)
    ensures a + [NUL] == b + [NUL] <==> a == b
  {
    assert (a + [NUL])[..|a|] == a && (b + [NUL])[..|b|] == b;
  }

  lemma StoreUpdate(store: Store, k: string, o: Obj)
    requires k in store && store[k] == o
    ensures store == store[k := o]
  {
  }

  /** Brings the cache to the listing: known objects are refreshed, new ones added, and those not listed
      deleted. It fails exactly when an item has no key. */
  method Relist(cache: ObjectCache, w: Watched, items: seq<Resource>) returns (failed: bool)
    requires Supported(w) && cache.Valid()
    modifies cache
    ensures cache.Valid() && OthersKept(w, old(cache.Store()), cache.Store())
    ensures failed <==> exists r :: r in items && !HasKey(Create(w, r))
    ensures !failed ==> View(cache.Store(), w) == Listing(w, items)
    ensures !failed ==> forall k :: k in old(cache.Store()) && k in cache.Store() && Times(w, items, k) == 1 ==>
                                    MetricsOf(cache.Store()[k]) == MetricsOf(old(cache.Store())[k])
  {
    hide Listing, Times, Prefix, Key, KeyFor, Kept, Payload, MetricsOf, Create, Refresh, HasKey;
    ghost var before := cache.Store();
    ValidIsWellKeyed(cache);
    var curr := Current(cache, w);
    MergedInit(w, before, curr);
    var i := 0;
    while i < |items|
      invariant 0 <= i <= |items| && cache.Valid() && forall j :: 0 <= j < i ==> HasKey(Create(w, items[j]))
      invariant Merged(w, before, items[..i], cache.Store(), curr)
    {
      var r := items[i];
      var candidate := Create(w, r);
      if !HasKey(candidate) {
        return true;
      }
      curr := RelistItem(cache, w, r, curr, before, items[..i]);
      assert items[..i] + [r] == items[..i + 1];
      i := i + 1;
    }
    assert items[..i] == items;
    RemoveStale(cache, w, curr, before, items);
    failed := false;
  }

  method RelistItem(cache: ObjectCache, w: Watched, r: Resource, curr: map<string, Obj>, ghost before: Store, ghost done: seq<Resource>)
    returns (curr': map<string, Obj>)
    requires Supported(w) && cache.Valid() && HasKey(Create(w, r)) && WellKeyed(before)
    requires Merged(w, before, done, cache.Store(), curr)
    modifies cache
    ensures cache.Valid() && Merged(w, before, done + [r], cache.Store(), curr')
  {
    hide Listing, Times, Prefix, Kept, Payload, MetricsOf, Create, Refresh, HasKey, Merged, Place, KindOf;
    ghost var store := cache.Store();
    var candidate := Create(w, r);
    var key := Key(candidate);
    ValidIsWellKeyed(cache);
    CreateFacts(w, r);
    if key in curr {
      MergedCurrent(w, before, done, store, curr, key);
      var existing := curr[key];
      RefreshFacts(w, r, store[key + [NUL]]);
      UpdatedOne(store, existing, RefreshWith(w, r));
      var failed := cache.Update([existing], RefreshWith(w, r));
      assert !failed;
      curr' := curr - {key};
      var o := cache.Store()[key + [NUL]];
      StoreUpdate(cache.Store(), key + [NUL], o);
      assert cache.Store() == store[key + [NUL] := o];
      Terminated(Key(o), key);
      MergedStep(w, before, done, store, curr, r, o);
    } else {
      var failed := cache.Add([candidate]);
      assert !failed;
      assert [candidate][1..] == [];
      curr' := curr;
      MergedStep(w, before, done, store, curr, r, candidate);
      assert curr - {key} == curr;
    }
  }

  /** Deletes what `curr` still holds, in any order. */
  method RemoveStale(cache: ObjectCache, w: Watched, curr: map<string, Obj>, ghost before: Store, ghost items: seq<Resource>)
    requires Supported(w) && cache.Valid() && WellKeyed(before) && Merged(w, before, items, cache.Store(), curr)
    modifies cache
    ensures cache.Valid() && OthersKept(w, before, cache.Store()) && View(cache.Store(), w) == Listing(w, items)
    ensures forall k :: k in before && k in cache.Store() && Times(w, items, k) == 1 ==>
                        MetricsOf(cache.Store()[k]) == MetricsOf(before[k])
  {
    hide Listing, Times, Prefix, Payload, MetricsOf, HasKey, Place, KindOf, Merged, Key, View, OthersKept;
    ghost var merged := cache.Store();
    ghost var gone: set<string> := {};
    var stale := curr;
    while stale != map[]
      invariant cache.Valid() && cache.Store() == merged - gone
      invariant stale.Keys <= curr.Keys && forall k :: k in stale ==> stale[k] == curr[k]
      invariant forall k :: k in gone <==> exists x :: x in curr && x !in stale && k == x + [NUL]
      decreases |stale|
    {
      var k :| k in stale;
      MergedCurrent(w, before, items, merged, curr, k);
      assert k + [NUL] !in gone by {
        if x :| x in curr && x !in stale && k + [NUL] == x + [NUL] {
          Terminated(k, x);
        }
      }
      assert HasKey(stale[k]) && IndexKey(stale[k]) == k + [NUL];
      RemovedOne(cache.Store(), stale[k]);
      var failed := cache.Delete([stale[k]]);
      assert !failed;
      gone := gone + {k + [NUL]};
      stale := stale - {k};
    }
    Swept(w, before, items, merged, curr, gone);
  }

  /** With everything in `curr` gone, what is left of the kind is the listing. */
  lemma Swept(w: Watched, before: Store, items: seq<Resource>, store: Store, curr: map<string, Obj>, gone: set<string>)
    requires Merged(w, before, items, store, curr) && WellKeyed(before)
    requires forall k :: k in gone <==> exists x :: x in curr && k == x + [NUL]
    ensures OthersKept(w, before, store - gone) && View(store - gone, w) == Listing(w, items)
    ensures forall k :: k in before && k in store - gone && Times(w, items, k) == 1 ==>
                        MetricsOf((store - gone)[k]) == MetricsOf(before[k])
  {
    hide Listing, Times, Prefix, Payload, MetricsOf, HasKey, Key;
    var listed := Listing(w, items);
    assert forall k :: k in listed ==> k !in gone by { hide MergedStore, WellKeyed; }
    forall k | k in store && Prefix(w) <= k && k !in listed
      ensures k in gone
    {
      assert k in before && k == Key(before[k]) + [NUL];
    }
    assert forall k :: k in gone ==> Prefix(w) <= k by { hide MergedStore, WellKeyed; }
    hide Unseen, WellKeyed, MergedStore;
    SweptStore(w, before, items, store, gone);
  }

  lemma SweptStore(w: Watched, before: Store, items: seq<Resource>, store: Store, gone: set<string>)
    requires MergedStore(w, before, items, store)
    requires forall k :: k in Listing(w, items) ==> k !in gone
    requires forall k :: k in store && Prefix(w) <= k && k !in Listing(w, items) ==> k in gone
    requires forall k :: k in gone ==> Prefix(w) <= k
    ensures OthersKept(w, before, store - gone) && View(store - gone, w) == Listing(w, items)
    ensures forall k :: k in before && k in store - gone && Times(w, items, k) == 1 ==>
                        MetricsOf((store - gone)[k]) == MetricsOf(before[k])
  {
    hide Listing, Times, Prefix, Payload, MetricsOf;
  }

  /** An object still in `curr` is in the store as it was before. */
  lemma MergedCurrent(w: Watched, before: Store, done: seq<Resource>, store: Store, curr: map<string, Obj>, key: string)
    requires Merged(w, before, done, store, curr) && key in curr
    ensures key + [NUL] in before && key + [NUL] in store
    ensures store[key + [NUL]] == curr[key] == before[key + [NUL]] && Key(curr[key]) == key
  {
    hide Listing, Times, Prefix, Key, Payload, MetricsOf;
  }

  // ----- The event phase -----

  /** A watch event; `Unexpected` carries an object of another type, `Ignored` has a type the watcher does not act on. */
  datatype Event = Create_(r: Resource) | Modify(r: Resource) | Remove(r: Resource) | Unexpected | Ignored

  /** What an event does to the server's view. */
  function Happened(w: Watched, view: map<string, Resource>, e: Event): map<string, Resource> {
    match e
    case Create_(r) => view[KeyFor(w, r) := Kept(w, r)]
    case Modify(r) => view[KeyFor(w, r) := Kept(w, r)]
    case Remove(r) => view - {KeyFor(w, r)}
    case _ => view
  }

  function AllHappened(w: Watched, view: map<string, Resource>, es: seq<Event>): map<string, Resource> {
    if es == [] then view else Happened(w, AllHappened(w, view, es[..|es| - 1]), es[|es| - 1])
  }

  /** An event cannot be applied: no key, or nothing cached under it to modify or delete. */
  predicate Inapplicable(w: Watched, view: map<string, Resource>, e: Event) {
    match e
    case Create_(r) => !HasKey(Create(w, r))
    case Modify(r) => !HasKey(Create(w, r)) || KeyFor(w, r) !in view
    case Remove(r) => !HasKey(Create(w, r)) || KeyFor(w, r) !in view
    case Unexpected => true
    case Ignored => false
  }

  lemma ViewPut(w: Watched, store: Store, r: Resource, o: Obj)
    requires Supported(w) && HasKey(Create(w, r)) && Payload(o) == Kept(w, r)
    ensures View(store[KeyFor(w, r) := o], w) == View(store, w)[KeyFor(w, r) := Kept(w, r)]
    ensures OthersKept(w, store, store[KeyFor(w, r) := o])
  {
    hide Prefix, Payload, KeyFor, Kept;
    CreateFacts(w, r);
  }

  lemma ViewDelete(w: Watched, store: Store, r: Resource)
    requires Supported(w) && HasKey(Create(w, r))
    ensures View(store - {KeyFor(w, r)}, w) == View(store, w) - {KeyFor(w, r)}
    ensures OthersKept(w, store, store - {KeyFor(w, r)})
  {
    hide Prefix, Payload, KeyFor, Kept;
    CreateFacts(w, r);
  }

  /** The event makes a new holder for the key, or removes it; any other event leaves its metrics alone. */
  predicate Renews(w: Watched, e: Event, k: string) { (e.Create_? || e.Remove?) && k == KeyFor(w, e.r) }

  /** What an event keeps of the metrics. */
  ghost predicate MetricsKept(w: Watched, e: Event, before: Store, after: Store) {
    forall k :: !Renews(w, e, k) ==> (k in before <==> k in after) && (k in before ==> MetricsOf(after[k]) == MetricsOf(before[k]))
  }

  /** Applying an event: the view changes as the server's did, other kinds and metrics are kept, or the event does not apply and
      nothing changes. */
  ghost predicate Applied(w: Watched, e: Event, before: Store, after: Store, failed: bool) {
    && OthersKept(w, before, after) && MetricsKept(w, e, before, after)
    && failed == Inapplicable(w, View(before, w), e)
    && View(after, w) == (if failed then View(before, w) else Happened(w, View(before, w), e))
    && (failed ==> after == before)
  }

  lemma NotApplied(w: Watched, e: Event, store: Store)
    requires Inapplicable(w, View(store, w), e) || e.Ignored?
    ensures Applied(w, e, store, store, !e.Ignored?)
  {
    hide Prefix, Payload, Kept, KeyFor, HasKey, Create, MetricsOf;
  }

  lemma PutApplied(w: Watched, e: Event, store: Store, r: Resource, o: Obj)
    requires Supported(w) && HasKey(Create(w, r)) && Payload(o) == Kept(w, r)
    requires e == Create_(r) || (e == Modify(r) && KeyFor(w, r) in store && MetricsOf(o) == MetricsOf(store[KeyFor(w, r)]))
    ensures Applied(w, e, store, store[KeyFor(w, r) := o], false)
  {
    hide Prefix, Payload, Kept, KeyFor, HasKey, Create, MetricsOf;
    ViewPut(w, store, r, o);
    CreateFacts(w, r);
  }

  lemma DeleteApplied(w: Watched, store: Store, r: Resource)
    requires Supported(w) && HasKey(Create(w, r)) && KeyFor(w, r) in store
    ensures Applied(w, Remove(r), store, store - {KeyFor(w, r)}, false)
  {
    hide Prefix, Payload, Kept, KeyFor, HasKey, Create, MetricsOf;
    ViewDelete(w, store, r);
    CreateFacts(w, r);
  }

  lemma NotInView(w: Watched, store: Store, r: Resource)
    requires HasKey(Create(w, r)) ==> KeyFor(w, r) !in store
    ensures Inapplicable(w, View(store, w), Modify(r)) && Inapplicable(w, View(store, w), Remove(r))
  {
    hide Prefix, Payload, KeyFor, HasKey, Create;
  }

  /** Applies one event. */
  method ApplyEvent(cache: ObjectCache, w: Watched, e: Event) returns (failed: bool)
    requires Supported(w) && cache.Valid()
    modifies cache
    ensures cache.Valid() && Applied(w, e, old(cache.Store()), cache.Store(), failed)
  {
    hide Prefix, Payload, Kept, HasKey, Create, Refresh, Place, KindOf, MetricsOf, Applied;
    ghost var store := cache.Store();
    ValidIsWellKeyed(cache);
    match e {
      case Create_(r) =>
        failed := cache.Add([Create(w, r)]);
        if failed {
          NotApplied(w, e, store);
        } else {
          CreateFacts(w, r);
          assert [Create(w, r)][1..] == [];
          PutApplied(w, e, store, r, Create(w, r));
        }
      case Modify(r) => failed := ApplyModify(cache, w, r);
      case Remove(r) =>
        RemovedOne(store, Create(w, r));
        failed := cache.Delete([Create(w, r)]);
        if failed {
          NotInView(w, store, r);
          NotApplied(w, e, store);
        } else {
          DeleteApplied(w, store, r);
        }
      case _ =>
        NotApplied(w, e, store);
        failed := e.Unexpected?;
    }
  }

  method ApplyModify(cache: ObjectCache, w: Watched, r: Resource) returns (failed: bool)
    requires Supported(w) && cache.Valid()
    modifies cache
    ensures cache.Valid() && Applied(w, Modify(r), old(cache.Store()), cache.Store(), failed)
  {
    hide Prefix, Payload, Kept, HasKey, Create, Refresh, Place, KindOf, MetricsOf, Applied;
    ghost var store := cache.Store();
    ValidIsWellKeyed(cache);
    if HasKey(Create(w, r)) && KeyFor(w, r) in store {
      RefreshFacts(w, r, store[KeyFor(w, r)]);
    }
    UpdatedOne(store, Create(w, r), RefreshWith(w, r));
    failed := cache.Update([Create(w, r)], RefreshWith(w, r));
    if failed {
      NotInView(w, store, r);
      NotApplied(w, Modify(r), store);
    } else {
      var o := cache.Store()[KeyFor(w, r)];
      StoreUpdate(cache.Store(), KeyFor(w, r), o);
      assert cache.Store() == store[KeyFor(w, r) := o];
      PutApplied(w, Modify(r), store, r, o);
    }
  }

  // ----- Whole runs -----

  /** What one pass of doWatch meets: the outcome of the list call, of the watch call, the events, and
      whether it is told to stop after them or the channel breaks. */
  datatype Pass = ListFails | Lists(items: seq<Resource>, watchFails: bool, events: seq<Event>, stop: bool)

  /** The cache holds exactly the pass's listing with the first `n` events folded in. */
  ghost predicate Agrees(w: Watched, store: Store, pass: Pass, n: nat) {
    pass.Lists? && n <= |pass.events| && View(store, w) == AllHappened(w, Listing(w, pass.items), pass.events[..n])
  }

  /** The relist gets through. */
  predicate Listable(w: Watched, pass: Pass) { pass.Lists? && forall r :: r in pass.items ==> HasKey(Create(w, r)) }

  /** The event applies to the listing with the events before it folded in. */
  predicate Applies(w: Watched, pass: Pass, j: nat)
    requires pass.Lists? && j < |pass.events|
  {
    !Inapplicable(w, AllHappened(w, Listing(w, pass.items), pass.events[..j]), pass.events[j])
  }

  /** The pass gets to its `n`-th event: all before it apply, and it does not or is not there. */
  predicate Reaches(w: Watched, pass: Pass, n: nat)
    requires pass.Lists?
  {
    if pass.watchFails then n == 0
    else n <= |pass.events| && (forall j :: 0 <= j < n ==> Applies(w, pass, j)) && (n == |pass.events| || !Applies(w, pass, n))
  }

  /** The key is listed once, and no event up to the `n`-th renews its holder. */
  predicate Survives(w: Watched, pass: Pass, n: nat, k: string)
    requires pass.Lists?
  {
    Times(w, pass.items, k) == 1 && forall j :: 0 <= j < n && j < |pass.events| ==> !Renews(w, pass.events[j], k)
  }

  /** Survivors of a pass keep their metrics. */
  ghost predicate SurvivorsKept(w: Watched, pass: Pass, n: nat, before: Store, after: Store)
    requires pass.Lists?
  {
    forall k :: k in before && k in after && Survives(w, pass, n, k) ==> MetricsOf(after[k]) == MetricsOf(before[k])
  }

  /** The pass ends without an error. */
  predicate Completes(w: Watched, pass: Pass) {
    Listable(w, pass) && !pass.watchFails && pass.stop && forall j :: 0 <= j < |pass.events| ==> Applies(w, pass, j)
  }

  /** One pass. Once the relist is through (`synced`), the cache agrees with the server after every
      event applied, whatever state it was found in; it is left agreeing after the last one that
      applies. A failed list call changes nothing. */
  method DoWatch(cache: ObjectCache, w: Watched, pass: Pass) returns (failed: bool, synced: bool, applied: nat)
    requires Supported(w) && cache.Valid()
    modifies cache
    ensures cache.Valid() && OthersKept(w, old(cache.Store()), cache.Store())
    ensures synced <==> Listable(w, pass)
    ensures synced ==> Reaches(w, pass, applied) && Agrees(w, cache.Store(), pass, applied)
    ensures synced ==> SurvivorsKept(w, pass, applied, old(cache.Store()), cache.Store())
    ensures failed <==> !Completes(w, pass)
    ensures pass.ListFails? ==> cache.Store() == old(cache.Store())
  {
    hide Listing, HasKey, Create, View, OthersKept, Happened, Inapplicable, Survives, MetricsKept, MetricsOf, Times;
    applied := 0;
    if pass.ListFails? {
      OthersKeptRefl(w, cache.Store());
      return true, false, 0;
    }
    failed := Relist(cache, w, pass.items);
    if failed {
      return true, false, 0;
    }
    synced := true;
    ghost var listed := cache.Store();
    OthersKeptRefl(w, listed);
    SurvivorsStart(w, pass, old(cache.Store()), listed);
    assert pass.events[..0] == [];
    if pass.watchFails {
      return true, true, 0;
    }
    while applied < |pass.events|
      invariant cache.Valid() && OthersKept(w, old(cache.Store()), cache.Store()) && applied <= |pass.events|
      invariant Agrees(w, cache.Store(), pass, applied)
      invariant forall j :: 0 <= j < applied ==> Applies(w, pass, j)
      invariant SurvivorsKept(w, pass, applied, old(cache.Store()), cache.Store())
    {
      ghost var store := cache.Store();
      var bad := ApplyEvent(cache, w, pass.events[applied]);
      OthersKeptTrans(w, old(cache.Store()), store, cache.Store());
      if !bad {
        SurvivorsStep(w, pass, applied, old(cache.Store()), store, cache.Store());
      }
      assert bad == !Applies(w, pass, applied);
      if bad {
        return true, true, applied;
      }
      assert pass.events[..applied + 1][..applied] == pass.events[..applied];
      applied := applied + 1;
    }
    failed := !pass.stop;
  }

  lemma SurvivorsStart(w: Watched, pass: Pass, before: Store, after: Store)
    requires pass.Lists?
    requires forall k :: k in before && k in after && Times(w, pass.items, k) == 1 ==> MetricsOf(after[k]) == MetricsOf(before[k])
    ensures SurvivorsKept(w, pass, 0, before, after)
  {
    hide Times, MetricsOf;
  }

  lemma SurvivorsStep(w: Watched, pass: Pass, n: nat, before: Store, store: Store, after: Store)
    requires pass.Lists? && n < |pass.events| && SurvivorsKept(w, pass, n, before, store) && MetricsKept(w, pass.events[n], store, after)
    ensures SurvivorsKept(w, pass, n + 1, before, after)
  {
    hide Times, MetricsOf, Renews;
  }

  lemma OthersKeptRefl(w: Watched, a: Store)
    ensures OthersKept(w, a, a)
  {
  }

  lemma OthersKeptTrans(w: Watched, a: Store, b: Store, c: Store)
    requires OthersKept(w, a, b) && OthersKept(w, b, c)
    ensures OthersKept(w, a, c)
  {
    hide Prefix;
  }

  /** The cache is as the pass left it: agreeing with the server up to the last event that applied. */
  ghost predicate LeftBy(w: Watched, store: Store, pass: Pass) {
    pass.Lists? && exists n :: Reaches(w, pass, n) && Agrees(w, store, pass, n)
  }

  /** Only failed list calls come after the pass. */
  ghost predicate IsLast(passes: seq<Pass>, q: nat, ran: nat)
    requires ran <= |passes|
  {
    forall j :: q < j < ran ==> passes[j].ListFails?
  }

  /** The restart loop: passes until one ends without an error, and all of them if none does. Whatever
      the passes before it did, the last one whose list call succeeded leaves the cache agreeing with
      the server if its relist got through, also across list calls that fail afterwards. Other kinds
      are never touched. */
  method Watch(cache: ObjectCache, w: Watched, passes: seq<Pass>) returns (restarts: nat, ran: nat, synced: bool, applied: nat)
    requires Supported(w) && cache.Valid()
    modifies cache
    ensures cache.Valid() && OthersKept(w, old(cache.Store()), cache.Store())
    ensures ran <= |passes| && forall j :: 0 <= j < ran - 1 ==> !Completes(w, passes[j])
    ensures restarts == if 0 < ran && Completes(w, passes[ran - 1]) then ran - 1 else ran
    ensures ran < |passes| ==> restarts < ran
    ensures synced <==> 0 < ran && Listable(w, passes[ran - 1])
    ensures synced ==> Reaches(w, passes[ran - 1], applied) && Agrees(w, cache.Store(), passes[ran - 1], applied)
    ensures forall q :: 0 <= q < ran && Listable(w, passes[q]) && IsLast(passes, q, ran) ==> LeftBy(w, cache.Store(), passes[q])
    ensures (forall q :: 0 <= q < ran ==> passes[q].ListFails?) ==> cache.Store() == old(cache.Store())
  {
    hide Agrees, OthersKept, HasKey, Create, Reaches, Completes, LeftBy, IsLast;
    restarts, ran, synced, applied := 0, 0, false, 0;
    OthersKeptRefl(w, cache.Store());
    var running := true;
    while running && ran < |passes|
      invariant cache.Valid() && OthersKept(w, old(cache.Store()), cache.Store())
      invariant ran <= |passes| && restarts == (if running then ran else ran - 1)
      invariant running ==> forall j :: 0 <= j < ran ==> !Completes(w, passes[j])
      invariant !running ==> 0 < ran && Completes(w, passes[ran - 1]) && forall j :: 0 <= j < ran - 1 ==> !Completes(w, passes[j])
      invariant synced <==> 0 < ran && Listable(w, passes[ran - 1])
      invariant synced ==> Reaches(w, passes[ran - 1], applied) && Agrees(w, cache.Store(), passes[ran - 1], applied)
      invariant forall q :: 0 <= q < ran && Listable(w, passes[q]) && IsLast(passes, q, ran) ==> LeftBy(w, cache.Store(), passes[q])
      invariant (forall q :: 0 <= q < ran ==> passes[q].ListFails?) ==> cache.Store() == old(cache.Store())
      decreases running, |passes| - ran
    {
      ghost var store := cache.Store();
      var failed;
      failed, synced, applied := DoWatch(cache, w, passes[ran]);
      OthersKeptTrans(w, old(cache.Store()), store, cache.Store());
      NextLast(w, passes, ran, store, cache.Store(), applied);
      ran := ran + 1;
      if failed {
        restarts := restarts + 1;
      } else {
        running := false;
      }
    }
  }

  lemma NextLast(w: Watched, passes: seq<Pass>, ran: nat, store: Store, store': Store, applied: nat)
    requires ran < |passes| && (passes[ran].ListFails? ==> store' == store)
    requires forall q :: 0 <= q < ran && Listable(w, passes[q]) && IsLast(passes, q, ran) ==> LeftBy(w, store, passes[q])
    requires Listable(w, passes[ran]) ==> Reaches(w, passes[ran], applied) && Agrees(w, store', passes[ran], applied)
    ensures forall q :: 0 <= q < ran + 1 && Listable(w, passes[q]) && IsLast(passes, q, ran + 1) ==> LeftBy(w, store', passes[q])
  {
    hide Agrees, HasKey, Create, Reaches;
    forall q | 0 <= q < ran + 1 && Listable(w, passes[q]) && IsLast(passes, q, ran + 1)
      ensures LeftBy(w, store', passes[q])
    {
      if q < ran {
        assert passes[ran].ListFails? && IsLast(passes, q, ran);
      }
    }
  }
}

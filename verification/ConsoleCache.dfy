/** The console's object cache: entries under their primary key, changed in transactions
    (pkg/consolegraphql/cache/cache.go:103-220, pkg/consolegraphql/cache/console_cache.go:41-67). */
module ConsoleCache {
  import opened FilterEval
  import opened CacheScan

  datatype Sample = Sample(value: int, time: int)

  /** A metric: its value, when it was last updated and, for a rate, the samples it is calculated from. */
  datatype Metric = Metric(value: int, time: int, series: seq<Sample>)

  type Metrics = map<string, Metric>

  /** A cached object. `spec` is what JSON paths yield on the part of it that is not spelled out here. */
  datatype Obj =
    | Cluster(kind: string, name: string, spec: Env)  // namespaces, plans, schemas, authentication services
    | AddressSpace(namespace: string, name: string, spec: Env, metrics: Metrics)
    | Address(namespace: string, name: string, spec: Env, metrics: Metrics)
    | Connection(namespace: string, addressSpace: string, name: string, spec: Env, metrics: Metrics)
    | Link(namespace: string, addressSpace: string, connection: string, name: string, uid: string,
           address: string, role: string, metrics: Metrics)

  /** The kinds that are cached without a namespace. */
  predicate IsClusterKind(kind: string) {
    kind == "Namespace" || kind == "AddressPlan" || kind == "AddressSpacePlan" || kind == "AddressSpaceSchema" ||
    kind == "AuthenticationService"
  }

  /** primaryUniqueKeyCreator knows the type, and an address name holds a dot. */
  predicate HasKey(o: Obj) { (o.Cluster? ==> IsClusterKind(o.kind)) && (o.Address? ==> '.' in o.name) }

  function KindOf(o: Obj): string {
    match o
    case Cluster(kind, _, _) => kind
    case AddressSpace(_, _, _, _) => "AddressSpace"
    case Address(_, _, _, _) => "Address"
    case Connection(_, _, _, _, _) => "Connection"
    case Link(_, _, _, _, _, _, _, _) => "Link"
  }

  /** Where an object stands within its kind. */
  function Place(o: Obj): string {
    match o
    case Cluster(_, name, _) => name
    case AddressSpace(ns, name, _, _) => ns + "/" + name
    case Address(ns, name, _, _) => ns + "/" + name
    case Connection(ns, space, name, _, _) => ns + "/" + (space + "/" + name)
    case Link(ns, space, con, name, _, _, _, _) => ns + "/" + (space + "/" + (con + "/" + name))
  }

  function Key(o: Obj): string { KindOf(o) + "/" + Place(o) }

  /** hierarchyIndex.FromObject: the key with its terminator. */
  function IndexKey(o: Obj): string { Key(o) + [NUL] }

  lemma PrefixCons(x: char, p: string, y: char, k: string)
    ensures [x] + p <= [y] + k <==> x == y && p <= k
  {
    var a, b := [x] + p, [y] + k;
    if a <= b {
      assert a[0] == b[0] && a[1..] == p && b[1..] == k;
      assert p == b[..|a|][1..] == k[..|p|];
    }
  }

  /** Keys are compared part by part: a prefix that ends a slash-free part fixes that part. */
  lemma {:induction false} PartPrefix(a: string, x: string, b: string, y: string)
    requires '/' !in a && '/' !in b
    ensures a + "/" + x <= b + "/" + y <==> a == b && x <= y
    decreases |a|
  {
    if a == [] || b == [] {
      PrefixCons(if a == [] then '/' else a[0], (a + "/" + x)[1..], if b == [] then '/' else b[0], (b + "/" + y)[1..]);
      assert a != [] ==> a[0] in a;
      assert b != [] ==> b[0] in b;
      assert a == [] ==> (a + "/" + x)[1..] == x;
      assert b == [] ==> (b + "/" + y)[1..] == y;
      assert a + "/" + x == [(a + "/" + x)[0]] + (a + "/" + x)[1..];
      assert b + "/" + y == [(b + "/" + y)[0]] + (b + "/" + y)[1..];
    } else {
      PartPrefix(a[1..], x, b[1..], y);
      assert a + "/" + x == [a[0]] + (a[1..] + "/" + x) && b + "/" + y == [b[0]] + (b[1..] + "/" + y);
      PrefixCons(a[0], a[1..] + "/" + x, b[0], b[1..] + "/" + y);
      assert a == [a[0]] + a[1..] && b == [b[0]] + b[1..];
    }
  }

  lemma PairsTell(a: string, x: string, b: string, y: string)
    requires '/' !in a && '/' !in b
    ensures a + "/" + x == b + "/" + y <==> a == b && x == y
  {
    PartPrefix(a, x, b, y);
    PartPrefix(b, y, a, x);
    if a + "/" + x == b + "/" + y {
      assert a + "/" + x <= b + "/" + y && b + "/" + y <= a + "/" + x;
    }
  }

  // ----- The store as a map -----

  type Entries = seq<Entry<Obj>>

  type Store = map<string, Obj>

  function Contents(es: Entries): Store {
    if es == [] then map[] else Contents(es[1..])[es[0].key := es[0].obj]
  }

  lemma {:induction false} ContentsHas(es: Entries, k: string)
    ensures k in Contents(es) <==> exists i :: 0 <= i < |es| && es[i].key == k
    ensures Sorted(es) ==> forall i :: 0 <= i < |es| && es[i].key == k ==> k in Contents(es) && Contents(es)[k] == es[i].obj
    decreases |es|
  {
    if es != [] {
      ContentsHas(es[1..], k);
      assert forall i :: 0 < i < |es| ==> es[i] == es[1..][i - 1];
      if es[0].key == k {
        forall i | 0 <= i < |es| && es[i].key == k && Sorted(es)
          ensures i == 0
        {
          if i > 0 {
            assert Less(es[0].key, es[i].key);
            LessIrrefl(k);
          }
        }
      }
    }
  }

  function Put(es: Entries, k: string, o: Obj): Entries {
    if es == [] || Less(k, es[0].key) then [Entry(k, o)] + es
    else if es[0].key == k then [Entry(k, o)] + es[1..]
    else [es[0]] + Put(es[1..], k, o)
  }

  /** The first key is below all others. */
  lemma FirstBelow(es: Entries, e: Entry<Obj>)
    requires Sorted(es) && es != [] && e in es[1..]
    ensures Less(es[0].key, e.key)
  {
    var i :| 0 <= i < |es[1..]| && es[1..][i] == e;
    assert es[i + 1] == e;
  }

  lemma SortedCons(e: Entry<Obj>, es: Entries)
    requires Sorted(es) && forall x :: x in es ==> Less(e.key, x.key)
    ensures Sorted([e] + es)
  {
    hide Less;
  }

  lemma SortedRest(es: Entries)
    requires Sorted(es) && es != []
    ensures Sorted(es[1..])
  {
    hide Less;
  }

  lemma {:induction false} PutContents(es: Entries, k: string, o: Obj)
    ensures Contents(Put(es, k, o)) == Contents(es)[k := o]
    ensures forall e :: e in Put(es, k, o) ==> e in es || e == Entry(k, o)
    decreases |es|
  {
    hide Less;
    var r := Put(es, k, o);
    if es == [] || Less(k, es[0].key) {
      assert r[1..] == es;
    } else if es[0].key == k {
      assert r[1..] == es[1..];
    } else {
      PutContents(es[1..], k, o);
      assert r[1..] == Put(es[1..], k, o);
    }
  }

  lemma {:induction false} PutSorted(es: Entries, k: string, o: Obj)
    requires Sorted(es)
    ensures Sorted(Put(es, k, o))
    decreases |es|
  {
    if es != [] {
      hide Sorted, Less, Contents;
      SortedRest(es);
      LessTotal(k, es[0].key);
      forall e | e in es[1..]
        ensures Less(es[0].key, e.key) && (Less(k, es[0].key) ==> Less(k, e.key))
      {
        FirstBelow(es, e);
        if Less(k, es[0].key) {
          LessTrans(k, es[0].key, e.key);
        }
      }
      if Less(k, es[0].key) {
        assert forall e :: e in es ==> e == es[0] || e in es[1..];
        SortedCons(Entry(k, o), es);
      } else if es[0].key == k {
        SortedCons(Entry(k, o), es[1..]);
      } else {
        PutSorted(es[1..], k, o);
        PutContents(es[1..], k, o);
        SortedCons(es[0], Put(es[1..], k, o));
      }
    }
  }

  /** Drops the entries that `drop` picks by key. */
  function Without(es: Entries, drop: string -> bool): Entries {
    if es == [] then [] else (if drop(es[0].key) then [] else [es[0]]) + Without(es[1..], drop)
  }

  lemma {:induction false} WithoutIn(es: Entries, drop: string -> bool)
    ensures forall e :: e in Without(es, drop) <==> e in es && !drop(e.key)
    decreases |es|
  {
    if es != [] {
      WithoutIn(es[1..], drop);
      assert forall e :: e in es <==> e == es[0] || e in es[1..];
    }
  }

  lemma {:induction false} WithoutSorted(es: Entries, drop: string -> bool)
    requires Sorted(es)
    ensures Sorted(Without(es, drop))
    ensures forall e :: e in Without(es, drop) ==> e in es
    decreases |es|
  {
    WithoutIn(es, drop);
    if es != [] {
      hide Sorted, Less;
      SortedRest(es);
      WithoutSorted(es[1..], drop);
      WithoutIn(es[1..], drop);
      if !drop(es[0].key) {
        forall e | e in Without(es[1..], drop)
          ensures Less(es[0].key, e.key)
        {
          FirstBelow(es, e);
        }
        SortedCons(es[0], Without(es[1..], drop));
      } else {
        assert Without(es, drop) == Without(es[1..], drop);
      }
    }
  }

  /** Dropping entries drops their keys from the store. */
  lemma WithoutContents(es: Entries, drop: string -> bool)
    requires Sorted(es)
    ensures Contents(Without(es, drop)) == map k | k in Contents(es) && !drop(k) :: Contents(es)[k]
  {
    hide Sorted, Contents, Without;
    WithoutSorted(es, drop);
    WithoutIn(es, drop);
    var r := Without(es, drop);
    forall k
      ensures k in Contents(r) <==> k in Contents(es) && !drop(k)
      ensures k in Contents(r) && k in Contents(es) ==> Contents(r)[k] == Contents(es)[k]
    {
      ContentsHas(es, k);
      ContentsHas(r, k);
      if i :| 0 <= i < |es| && es[i].key == k {
        if !drop(k) {
          assert es[i] in r;
          var j :| 0 <= j < |r| && r[j] == es[i];
        }
      }
      if j :| 0 <= j < |r| && r[j].key == k {
        assert r[j] in es;
        var i :| 0 <= i < |es| && es[i] == r[j];
      }
    }
  }

  /** The store without the keys that have prefix `p`. */
  function Outside(store: Store, p: string): Store { map k | k in store && !(p <= k) :: store[k] }

  /** The store after inserting objects one by one. */
  function Added(store: Store, os: seq<Obj>): Store
    decreases |os|
  {
    if os == [] then store else Added(store[IndexKey(os[0]) := os[0]], os[1..])
  }

  lemma {:induction false} ObjectsIn(es: Entries, o: Obj)
    ensures o in Objects(es) <==> exists e :: e in es && e.obj == o
    decreases |es|
  {
    if es != [] {
      ObjectsIn(es[1..], o);
      if e :| e in es && e.obj == o {
        assert e == es[0] || e in es[1..];
      }
      assert es[0] in es;
    }
  }

  /** The last of the objects with the key. */
  ghost predicate LastWith(os: seq<Obj>, k: string, i: int) {
    0 <= i < |os| && IndexKey(os[i]) == k && forall j :: i < j < |os| ==> IndexKey(os[j]) != k
  }

  /** What inserting changes: under each key is the last object with it, and all else is kept. */
  lemma {:induction false} AddedHas(store: Store, os: seq<Obj>, k: string)
    ensures k in Added(store, os) <==> k in store || exists i :: 0 <= i < |os| && IndexKey(os[i]) == k
    ensures (forall i :: 0 <= i < |os| ==> IndexKey(os[i]) != k) ==> (k in store ==> Added(store, os)[k] == store[k])
    ensures (exists i :: 0 <= i < |os| && IndexKey(os[i]) == k) ==> exists i :: LastWith(os, k, i) && Added(store, os)[k] == os[i]
    decreases |os|
  {
    hide IndexKey;
    if os != [] {
      var rest := os[1..];
      AddedHas(store[IndexKey(os[0]) := os[0]], rest, k);
      assert forall i :: 0 < i < |os| ==> os[i] == rest[i - 1];
      if j :| LastWith(rest, k, j) && Added(store, os)[k] == rest[j] {
        assert LastWith(os, k, j + 1);
      } else if IndexKey(os[0]) == k {
        assert LastWith(os, k, 0);
      }
    }
  }

  /** What an update function makes of an object. */
  datatype Mutation = Refuses | Keeps | Becomes(o: Obj)

  /** There is an object under the key, and the update function keeps the key. */
  predicate Updatable(store: Store, o: Obj, mutate: Obj -> Mutation) {
    HasKey(o) && IndexKey(o) in store &&
    match mutate(store[IndexKey(o)])
    case Refuses => false
    case Keeps => true
    case Becomes(m) => HasKey(m) && IndexKey(m) == IndexKey(o)
  }

  /** The store after updating objects one by one, or nothing when one of them cannot be. */
  function Updated(store: Store, os: seq<Obj>, mutate: Obj -> Mutation): (r: seq<Store>)
    ensures |r| <= 1
    decreases |os|
  {
    if os == [] then [store]
    else if Updatable(store, os[0], mutate) then
      var k := IndexKey(os[0]);
      Updated(if mutate(store[k]).Becomes? then store[k := mutate(store[k]).o] else store, os[1..], mutate)
    else []
  }

  lemma UpdatedOne(store: Store, o: Obj, mutate: Obj -> Mutation)
    ensures Updated(store, [o], mutate) ==
            if !Updatable(store, o, mutate) then []
            else if mutate(store[IndexKey(o)]).Becomes? then [store[IndexKey(o) := mutate(store[IndexKey(o)]).o]]
            else [store]
  {
    hide IndexKey;
    assert [o][1..] == [];
  }

  /** Updating adds and removes no key, and changes nothing under other keys. An object that is named once and is not kept becomes
      what the update function makes of it. */
  lemma {:induction false} UpdatedKeeps(store: Store, os: seq<Obj>, mutate: Obj -> Mutation, k: string)
    requires Updated(store, os, mutate) != []
    ensures var after := Updated(store, os, mutate)[0];
            && (k in after <==> k in store)
            && ((forall i :: 0 <= i < |os| ==> IndexKey(os[i]) != k) ==> (k in store ==> after[k] == store[k]))
            && (forall i :: 0 <= i < |os| && IndexKey(os[i]) == k && (forall j :: 0 <= j < |os| && j != i ==> IndexKey(os[j]) != k) ==>
                 k in store && after[k] == if mutate(store[k]).Becomes? then mutate(store[k]).o else store[k])
    decreases |os|
  {
    hide IndexKey, HasKey;
    if os != [] {
      var k0, rest := IndexKey(os[0]), os[1..];
      var next := if mutate(store[k0]).Becomes? then store[k0 := mutate(store[k0]).o] else store;
      UpdatedKeeps(next, rest, mutate, k);
      assert forall i :: 0 < i < |os| ==> os[i] == rest[i - 1];
      if i :| 0 <= i < |os| && IndexKey(os[i]) == k && forall j :: 0 <= j < |os| && j != i ==> IndexKey(os[j]) != k {
        if i > 0 {
          assert IndexKey(rest[i - 1]) == k && IndexKey(os[0]) != k;
          assert forall j :: 0 <= j < |rest| && j != i - 1 ==> IndexKey(rest[j]) == IndexKey(os[j + 1]) != k;
        } else {
          assert forall j :: 0 <= j < |rest| ==> IndexKey(rest[j]) == IndexKey(os[j + 1]) != k;
        }
      }
    }
  }

  /** The store after deleting objects one by one, or nothing when one of them is not there. */
  function Removed(store: Store, os: seq<Obj>): (r: seq<Store>)
    ensures |r| <= 1
    decreases |os|
  {
    if os == [] then [store]
    else if HasKey(os[0]) && IndexKey(os[0]) in store then Removed(store - {IndexKey(os[0])}, os[1..])
    else []
  }

  lemma RemovedOne(store: Store, o: Obj)
    ensures Removed(store, [o]) == if HasKey(o) && IndexKey(o) in store then [store - {IndexKey(o)}] else []
  {
    hide IndexKey;
    assert [o][1..] == [];
  }

  ghost predicate DistinctKeys(os: seq<Obj>) {
    forall i, j :: 0 <= i < j < |os| ==> IndexKey(os[i]) != IndexKey(os[j])
  }

  /** Different objects that are all there can be deleted together. */
  lemma {:induction false} RemovedAll(store: Store, os: seq<Obj>)
    requires DistinctKeys(os) && forall o :: o in os ==> HasKey(o) && IndexKey(o) in store
    ensures Removed(store, os) == [store - set o | o in os :: IndexKey(o)]
    decreases |os|
  {
    hide IndexKey;
    if os == [] {
      assert store - (set o | o in os :: IndexKey(o)) == store;
    } else {
      var rest := os[1..];
      forall o | o in rest
        ensures HasKey(o) && IndexKey(o) in store - {IndexKey(os[0])}
      {
        var i :| 0 <= i < |rest| && rest[i] == o;
        assert os[i + 1] == o;
      }
      RemovedAll(store - {IndexKey(os[0])}, rest);
      assert forall o :: o in os <==> o == os[0] || o in rest;
      assert store - {IndexKey(os[0])} - (set o | o in rest :: IndexKey(o)) == store - set o | o in os :: IndexKey(o);
    }
  }

  lemma WithoutOne(store: Store, k: string)
    ensures (map x | x in store && !((x: string) => x == k)(x) :: store[x]) == store - {k}
  {
  }

  /** The object under a key, if any. */
  method First(entries: Entries, k: string) returns (r: seq<Obj>)
    requires Sorted(entries)
    ensures r == if k in Contents(entries) then [Contents(entries)[k]] else []
  {
    r := [];
    var i := 0;
    while i < |entries| && r == []
      invariant 0 <= i <= |entries|
      invariant r == [] ==> forall j :: 0 <= j < i ==> entries[j].key != k
      invariant r != [] ==> exists j :: 0 <= j < |entries| && entries[j].key == k && r == [entries[j].obj]
    {
      if entries[i].key == k {
        r := [entries[i].obj];
      }
      i := i + 1;
    }
    ContentsHas(entries, k);
  }

  // ----- The cache -----

  class ObjectCache {
    var entries: Entries

    ghost predicate Valid()
      reads this
    {
      Sorted(entries) && forall e :: e in entries ==> HasKey(e.obj) && e.key == IndexKey(e.obj)
    }

    ghost function Store(): Store
      reads this
    {
      Contents(entries)
    }

    constructor ()
      ensures Valid() && Store() == map[]
    {
      entries := [];
    }

    /** Inserts or replaces objects in one transaction: an object without a key undoes all of it. */
    method Add(os: seq<Obj>) returns (failed: bool)
      requires Valid()
      modifies this
      ensures Valid() && failed == exists o :: o in os && !HasKey(o)
      ensures Store() == if failed then old(Store()) else Added(old(Store()), os)
    {
      hide Put, Contents, Sorted, IndexKey;
      var txn := entries;
      var i := 0;
      assert os[0..] == os;
      while i < |os|
        invariant entries == old(entries)
        invariant 0 <= i <= |os| && forall j :: 0 <= j < i ==> HasKey(os[j])
        invariant Sorted(txn) && forall e :: e in txn ==> HasKey(e.obj) && e.key == IndexKey(e.obj)
        invariant Added(Contents(txn), os[i..]) == Added(old(Store()), os)
      {
        if !HasKey(os[i]) {
          return true;
        }
        assert os[i..][0] == os[i] && os[i..][1..] == os[i + 1..];
        PutSorted(txn, IndexKey(os[i]), os[i]);
        PutContents(txn, IndexKey(os[i]), os[i]);
        txn := Put(txn, IndexKey(os[i]), os[i]);
        i := i + 1;
      }
      entries := txn;
      failed := false;
    }

    /** Deletes objects by key in one transaction; one that is not there undoes all of it. */
    method Delete(os: seq<Obj>) returns (failed: bool)
      requires Valid()
      modifies this
      ensures Valid() && failed == (Removed(old(Store()), os) == [])
      ensures Store() == if failed then old(Store()) else Removed(old(Store()), os)[0]
    {
      hide Without, Contents, Sorted, IndexKey;
      var txn := entries;
      var i := 0;
      assert os[0..] == os;
      while i < |os|
        invariant entries == old(entries)
        invariant 0 <= i <= |os| && Sorted(txn) && forall e :: e in txn ==> HasKey(e.obj) && e.key == IndexKey(e.obj)
        invariant Removed(Contents(txn), os[i..]) == Removed(old(Store()), os)
      {
        assert os[i..][0] == os[i] && os[i..][1..] == os[i + 1..];
        var k := IndexKey(os[i]);
        var found := First(txn, k);
        if !HasKey(os[i]) || found == [] {
          return true;
        }
        WithoutSorted(txn, x => x == k);
        WithoutContents(txn, x => x == k);
        WithoutOne(Contents(txn), k);
        txn := Without(txn, x => x == k);
        i := i + 1;
      }
      entries := txn;
      failed := false;
    }

    /** Deletes every entry whose key has a prefix. */
    method DeleteByPrefix(p: string)
      requires Valid()
      modifies this
      ensures Valid() && Store() == Outside(old(Store()), p)
    {
      hide Sorted, Contents, Without;
      WithoutSorted(entries, k => p <= k);
      WithoutContents(entries, k => p <= k);
      entries := Without(entries, k => p <= k);
    }

    /** Replaces what is stored under the keys of the objects by what `mutate` makes of it, in one transaction. A missing object,
        a mutator that fails and a changed key are errors and undo all of it. */
    method Update(os: seq<Obj>, mutate: Obj -> Mutation) returns (failed: bool)
      requires Valid()
      modifies this
      ensures Valid() && failed == (Updated(old(Store()), os, mutate) == [])
      ensures Store() == if failed then old(Store()) else Updated(old(Store()), os, mutate)[0]
    {
      hide Put, Contents, Sorted, IndexKey;
      var txn := entries;
      var i := 0;
      assert os[0..] == os;
      while i < |os|
        invariant entries == old(entries)
        invariant 0 <= i <= |os| && Sorted(txn) && forall e :: e in txn ==> HasKey(e.obj) && e.key == IndexKey(e.obj)
        invariant Updated(Contents(txn), os[i..], mutate) == Updated(old(Store()), os, mutate)
      {
        assert os[i..][0] == os[i] && os[i..][1..] == os[i + 1..];
        var k := IndexKey(os[i]);
        var current := First(txn, k);
        if !HasKey(os[i]) || current == [] {
          return true;
        }
        match mutate(current[0]) {
          case Refuses => return true;
          case Keeps =>
          case Becomes(m) =>
            if !HasKey(m) || IndexKey(m) != k {
              return true;
            }
            PutSorted(txn, k, m);
            PutContents(txn, k, m);
            txn := Put(txn, k, m);
        }
        i := i + 1;
      }
      entries := txn;
      failed := false;
    }
  }
}

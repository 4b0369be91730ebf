/** The known routers and brokers, their client states and the hostname directory
    (pkg/state/infra.go:170-277, 965-970). */
module InfraHosts {
  import opened InfraTypes

  /** The client states by host; a state is named by a number. */
  type States = map<Host, nat>

  type Directory = map<string, Host>

  /** The requested hosts by hostname; of two with one hostname the later counts. */
  function Requested(hosts: seq<Host>): (r: Directory)
    ensures forall n :: n in r ==> r[n].hostname == n && r[n] in hosts
    ensures forall h :: h in hosts ==> h.hostname in r
  {
    if hosts == [] then map[] else Requested(hosts[..|hosts| - 1])[hosts[|hosts| - 1].hostname := hosts[|hosts| - 1]]
  }

  /** Of the hosts with one hostname it is the last one. */
  lemma {:induction false} RequestedLast(hosts: seq<Host>, i: nat)
    requires i < |hosts| && forall j :: i < j < |hosts| ==> hosts[j].hostname != hosts[i].hostname
    ensures Requested(hosts)[hosts[i].hostname] == hosts[i]
    decreases |hosts|
  {
    if i < |hosts| - 1 {
      RequestedLast(hosts[..|hosts| - 1], i);
    }
  }

  predicate UniqueNames(s: States) { forall g, h :: g in s && h in s && g.hostname == h.hostname ==> g == h }

  predicate Distinct(s: States) { forall g, h :: g in s && h in s && s[g] == s[h] ==> g == h }

  /** A host keeps its state when it is requested with the same hostname and address. */
  predicate Stays(h: Host, want: Directory) { h.hostname in want && want[h.hostname].ip == h.ip }

  /** Every host of `s` is the one the directory has under its name. */
  predicate Listed(s: States, d: Directory) { forall h :: h in s ==> h.hostname in d && d[h.hostname] == h }

  /** How often each state is shut down when the hosts in `gone` are dropped. */
  ghost predicate ShutDown(s: States, gone: set<Host>, before: multiset<nat>, after: multiset<nat>) {
    forall id :: after[id] == before[id] + if exists h :: h in gone && h in s && s[h] == id then 1 else 0
  }

  /** What bringing the hosts up to date does to the states: those that stay are kept, the ones in `gone` are dropped, and
      on success the rest of the request gets new states. */
  ghost predicate Replaced(before: States, want: Directory, gone: set<Host>, failed: bool, first: nat, after: States) {
    && gone <= before.Keys && (forall h :: h in gone ==> !Stays(h, want))
    && (forall h :: h in before && h !in gone ==> h in after && after[h] == before[h])
    && (forall h :: h in after ==> (h in before && h !in gone) || (!failed && h.hostname in want && want[h.hostname] == h && after[h] >= first))
    && (!failed ==> forall h :: h in before && !Stays(h, want) ==> h in gone)
    && (!failed ==> forall n :: n in want ==> want[n] in after)
  }

  /** On success the hosts are exactly the requested ones. */
  lemma Converged(before: States, want: Directory, gone: set<Host>, first: nat, after: States)
    requires Replaced(before, want, gone, false, first, after) && forall n :: n in want ==> want[n].hostname == n
    ensures forall h :: h in after <==> h.hostname in want && want[h.hostname] == h
  {
    forall h | h in after
      ensures h.hostname in want && want[h.hostname] == h
    {
      if h in before && h !in gone {
        assert Stays(h, want);
        assert want[h.hostname].hostname == h.hostname;
      }
    }
  }

  class HostTable {
    var routers: States
    var brokers: States
    var hostMap: Directory
    var shutdowns: multiset<nat>
    var next: nat

    ghost predicate Valid()
      reads this
    {
      Sane(routers, brokers, next)
    }

    ghost predicate InStep()
      reads this
    {
      Directed(hostMap, routers, brokers)
    }

    constructor ()
      ensures Valid() && InStep() && routers == map[] && brokers == map[] && shutdowns == multiset{}
    {
      routers, brokers, hostMap, shutdowns, next := map[], map[], map[], multiset{}, 0;
    }

    /** Shuts down and removes the hosts in `toRemove`. For a hostname that is not to be added back, the deletion of its router
        connectors may fail, which ends the removal. */
    method Remove(before: States, toAdd: Directory, toRemove: Directory, fails: Host -> bool)
      returns (after: States, failed: bool, ghost gone: set<Host>)
      requires Named(toRemove) && Distinct(before) && forall n :: n in toRemove ==> toRemove[n] in before
      modifies this`hostMap, this`shutdowns
      ensures Removed(before, toRemove, gone, after) && Unlisted(old(hostMap), toRemove, gone, hostMap)
      ensures !failed ==> forall n :: n in toRemove ==> toRemove[n] in gone
      ensures ShutDown(before, gone, old(shutdowns), shutdowns)
      ensures failed <==> exists n :: n in toRemove && n !in toAdd && fails(toRemove[n])
    {
      after, gone := before, {};
      var todo := toRemove.Keys;
      hide ShutDown, Removed, Unlisted;
      assert ShutDown(before, gone, shutdowns, shutdowns) && Removed(before, toRemove, gone, after) && Unlisted(hostMap, toRemove, gone, hostMap) by {
        NoneGone(before, toRemove, shutdowns, hostMap);
      }
      while todo != {}
        invariant todo <= toRemove.Keys && forall n :: n in toRemove ==> (toRemove[n] in gone <==> n !in todo)
        invariant Removed(before, toRemove, gone, after) && Unlisted(old(hostMap), toRemove, gone, hostMap)
        invariant ShutDown(before, gone, old(shutdowns), shutdowns)
        invariant forall n :: n in toRemove && n !in todo ==> n in toAdd || !fails(toRemove[n])
        decreases |todo|
      {
        var n :| n in todo;
        var host := toRemove[n];
        if n !in toAdd && fails(host) {
          return after, true, gone;
        }
        ShutDownOne(before, gone, host, old(shutdowns), shutdowns);
        RemovedOne(before, toRemove, gone, after, old(hostMap), hostMap, n);
        shutdowns := shutdowns + multiset{after[host]};
        hostMap := hostMap - {n};
        after := after - {host};
        gone := gone + {host};
        todo := todo - {n};
        assert forall m :: m in toRemove && toRemove[m] == host ==> m == n;
      }
      failed := false;
    }

    /** Creates states for new hosts. */
    method Create(states: States, toAdd: Directory) returns (after: States)
      requires Creatable(states, toAdd, next)
      modifies this`hostMap, this`next
      ensures next >= old(next) && Created(states, toAdd, {}, old(next), next, after) && Entered(old(hostMap), toAdd, {}, hostMap)
    {
      after := states;
      var todo := toAdd.Keys;
      NoneCreated(states, toAdd, next, hostMap);
      hide *;
      while todo != {}
        invariant todo <= toAdd.Keys && next >= old(next)
        invariant Created(states, toAdd, todo, old(next), next, after) && Entered(old(hostMap), toAdd, todo, hostMap)
        decreases |todo|
      {
        var n :| n in todo;
        CreatedOne(states, toAdd, todo, old(next), next, after, n);
        EnteredOne(old(hostMap), toAdd, todo, hostMap, n);
        after := after[toAdd[n] := next];
        hostMap := hostMap[n := toAdd[n]];
        next := next + 1;
        todo := todo - {n};
      }
    }

    /** The steps that updateRouters and updateBrokers share: compare, drop, create. */
    method Replace(before: States, hosts: seq<Host>, fails: Host -> bool)
      returns (after: States, failed: bool, ghost gone: set<Host>)
      requires UniqueNames(before) && Distinct(before) && forall h :: h in before ==> before[h] < next
      modifies this`hostMap, this`shutdowns, this`next
      ensures Replaced(before, Requested(hosts), gone, failed, old(next), after)
      ensures Redirected(old(hostMap), before, Requested(hosts), gone, failed, hostMap)
      ensures ShutDown(before, gone, old(shutdowns), shutdowns)
      ensures next >= old(next) && Distinct(after) && forall h :: h in after ==> after[h] < next
      ensures failed <==> exists h :: h in before && h.hostname !in Requested(hosts) && fails(h)
    {
      hide Requested, UniqueNames;
      var want := RequestedByName(hosts);
      var toAdd, toRemove := Compare(before, want);
      hide ShutDown;
      var left;
      left, failed, gone := Remove(before, toAdd, toRemove, fails);
      NotRequested(before, want, toAdd, toRemove);
      if failed {
        RemovedOnly(before, want, toAdd, toRemove, gone, left, next);
        RedirectedBy(old(hostMap), before, want, toAdd, toRemove, gone, left, hostMap);
        return left, true, gone;
      }
      ghost var cleared := hostMap;
      assert Creatable(left, toAdd, next);
      after := Create(left, toAdd);
      hide Differ, Removed, Entered, Unlisted, Creatable;
      assert Distinct(after) && forall h :: h in after ==> after[h] < next;
      ReplacedBy(before, want, toAdd, toRemove, gone, left, old(next), next, after);
      hide Replaced, Created;
      RedirectedTo(old(hostMap), before, want, toAdd, toRemove, gone, left, cleared, hostMap);
    }

    /** The routers become exactly the requested ones; unchanged states are kept and each dropped one is shut down once. The
        directory stays in step exactly when no requested router has the name of a broker. */
    method UpdateRouters(hosts: seq<Host>) returns (ghost gone: set<Host>)
      requires Valid()
      modifies this
      ensures Valid() && brokers == old(brokers) && next >= old(next)
      ensures Replaced(old(routers), Requested(hosts), gone, false, old(next), routers)
      ensures Redirected(old(hostMap), old(routers), Requested(hosts), gone, false, hostMap)
      ensures ShutDown(old(routers), gone, old(shutdowns), shutdowns)
      ensures old(InStep()) ==> (InStep() <==> Apart(hosts, brokers))
    {
      hide Requested, Directed, ShutDown, Redirected, Replaced;
      assert UniqueNames(routers) && Distinct(routers) && forall h :: h in routers ==> routers[h] < next;
      hide Sane;
      var after, failed;
      after, failed, gone := Replace(routers, hosts, h => false);
      SaneAfter(routers, brokers, old(next), Requested(hosts), gone, failed, after, next);
      assert old(InStep()) ==> (Directed(hostMap, after, brokers) <==> Apart(hosts, brokers)) by {
        if old(InStep()) {
          RelistedExactly(routers, brokers, old(hostMap), hosts, gone, failed, old(next), after, hostMap);
          DirectedFlips(hostMap, after, brokers);
        }
      }
      routers := after;
    }

    /** The same for the brokers, except that deleting the connectors to a broker that is gone for good may fail; the brokers
        removed so far are then gone and the new ones not there. */
    method UpdateBrokers(hosts: seq<Host>, removeRouterConnectors: bool, connectorFails: Host -> bool)
      returns (failed: bool, ghost gone: set<Host>)
      requires Valid()
      modifies this
      ensures Valid() && routers == old(routers) && next >= old(next)
      ensures Replaced(old(brokers), Requested(hosts), gone, failed, old(next), brokers)
      ensures Redirected(old(hostMap), old(brokers), Requested(hosts), gone, failed, hostMap)
      ensures ShutDown(old(brokers), gone, old(shutdowns), shutdowns)
      ensures failed <==> removeRouterConnectors && exists h :: h in old(brokers) && h.hostname !in Requested(hosts) && connectorFails(h)
      ensures old(InStep()) ==> (InStep() <==> failed || Apart(hosts, routers))
    {
      hide Requested, Directed, ShutDown, Redirected, Replaced;
      assert UniqueNames(brokers) && Distinct(brokers) && forall h :: h in brokers ==> brokers[h] < next;
      hide Sane;
      var after;
      after, failed, gone := Replace(brokers, hosts, h => removeRouterConnectors && connectorFails(h));
      SaneFlips(routers, brokers, old(next));
      SaneAfter(brokers, routers, old(next), Requested(hosts), gone, failed, after, next);
      SaneFlips(after, routers, next);
      assert old(InStep()) ==> (Directed(hostMap, routers, after) <==> failed || Apart(hosts, routers)) by {
        if old(InStep()) {
          DirectedFlips(old(hostMap), routers, brokers);
          RelistedExactly(brokers, routers, old(hostMap), hosts, gone, failed, old(next), after, hostMap);
          DirectedFlips(hostMap, routers, after);
        }
      }
      brokers := after;
    }
  }

  /** Hostnames are unique among the routers and among the brokers, and no state is used twice. */
  ghost predicate Sane(routers: States, brokers: States, next: nat) {
    && UniqueNames(routers) && UniqueNames(brokers) && Distinct(routers) && Distinct(brokers)
    && (forall h :: h in routers ==> routers[h] < next) && (forall h :: h in brokers ==> brokers[h] < next)
    && (forall r, b :: r in routers && b in brokers ==> routers[r] != brokers[b])
  }

  /** The directory lists exactly the routers and the brokers. */
  ghost predicate Directed(d: Directory, routers: States, brokers: States) {
    Listed(routers, d) && Listed(brokers, d) && Covers(d, routers, brokers) && routers.Keys !! brokers.Keys
  }

  lemma DirectedFlips(d: Directory, a: States, b: States)
    ensures Directed(d, a, b) <==> Directed(d, b, a)
  {
    hide Listed;
    assert Covers(d, a, b) <==> Covers(d, b, a);
  }

  lemma SaneFlips(a: States, b: States, next: nat)
    ensures Sane(a, b, next) <==> Sane(b, a, next)
  {
    hide UniqueNames, Distinct;
  }

  /** New states have new numbers. */
  lemma SaneAfter(mine: States, others: States, first: nat, want: Directory, gone: set<Host>, failed: bool, after: States, next: nat)
    requires Sane(mine, others, first) && Named(want) && Replaced(mine, want, gone, failed, first, after)
    requires first <= next && Distinct(after) && forall h :: h in after ==> after[h] < next
    ensures Sane(after, others, next)
  {
    hide UniqueNames, Distinct;
    ReplacedIsUnique(mine, want, gone, failed, first, after);
  }

  lemma ReplacedIsUnique(before: States, want: Directory, gone: set<Host>, failed: bool, first: nat, after: States)
    requires UniqueNames(before) && Named(want) && Replaced(before, want, gone, failed, first, after)
    ensures UniqueNames(after)
  {
    if !failed {
      Converged(before, want, gone, first, after);
    }
  }

  /** No requested host has the name of a known one of the other sort. */
  predicate Apart(hosts: seq<Host>, others: States) {
    forall h, o :: h in hosts && o in others ==> h.hostname != o.hostname
  }

  ghost predicate Covers(d: Directory, a: States, b: States) {
    forall n :: n in d ==> d[n].hostname == n && (d[n] in a || d[n] in b)
  }

  lemma RelistedExactly(mine: States, others: States, d: Directory, hosts: seq<Host>, gone: set<Host>, failed: bool, first: nat,
                        mine': States, d': Directory)
    requires Directed(d, mine, others)
    requires Replaced(mine, Requested(hosts), gone, failed, first, mine')
    requires Redirected(d, mine, Requested(hosts), gone, failed, d')
    ensures Directed(d', mine', others) <==> failed || Apart(hosts, others)
  {
    hide Requested, Redirected;
    if failed || Apart(hosts, others) {
      Relisted(mine, others, d, hosts, gone, failed, first, mine', d');
    } else {
      var h, o :| h in hosts && o in others && h.hostname == o.hostname;
      var r := Requested(hosts)[h.hostname];
      assert r in mine' && r.hostname == o.hostname;
    }
  }

  /** The directory still lists exactly the hosts of both sorts. */
  lemma Relisted(mine: States, others: States, d: Directory, hosts: seq<Host>, gone: set<Host>, failed: bool, first: nat,
                 mine': States, d': Directory)
    requires Directed(d, mine, others) && (failed || Apart(hosts, others))
    requires Replaced(mine, Requested(hosts), gone, failed, first, mine')
    requires Redirected(d, mine, Requested(hosts), gone, failed, d')
    ensures Directed(d', mine', others)
  {
    hide Requested;
    var want := Requested(hosts);
    assert Named(want) && (failed || forall o :: o in others ==> o.hostname !in want);
    forall o | o in others
      ensures o.hostname in d' && d'[o.hostname] == o && o !in mine'
    {
      assert o.hostname in d && d[o.hostname] == o;
      assert !Names(gone, o.hostname);
    }
    forall h | h in mine'
      ensures h.hostname in d' && d'[h.hostname] == h
    {
      if h in mine && h !in gone {
        MineStays(mine, d, want, gone, failed, first, mine', h);
        assert !Names(gone, h.hostname);
      }
    }
    forall n | n in d'
      ensures d'[n].hostname == n && (d'[n] in mine' || d'[n] in others)
    {
      if !(!failed && n in want && want[n] !in mine) {
        assert n in d && d'[n] == d[n];
      }
    }
  }

  lemma MineStays(mine: States, d: Directory, want: Directory, gone: set<Host>, failed: bool, first: nat, mine': States, h: Host)
    requires Replaced(mine, want, gone, failed, first, mine') && Listed(mine, d) && h in mine && h !in gone && Named(want)
    ensures !failed && h.hostname in want ==> want[h.hostname] == h
  {
  }

  // ----- Looking up a broker -----

  /** A broker name is looked up through the directory; a name that is missing there gives the zero host. */
  predicate Known(d: Directory, brokers: States, name: string) { (if name in d then d[name] else Host("", "")) in brokers }

  predicate HasBroker(brokers: States, n: string) { exists b :: b in brokers && b.hostname == n }

  /** With the directory in order, a name is known exactly when a broker has it. */
  lemma KnownIsNamed(d: Directory, routers: States, brokers: States, name: string)
    requires Listed(brokers, d) && Covers(d, routers, brokers) && Host("", "") !in brokers
    ensures Known(d, brokers, name) <==> HasBroker(brokers, name)
  {
  }

  predicate Named(d: Directory) { forall n :: n in d ==> d[n].hostname == n }

  ghost predicate Removed(before: States, toRemove: Directory, gone: set<Host>, after: States) {
    && (forall h :: h in gone ==> h.hostname in toRemove && toRemove[h.hostname] == h)
    && (forall h :: h in after <==> h in before && h !in gone)
    && (forall h :: h in after ==> after[h] == before[h])
  }

  ghost predicate Unlisted(before: Directory, toRemove: Directory, gone: set<Host>, after: Directory) {
    && (forall n :: n in after <==> n in before && !(n in toRemove && toRemove[n] in gone))
    && (forall n :: n in after ==> after[n] == before[n])
  }

  lemma NoneGone(before: States, toRemove: Directory, shutdowns: multiset<nat>, d: Directory)
    ensures ShutDown(before, {}, shutdowns, shutdowns) && Removed(before, toRemove, {}, before) && Unlisted(d, toRemove, {}, d)
  {
  }

  lemma RemovedOne(before: States, toRemove: Directory, gone: set<Host>, states: States, d: Directory, names: Directory, n: string)
    requires Named(toRemove) && Removed(before, toRemove, gone, states) && Unlisted(d, toRemove, gone, names)
    requires n in toRemove && toRemove[n] in before && toRemove[n] !in gone
    ensures toRemove[n] in states && states[toRemove[n]] == before[toRemove[n]]
    ensures Removed(before, toRemove, gone + {toRemove[n]}, states - {toRemove[n]})
    ensures Unlisted(d, toRemove, gone + {toRemove[n]}, names - {n})
  {
  }

  /** The hosts to add, but for the names still to do, have new states numbered from `first` on. */
  ghost predicate Created(states: States, toAdd: Directory, todo: set<string>, first: nat, next: nat, after: States) {
    && (forall h :: h in after <==> h in states || New(h, toAdd, todo))
    && (forall h :: h in after ==> if New(h, toAdd, todo) then first <= after[h] < next else after[h] == states[h])
    && Distinct(after)
  }

  predicate New(h: Host, toAdd: Directory, todo: set<string>) { h.hostname in toAdd && h.hostname !in todo && toAdd[h.hostname] == h }

  ghost predicate Entered(before: Directory, toAdd: Directory, todo: set<string>, after: Directory) {
    && (forall n :: n in after <==> n in before || (n in toAdd && n !in todo))
    && (forall n :: n in after ==> after[n] == if n in toAdd && n !in todo then toAdd[n] else before[n])
  }

  /** States numbered below `next`, and hosts that have none. */
  ghost predicate Creatable(states: States, toAdd: Directory, next: nat) {
    && Named(toAdd) && Distinct(states)
    && (forall h :: h in states ==> states[h] < next)
    && (forall n :: n in toAdd ==> toAdd[n] !in states)
  }

  lemma NoneCreated(states: States, toAdd: Directory, next: nat, d: Directory)
    requires Creatable(states, toAdd, next)
    ensures Created(states, toAdd, toAdd.Keys, next, next, states) && Entered(d, toAdd, toAdd.Keys, d)
  {
  }

  lemma EnteredOne(before: Directory, toAdd: Directory, todo: set<string>, after: Directory, n: string)
    requires n in toAdd && Entered(before, toAdd, todo, after)
    ensures Entered(before, toAdd, todo - {n}, after[n := toAdd[n]])
  {
  }

  lemma CreatedOne(states: States, toAdd: Directory, todo: set<string>, first: nat, next: nat, after: States, n: string)
    requires Creatable(states, toAdd, first) && n in todo && n in toAdd && first <= next
    requires Created(states, toAdd, todo, first, next, after)
    ensures Created(states, toAdd, todo - {n}, first, next + 1, after[toAdd[n] := next])
  {
  }

  /** Removing and creating together. */
  lemma ReplacedBy(before: States, want: Directory, toAdd: Directory, toRemove: Directory, gone: set<Host>, left: States,
                   first: nat, next: nat, after: States)
    requires Named(want) && Differ(before, want, toAdd, toRemove)
    requires Removed(before, toRemove, gone, left) && (forall n :: n in toRemove ==> toRemove[n] in gone)
    requires Created(left, toAdd, {}, first, next, after)
    ensures Replaced(before, want, gone, false, first, after)
  {
    forall n | n in want
      ensures want[n] in after
    {
      if want[n] in before {
        assert Stays(want[n], want);
      } else {
        assert New(want[n], toAdd, {});
      }
    }
  }

  /** A host is removed and not added back exactly when it is not requested under any address. */
  lemma NotRequested(before: States, want: Directory, toAdd: Directory, toRemove: Directory)
    requires UniqueNames(before) && Named(want) && Differ(before, want, toAdd, toRemove)
    ensures forall n :: n in toRemove && n !in toAdd ==> toRemove[n] in before && toRemove[n].hostname == n && n !in want
    ensures forall h :: h in before && h.hostname !in want ==> h.hostname in toRemove && h.hostname !in toAdd && toRemove[h.hostname] == h
  {
  }

  lemma RemovedOnly(before: States, want: Directory, toAdd: Directory, toRemove: Directory, gone: set<Host>, left: States, first: nat)
    requires Differ(before, want, toAdd, toRemove) && Removed(before, toRemove, gone, left)
    ensures Replaced(before, want, gone, true, first, left)
  {
  }

  /** `toAdd` are the requested hosts that are not known, `toRemove` the known ones that do not stay. */
  ghost predicate Differ(before: States, want: Directory, toAdd: Directory, toRemove: Directory) {
    && (forall n :: n in toAdd <==> n in want && want[n] !in before)
    && (forall n :: n in toAdd ==> toAdd[n] == want[n])
    && (forall n :: n in toRemove ==> toRemove[n] in before && toRemove[n].hostname == n && !Stays(toRemove[n], want))
    && (forall h :: h in before && !Stays(h, want) ==> h.hostname in toRemove && toRemove[h.hostname] == h)
  }

  /** The directory afterwards: names of dropped hosts are gone unless a new host has them. */
  ghost predicate Redirected(before: Directory, s: States, want: Directory, gone: set<Host>, failed: bool, after: Directory) {
    forall n ::
      if !failed && n in want && want[n] !in s then n in after && after[n] == want[n]
      else if Names(gone, n) then n !in after
      else (n in after <==> n in before) && (n in before ==> after[n] == before[n])
  }

  ghost predicate Names(hosts: set<Host>, n: string) { exists h :: h in hosts && h.hostname == n }

  lemma NamesGone(before: States, toRemove: Directory, gone: set<Host>, left: States, n: string)
    requires Named(toRemove) && Removed(before, toRemove, gone, left)
    ensures Names(gone, n) <==> n in toRemove && toRemove[n] in gone
  {
  }

  lemma RedirectedBy(d: Directory, before: States, want: Directory, toAdd: Directory, toRemove: Directory, gone: set<Host>,
                     left: States, after: Directory)
    requires Differ(before, want, toAdd, toRemove) && Removed(before, toRemove, gone, left) && Unlisted(d, toRemove, gone, after)
    ensures Redirected(d, before, want, gone, true, after)
  {
    forall n
      ensures Names(gone, n) <==> n in toRemove && toRemove[n] in gone
    {
      NamesGone(before, toRemove, gone, left, n);
    }
  }

  lemma RedirectedTo(d: Directory, before: States, want: Directory, toAdd: Directory, toRemove: Directory, gone: set<Host>,
                     left: States, cleared: Directory, after: Directory)
    requires Differ(before, want, toAdd, toRemove) && Removed(before, toRemove, gone, left)
    requires Unlisted(d, toRemove, gone, cleared) && Entered(cleared, toAdd, {}, after)
    ensures Redirected(d, before, want, gone, false, after)
  {
    forall n
      ensures Names(gone, n) <==> n in toRemove && toRemove[n] in gone
    {
      NamesGone(before, toRemove, gone, left, n);
    }
  }

  method RequestedByName(hosts: seq<Host>) returns (want: Directory)
    ensures want == Requested(hosts)
  {
    want := map[];
    var i := 0;
    while i < |hosts|
      invariant 0 <= i <= |hosts| && want == Requested(hosts[..i])
    {
      RequestedStep(hosts, i);
      hide Requested;
      want := want[hosts[i].hostname := hosts[i]];
      i := i + 1;
    }
    assert hosts[..i] == hosts;
  }

  lemma RequestedStep(hosts: seq<Host>, i: nat)
    requires i < |hosts|
    ensures Requested(hosts[..i + 1]) == Requested(hosts[..i])[hosts[i].hostname := hosts[i]]
  {
    assert hosts[..i + 1][..i] == hosts[..i];
  }

  method Compare(before: States, want: Directory) returns (toAdd: Directory, toRemove: Directory)
    requires UniqueNames(before) && Named(want)
    ensures Differ(before, want, toAdd, toRemove)
  {
    toAdd, toRemove := want, map[];
    var todo := before.Keys;
    while todo != {}
      invariant todo <= before.Keys
      invariant forall n :: n in toAdd <==> n in want && !(want[n] in before && want[n] !in todo)
      invariant forall n :: n in toAdd ==> toAdd[n] == want[n]
      invariant forall n :: n in toRemove ==>
                  toRemove[n] in before && toRemove[n] !in todo && toRemove[n].hostname == n && !Stays(toRemove[n], want)
      invariant forall h :: h in before && h !in todo && !Stays(h, want) ==> h.hostname in toRemove && toRemove[h.hostname] == h
      decreases |todo|
    {
      var host :| host in todo;
      if host.hostname !in toAdd {
        toRemove := toRemove[host.hostname := host];
      } else if toAdd[host.hostname].ip != host.ip {
        toRemove := toRemove[host.hostname := host];
      } else {
        assert want[host.hostname] == host;
        toAdd := toAdd - {host.hostname};
      }
      todo := todo - {host};
    }
  }

  lemma ShutDownOne(s: States, gone: set<Host>, h: Host, before: multiset<nat>, after: multiset<nat>)
    requires ShutDown(s, gone, before, after) && Distinct(s) && h in s && h !in gone
    ensures ShutDown(s, gone + {h}, before, after + multiset{s[h]})
  {
    forall id
      ensures (after + multiset{s[h]})[id] == before[id] + if exists g :: g in gone + {h} && g in s && s[g] == id then 1 else 0
    {
      if id == s[h] {
        assert h in gone + {h};
      } else if g :| g in gone && g in s && s[g] == id {
        assert g in gone + {h};
      }
    }
  }
}

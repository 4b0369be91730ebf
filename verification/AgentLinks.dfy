/** Matching the links an agent reports against the cached ones
    (pkg/consolegraphql/watchers/resource_watcher_agent.go:629-772). */
module AgentLinks {
  import opened FilterEval
  import opened ConsoleCache
  import opened AgentMetrics

  /** A link as the agent reports it, with its counts and the backlogs of the links it stands for. */
  datatype AgentLink = AgentLink(
    uuid: string, address: string, deliveries: int, accepted: int, modified: int, presettled: int, unsettled: int, undelivered: int,
    rejected: int, released: int, backlogs: seq<int>)

  datatype SpaceType = Standard | Brokered

  /** A connection as the agent reports it; `now` is the time at which the report is handled. */
  datatype AgentConnection = AgentConnection(
    namespace: string, addressSpace: string, uuid: string, spaceType: SpaceType, spec: Env, messagesIn: int, messagesOut: int,
    senders: seq<AgentLink>, receivers: seq<AgentLink>, now: int)

  type LinkObj = o: Obj | o.Link? witness Link("", "", "", "", "", "", "", map[])

  function ToLink(l: AgentLink, role: string, c: AgentConnection): Obj {
    Link(c.namespace, c.addressSpace, c.uuid, l.uuid, l.uuid, l.address, role, map[])
  }

  function ToLinksAs(ls: seq<AgentLink>, role: string, c: AgentConnection): (r: seq<LinkObj>)
    ensures |r| == |ls| && forall i :: 0 <= i < |ls| ==> r[i] == ToLink(ls[i], role, c)
  {
    if ls == [] then [] else [ToLink(ls[0], role, c)] + ToLinksAs(ls[1..], role, c)
  }

  /** toLinkObjects: senders first. */
  function ToLinks(c: AgentConnection): (r: seq<LinkObj>)
    ensures |r| == |c.senders| + |c.receivers|
  {
    ToLinksAs(c.senders, "sender", c) + ToLinksAs(c.receivers, "receiver", c)
  }

  /** Every link that the agent reports, in its role, and nothing else. */
  lemma ToLinksMean(c: AgentConnection, l: LinkObj)
    ensures l in ToLinks(c) <==>
            (exists x :: x in c.senders && l == Link(c.namespace, c.addressSpace, c.uuid, x.uuid, x.uuid, x.address, "sender", map[])) ||
            (exists x :: x in c.receivers && l == Link(c.namespace, c.addressSpace, c.uuid, x.uuid, x.uuid, x.address, "receiver", map[]))
  {
    var s, r := ToLinksAs(c.senders, "sender", c), ToLinksAs(c.receivers, "receiver", c);
    assert forall i :: 0 <= i < |s| ==> s[i] == ToLink(c.senders[i], "sender", c);
    assert forall i :: 0 <= i < |r| ==> r[i] == ToLink(c.receivers[i], "receiver", c);
    forall x | x in c.senders
      ensures ToLink(x, "sender", c) in s
    {
      var i :| 0 <= i < |c.senders| && c.senders[i] == x;
      assert s[i] in s;
    }
    forall x | x in c.receivers
      ensures ToLink(x, "receiver", c) in r
    {
      var i :| 0 <= i < |c.receivers| && c.receivers[i] == x;
      assert r[i] in r;
    }
  }

  /** How many links have a UID. */
  function Count(ls: seq<LinkObj>, uid: string): nat {
    if ls == [] then 0 else (if ls[0].uid == uid then 1 else 0) + Count(ls[1..], uid)
  }

  lemma {:induction false} CountConcat(a: seq<LinkObj>, b: seq<LinkObj>, uid: string)
    ensures Count(a + b, uid) == Count(a, uid) + Count(b, uid)
    decreases |a|
  {
    if a == [] {
      assert a + b == b;
    } else {
      CountConcat(a[1..], b, uid);
      assert (a + b)[1..] == a[1..] + b;
    }
  }

  lemma {:induction false} CountZero(ls: seq<LinkObj>, uid: string)
    ensures Count(ls, uid) > 0 <==> exists l :: l in ls && l.uid == uid
    decreases |ls|
  {
    if ls != [] {
      CountZero(ls[1..], uid);
      assert forall l :: l in ls <==> l == ls[0] || l in ls[1..];
    }
  }

  /** Swaps the last element into position `i` and drops the end. */
  function RemoveSwap(ls: seq<LinkObj>, i: nat): seq<LinkObj>
    requires i < |ls|
  {
    ls[i := ls[|ls| - 1]][..|ls| - 1]
  }

  lemma CountOne(l: LinkObj, u: string)
    ensures Count([l], u) == if l.uid == u then 1 else 0
  {
    assert [l][1..] == [];
  }

  lemma RemoveSwapCount(ls: seq<LinkObj>, i: nat, u: string)
    requires i < |ls|
    ensures Count(RemoveSwap(ls, i), u) == Count(ls, u) - if ls[i].uid == u then 1 else 0
  {
    hide Count;
    var n, r, a := |ls|, RemoveSwap(ls, i), ls[..i];
    CountOne(ls[i], u);
    CountConcat(a, ls[i..], u);
    assert ls == a + ls[i..];
    if i == n - 1 {
      assert r == a && ls[i..] == [ls[i]];
    } else {
      var mid, z := ls[i + 1..n - 1], ls[n - 1];
      assert ls[i..] == [ls[i]] + (mid + [z]) && r == a + ([z] + mid);
      CountConcat([ls[i]], mid + [z], u);
      CountConcat(mid, [z], u);
      CountConcat([z], mid, u);
      CountConcat(a, [z] + mid, u);
    }
  }

  lemma RemoveSwapCounts(ls: seq<LinkObj>, i: nat)
    requires i < |ls|
    ensures forall u :: Count(RemoveSwap(ls, i), u) == Count(ls, u) - if ls[i].uid == u then 1 else 0
    ensures forall l :: l in RemoveSwap(ls, i) ==> l in ls
  {
    hide Count;
    forall u
      ensures Count(RemoveSwap(ls, i), u) == Count(ls, u) - if ls[i].uid == u then 1 else 0
    {
      RemoveSwapCount(ls, i, u);
    }
  }

  function Having(ls: seq<LinkObj>, current: seq<LinkObj>, wanted: bool): (r: seq<LinkObj>)
    ensures forall l :: l in r <==> l in ls && (Count(current, l.uid) > 0) == wanted
  {
    if ls == [] then []
    else (if (Count(current, ls[0].uid) > 0) == wanted then [ls[0]] else []) + Having(ls[1..], current, wanted)
  }

  function Excess(a: nat, b: nat): nat { if a > b then a - b else 0 }

  lemma HavingUnfold(ls: seq<LinkObj>, current: seq<LinkObj>, wanted: bool)
    requires ls != []
    ensures Having(ls, current, wanted) ==
            (if (Count(current, ls[0].uid) > 0) == wanted then [ls[0]] else []) + Having(ls[1..], current, wanted)
  {
  }

  lemma HavingStep(ls: seq<LinkObj>, i: nat, current: seq<LinkObj>, wanted: bool, done: seq<LinkObj>)
    requires i < |ls|
    ensures done + Having(ls[i..], current, wanted) ==
            (if (Count(current, ls[i].uid) > 0) == wanted then done + [ls[i]] else done) + Having(ls[i + 1..], current, wanted)
  {
    hide Count, Having;
    HavingUnfold(ls[i..], current, wanted);
    assert ls[i..][0] == ls[i] && ls[i..][1..] == ls[i + 1..];
    var rest := Having(ls[i + 1..], current, wanted);
    assert done + ([ls[i]] + rest) == done + [ls[i]] + rest && done + ([] + rest) == done + rest;
  }

  lemma CountSnoc(ls: seq<LinkObj>, i: nat)
    requires i < |ls|
    ensures forall u :: Count(ls[..i + 1], u) == Count(ls[..i], u) + if ls[i].uid == u then 1 else 0
  {
    hide Count;
    assert ls[..i + 1] == ls[..i] + [ls[i]];
    forall u
      ensures Count(ls[..i + 1], u) == Count(ls[..i], u) + if ls[i].uid == u then 1 else 0
    {
      CountConcat(ls[..i], [ls[i]], u);
      CountOne(ls[i], u);
    }
  }

  /** resolveLinks: cached links that are no longer reported are orphans, the others are to be updated, and
      of the reported links those remain as new that no cached link of the same UID accounts for. */
  method ResolveLinks(current: seq<LinkObj>, existing: seq<LinkObj>)
    returns (orphans: seq<LinkObj>, fresh_: seq<LinkObj>, updating: seq<LinkObj>)
    ensures orphans == Having(existing, current, false) && updating == Having(existing, current, true)
    ensures forall u :: Count(fresh_, u) == Excess(Count(current, u), Count(existing, u))
    ensures forall l :: l in fresh_ ==> l in current
  {
    orphans, fresh_, updating := [], current, [];
    PartwayEnds(current, existing, orphans, fresh_, updating);
    hide Partway, Having, Count;
    var i := 0;
    while i < |existing|
      invariant 0 <= i <= |existing| && Partway(current, existing, i, orphans, fresh_, updating)
    {
      var orphan := IsOrphan(current, existing[i].uid);
      if orphan {
        PartwayOrphan(current, existing, i, orphans, fresh_, updating);
        orphans := orphans + [existing[i]];
      } else {
        var left := RemoveByUid(fresh_, existing[i].uid);
        PartwayUpdating(current, existing, i, orphans, fresh_, updating, left);
        fresh_ := left;
        updating := updating + [existing[i]];
      }
      i := i + 1;
    }
    PartwayEnds(current, existing, orphans, fresh_, updating);
  }

  /** The first `i` cached links are dealt with. */
  ghost predicate Partway(current: seq<LinkObj>, existing: seq<LinkObj>, i: nat, orphans: seq<LinkObj>, fresh_: seq<LinkObj>,
                          updating: seq<LinkObj>)
    requires i <= |existing|
  {
    && Having(existing, current, false) == orphans + Having(existing[i..], current, false)
    && Having(existing, current, true) == updating + Having(existing[i..], current, true)
    && (forall u :: Count(fresh_, u) == Excess(Count(current, u), Count(existing[..i], u)))
    && (forall l :: l in fresh_ ==> l in current)
  }

  lemma PartwayEnds(current: seq<LinkObj>, existing: seq<LinkObj>, orphans: seq<LinkObj>, fresh_: seq<LinkObj>, updating: seq<LinkObj>)
    ensures Partway(current, existing, 0, [], current, [])
    ensures Partway(current, existing, |existing|, orphans, fresh_, updating) ==>
              orphans == Having(existing, current, false) && updating == Having(existing, current, true) &&
              (forall u :: Count(fresh_, u) == Excess(Count(current, u), Count(existing, u))) && forall l :: l in fresh_ ==> l in current
  {
    assert existing[0..] == existing && existing[..|existing|] == existing && existing[..0] == [] == existing[|existing|..];
    assert Having([], current, true) == [] == Having([], current, false);
    assert forall u :: Count([], u) == 0;
    hide Having, Count;
  }

  lemma PartwayOrphan(current: seq<LinkObj>, existing: seq<LinkObj>, i: nat, orphans: seq<LinkObj>, fresh_: seq<LinkObj>,
                      updating: seq<LinkObj>)
    requires i < |existing| && Partway(current, existing, i, orphans, fresh_, updating) && Count(current, existing[i].uid) == 0
    ensures Partway(current, existing, i + 1, orphans + [existing[i]], fresh_, updating)
  {
    hide Having, Count;
    HavingStep(existing, i, current, false, orphans);
    HavingStep(existing, i, current, true, updating);
    CountSnoc(existing, i);
  }

  lemma PartwayUpdating(current: seq<LinkObj>, existing: seq<LinkObj>, i: nat, orphans: seq<LinkObj>, fresh_: seq<LinkObj>,
                        updating: seq<LinkObj>, left: seq<LinkObj>)
    requires i < |existing| && Partway(current, existing, i, orphans, fresh_, updating) && Count(current, existing[i].uid) > 0
    requires forall u :: Count(left, u) == Count(fresh_, u) - if u == existing[i].uid && Count(fresh_, u) > 0 then 1 else 0
    requires forall l :: l in left ==> l in fresh_
    ensures Partway(current, existing, i + 1, orphans, left, updating + [existing[i]])
  {
    hide Having, Count;
    HavingStep(existing, i, current, false, orphans);
    HavingStep(existing, i, current, true, updating);
    CountSnoc(existing, i);
  }

  method IsOrphan(current: seq<LinkObj>, uid: string) returns (orphan: bool)
    ensures orphan <==> Count(current, uid) == 0
  {
    orphan := true;
    var i := 0;
    while i < |current| && orphan
      invariant 0 <= i <= |current|
      invariant orphan ==> forall j :: 0 <= j < i ==> current[j].uid != uid
      invariant !orphan ==> exists j :: 0 <= j < |current| && current[j].uid == uid
    {
      if current[i].uid == uid {
        orphan := false;
      }
      i := i + 1;
    }
    CountZero(current, uid);
    if !orphan {
      var j :| 0 <= j < |current| && current[j].uid == uid;
      assert current[j] in current;
    }
  }

  /** Drops the first link with a UID, if there is one, by swapping it to the end. */
  method RemoveByUid(ls: seq<LinkObj>, uid: string) returns (r: seq<LinkObj>)
    ensures forall u :: Count(r, u) == Excess(Count(ls, u), if u == uid then 1 else 0)
    ensures forall l :: l in r ==> l in ls
  {
    var i := 0;
    while i < |ls| && ls[i].uid != uid
      invariant 0 <= i <= |ls| && forall j :: 0 <= j < i ==> ls[j].uid != uid
    {
      i := i + 1;
    }
    if i < |ls| {
      RemoveSwapCounts(ls, i);
      CountZero(ls, uid);
      assert ls[i] in ls;
      r := RemoveSwap(ls, i);
    } else {
      CountZero(ls, uid);
      r := ls;
    }
  }

  /** Nothing is lost and nothing invented: the new and the updating links together have exactly the reported UIDs. */
  lemma ResolvedCovers(current: seq<LinkObj>, existing: seq<LinkObj>, fresh_: seq<LinkObj>, u: string)
    requires forall x :: Count(fresh_, x) == Excess(Count(current, x), Count(existing, x))
    ensures (exists l :: l in fresh_ && l.uid == u) || (exists l :: l in Having(existing, current, true) && l.uid == u) <==>
            exists l :: l in current && l.uid == u
  {
    CountZero(fresh_, u);
    CountZero(current, u);
    CountZero(existing, u);
    if l :| l in existing && l.uid == u {
      if Count(current, u) > 0 {
        assert l in Having(existing, current, true);
      }
    }
  }

  // ----- Metrics -----

  function Total(ns: seq<int>): int { if ns == [] then 0 else Total(ns[..|ns| - 1]) + ns[|ns| - 1] }

  method Sum(ns: seq<int>) returns (sum: int)
    ensures sum == Total(ns)
  {
    sum := 0;
    var i := 0;
    while i < |ns|
      invariant 0 <= i <= |ns| && sum == Total(ns[..i])
    {
      assert ns[..i + 1][..i] == ns[..i];
      sum := sum + ns[i];
      i := i + 1;
    }
    assert ns[..i] == ns;
  }

  /** What a report of a link does to its metrics. */
  function LinkUpdates(l: AgentLink, rateName: string, spaceType: SpaceType): seq<Update> {
    [Sets("enmasse_deliveries", l.deliveries), Samples(rateName, l.deliveries)] + if spaceType.Brokered? then [] else StandardUpdates(l)
  }

  function StandardUpdates(l: AgentLink): seq<Update> {
    [Sets("enmasse_accepted", l.accepted), Sets("enmasse_modified", l.modified), Sets("enmasse_presettled", l.presettled),
     Sets("enmasse_unsettled", l.unsettled), Sets("enmasse_undelivered", l.undelivered), Sets("enmasse_rejected", l.rejected),
     Sets("enmasse_released", l.released), Sets("enmasse_messages_backlog", Total(l.backlogs))]
  }

  function LinkMetrics(m: Metrics, l: AgentLink, rateName: string, spaceType: SpaceType, now: int): Metrics {
    AllMade(m, LinkUpdates(l, rateName, spaceType), now)
  }

  /** updateLinkMetrics. */
  method UpdateLinkMetrics(m: Metrics, l: AgentLink, rateName: string, spaceType: SpaceType, now: int) returns (r: Metrics)
    ensures r == LinkMetrics(m, l, rateName, spaceType, now)
  {
    hide WithValue, WithSample, Total, AllMade;
    r := WithValue(m, "enmasse_deliveries", l.deliveries, now);
    r := WithSample(r, rateName, l.deliveries, now);
    ghost var us, m1 := if spaceType.Brokered? then [] else StandardUpdates(l), r;
    MadeTwo(m, Sets("enmasse_deliveries", l.deliveries), Samples(rateName, l.deliveries), us, now);
    match spaceType {
      case Standard =>
        r := WithValue(r, "enmasse_accepted", l.accepted, now);
        r := WithValue(r, "enmasse_modified", l.modified, now);
        MadeTwo(m1, us[0], us[1], us[2..], now);
        ghost var m2 := r;
        r := WithValue(r, "enmasse_presettled", l.presettled, now);
        r := WithValue(r, "enmasse_unsettled", l.unsettled, now);
        MadeTwo(m2, us[2], us[3], us[4..], now);
        ghost var m3 := r;
        r := WithValue(r, "enmasse_undelivered", l.undelivered, now);
        r := WithValue(r, "enmasse_rejected", l.rejected, now);
        MadeTwo(m3, us[4], us[5], us[6..], now);
        ghost var m4 := r;
        r := WithValue(r, "enmasse_released", l.released, now);
        var backlog := Sum(l.backlogs);
        r := WithValue(r, "enmasse_messages_backlog", backlog, now);
        MadeTwo(m4, us[6], us[7], [], now);
        assert us == [us[0], us[1]] + us[2..] && us[2..] == [us[2], us[3]] + us[4..] && us[4..] == [us[4], us[5]] + us[6..];
        assert us[6..] == [us[6], us[7]] + [];
      case Brokered =>
    }
  }

  /** What a report says of each metric of a link, by name: the value or the last sample it is given. */
  ghost predicate LinkMeasured(m: Metrics, r: Metrics, l: AgentLink, rateName: string, spaceType: SpaceType, now: int) {
    && IsSet(m, r, "enmasse_deliveries", l.deliveries, now) && IsSampled(m, r, rateName, l.deliveries, now)
    && (spaceType.Standard? ==>
          && IsSet(m, r, "enmasse_accepted", l.accepted, now) && IsSet(m, r, "enmasse_modified", l.modified, now)
          && IsSet(m, r, "enmasse_presettled", l.presettled, now) && IsSet(m, r, "enmasse_unsettled", l.unsettled, now)
          && IsSet(m, r, "enmasse_undelivered", l.undelivered, now) && IsSet(m, r, "enmasse_rejected", l.rejected, now)
          && IsSet(m, r, "enmasse_released", l.released, now) && IsSet(m, r, "enmasse_messages_backlog", Total(l.backlogs), now))
    && AllKeptBut(m, r, {"enmasse_deliveries", rateName} + if spaceType.Standard? then STANDARD_NAMES else {})
  }

  const STANDARD_NAMES := {"enmasse_accepted", "enmasse_modified", "enmasse_presettled", "enmasse_unsettled", "enmasse_undelivered",
                           "enmasse_rejected", "enmasse_released", "enmasse_messages_backlog"}

  /** What tells the names of a link's metrics apart: the length, and a character or two. */
  function Mark(name: string): int
    requires |name| > 10
  {
    |name| * 0x1_0000 + name[8] as int * 0x100 + name[10] as int
  }

  lemma EarlyMarks()
    ensures |"enmasse_deliveries"| > 10 && Mark("enmasse_deliveries") == 0x12_646c
    ensures |"enmasse_messages_in"| > 10 && Mark("enmasse_messages_in") == 0x13_6d73
    ensures |"enmasse_messages_out"| > 10 && Mark("enmasse_messages_out") == 0x14_6d73
    ensures |"enmasse_accepted"| > 10 && Mark("enmasse_accepted") == 0x10_6163
    ensures |"enmasse_modified"| > 10 && Mark("enmasse_modified") == 0x10_6d64
  {
  }

  lemma LateMarks()
    ensures |"enmasse_presettled"| > 10 && Mark("enmasse_presettled") == 0x12_7065
    ensures |"enmasse_unsettled"| > 10 && Mark("enmasse_unsettled") == 0x11_7573
    ensures |"enmasse_undelivered"| > 10 && Mark("enmasse_undelivered") == 0x13_7564
    ensures |"enmasse_rejected"| > 10 && Mark("enmasse_rejected") == 0x10_726a
    ensures |"enmasse_released"| > 10 && Mark("enmasse_released") == 0x10_726c
    ensures |"enmasse_messages_backlog"| > 10 && Mark("enmasse_messages_backlog") == 0x18_6d73
  {
  }

  lemma LinkMarks(l: AgentLink, rateName: string)
    requires rateName == "enmasse_messages_in" || rateName == "enmasse_messages_out"
    ensures var us := LinkUpdates(l, rateName, Standard);
            && |us| == 10 && (forall u :: u in us ==> |u.name| > 10)
            && Mark(us[0].name) == 0x12_646c && Mark(us[1].name) in {0x13_6d73, 0x14_6d73} && Mark(us[2].name) == 0x10_6163
            && Mark(us[3].name) == 0x10_6d64 && Mark(us[4].name) == 0x12_7065 && Mark(us[5].name) == 0x11_7573
            && Mark(us[6].name) == 0x13_7564 && Mark(us[7].name) == 0x10_726a && Mark(us[8].name) == 0x10_726c
            && Mark(us[9].name) == 0x18_6d73
  {
    hide Mark, Total;
    EarlyMarks();
    LateMarks();
  }

  lemma MarksDiffer(ms: seq<int>)
    requires |ms| == 10 && ms[0] == 0x12_646c && (ms[1] == 0x13_6d73 || ms[1] == 0x14_6d73) && ms[2] == 0x10_6163 && ms[3] == 0x10_6d64
    requires ms[4] == 0x12_7065 && ms[5] == 0x11_7573 && ms[6] == 0x13_7564 && ms[7] == 0x10_726a && ms[8] == 0x10_726c && ms[9] == 0x18_6d73
    ensures forall i, j :: 0 <= i < j < 10 ==> ms[i] != ms[j]
  {
  }

  lemma LinkNamesDiffer(l: AgentLink, rateName: string, spaceType: SpaceType)
    requires rateName == "enmasse_messages_in" || rateName == "enmasse_messages_out"
    ensures DistinctNames(LinkUpdates(l, rateName, spaceType))
  {
    LinkMarks(l, rateName);
    var us := LinkUpdates(l, rateName, Standard);
    hide LinkUpdates, Mark;
    var ms := [0x12_646c, Mark(us[1].name), 0x10_6163, 0x10_6d64, 0x12_7065, 0x11_7573, 0x13_7564, 0x10_726a, 0x10_726c, 0x18_6d73];
    MarksDiffer(ms);
    forall i: nat | i < 10
      ensures |us[i].name| > 10
    {
      assert us[i] in us;
    }
    TenMarks(us, ms);
    DifferByMarks(us, ms);
    Shorter(l, rateName, spaceType);
  }

  lemma TenMarks(us: seq<Update>, ms: seq<int>)
    requires |us| == |ms| == 10 && forall i: nat :: i < 10 ==> |us[i].name| > 10
    requires Mark(us[0].name) == ms[0] && Mark(us[1].name) == ms[1] && Mark(us[2].name) == ms[2] && Mark(us[3].name) == ms[3]
    requires Mark(us[4].name) == ms[4] && Mark(us[5].name) == ms[5] && Mark(us[6].name) == ms[6] && Mark(us[7].name) == ms[7]
    requires Mark(us[8].name) == ms[8] && Mark(us[9].name) == ms[9]
    ensures forall i: nat :: i < 10 ==> Mark(us[i].name) == ms[i]
  {
    hide Mark;
  }

  lemma DifferByMarks(us: seq<Update>, ms: seq<int>)
    requires |us| == |ms| && forall i :: 0 <= i < |us| ==> |us[i].name| > 10 && Mark(us[i].name) == ms[i]
    requires forall i, j :: 0 <= i < j < |ms| ==> ms[i] != ms[j]
    ensures DistinctNames(us)
  {
    hide Mark;
    forall i, j | 0 <= i < j < |us|
      ensures us[i].name != us[j].name
    {
      assert Mark(us[i].name) == ms[i] && Mark(us[j].name) == ms[j];
    }
  }

  lemma Shorter(l: AgentLink, rateName: string, spaceType: SpaceType)
    ensures LinkUpdates(l, rateName, spaceType) <= LinkUpdates(l, rateName, Standard)
  {
  }

  /** A report leaves every metric of a link with the count it names, and the other metrics alone. */
  lemma LinkMetricsMean(m: Metrics, l: AgentLink, rateName: string, spaceType: SpaceType, now: int)
    requires rateName == "enmasse_messages_in" || rateName == "enmasse_messages_out"
    ensures LinkMeasured(m, LinkMetrics(m, l, rateName, spaceType, now), l, rateName, spaceType, now)
  {
    hide AllMade, IsSet, IsSampled, KeptAt, Total;
    var us, r := LinkUpdates(l, rateName, spaceType), LinkMetrics(m, l, rateName, spaceType, now);
    LinkNamesDiffer(l, rateName, spaceType);
    forall i: nat | i < |us|
      ensures IsMade(m, r, us[i], now)
    {
      AllMadeAt(m, us, now, i);
    }
    assert IsMade(m, r, us[0], now) && IsMade(m, r, us[1], now);
    if spaceType.Standard? {
      assert IsMade(m, r, us[2], now) && IsMade(m, r, us[3], now) && IsMade(m, r, us[4], now) && IsMade(m, r, us[5], now);
      assert IsMade(m, r, us[6], now) && IsMade(m, r, us[7], now) && IsMade(m, r, us[8], now) && IsMade(m, r, us[9], now);
    }
    var names := {"enmasse_deliveries", rateName} + if spaceType.Standard? then STANDARD_NAMES else {};
    forall n | n !in names
      ensures KeptAt(m, r, n)
    {
      NamesAre(l, rateName, spaceType);
      KeptByAll(m, us, now, n);
    }
  }

  lemma NamesAre(l: AgentLink, rateName: string, spaceType: SpaceType)
    ensures forall u :: u in LinkUpdates(l, rateName, spaceType) ==>
              u.name in {"enmasse_deliveries", rateName} + if spaceType.Standard? then STANDARD_NAMES else {}
  {
    hide Total;
  }

  /** updateAllLinks on one link: the metrics of the agent's link of the same role and name, where there is one. */
  function Metered(l: LinkObj, c: AgentConnection): LinkObj {
    var links := LinkMap(if l.role == "sender" then c.senders else c.receivers);
    if l.name !in links then l
    else
      var rateName := if l.role == "sender" then "enmasse_messages_in" else "enmasse_messages_out";
      Link(l.namespace, l.addressSpace, l.connection, l.name, l.uid, l.address, l.role,
           LinkMetrics(l.metrics, links[l.name], rateName, c.spaceType, c.now))
  }

  /** Reporting a link loses none of its metrics and dates every one it changes. */
  lemma LinkMetricsTouch(m: Metrics, l: AgentLink, rateName: string, spaceType: SpaceType, now: int)
    ensures Touched(m, LinkMetrics(m, l, rateName, spaceType, now), now)
  {
    AllMadeTouch(m, LinkUpdates(l, rateName, spaceType), now);
  }

  /** buildLinkMaps: of two links with one id the later counts. */
  function LinkMap(ls: seq<AgentLink>): map<string, AgentLink> {
    if ls == [] then map[] else LinkMap(ls[..|ls| - 1])[ls[|ls| - 1].uuid := ls[|ls| - 1]]
  }

  /** `i` is the last place in `ls` of a link with that id. */
  ghost predicate LastOf(ls: seq<AgentLink>, id: string, i: int) {
    0 <= i < |ls| && ls[i].uuid == id && forall j :: i < j < |ls| ==> ls[j].uuid != id
  }

  lemma {:induction false} LinkMapHas(ls: seq<AgentLink>, id: string)
    ensures id in LinkMap(ls) <==> exists l :: l in ls && l.uuid == id
    ensures forall i :: LastOf(ls, id, i) ==> id in LinkMap(ls) && LinkMap(ls)[id] == ls[i]
    decreases |ls|
  {
    if ls != [] {
      var front, last := ls[..|ls| - 1], ls[|ls| - 1];
      LinkMapHas(front, id);
      assert ls == front + [last];
      assert forall i :: LastOf(ls, id, i) && i < |front| ==> LastOf(front, id, i) && last.uuid != id;
    }
  }

  /** A cached link is brought up to date by the last link of its id that the agent reports in its role, if there is one; nothing
      but its metrics changes. */
  lemma MeteredMeans(l: LinkObj, c: AgentConnection)
    ensures var r, sends := Metered(l, c), l.role == "sender";
            var links := if sends then c.senders else c.receivers;
            && r.Link? && r == Link(l.namespace, l.addressSpace, l.connection, l.name, l.uid, l.address, l.role, r.metrics)
            && ((exists x :: x in links && x.uuid == l.name) || r == l)
            && forall i :: LastOf(links, l.name, i) ==>
                 LinkMeasured(l.metrics, r.metrics, links[i], if sends then "enmasse_messages_in" else "enmasse_messages_out", c.spaceType, c.now)
  {
    hide LinkMeasured, LinkMetrics, LinkMap;
    var links, rateName := if l.role == "sender" then c.senders else c.receivers,
                           if l.role == "sender" then "enmasse_messages_in" else "enmasse_messages_out";
    LinkMapHas(links, l.name);
    if l.name in LinkMap(links) {
      LinkMetricsMean(l.metrics, LinkMap(links)[l.name], rateName, c.spaceType, c.now);
    }
  }

  method BuildLinkMap(ls: seq<AgentLink>) returns (m: map<string, AgentLink>)
    ensures m == LinkMap(ls)
  {
    m := map[];
    var i := 0;
    while i < |ls|
      invariant 0 <= i <= |ls| && m == LinkMap(ls[..i])
    {
      assert ls[..i + 1][..i] == ls[..i];
      m := m[ls[i].uuid := ls[i]];
      i := i + 1;
    }
    assert ls[..i] == ls;
  }

  function AllMetered(ls: seq<LinkObj>, c: AgentConnection): (r: seq<LinkObj>)
    ensures |r| == |ls| && forall i :: 0 <= i < |ls| ==> r[i] == Metered(ls[i], c)
  {
    if ls == [] then [] else [Metered(ls[0], c)] + AllMetered(ls[1..], c)
  }

  /** updateAllLinks. */
  method UpdateAllLinks(targets: seq<LinkObj>, c: AgentConnection) returns (pending: seq<LinkObj>)
    ensures pending == AllMetered(targets, c)
  {
    hide LinkMetrics, LinkMap;
    var sending := BuildLinkMap(c.senders);
    var receiving := BuildLinkMap(c.receivers);
    pending := [];
    var i := 0;
    while i < |targets|
      invariant 0 <= i <= |targets| && |pending| == i && forall j :: 0 <= j < i ==> pending[j] == Metered(targets[j], c)
    {
      var l := targets[i];
      var links, rateName := receiving, "enmasse_messages_out";
      if l.role == "sender" {
        links, rateName := sending, "enmasse_messages_in";
      }
      if l.name in links {
        var metrics := UpdateLinkMetrics(l.metrics, links[l.name], rateName, c.spaceType, c.now);
        l := Link(l.namespace, l.addressSpace, l.connection, l.name, l.uid, l.address, l.role, metrics);
      }
      pending := pending + [l];
      i := i + 1;
    }
  }
}

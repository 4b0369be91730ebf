/** How the requests of a batch are answered, once each, and what the batch leaves held
    (pkg/state/infra.go:709-770, 805-879, 1290-1370). */
module InfraReplies {
  import opened InfraTypes
  import opened InfraHosts
  import opened InfraPorts
  import opened InfraSteps

  // ----- Requests and replies -----

  /** How often an id occurs. */
  function Times(rs: seq<Request>, id: nat): nat {
    if rs == [] then 0 else (if rs[0].id == id then 1 else 0) + Times(rs[1..], id)
  }

  lemma {:induction false} TimesConcat(a: seq<Request>, b: seq<Request>, id: nat)
    ensures Times(a + b, id) == Times(a, id) + Times(b, id)
    decreases |a|
  {
    if a == [] {
      assert a + b == b;
    } else {
      TimesConcat(a[1..], b, id);
      assert (a + b)[1..] == a[1..] + b;
    }
  }

  lemma NoTimes()
    ensures forall id :: Times([], id) == 0
  {
  }

  lemma TimesCons(rs: seq<Request>)
    requires rs != []
    ensures forall id :: Times(rs, id) == Times(rs[1..], id) + if rs[0].id == id then 1 else 0
  {
  }

  lemma TimesSnoc(a: seq<Request>, r: Request)
    ensures forall id :: Times(a + [r], id) == Times(a, id) + if r.id == id then 1 else 0
  {
    forall id
      ensures Times(a + [r], id) == Times(a, id) + if r.id == id then 1 else 0
    {
      TimesConcat(a, [r], id);
      assert [r][1..] == [];
    }
  }

  lemma {:induction false} TimesHas(rs: seq<Request>, id: nat)
    ensures Times(rs, id) > 0 <==> exists r :: r in rs && r.id == id
    decreases |rs|
  {
    if rs != [] {
      TimesHas(rs[1..], id);
      assert forall r :: r in rs <==> r == rs[0] || r in rs[1..];
    }
  }

  ghost predicate DistinctIds(rs: seq<Request>) { forall i, j :: 0 <= i < j < |rs| ==> rs[i].id != rs[j].id }

  lemma {:induction false} OnceIsDistinct(rs: seq<Request>)
    requires forall id :: Times(rs, id) <= 1
    ensures DistinctIds(rs)
    decreases |rs|
  {
    if rs != [] {
      forall id
        ensures Times(rs[1..], id) <= 1
      {
        assert Times(rs, id) <= 1;
      }
      OnceIsDistinct(rs[1..]);
      forall j | 0 < j < |rs|
        ensures rs[0].id != rs[j].id
      {
        TimesHas(rs[1..], rs[0].id);
        assert Times(rs, rs[0].id) <= 1;
        assert rs[j] in rs[1..];
      }
    }
  }

  type Replies = map<nat, Reply>

  /** Every request of a batch is still pending, or answered once and as `answer` says; other replies are as before. */
  ghost predicate Progress(before: Replies, batch: seq<Request>, answer: Resource -> Reply, pending: set<Request>, after: Replies) {
    && (forall r :: r in pending ==> r in batch && r.id !in after)
    && (forall r :: r in batch && r !in pending ==> r.id in after && after[r.id] == answer(r.resource))
    && (forall id :: id in before ==> id in after && after[id] == before[id])
    && (forall id :: id in after && id !in before ==> exists r :: r in batch && r.id == id)
  }

  lemma ProgressStart(before: Replies, batch: seq<Request>, answer: Resource -> Reply)
    requires forall r :: r in batch ==> r.id !in before
    ensures Progress(before, batch, answer, (set r | r in batch), before)
  {
  }

  lemma ProgressStep(before: Replies, batch: seq<Request>, answer: Resource -> Reply, pending: set<Request>, after: Replies, r: Request)
    requires Progress(before, batch, answer, pending, after) && DistinctIds(batch) && r in pending
    ensures Progress(before, batch, answer, pending - {r}, after[r.id := answer(r.resource)])
  {
    forall x | x in pending && x != r
      ensures x.id != r.id
    {
      var i :| 0 <= i < |batch| && batch[i] == r;
      var j :| 0 <= j < |batch| && batch[j] == x;
      assert i < j || j < i;
    }
  }

  /** The whole batch is answered. */
  ghost predicate AllAnswered(before: Replies, batch: seq<Request>, answer: Resource -> Reply, after: Replies) {
    && (forall r :: r in batch ==> r.id in after && after[r.id] == answer(r.resource))
    && (forall id :: id in before ==> id in after && after[id] == before[id])
    && (forall id :: id in after <==> id in before || Times(batch, id) > 0)
  }

  lemma ProgressEnd(before: Replies, batch: seq<Request>, answer: Resource -> Reply, after: Replies)
    requires Progress(before, batch, answer, {}, after)
    ensures AllAnswered(before, batch, answer, after)
  {
    forall id
      ensures id in after <==> id in before || Times(batch, id) > 0
    {
      TimesHas(batch, id);
    }
  }

  // ----- What a batch leaves held -----

  /** The resources of the requests answered with Done, entered in order. */
  function AfterSync(h: Held, rs: seq<Request>, answer: Resource -> Reply): Held {
    if rs == [] then h
    else
      var last, rest := rs[|rs| - 1].resource, AfterSync(h, rs[..|rs| - 1], answer);
      if answer(last) == Done then Enter(rest, last) else rest
  }

  function AfterDelete(h: Held, rs: seq<Request>, answer: Resource -> Reply): Held {
    if rs == [] then h
    else
      var last, rest := rs[|rs| - 1].resource, AfterDelete(h, rs[..|rs| - 1], answer);
      if answer(last) == Done then Leave(rest, last) else rest
  }

  /** The requests that pass, in order. */
  function Passing(rs: seq<Request>, pass: Resource -> bool): (r: seq<Request>)
    ensures forall x :: x in r <==> x in rs && pass(x.resource)
  {
    if rs == [] then []
    else
      var front, last := rs[..|rs| - 1], rs[|rs| - 1];
      assert forall x :: x in rs <==> x in front || x == last;
      Passing(front, pass) + if pass(last.resource) then [last] else []
  }

  lemma PassingStep(rs: seq<Request>, i: nat, pass: Resource -> bool)
    requires i < |rs|
    ensures Passing(rs[..i + 1], pass) == Passing(rs[..i], pass) + if pass(rs[i].resource) then [rs[i]] else []
  {
    assert rs[..i + 1][..i] == rs[..i];
  }

  lemma {:induction false} PassingDistinct(rs: seq<Request>, pass: Resource -> bool)
    requires DistinctIds(rs)
    ensures DistinctIds(Passing(rs, pass))
    decreases |rs|
  {
    if rs != [] {
      var front, last := rs[..|rs| - 1], rs[|rs| - 1];
      PassingDistinct(front, pass);
      forall x | x in Passing(front, pass)
        ensures x.id != last.id
      {
        var i :| 0 <= i < |front| && front[i] == x;
        assert rs[i] == x && rs[|rs| - 1] == last;
      }
      var p := Passing(front, pass);
      assert forall i :: 0 <= i < |p| ==> p[i] in p;
    }
  }

  /** Pending are those kept from the first `i` and all the others. */
  ghost predicate Lined(pending: set<Request>, rs: seq<Request>, i: nat, pass: Resource -> bool)
    requires i <= |rs|
  {
    forall r :: r in pending <==> (r in rs[..i] && pass(r.resource)) || r in rs[i..]
  }

  lemma LinedStep(pending: set<Request>, rs: seq<Request>, i: nat, pass: Resource -> bool)
    requires i < |rs| && DistinctIds(rs) && Lined(pending, rs, i, pass)
    ensures rs[i] in pending
    ensures Lined(if pass(rs[i].resource) then pending else pending - {rs[i]}, rs, i + 1, pass)
  {
    var r := rs[i];
    assert rs[i..] == [r] + rs[i + 1..] && rs[..i + 1] == rs[..i] + [r];
    OnlyOnce(rs, i);
    assert forall x :: x in rs[i..] <==> x == r || x in rs[i + 1..];
    assert forall x :: x in rs[..i + 1] <==> x == r || x in rs[..i];
  }

  lemma OnlyOnce(rs: seq<Request>, i: nat)
    requires i < |rs| && DistinctIds(rs)
    ensures rs[i] !in rs[..i] && rs[i] !in rs[i + 1..]
  {
    assert forall j :: 0 <= j < i ==> rs[..i][j] == rs[j];
    var rest := rs[i + 1..];
    forall x | x in rest
      ensures x != rs[i]
    {
      var j :| 0 <= j < |rest| && rest[j] == x;
      assert rs[i + 1 + j] == x;
    }
  }

  lemma LinedEnds(pending: set<Request>, rs: seq<Request>, pass: Resource -> bool)
    ensures Lined((set r | r in rs), rs, 0, pass)
    ensures Lined(pending, rs, |rs|, pass) ==> pending == set r | r in Passing(rs, pass)
  {
    assert rs[0..] == rs == rs[..|rs|] && rs[..0] == [] == rs[|rs|..];
  }

  // ----- The answers of a batch -----

  function LookupIn(d: Directory, brokers: States): Lookup { n => Known(d, brokers, n) }

  function SyncAnswer(initialized: bool, h: Held, known: Lookup, ok: bool): Resource -> Reply {
    r => if !initialized then NotInitialized else SyncReply(h, known, ok, r)
  }

  /** The answer to a request that building does not crash on. */
  function DeleteAnswer(initialized: bool, h: Held, known: Lookup, ok: bool): Resource -> Reply {
    r => if !initialized then NotInitialized else if Crashes(h, r) then UnknownType else DeleteReply(h, known, ok, r)
  }

  /** buildEntities' judgement of a request; `Done` lets it pass. */
  function BuildJudge(h: Held, known: Lookup): Resource -> Reply { r => if Crashes(h, r) then Done else BuildReply(h, known, r) }

  function IsDone(judge: Resource -> Reply): Resource -> bool { r => judge(r) == Done }

  lemma {:induction false} SyncPassing(h: Held, rs: seq<Request>, pass: Resource -> bool, answer: Resource -> Reply)
    requires forall r :: answer(r) == Done ==> pass(r)
    ensures AfterSync(h, Passing(rs, pass), answer) == AfterSync(h, rs, answer)
    decreases |rs|
  {
    hide Enter;
    if rs != [] {
      var front, last := rs[..|rs| - 1], rs[|rs| - 1];
      SyncPassing(h, front, pass, answer);
      if pass(last.resource) {
        var p := Passing(front, pass);
        assert (p + [last])[..|p|] == p;
      } else {
        assert Passing(front, pass) + [] == Passing(front, pass);
      }
    }
  }

  lemma {:induction false} DeletePassing(h: Held, rs: seq<Request>, pass: Resource -> bool, answer: Resource -> Reply)
    requires forall r :: answer(r) == Done ==> pass(r)
    ensures AfterDelete(h, Passing(rs, pass), answer) == AfterDelete(h, rs, answer)
    decreases |rs|
  {
    hide Leave;
    if rs != [] {
      var front, last := rs[..|rs| - 1], rs[|rs| - 1];
      DeletePassing(h, front, pass, answer);
      if pass(last.resource) {
        var p := Passing(front, pass);
        assert (p + [last])[..|p|] == p;
      } else {
        assert Passing(front, pass) + [] == Passing(front, pass);
      }
    }
  }

  lemma {:induction false} NothingDone(h: Held, rs: seq<Request>, answer: Resource -> Reply)
    requires forall r :: answer(r) != Done
    ensures AfterSync(h, rs, answer) == h == AfterDelete(h, rs, answer)
    decreases |rs|
  {
    if rs != [] {
      NothingDone(h, rs[..|rs| - 1], answer);
    }
  }

  // ----- The phases of a batch -----

  /** The judgements that Sift works with. */
  function CheckSync(h: Held): Resource -> Reply { r => SyncCheck(h, r) }

  function CheckDelete(h: Held): Resource -> Reply { r => DeleteCheck(h, r) }

  function Refuse(): Resource -> Reply { r => NotInitialized }

  lemma BatchReady(before: Replies, batch: seq<Request>, answer: Resource -> Reply)
    requires forall id: nat :: Times(batch, id) + (if id in before then 1 else 0) <= 1
    ensures DistinctIds(batch) && Progress(before, batch, answer, (set r | r in batch), before)
  {
    hide DistinctIds, Times;
    OnceIsDistinct(batch);
    forall r | r in batch
      ensures r.id !in before
    {
      TimesHas(batch, r.id);
    }
    ProgressStart(before, batch, answer);
  }

  lemma RefuseFacts(h: Held, known: Lookup, ok: bool, batch: seq<Request>)
    ensures forall r :: SyncAnswer(false, h, known, ok)(r) == NotInitialized == DeleteAnswer(false, h, known, ok)(r)
    ensures Passing(batch, IsDone(Refuse())) == []
  {
    assert forall x :: x !in Passing(batch, IsDone(Refuse()));
  }

  /** The two judgements together make up the answer. */
  lemma SyncFacts(h: Held, known: Lookup, ok: bool)
    ensures forall r :: SyncAnswer(true, h, known, ok)(r) ==
              if CheckSync(h)(r) != Done then CheckSync(h)(r)
              else if BuildJudge(h, known)(r) != Done then BuildJudge(h, known)(r)
              else Outcome(ok)
    ensures forall r :: CheckSync(h)(r) == Done ==> !Crashes(h, r)
  {
    hide Buildable;
  }

  /** The same for deletion, as long as nothing crashes. An address always passes the check. */
  lemma DeleteFacts(h: Held, known: Lookup, ok: bool)
    ensures forall r :: DeleteAnswer(true, h, known, ok)(r) ==
              if Crashes(h, r) then UnknownType
              else if CheckDelete(h)(r) != Done then CheckDelete(h)(r)
              else if BuildJudge(h, known)(r) != Done then BuildJudge(h, known)(r)
              else Outcome(ok)
    ensures forall r :: Crashes(h, r) ==> CheckDelete(h)(r) == Done
  {
    hide Buildable;
  }

  lemma DeleteIsDeletable(h: Held, known: Lookup, ok: bool, built: seq<Request>)
    requires forall r :: r in built ==> !Crashes(h, r.resource) && CheckDelete(h)(r.resource) == Done == BuildJudge(h, known)(r.resource)
    ensures Deletable(h, built, DeleteAnswer(true, h, known, ok), ok)
  {
    hide Buildable;
  }

  lemma {:induction false} FreedPassing(t: Table, rs: seq<Request>, pass: Resource -> bool, answer: Resource -> Reply)
    requires forall r :: answer(r) == Done ==> pass(r)
    ensures FreedBy(t, Passing(rs, pass), answer) == FreedBy(t, rs, answer)
    decreases |rs|
  {
    hide Freed;
    if rs != [] {
      var front, last := rs[..|rs| - 1], rs[|rs| - 1];
      FreedPassing(t, front, pass, answer);
      if pass(last.resource) {
        var p := Passing(front, pass);
        assert (p + [last])[..|p|] == p;
      } else {
        assert Passing(front, pass) + [] == Passing(front, pass);
      }
    }
  }

  lemma {:induction false} NothingFreed(t: Table, rs: seq<Request>, answer: Resource -> Reply)
    requires forall r :: answer(r) != Done
    ensures FreedBy(t, rs, answer) == t
    decreases |rs|
  {
    if rs != [] {
      NothingFreed(t, rs[..|rs| - 1], answer);
    }
  }

  lemma SyncIsSyncable(h: Held, known: Lookup, ok: bool, built: seq<Request>)
    requires forall r :: r in built ==> CheckSync(h)(r.resource) == Done == BuildJudge(h, known)(r.resource)
    ensures Syncable(h, known, built, SyncAnswer(true, h, known, ok), ok)
  {
    hide Buildable;
  }

  /** Requests that pass all checks against `base`. */
  ghost predicate Syncable(base: Held, known: Lookup, built: seq<Request>, answer: Resource -> Reply, ok: bool) {
    forall r :: r in built ==>
      SyncCheck(base, r.resource) == Done && BuildReply(base, known, r.resource) == Done && answer(r.resource) == Outcome(ok)
  }

  /** The first `i` built requests are finished. */
  ghost predicate Syncing(base: Held, known: Lookup, before: Replies, batch: seq<Request>, answer: Resource -> Reply, built: seq<Request>,
                          ok: bool, i: nat, pending: set<Request>, held: Held, replies: Replies)
  {
    && i <= |built| && DistinctIds(built) && DistinctIds(batch) && Syncable(base, known, built, answer, ok)
    && Lined(pending, built, i, r => false) && Progress(before, batch, answer, pending, replies)
    && Keyed(base) && Integral(held) && Grown(base, held) && held == AfterSync(base, built[..i], answer)
    && (Placed(base, known) ==> Placed(held, known))
  }

  lemma SyncingStart(base: Held, known: Lookup, before: Replies, batch: seq<Request>, answer: Resource -> Reply, built: seq<Request>,
                     ok: bool, replies: Replies)
    requires DistinctIds(built) && DistinctIds(batch) && Progress(before, batch, answer, (set r | r in built), replies)
    requires Integral(base) && Syncable(base, known, built, answer, ok)
    ensures Syncing(base, known, before, batch, answer, built, ok, 0, (set r | r in built), base, replies)
  {
    hide Syncable, Progress, DistinctIds, Placed;
    LinedEnds({}, built, r => false);
    assert built[..0] == [];
  }

  lemma SyncingStep(base: Held, known: Lookup, before: Replies, batch: seq<Request>, answer: Resource -> Reply, built: seq<Request>,
                    ok: bool, i: nat, pending: set<Request>, held: Held, replies: Replies)
    requires i < |built| && Syncing(base, known, before, batch, answer, built, ok, i, pending, held, replies)
    ensures var r := built[i];
            && r.id !in replies
            && Syncing(base, known, before, batch, answer, built, ok, i + 1, pending - {r}, if ok then Enter(held, r.resource) else held,
                       replies[r.id := if ok then Done else InfraFailure])
  {
    hide Lined, Progress, DistinctIds, Placed, Keyed, Integral, Grown, AfterSync, SyncCheck, BuildReply, Enter;
    var r := built[i];
    assert r in built && answer(r.resource) == if ok then Done else InfraFailure;
    LinedStep(pending, built, i, r => false);
    SyncStep(base, built, i, answer);
    ProgressStep(before, batch, answer, pending, replies, r);
    PendingIsFree(before, batch, answer, pending, replies, r);
    EnterKeeps(base, held, r.resource, known);
  }

  lemma SyncingEnd(base: Held, known: Lookup, before: Replies, batch: seq<Request>, answer: Resource -> Reply, built: seq<Request>,
                   ok: bool, pending: set<Request>, held: Held, replies: Replies)
    requires Syncing(base, known, before, batch, answer, built, ok, |built|, pending, held, replies)
    ensures Progress(before, batch, answer, {}, replies) && Integral(held) && held == AfterSync(base, built, answer)
    ensures Placed(base, known) ==> Placed(held, known)
  {
    hide Syncable, Progress, DistinctIds, Placed, Keyed, Integral, Grown, AfterSync;
    assert built[..|built|] == built && built[|built|..] == [];
    assert pending == {};
  }

  ghost predicate Deletable(base: Held, built: seq<Request>, answer: Resource -> Reply, ok: bool) {
    forall r :: r in built ==> DeleteCheck(base, r.resource) == Done && answer(r.resource) == Outcome(ok)
  }

  /** The port table after the endpoints among the requests answered with Done are deleted. */
  function FreedBy(t: Table, rs: seq<Request>, answer: Resource -> Reply): Table {
    if rs == [] then t
    else
      var last, rest := rs[|rs| - 1].resource, FreedBy(t, rs[..|rs| - 1], answer);
      if answer(last) == Done && last.AnEndpoint? then Freed(rest, last.e.ports) else rest
  }

  ghost predicate Deleting(base: Held, before: Replies, batch: seq<Request>, answer: Resource -> Reply, built: seq<Request>,
                           ok: bool, i: nat, pending: set<Request>, held: Held, replies: Replies, t: Table, t': Table)
  {
    && i <= |built| && DistinctIds(built) && DistinctIds(batch) && Deletable(base, built, answer, ok)
    && Lined(pending, built, i, r => false) && Progress(before, batch, answer, pending, replies)
    && Integral(held) && Shrunk(base, held) && held == AfterDelete(base, built[..i], answer)
    && (forall known :: Placed(base, known) ==> Placed(held, known)) && t' == FreedBy(t, built[..i], answer)
  }

  lemma DeletingStart(base: Held, before: Replies, batch: seq<Request>, answer: Resource -> Reply, built: seq<Request>,
                      ok: bool, replies: Replies, t: Table)
    requires DistinctIds(built) && DistinctIds(batch) && Progress(before, batch, answer, (set r | r in built), replies)
    requires Integral(base) && Deletable(base, built, answer, ok)
    ensures Deleting(base, before, batch, answer, built, ok, 0, (set r | r in built), base, replies, t, t)
  {
    hide Deletable, Progress, DistinctIds, Placed, Integral;
    LinedEnds({}, built, r => false);
    assert built[..0] == [];
  }

  lemma DeletingStep(base: Held, before: Replies, batch: seq<Request>, answer: Resource -> Reply, built: seq<Request>,
                     ok: bool, i: nat, pending: set<Request>, held: Held, replies: Replies, t: Table, t': Table)
    requires i < |built| && Deleting(base, before, batch, answer, built, ok, i, pending, held, replies, t, t')
    ensures var r := built[i];
            && r.id !in replies
            && Deleting(base, before, batch, answer, built, ok, i + 1, pending - {r}, if ok then Leave(held, r.resource) else held,
                        replies[r.id := if ok then Done else InfraFailure], t,
                        if ok && r.resource.AnEndpoint? then Freed(t', r.resource.e.ports) else t')
  {
    hide Lined, Progress, DistinctIds, Placed, Integral, Shrunk, AfterDelete, DeleteCheck, Leave, FreedBy, Freed;
    var r := built[i];
    assert r in built && answer(r.resource) == if ok then Done else InfraFailure;
    LinedStep(pending, built, i, r => false);
    DeleteStep(base, built, i, answer, t);
    ProgressStep(before, batch, answer, pending, replies, r);
    PendingIsFree(before, batch, answer, pending, replies, r);
    forall known | Placed(base, known)
      ensures Placed(Leave(held, r.resource), known)
    {
      LeaveKeeps(base, held, r.resource, known);
    }
    LeaveKeeps(base, held, r.resource, b => false);
  }

  lemma DeletingEnd(base: Held, before: Replies, batch: seq<Request>, answer: Resource -> Reply, built: seq<Request>,
                    ok: bool, pending: set<Request>, held: Held, replies: Replies, t: Table, t': Table)
    requires Deleting(base, before, batch, answer, built, ok, |built|, pending, held, replies, t, t')
    ensures Progress(before, batch, answer, {}, replies) && Integral(held) && held == AfterDelete(base, built, answer)
    ensures (forall known :: Placed(base, known) ==> Placed(held, known)) && t' == FreedBy(t, built, answer)
  {
    hide Deletable, Progress, DistinctIds, Placed, Integral, Shrunk, AfterDelete, FreedBy;
    assert built[..|built|] == built && built[|built|..] == [];
    assert pending == {};
  }

  lemma DeleteStep(h: Held, rs: seq<Request>, i: nat, answer: Resource -> Reply, t: Table)
    requires i < |rs|
    ensures var so, done := AfterDelete(h, rs[..i], answer), answer(rs[i].resource) == Done;
            AfterDelete(h, rs[..i + 1], answer) == if done then Leave(so, rs[i].resource) else so
    ensures var so, done := FreedBy(t, rs[..i], answer), answer(rs[i].resource) == Done;
            FreedBy(t, rs[..i + 1], answer) == if done && rs[i].resource.AnEndpoint? then Freed(so, rs[i].resource.e.ports) else so
  {
    assert rs[..i + 1][..i] == rs[..i];
  }

  lemma SyncStep(h: Held, rs: seq<Request>, i: nat, answer: Resource -> Reply)
    requires i < |rs|
    ensures var so := AfterSync(h, rs[..i], answer);
            AfterSync(h, rs[..i + 1], answer) == if answer(rs[i].resource) == Done then Enter(so, rs[i].resource) else so
  {
    assert rs[..i + 1][..i] == rs[..i];
  }

  lemma NonePassing(judge: Resource -> Reply)
    ensures Passing([], IsDone(judge)) == []
  {
  }

  lemma PendingIsFree(before: Replies, batch: seq<Request>, answer: Resource -> Reply, pending: set<Request>, after: Replies, r: Request)
    requires Progress(before, batch, answer, pending, after) && r in pending
    ensures r.id !in after
  {
  }
}

/** Which cached objects a user may see: access reviews answered by the API server and remembered
    (pkg/consolegraphql/accesscontroller/access_controller.go:46-136,
    pkg/consolegraphql/non_kubernetes_types.go:32-39, 164-196). */
module AccessControl {
  import opened CacheScan
  import opened ConsoleCache

  datatype Attributes = Attributes(verb: string, resource: string, namespace: string, name: string)

  /** What controls an object: nothing, or the attributes its reader is reviewed for. */
  datatype Control = Free | Controlled(a: Attributes)

  function ControlOf(o: Obj): Control {
    match o
    case AddressSpace(ns, _, _, _) => Controlled(Attributes("get", "addressspaces", ns, ""))
    case Address(ns, _, _, _) => Controlled(Attributes("get", "addresses", ns, ""))
    case Connection(ns, _, _, _, _) => Controlled(Attributes("get", "addressspaces", ns, ""))
    case Cluster(kind, name, _) => if kind == "Namespace" then Controlled(Attributes("get", "namespaces", name, name)) else Free
    case Link(_, _, _, _, _, _, _, _) => Free
  }

  /** The API server's answer to a review. */
  datatype Answer = Allowed(yes: bool) | Unanswered

  type Api = Attributes -> Answer

  /** The decisions made so far, and whether one was added. */
  datatype Memo = Memo(cached: map<Attributes, bool>, updated: bool)

  function Decide(m: Memo, a: Attributes, api: Api): (Memo, Verdict) {
    if a in m.cached then (m, Verdict(m.cached[a], true, false))
    else
      match api(a)
      case Unanswered => (m, Verdict(false, true, true))
      case Allowed(yes) => (Memo(m.cached[a := yes], true), Verdict(yes, true, false))
  }

  /** FilterAdapter: CanRead as a filter that never stops the scan. */
  function ViewFilter(api: Api): Filter<Memo, Obj> {
    (m, o) =>
      match ControlOf(o)
      case Free => (m, Verdict(true, true, false))
      case Controlled(a) => Decide(m, a, api)
  }

  class KubernetesRbac {
    var cached: map<Attributes, bool>
    var cacheUpdated: bool

    constructor (existing: map<Attributes, bool>)
      ensures State() == Memo(existing, false)
    {
      cached, cacheUpdated := existing, false;
    }

    function State(): Memo
      reads this
    {
      Memo(cached, cacheUpdated)
    }

    /** Decides by the answer in force and remembers it. An unanswered review fails, permits nothing and is not remembered. No
        other answer is asked for, added, changed or forgotten, and the flag is raised exactly when one was added. */
    method MakeAccessDecision(a: Attributes, api: Api) returns (allowed: bool, failed: bool)
      modifies this
      ensures Known(old(State()), api)(a) == if failed then Unanswered else Allowed(allowed)
      ensures failed ==> !allowed
      ensures forall b :: b in cached <==> b in old(cached) || (b == a && !failed)
      ensures Faithful(State(), api, Known(old(State()), api))
      ensures cacheUpdated <==> old(cacheUpdated) || (!failed && a !in old(cached))
      ensures (State(), Verdict(allowed, true, failed)) == Decide(old(State()), a, api)
    {
      if a in cached {
        return cached[a], false;
      }
      match api(a) {
        case Unanswered => return false, true;
        case Allowed(yes) =>
          cached := cached[a := yes];
          cacheUpdated := true;
          return yes, false;
      }
    }

    /** An object without control is readable. Any other is as the answer in force for its attributes says, and that answer is the
        only one remembered; if there is none, reading fails. */
    method CanRead(o: Obj, api: Api) returns (readable: bool, failed: bool)
      modifies this
      ensures failed <==> Undecided(o, Known(old(State()), api))
      ensures readable <==> Readable(o, Known(old(State()), api))
      ensures forall b :: b in cached <==> b in old(cached) || (!failed && ControlOf(o) == Controlled(b))
      ensures Faithful(State(), api, Known(old(State()), api))
      ensures cacheUpdated <==> old(cacheUpdated) || cached != old(cached)
      ensures (State(), Verdict(readable, true, failed)) == ViewFilter(api)(old(State()), o)
      ensures o.Address? ==> Settles(Attributes("get", "addresses", o.namespace, ""), old(State()), State(), api, readable, failed)
      ensures o.AddressSpace? || o.Connection? ==>
                Settles(Attributes("get", "addressspaces", o.namespace, ""), old(State()), State(), api, readable, failed)
      ensures o.Cluster? && o.kind == "Namespace" ==>
                Settles(Attributes("get", "namespaces", o.name, o.name), old(State()), State(), api, readable, failed)
      ensures o.Link? || (o.Cluster? && o.kind != "Namespace") ==> readable && !failed && State() == old(State())
    {
      match ControlOf(o) {
        case Free => return true, false;
        case Controlled(a) => readable, failed := MakeAccessDecision(a, api);
      }
    }
  }

  // ----- Remembering changes no decision -----

  /** The answers in force: those remembered from before, and the API server's otherwise. */
  function Known(m: Memo, api: Api): Api { a => if a in m.cached then Allowed(m.cached[a]) else api(a) }

  /** `truth` are the answers in force at some point of a run that has come to memo `m`. */
  ghost predicate Faithful(m: Memo, api: Api, truth: Api) { forall a :: truth(a) == Known(m, api)(a) }

  /** The review of `a` decides: it fails without an answer in force, and otherwise goes by that answer, which is then remembered
      next to those from before. */
  ghost predicate Settles(a: Attributes, before: Memo, after: Memo, api: Api, readable: bool, failed: bool) {
    && Known(before, api)(a) == (if failed then Unanswered else Allowed(readable)) && (failed ==> !readable)
    && after.cached == if failed then before.cached else before.cached[a := readable]
  }

  /** The user may get a resource in a namespace, by the answers in force. */
  predicate MayGet(truth: Api, resource: string, namespace: string) {
    truth(Attributes("get", resource, namespace, "")) == Allowed(true)
  }

  predicate NoAnswer(truth: Api, resource: string, namespace: string) {
    truth(Attributes("get", resource, namespace, "")) == Unanswered
  }

  /** What the answers say of an object. */
  predicate Readable(o: Obj, truth: Api) { ControlOf(o).Free? || truth(ControlOf(o).a) == Allowed(true) }

  predicate Undecided(o: Obj, truth: Api) { ControlOf(o).Controlled? && truth(ControlOf(o).a).Unanswered? }

  /** One decision: by the answers in force, remembered, without changing those or forgetting any. */
  lemma ViewDecides(m: Memo, o: Obj, api: Api, truth: Api)
    requires Faithful(m, api, truth)
    ensures var (m1, v) := ViewFilter(api)(m, o);
            && v == (if Undecided(o, truth) then Verdict(false, true, true) else Verdict(Readable(o, truth), true, false))
            && Faithful(m1, api, truth)
            && (forall a :: a in m1.cached <==> a in m.cached || (!Undecided(o, truth) && ControlOf(o) == Controlled(a)))
            && (m1.updated <==> m.updated || m1.cached != m.cached)
  {
    var (m1, v) := ViewFilter(api)(m, o);
    if ControlOf(o).Controlled? {
      var a := ControlOf(o).a;
      assert truth(a) == Known(m, api)(a);
      if a !in m.cached && !Undecided(o, truth) {
        assert a in m1.cached;
      }
    }
  }

  /** Which review protects which object. */
  lemma Reviewed(o: Obj, truth: Api)
    ensures o.Address? ==> (Readable(o, truth) <==> MayGet(truth, "addresses", o.namespace))
                           && (Undecided(o, truth) <==> NoAnswer(truth, "addresses", o.namespace))
    ensures o.AddressSpace? || o.Connection? ==> (Readable(o, truth) <==> MayGet(truth, "addressspaces", o.namespace))
                                                 && (Undecided(o, truth) <==> NoAnswer(truth, "addressspaces", o.namespace))
    ensures o.Link? ==> Readable(o, truth) && !Undecided(o, truth)
  {
  }
}

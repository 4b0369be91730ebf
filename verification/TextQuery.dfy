/** The queries as the console asks them, with the filter and the order given as texts
    (pkg/consolegraphql/resolvers/resolver.go:58-79, 149-159, pkg/consolegraphql/resolvers/resolver_address.go:93-131,
    pkg/consolegraphql/resolvers/resolver_connection.go:24-66, 128-164). */
module TextQuery {
  import opened GoInt
  import opened FilterSyntax
  import opened FilterFrontEnd
  import opened ConsoleCache
  import opened AccessControl
  import opened Query
  import Agents = AgentWatcher

  /** A text that may be left out; an empty one counts as left out. */
  datatype Given = Omitted | Given(text: string)

  predicate IsBlank(g: Given) { g.Omitted? || g.text == "" }

  ghost predicate MeansFilter(g: Given, parses: string -> bool, w: Where) {
    if IsBlank(g) then w == Everything else w.Such? && DenotesFilter(g.text, parses, w.e)
  }

  ghost predicate MeansOrders(g: Given, parses: string -> bool, os: seq<Order>) {
    if IsBlank(g) then os == [] else DenotesOrders(g.text, parses, os)
  }

  /** Parsing the text panics. */
  predicate Crashes(g: Given, start: Token) { !IsBlank(g) && Panics(g.text, start) }

  /** No text means two things. */
  lemma OneMeaning(g: Given, parses: string -> bool, v: Where, w: Where, os: seq<Order>, ps: seq<Order>)
    ensures MeansFilter(g, parses, v) && MeansFilter(g, parses, w) ==> v == w
    ensures MeansOrders(g, parses, os) && MeansOrders(g, parses, ps) ==> os == ps
  {
    hide DenotesFilter, DenotesOrders;
    if !IsBlank(g) {
      FilterIsAccepted(g.text, parses);
      OrdersAreAccepted(g.text, parses);
    }
  }

  /** The filter and the columns that two texts stand for, the error for texts that stand for nothing, or a crash. */
  datatype Request = Crash | Refusal | Ready(w: Where, orders: seq<Order>)

  ghost predicate Understood(filter: Given, orderBy: Given, parses: string -> bool, q: Request) {
    && (q.Crash? <==> Crashes(filter, START_EXPRESSION) ||
                      ((exists w :: MeansFilter(filter, parses, w)) && Crashes(orderBy, START_ORDER_LIST)))
    && (q.Refusal? ==> !(exists w :: MeansFilter(filter, parses, w)) || !(exists os :: MeansOrders(orderBy, parses, os)))
    && (q.Ready? ==> MeansFilter(filter, parses, q.w) && Grammatical(q.w) && MeansOrders(orderBy, parses, q.orders))
  }

  /** BuildFilter and then BuildOrderer. */
  method Understand(filter: Given, orderBy: Given, parses: string -> bool) returns (q: Request)
    ensures Understood(filter, orderBy, parses, q)
  {
    hide DenotesFilter, DenotesOrders, Panics, IsExpression;
    var w, orders := Everything, [];
    if !IsBlank(filter) {
      var panicked, failed, expr := ParseFilterExpression(filter.text, parses);
      if panicked {
        return Crash;
      }
      if failed {
        CrashesUnread(filter, parses);
        return Refusal;
      }
      w := Such(expr);
    }
    assert MeansFilter(filter, parses, w);
    if !IsBlank(orderBy) {
      var panicked, failed, os := ParseOrderByExpression(orderBy.text, parses);
      if panicked {
        return Crash;
      }
      if failed {
        return Refusal;
      }
      orders := os;
    }
    q := Ready(w, orders);
  }

  lemma CrashesUnread(g: Given, parses: string -> bool)
    requires !IsBlank(g) && !exists e :: DenotesFilter(g.text, parses, e)
    ensures !exists w :: MeansFilter(g, parses, w)
  {
    hide DenotesFilter;
  }

  datatype TextAnswer = Crashed | Refused | Answers(r: Answered)

  /** What a query answers that was asked in texts: as their meanings call for, or an error if they have none. Nothing that it
      scans is left out by scanning below the pushed-down key, where the filter is eligible for it. */
  ghost predicate Replies(a: TextAnswer, filter: Given, orderBy: Given, parses: string -> bool, es: Entries, base: string,
                          ks: seq<string>, parts: Obj -> seq<string>, laidOut: bool, view: bool, truth: Api, offset: Optional, first: Optional)
    requires first.Some? ==> IsInt(first.v)
  {
    exists q :: Understood(filter, orderBy, parses, q) && RepliesTo(a, q, es, base, ks, parts, laidOut, view, truth, offset, first)
  }

  ghost predicate RepliesTo(a: TextAnswer, q: Request, es: Entries, base: string, ks: seq<string>, parts: Obj -> seq<string>,
                            laidOut: bool, view: bool, truth: Api, offset: Optional, first: Optional)
    requires first.Some? ==> IsInt(first.v)
  {
    match q
    case Crash => a == Crashed
    case Refusal => a == Refused
    case Ready(w, orders) =>
      && Grammatical(w) && a.Answers? && Correct(a.r, es, base + KeyOf(w, ks), view, truth, w, orders, offset, first)
      && (laidOut && Eligible(w, ks, es, base, parts) ==> Results(es, base + KeyOf(w, ks), view, truth, w) == Results(es, base, view, truth, w))
  }

  method QueryAddresses(cache: ObjectCache, rbac: KubernetesRbac, api: Api, filter: Given, orderBy: Given, parses: string -> bool,
                        offset: Optional, first: Optional)
    returns (a: TextAnswer)
    requires cache.Valid() && |cache.entries| <= MAX_INT && (first.Some? ==> IsInt(first.v))
    modifies rbac
    ensures Faithful(rbac.State(), api, Known(old(rbac.State()), api))
    ensures Replies(a, filter, orderBy, parses, cache.entries, "Address/", ADDRESS_KEYS, AddressParts, true, true,
                    Known(old(rbac.State()), api), offset, first)
  {
    hide Correct, Results, Eligible, Faithful, Understood;
    var q := Understand(filter, orderBy, parses);
    KnownIsFaithful(rbac.State(), api);
    match q {
      case Crash => a := Crashed;
      case Refusal => a := Refused;
      case Ready(w, orders) =>
        UnderstoodReady(filter, orderBy, parses, q);
        var r := Addresses(cache, rbac, api, w, orders, offset, first);
        a := Answers(r);
    }
    assert RepliesTo(a, q, cache.entries, "Address/", ADDRESS_KEYS, AddressParts, true, true, Known(old(rbac.State()), api), offset, first);
  }

  method QueryConnections(cache: ObjectCache, rbac: KubernetesRbac, api: Api, filter: Given, orderBy: Given, parses: string -> bool,
                          offset: Optional, first: Optional)
    returns (a: TextAnswer)
    requires cache.Valid() && |cache.entries| <= MAX_INT && (first.Some? ==> IsInt(first.v))
    modifies rbac
    ensures Faithful(rbac.State(), api, Known(old(rbac.State()), api))
    ensures Replies(a, filter, orderBy, parses, cache.entries, "Connection/", CONNECTION_KEYS, ConnectionParts, true, true,
                    Known(old(rbac.State()), api), offset, first)
  {
    hide Correct, Results, Eligible, Faithful, Understood;
    var q := Understand(filter, orderBy, parses);
    KnownIsFaithful(rbac.State(), api);
    match q {
      case Crash => a := Crashed;
      case Refusal => a := Refused;
      case Ready(w, orders) =>
        UnderstoodReady(filter, orderBy, parses, q);
        var r := Connections(cache, rbac, api, w, orders, offset, first);
        a := Answers(r);
    }
    assert RepliesTo(a, q, cache.entries, "Connection/", CONNECTION_KEYS, ConnectionParts, true, true, Known(old(rbac.State()), api), offset, first);
  }

  method QueryLinks(cache: ObjectCache, rbac: KubernetesRbac, api: Api, id: Agents.Id, filter: Given, orderBy: Given,
                    parses: string -> bool, offset: Optional, first: Optional)
    returns (a: TextAnswer)
    requires cache.Valid() && |cache.entries| <= MAX_INT && (first.Some? ==> IsInt(first.v))
    modifies rbac
    ensures Faithful(rbac.State(), api, Known(old(rbac.State()), api))
    ensures Replies(a, filter, orderBy, parses, cache.entries, LinkBase(id), LINK_KEYS, LinkParts,
                    Agents.Proper(id) && AllClean(cache.entries), false, Known(old(rbac.State()), api), offset, first)
  {
    hide Correct, Results, Eligible, Faithful, Understood, LinkBase, AllClean, Agents.Proper;
    var q := Understand(filter, orderBy, parses);
    KnownIsFaithful(rbac.State(), api);
    match q {
      case Crash => a := Crashed;
      case Refusal => a := Refused;
      case Ready(w, orders) =>
        UnderstoodReady(filter, orderBy, parses, q);
        var r := Links(cache, rbac, api, id, w, orders, offset, first);
        a := Answers(r);
    }
    assert RepliesTo(a, q, cache.entries, LinkBase(id), LINK_KEYS, LinkParts, Agents.Proper(id) && AllClean(cache.entries), false,
                     Known(old(rbac.State()), api), offset, first);
  }

  lemma UnderstoodReady(filter: Given, orderBy: Given, parses: string -> bool, q: Request)
    requires Understood(filter, orderBy, parses, q) && q.Ready?
    ensures Grammatical(q.w)
  {
    hide MeansFilter, MeansOrders, Crashes;
  }

  lemma KnownIsFaithful(m: Memo, api: Api)
    ensures Faithful(m, api, Known(m, api))
  {
  }
}

/** Ordered scans of the console's object cache, over entries sorted by key
    (pkg/consolegraphql/cache/cache.go:30-51, 174-210 and 266-294). */
module CacheScan {

  // ----- Keys -----

  /** Byte order of keys. */
  predicate Less(a: string, b: string) {
    b != [] && (a == [] || a[0] < b[0] || (a[0] == b[0] && Less(a[1..], b[1..])))
  }

  lemma {:induction false} LessTrans(a: string, b: string, c: string)
    requires Less(a, b) && Less(b, c)
    ensures Less(a, c)
    decreases |a|
  {
    if a != [] && a[0] == b[0] == c[0] {
      LessTrans(a[1..], b[1..], c[1..]);
    }
  }

  lemma {:induction false} LessIrrefl(a: string)
    ensures !Less(a, a)
    decreases |a|
  {
    if a != [] {
      LessIrrefl(a[1..]);
    }
  }

  lemma {:induction false} LessTotal(a: string, b: string)
    ensures a == b || Less(a, b) || Less(b, a)
    decreases |a|
  {
    if a != [] && b != [] && a[0] == b[0] {
      LessTotal(a[1..], b[1..]);
      assert a == [a[0]] + a[1..] && b == [b[0]] + b[1..];
    }
  }

  /** At the first place where they differ, `a` has the smaller character or has ended. */
  ghost predicate DiffersAt(a: string, b: string, i: int) {
    0 <= i < |b| && i <= |a| && a[..i] == b[..i] && (i == |a| || a[i] < b[i])
  }

  /** The order is the one of dictionaries. */
  lemma {:induction false} LessExact(a: string, b: string)
    ensures Less(a, b) <==> exists i :: DiffersAt(a, b, i)
    decreases |a|
  {
    if a != [] && b != [] && a[0] == b[0] {
      LessExact(a[1..], b[1..]);
      if i :| DiffersAt(a[1..], b[1..], i) {
        assert a[..i + 1] == [a[0]] + a[1..][..i] && b[..i + 1] == [b[0]] + b[1..][..i];
        assert DiffersAt(a, b, i + 1);
      }
      if i :| DiffersAt(a, b, i) {
        assert i > 0 && a[1..][..i - 1] == a[..i][1..] && b[1..][..i - 1] == b[..i][1..];
        assert DiffersAt(a[1..], b[1..], i - 1);
      }
    } else if b != [] {
      if Less(a, b) {
        assert DiffersAt(a, b, 0);
      }
      if i :| DiffersAt(a, b, i) {
        assert i > 0 ==> a[..i][0] == b[..i][0];
      }
    }
  }

  const NUL: char := '\0'

  /** A key with prefix `p` lies at or above `p` followed by NUL unless it is `p` itself. */
  lemma {:induction false} PrefixAbove(p: string, k: string)
    requires p <= k
    ensures Less(k, p + [NUL]) <==> k == p
    decreases |p|
  {
    if p == [] {
      if k != [] {
        assert k[0] >= NUL;
        assert (p + [NUL])[1..] == [];
      }
    } else {
      assert (p + [NUL])[1..] == p[1..] + [NUL];
      PrefixAbove(p[1..], k[1..]);
      assert k == [k[0]] + k[1..] && p == [p[0]] + p[1..];
    }
  }

  /** Above a key that lies beyond `p` without having the prefix `p`, no key has it. */
  lemma {:induction false} PrefixesContiguous(p: string, k: string, k': string)
    requires !(p <= k) && !Less(k, p + [NUL]) && Less(k, k')
    ensures !(p <= k')
    decreases |p|
  {
    if p != [] && k != [] && k' != [] && k[0] == p[0] == k'[0] {
      assert (p + [NUL])[1..] == p[1..] + [NUL];
      PrefixesContiguous(p[1..], k[1..], k'[1..]);
    }
  }

  // ----- Entries -----

  datatype Entry<+T> = Entry(key: string, obj: T)

  /** Strictly ascending keys: the leaves of the radix tree, left to right. */
  predicate Sorted<T>(es: seq<Entry<T>>) {
    forall i, j :: 0 <= i < j < |es| ==> Less(es[i].key, es[j].key)
  }

  /** The entries whose key has prefix `p`, in order: what a full scan would select. */
  function WithPrefix<T(!new)>(es: seq<Entry<T>>, p: string): (r: seq<Entry<T>>)
    ensures forall e :: e in r <==> e in es && p <= e.key
  {
    if es == [] then []
    else (if p <= es[0].key then [es[0]] else []) + WithPrefix(es[1..], p)
  }

  /** The entries whose key extends `p`, in order: what the prefix scan visits. */
  function Extending<T(!new)>(es: seq<Entry<T>>, p: string): (r: seq<Entry<T>>)
    ensures forall e :: e in r <==> e in es && p < e.key
  {
    if es == [] then []
    else (if p < es[0].key then [es[0]] else []) + Extending(es[1..], p)
  }

  function Objects<T>(es: seq<Entry<T>>): (os: seq<T>)
    ensures |os| == |es|
  {
    if es == [] then [] else [es[0].obj] + Objects(es[1..])
  }

  // ----- Filters -----

  /** What a filter says of an object: whether to include it, whether to go on, whether it failed. */
  datatype Verdict = Verdict(match_: bool, cont: bool, failed: bool)

  /** A filter may keep state in what it captures. */
  type Filter<!S, !T> = (S, T) -> (S, Verdict)

  datatype Found<S, T> = Found(objs: seq<T>, state: S, failed: bool)

  /** Running a filter over objects in order: the matches up to the first stop or failure. */
  function RunFilter<S, T>(os: seq<T>, s: S, f: Filter<S, T>): Found<S, T> {
    if os == [] then Found([], s, false)
    else
      var (s1, v) := f(s, os[0]);
      if v.failed then Found([], s1, true)
      else
        var hit := if v.match_ then [os[0]] else [];
        if !v.cont then Found(hit, s1, false)
        else
          var rest := RunFilter(os[1..], s1, f);
          rest.(objs := hit + rest.objs)
  }

  /** And: the filters in turn until one does not match. A failure wins; a filter that does not match
      decides alone whether the scan goes on, so a stop asked for by an earlier one is dropped. */
  function And<S, T>(f: Filter<S, T>, g: Filter<S, T>): Filter<S, T> {
    (s, o) =>
      var (s1, v) := f(s, o);
      if v.failed then (s1, Verdict(false, false, true))
      else if !v.match_ then (s1, Verdict(false, v.cont, false))
      else
        var (s2, w) := g(s1, o);
        if w.failed then (s2, Verdict(false, false, true))
        else if !w.match_ then (s2, Verdict(false, w.cont, false))
        else (s2, Verdict(true, v.cont && w.cont, false))
  }

  // ----- Get -----

  /** The first position whose key is not below `k`. */
  method LowerBound<T>(es: seq<Entry<T>>, k: string) returns (i: nat)
    requires Sorted(es)
    ensures i <= |es| && (forall j :: 0 <= j < i ==> Less(es[j].key, k)) && (forall j :: i <= j < |es| ==> !Less(es[j].key, k))
  {
    i := 0;
    while i < |es| && Less(es[i].key, k)
      invariant i <= |es| && forall j :: 0 <= j < i ==> Less(es[j].key, k)
    {
      i := i + 1;
    }
    forall j | i <= j < |es|
      ensures !Less(es[j].key, k)
    {
      if i < j && Less(es[j].key, k) {
        LessTrans(es[i].key, es[j].key, k);
      }
    }
  }

  lemma {:induction false} SkipBelow<T(!new)>(es: seq<Entry<T>>, i: nat, p: string)
    requires i <= |es| && forall j :: 0 <= j < i ==> Less(es[j].key, p + [NUL])
    ensures Extending(es, p) == Extending(es[i..], p)
    decreases i
  {
    if i > 0 {
      if p <= es[0].key {
        PrefixAbove(p, es[0].key);
      }
      SkipBelow(es[1..], i - 1, p);
      assert es[1..][i - 1..] == es[i..];
    }
  }

  lemma {:induction false} NoneBeyond<T(!new)>(es: seq<Entry<T>>, i: nat, p: string)
    requires Sorted(es) && i < |es| && !(p <= es[i].key) && !Less(es[i].key, p + [NUL])
    ensures Extending(es[i..], p) == []
  {
    forall j | i < j < |es|
      ensures !(p <= es[j].key)
    {
      PrefixesContiguous(p, es[i].key, es[j].key);
    }
    var r := Extending(es[i..], p);
    if r != [] {
      HasMember(r);
    }
  }

  lemma HasMember<T>(r: seq<T>)
    requires r != []
    ensures exists x :: x in r
  {
    assert r[0] in r;
  }

  /** A run with matches found before it. */
  function After<S, T>(objs: seq<T>, r: Found<S, T>): Found<S, T> { r.(objs := objs + r.objs) }

  lemma RunStep<S, T>(objs: seq<T>, os: seq<T>, s: S, f: Filter<S, T>)
    requires os != []
    ensures var (s1, v) := f(s, os[0]);
            var hits := if v.match_ then objs + [os[0]] else objs;
            After(objs, RunFilter(os, s, f)) ==
              if v.failed then Found(objs, s1, true)
              else if !v.cont then Found(hits, s1, false)
              else After(hits, RunFilter(os[1..], s1, f))
  {
  }

  lemma ExtendingStep<T(!new)>(es: seq<Entry<T>>, i: nat, p: string)
    requires i < |es| && p < es[i].key
    ensures var os := Objects(Extending(es[i..], p)); os != [] && os[0] == es[i].obj && os[1..] == Objects(Extending(es[i + 1..], p))
  {
    assert es[i..][0] == es[i] && es[i..][1..] == es[i + 1..];
    var r := Extending(es[i..], p);
    assert r[1..] == Extending(es[i + 1..], p);
  }

  /** The scan itself: from the lower bound of the prefix and a NUL, up to the first key without the
      prefix, or to the first stop or failure of the filter. */
  method Get<S, T(!new)>(es: seq<Entry<T>>, p: string, s: S, f: Filter<S, T>) returns (r: Found<S, T>)
    requires Sorted(es)
    ensures r == RunFilter(Objects(Extending(es, p)), s, f)
  {
    hide RunFilter, Extending, Objects, Less;
    var i := LowerBound(es, p + [NUL]);
    SkipBelow(es, i, p);
    r := Found([], s, false);
    ghost var whole := RunFilter(Objects(Extending(es, p)), s, f);
    assert whole.objs == [] + whole.objs;
    while i < |es|
      invariant i <= |es| && !r.failed
      invariant forall j :: i <= j < |es| ==> !Less(es[j].key, p + [NUL])
      invariant whole == After(r.objs, RunFilter(Objects(Extending(es[i..], p)), r.state, f))
    {
      var e := es[i];
      if !(p <= e.key) {
        NoneBeyond(es, i, p);
        EmptyRun(r.objs, r.state, f);
        return;
      }
      PrefixAbove(p, e.key);
      LessNul(p);
      ExtendingStep(es, i, p);
      RunStep(r.objs, Objects(Extending(es[i..], p)), r.state, f);
      var (state, v) := f(r.state, e.obj);
      if v.failed {
        return Found(r.objs, state, true);
      }
      r := Found(if v.match_ then r.objs + [e.obj] else r.objs, state, false);
      if !v.cont {
        return;
      }
      i := i + 1;
    }
    assert es[i..] == [];
    EmptyRun(r.objs, r.state, f);
  }

  lemma EmptyRun<S, T(!new)>(objs: seq<T>, s: S, f: Filter<S, T>)
    ensures var none: seq<Entry<T>> := [];
            forall p :: After(objs, RunFilter(Objects(Extending(none, p)), s, f)) == Found(objs, s, false)
    ensures var none: seq<Entry<T>> := []; After(objs, RunFilter(Objects(none), s, f)) == Found(objs, s, false)
  {
  }

  lemma LessNul(p: string)
    ensures Less(p, p + [NUL])
  {
    PrefixAbove(p, p);
  }

  /** The prefix scan agrees with the full scan exactly when the prefix is not itself a key, which
      holds for every prefix without a NUL at its end, since every key has one there. */
  lemma {:induction false} ScanIsComplete<T(!new)>(es: seq<Entry<T>>, p: string)
    ensures Extending(es, p) == WithPrefix(es, p) <==> forall e :: e in es ==> e.key != p
  {
    if es != [] {
      ScanIsComplete(es[1..], p);
      var a, b := Extending(es, p), WithPrefix(es, p);
      if es[0].key == p {
        assert es[0] in b && es[0] !in a;
      } else if p <= es[0].key {
        assert a[1..] == Extending(es[1..], p) && b[1..] == WithPrefix(es[1..], p);
      }
    }
  }
}

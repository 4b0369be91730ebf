/** Stable sorting as sort.SliceStable promises it: which arrangement of the elements a comparator
    asks for, that there is only one, and the insertion sort that SliceStable runs on short slices
    (used at pkg/consolegraphql/filter/support.go:787). */
module StableSort {

  type Comparator<!T> = (T, T) -> bool

  /** On the elements of `xs`, `lt` is a strict weak order: ties are transitive. */
  ghost predicate StrictWeak<T>(xs: seq<T>, lt: Comparator<T>) {
    && (forall i :: 0 <= i < |xs| ==> !lt(xs[i], xs[i]))
    && (forall i, j, k :: 0 <= i < |xs| && 0 <= j < |xs| && 0 <= k < |xs| && lt(xs[i], xs[j]) && lt(xs[j], xs[k]) ==> lt(xs[i], xs[k]))
    && (forall i, j, k :: 0 <= i < |xs| && 0 <= j < |xs| && 0 <= k < |xs| && !lt(xs[i], xs[j]) && !lt(xs[j], xs[k]) ==> !lt(xs[i], xs[k]))
  }

  /** Position `i` goes before position `j`: its element is less, or they tie and it came first. */
  predicate Before<T>(xs: seq<T>, lt: Comparator<T>, i: nat, j: nat)
    requires i < |xs| && j < |xs|
  {
    lt(xs[i], xs[j]) || (!lt(xs[j], xs[i]) && i < j)
  }

  /** `pi` lists positions of `xs`. */
  predicate Positions<T>(xs: seq<T>, pi: seq<nat>) { forall k :: 0 <= k < |pi| ==> pi[k] < |xs| }

  /** `pi` arranges all of `xs` in order, ties in their original order. */
  ghost predicate Arranges<T>(xs: seq<T>, lt: Comparator<T>, pi: seq<nat>) {
    && Positions(xs, pi)
    && (forall i: nat :: i < |xs| ==> i in pi)
    && (forall a, b :: 0 <= a < b < |pi| ==> Before(xs, lt, pi[a], pi[b]))
  }

  function Arranged<T>(xs: seq<T>, pi: seq<nat>): (ys: seq<T>)
    requires Positions(xs, pi)
    ensures |ys| == |pi|
  {
    seq(|pi|, k requires 0 <= k < |pi| => xs[pi[k]])
  }

  /** Moves `x` left past the positions whose elements are greater. */
  function Insert<T>(xs: seq<T>, lt: Comparator<T>, pi: seq<nat>, x: nat): (r: seq<nat>)
    requires Positions(xs, pi) && x < |xs|
    ensures Positions(xs, r) && |r| == |pi| + 1
  {
    if pi == [] || !lt(xs[x], xs[pi[|pi| - 1]]) then pi + [x]
    else Insert(xs, lt, pi[..|pi| - 1], x) + [pi[|pi| - 1]]
  }

  /** The arrangement of the first `n` elements. */
  function Sorting<T>(xs: seq<T>, lt: Comparator<T>, n: nat): (pi: seq<nat>)
    requires n <= |xs|
    ensures Positions(xs, pi) && |pi| == n
  {
    if n == 0 then [] else Insert(xs, lt, Sorting(xs, lt, n - 1), n - 1)
  }

  // ----- Sorting permutes, whatever the comparator -----

  lemma ArrangedSnoc<T>(xs: seq<T>, pi: seq<nat>, x: nat)
    requires Positions(xs, pi) && x < |xs|
    ensures Arranged(xs, pi + [x]) == Arranged(xs, pi) + [xs[x]]
  {
  }

  lemma {:induction false} InsertPermutes<T>(xs: seq<T>, lt: Comparator<T>, pi: seq<nat>, x: nat)
    requires Positions(xs, pi) && x < |xs|
    ensures multiset(Arranged(xs, Insert(xs, lt, pi, x))) == multiset(Arranged(xs, pi)) + multiset{xs[x]}
    decreases |pi|
  {
    hide Arranged;
    if pi == [] || !lt(xs[x], xs[pi[|pi| - 1]]) {
      ArrangedSnoc(xs, pi, x);
    } else {
      var front, z := pi[..|pi| - 1], pi[|pi| - 1];
      InsertPermutes(xs, lt, front, x);
      ArrangedSnoc(xs, Insert(xs, lt, front, x), z);
      ArrangedSnoc(xs, front, z);
      assert front + [z] == pi;
    }
  }

  lemma {:induction false} SortingPermutes<T>(xs: seq<T>, lt: Comparator<T>, n: nat)
    requires n <= |xs|
    ensures multiset(Arranged(xs, Sorting(xs, lt, n))) == multiset(xs[..n])
  {
    if n > 0 {
      SortingPermutes(xs, lt, n - 1);
      InsertPermutes(xs, lt, Sorting(xs, lt, n - 1), n - 1);
      assert xs[..n] == xs[..n - 1] + [xs[n - 1]];
    }
  }

  // ----- Sorting arranges -----

  ghost predicate Ascending<T>(xs: seq<T>, lt: Comparator<T>, pi: seq<nat>) {
    Positions(xs, pi) && forall a, b :: 0 <= a < b < |pi| ==> Before(xs, lt, pi[a], pi[b])
  }

  lemma {:induction false} InsertMembers<T>(xs: seq<T>, lt: Comparator<T>, pi: seq<nat>, x: nat)
    requires Positions(xs, pi) && x < |xs|
    ensures forall y :: y in Insert(xs, lt, pi, x) <==> y in pi || y == x
    decreases |pi|
  {
    if pi != [] && lt(xs[x], xs[pi[|pi| - 1]]) {
      InsertMembers(xs, lt, pi[..|pi| - 1], x);
      assert pi == pi[..|pi| - 1] + [pi[|pi| - 1]];
    }
  }

  lemma BeforeTrans<T>(xs: seq<T>, lt: Comparator<T>, i: nat, j: nat, k: nat)
    requires StrictWeak(xs, lt) && i < |xs| && j < |xs| && k < |xs| && Before(xs, lt, i, j) && Before(xs, lt, j, k)
    ensures Before(xs, lt, i, k)
  {
  }

  lemma AscendsSnoc<T>(xs: seq<T>, lt: Comparator<T>, pi: seq<nat>, x: nat)
    requires Ascending(xs, lt, pi) && x < |xs| && forall a :: 0 <= a < |pi| ==> Before(xs, lt, pi[a], x)
    ensures Ascending(xs, lt, pi + [x])
  {
    hide Before;
  }

  lemma {:induction false} InsertAscends<T>(xs: seq<T>, lt: Comparator<T>, pi: seq<nat>, x: nat)
    requires StrictWeak(xs, lt) && Ascending(xs, lt, pi) && x < |xs| && forall y :: y in pi ==> y < x
    ensures Ascending(xs, lt, Insert(xs, lt, pi, x))
    decreases |pi|
  {
    hide StrictWeak;
    if pi == [] {
    } else if !lt(xs[x], xs[pi[|pi| - 1]]) {
      var z := pi[|pi| - 1];
      assert z in pi && Before(xs, lt, z, x);
      hide Before;
      forall a | 0 <= a < |pi|
        ensures Before(xs, lt, pi[a], x)
      {
        if a < |pi| - 1 {
          BeforeTrans(xs, lt, pi[a], z, x);
        }
      }
      AscendsSnoc(xs, lt, pi, x);
    } else {
      var front, z := pi[..|pi| - 1], pi[|pi| - 1];
      assert forall y :: y in front ==> y in pi;
      assert Before(xs, lt, x, z);
      hide Before;
      InsertAscends(xs, lt, front, x);
      InsertMembers(xs, lt, front, x);
      var r1 := Insert(xs, lt, front, x);
      forall a | 0 <= a < |r1|
        ensures Before(xs, lt, r1[a], z)
      {
        assert r1[a] in r1;
        if r1[a] != x {
          var b :| 0 <= b < |front| && front[b] == r1[a];
          assert Before(xs, lt, pi[b], pi[|pi| - 1]);
        }
      }
      AscendsSnoc(xs, lt, r1, z);
    }
  }

  lemma EmptyAscends<T>(xs: seq<T>, lt: Comparator<T>)
    ensures Ascending(xs, lt, [])
  {
  }

  /** The arrangement that insertion builds is in order and stable, and leaves nothing out. */
  lemma {:induction false} SortingArranges<T>(xs: seq<T>, lt: Comparator<T>, n: nat)
    requires StrictWeak(xs, lt) && n <= |xs|
    ensures Ascending(xs, lt, Sorting(xs, lt, n)) && forall i: nat :: i in Sorting(xs, lt, n) <==> i < n
    decreases n
  {
    hide StrictWeak, Ascending, Insert, Positions;
    if n == 0 {
      EmptyAscends(xs, lt);
    } else {
      SortingArranges(xs, lt, n - 1);
      var pi := Sorting(xs, lt, n - 1);
      InsertAscends(xs, lt, pi, n - 1);
      InsertMembers(xs, lt, pi, n - 1);
    }
  }

  // ----- There is only one arrangement -----

  lemma BeforeAsym<T>(xs: seq<T>, lt: Comparator<T>, i: nat, j: nat)
    requires StrictWeak(xs, lt) && i < |xs| && j < |xs| && Before(xs, lt, i, j)
    ensures !Before(xs, lt, j, i)
  {
  }

  lemma HasMember(q: seq<nat>)
    requires q != []
    ensures exists i :: i in q
  {
    assert q[0] in q;
  }

  /** Two ascending lists of the same positions are equal. */
  lemma {:induction false} AscendingUnique<T>(xs: seq<T>, lt: Comparator<T>, p: seq<nat>, q: seq<nat>)
    requires StrictWeak(xs, lt) && Ascending(xs, lt, p) && Ascending(xs, lt, q) && forall i :: i in p <==> i in q
    ensures p == q
    decreases |p|
  {
    if p == [] {
      if q != [] {
        HasMember(q);
      }
    } else {
      assert p[0] in p && p[0] in q;
      var a :| 0 <= a < |q| && q[a] == p[0];
      assert q[0] in q && q[0] in p;
      var b :| 0 <= b < |p| && p[b] == q[0];
      if a > 0 && b > 0 {
        BeforeAsym(xs, lt, p[0], q[0]);
      }
      assert p[0] == q[0];
      Rest(xs, lt, p, q);
      AscendingUnique(xs, lt, p[1..], q[1..]);
      assert p == [p[0]] + p[1..] && q == [q[0]] + q[1..];
    }
  }

  lemma Rest<T>(xs: seq<T>, lt: Comparator<T>, p: seq<nat>, q: seq<nat>)
    requires StrictWeak(xs, lt) && Ascending(xs, lt, p) && Ascending(xs, lt, q) && forall i :: i in p <==> i in q
    requires p != [] && q != [] && p[0] == q[0]
    ensures forall i :: i in p[1..] <==> i in q[1..]
  {
    forall i
      ensures i in p[1..] <==> i in q[1..]
    {
      if i in p[1..] {
        InRest(xs, lt, p, q, i);
      }
      if i in q[1..] {
        InRest(xs, lt, q, p, i);
      }
    }
  }

  lemma InRest<T>(xs: seq<T>, lt: Comparator<T>, p: seq<nat>, q: seq<nat>, i: nat)
    requires StrictWeak(xs, lt) && Ascending(xs, lt, p) && (forall i :: i in p ==> i in q)
    requires p != [] && q != [] && p[0] == q[0] && i in p[1..]
    ensures i in q[1..]
  {
    var a :| 1 <= a < |p| && p[a] == i;
    assert Before(xs, lt, p[0], p[a]);
    BeforeAsym(xs, lt, p[0], p[a]);
    assert i in q && i != q[0];
  }

  /** Whatever algorithm sorts `xs` stably, its arrangement is the one of insertion sort. */
  lemma StableSortIsUnique<T>(xs: seq<T>, lt: Comparator<T>, pi: seq<nat>)
    requires StrictWeak(xs, lt)
    ensures Arranges(xs, lt, pi) <==> pi == Sorting(xs, lt, |xs|)
  {
    SortingArranges(xs, lt, |xs|);
    if Arranges(xs, lt, pi) {
      AscendingUnique(xs, lt, pi, Sorting(xs, lt, |xs|));
    }
  }

  // ----- In place -----

  lemma InsertUnfold<T>(xs: seq<T>, lt: Comparator<T>, pi: seq<nat>, x: nat)
    requires Positions(xs, pi) && x < |xs|
    ensures Insert(xs, lt, pi, x) ==
            if pi == [] || !lt(xs[x], xs[pi[|pi| - 1]]) then pi + [x] else Insert(xs, lt, pi[..|pi| - 1], x) + [pi[|pi| - 1]]
  {
  }

  /** One comparison of an insertion that has come to position `j`. */
  lemma InsertAt<T>(xs: seq<T>, lt: Comparator<T>, pi: seq<nat>, x: nat, j: nat, goal: seq<nat>)
    requires Positions(xs, pi) && x < |xs| && j <= |pi| && goal == Insert(xs, lt, pi[..j], x) + pi[j..]
    ensures if j > 0 && lt(xs[x], xs[pi[j - 1]]) then goal == Insert(xs, lt, pi[..j - 1], x) + pi[j - 1..]
            else goal == pi[..j] + [x] + pi[j..]
  {
    hide Insert;
    InsertUnfold(xs, lt, pi[..j], x);
    if j > 0 {
      assert pi[..j][..j - 1] == pi[..j - 1];
      assert [pi[j - 1]] + pi[j..] == pi[j - 1..];
    }
  }

  /** The element from position `i` has come to `j`: those it passed are one place further right. */
  ghost predicate Sunk<T>(s: seq<T>, xs: seq<T>, pi: seq<nat>, i: nat, j: nat)
    requires Positions(xs, pi)
  {
    && |s| == |xs| && j <= i == |pi| && i < |xs| && s[j] == xs[i]
    && (forall k :: 0 <= k < j ==> s[k] == xs[pi[k]])
    && (forall k :: j < k <= i ==> s[k] == xs[pi[k - 1]])
    && (forall k :: i < k < |xs| ==> s[k] == xs[k])
  }

  lemma SunkStart<T>(s: seq<T>, xs: seq<T>, pi: seq<nat>, i: nat)
    requires |s| == |xs| && |pi| == i < |xs| && Positions(xs, pi) && s[..i] == Arranged(xs, pi) && s[i..] == xs[i..]
    ensures Sunk(s, xs, pi, i, i)
  {
    assert s[i] == s[i..][0] == xs[i..][0];
    assert forall k :: 0 <= k < i ==> s[k] == s[..i][k];
    assert forall k :: i < k < |xs| ==> s[k] == s[i..][k - i] == xs[i..][k - i];
  }

  lemma SunkStep<T>(s: seq<T>, xs: seq<T>, pi: seq<nat>, i: nat, j: nat)
    requires Positions(xs, pi) && Sunk(s, xs, pi, i, j) && j > 0
    ensures Sunk(s[j := s[j - 1]][j - 1 := s[j]], xs, pi, i, j - 1)
  {
    var t := s[j := s[j - 1]][j - 1 := s[j]];
    assert t[j - 1] == s[j] && t[j] == s[j - 1];
    forall k | 0 <= k < |s| && k != j && k != j - 1
      ensures t[k] == s[k]
    {
    }
  }

  lemma SunkEnd<T>(s: seq<T>, xs: seq<T>, pi: seq<nat>, i: nat, j: nat, goal: seq<nat>)
    requires Positions(xs, pi) && Positions(xs, goal) && Sunk(s, xs, pi, i, j) && goal == pi[..j] + [i] + pi[j..]
    ensures s[..i + 1] == Arranged(xs, goal) && s[i + 1..] == xs[i + 1..]
  {
    forall k | 0 <= k <= i
      ensures s[k] == xs[goal[k]]
    {
      if k < j {
        assert goal[k] == pi[k];
      } else if k > j {
        assert goal[k] == pi[j..][k - j - 1] == pi[k - 1];
      }
    }
    assert |goal| == i + 1;
    assert s[..i + 1] == Arranged(xs, goal);
  }

  /** Moves the element at `i` left by adjacent swaps, past the greater ones before it. */
  method SinkLeft<T>(a: array<T>, i: nat, lt: Comparator<T>, ghost xs: seq<T>, ghost pi: seq<nat>)
    requires i < a.Length == |xs| && |pi| == i && Positions(xs, pi)
    requires a[..i] == Arranged(xs, pi) && a[i..] == xs[i..]
    modifies a
    ensures a[..i + 1] == Arranged(xs, Insert(xs, lt, pi, i)) && a[i + 1..] == xs[i + 1..]
  {
    ghost var goal := Insert(xs, lt, pi, i);
    assert pi[..i] == pi && goal + [] == goal && pi[i..] == [];
    assert a[..][..i] == a[..i] && a[..][i..] == a[i..];
    SunkStart(a[..], xs, pi, i);
    hide Insert, Arranged, Sunk, Positions;
    var j := i;
    while j > 0 && lt(a[j], a[j - 1])
      invariant 0 <= j <= i && Sunk(a[..], xs, pi, i, j)
      invariant goal == Insert(xs, lt, pi[..j], i) + pi[j..]
    {
      SunkAt(a[..], xs, pi, i, j);
      InsertAt(xs, lt, pi, i, j, goal);
      SunkStep(a[..], xs, pi, i, j);
      ghost var s := a[..];
      a[j], a[j - 1] := a[j - 1], a[j];
      assert a[..] == s[j := s[j - 1]][j - 1 := s[j]];
      j := j - 1;
    }
    SunkAt(a[..], xs, pi, i, j);
    InsertAt(xs, lt, pi, i, j, goal);
    SunkEnd(a[..], xs, pi, i, j, goal);
    assert a[..][..i + 1] == a[..i + 1] && a[..][i + 1..] == a[i + 1..];
  }

  lemma SunkAt<T>(s: seq<T>, xs: seq<T>, pi: seq<nat>, i: nat, j: nat)
    requires Positions(xs, pi) && Sunk(s, xs, pi, i, j)
    ensures s[j] == xs[i] && (j > 0 ==> s[j - 1] == xs[pi[j - 1]])
  {
  }

  /** Insertion sort. */
  method SliceStable<T>(a: array<T>, lt: Comparator<T>)
    modifies a
    ensures a[..] == Arranged(old(a[..]), Sorting(old(a[..]), lt, a.Length))
  {
    ghost var xs := a[..];
    var i := 0;
    while i < a.Length
      invariant 0 <= i <= a.Length
      invariant a[..i] == Arranged(xs, Sorting(xs, lt, i)) && a[i..] == xs[i..]
    {
      SinkLeft(a, i, lt, xs, Sorting(xs, lt, i));
      i := i + 1;
    }
    assert a[..] == a[..i];
  }
}

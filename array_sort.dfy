/**
 * `Array.prototype.sort(compareFn)` as the client uses it: an in-place,
 * stable sort driven by a comparator whose sign alone matters (ECMAScript
 * reads a NaN result as 0, "equal"). The engine's algorithm is
 * implementation-defined; the model is a stable linear insertion sort, which
 * is also well defined for a comparator that is not transitive.
 */
module ArraySort {

  /** Where insertion puts `x` into `p`: scanning from the right, past every
      element the comparator places strictly after `x`. */
  function InsertPos<T>(p: seq<T>, x: T, cmp: (T, T) -> int): (k: nat)
    ensures k <= |p|
    ensures k > 0 ==> cmp(p[k - 1], x) <= 0
    ensures forall i :: k <= i < |p| ==> cmp(p[i], x) > 0
  {
    if |p| == 0 then 0
    else if cmp(p[|p| - 1], x) > 0 then InsertPos(p[..|p| - 1], x, cmp)
    else |p|
  }

  function Insert<T>(p: seq<T>, x: T, cmp: (T, T) -> int): seq<T> {
    var k := InsertPos(p, x, cmp);
    p[..k] + [x] + p[k..]
  }

  /** The result of sorting `s` with `cmp`: each element in turn inserted into the sorted prefix. */
  function Sort<T>(s: seq<T>, cmp: (T, T) -> int): (r: seq<T>)
    ensures |r| == |s|
  {
    if |s| == 0 then []
    else Insert(Sort(s[..|s| - 1], cmp), s[|s| - 1], cmp)
  }

  /** Sorting only reorders: the result is a permutation of the input. */
  lemma {:induction false} SortPermutes<T>(s: seq<T>, cmp: (T, T) -> int)
    ensures multiset(Sort(s, cmp)) == multiset(s)
  {
    if |s| > 0 {
      var s', x := s[..|s| - 1], s[|s| - 1];
      var r' := Sort(s', cmp);
      assert Sort(s, cmp) == Insert(r', x, cmp);
      SortPermutes(s', cmp);
      InsertAdds(r', x, cmp);
      LastAdds(s);
    }
  }

  lemma LastAdds<T>(s: seq<T>)
    requires |s| > 0
    ensures multiset(s) == multiset(s[..|s| - 1]) + multiset{s[|s| - 1]}
  {
    assert s == s[..|s| - 1] + [s[|s| - 1]];
  }

  lemma InsertAdds<T>(p: seq<T>, x: T, cmp: (T, T) -> int)
    ensures multiset(Insert(p, x, cmp)) == multiset(p) + multiset{x}
  {
    SpliceAdds(p, InsertPos(p, x, cmp), x);
  }

  lemma SpliceAdds<T>(p: seq<T>, k: nat, x: T)
    requires k <= |p|
    ensures multiset(p[..k] + [x] + p[k..]) == multiset(p) + multiset{x}
  {
    assert p == p[..k] + p[k..];
  }

  /** The insertion point is the only position with an element not after `x` just
      before it and only elements after `x` from it on. */
  lemma {:induction false} InsertPosUnique<T>(p: seq<T>, x: T, cmp: (T, T) -> int, k: nat)
    requires k <= |p|
    requires k > 0 ==> cmp(p[k - 1], x) <= 0
    requires forall i :: k <= i < |p| ==> cmp(p[i], x) > 0
    ensures InsertPos(p, x, cmp) == k
    decreases |p|
  {
    if k < |p| {
      assert cmp(p[|p| - 1], x) > 0;
      var q := p[..|p| - 1];
      assert forall i :: k <= i < |q| ==> q[i] == p[i];
      InsertPosUnique(q, x, cmp, k);
    }
  }

  /** Swapping the arguments flips the sign: the comparator never says both "after". */
  ghost predicate SignAntisymmetric<T(!new)>(cmp: (T, T) -> int) {
    forall a, b :: cmp(a, b) > 0 ==> cmp(b, a) < 0
  }

  /** A comparator that orders by a total preorder (a key comparison, say). */
  ghost predicate TotalPreorder<T(!new)>(cmp: (T, T) -> int) {
    && SignAntisymmetric(cmp)
    && forall a, b, c :: cmp(a, b) <= 0 && cmp(b, c) <= 0 ==> cmp(a, c) <= 0
  }

  /** Every neighbouring pair is in comparator order. */
  ghost predicate AdjacentOrdered<T>(s: seq<T>, cmp: (T, T) -> int) {
    forall i :: 0 <= i < |s| - 1 ==> cmp(s[i], s[i + 1]) <= 0
  }

  /** Every pair is in comparator order. */
  ghost predicate Ordered<T>(s: seq<T>, cmp: (T, T) -> int) {
    forall i, j :: 0 <= i < j < |s| ==> cmp(s[i], s[j]) <= 0
  }

  /** The elements of `s` the comparator ties with `y`, in their order in `s`. */
  function Tied<T>(s: seq<T>, y: T, cmp: (T, T) -> int): seq<T> {
    if s == [] then []
    else (if cmp(s[0], y) == 0 then [s[0]] else []) + Tied(s[1..], y, cmp)
  }

  lemma {:induction false} TiedAppend<T>(a: seq<T>, b: seq<T>, y: T, cmp: (T, T) -> int)
    ensures Tied(a + b, y, cmp) == Tied(a, y, cmp) + Tied(b, y, cmp)
  {
    if a == [] {
      assert a + b == b;
    } else {
      var c := a + b;
      assert c[0] == a[0] && c[1..] == a[1..] + b;
      var h := if cmp(a[0], y) == 0 then [a[0]] else [];
      calc {
        Tied(c, y, cmp);
        h + Tied(a[1..] + b, y, cmp);
        { TiedAppend(a[1..], b, y, cmp); }
        h + (Tied(a[1..], y, cmp) + Tied(b, y, cmp));
        (h + Tied(a[1..], y, cmp)) + Tied(b, y, cmp);
      }
    }
  }

  lemma TiedSingleton<T>(x: T, y: T, cmp: (T, T) -> int)
    ensures Tied([x], y, cmp) == if cmp(x, y) == 0 then [x] else []
  {
    assert [x][1..] == [];
  }

  /** With a sign-antisymmetric comparator, every neighbouring pair of the result is in order. */
  lemma {:induction false} SortAdjacentOrdered<T(!new)>(s: seq<T>, cmp: (T, T) -> int)
    requires SignAntisymmetric(cmp)
    ensures AdjacentOrdered(Sort(s, cmp), cmp)
  {
    if |s| > 0 {
      var p := Sort(s[..|s| - 1], cmp);
      SortAdjacentOrdered(s[..|s| - 1], cmp);
      var x := s[|s| - 1];
      SpliceAdjacentOrdered(p, InsertPos(p, x, cmp), x, cmp);
    }
  }

  lemma SpliceAdjacentOrdered<T(!new)>(p: seq<T>, k: nat, x: T, cmp: (T, T) -> int)
    requires SignAntisymmetric(cmp) && AdjacentOrdered(p, cmp)
    requires k <= |p|
    requires k > 0 ==> cmp(p[k - 1], x) <= 0
    requires forall i :: k <= i < |p| ==> cmp(p[i], x) > 0
    ensures AdjacentOrdered(p[..k] + [x] + p[k..], cmp)
  {
    var r := p[..k] + [x] + p[k..];
    forall i | 0 <= i < |r| - 1 ensures cmp(r[i], r[i + 1]) <= 0 {
      if i + 1 < k {
        assert r[i] == p[i] && r[i + 1] == p[i + 1];
      } else if i + 1 == k {
        assert r[i] == p[k - 1] && r[i + 1] == x;
      } else if i == k {
        assert r[i] == x && r[i + 1] == p[k];
        assert cmp(p[k], x) > 0;
      } else {
        assert r[i] == p[i - 1] && r[i + 1] == p[i];
      }
    }
  }

  /** With a total-preorder comparator, the result is fully ordered. */
  lemma {:induction false} SortOrdered<T(!new)>(s: seq<T>, cmp: (T, T) -> int)
    requires TotalPreorder(cmp)
    ensures Ordered(Sort(s, cmp), cmp)
  {
    if |s| > 0 {
      var p := Sort(s[..|s| - 1], cmp);
      SortOrdered(s[..|s| - 1], cmp);
      var x := s[|s| - 1];
      SpliceOrdered(p, InsertPos(p, x, cmp), x, cmp);
    }
  }

  lemma SpliceOrdered<T(!new)>(p: seq<T>, k: nat, x: T, cmp: (T, T) -> int)
    requires TotalPreorder(cmp) && Ordered(p, cmp)
    requires k <= |p|
    requires k > 0 ==> cmp(p[k - 1], x) <= 0
    requires forall i :: k <= i < |p| ==> cmp(p[i], x) > 0
    ensures Ordered(p[..k] + [x] + p[k..], cmp)
  {
    var r := p[..k] + [x] + p[k..];
    SpliceAt(p, k, x);
    forall i, j | 0 <= i < j < |r| ensures cmp(r[i], r[j]) <= 0 {
      if i == k || j == k {
        OrderedAroundSplice(p, k, x, cmp, i, j);
      } else {
        var i', j' := if i < k then i else i - 1, if j < k then j else j - 1;
        assert r[i] == p[i'] && r[j] == p[j'] && i' < j';
      }
    }
  }

  /** Where each element of a splice comes from. */
  lemma SpliceAt<T>(p: seq<T>, k: nat, x: T)
    requires k <= |p|
    ensures var r := p[..k] + [x] + p[k..];
      && |r| == |p| + 1 && r[k] == x
      && (forall i :: 0 <= i < k ==> r[i] == p[i])
      && (forall i :: k < i < |r| ==> r[i] == p[i - 1])
  {
  }

  /** Pairs of a splice that involve the inserted element are in order. */
  lemma OrderedAroundSplice<T(!new)>(p: seq<T>, k: nat, x: T, cmp: (T, T) -> int, i: nat, j: nat)
    requires TotalPreorder(cmp) && Ordered(p, cmp)
    requires k <= |p|
    requires k > 0 ==> cmp(p[k - 1], x) <= 0
    requires forall i :: k <= i < |p| ==> cmp(p[i], x) > 0
    requires i < j <= |p| && (i == k || j == k)
    ensures cmp((p[..k] + [x] + p[k..])[i], (p[..k] + [x] + p[k..])[j]) <= 0
  {
    SpliceAt(p, k, x);
    if j == k {
      if i < k - 1 {
        assert cmp(p[i], p[k - 1]) <= 0;
      }
    } else {
      assert cmp(p[j - 1], x) > 0;
    }
  }

  /** With a total-preorder comparator, elements that tie keep their relative order (stability). */
  lemma {:induction false} SortStable<T(!new)>(s: seq<T>, y: T, cmp: (T, T) -> int)
    requires TotalPreorder(cmp)
    ensures Tied(Sort(s, cmp), y, cmp) == Tied(s, y, cmp)
  {
    if |s| > 0 {
      var s', x := s[..|s| - 1], s[|s| - 1];
      assert s == s' + [x];
      calc {
        Tied(Sort(s, cmp), y, cmp);
        Tied(Insert(Sort(s', cmp), x, cmp), y, cmp);
        { TieSeparates(x, y, cmp); TiedInsert(Sort(s', cmp), x, y, cmp); }
        Tied(Sort(s', cmp), y, cmp) + Tied([x], y, cmp);
        { SortStable(s', y, cmp); }
        Tied(s', y, cmp) + Tied([x], y, cmp);
        { TiedAppend(s', [x], y, cmp); }
        Tied(s, y, cmp);
      }
    }
  }

  /** Stability for every tie class at once. */
  lemma SortStableAll<T(!new)>(s: seq<T>, cmp: (T, T) -> int)
    requires TotalPreorder(cmp)
    ensures forall y :: Tied(Sort(s, cmp), y, cmp) == Tied(s, y, cmp)
  {
    forall y ensures Tied(Sort(s, cmp), y, cmp) == Tied(s, y, cmp) {
      SortStable(s, y, cmp);
    }
  }

  /** Inserting `x` adds it to its tie class after the members already there. */
  lemma TiedInsert<T>(p: seq<T>, x: T, y: T, cmp: (T, T) -> int)
    requires cmp(x, y) == 0 ==> forall e :: cmp(e, x) > 0 ==> cmp(e, y) != 0
    ensures Tied(Insert(p, x, cmp), y, cmp) == Tied(p, y, cmp) + Tied([x], y, cmp)
  {
    var k := InsertPos(p, x, cmp);
    TiedSplit(p, x, y, cmp);
    TiedCut(p, k, y, cmp);
    TiedAfterInsertPos(p, x, y, cmp);
    SwapEmpty(Tied(p[..k], y, cmp), Tied([x], y, cmp), Tied(p[k..], y, cmp));
  }

  lemma TiedSplit<T>(p: seq<T>, x: T, y: T, cmp: (T, T) -> int)
    ensures var k := InsertPos(p, x, cmp);
      Tied(Insert(p, x, cmp), y, cmp) == Tied(p[..k], y, cmp) + Tied([x], y, cmp) + Tied(p[k..], y, cmp)
  {
    var k := InsertPos(p, x, cmp);
    var before, after := p[..k], p[k..];
    assert Insert(p, x, cmp) == (before + [x]) + after;
    TiedAppend(before + [x], after, y, cmp);
    TiedAppend(before, [x], y, cmp);
  }

  lemma TiedCut<T>(p: seq<T>, k: nat, y: T, cmp: (T, T) -> int)
    requires k <= |p|
    ensures Tied(p, y, cmp) == Tied(p[..k], y, cmp) + Tied(p[k..], y, cmp)
  {
    assert p == p[..k] + p[k..];
    TiedAppend(p[..k], p[k..], y, cmp);
  }

  /** When `x` ties with `y`, nothing after `x`'s insertion point does. */
  lemma TiedAfterInsertPos<T>(p: seq<T>, x: T, y: T, cmp: (T, T) -> int)
    requires cmp(x, y) == 0 ==> forall e :: cmp(e, x) > 0 ==> cmp(e, y) != 0
    ensures Tied([x], y, cmp) == [] || Tied(p[InsertPos(p, x, cmp)..], y, cmp) == []
  {
    TiedSingleton(x, y, cmp);
    if cmp(x, y) == 0 {
      TiedNone(p[InsertPos(p, x, cmp)..], x, y, cmp);
    }
  }

  lemma SwapEmpty<T>(a: seq<T>, b: seq<T>, c: seq<T>)
    requires b == [] || c == []
    ensures a + b + c == a + c + b
  {
  }

  /** An element strictly after `x` is not tied with anything `x` ties with. */
  lemma TieSeparates<T(!new)>(x: T, y: T, cmp: (T, T) -> int)
    requires TotalPreorder(cmp)
    ensures cmp(x, y) == 0 ==> forall e :: cmp(e, x) > 0 ==> cmp(e, y) != 0
  {
    if cmp(x, y) == 0 {
      forall e | cmp(e, x) > 0 ensures cmp(e, y) != 0 {
        assert cmp(y, x) <= 0;
      }
    }
  }

  lemma {:induction false} TiedNone<T>(q: seq<T>, x: T, y: T, cmp: (T, T) -> int)
    requires forall e :: cmp(e, x) > 0 ==> cmp(e, y) != 0
    requires forall i :: 0 <= i < |q| ==> cmp(q[i], x) > 0
    ensures Tied(q, y, cmp) == []
  {
    if q != [] {
      TiedNone(q[1..], x, y, cmp);
    }
  }

  /** Sorts `a` in place; the result is `Sort` of the old contents. */
  method SortInPlace<T>(a: array<T>, cmp: (T, T) -> int)
    modifies a
    ensures a[..] == Sort(old(a[..]), cmp)
  {
    ghost var s := a[..];
    var i := 0;
    while i < a.Length
      invariant 0 <= i <= a.Length
      invariant a[..i] == Sort(s[..i], cmp)
      invariant a[i..] == s[i..]
    {
      assert a[i] == s[i];
      InsertInto(a, i, cmp);
      assert s[..i + 1] == s[..i] + [s[i]];
      i := i + 1;
    }
    assert s[..a.Length] == s;
  }

  /** Moves `a[i]` left into the sorted prefix `a[..i]`, shifting larger elements right. */
  method InsertInto<T>(a: array<T>, i: nat, cmp: (T, T) -> int)
    requires i < a.Length
    modifies a
    ensures a[..i + 1] == Insert(old(a[..i]), old(a[i]), cmp)
    ensures a[i + 1..] == old(a[i + 1..])
  {
    var x := a[i];
    ghost var p := a[..i];
    var j := ShiftRight(a, i, x, cmp);
    a[j] := x;
    InsertPosUnique(p, x, cmp, j);
    SpliceByIndex(a[..i + 1], p, j, x);
  }

  /** The inner loop of the insertion: shifts right, one place, the elements of `a[..i]`
      at the end that `cmp` puts after `x`, and returns the gap left behind. */
  method ShiftRight<T>(a: array<T>, i: nat, x: T, cmp: (T, T) -> int) returns (j: nat)
    requires i < a.Length
    modifies a
    ensures j <= i
    ensures j > 0 ==> cmp(old(a[j - 1]), x) <= 0
    ensures forall t :: j <= t < i ==> cmp(old(a[t]), x) > 0
    ensures forall t :: 0 <= t < j ==> a[t] == old(a[t])
    ensures forall t :: j < t <= i ==> a[t] == old(a[t - 1])
    ensures forall t :: i < t < a.Length ==> a[t] == old(a[t])
  {
    j := i;
    while j > 0 && cmp(a[j - 1], x) > 0
      invariant 0 <= j <= i
      invariant forall t :: 0 <= t < j ==> a[t] == old(a[t])
      invariant forall t :: j < t <= i ==> a[t] == old(a[t - 1])
      invariant forall t :: i < t < a.Length ==> a[t] == old(a[t])
      invariant forall t :: j <= t < i ==> cmp(old(a[t]), x) > 0
    {
      a[j] := a[j - 1];
      j := j - 1;
    }
  }

  /** A sequence that agrees index by index with `p` spliced at `k` is that splice. */
  lemma SpliceByIndex<T>(q: seq<T>, p: seq<T>, k: nat, x: T)
    requires k <= |p| && |q| == |p| + 1 && q[k] == x
    requires forall t :: 0 <= t < k ==> q[t] == p[t]
    requires forall t :: k < t < |q| ==> q[t] == p[t - 1]
    ensures q == p[..k] + [x] + p[k..]
  {
  }
}

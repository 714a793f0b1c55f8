/** What `sort.SliceStable` and `slices.SortStableFunc` compute, for any comparator. */
module StableSort {

  ghost predicate StrictWeakOrder<T(!new)>(less: (T, T) -> bool) {
    && (forall a :: !less(a, a))
    && (forall a, b :: less(a, b) ==> !less(b, a))
    && (forall a, b, c :: less(a, b) ==> less(a, c) || less(c, b))
  }

  /** One pass of the insertion sort: `x` moves left past every element it is less than. */
  function Insert<T>(ys: seq<T>, x: T, less: (T, T) -> bool): seq<T> {
    if ys == [] || !less(x, ys[|ys| - 1]) then ys + [x]
    else Insert(ys[..|ys| - 1], x, less) + [ys[|ys| - 1]]
  }

  function Sorted<T>(xs: seq<T>, less: (T, T) -> bool): seq<T> {
    if xs == [] then [] else Insert(Sorted(xs[..|xs| - 1], less), xs[|xs| - 1], less)
  }

  // ---- The specification of a stable sort ----

  ghost predicate Before<T>(xs: seq<T>, i: nat, j: nat, less: (T, T) -> bool)
    requires i < |xs| && j < |xs|
  {
    less(xs[i], xs[j]) || (!less(xs[j], xs[i]) && i < j)
  }

  ghost predicate Permutation(p: seq<nat>) {
    && (forall i :: 0 <= i < |p| ==> p[i] < |p|)
    && (forall i, j :: 0 <= i < j < |p| ==> p[i] != p[j])
  }

  /** `ys` rearranges `xs` by `p`, in order, with equivalent elements kept in their original order. */
  ghost predicate StableBy<T>(xs: seq<T>, ys: seq<T>, p: seq<nat>, less: (T, T) -> bool) {
    && |p| == |xs| == |ys|
    && Permutation(p)
    && (forall i :: 0 <= i < |p| ==> ys[i] == xs[p[i]])
    && (forall i, j :: 0 <= i < j < |p| ==> Before(xs, p[i], p[j], less))
  }

  ghost predicate IsStableSort<T>(xs: seq<T>, ys: seq<T>, less: (T, T) -> bool) {
    exists p: seq<nat> :: StableBy(xs, ys, p, less)
  }

  // ---- Insertion sort meets it ----

  lemma {:induction false} InsertSplits<T(!new)>(ys: seq<T>, x: T, less: (T, T) -> bool) returns (k: nat)
    ensures k <= |ys|
    ensures Insert(ys, x, less) == ys[..k] + [x] + ys[k..]
    ensures forall j :: k <= j < |ys| ==> less(x, ys[j])
    ensures k == 0 || !less(x, ys[k - 1])
  {
    k := |ys|;
    if ys != [] && less(x, ys[|ys| - 1]) {
      var init := ys[..|ys| - 1];
      k := InsertSplits(init, x, less);
      assert ys[k..] == init[k..] + [ys[|ys| - 1]];
    }
  }

  /** If `x` is not less than the element just before its place, it is not less than any earlier one. */
  lemma NotLessThanEarlier<T(!new)>(xs: seq<T>, x: T, ys: seq<T>, p: seq<nat>, k: nat, less: (T, T) -> bool)
    requires StrictWeakOrder(less)
    requires StableBy(xs, ys, p, less)
    requires k <= |ys| && (k == 0 || !less(x, ys[k - 1]))
    ensures forall j :: 0 <= j < k ==> !less(x, ys[j])
  {
    forall j | 0 <= j < k
      ensures !less(x, ys[j])
    {
      if j < k - 1 {
        assert Before(xs, p[j], p[k - 1], less);
      }
    }
  }

  lemma InsertKeepsStable<T(!new)>(xs: seq<T>, x: T, ys: seq<T>, p: seq<nat>, k: nat, less: (T, T) -> bool)
    requires StableBy(xs, ys, p, less)
    requires k <= |ys|
    requires forall j :: 0 <= j < k ==> !less(x, ys[j])
    requires forall j :: k <= j < |ys| ==> less(x, ys[j])
    ensures StableBy(xs + [x], ys[..k] + [x] + ys[k..], p[..k] + [|xs|] + p[k..], less)
  {
    var xs', q: seq<nat> := xs + [x], p[..k] + [|xs|] + p[k..];
    forall i, j | 0 <= i < j < |q|
      ensures Before(xs', q[i], q[j], less) && q[i] != q[j]
    {
      var i', j' := if i < k then i else i - 1, if j < k then j else j - 1;
      if i != k && j != k {
        assert q[i] == p[i'] && q[j] == p[j'];
        assert Before(xs, p[i'], p[j'], less);
      }
    }
  }

  lemma {:induction false} SortedIsStable<T(!new)>(xs: seq<T>, less: (T, T) -> bool) returns (p: seq<nat>)
    requires StrictWeakOrder(less)
    ensures StableBy(xs, Sorted(xs, less), p, less)
  {
    if xs == [] {
      p := [];
    } else {
      var init := xs[..|xs| - 1];
      var x, ys := xs[|xs| - 1], Sorted(init, less);
      p := SortedIsStable(init, less);
      var k := InsertSplits(ys, x, less);
      NotLessThanEarlier(init, x, ys, p, k, less);
      InsertKeepsStable(init, x, ys, p, k, less);
      p := p[..k] + [|init|] + p[k..];
      assert init + [x] == xs;
    }
  }

  // ---- and there is only one stable sort, so the algorithm does not matter ----

  lemma {:induction false} PermutationHits(p: seq<nat>, s: set<nat>)
    requires forall i :: 0 <= i < |p| ==> p[i] in s
    requires forall i, j :: 0 <= i < j < |p| ==> p[i] != p[j]
    requires |s| == |p|
    ensures forall v :: v in s ==> v in p
  {
    if p != [] {
      var last := p[|p| - 1];
      PermutationHits(p[..|p| - 1], s - {last});
      assert forall v :: v in s && v != last ==> v in p[..|p| - 1];
    }
  }

  function Indices(n: nat): (s: set<nat>)
    ensures |s| == n
    ensures forall i :: i in s <==> 0 <= i < n
  {
    if n == 0 then {} else Indices(n - 1) + {n - 1}
  }

  /** After an equal prefix, what one permutation has next the other has there or later. */
  lemma NextOccursLater(p: seq<nat>, q: seq<nat>, k: nat) returns (a: nat)
    requires Permutation(p) && Permutation(q) && k < |p| == |q|
    requires p[..k] == q[..k]
    ensures k <= a < |q| && q[a] == p[k]
  {
    PermutationHits(q, Indices(|q|));
    assert p[k] in Indices(|q|) && p[k] in q;
    forall i | 0 <= i < k
      ensures q[i] != p[k]
    {
      assert q[i] == q[..k][i] == p[..k][i] == p[i];
    }
    a :| a < |q| && q[a] == p[k];
  }

  lemma {:induction false} PermutationsAgree<T(!new)>(
    xs: seq<T>, ys: seq<T>, zs: seq<T>, p: seq<nat>, q: seq<nat>, k: nat, less: (T, T) -> bool)
    requires forall a, b :: less(a, b) ==> !less(b, a)
    requires StableBy(xs, ys, p, less) && StableBy(xs, zs, q, less)
    requires k <= |xs|
    ensures p[..k] == q[..k]
  {
    if k > 0 {
      PermutationsAgree(xs, ys, zs, p, q, k - 1, less);
      var i, j := p[k - 1], q[k - 1];
      var a := NextOccursLater(p, q, k - 1);
      var b := NextOccursLater(q, p, k - 1);
      assert a > k - 1 ==> Before(xs, j, i, less);
      assert b > k - 1 ==> Before(xs, i, j, less);
      assert p[..k] == p[..k - 1] + [i] && q[..k] == q[..k - 1] + [j];
    }
  }

  lemma StableSortIsUnique<T(!new)>(xs: seq<T>, ys: seq<T>, less: (T, T) -> bool)
    requires StrictWeakOrder(less)
    ensures IsStableSort(xs, ys, less) <==> ys == Sorted(xs, less)
  {
    var p := SortedIsStable(xs, less);
    if IsStableSort(xs, ys, less) {
      var q: seq<nat> :| StableBy(xs, ys, q, less);
      PermutationsAgree(xs, Sorted(xs, less), ys, p, q, |xs|, less);
      assert p[..|xs|] == p && q[..|xs|] == q;
      assert ys == Sorted(xs, less);
    }
  }

  // ---- The first element ----

  /** Only the least element so far decides whether a new one moves to the front. */
  lemma HeadOfInsert<T(!new)>(xs: seq<T>, x: T, less: (T, T) -> bool)
    requires StrictWeakOrder(less)
    ensures var ys := Sorted(xs, less);
            |ys| == |xs| && Insert(ys, x, less) != []
            && Insert(ys, x, less)[0] == if xs == [] || less(x, ys[0]) then x else ys[0]
  {
    var ys := Sorted(xs, less);
    var p := SortedIsStable(xs, less);
    var k := InsertSplits(ys, x, less);
    assert k > 1 ==> Before(xs, p[0], p[k - 1], less);
  }
}

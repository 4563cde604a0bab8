/** Sequence helpers shared by the filtering steps of the pipeline. */
module Lists {

  /**
   * The positions of the elements of `xs` that `keep` accepts, in increasing
   * order: the indices a `filter` over `xs` keeps.
   */
  function Positions<T>(xs: seq<T>, keep: T -> bool): (idx: seq<nat>)
    ensures forall j :: 0 <= j < |idx| ==> idx[j] < |xs| && keep(xs[idx[j]])
    ensures forall j, k :: 0 <= j < k < |idx| ==> idx[j] < idx[k]
    ensures |idx| <= |xs|
  {
    if xs == [] then []
    else
      var n := |xs| - 1;
      var init := Positions(xs[..n], keep);
      assert forall j :: 0 <= j < |init| ==> xs[init[j]] == xs[..n][init[j]];
      init + (if keep(xs[n]) then [n] else [])
  }

  /** No kept element is missed. */
  lemma {:induction false} PositionsComplete<T>(xs: seq<T>, keep: T -> bool)
    ensures forall i :: 0 <= i < |xs| && keep(xs[i]) ==> i in Positions(xs, keep)
  {
    if xs != [] {
      var n := |xs| - 1;
      PositionsComplete(xs[..n], keep);
      assert forall i :: 0 <= i < n ==> xs[i] == xs[..n][i];
    }
  }

  /**
   * `xs.filter(keep).map(f)` where `f` also sees the element's original
   * index, as in a `forEach` that pushes for some elements only.
   */
  function FilterMap<T, U>(xs: seq<T>, keep: T -> bool, f: (T, nat) -> U): (r: seq<U>)
    ensures |r| <= |xs|
  {
    if xs == [] then []
    else
      var n := |xs| - 1;
      FilterMap(xs[..n], keep, f) + (if keep(xs[n]) then [f(xs[n], n)] else [])
  }

  /** The k-th result is `f` of the k-th kept element, with that element's own index. */
  lemma {:induction false} FilterMapAtPositions<T, U>(xs: seq<T>, keep: T -> bool, f: (T, nat) -> U)
    ensures |FilterMap(xs, keep, f)| == |Positions(xs, keep)|
    ensures forall k :: 0 <= k < |FilterMap(xs, keep, f)| ==>
              FilterMap(xs, keep, f)[k] == f(xs[Positions(xs, keep)[k]], Positions(xs, keep)[k])
  {
    if xs != [] {
      var n := |xs| - 1;
      var init := xs[..n];
      FilterMapAtPositions(init, keep, f);
      var mapped, idx := FilterMap(init, keep, f), Positions(init, keep);
      var last := if keep(xs[n]) then [f(xs[n], n)] else [];
      var lastIdx := if keep(xs[n]) then [n] else [];
      assert FilterMap(xs, keep, f) == mapped + last;
      assert Positions(xs, keep) == idx + lastIdx;
      forall k | 0 <= k < |FilterMap(xs, keep, f)|
        ensures FilterMap(xs, keep, f)[k] == f(xs[Positions(xs, keep)[k]], Positions(xs, keep)[k])
      {
        if k < |mapped| {
          assert init[idx[k]] == xs[idx[k]];
        }
      }
    }
  }

  /** Extending the input by one element extends the result by that element's image, if kept. */
  lemma FilterMapSnoc<T, U>(xs: seq<T>, x: T, keep: T -> bool, f: (T, nat) -> U)
    ensures FilterMap(xs + [x], keep, f) == FilterMap(xs, keep, f) + (if keep(x) then [f(x, |xs|)] else [])
  {
    assert (xs + [x])[..|xs|] == xs;
  }

  /** The result on a prefix one element longer. */
  lemma FilterMapPrefixStep<T, U>(xs: seq<T>, i: nat, keep: T -> bool, f: (T, nat) -> U)
    requires i < |xs|
    ensures FilterMap(xs[..i + 1], keep, f) == FilterMap(xs[..i], keep, f) + (if keep(xs[i]) then [f(xs[i], i)] else [])
  {
    assert xs[..i + 1][..i] == xs[..i];
  }

  /** When every element is kept, the positions are all the indices. */
  lemma {:induction false} PositionsOfAll<T>(xs: seq<T>, keep: T -> bool)
    requires forall i :: 0 <= i < |xs| ==> keep(xs[i])
    ensures |Positions(xs, keep)| == |xs|
    ensures forall i :: 0 <= i < |xs| ==> Positions(xs, keep)[i] == i
  {
    if xs != [] {
      var n := |xs| - 1;
      PositionsOfAll(xs[..n], keep);
      assert Positions(xs, keep) == Positions(xs[..n], keep) + [n];
    }
  }

  /** Extending the input by one element adds that element's index, if kept. */
  lemma PositionsSnoc<T>(xs: seq<T>, x: T, keep: T -> bool)
    ensures Positions(xs + [x], keep) == Positions(xs, keep) + (if keep(x) then [|xs|] else [])
  {
    assert (xs + [x])[..|xs|] == xs;
  }

  /** Concatenation is associative. */
  lemma AppendAssociative<T>(a: seq<T>, b: seq<T>, c: seq<T>)
    ensures (a + b) + c == a + (b + c)
  {
  }

  /** The integers from `lo` up to, and not including, `hi`. */
  function Range(lo: nat, hi: nat): (r: seq<nat>)
    ensures |r| == if lo <= hi then hi - lo else 0
    ensures forall k :: 0 <= k < |r| ==> r[k] == lo + k
    decreases hi
  {
    if hi <= lo then [] else Range(lo, hi - 1) + [hi - 1]
  }

  /** Counting back `k` from the end of a sequence that ends with a range lands `k` below its top. */
  lemma RangeTail(xs: seq<nat>, lo: nat, hi: nat, k: nat)
    requires lo <= hi && k < hi - lo
    ensures var p := xs + Range(lo, hi); p[|p| - 1 - k] == hi - 1 - k
  {
    var p := xs + Range(lo, hi);
    assert p[|p| - 1 - k] == Range(lo, hi)[hi - lo - 1 - k];
  }

  /** Appending elements that are all kept appends their indices. */
  lemma {:induction false} PositionsOfKeptSuffix<T>(xs: seq<T>, ys: seq<T>, keep: T -> bool)
    requires forall i :: 0 <= i < |ys| ==> keep(ys[i])
    ensures Positions(xs + ys, keep) == Positions(xs, keep) + Range(|xs|, |xs| + |ys|)
  {
    if ys == [] {
      assert xs + ys == xs;
    } else {
      var m := |ys| - 1;
      var zs := xs + ys[..m];
      var px, pz := Positions(xs, keep), Positions(zs, keep);
      assert pz == px + Range(|xs|, |xs| + m) by {
        PositionsOfKeptSuffix(xs, ys[..m], keep);
      }
      assert Positions(xs + ys, keep) == pz + [|xs| + m] by {
        assert xs + ys == zs + [ys[m]];
        PositionsSnoc(zs, ys[m], keep);
      }
      var r, top := Range(|xs|, |xs| + m), [|xs| + m];
      assert Range(|xs|, |xs| + |ys|) == r + top;
      calc {
        Positions(xs + ys, keep);
        (px + r) + top;
        { AppendAssociative(px, r, top); }
        px + (r + top);
      }
    }
  }
}

/** Sequence helpers shared by the filters of the map pipeline: sums of reals,
    the positions at which a filter keeps an element, and the values left
    after some elements of a sequence have been removed. */
module Seqs {
  import opened Results

  /** Sum of a sequence of reals. */
  function Sum(xs: seq<real>): real
    decreases |xs|
  {
    if |xs| == 0 then 0.0 else Sum(xs[..|xs| - 1]) + xs[|xs| - 1]
  }

  lemma {:induction false} SumNonNegative(xs: seq<real>)
    requires forall i :: 0 <= i < |xs| ==> xs[i] >= 0.0
    ensures Sum(xs) >= 0.0
    decreases |xs|
  {
    if |xs| > 0 {
      SumNonNegative(xs[..|xs| - 1]);
    }
  }

  /** The indices at which `flags` holds, in increasing order: the positions
      of the elements a filter keeps. */
  function Positions(flags: seq<bool>): (r: seq<nat>)
    ensures forall j :: 0 <= j < |r| ==> r[j] < |flags| && flags[r[j]]
    ensures forall i :: 0 <= i < |flags| && flags[i] ==> i in r
    ensures forall j, k :: 0 <= j < k < |r| ==> r[j] < r[k]
    decreases |flags|
  {
    if |flags| == 0 then []
    else
      var n := |flags| - 1;
      Positions(flags[..n]) + (if flags[n] then [n] else [])
  }

  /** Appending one flag extends the positions by at most that one index. */
  lemma PositionsSnoc(flags: seq<bool>, b: bool)
    ensures Positions(flags + [b]) == Positions(flags) + (if b then [|flags|] else [])
  {
    assert (flags + [b])[..|flags|] == flags;
  }

  /** The complementary filter. */
  function Not(flags: seq<bool>): (r: seq<bool>)
    ensures |r| == |flags|
    ensures forall i :: 0 <= i < |flags| ==> r[i] != flags[i]
  {
    seq(|flags|, i requires 0 <= i < |flags| => !flags[i])
  }

  /** Every element is kept by exactly one of a filter and its complement. */
  lemma {:induction false} PositionsPartition(flags: seq<bool>)
    ensures |Positions(flags)| + |Positions(Not(flags))| == |flags|
    decreases |flags|
  {
    if |flags| > 0 {
      var n := |flags| - 1;
      var init := flags[..n];
      assert flags == init + [flags[n]];
      assert Not(flags) == Not(init) + [!flags[n]];
      PositionsSnoc(init, flags[n]);
      PositionsSnoc(Not(init), !flags[n]);
      PositionsPartition(init);
    }
  }

  /** Which entries of `xs` are still present. */
  function Present<T>(xs: seq<Option<T>>): (r: seq<bool>)
    ensures |r| == |xs|
    ensures forall i :: 0 <= i < |xs| ==> (r[i] <==> xs[i].Some?)
  {
    seq(|xs|, i requires 0 <= i < |xs| => xs[i].Some?)
  }

  /** The values of the present entries, in order. */
  function Values<T>(xs: seq<Option<T>>): seq<T>
    decreases |xs|
  {
    if |xs| == 0 then []
    else
      Values(xs[..|xs| - 1]) +
      match xs[|xs| - 1]
      case Some(v) => [v]
      case None => []
  }

  /** The `j`-th remaining value is the entry at the `j`-th present position. */
  lemma {:induction false} ValuesPositions<T>(xs: seq<Option<T>>)
    ensures |Values(xs)| == |Positions(Present(xs))|
    ensures forall j :: 0 <= j < |Values(xs)| ==>
              xs[Positions(Present(xs))[j]] == Some(Values(xs)[j])
    decreases |xs|
  {
    if |xs| > 0 {
      var n := |xs| - 1;
      var ys := xs[..n];
      assert Present(xs)[..n] == Present(ys);
      ValuesPositions(ys);
      var p, q := Positions(Present(xs)), Positions(Present(ys));
      assert p == q + (if xs[n].Some? then [n] else []);
      forall j | 0 <= j < |Values(xs)|
        ensures xs[p[j]] == Some(Values(xs)[j])
      {
        if j < |Values(ys)| {
          assert p[j] == q[j] && q[j] < n;
        }
      }
    }
  }
}

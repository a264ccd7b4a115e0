/** Order-preserving selection from a sequence: the shape of every `append if it matches` loop. */
module Sequences {

  /** The elements of `xs` that satisfy `p`, in order. */
  function Filter<T>(p: T -> bool, xs: seq<T>): (ys: seq<T>)
    ensures forall j :: 0 <= j < |ys| ==> ys[j] in xs && p(ys[j])
    ensures forall i :: 0 <= i < |xs| && p(xs[i]) ==> xs[i] in ys
  {
    if xs == [] then []
    else
      var last := xs[|xs| - 1];
      Filter(p, xs[..|xs| - 1]) + if p(last) then [last] else []
  }

  /** The positions of `xs` whose element satisfies `p`, in increasing order. */
  function Positions<T>(p: T -> bool, xs: seq<T>): (ix: seq<nat>)
    ensures forall j :: 0 <= j < |ix| ==> ix[j] < |xs|
    ensures forall i: nat :: i in ix <==> i < |xs| && p(xs[i])
    ensures forall j, k :: 0 <= j < k < |ix| ==> ix[j] < ix[k]
  {
    if xs == [] then []
    else
      Positions(p, xs[..|xs| - 1]) + if p(xs[|xs| - 1]) then [|xs| - 1] else []
  }

  /** `Filter` is exactly the matching subsequence: it reads `xs` at all the matching
      positions, each once, in order. */
  lemma {:induction false} FilterIsSubsequence<T>(p: T -> bool, xs: seq<T>)
    ensures |Filter(p, xs)| == |Positions(p, xs)|
    ensures forall j :: 0 <= j < |Filter(p, xs)| ==> Filter(p, xs)[j] == xs[Positions(p, xs)[j]]
  {
    if xs != [] {
      var n := |xs| - 1;
      var ys, ix := Filter(p, xs[..n]), Positions(p, xs[..n]);
      FilterIsSubsequence(p, xs[..n]);
      assert Filter(p, xs) == ys + if p(xs[n]) then [xs[n]] else [];
      assert Positions(p, xs) == ix + if p(xs[n]) then [n] else [];
      forall j | 0 <= j < |ys| ensures ys[j] == xs[ix[j]] {
        assert xs[..n][ix[j]] == xs[ix[j]];
      }
    }
  }

  /** All rows one after the other: the order in which a nested loop visits them. */
  function Flatten<T>(rows: seq<seq<T>>): seq<T> {
    if rows == [] then [] else Flatten(rows[..|rows| - 1]) + rows[|rows| - 1]
  }

  lemma {:induction false} FlattenLength<T>(rows: seq<seq<T>>, width: nat)
    requires forall i :: 0 <= i < |rows| ==> |rows[i]| == width
    ensures |Flatten(rows)| == |rows| * width
  {
    if rows != [] {
      FlattenLength(rows[..|rows| - 1], width);
      assert |rows| * width == (|rows| - 1) * width + width;
    }
  }

  /** With rows of equal width, column `b` of row `i` is element `i * width + b`. */
  lemma {:induction false} FlattenAt<T>(rows: seq<seq<T>>, width: nat, i: nat, b: nat) returns (k: nat)
    requires forall j :: 0 <= j < |rows| ==> |rows[j]| == width
    requires i < |rows| && b < width
    ensures k == i * width + b < |Flatten(rows)|
    ensures Flatten(rows)[k] == rows[i][b]
  {
    var n := |rows| - 1;
    FlattenLength(rows[..n], width);
    if i < n {
      k := FlattenAt(rows[..n], width, i, b);
    } else {
      k := n * width + b;
    }
  }
}

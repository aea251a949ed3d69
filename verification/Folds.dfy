/** Left folds over non-empty sequences. */
module Folds {

  function Fold<A>(f: (A, A) -> A, xs: seq<A>): A
    requires xs != []
  {
    if |xs| == 1 then xs[0] else f(Fold(f, xs[..|xs| - 1]), xs[|xs| - 1])
  }

  /** Two folds stay related when their first elements are and every step keeps the relation. */
  lemma {:induction false} FoldRelated<A(!new), B(!new)>(
      f: (A, A) -> A, xs: seq<A>, g: (B, B) -> B, ys: seq<B>, rel: (A, B) -> bool)
    requires |xs| == |ys| > 0 && rel(xs[0], ys[0])
    requires forall a, b, i :: 0 < i < |xs| && rel(a, b) ==> rel(f(a, xs[i]), g(b, ys[i]))
    ensures rel(Fold(f, xs), Fold(g, ys))
  {
    var n := |xs| - 1;
    if n > 0 {
      FoldRelated(f, xs[..n], g, ys[..n], rel);
    }
  }

  /** Folding an operator that keeps the higher-ranked operand finds a highest-ranked element. */
  lemma {:induction false} FoldBest<A(!new)>(f: (A, A) -> A, xs: seq<A>, rank: A -> int) returns (i: nat)
    requires xs != []
    requires forall a, b :: f(a, b) == a || f(a, b) == b
    requires forall a, b :: rank(f(a, b)) >= rank(a) && rank(f(a, b)) >= rank(b)
    ensures i < |xs| && Fold(f, xs) == xs[i]
    ensures forall k :: 0 <= k < |xs| ==> rank(xs[k]) <= rank(xs[i])
  {
    var n := |xs| - 1;
    if n == 0 {
      i := 0;
    } else {
      i := FoldBest(f, xs[..n], rank);
      assert forall k :: 0 <= k < n ==> xs[k] == xs[..n][k];
      if f(xs[i], xs[n]) == xs[n] {
        i := n;
      }
    }
  }
}

/** Order-preserving selections from a list, shared by the record filters. */
module Sequences {

  /** `xs` is `ys` with some entries dropped, the rest in their order. */
  predicate SubsequenceOf<T(==)>(xs: seq<T>, ys: seq<T>)
    decreases |ys|
  {
    if ys == [] then xs == []
    else (xs != [] && xs[0] == ys[0] && SubsequenceOf(xs[1..], ys[1..])) || SubsequenceOf(xs, ys[1..])
  }

  lemma {:induction false} SubsequenceOfSelf<T>(xs: seq<T>)
    ensures SubsequenceOf(xs, xs)
    decreases |xs|
  {
    if xs != [] {
      SubsequenceOfSelf(xs[1..]);
    }
  }

  /** A common last entry may be kept or dropped. */
  lemma {:induction false} SubsequenceOfSnoc<T>(xs: seq<T>, ys: seq<T>, z: T)
    requires SubsequenceOf(xs, ys)
    ensures SubsequenceOf(xs + [z], ys + [z])
    ensures SubsequenceOf(xs, ys + [z])
    decreases |ys|
  {
    if ys == [] {
      assert xs == [];
      assert ([] + [z])[1..] == [];
    } else {
      assert (ys + [z])[0] == ys[0];
      assert (ys + [z])[1..] == ys[1..] + [z];
      if xs != [] && xs[0] == ys[0] && SubsequenceOf(xs[1..], ys[1..]) {
        SubsequenceOfSnoc(xs[1..], ys[1..], z);
        assert (xs + [z])[0] == xs[0];
        assert (xs + [z])[1..] == xs[1..] + [z];
      } else {
        SubsequenceOfSnoc(xs, ys[1..], z);
      }
    }
  }
}

/** Regrouping lemmas for sequence concatenation, used wherever a trace of
    writes is split into the part already done and the part still to come. */
module Seqs {
  /** Concatenation is associative. */
  lemma Reassoc<T>(a: seq<T>, b: seq<T>, c: seq<T>)
    ensures a + b + c == a + (b + c)
  {
  }

  /** Appending the head of `ys` and then its tail appends `ys`. */
  lemma Regroup<T>(xs: seq<T>, ys: seq<T>)
    requires ys != []
    ensures xs + [ys[0]] + ys[1..] == xs + ys
  {
    assert ys == [ys[0]] + ys[1..];
  }
}

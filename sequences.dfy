/**
 * Facts about sequence concatenation that the proofs use by name, so that
 * they need not be rediscovered by extensionality inside larger proofs.
 */
module Sequences {
  lemma Associative<T>(x: seq<T>, y: seq<T>, z: seq<T>)
    ensures x + (y + z) == x + y + z
  {
  }

  /** Dropping a prefix of the left operand of a concatenation. */
  lemma DropAppend<T>(x: seq<T>, y: seq<T>, k: nat)
    requires k <= |x|
    ensures (x + y)[k..] == x[k..] + y
  {
  }

  /** Taking within the left operand of a concatenation. */
  lemma SliceAppend<T>(x: seq<T>, y: seq<T>, i: nat, j: nat)
    requires i <= j <= |x|
    ensures (x + y)[i..j] == x[i..j]
  {
  }

  /** A non-empty sequence, as a bag: its last element and the rest. */
  lemma LastSplit<T>(x: seq<T>)
    requires x != []
    ensures multiset(x) == multiset(x[..|x| - 1]) + multiset{x[|x| - 1]}
  {
    assert x == x[..|x| - 1] + [x[|x| - 1]];
  }
}

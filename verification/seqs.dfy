/** Sequence vocabulary shared by the picking and warming modules. */
module Seqs {

  /** No element occurs twice. */
  predicate NoDup<T(==)>(s: seq<T>) {
    forall i, j :: 0 <= i < j < |s| ==> s[i] != s[j]
  }

  /** The batches of a scan read one after the other. */
  function Flatten<T>(batches: seq<seq<T>>): seq<T> {
    if |batches| == 0 then [] else Flatten(batches[..|batches| - 1]) + batches[|batches| - 1]
  }

  /** `a` is `b` with some elements removed, the rest kept in order. */
  predicate IsSubsequence<T(==)>(a: seq<T>, b: seq<T>) {
    if |a| == 0 then true
    else if |b| == 0 then false
    else (a[|a| - 1] == b[|b| - 1] && IsSubsequence(a[..|a| - 1], b[..|b| - 1]))
         || IsSubsequence(a, b[..|b| - 1])
  }

  /** Reading the batches `0..k` and then the first `i` values of batch `k`
      reads a prefix of the whole scan. */
  lemma {:induction false} FlattenScanPrefix<T>(batches: seq<seq<T>>, k: nat, i: nat)
    requires k < |batches| && i <= |batches[k]|
    ensures Flatten(batches[..k]) + batches[k][..i] <= Flatten(batches)
    decreases |batches|
  {
    if k == |batches| - 1 {
      assert batches[..|batches| - 1] == batches[..k];
      assert Flatten(batches) == Flatten(batches[..k]) + batches[k];
    } else {
      var init := batches[..|batches| - 1];
      assert init[k] == batches[k];
      assert init[..k] == batches[..k];
      FlattenScanPrefix(init, k, i);
      assert Flatten(batches) == Flatten(init) + batches[|batches| - 1];
    }
  }

  /** Reading one more whole batch extends the scanned prefix by that batch. */
  lemma FlattenSnoc<T>(batches: seq<seq<T>>, k: nat)
    requires k < |batches|
    ensures Flatten(batches[..k + 1]) == Flatten(batches[..k]) + batches[k]
  {
    assert batches[..k + 1][..k] == batches[..k];
  }
}

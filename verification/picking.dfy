/** `pick_user_ids` (warm_history.py:29-52): the first `take` distinct user ids
    of the ranked recommendations table, in scan order. */
module Picking {
  import opened Wrappers
  import opened Seqs

  /** What the driver learns about the ranked table: whether the file exists,
      its column names, and the `user_id` column as the scanner delivers it,
      batch by batch, with nulls as `None`. */
  datatype Dataset = Dataset(found: bool, columns: seq<string>, userIds: seq<seq<Option<int>>>)

  /** The two ways picking fails before any id is read. */
  datatype PickError = FileNotFound | NoUserIdColumn(columns: seq<string>)

  const UserIdColumn: string := "user_id"

  /** The number of ids after which the scan stops. The length test follows
      the append, so a non-positive `take` still lets one id through. */
  function Cap(take: int): (c: nat)
    ensures c >= 1 && (take >= 1 ==> c == take)
    ensures take <= 0 ==> c == 1
  {
    if take >= 1 then take else 1
  }

  /** The non-null values of `vs`, each kept at its first occurrence. */
  function FirstDistinct(vs: seq<Option<int>>): (r: seq<int>)
    ensures NoDup(r)
    ensures forall x :: x in r <==> Some(x) in vs
  {
    if |vs| == 0 then []
    else
      var d := FirstDistinct(vs[..|vs| - 1]);
      assert vs == vs[..|vs| - 1] + [vs[|vs| - 1]];
      match vs[|vs| - 1]
      case None => d
      case Some(x) => if x in d then d else d + [x]
  }

  /** The index at which `x` first occurs in `vs`. */
  function FirstIndex(vs: seq<Option<int>>, x: int): (k: nat)
    requires Some(x) in vs
    ensures k < |vs| && vs[k] == Some(x)
    ensures forall k' :: 0 <= k' < k ==> vs[k'] != Some(x)
  {
    if vs[0] == Some(x) then 0 else 1 + FirstIndex(vs[1..], x)
  }

  /** The ids `pick_user_ids` returns for the scanned values `vs`. */
  function Picked(vs: seq<Option<int>>, take: int): seq<int> {
    var d := FirstDistinct(vs);
    if |d| <= Cap(take) then d else d[..Cap(take)]
  }

  /** The whole outcome of `pick_user_ids` on a dataset. */
  function Pick(ds: Dataset, take: int): Result<seq<int>, PickError> {
    if !ds.found then Failure(FileNotFound)
    else if UserIdColumn !in ds.columns then Failure(NoUserIdColumn(ds.columns))
    else Success(Picked(Flatten(ds.userIds), take))
  }

  /** Ids that come first in the result also first occur earlier in the scan. */
  lemma {:induction false} FirstDistinctOrder(vs: seq<Option<int>>, i: nat, j: nat)
    requires i < j < |FirstDistinct(vs)|
    ensures FirstIndex(vs, FirstDistinct(vs)[i]) < FirstIndex(vs, FirstDistinct(vs)[j])
  {
    var n := |vs| - 1;
    var init := vs[..n];
    var d, d0 := FirstDistinct(vs), FirstDistinct(init);
    assert vs == init + [vs[n]];
    if d == d0 {
      FirstDistinctOrder(init, i, j);
      FirstIndexExtend(init, vs[n], d[i]);
      FirstIndexExtend(init, vs[n], d[j]);
    } else {
      assert d == d0 + [vs[n].value];
      FirstIndexExtend(init, vs[n], d[i]);
      if j < |d0| {
        FirstDistinctOrder(init, i, j);
        FirstIndexExtend(init, vs[n], d[j]);
      } else {
        assert d[i] in d0;
        assert Some(d[j]) !in init;
        assert FirstIndex(vs, d[j]) == n;
      }
    }
  }

  /** Appending a value does not move the first occurrence of an id already seen. */
  lemma FirstIndexExtend(vs: seq<Option<int>>, v: Option<int>, x: int)
    requires Some(x) in vs
    ensures FirstIndex(vs + [v], x) == FirstIndex(vs, x)
  {
    var k, k' := FirstIndex(vs, x), FirstIndex(vs + [v], x);
    assert (vs + [v])[k] == Some(x);
  }

  /** Scanning further only appends to the distinct ids found so far. */
  lemma {:induction false} FirstDistinctPrefix(a: seq<Option<int>>, b: seq<Option<int>>)
    requires a <= b
    ensures FirstDistinct(a) <= FirstDistinct(b)
    decreases |b|
  {
    if |a| < |b| {
      var init := b[..|b| - 1];
      assert a <= init;
      FirstDistinctPrefix(a, init);
    } else {
      assert a == b;
    }
  }

  /** What `pick_user_ids` promises about its result, stated over the scanned
      values alone: distinct ids, each present in the scan, in order of first
      occurrence, at most `take` of them (at most one when `take <= 0`), a
      prefix of the distinct ids, and all of them when there are fewer. */
  lemma PickedPromises(vs: seq<Option<int>>, take: int)
    ensures var r := Picked(vs, take);
      && NoDup(r)
      && (forall x :: x in r ==> Some(x) in vs)
      && (forall i, j :: 0 <= i < j < |r| ==> FirstIndex(vs, r[i]) < FirstIndex(vs, r[j]))
      && |r| <= Cap(take)
      && (take <= 0 ==> |r| <= 1)
      && r <= FirstDistinct(vs)
      && (|r| < Cap(take) ==> forall x :: Some(x) in vs ==> x in r)
      && (|FirstDistinct(vs)| <= Cap(take) ==> forall x :: Some(x) in vs ==> x in r)
  {
    var r, d := Picked(vs, take), FirstDistinct(vs);
    forall i, j | 0 <= i < j < |r|
      ensures FirstIndex(vs, r[i]) < FirstIndex(vs, r[j])
    {
      FirstDistinctOrder(vs, i, j);
    }
    forall x | x in r
      ensures Some(x) in vs
    {
      assert x in d;
    }
  }

  /** Scanning one more value adds it to the distinct ids exactly when it is
      non-null and new. */
  lemma FirstDistinctSnoc(vs: seq<Option<int>>, v: Option<int>)
    ensures FirstDistinct(vs + [v]) ==
      if v.Some? && v.value !in FirstDistinct(vs) then FirstDistinct(vs) + [v.value] else FirstDistinct(vs)
  {
    assert (vs + [v])[..|vs|] == vs;
  }

  /** When `take` distinct ids have been collected part-way through the scan,
      they are already the whole answer. */
  lemma {:induction false} StopEarly(batches: seq<seq<Option<int>>>, b: nat, i: nat, take: int, out: seq<int>)
    requires b < |batches| && i <= |batches[b]|
    requires out == FirstDistinct(Flatten(batches[..b]) + batches[b][..i])
    requires |out| == Cap(take)
    ensures out == Picked(Flatten(batches), take)
  {
    FlattenScanPrefix(batches, b, i);
    FirstDistinctPrefix(Flatten(batches[..b]) + batches[b][..i], Flatten(batches));
  }

  /** The inner loop of `pick_user_ids` over one batch: `stop` reports that
      `take` ids were reached after the first `stop.value` values of the batch. */
  method ScanBatch(done: seq<Option<int>>, batch: seq<Option<int>>, take: int, out: seq<int>, seen: set<int>)
    returns (out': seq<int>, seen': set<int>, stop: Option<nat>)
    requires out == FirstDistinct(done) && seen == (set x | x in out) && |out| < Cap(take)
    ensures stop.Some? ==>
              0 < stop.value <= |batch| && out' == FirstDistinct(done + batch[..stop.value]) && |out'| == Cap(take)
    ensures stop.None? ==> out' == FirstDistinct(done + batch) && seen' == (set x | x in out') && |out'| < Cap(take)
  {
    out', seen' := out, seen;
    var i := 0;
    assert done + batch[..i] == done;
    while i < |batch|
      invariant 0 <= i <= |batch|
      invariant out' == FirstDistinct(done + batch[..i])
      invariant seen' == set x | x in out'
      invariant |out'| < Cap(take)
    {
      assert done + batch[..i + 1] == (done + batch[..i]) + [batch[i]];
      FirstDistinctSnoc(done + batch[..i], batch[i]);
      if batch[i].Some? {
        var userId := batch[i].value;
        if userId !in seen' {
          seen' := seen' + {userId};
          out' := out' + [userId];
          if |out'| >= take {
            return out', seen', Some(i + 1);
          }
        }
      }
      i := i + 1;
    }
    assert batch[..i] == batch;
    return out', seen', None;
  }

  /** `pick_user_ids`: scans the `user_id` column batch by batch, skipping
      nulls and ids already seen, and returns as soon as `take` ids are
      collected (warm_history.py:29-52). The result is the functional
      reference `Picked`. */
  method PickUserIds(ds: Dataset, take: int) returns (r: Result<seq<int>, PickError>)
    ensures !ds.found ==> r == Failure(FileNotFound)
    ensures ds.found && UserIdColumn !in ds.columns ==> r == Failure(NoUserIdColumn(ds.columns))
    ensures ds.found && UserIdColumn in ds.columns ==> r == Success(Picked(Flatten(ds.userIds), take))
  {
    if !ds.found {
      return Failure(FileNotFound);
    }
    if UserIdColumn !in ds.columns {
      return Failure(NoUserIdColumn(ds.columns));
    }
    var batches := ds.userIds;
    var out: seq<int> := [];
    var seen: set<int> := {};
    var b := 0;
    while b < |batches|
      invariant 0 <= b <= |batches|
      invariant out == FirstDistinct(Flatten(batches[..b]))
      invariant seen == set x | x in out
      invariant |out| < Cap(take)
    {
      var stop;
      out, seen, stop := ScanBatch(Flatten(batches[..b]), batches[b], take, out, seen);
      if stop.Some? {
        StopEarly(batches, b, stop.value, take, out);
        return Success(out);
      }
      FlattenSnoc(batches, b);
      b := b + 1;
    }
    assert batches[..b] == batches;
    return Success(out);
  }
}

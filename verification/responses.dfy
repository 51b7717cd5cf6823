/** The JSON body the `/recommend` endpoint answers with, as far as the
    cache-warming driver looks at it, and the two functions that read it:
    `take_seeds` and `sources_have_similar` (warm_history.py:55-68). */
module Responses {
  import opened Wrappers

  /** One element of the response array. A `Dict` carries the `track_id` and
      `source` keys when present (`None` when the key is missing). */
  datatype Item = NonDict | Dict(trackId: Option<int>, source: Option<string>)

  /** A decoded response body: anything that is not a JSON array, or an array. */
  datatype Response = NotAList | List(items: seq<Item>)

  /** The source tag the online-similarity step puts on its recommendations. */
  const SimilarOnline: string := "similar_online"

  /** An item that contributes a seed: a dict holding `track_id`. */
  predicate IsSeed(it: Item) {
    it.Dict? && it.trackId.Some?
  }

  /** An item produced by the online-similarity source. */
  predicate IsSimilar(it: Item) {
    it.Dict? && it.source == Some(SimilarOnline)
  }

  function Min(a: int, b: int): int {
    if a <= b then a else b
  }

  /** The track ids of the seed items, scanned front to back and appended. */
  function SeedsOf(items: seq<Item>): (r: seq<int>)
    ensures |r| <= |items|
    ensures forall x :: x in r ==> exists k :: 0 <= k < |items| && IsSeed(items[k]) && items[k].trackId.value == x
  {
    if |items| == 0 then []
    else
      var last := items[|items| - 1];
      SeedsOf(items[..|items| - 1]) + (if IsSeed(last) then [last.trackId.value] else [])
  }

  /** The positions of the seed items, in increasing order. */
  function SeedPositions(items: seq<Item>): (pos: seq<nat>)
    ensures forall j :: 0 <= j < |pos| ==> pos[j] < |items| && IsSeed(items[pos[j]])
    ensures forall j, j' :: 0 <= j < j' < |pos| ==> pos[j] < pos[j']
    ensures forall k :: 0 <= k < |items| && IsSeed(items[k]) ==> k in pos
  {
    if |items| == 0 then []
    else
      var n := |items| - 1;
      SeedPositions(items[..n]) + (if IsSeed(items[n]) then [n] else [])
  }

  /** `take_seeds`: the seeds among the first `seedTake` items of a list
      response; nothing for a non-list body or a non-positive `seedTake`. */
  function TakeSeeds(recs: Response, seedTake: int): (r: seq<int>)
    ensures recs.NotAList? || seedTake <= 0 ==> r == []
    ensures recs.List? && seedTake > 0 ==> |r| <= Min(seedTake, |recs.items|)
  {
    if recs.NotAList? || seedTake <= 0 then []
    else SeedsOf(recs.items[..Min(seedTake, |recs.items|)])
  }

  /** `sources_have_similar` over the elements of a list. */
  function AnySimilar(items: seq<Item>): (b: bool)
    ensures b <==> exists k :: 0 <= k < |items| && IsSimilar(items[k])
  {
    if |items| == 0 then false
    else IsSimilar(items[0]) || AnySimilar(items[1..])
  }

  /** `sources_have_similar`: false for a non-list body, otherwise whether some
      dict element carries `source == "similar_online"`. */
  function SourcesHaveSimilar(recs: Response): (b: bool)
    ensures b <==> recs.List? && exists k :: 0 <= k < |recs.items| && IsSimilar(recs.items[k])
  {
    recs.List? && AnySimilar(recs.items)
  }

  /** The seeds are, in order and one for one, the track ids of exactly the
      seed items: no item is skipped, reordered or merged with another. */
  lemma {:induction false} SeedsOfPositions(items: seq<Item>)
    ensures |SeedPositions(items)| == |SeedsOf(items)|
    ensures forall j :: 0 <= j < |SeedPositions(items)| ==>
      SeedsOf(items)[j] == items[SeedPositions(items)[j]].trackId.value
  {
    if |items| > 0 {
      var n := |items| - 1;
      SeedsOfPositions(items[..n]);
      var pos, r := SeedPositions(items[..n]), SeedsOf(items[..n]);
      forall j | 0 <= j < |pos|
        ensures items[pos[j]] == items[..n][pos[j]]
      {
      }
    }
  }

  /** Repeated track ids are kept: the number of seeds is the number of seed
      items, so no deduplication happens. */
  lemma {:induction false} SeedsOfCount(items: seq<Item>)
    ensures |SeedsOf(items)| == |set k | 0 <= k < |items| && IsSeed(items[k])|
  {
    if |items| > 0 {
      var n := |items| - 1;
      SeedsOfCount(items[..n]);
      var before := set k | 0 <= k < n && IsSeed(items[..n][k]);
      var after := set k | 0 <= k < |items| && IsSeed(items[k]);
      if IsSeed(items[n]) {
        assert after == before + {n};
      } else {
        assert after == before;
      }
    }
  }

  /** A track id is a seed of `take_seeds` exactly when one of the first
      `seedTake` items of a list response is a dict with that `track_id`. */
  lemma TakeSeedsMembership(recs: Response, seedTake: int, x: int)
    ensures x in TakeSeeds(recs, seedTake) <==>
      recs.List? && exists k :: 0 <= k < Min(seedTake, |recs.items|) && IsSeed(recs.items[k]) && recs.items[k].trackId.value == x
  {
    if recs.List? && seedTake > 0 {
      var head := recs.items[..Min(seedTake, |recs.items|)];
      if k :| 0 <= k < Min(seedTake, |recs.items|) && IsSeed(recs.items[k]) && recs.items[k].trackId.value == x {
        SeedsOfPositions(head);
        assert head[k] == recs.items[k];
        var j :| 0 <= j < |SeedPositions(head)| && SeedPositions(head)[j] == k;
        assert SeedsOf(head)[j] == x;
      }
    }
  }

  /** `take_seeds` on a list emits, in order and one for one, the `track_id`
      of every dict holding one among the first `seedTake` items, and of no
      other item. */
  lemma TakeSeedsExactly(recs: Response, seedTake: int)
    requires recs.List? && seedTake > 0
    ensures var n, r, pos := Min(seedTake, |recs.items|), TakeSeeds(recs, seedTake), SeedPositions(recs.items[..Min(seedTake, |recs.items|)]);
      && |r| == |pos|
      && (forall j :: 0 <= j < |pos| ==>
            pos[j] < n && IsSeed(recs.items[pos[j]]) && r[j] == recs.items[pos[j]].trackId.value)
      && (forall j, j' :: 0 <= j < j' < |pos| ==> pos[j] < pos[j'])
      && (forall k :: 0 <= k < n && IsSeed(recs.items[k]) ==> k in pos)
  {
    var n := Min(seedTake, |recs.items|);
    var head := recs.items[..n];
    SeedsOfPositions(head);
    assert forall k :: 0 <= k < n ==> head[k] == recs.items[k];
  }
}

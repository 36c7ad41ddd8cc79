/**
 * CalculatorResult: the throws a result was computed from, its best
 * prediction, and the top predictions, ranked by posterior weight on first
 * request and cached from then on.
 */
module Ranking {
  import opened Wrappers
  import RealMath
  import Observations
  import opened Stronghold

  /** The posterior the result was built from: its chunks and its most probable chunk. */
  datatype Posterior = Posterior(chunks: seq<Chunk>, mostProbableChunk: Chunk)

  /** ChunkPrediction: a chunk seen from the player position, if there is one. */
  datatype ChunkPrediction = ChunkPrediction(chunk: Chunk, playerPos: Option<Observations.Observation>)

  /** Weights never grow from left to right. */
  predicate NonIncreasing(s: seq<Chunk>) {
    forall i, j :: 0 <= i < j < |s| ==> s[j].weight <= s[i].weight
  }

  /** The chunks of s that have weight w, in the order s has them. */
  function WithWeight(s: seq<Chunk>, w: real): seq<Chunk> {
    if s == [] then [] else (if s[0].weight == w then [s[0]] else []) + WithWeight(s[1..], w)
  }

  /**
   * Insert c into t in front of the first chunk that does not outweigh it,
   * so that c stays ahead of every later chunk of equal weight.
   */
  function Insert(c: Chunk, t: seq<Chunk>): (r: seq<Chunk>)
    ensures |r| == |t| + 1
  {
    if t == [] || t[0].weight <= c.weight then [c] + t
    else [t[0]] + Insert(c, t[1..])
  }

  /**
   * The order List.sort gives the comparator -Double.compare(a.weight, b.weight):
   * a stable sort by descending weight.
   */
  function SortedByWeight(s: seq<Chunk>): (r: seq<Chunk>)
    ensures |r| == |s|
  {
    if s == [] then [] else Insert(s[0], SortedByWeight(s[1..]))
  }

  lemma {:induction false} InsertPermutes(c: Chunk, t: seq<Chunk>)
    ensures multiset(Insert(c, t)) == multiset(t) + multiset{c}
  {
    if !(t == [] || t[0].weight <= c.weight) {
      InsertPermutes(c, t[1..]);
      assert t == [t[0]] + t[1..];
    }
  }

  lemma {:induction false} InsertKeepsOrder(c: Chunk, t: seq<Chunk>)
    requires NonIncreasing(t)
    ensures NonIncreasing(Insert(c, t))
  {
    if !(t == [] || t[0].weight <= c.weight) {
      var rest := Insert(c, t[1..]);
      InsertKeepsOrder(c, t[1..]);
      forall k | 0 <= k < |t[1..]|
        ensures t[1..][k].weight <= t[0].weight
      {
        assert t[1..][k] == t[k + 1];
      }
      InsertBounded(c, t[1..], t[0].weight);
      var r := Insert(c, t);
      assert r == [t[0]] + rest;
      forall i, j | 0 <= i < j < |r|
        ensures r[j].weight <= r[i].weight
      {
        if i == 0 {
          assert r[j] == rest[j - 1];
        } else {
          assert r[i] == rest[i - 1] && r[j] == rest[j - 1];
        }
      }
    }
  }

  /** Inserting a chunk no heavier than b into chunks no heavier than b gives chunks no heavier than b. */
  lemma {:induction false} InsertBounded(c: Chunk, t: seq<Chunk>, b: real)
    requires c.weight <= b
    requires forall k :: 0 <= k < |t| ==> t[k].weight <= b
    ensures forall k :: 0 <= k < |Insert(c, t)| ==> Insert(c, t)[k].weight <= b
  {
    var r := Insert(c, t);
    if t == [] || t[0].weight <= c.weight {
      assert r == [c] + t;
      forall k | 0 <= k < |r|
        ensures r[k].weight <= b
      {
        if 0 < k {
          assert r[k] == t[k - 1];
        }
      }
    } else {
      var rest := Insert(c, t[1..]);
      forall k | 0 <= k < |t[1..]|
        ensures t[1..][k].weight <= b
      {
        assert t[1..][k] == t[k + 1];
      }
      InsertBounded(c, t[1..], b);
      assert r == [t[0]] + rest;
      forall k | 0 <= k < |r|
        ensures r[k].weight <= b
      {
        if 0 < k {
          assert r[k] == rest[k - 1];
        }
      }
    }
  }

  lemma {:induction false} InsertStable(c: Chunk, t: seq<Chunk>, w: real)
    ensures WithWeight(Insert(c, t), w) == (if c.weight == w then [c] else []) + WithWeight(t, w)
  {
    if t == [] || t[0].weight <= c.weight {
      WithWeightCons(c, t, w);
    } else {
      var rest := Insert(c, t[1..]);
      assert Insert(c, t) == [t[0]] + rest;
      InsertStable(c, t[1..], w);
      WithWeightCons(t[0], rest, w);
      WithWeightCons(t[0], t[1..], w);
      assert t == [t[0]] + t[1..];
      if c.weight == w {
        assert t[0].weight != w;
      }
    }
  }

  /** The chunks of weight w in x followed by s: x if it has weight w, then those of s. */
  lemma WithWeightCons(x: Chunk, s: seq<Chunk>, w: real)
    ensures WithWeight([x] + s, w) == (if x.weight == w then [x] else []) + WithWeight(s, w)
  {
    assert ([x] + s)[1..] == s;
  }

  /** Sorting leaves the weights in non-increasing order. */
  lemma {:induction false} SortedByWeightOrders(s: seq<Chunk>)
    ensures NonIncreasing(SortedByWeight(s))
  {
    if s != [] {
      SortedByWeightOrders(s[1..]);
      InsertKeepsOrder(s[0], SortedByWeight(s[1..]));
    }
  }

  /** Sorting keeps every chunk, as often as it occurs. */
  lemma {:induction false} SortedByWeightPermutes(s: seq<Chunk>)
    ensures multiset(SortedByWeight(s)) == multiset(s)
  {
    if s != [] {
      SortedByWeightPermutes(s[1..]);
      InsertPermutes(s[0], SortedByWeight(s[1..]));
      assert s == [s[0]] + s[1..];
    }
  }

  /** Sorting is stable: the chunks of any one weight keep their relative order. */
  lemma {:induction false} SortedByWeightStable(s: seq<Chunk>, w: real)
    ensures WithWeight(SortedByWeight(s), w) == WithWeight(s, w)
  {
    if s != [] {
      SortedByWeightStable(s[1..], w);
      InsertStable(s[0], SortedByWeight(s[1..]), w);
    }
  }

  /** A list already in non-increasing order is left exactly as it is by the stable sort. */
  lemma {:induction false} SortedOfNonIncreasing(s: seq<Chunk>)
    requires NonIncreasing(s)
    ensures SortedByWeight(s) == s
  {
    if s != [] {
      assert NonIncreasing(s[1..]);
      SortedOfNonIncreasing(s[1..]);
      assert s == [s[0]] + s[1..];
    }
  }

  /** Sorting the posterior's list a second time changes nothing. */
  lemma SortedByWeightIdempotent(s: seq<Chunk>)
    ensures SortedByWeight(SortedByWeight(s)) == SortedByWeight(s)
  {
    SortedByWeightOrders(s);
    SortedOfNonIncreasing(SortedByWeight(s));
  }

  /** min(n, max(amount, 1)): a prediction is added before the size is compared with amount. */
  function PredictionCount(n: nat, amount: int): nat {
    var wanted := if amount < 1 then 1 else amount;
    if n < wanted then n else wanted
  }

  /**
   * What the first call of getTopPredictions collects: one prediction for
   * each of the heaviest chunks, as many as asked for but at least one, and
   * no more than there are chunks.
   */
  function TopPredictions(chunks: seq<Chunk>, playerPos: Option<Observations.Observation>, amount: int): (r: seq<ChunkPrediction>)
    ensures |r| == PredictionCount(|chunks|, amount)
    ensures forall k :: 0 <= k < |r| ==> r[k] == ChunkPrediction(SortedByWeight(chunks)[k], playerPos)
    ensures forall i, j :: 0 <= i < j < |r| ==> r[j].chunk.weight <= r[i].chunk.weight
  {
    var sorted := SortedByWeight(chunks);
    SortedByWeightOrders(chunks);
    seq(PredictionCount(|sorted|, amount), k requires 0 <= k < |sorted| => ChunkPrediction(sorted[k], playerPos))
  }

  /**
   * A call that asks for no predictions, or a negative number of them,
   * still gets the heaviest chunk when there is one.
   */
  lemma AtLeastOnePrediction(chunks: seq<Chunk>, playerPos: Option<Observations.Observation>, amount: int)
    requires chunks != [] && amount <= 0
    ensures |TopPredictions(chunks, playerPos, amount)| == 1
    ensures forall c :: c in chunks ==> c.weight <= TopPredictions(chunks, playerPos, amount)[0].chunk.weight
  {
    var sorted := SortedByWeight(chunks);
    SortedByWeightPermutes(chunks);
    SortedByWeightOrders(chunks);
    forall c | c in chunks
      ensures c.weight <= sorted[0].weight
    {
      assert c in multiset(sorted);
      var m :| 0 <= m < |sorted| && sorted[m] == c;
    }
  }

  class CalculatorResult {
    var posterior: Posterior
    var eyeThrows: seq<Observations.Observation>
    var bestPrediction: ChunkPrediction
    var topPredictions: seq<ChunkPrediction>
    var playerPos: Option<Observations.Observation>

    /**
     * A result keeps its own copy of the throws, so later changes to the
     * caller's list leave it alone; its best prediction is the posterior's
     * most probable chunk.
     */
    constructor (posterior: Posterior, eyeThrows: seq<Observations.Observation>, playerPos: Option<Observations.Observation>)
      ensures this.posterior == posterior && this.eyeThrows == eyeThrows && this.playerPos == playerPos
      ensures bestPrediction == ChunkPrediction(posterior.mostProbableChunk, playerPos)
      ensures topPredictions == []
    {
      this.posterior := posterior;
      this.eyeThrows := [];
      this.playerPos := playerPos;
      this.topPredictions := [];
      new;
      this.eyeThrows := this.eyeThrows + eyeThrows;
      bestPrediction := ChunkPrediction(posterior.mostProbableChunk, playerPos);
    }

    /**
     * getTopPredictions: on the first call that finds chunks, sort the
     * posterior's own chunk list by weight, in place, and append predictions
     * until amount of them are there; every later call returns the same list,
     * whatever amount it asks for.
     */
    method GetTopPredictions(amount: int) returns (r: seq<ChunkPrediction>)
      modifies this
      ensures old(topPredictions) != [] ==> topPredictions == old(topPredictions) && posterior == old(posterior)
      ensures old(topPredictions) == [] ==> topPredictions == TopPredictions(old(posterior.chunks), playerPos, amount)
      ensures old(topPredictions) == [] ==> posterior == old(posterior).(chunks := SortedByWeight(old(posterior.chunks)))
      ensures r == topPredictions
      ensures eyeThrows == old(eyeThrows) && playerPos == old(playerPos)
      ensures bestPrediction == old(bestPrediction)
    {
      if topPredictions == [] {
        var topChunks := SortedByWeight(posterior.chunks);
        ghost var want := TopPredictions(posterior.chunks, playerPos, amount);
        posterior := posterior.(chunks := topChunks);
        var k := 0;
        while k < |topChunks|
          invariant 0 <= k <= |topChunks|
          invariant posterior == old(posterior).(chunks := topChunks)
          invariant eyeThrows == old(eyeThrows) && playerPos == old(playerPos)
          invariant bestPrediction == old(bestPrediction)
          invariant k == 0 || k < amount
          invariant |topPredictions| == k
          invariant forall m :: 0 <= m < k ==> topPredictions[m] == ChunkPrediction(topChunks[m], playerPos)
        {
          topPredictions := topPredictions + [ChunkPrediction(topChunks[k], playerPos)];
          k := k + 1;
          if |topPredictions| >= amount {
            break;
          }
        }
        assert |topPredictions| == |want|;
      }
      r := topPredictions;
    }

    function GetBestPrediction(): (r: ChunkPrediction)
      reads this
      ensures r == bestPrediction
    {
      bestPrediction
    }

    /** getAngleErrors: whatever the best prediction reports for the stored throws. */
    function GetAngleErrors(angleErrors: (ChunkPrediction, seq<Observations.Observation>) -> seq<real>): (r: seq<real>)
      reads this
      ensures r == angleErrors(bestPrediction, eyeThrows)
    {
      angleErrors(bestPrediction, eyeThrows)
    }

    /** success: whether the best prediction reports success. */
    function Success(succeeded: ChunkPrediction -> bool): (r: bool)
      reads this
      ensures r == succeeded(bestPrediction)
    {
      succeeded(bestPrediction)
    }
  }
}

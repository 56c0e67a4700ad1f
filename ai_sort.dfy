/**
 * classes/AISort.js: the greedy sequencer of module Greedy with the cosine similarity of track
 * embeddings, every pair of different tracks taking part in the seed-pair search. The accumulation
 * loop of `_getCosineSimilarity` is modelled; the final square roots and division are a parameter
 * `finish`, since real square roots are not available here.
 */
module AISort {
  import opened Wrappers
  import opened Seqs
  import opened Tracks
  import Greedy

  /** The three running sums of `_getCosineSimilarity`: dot product and both squared magnitudes. */
  datatype Sums = Sums(dot: real, magnitude1: real, magnitude2: real)

  function Min(a: nat, b: nat): nat {
    if a < b then a else b
  }

  /** The sums over the first `n` components. */
  function SumsUpTo(e1: seq<real>, e2: seq<real>, n: nat): Sums
    requires n <= |e1| && n <= |e2|
  {
    if n == 0 then Sums(0.0, 0.0, 0.0)
    else
      var s := SumsUpTo(e1, e2, n - 1);
      Sums(s.dot + e1[n - 1] * e2[n - 1], s.magnitude1 + e1[n - 1] * e1[n - 1], s.magnitude2 + e2[n - 1] * e2[n - 1])
  }

  /** The `for` loop over `i < Math.min(len1, len2)`. */
  method CosineSums(e1: seq<real>, e2: seq<real>) returns (s: Sums)
    ensures s == SumsUpTo(e1, e2, Min(|e1|, |e2|))
  {
    var dotProduct, magnitude1, magnitude2 := 0.0, 0.0, 0.0;
    var i := 0;
    while i < Min(|e1|, |e2|)
      invariant 0 <= i <= Min(|e1|, |e2|)
      invariant Sums(dotProduct, magnitude1, magnitude2) == SumsUpTo(e1, e2, i)
    {
      SumsStep(e1, e2, i);
      dotProduct := dotProduct + e1[i] * e2[i];
      magnitude1 := magnitude1 + e1[i] * e1[i];
      magnitude2 := magnitude2 + e2[i] * e2[i];
      i := i + 1;
    }
    s := Sums(dotProduct, magnitude1, magnitude2);
  }

  /** One more component adds its products to the sums. */
  lemma SumsStep(e1: seq<real>, e2: seq<real>, n: nat)
    requires n < |e1| && n < |e2|
    ensures var s := SumsUpTo(e1, e2, n);
            SumsUpTo(e1, e2, n + 1) == Sums(s.dot + e1[n] * e2[n], s.magnitude1 + e1[n] * e1[n], s.magnitude2 + e2[n] * e2[n])
  {
  }

  /** Both squared magnitudes are sums of squares, hence never negative. */
  lemma {:induction false} MagnitudesNonNegative(e1: seq<real>, e2: seq<real>, n: nat)
    requires n <= |e1| && n <= |e2|
    ensures SumsUpTo(e1, e2, n).magnitude1 >= 0.0 && SumsUpTo(e1, e2, n).magnitude2 >= 0.0
  {
    if n > 0 {
      MagnitudesNonNegative(e1, e2, n - 1);
      var x, y := e1[n - 1], e2[n - 1];
      assert x * x >= 0.0 && y * y >= 0.0;
    }
  }

  /** Swapping the vectors keeps the dot product and swaps the magnitudes. */
  lemma {:induction false} SumsSwap(e1: seq<real>, e2: seq<real>, n: nat)
    requires n <= |e1| && n <= |e2|
    ensures SumsUpTo(e2, e1, n) == Sums(SumsUpTo(e1, e2, n).dot, SumsUpTo(e1, e2, n).magnitude2, SumsUpTo(e1, e2, n).magnitude1)
  {
    if n > 0 {
      SumsSwap(e1, e2, n - 1);
    }
  }

  /** Components past the shorter vector's length are never read. */
  lemma {:induction false} SumsIgnoreTail(e1: seq<real>, e2: seq<real>, tail: seq<real>, n: nat)
    requires n <= |e1| && n <= |e2|
    ensures SumsUpTo(e1, e2 + tail, n) == SumsUpTo(e1, e2, n)
  {
    if n > 0 {
      SumsIgnoreTail(e1, e2, tail, n - 1);
      assert (e2 + tail)[n - 1] == e2[n - 1];
    }
  }

  /**
   * `_getCosineSimilarity`: the sums over the common prefix, combined by `finish`, which stands for
   * `dot / (sqrt(magnitude1) * sqrt(magnitude2))`.
   */
  function Cosine(e1: seq<real>, e2: seq<real>, finish: Sums -> real): real {
    finish(SumsUpTo(e1, e2, Min(|e1|, |e2|)))
  }

  /** What the real formula satisfies: multiplication of the magnitudes commutes. */
  ghost predicate SymmetricFinish(finish: Sums -> real) {
    forall d, a, b :: finish(Sums(d, a, b)) == finish(Sums(d, b, a))
  }

  /** The similarity is symmetric in its two tracks. */
  lemma CosineSymmetric(e1: seq<real>, e2: seq<real>, finish: Sums -> real)
    requires SymmetricFinish(finish)
    ensures Cosine(e1, e2, finish) == Cosine(e2, e1, finish)
  {
    SumsSwap(e1, e2, Min(|e1|, |e2|));
    var s := SumsUpTo(e1, e2, Min(|e1|, |e2|));
    assert finish(Sums(s.dot, s.magnitude1, s.magnitude2)) == finish(Sums(s.dot, s.magnitude2, s.magnitude1));
  }

  /** Only the first `min(len1, len2)` components matter: extra components of the longer one are ignored. */
  lemma CosineReadsCommonPrefix(e1: seq<real>, e2: seq<real>, tail: seq<real>, finish: Sums -> real)
    requires |e1| <= |e2|
    ensures Cosine(e1, e2 + tail, finish) == Cosine(e1, e2, finish)
  {
    SumsIgnoreTail(e1, e2, tail, |e1|);
  }

  // ---------------------------------------------------------------------------------------------

  function Embedding(tracks: seq<Snapshot>, t: nat): seq<real> {
    if t < |tracks| && tracks[t].embedding.Some? then tracks[t].embedding.value else []
  }

  /** Every track to sort exists and has its embedding (its `length` is read). */
  predicate Enriched(tracks: seq<Snapshot>, data: seq<nat>) {
    forall t :: t in data ==> t < |tracks| && tracks[t].embedding.Some?
  }

  function Metric(tracks: seq<Snapshot>, finish: Sums -> real): Greedy.Metric {
    Greedy.Metric(
      (t1: nat, t2: nat) => Cosine(Embedding(tracks, t1), Embedding(tracks, t2), finish),
      (t: nat) => true,
      (t: nat) => if t < |tracks| then PrimaryArtist(tracks[t].artistIds) else None)
  }

  /** Every entry of `data` is the same track. */
  predicate AllSameTrack(data: seq<nat>) {
    forall i, j :: 0 <= i < |data| && 0 <= j < |data| ==> data[i] == data[j]
  }

  /**
   * `sorted(data, separate_artists)`. Every pair of different tracks competes in the seed search, so it throws
   * only on two or more entries that are all the same track; the result is a permutation when the
   * tracks are different and neither track of the least similar pair is as similar to itself as to
   * the other. This holds for the real-valued similarities modelled here; a NaN similarity, which
   * fails every comparison, is not modelled.
   */
  method Sorted(tracks: seq<Snapshot>, data: seq<nat>, separate: bool, finish: Sums -> real)
    returns (r: Greedy.Outcome, rest: seq<nat>, ghost seed: seq<nat>)
    requires Enriched(tracks, data)
    ensures Greedy.IsSeedOf(Metric(tracks, finish), data, seed)
    ensures Greedy.SortsTo(Metric(tracks, finish), data, separate, r)
    ensures r.Crash? <==> |data| >= 2 && AllSameTrack(data)
    ensures r.Crash? ==> seed == [data[0]] && rest == Greedy.RemoveSeeds(data, seed)
    ensures r.Ok? ==> rest == [] && forall t :: t in r.order ==> t in data
    ensures r.Ok? && Greedy.RemoveSeeds(data, seed) == [] ==> r.order == seed
    ensures Distinct(data) && |data| >= 2 ==> r.Ok?
    ensures Distinct(data) && Greedy.PairSelfDistinct(Metric(tracks, finish), data) ==>
              r.Ok? && multiset(r.order) == multiset(data)
  {
    var m := Metric(tracks, finish);
    r, rest, seed := Greedy.Sorted(m, data, separate);
    Greedy.CrashIffNoPair(m, data, seed);
    NoValidPairIffAllSame(tracks, data, finish);
    if r.Crash? {
      Greedy.NoPairSeed(m, data, seed);
    }
    if Distinct(data) && |data| >= 2 {
      assert !AllSameTrack(data) by {
        assert data[0] != data[1];
      }
    }
  }

  lemma NoValidPairIffAllSame(tracks: seq<Snapshot>, data: seq<nat>, finish: Sums -> real)
    ensures Greedy.NoValidPair(Metric(tracks, finish), data) <==> AllSameTrack(data)
  {
    if !AllSameTrack(data) {
      var i, j :| 0 <= i < |data| && 0 <= j < |data| && data[i] != data[j];
      assert Greedy.ValidPair(Metric(tracks, finish), data, i, j);
    }
  }
}

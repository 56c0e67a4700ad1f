/**
 * The greedy insertion sequencer shared by classes/GenreSort.js and classes/AISort.js: the two files
 * hold the same `sorted`, `_getLeastSimilarTracks`, `_findLeastSimilarConsecutive` and
 * `_findMedianSimilarTrack`, differing only in the similarity they call and in whether tracks
 * without genres are skipped by the seed search.
 *
 * Tracks are compared by identity (`===`) in the source; here a track is its number (its position in
 * the track list), and everything a sorter reads about a track is a function of that number.
 */
module Greedy {
  import opened Wrappers
  import opened Seqs

  /**
   * What a sorter reads about tracks: the similarity of two tracks, whether a track may take part in
   * the seed search, and the track's `artistIds[0]` (`None` when `artistIds` is empty: JavaScript's
   * `undefined === undefined` holds, and so does `None == None`).
   */
  datatype Metric = Metric(sim: (nat, nat) -> real, eligible: nat -> bool, primaryArtist: nat -> Option<string>)

  /** What `sorted` does: resolve to an order, or throw (a `TypeError` on an undefined neighbour). */
  datatype Outcome = Ok(order: seq<nat>) | Crash

  // ---------------------------------------------------------------------------------------------
  // _findLeastSimilarConsecutive

  function PairSim(m: Metric, order: seq<nat>, k: nat): real
    requires k + 1 < |order|
  {
    m.sim(order[k], order[k + 1])
  }

  /** The last track of a non-empty order. */
  function Last(order: seq<nat>): nat
    requires order != []
  {
    order[|order| - 1]
  }

  /** `(k, k + 1)` is the first adjacent pair of least similarity. */
  predicate IsLeastPair(m: Metric, order: seq<nat>, k: nat) {
    k + 1 < |order|
    && (forall j :: 0 <= j < |order| - 1 ==> PairSim(m, order, k) <= PairSim(m, order, j))
    && (forall j :: 0 <= j < k ==> PairSim(m, order, k) < PairSim(m, order, j))
  }

  /** The first least similar adjacent pair; `None` (the source's `undefined`) when there is no adjacent pair. */
  method LeastSimilarConsecutive(m: Metric, order: seq<nat>) returns (first: Option<nat>)
    ensures first.None? <==> |order| < 2
    ensures first.Some? ==> IsLeastPair(m, order, first.value)
  {
    var fewest: Option<real> := None;  // Infinity
    first := None;
    var k := 0;
    while k < |order|
      invariant 0 <= k <= |order|
      invariant first.None? <==> fewest.None?
      invariant first.None? <==> (k == 0 || |order| < 2)
      invariant first.Some? ==> first.value + 1 < |order| && first.value < k
      invariant first.Some? ==> fewest == Some(PairSim(m, order, first.value))
      invariant first.Some? ==> forall j :: 0 <= j < k && j < |order| - 1 ==> fewest.value <= PairSim(m, order, j)
      invariant first.Some? ==> forall j :: 0 <= j < first.value ==> fewest.value < PairSim(m, order, j)
    {
      if k != |order| - 1 {
        var matches := m.sim(order[k], order[k + 1]);
        if fewest.None? || matches < fewest.value {
          fewest := Some(matches);
          first := Some(k);
        }
      }
      k := k + 1;
    }
  }

  /** Among the first `n` adjacent pairs, one is the first of least similarity. */
  lemma {:induction false} LeastPairUpTo(m: Metric, order: seq<nat>, n: nat) returns (k: nat)
    requires 1 <= n < |order|
    ensures k < n
    ensures forall j :: 0 <= j < n ==> PairSim(m, order, k) <= PairSim(m, order, j)
    ensures forall j :: 0 <= j < k ==> PairSim(m, order, k) < PairSim(m, order, j)
    decreases n
  {
    if n == 1 {
      k := 0;
    } else {
      k := LeastPairUpTo(m, order, n - 1);
      if PairSim(m, order, n - 1) < PairSim(m, order, k) {
        k := n - 1;
      }
    }
  }

  /** Only one adjacent pair is the first least similar one. */
  lemma LeastPairUnique(m: Metric, order: seq<nat>, k: nat)
    requires IsLeastPair(m, order, k)
    ensures forall k': nat :: IsLeastPair(m, order, k') ==> k' == k
  {
    forall k': nat | IsLeastPair(m, order, k') ensures k' == k {
      assert PairSim(m, order, k) == PairSim(m, order, k');
    }
  }

  /** The pair `_findLeastSimilarConsecutive` finds in an order of two or more tracks. */
  ghost function LeastPair(m: Metric, order: seq<nat>): (k: nat)
    requires |order| >= 2
    ensures IsLeastPair(m, order, k)
  {
    LeastPairExists(m, order);
    var k :| IsLeastPair(m, order, k);
    k
  }

  lemma LeastPairExists(m: Metric, order: seq<nat>)
    requires |order| >= 2
    ensures exists k :: IsLeastPair(m, order, k)
  {
    var k := LeastPairUpTo(m, order, |order| - 1);
    assert IsLeastPair(m, order, k);
  }

  // ---------------------------------------------------------------------------------------------
  // _findMedianSimilarTrack

  /** The average similarity of candidate `c` to the two neighbours `t1` and `t2`. */
  function Avg(m: Metric, t1: nat, t2: nat, c: nat): real {
    (m.sim(t1, c) + m.sim(t2, c)) / 2.0
  }

  /** A candidate is disallowed when artists are separated and it shares a primary artist with a neighbour. */
  predicate Allowed(m: Metric, t1: nat, t2: nat, c: nat, separate: bool) {
    !separate || (m.primaryArtist(c) != m.primaryArtist(t1) && m.primaryArtist(c) != m.primaryArtist(t2))
  }

  /**
   * Pool position `i` is what one pass picks: an allowed candidate whose average beats the initial
   * best of 0, that no allowed candidate beats, and that no earlier allowed candidate ties.
   */
  predicate IsBestCandidate(m: Metric, t1: nat, t2: nat, pool: seq<nat>, separate: bool, i: nat) {
    i < |pool| && Allowed(m, t1, t2, pool[i], separate) && Avg(m, t1, t2, pool[i]) > 0.0
    && (forall k :: 0 <= k < |pool| && Allowed(m, t1, t2, pool[k], separate) ==> Avg(m, t1, t2, pool[k]) <= Avg(m, t1, t2, pool[i]))
    && (forall k :: 0 <= k < i && Allowed(m, t1, t2, pool[k], separate) ==> Avg(m, t1, t2, pool[k]) < Avg(m, t1, t2, pool[i]))
  }

  /** A pass finds nothing: no allowed candidate's average exceeds 0. */
  predicate NoCandidate(m: Metric, t1: nat, t2: nat, pool: seq<nat>, separate: bool) {
    forall k :: 0 <= k < |pool| && Allowed(m, t1, t2, pool[k], separate) ==> Avg(m, t1, t2, pool[k]) <= 0.0
  }

  /**
   * The pool position of the track to insert between `t1` and `t2`: the best candidate under the
   * artist constraint; failing that, the best without it; failing that, position 0.
   */
  method MedianSimilarTrack(m: Metric, t1: nat, t2: nat, pool: seq<nat>, separate: bool) returns (best: nat)
    ensures |pool| > 0 ==> best < |pool|
    ensures !NoCandidate(m, t1, t2, pool, separate) ==> IsBestCandidate(m, t1, t2, pool, separate, best)
    ensures NoCandidate(m, t1, t2, pool, separate) && !NoCandidate(m, t1, t2, pool, false) ==> IsBestCandidate(m, t1, t2, pool, false, best)
    ensures NoCandidate(m, t1, t2, pool, false) ==> best == 0
    decreases if separate then 1 else 0
  {
    var mostAvg := 0.0;
    var bestMatch: Option<nat> := None;
    var i := 0;
    while i < |pool|
      invariant 0 <= i <= |pool|
      invariant bestMatch.None? ==> mostAvg == 0.0
      invariant bestMatch.None? ==> forall k :: 0 <= k < i && Allowed(m, t1, t2, pool[k], separate) ==> Avg(m, t1, t2, pool[k]) <= 0.0
      invariant bestMatch.Some? ==> bestMatch.value < i && Allowed(m, t1, t2, pool[bestMatch.value], separate)
      invariant bestMatch.Some? ==> mostAvg == Avg(m, t1, t2, pool[bestMatch.value]) && mostAvg > 0.0
      invariant bestMatch.Some? ==> forall k :: 0 <= k < i && Allowed(m, t1, t2, pool[k], separate) ==> Avg(m, t1, t2, pool[k]) <= mostAvg
      invariant bestMatch.Some? ==> forall k :: 0 <= k < bestMatch.value && Allowed(m, t1, t2, pool[k], separate) ==> Avg(m, t1, t2, pool[k]) < mostAvg
    {
      var c := pool[i];
      var matches1 := m.sim(t1, c);
      var matches2 := m.sim(t2, c);
      var sharesArtist := m.primaryArtist(c) == m.primaryArtist(t1) || m.primaryArtist(c) == m.primaryArtist(t2);
      var isAllowed := !separate || !sharesArtist;
      var avg := (matches1 + matches2) / 2.0;
      if avg > mostAvg && isAllowed {
        mostAvg := avg;
        bestMatch := Some(i);
      }
      i := i + 1;
    }
    if bestMatch.None? {
      if separate {
        best := MedianSimilarTrack(m, t1, t2, pool, false);
      } else {
        best := 0;
      }
    } else {
      best := bestMatch.value;
    }
  }

  /** Relaxing the artist constraint never loses a candidate. */
  lemma RelaxedKeepsCandidates(m: Metric, t1: nat, t2: nat, pool: seq<nat>)
    requires NoCandidate(m, t1, t2, pool, false)
    ensures NoCandidate(m, t1, t2, pool, true)
  {
  }

  /** Pool position `at` is what `_findMedianSimilarTrack` returns, case by case. */
  predicate IsMedianChoice(m: Metric, t1: nat, t2: nat, pool: seq<nat>, separate: bool, at: nat) {
    at < |pool|
    && (!NoCandidate(m, t1, t2, pool, separate) ==> IsBestCandidate(m, t1, t2, pool, separate, at))
    && (NoCandidate(m, t1, t2, pool, separate) && !NoCandidate(m, t1, t2, pool, false) ==> IsBestCandidate(m, t1, t2, pool, false, at))
    && (NoCandidate(m, t1, t2, pool, false) ==> at == 0)
  }

  /** Among the first `n` pool tracks, if one is an allowed candidate, one is the best of them. */
  lemma {:induction false} BestUpTo(m: Metric, t1: nat, t2: nat, pool: seq<nat>, separate: bool, n: nat, c: nat) returns (i: nat)
    requires n <= |pool| && c < n && Allowed(m, t1, t2, pool[c], separate) && Avg(m, t1, t2, pool[c]) > 0.0
    ensures i < n && Allowed(m, t1, t2, pool[i], separate) && Avg(m, t1, t2, pool[i]) > 0.0
    ensures forall k :: 0 <= k < n && Allowed(m, t1, t2, pool[k], separate) ==> Avg(m, t1, t2, pool[k]) <= Avg(m, t1, t2, pool[i])
    ensures forall k :: 0 <= k < i && Allowed(m, t1, t2, pool[k], separate) ==> Avg(m, t1, t2, pool[k]) < Avg(m, t1, t2, pool[i])
    decreases n
  {
    if exists k :: 0 <= k < n - 1 && Allowed(m, t1, t2, pool[k], separate) && Avg(m, t1, t2, pool[k]) > 0.0 {
      var k :| 0 <= k < n - 1 && Allowed(m, t1, t2, pool[k], separate) && Avg(m, t1, t2, pool[k]) > 0.0;
      i := BestUpTo(m, t1, t2, pool, separate, n - 1, k);
      if Allowed(m, t1, t2, pool[n - 1], separate) && Avg(m, t1, t2, pool[n - 1]) > Avg(m, t1, t2, pool[i]) {
        i := n - 1;
      }
    } else {
      i := n - 1;
    }
  }

  /** A pool with an allowed candidate has a best one. */
  lemma BestCandidateExists(m: Metric, t1: nat, t2: nat, pool: seq<nat>, separate: bool) returns (i: nat)
    requires !NoCandidate(m, t1, t2, pool, separate)
    ensures IsBestCandidate(m, t1, t2, pool, separate, i)
  {
    var c :| 0 <= c < |pool| && Allowed(m, t1, t2, pool[c], separate) && Avg(m, t1, t2, pool[c]) > 0.0;
    i := BestUpTo(m, t1, t2, pool, separate, |pool|, c);
  }

  lemma BestCandidateUnique(m: Metric, t1: nat, t2: nat, pool: seq<nat>, separate: bool, i: nat, i': nat)
    requires IsBestCandidate(m, t1, t2, pool, separate, i) && IsBestCandidate(m, t1, t2, pool, separate, i')
    ensures i == i'
  {
    assert Avg(m, t1, t2, pool[i]) == Avg(m, t1, t2, pool[i']);
  }

  /** Only one pool position is the median-similar choice. */
  lemma MedianChoiceUnique(m: Metric, t1: nat, t2: nat, pool: seq<nat>, separate: bool, at: nat)
    requires IsMedianChoice(m, t1, t2, pool, separate, at)
    ensures forall at': nat :: IsMedianChoice(m, t1, t2, pool, separate, at') ==> at' == at
  {
    forall at': nat | IsMedianChoice(m, t1, t2, pool, separate, at') ensures at' == at {
      if !NoCandidate(m, t1, t2, pool, separate) {
        BestCandidateUnique(m, t1, t2, pool, separate, at, at');
      } else if !NoCandidate(m, t1, t2, pool, false) {
        BestCandidateUnique(m, t1, t2, pool, false, at, at');
      }
    }
  }

  lemma MedianChoiceExists(m: Metric, t1: nat, t2: nat, pool: seq<nat>, separate: bool)
    requires |pool| > 0
    ensures exists at :: IsMedianChoice(m, t1, t2, pool, separate, at)
  {
    if !NoCandidate(m, t1, t2, pool, separate) {
      var i := BestCandidateExists(m, t1, t2, pool, separate);
      if separate {
        assert !NoCandidate(m, t1, t2, pool, false) by {
          if NoCandidate(m, t1, t2, pool, false) {
            RelaxedKeepsCandidates(m, t1, t2, pool);
          }
        }
      }
      assert IsMedianChoice(m, t1, t2, pool, separate, i);
    } else if !NoCandidate(m, t1, t2, pool, false) {
      var i := BestCandidateExists(m, t1, t2, pool, false);
      assert IsMedianChoice(m, t1, t2, pool, separate, i);
    } else {
      assert IsMedianChoice(m, t1, t2, pool, separate, 0);
    }
  }

  /** The pool position `_findMedianSimilarTrack` returns for a non-empty pool. */
  ghost function MedianChoice(m: Metric, t1: nat, t2: nat, pool: seq<nat>, separate: bool): (at: nat)
    requires |pool| > 0
    ensures IsMedianChoice(m, t1, t2, pool, separate, at)
  {
    MedianChoiceExists(m, t1, t2, pool, separate);
    var at :| IsMedianChoice(m, t1, t2, pool, separate, at);
    at
  }

  // ---------------------------------------------------------------------------------------------
  // _getLeastSimilarTracks

  /** Rows `i` and columns `j` of the seed search that are compared: two different, eligible tracks. */
  predicate ValidPair(m: Metric, data: seq<nat>, i: nat, j: nat) {
    i < |data| && j < |data| && data[i] != data[j] && m.eligible(data[i]) && m.eligible(data[j])
  }

  /** `(i', j')` is visited before `(i, j)` by the two nested `forEach` loops (row-major order). */
  predicate Before(i': nat, j': nat, i: nat, j: nat) {
    i' < i || (i' == i && j' < j)
  }

  ghost predicate NoValidPair(m: Metric, data: seq<nat>) {
    forall i: nat, j: nat :: !ValidPair(m, data, i, j)
  }

  /** `(i, j)` is the pair the nested loops keep: least similar, and the first such in row-major order. */
  ghost predicate IsFirstMinPair(m: Metric, data: seq<nat>, i: nat, j: nat) {
    ValidPair(m, data, i, j)
    && (forall i': nat, j': nat :: ValidPair(m, data, i', j') ==> m.sim(data[i], data[j]) <= m.sim(data[i'], data[j']))
    && (forall i': nat, j': nat :: ValidPair(m, data, i', j') && Before(i', j', i, j) ==> m.sim(data[i], data[j]) < m.sim(data[i'], data[j']))
  }

  /**
   * `retVal.every(s => sim(t, s) === minSim)`, where a missing minimum (`None`) is the source's
   * `Infinity`, which no similarity equals.
   */
  predicate AllAtMin(m: Metric, t: nat, seed: seq<nat>, minSim: Option<real>) {
    forall s :: s in seed ==> minSim == Some(m.sim(t, s))
  }

  /**
   * The extension pass: walk `data` in order and append every track whose similarity to every
   * current seed member (including those appended in this pass, and itself if it is one) is the minimum.
   */
  function ExtendSeed(m: Metric, data: seq<nat>, seed: seq<nat>, minSim: Option<real>): seq<nat>
    decreases |data|
  {
    if data == [] then seed
    else ExtendSeed(m, data[1..], if AllAtMin(m, data[0], seed, minSim) then seed + [data[0]] else seed, minSim)
  }

  /** `seed` is what `_getLeastSimilarTracks(data)` returns. */
  ghost predicate IsSeedOf(m: Metric, data: seq<nat>, seed: seq<nat>) {
    if NoValidPair(m, data) then seed == ExtendSeed(m, data, [], None)
    else exists i: nat, j: nat :: IsFirstMinPair(m, data, i, j)
                        && seed == ExtendSeed(m, data, [data[i], data[j]], Some(m.sim(data[i], data[j])))
  }

  /** The state of the nested scan when it is about to visit `(i, j)`. */
  ghost predicate ScannedBest(m: Metric, data: seq<nat>, i: nat, j: nat, minSim: Option<real>, bi: nat, bj: nat) {
    (minSim.None? ==> forall i': nat, j': nat :: ValidPair(m, data, i', j') ==> !Before(i', j', i, j))
    && (minSim.Some? ==>
          ValidPair(m, data, bi, bj) && Before(bi, bj, i, j) && minSim.value == m.sim(data[bi], data[bj])
          && (forall i': nat, j': nat :: ValidPair(m, data, i', j') && Before(i', j', i, j) ==> minSim.value <= m.sim(data[i'], data[j']))
          && (forall i': nat, j': nat :: ValidPair(m, data, i', j') && Before(i', j', bi, bj) ==> minSim.value < m.sim(data[i'], data[j'])))
  }

  method LeastSimilarTracks(m: Metric, data: seq<nat>) returns (seed: seq<nat>)
    ensures IsSeedOf(m, data, seed)
  {
    var minSim: Option<real> := None;  // Infinity
    var pair: seq<nat> := [];
    ghost var bi: nat, bj: nat := 0, 0;
    var i: nat := 0;
    while i < |data|
      invariant i <= |data|
      invariant ScannedBest(m, data, i, 0, minSim, bi, bj)
      invariant minSim.None? ==> pair == []
      invariant minSim.Some? ==> pair == [data[bi], data[bj]]
    {
      if m.eligible(data[i]) {
        minSim, pair, bi, bj := ScanRow(m, data, i, minSim, pair, bi, bj);
      } else {
        IneligibleRow(m, data, i, minSim, bi, bj);
      }
      i := i + 1;
    }
    ScanComplete(m, data, minSim, bi, bj);
    seed := ExtendPass(m, data, pair, minSim);
  }

  /** The inner `forEach` over `data` for row `i`, whose track is eligible. */
  method ScanRow(m: Metric, data: seq<nat>, i: nat, minSim0: Option<real>, pair0: seq<nat>, ghost bi0: nat, ghost bj0: nat)
    returns (minSim: Option<real>, pair: seq<nat>, ghost bi: nat, ghost bj: nat)
    requires i < |data| && m.eligible(data[i])
    requires ScannedBest(m, data, i, 0, minSim0, bi0, bj0)
    requires minSim0.None? ==> pair0 == []
    requires minSim0.Some? ==> pair0 == [data[bi0], data[bj0]]
    ensures ScannedBest(m, data, i + 1, 0, minSim, bi, bj)
    ensures minSim.None? ==> pair == []
    ensures minSim.Some? ==> pair == [data[bi], data[bj]]
  {
    minSim, pair, bi, bj := minSim0, pair0, bi0, bj0;
    var j := 0;
    while j < |data|
      invariant 0 <= j <= |data|
      invariant ScannedBest(m, data, i, j, minSim, bi, bj)
      invariant minSim.None? ==> pair == []
      invariant minSim.Some? ==> pair == [data[bi], data[bj]]
    {
      if !(data[i] == data[j] || !m.eligible(data[j])) {
        var shared := m.sim(data[i], data[j]);
        if minSim.None? || shared < minSim.value {
          minSim := Some(shared);
          pair := [data[i], data[j]];
          bi, bj := i, j;
        }
      }
      j := j + 1;
    }
    RowDone(m, data, i, minSim, bi, bj);
  }

  /** Having visited `(i, j)` for every column `j` is having reached the start of row `i + 1`. */
  lemma RowDone(m: Metric, data: seq<nat>, i: nat, minSim: Option<real>, bi: nat, bj: nat)
    requires ScannedBest(m, data, i, |data|, minSim, bi, bj)
    ensures ScannedBest(m, data, i + 1, 0, minSim, bi, bj)
  {
    forall i': nat, j': nat | ValidPair(m, data, i', j') && Before(i', j', i + 1, 0)
      ensures Before(i', j', i, |data|)
    {
    }
  }

  /** A row whose track is not eligible holds no valid pair. */
  lemma IneligibleRow(m: Metric, data: seq<nat>, i: nat, minSim: Option<real>, bi: nat, bj: nat)
    requires i < |data| && !m.eligible(data[i])
    requires ScannedBest(m, data, i, 0, minSim, bi, bj)
    ensures ScannedBest(m, data, i + 1, 0, minSim, bi, bj)
  {
    forall i': nat, j': nat | ValidPair(m, data, i', j') && Before(i', j', i + 1, 0)
      ensures Before(i', j', i, 0)
    {
    }
  }

  /** After the last row, the scan's state is the answer the seed search promises. */
  lemma ScanComplete(m: Metric, data: seq<nat>, minSim: Option<real>, bi: nat, bj: nat)
    requires ScannedBest(m, data, |data|, 0, minSim, bi, bj)
    ensures minSim.None? ==> NoValidPair(m, data)
    ensures minSim.Some? ==> IsFirstMinPair(m, data, bi, bj)
  {
    forall i': nat, j': nat | ValidPair(m, data, i', j')
      ensures Before(i', j', |data|, 0)
    {
    }
  }

  /** The extension `forEach`: append every track at the minimum similarity to the whole seed so far. */
  method ExtendPass(m: Metric, data: seq<nat>, pair: seq<nat>, minSim: Option<real>) returns (seed: seq<nat>)
    ensures seed == ExtendSeed(m, data, pair, minSim)
  {
    seed := pair;
    var k := 0;
    while k < |data|
      invariant 0 <= k <= |data|
      invariant ExtendSeed(m, data[k..], seed, minSim) == ExtendSeed(m, data, pair, minSim)
    {
      if forall s | s in seed :: minSim == Some(m.sim(data[k], s)) {
        seed := seed + [data[k]];
      }
      assert data[k..][1..] == data[k + 1..];
      k := k + 1;
    }
  }

  // ---------------------------------------------------------------------------------------------
  // sorted

  /**
   * `data.splice(data.findIndex(d => d === t), 1)`: removes the first occurrence of `t`. When `t` is
   * absent, `findIndex` gives -1 and `splice(-1, 1)` removes the LAST track (nothing from an empty array).
   */
  function RemoveTrack(pool: seq<nat>, t: nat): (r: seq<nat>)
    ensures |r| == if pool == [] then 0 else |pool| - 1
  {
    var k := IndexOf(pool, t);
    if k >= 0 then RemoveAt(pool, k)
    else if pool == [] then []
    else pool[..|pool| - 1]
  }

  /** The pool left after removing each seed member in turn. */
  function RemoveSeeds(pool: seq<nat>, seed: seq<nat>): seq<nat>
    decreases |seed|
  {
    if seed == [] then pool else RemoveTrack(RemoveSeeds(pool, seed[..|seed| - 1]), seed[|seed| - 1])
  }

  /** Neither track of the least similar pair is as similar to itself as to the other one. */
  ghost predicate PairSelfDistinct(m: Metric, data: seq<nat>) {
    forall i: nat, j: nat :: IsFirstMinPair(m, data, i, j) ==>
      m.sim(data[i], data[i]) != m.sim(data[i], data[j]) && m.sim(data[j], data[j]) != m.sim(data[i], data[j])
  }

  /**
   * `sorted(data, separate_artists)`: seed with the least similar tracks, remove them from the pool,
   * then insert pool tracks one at a time between the least similar neighbours. `rest` is what is
   * left in the caller's array, which the source empties with `splice`.
   */
  method Sorted(m: Metric, data: seq<nat>, separate: bool) returns (r: Outcome, rest: seq<nat>, ghost seed: seq<nat>)
    ensures IsSeedOf(m, data, seed)
    ensures r == GrowOrder(m, seed, RemoveSeeds(data, seed), separate)
    ensures r.Crash? <==> |seed| < 2 && RemoveSeeds(data, seed) != []
    ensures r.Crash? ==> rest == RemoveSeeds(data, seed)
    ensures r.Ok? ==> rest == []
    ensures r.Ok? ==> multiset(r.order) == multiset(seed) + multiset(RemoveSeeds(data, seed))
    ensures r.Ok? ==> forall t :: t in r.order ==> t in data
    ensures r.Ok? && RemoveSeeds(data, seed) == [] ==> r.order == seed
    ensures r.Ok? && seed != [] ==> r.order != [] && r.order[0] == seed[0] && r.order[|r.order| - 1] == seed[|seed| - 1]
    ensures r.Ok? && Distinct(data) && PairSelfDistinct(m, data) ==> multiset(r.order) == multiset(data)
  {
    var order := LeastSimilarTracks(m, data);
    seed := order;
    var pool := SpliceOutSeed(data, order);
    r := Grow(m, order, pool, separate);
    rest := if r.Ok? then [] else pool;
    if r.Ok? {
      OrderFromSeedAndPool(m, data, seed, r.order);
    }
  }

  /** `r` is what `sorted(data, separate_artists)` gives: the growth of the seed of `data` from the pool it leaves. */
  ghost predicate SortsTo(m: Metric, data: seq<nat>, separate: bool, r: Outcome) {
    exists seed :: IsSeedOf(m, data, seed) && r == GrowOrder(m, seed, RemoveSeeds(data, seed), separate)
  }

  /** `sorted` is a function of the tracks, the metric and `separate_artists`. */
  lemma SortsToUnique(m: Metric, data: seq<nat>, separate: bool, r1: Outcome, r2: Outcome)
    requires SortsTo(m, data, separate, r1) && SortsTo(m, data, separate, r2)
    ensures r1 == r2
  {
    var seed1 :| IsSeedOf(m, data, seed1) && r1 == GrowOrder(m, seed1, RemoveSeeds(data, seed1), separate);
    var seed2 :| IsSeedOf(m, data, seed2) && r2 == GrowOrder(m, seed2, RemoveSeeds(data, seed2), separate);
    SeedUnique(m, data, seed1, seed2);
  }

  /** The `forEach` that splices every seed member out of the caller's array. */
  method SpliceOutSeed(data: seq<nat>, seed: seq<nat>) returns (pool: seq<nat>)
    ensures pool == RemoveSeeds(data, seed)
  {
    pool := data;
    var k := 0;
    while k < |seed|
      invariant 0 <= k <= |seed|
      invariant pool == RemoveSeeds(data, seed[..k])
    {
      pool := RemoveTrack(pool, seed[k]);
      assert seed[..k + 1][..k] == seed[..k];
      k := k + 1;
    }
    assert seed[..|seed|] == seed;
  }

  /**
   * What the `while (data.length > 0)` loop makes of `order` and `pool`: while the pool is not empty,
   * take the first least similar adjacent pair `(k, k + 1)` and splice the median-similar pool track
   * in at `k + 1`; with fewer than two tracks in the order there is no pair, and the loop throws.
   */
  ghost function GrowOrder(m: Metric, order: seq<nat>, pool: seq<nat>, separate: bool): Outcome
    decreases |pool|
  {
    if pool == [] then Ok(order)
    else if |order| < 2 then Crash
    else
      var next := GrowNext(m, order, pool, separate);
      GrowOrder(m, next.0, next.1, separate)
  }

  /** One pass of the loop: the median-similar pool track spliced in between the least similar pair. */
  ghost function GrowNext(m: Metric, order: seq<nat>, pool: seq<nat>, separate: bool): (next: (seq<nat>, seq<nat>))
    requires |order| >= 2 && pool != []
    ensures |next.1| == |pool| - 1
  {
    var k := LeastPair(m, order);
    var at := MedianChoice(m, order[k], order[k + 1], pool, separate);
    (InsertAt(order, k + 1, pool[at]), RemoveAt(pool, at))
  }

  /**
   * The `while (data.length > 0)` loop: insert pool tracks one at a time between the least similar
   * neighbours of `seed`, until the pool is empty; it throws at once if the seed has fewer than two
   * tracks and the pool is not empty.
   */
  method Grow(m: Metric, seed: seq<nat>, pool0: seq<nat>, separate: bool) returns (r: Outcome)
    ensures r == GrowOrder(m, seed, pool0, separate)
    ensures r.Crash? <==> |seed| < 2 && pool0 != []
    ensures r.Ok? ==> multiset(r.order) == multiset(seed) + multiset(pool0)
    ensures r.Ok? && pool0 == [] ==> r.order == seed
    ensures r.Ok? && seed != [] ==> r.order != [] && r.order[0] == seed[0] && r.order[|r.order| - 1] == seed[|seed| - 1]
  {
    var order, pool := seed, pool0;
    while |pool| > 0
      invariant GrowOrder(m, order, pool, separate) == GrowOrder(m, seed, pool0, separate)
      decreases |pool|
    {
      var first := LeastSimilarConsecutive(m, order);
      if first.None? {
        r := Crash;
        break;
      }
      var at;
      order, pool, at := InsertBetween(m, order, first.value, pool, separate);
    }
    if |pool| == 0 {
      r := Ok(order);
    }
    GrowOrderKeeps(m, seed, pool0, separate);
  }

  /** One pass moves one track from the pool into the order, and keeps the first and last tracks. */
  lemma GrowNextKeeps(m: Metric, order: seq<nat>, pool: seq<nat>, separate: bool)
    requires |order| >= 2 && pool != []
    ensures multiset(GrowNext(m, order, pool, separate).0) + multiset(GrowNext(m, order, pool, separate).1)
              == multiset(order) + multiset(pool)
    ensures GrowNext(m, order, pool, separate).0[0] == order[0]
    ensures Last(GrowNext(m, order, pool, separate).0) == Last(order)
  {
    var k := LeastPair(m, order);
    var at := MedianChoice(m, order[k], order[k + 1], pool, separate);
    InsertMovesOne(order, k + 1, pool, at);
  }

  /**
   * What growing keeps: it throws exactly when the pool is not empty and there is no adjacent pair to
   * insert into; otherwise the order ends up with every track of the order and the pool, and its first
   * and last tracks stay where they were.
   */
  lemma {:induction false} GrowOrderKeeps(m: Metric, order: seq<nat>, pool: seq<nat>, separate: bool)
    ensures GrowOrder(m, order, pool, separate).Crash? <==> |order| < 2 && pool != []
    ensures GrowOrder(m, order, pool, separate).Ok? ==>
              multiset(GrowOrder(m, order, pool, separate).order) == multiset(order) + multiset(pool)
    ensures pool == [] ==> GrowOrder(m, order, pool, separate) == Ok(order)
    ensures GrowOrder(m, order, pool, separate).Ok? && order != [] ==>
              GrowOrder(m, order, pool, separate).order != []
              && GrowOrder(m, order, pool, separate).order[0] == order[0]
              && Last(GrowOrder(m, order, pool, separate).order) == Last(order)
    decreases |pool|
  {
    if pool != [] && |order| >= 2 {
      var next := GrowNext(m, order, pool, separate);
      GrowNextKeeps(m, order, pool, separate);
      GrowOrderKeeps(m, next.0, next.1, separate);
    }
  }

  /** The pass the loop makes, with the pair and the candidate it finds, is the one `GrowNext` names. */
  lemma GrowStep(m: Metric, order: seq<nat>, pool: seq<nat>, separate: bool, k: nat, at: nat)
    requires |pool| > 0 && IsLeastPair(m, order, k) && IsMedianChoice(m, order[k], order[k + 1], pool, separate, at)
    ensures GrowNext(m, order, pool, separate) == (InsertAt(order, k + 1, pool[at]), RemoveAt(pool, at))
  {
    LeastPairUnique(m, order, k);
    MedianChoiceUnique(m, order[k], order[k + 1], pool, separate, at);
  }

  /**
   * One pass of that loop once the least similar pair `(k, k + 1)` is known: the median-similar pool
   * track, at pool position `at`, is spliced out of the pool and in between the pair.
   */
  method InsertBetween(m: Metric, order: seq<nat>, k: nat, pool: seq<nat>, separate: bool)
    returns (order': seq<nat>, pool': seq<nat>, at: nat)
    requires IsLeastPair(m, order, k) && |pool| > 0
    ensures IsMedianChoice(m, order[k], order[k + 1], pool, separate, at)
    ensures (order', pool') == GrowNext(m, order, pool, separate)
    ensures order' == InsertAt(order, k + 1, pool[at]) && pool' == RemoveAt(pool, at)
    ensures multiset(order') + multiset(pool') == multiset(order) + multiset(pool)
    ensures |order'| == |order| + 1 && |pool'| == |pool| - 1
    ensures order'[0] == order[0] && order'[|order'| - 1] == order[|order| - 1]
  {
    var track1 := order[k];
    var track2 := order[k + 1];
    at := MedianSimilarTrack(m, track1, track2, pool, separate);
    var t := pool[at];
    InsertMovesOne(order, k + 1, pool, at);
    order' := InsertAt(order, k + 1, t);
    pool' := RemoveAt(pool, at);
    GrowStep(m, order, pool, separate, k, at);
  }

  /** One growth step moves a track from the pool into the order and loses nothing. */
  lemma InsertMovesOne(order: seq<nat>, k: nat, pool: seq<nat>, at: nat)
    requires 1 <= k < |order| && at < |pool|
    ensures multiset(InsertAt(order, k, pool[at])) + multiset(RemoveAt(pool, at)) == multiset(order) + multiset(pool)
    ensures InsertAt(order, k, pool[at])[0] == order[0]
    ensures InsertAt(order, k, pool[at])[|order|] == order[|order| - 1]
  {
    assert order == order[..k] + order[k..];
    RemoveAtMultiset(pool, at);
  }

  /** What the finished order holds, given the seed and the pool it started from. */
  lemma OrderFromSeedAndPool(m: Metric, data: seq<nat>, seed: seq<nat>, order: seq<nat>)
    requires IsSeedOf(m, data, seed)
    requires multiset(order) == multiset(seed) + multiset(RemoveSeeds(data, seed))
    ensures forall t :: t in order ==> t in data
    ensures Distinct(data) && PairSelfDistinct(m, data) ==> multiset(order) == multiset(data)
  {
    SeedWithinData(m, data, seed);
    RemovedWithinData(data, seed);
    forall t | t in order ensures t in data {
      assert t in multiset(order);
    }
    if Distinct(data) && PairSelfDistinct(m, data) {
      SeedAndPoolPartitionData(m, data, seed);
    }
  }

  // ---------------------------------------------------------------------------------------------
  // Properties of the seed

  lemma {:induction false} ExtendSeedWithin(m: Metric, data: seq<nat>, seed: seq<nat>, minSim: Option<real>)
    ensures forall t :: t in ExtendSeed(m, data, seed, minSim) ==> t in seed || t in data
    ensures |ExtendSeed(m, data, seed, minSim)| >= |seed|
    ensures ExtendSeed(m, data, seed, minSim)[..|seed|] == seed
    decreases |data|
  {
    if data != [] {
      var next := if AllAtMin(m, data[0], seed, minSim) then seed + [data[0]] else seed;
      ExtendSeedWithin(m, data[1..], next, minSim);
      var r := ExtendSeed(m, data, seed, minSim);
      assert r[..|next|] == next;
      assert r[..|seed|] == r[..|next|][..|seed|];
      forall t | t in r ensures t in seed || t in data {
        if t in data[1..] {
          var k :| 0 <= k < |data[1..]| && data[1..][k] == t;
          assert data[k + 1] == t;
        }
      }
    }
  }

  /** Every seed member is an input track. */
  lemma SeedWithinData(m: Metric, data: seq<nat>, seed: seq<nat>)
    requires IsSeedOf(m, data, seed)
    ensures forall t :: t in seed ==> t in data
  {
    if NoValidPair(m, data) {
      ExtendSeedWithin(m, data, [], None);
    } else {
      var i: nat, j: nat :| IsFirstMinPair(m, data, i, j)
                          && seed == ExtendSeed(m, data, [data[i], data[j]], Some(m.sim(data[i], data[j])));
      ExtendSeedWithin(m, data, [data[i], data[j]], Some(m.sim(data[i], data[j])));
    }
  }

  lemma RemoveTrackWithin(pool: seq<nat>, t: nat)
    ensures multiset(RemoveTrack(pool, t)) <= multiset(pool)
  {
    var k := IndexOf(pool, t);
    if k >= 0 {
      RemoveAtMultiset(pool, k);
    } else if pool != [] {
      assert pool == pool[..|pool| - 1] + [pool[|pool| - 1]];
    }
  }

  lemma {:induction false} RemovedWithinData(pool: seq<nat>, seed: seq<nat>)
    ensures multiset(RemoveSeeds(pool, seed)) <= multiset(pool)
    decreases |seed|
  {
    if seed != [] {
      RemovedWithinData(pool, seed[..|seed| - 1]);
      RemoveTrackWithin(RemoveSeeds(pool, seed[..|seed| - 1]), seed[|seed| - 1]);
    }
  }

  /** Once the minimum is `Infinity` and the seed is not empty, nothing more joins it. */
  lemma {:induction false} ExtendSeedStuck(m: Metric, data: seq<nat>, seed: seq<nat>)
    requires seed != []
    ensures ExtendSeed(m, data, seed, None) == seed
    decreases |data|
  {
    if data != [] {
      assert !AllAtMin(m, data[0], seed, None) by { assert seed[0] in seed; }
      ExtendSeedStuck(m, data[1..], seed);
    }
  }

  /** Without a comparable pair the seed is just the first track (or nothing for an empty list). */
  lemma NoPairSeed(m: Metric, data: seq<nat>, seed: seq<nat>)
    requires IsSeedOf(m, data, seed) && NoValidPair(m, data)
    ensures seed == if data == [] then [] else [data[0]]
  {
    if data != [] {
      assert AllAtMin(m, data[0], [], None);
      assert [] + [data[0]] == [data[0]];
      assert ExtendSeed(m, data, [], None) == ExtendSeed(m, data[1..], [data[0]], None);
      ExtendSeedStuck(m, data[1..], [data[0]]);
    }
  }

  /**
   * `sorted` throws exactly when at least two tracks are given but fewer than two of them can form a
   * compared pair (for genre sorting: fewer than two tracks with genres).
   */
  lemma CrashIffNoPair(m: Metric, data: seq<nat>, seed: seq<nat>)
    requires IsSeedOf(m, data, seed)
    ensures (|seed| < 2 && RemoveSeeds(data, seed) != []) <==> (|data| >= 2 && NoValidPair(m, data))
  {
    if NoValidPair(m, data) {
      NoPairSeed(m, data, seed);
      if data != [] {
        assert seed[..0] == [];
        assert IndexOf(data, data[0]) == 0;
      }
    } else {
      var i: nat, j: nat :| IsFirstMinPair(m, data, i, j)
                          && seed == ExtendSeed(m, data, [data[i], data[j]], Some(m.sim(data[i], data[j])));
      ExtendSeedWithin(m, data, [data[i], data[j]], Some(m.sim(data[i], data[j])));
    }
  }

  /** Only one pair is the first least similar one. */
  lemma FirstMinPairUnique(m: Metric, data: seq<nat>, i: nat, j: nat, i': nat, j': nat)
    requires IsFirstMinPair(m, data, i, j) && IsFirstMinPair(m, data, i', j')
    ensures i == i' && j == j'
  {
    if Before(i, j, i', j') {
      assert false;
    } else if Before(i', j', i, j) {
      assert false;
    }
  }

  /** `_getLeastSimilarTracks` is a function of its input: `IsSeedOf` determines the seed. */
  lemma SeedUnique(m: Metric, data: seq<nat>, seed1: seq<nat>, seed2: seq<nat>)
    requires IsSeedOf(m, data, seed1) && IsSeedOf(m, data, seed2)
    ensures seed1 == seed2
  {
    if !NoValidPair(m, data) {
      var i: nat, j: nat :| IsFirstMinPair(m, data, i, j)
                          && seed1 == ExtendSeed(m, data, [data[i], data[j]], Some(m.sim(data[i], data[j])));
      var i': nat, j': nat :| IsFirstMinPair(m, data, i', j')
                            && seed2 == ExtendSeed(m, data, [data[i'], data[j']], Some(m.sim(data[i'], data[j'])));
      FirstMinPairUnique(m, data, i, j, i', j');
    }
  }

  /**
   * A track can join the seed a second time only if its similarity to itself is the minimum: with
   * distinct input tracks and no such self-tie, the seed has no duplicates.
   */
  lemma {:induction false} ExtendSeedDistinct(m: Metric, data: seq<nat>, seed: seq<nat>, v: real)
    requires Distinct(seed) && Distinct(data)
    requires forall s :: s in seed && s in data ==> m.sim(s, s) != v
    ensures Distinct(ExtendSeed(m, data, seed, Some(v)))
    decreases |data|
  {
    if data != [] {
      var x := data[0];
      var next := if AllAtMin(m, x, seed, Some(v)) then seed + [x] else seed;
      if AllAtMin(m, x, seed, Some(v)) {
        assert x !in seed by {
          assert x in data;
        }
      }
      forall s | s in next && s in data[1..] ensures m.sim(s, s) != v {
        var k :| 0 <= k < |data[1..]| && data[1..][k] == s;
        assert data[k + 1] == s;
        assert s != x;
      }
      ExtendSeedDistinct(m, data[1..], next, v);
    }
  }

  /** Removing distinct seed members that all occur in the pool removes exactly them. */
  lemma {:induction false} RemoveDistinctSeeds(pool: seq<nat>, seed: seq<nat>)
    requires Distinct(seed)
    requires forall s :: s in seed ==> s in pool
    ensures multiset(seed) + multiset(RemoveSeeds(pool, seed)) == multiset(pool)
    decreases |seed|
  {
    if seed != [] {
      var init, last := seed[..|seed| - 1], seed[|seed| - 1];
      forall k | 0 <= k < |init| ensures init[k] in pool && init[k] != last {
        assert init[k] == seed[k];
      }
      assert Distinct(init) by {
        forall i, j | 0 <= i < j < |init| ensures init[i] != init[j] {
          assert init[i] == seed[i] && init[j] == seed[j];
        }
      }
      RemoveDistinctSeeds(pool, init);
      assert seed == init + [last];
      RemoveOneMoreSeed(pool, init, last);
    }
  }

  /** The step of `RemoveDistinctSeeds`: one more seed member, absent from the earlier ones. */
  lemma RemoveOneMoreSeed(pool: seq<nat>, init: seq<nat>, last: nat)
    requires multiset(init) + multiset(RemoveSeeds(pool, init)) == multiset(pool)
    requires forall k :: 0 <= k < |init| ==> init[k] != last
    requires last in pool
    ensures multiset(init + [last]) + multiset(RemoveSeeds(pool, init + [last])) == multiset(pool)
  {
    var prev := RemoveSeeds(pool, init);
    assert last !in init;
    assert multiset(init)[last] == 0;
    assert last in multiset(pool);
    assert last in multiset(prev);
    var k := IndexOf(prev, last);
    RemoveAtMultiset(prev, k);
    assert (init + [last])[..|init|] == init;
    calc {
      multiset(init + [last]) + multiset(RemoveSeeds(pool, init + [last]));
      { assert RemoveSeeds(pool, init + [last]) == RemoveAt(prev, k); }
      multiset(init) + multiset{last} + multiset(RemoveAt(prev, k));
      multiset(init) + multiset{last} + (multiset(prev) - multiset{last});
      multiset(init) + multiset(prev);
    }
  }

  /**
   * With distinct input tracks and no self-tie at the minimum, the seed and the pool left after
   * removing it together hold every input track exactly once.
   */
  lemma SeedAndPoolPartitionData(m: Metric, data: seq<nat>, seed: seq<nat>)
    requires IsSeedOf(m, data, seed) && Distinct(data) && PairSelfDistinct(m, data)
    ensures Distinct(seed)
    ensures multiset(seed) + multiset(RemoveSeeds(data, seed)) == multiset(data)
  {
    if NoValidPair(m, data) {
      NoPairSeed(m, data, seed);
    } else {
      var i: nat, j: nat :| IsFirstMinPair(m, data, i, j)
                          && seed == ExtendSeed(m, data, [data[i], data[j]], Some(m.sim(data[i], data[j])));
      ExtendSeedDistinct(m, data, [data[i], data[j]], m.sim(data[i], data[j]));
    }
    SeedWithinData(m, data, seed);
    RemoveDistinctSeeds(data, seed);
  }

  // ---------------------------------------------------------------------------------------------
  // Artist separation at work

  /**
   * Four tracks: 0 and 2 by artist `x`, 1 by `y`, 3 by `z`. Tracks 0 and 2 are the most similar,
   * and 0 and 1 the least.
   */
  function SeparationSim(a: nat, b: nat): real {
    var lo, hi := if a < b then a else b, if a < b then b else a;
    if lo == 0 && hi == 2 then 4.0
    else if (lo == 1 && hi == 2) || (lo == 0 && hi == 3) then 2.0
    else if hi == 3 then 1.0
    else 0.0
  }

  function SeparationMetric(x: string, y: string, z: string): Metric {
    Metric((a: nat, b: nat) => SeparationSim(a, b),
           (t: nat) => true,
           (t: nat) => if t == 0 || t == 2 then Some(x) else if t == 1 then Some(y) else Some(z))
  }

  /**
   * Growing the seed `[0, 1]` from the pool `[2, 3]`. Without separation, track 2 matches 0 and 1
   * best and goes in first, next to track 0 by the same artist. With separation it may not go there,
   * so track 3 goes in first and track 2 then lands between 3 and 1.
   */
  lemma SeparationDecides(x: string, y: string, z: string)
    requires x != y && x != z && y != z
    ensures GrowOrder(SeparationMetric(x, y, z), [0, 1], [2, 3], false) == Ok([0, 2, 3, 1])
    ensures GrowOrder(SeparationMetric(x, y, z), [0, 1], [2, 3], true) == Ok([0, 3, 2, 1])
  {
    GrowTogether(x, y, z);
    GrowSeparated(x, y, z);
  }

  /** Two passes with the pairs and candidates given empty a pool of two tracks. */
  lemma GrowTwoPasses(m: Metric, o0: seq<nat>, p0: seq<nat>, separate: bool, k0: nat, at0: nat,
                      o1: seq<nat>, p1: seq<nat>, k1: nat, at1: nat, o2: seq<nat>)
    requires |p0| == 2
    requires IsLeastPair(m, o0, k0) && IsMedianChoice(m, o0[k0], o0[k0 + 1], p0, separate, at0)
    requires o1 == InsertAt(o0, k0 + 1, p0[at0]) && p1 == RemoveAt(p0, at0)
    requires IsLeastPair(m, o1, k1) && IsMedianChoice(m, o1[k1], o1[k1 + 1], p1, separate, at1)
    requires o2 == InsertAt(o1, k1 + 1, p1[at1])
    ensures GrowOrder(m, o0, p0, separate) == Ok(o2)
  {
    var p2 := RemoveAt(p1, at1);
    assert p2 == [];
    calc {
      GrowOrder(m, o0, p0, separate);
      GrowOrder(m, GrowNext(m, o0, p0, separate).0, GrowNext(m, o0, p0, separate).1, separate);
      { GrowStep(m, o0, p0, separate, k0, at0); }
      GrowOrder(m, o1, p1, separate);
      GrowOrder(m, GrowNext(m, o1, p1, separate).0, GrowNext(m, o1, p1, separate).1, separate);
      { GrowStep(m, o1, p1, separate, k1, at1); }
      GrowOrder(m, o2, p2, separate);
    }
  }

  lemma GrowTogether(x: string, y: string, z: string)
    requires x != y && x != z && y != z
    ensures GrowOrder(SeparationMetric(x, y, z), [0, 1], [2, 3], false) == Ok([0, 2, 3, 1])
  {
    var m := SeparationMetric(x, y, z);
    TogetherChoices(x, y, z);
    assert InsertAt([0, 1], 1, 2) == [0, 2, 1] && RemoveAt([2, 3], 0) == [3];
    assert InsertAt([0, 2, 1], 2, 3) == [0, 2, 3, 1] && RemoveAt([3], 0) == [];
    GrowTwoPasses(m, [0, 1], [2, 3], false, 0, 0, [0, 2, 1], [3], 1, 0, [0, 2, 3, 1]);
  }

  /** Without separation: track 2 (pool position 0) goes between 0 and 1, then track 3 between 2 and 1. */
  lemma TogetherChoices(x: string, y: string, z: string)
    ensures IsLeastPair(SeparationMetric(x, y, z), [0, 1], 0)
    ensures IsMedianChoice(SeparationMetric(x, y, z), 0, 1, [2, 3], false, 0)
    ensures IsLeastPair(SeparationMetric(x, y, z), [0, 2, 1], 1)
    ensures IsMedianChoice(SeparationMetric(x, y, z), 2, 1, [3], false, 0)
  {
    var m := SeparationMetric(x, y, z);
    assert Avg(m, 0, 1, 2) == 3.0 && Avg(m, 0, 1, 3) == 1.5;
    assert !NoCandidate(m, 0, 1, [2, 3], false) by { assert [2, 3][0] == 2; }
    assert PairSim(m, [0, 2, 1], 0) == 4.0 && PairSim(m, [0, 2, 1], 1) == 2.0;
    assert Avg(m, 2, 1, 3) == 1.0;
    assert !NoCandidate(m, 2, 1, [3], false) by { assert [3][0] == 3; }
  }

  lemma GrowSeparated(x: string, y: string, z: string)
    requires x != y && x != z && y != z
    ensures GrowOrder(SeparationMetric(x, y, z), [0, 1], [2, 3], true) == Ok([0, 3, 2, 1])
  {
    var m := SeparationMetric(x, y, z);
    SeparatedChoices(x, y, z);
    assert InsertAt([0, 1], 1, 3) == [0, 3, 1] && RemoveAt([2, 3], 1) == [2];
    assert InsertAt([0, 3, 1], 2, 2) == [0, 3, 2, 1] && RemoveAt([2], 0) == [];
    GrowTwoPasses(m, [0, 1], [2, 3], true, 0, 1, [0, 3, 1], [2], 1, 0, [0, 3, 2, 1]);
  }

  /** With separation: track 3 (pool position 1) goes between 0 and 1, then track 2 between 3 and 1. */
  lemma SeparatedChoices(x: string, y: string, z: string)
    requires x != y && x != z && y != z
    ensures IsLeastPair(SeparationMetric(x, y, z), [0, 1], 0)
    ensures IsMedianChoice(SeparationMetric(x, y, z), 0, 1, [2, 3], true, 1)
    ensures IsLeastPair(SeparationMetric(x, y, z), [0, 3, 1], 1)
    ensures IsMedianChoice(SeparationMetric(x, y, z), 3, 1, [2], true, 0)
  {
    var m := SeparationMetric(x, y, z);
    assert !Allowed(m, 0, 1, 2, true) && Allowed(m, 0, 1, 3, true);
    assert Avg(m, 0, 1, 3) == 1.5;
    assert !NoCandidate(m, 0, 1, [2, 3], true) by { assert [2, 3][1] == 3; }
    assert PairSim(m, [0, 3, 1], 0) == 2.0 && PairSim(m, [0, 3, 1], 1) == 1.0;
    assert Allowed(m, 3, 1, 2, true) && Avg(m, 3, 1, 2) == 1.5;
    assert !NoCandidate(m, 3, 1, [2], true) by { assert [2][0] == 2; }
  }
}

/**
 * classes/GenreSort.js: the greedy sequencer of module Greedy with the number of shared hidden
 * genres as similarity, and tracks without genres left out of the seed-pair search.
 */
module GenreSort {
  import opened Wrappers
  import opened Seqs
  import opened Tracks
  import Greedy

  /** `track1.genresHidden.filter(g => track2.genresHidden.includes(g))`. */
  function SharedGenres(a: seq<string>, b: seq<string>): (r: seq<string>)
    ensures |r| <= |a|
    ensures forall g :: g in r <==> g in a && g in b
  {
    if a == [] then []
    else SharedGenres(a[..|a| - 1], b) + (if a[|a| - 1] in b then [a[|a| - 1]] else [])
  }

  /** `_getNumSharedGenres`: between 0 and the size of the first list, 0 exactly when nothing is shared. */
  function NumSharedGenres(a: seq<string>, b: seq<string>): (r: nat)
    ensures r <= |a|
    ensures r == 0 <==> forall g :: g in a ==> g !in b
  {
    var s := SharedGenres(a, b);
    assert s == [] <== forall g :: g in a ==> g !in b by {
      if s != [] { assert s[0] in s; }
    }
    |s|
  }

  /** A track shares every one of its hidden genres with itself. */
  lemma {:induction false} NumSharedWithSelf(a: seq<string>)
    ensures NumSharedGenres(a, a) == |a|
  {
    SharedWithSuperset(a, a);
  }

  lemma {:induction false} SharedWithSuperset(a: seq<string>, b: seq<string>)
    requires forall k :: 0 <= k < |a| ==> a[k] in b
    ensures SharedGenres(a, b) == a
    decreases |a|
  {
    if a != [] {
      var init, last := a[..|a| - 1], a[|a| - 1];
      forall k | 0 <= k < |init| ensures init[k] in b {
        assert init[k] == a[k];
      }
      calc {
        SharedGenres(a, b);
        { assert a[|a| - 1] in b; }
        SharedGenres(init, b) + [last];
        { SharedWithSuperset(init, b); }
        init + [last];
        { LastSplit(a); }
        a;
      }
    }
  }

  lemma LastSplit<T>(a: seq<T>)
    requires a != []
    ensures a[..|a| - 1] + [a[|a| - 1]] == a
  {
  }

  lemma {:induction false} SharedDistinct(a: seq<string>, b: seq<string>)
    requires Distinct(a)
    ensures Distinct(SharedGenres(a, b))
    decreases |a|
  {
    if a != [] {
      SharedDistinct(a[..|a| - 1], b);
      assert a[|a| - 1] !in a[..|a| - 1];
    }
  }

  lemma {:induction false} DistinctCardinality(s: seq<string>)
    requires Distinct(s)
    ensures |set x | x in s| == |s|
    decreases |s|
  {
    if s != [] {
      var init := s[..|s| - 1];
      DistinctCardinality(init);
      assert s == init + [s[|s| - 1]];
      assert (set x | x in s) == (set x | x in init) + {s[|s| - 1]};
    }
  }

  /** Between lists without duplicates (as `genresHidden` always is) the count is symmetric. */
  lemma NumSharedSymmetric(a: seq<string>, b: seq<string>)
    requires Distinct(a) && Distinct(b)
    ensures NumSharedGenres(a, b) == NumSharedGenres(b, a)
  {
    SharedDistinct(a, b);
    SharedDistinct(b, a);
    DistinctCardinality(SharedGenres(a, b));
    DistinctCardinality(SharedGenres(b, a));
    assert (set x | x in SharedGenres(a, b)) == (set x | x in SharedGenres(b, a));
  }

  // ---------------------------------------------------------------------------------------------
  // The track attributes the genre sort reads

  function Genres(tracks: seq<Snapshot>, t: nat): seq<string> {
    if t < |tracks| && tracks[t].genres.Some? then tracks[t].genres.value else []
  }

  function Hidden(tracks: seq<Snapshot>, t: nat): seq<string> {
    if t < |tracks| && tracks[t].genresHidden.Some? then tracks[t].genresHidden.value else []
  }

  /** `track.genres.length !== 0`. */
  predicate Tagged(tracks: seq<Snapshot>, t: nat) {
    |Genres(tracks, t)| > 0
  }

  /** Every track to sort exists and has had its genres retrieved (both fields are read). */
  predicate Enriched(tracks: seq<Snapshot>, data: seq<nat>) {
    forall t :: t in data ==> t < |tracks| && tracks[t].genres.Some? && tracks[t].genresHidden.Some?
  }

  /** `genresHidden` is the expansion of `genres`, as `Track.ApplyGenres` leaves it. */
  predicate HiddenIsExpansion(tracks: seq<Snapshot>, data: seq<nat>) {
    forall t :: t in data ==> Hidden(tracks, t) == ExpandGenres(Genres(tracks, t))
  }

  function Metric(tracks: seq<Snapshot>): Greedy.Metric {
    Greedy.Metric(
      (t1: nat, t2: nat) => NumSharedGenres(Hidden(tracks, t1), Hidden(tracks, t2)) as real,
      (t: nat) => Tagged(tracks, t),
      (t: nat) => if t < |tracks| then PrimaryArtist(tracks[t].artistIds) else None)
  }

  /** At most one track of `data` (possibly listed several times) has genres. */
  predicate AtMostOneTagged(tracks: seq<Snapshot>, data: seq<nat>) {
    forall i, j :: 0 <= i < |data| && 0 <= j < |data| && Tagged(tracks, data[i]) && Tagged(tracks, data[j]) ==> data[i] == data[j]
  }

  /** Two different tracks with genres share none of them. */
  predicate SomeDisjointPair(tracks: seq<Snapshot>, data: seq<nat>) {
    exists i, j :: 0 <= i < |data| && 0 <= j < |data| && data[i] != data[j] && Tagged(tracks, data[i]) && Tagged(tracks, data[j])
                && NumSharedGenres(Hidden(tracks, data[i]), Hidden(tracks, data[j])) == 0
  }

  /**
   * `sorted(data, separate_artists)`. It throws exactly when there are two or more tracks but fewer than two
   * different tracks with genres; `rest` is then what the splices left in the caller's array. When
   * two different tracks share no genre and the tracks are all different, the result is a
   * permutation; otherwise a repeated seed member can make it drop tracks (see `DuplicateSeedExample`).
   */
  method Sorted(tracks: seq<Snapshot>, data: seq<nat>, separate: bool) returns (r: Greedy.Outcome, rest: seq<nat>, ghost seed: seq<nat>)
    requires Enriched(tracks, data)
    ensures Greedy.IsSeedOf(Metric(tracks), data, seed)
    ensures Greedy.SortsTo(Metric(tracks), data, separate, r)
    ensures r.Crash? <==> |data| >= 2 && AtMostOneTagged(tracks, data)
    ensures r.Crash? ==> seed == [data[0]] && rest == Greedy.RemoveSeeds(data, seed)
    ensures r.Ok? ==> rest == [] && forall t :: t in r.order ==> t in data
    ensures r.Ok? && Greedy.RemoveSeeds(data, seed) == [] ==> r.order == seed
    ensures Distinct(data) && HiddenIsExpansion(tracks, data) && SomeDisjointPair(tracks, data) ==>
              r.Ok? && multiset(r.order) == multiset(data)
  {
    var m := Metric(tracks);
    r, rest, seed := Greedy.Sorted(m, data, separate);
    Greedy.CrashIffNoPair(m, data, seed);
    NoValidPairIffAtMostOneTagged(tracks, data);
    if r.Crash? {
      Greedy.NoPairSeed(m, data, seed);
    }
    if Distinct(data) && HiddenIsExpansion(tracks, data) && SomeDisjointPair(tracks, data) {
      DisjointPairSelfDistinct(tracks, data);
    }
  }

  /** The seed-pair search finds no pair exactly when at most one track has genres. */
  lemma NoValidPairIffAtMostOneTagged(tracks: seq<Snapshot>, data: seq<nat>)
    ensures Greedy.NoValidPair(Metric(tracks), data) <==> AtMostOneTagged(tracks, data)
  {
    var m := Metric(tracks);
    if !AtMostOneTagged(tracks, data) {
      var i, j :| 0 <= i < |data| && 0 <= j < |data| && Tagged(tracks, data[i]) && Tagged(tracks, data[j]) && data[i] != data[j];
      assert Greedy.ValidPair(m, data, i, j);
    }
  }

  /**
   * With two different tracks sharing no genre, the least similar pair shares none, while each of its
   * tracks shares all its (non-empty) hidden genres with itself, so the seed holds no track twice.
   */
  lemma DisjointPairSelfDistinct(tracks: seq<Snapshot>, data: seq<nat>)
    requires HiddenIsExpansion(tracks, data) && SomeDisjointPair(tracks, data)
    ensures !Greedy.NoValidPair(Metric(tracks), data)
    ensures Greedy.PairSelfDistinct(Metric(tracks), data)
  {
    var m := Metric(tracks);
    var i, j :| 0 <= i < |data| && 0 <= j < |data| && data[i] != data[j] && Tagged(tracks, data[i]) && Tagged(tracks, data[j])
                && NumSharedGenres(Hidden(tracks, data[i]), Hidden(tracks, data[j])) == 0;
    assert Greedy.ValidPair(m, data, i, j);
    forall i0: nat, j0: nat | Greedy.IsFirstMinPair(m, data, i0, j0)
      ensures m.sim(data[i0], data[i0]) != m.sim(data[i0], data[j0]) && m.sim(data[j0], data[j0]) != m.sim(data[i0], data[j0])
    {
      MinPairSelfDistinct(tracks, data, i, j, i0, j0);
    }
  }

  lemma MinPairSelfDistinct(tracks: seq<Snapshot>, data: seq<nat>, i: nat, j: nat, i0: nat, j0: nat)
    requires HiddenIsExpansion(tracks, data)
    requires Greedy.ValidPair(Metric(tracks), data, i, j) && Metric(tracks).sim(data[i], data[j]) == 0.0
    requires Greedy.IsFirstMinPair(Metric(tracks), data, i0, j0)
    ensures Metric(tracks).sim(data[i0], data[i0]) != Metric(tracks).sim(data[i0], data[j0])
    ensures Metric(tracks).sim(data[j0], data[j0]) != Metric(tracks).sim(data[i0], data[j0])
  {
    var m := Metric(tracks);
    assert m.sim(data[i0], data[j0]) == 0.0;
    HiddenNonEmpty(tracks, data, data[i0]);
    HiddenNonEmpty(tracks, data, data[j0]);
    NumSharedWithSelf(Hidden(tracks, data[i0]));
    NumSharedWithSelf(Hidden(tracks, data[j0]));
  }

  lemma HiddenNonEmpty(tracks: seq<Snapshot>, data: seq<nat>, t: nat)
    requires HiddenIsExpansion(tracks, data) && t in data && Tagged(tracks, t)
    ensures |Hidden(tracks, t)| > 0
  {
    var g := Genres(tracks, t);
    ExpandGenresContents(g);
    assert g[0] in ExpandGenres(g);
  }

  // ---------------------------------------------------------------------------------------------
  // The repeated seed member

  /** Two tracks tagged only with the genre `g` (say "rock") and one track without genres. */
  function TwoTaggedOneUntagged(g: string): seq<Snapshot> {
    [Snapshot([], Some([g]), Some([g]), None, None),
     Snapshot([], Some([g]), Some([g]), None, None),
     Snapshot([], Some([]), Some([]), None, None)]
  }

  lemma TwoTaggedOneUntaggedIsExpanded(g: string)
    requires ' ' !in g
    ensures HiddenIsExpansion(TwoTaggedOneUntagged(g), [0, 1, 2])
  {
    var tracks := TwoTaggedOneUntagged(g);
    forall t | t in [0, 1, 2] ensures Hidden(tracks, t) == ExpandGenres(Genres(tracks, t)) {
      if t == 2 {
        assert Genres(tracks, t) == [] && Hidden(tracks, t) == [];
        assert ExpandGenres([]) == [];
      } else {
        assert Genres(tracks, t) == [g] && Hidden(tracks, t) == [g];
        OneWordGenre(g);
      }
    }
  }

  lemma TwoTaggedOneUntaggedShape(g: string)
    ensures Enriched(TwoTaggedOneUntagged(g), [0, 1, 2])
    ensures !AtMostOneTagged(TwoTaggedOneUntagged(g), [0, 1, 2])
  {
    var tracks := TwoTaggedOneUntagged(g);
    var data: seq<nat> := [0, 1, 2];
    assert Tagged(tracks, data[0]) && Tagged(tracks, data[1]) && data[0] != data[1];
  }

  /**
   * Both tagged tracks share their one genre with each other and with themselves, so each is appended
   * to the seed `[0, 1]` again: the seed is `[0, 1, 0, 1]`. Removing it from `[0, 1, 2]` takes 0 and 1,
   * then `findIndex` finds nothing twice and `splice(-1, 1)` drops track 2 and then nothing.
   */
  lemma DuplicateSeed(g: string)
    ensures Greedy.IsSeedOf(Metric(TwoTaggedOneUntagged(g)), [0, 1, 2], [0, 1, 0, 1])
    ensures Greedy.RemoveSeeds([0, 1, 2], [0, 1, 0, 1]) == []
  {
    TaggedPairIsFirstMin(g);
    TaggedSeedExtends(g);
    assert [0, 1, 0, 1][..3] == [0, 1, 0] && [0, 1, 0][..2] == [0, 1] && [0, 1][..1] == [0] && [0][..0] == [];
  }

  lemma TaggedSims(g: string)
    ensures forall t1: nat, t2: nat :: t1 <= 1 && t2 <= 1 ==> Metric(TwoTaggedOneUntagged(g)).sim(t1, t2) == 1.0
    ensures forall t: nat :: t <= 1 ==> Metric(TwoTaggedOneUntagged(g)).sim(2, t) == 0.0
  {
    NumSharedWithSelf([g]);
    assert NumSharedGenres([], [g]) == 0;
  }

  lemma TaggedPairIsFirstMin(g: string)
    ensures Greedy.IsFirstMinPair(Metric(TwoTaggedOneUntagged(g)), [0, 1, 2], 0, 1)
  {
    var m := Metric(TwoTaggedOneUntagged(g));
    var data: seq<nat> := [0, 1, 2];
    TaggedSims(g);
    forall i': nat, j': nat | Greedy.ValidPair(m, data, i', j')
      ensures m.sim(data[i'], data[j']) == 1.0 && i' <= 1 && j' <= 1
    {
    }
    assert Greedy.ValidPair(m, data, 0, 1);
  }

  lemma TaggedSeedExtends(g: string)
    ensures Greedy.ExtendSeed(Metric(TwoTaggedOneUntagged(g)), [0, 1, 2], [0, 1], Some(Metric(TwoTaggedOneUntagged(g)).sim(0, 1))) == [0, 1, 0, 1]
  {
    TaggedSims(g);
    ExtendsWhenPairSimilar(Metric(TwoTaggedOneUntagged(g)));
  }

  /** The extension pass over `[0, 1, 2]` from the seed `[0, 1]`, for any similarity with these values. */
  lemma ExtendsWhenPairSimilar(m: Greedy.Metric)
    requires forall t1: nat, t2: nat :: t1 <= 1 && t2 <= 1 ==> m.sim(t1, t2) == 1.0
    requires m.sim(2, 0) == 0.0
    ensures Greedy.ExtendSeed(m, [0, 1, 2], [0, 1], Some(m.sim(0, 1))) == [0, 1, 0, 1]
  {
    var one := Some(1.0);
    assert Greedy.AllAtMin(m, 0, [0, 1], one);
    assert Greedy.AllAtMin(m, 1, [0, 1, 0], one);
    assert !Greedy.AllAtMin(m, 2, [0, 1, 0, 1], one) by {
      assert 0 in [0, 1, 0, 1];
    }
    calc {
      Greedy.ExtendSeed(m, [0, 1, 2], [0, 1], one);
      { assert [0, 1, 2][1..] == [1, 2]; }
      Greedy.ExtendSeed(m, [1, 2], [0, 1, 0], one);
      { assert [1, 2][1..] == [2]; }
      Greedy.ExtendSeed(m, [2], [0, 1, 0, 1], one);
      { assert [2][1..] == []; }
      Greedy.ExtendSeed(m, [], [0, 1, 0, 1], one);
    }
  }

  /** `sorted` on the two tagged tracks and the untagged one returns `[0, 1, 0, 1]`: track 2 is lost. */
  method DuplicateSeedExample(g: string) returns (r: Greedy.Outcome)
    ensures r == Greedy.Ok([0, 1, 0, 1])
  {
    var tracks := TwoTaggedOneUntagged(g);
    var rest;
    ghost var seed;
    TwoTaggedOneUntaggedShape(g);
    r, rest, seed := Sorted(tracks, [0, 1, 2], false);
    DuplicateSeed(g);
    Greedy.SeedUnique(Metric(tracks), [0, 1, 2], seed, [0, 1, 0, 1]);
  }
}

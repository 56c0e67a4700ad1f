/**
 * src/classes/MoodSort.js and classes/MoodSort.js (the same pipeline): a stable sort by valence, an
 * interleave by position modulo the number of 30-track groups, chunks of 30 sorted by valence in
 * alternating directions, greedy valence bands, and each band sorted by energy in alternating
 * directions. Valence and energy are exact reals.
 */
module MoodSort {
  import opened Wrappers
  import opened Seqs
  import opened Tracks

  /** The widest valence spread a band may have above its first track. */
  const BandWidth: real := 0.1
  /** The most tracks a chunk holds. */
  const ChunkSize: nat := 30

  function Valence(tracks: seq<Snapshot>, t: nat): real {
    if t < |tracks| && tracks[t].audioFeatures.Some? then tracks[t].audioFeatures.value.valence else 0.0
  }

  function Energy(tracks: seq<Snapshot>, t: nat): real {
    if t < |tracks| && tracks[t].audioFeatures.Some? then tracks[t].audioFeatures.value.energy else 0.0
  }

  /** `track.artistIds[0]`. */
  function Artist(tracks: seq<Snapshot>, t: nat): Option<string> {
    if t < |tracks| then PrimaryArtist(tracks[t].artistIds) else None
  }

  function ValenceKey(tracks: seq<Snapshot>): nat -> real {
    (t: nat) => Valence(tracks, t)
  }

  function EnergyKey(tracks: seq<Snapshot>): nat -> real {
    (t: nat) => Energy(tracks, t)
  }

  /** The comparator `(a, b) => key(b) - key(a)` is the ascending sort on the negated key. */
  function Descending(key: nat -> real): nat -> real {
    (t: nat) => -key(t)
  }

  /** Group `k` is sorted ascending when `k` is even and descending when it is odd. */
  function Direction(key: nat -> real, k: nat): nat -> real {
    if k % 2 == 0 then key else Descending(key)
  }

  /** Every track to sort exists and has its audio features (both are read). */
  predicate Enriched(tracks: seq<Snapshot>, data: seq<nat>) {
    forall t :: t in data ==> t < |tracks| && tracks[t].audioFeatures.Some?
  }

  // ---------------------------------------------------------------------------------------------
  // Interleave

  /** `Math.round(n / 30)`: the nearest integer, halves rounded up. */
  function NumGroups(n: nat): (g: nat)
    ensures (g as real) * 30.0 <= n as real + 15.0 < (g as real) * 30.0 + 30.0
  {
    (n + 15) / 30
  }

  /**
   * The interleave key `data.indexOf(t) % numGroups`, applied to members of `s` only. With no groups
   * (`n < 15`) it is `NaN`, the comparator returns `NaN`, and ECMA-262 (section 23.1.3.30.2,
   * CompareArrayElements) counts that as 0: every key is equal.
   */
  function InterleaveKey(s: seq<nat>): nat -> real {
    var g := NumGroups(|s|);
    (t: nat) => if g == 0 then 0.0 else (IndexOf(s, t) % g) as real
  }

  function Interleave(s: seq<nat>): seq<nat> {
    SortBy(s, InterleaveKey(s))
  }

  /** Under 45 tracks there is at most one group: every key is equal and the order stays. */
  lemma InterleaveShortIsIdentity(s: seq<nat>)
    requires |s| < 45
    ensures Interleave(s) == s
  {
    assert NumGroups(|s|) <= 1;
    SortByConstantKey(s, InterleaveKey(s), 0.0);
  }

  /**
   * The interleave orders the tracks by their position modulo the number of groups, and the tracks
   * of one residue keep their relative order (the sort is stable).
   */
  lemma InterleaveOrder(s: seq<nat>, v: real)
    ensures multiset(Interleave(s)) == multiset(s)
    ensures WithKey(Interleave(s), InterleaveKey(s), v) == WithKey(s, InterleaveKey(s), v)
    ensures SortedBy(Interleave(s), InterleaveKey(s))
  {
    SortByStable(s, InterleaveKey(s), v);
    SortBySorted(s, InterleaveKey(s));
  }

  // ---------------------------------------------------------------------------------------------
  // Chunks of 30

  function Min(a: nat, b: nat): nat {
    if a < b then a else b
  }

  /** The number of chunks: one (empty) chunk for no tracks. */
  function NumChunks(n: nat): nat {
    if n == 0 then 1 else (n + ChunkSize - 1) / ChunkSize
  }

  lemma NumChunksBound(n: nat, k: nat)
    requires k < NumChunks(n)
    ensures ChunkSize * k <= n
  {
  }

  /** Chunk `k` is the run of tracks from position `30k`, of length 30 or whatever is left. */
  function Chunks(s: seq<nat>): (r: seq<seq<nat>>)
    ensures |r| == NumChunks(|s|)
  {
    seq(NumChunks(|s|), k requires 0 <= k < NumChunks(|s|) =>
      NumChunksBound(|s|, k);
      s[ChunkSize * k .. Min(ChunkSize * k + ChunkSize, |s|)])
  }

  /** Appending a track either extends the last chunk or, when it is full, opens a new one. */
  lemma ChunksPush(s: seq<nat>, x: nat)
    ensures var c := Chunks(s);
            Chunks(s + [x]) == if |c[|c| - 1]| < ChunkSize then c[..|c| - 1] + [c[|c| - 1] + [x]] else c + [[x]]
  {
    var c := Chunks(s);
    var n := |s|;
    if n == 0 {
      ChunksPushFirst(s, x);
      assert c[..|c| - 1] == [] && c[|c| - 1] + [x] == [x];
    } else if n % ChunkSize != 0 {
      ChunksPushExtend(s, x);
    } else {
      ChunksPushOpen(s, x);
    }
  }

  lemma ChunksPushFirst(s: seq<nat>, x: nat)
    requires s == []
    ensures Chunks(s) == [[]] && Chunks(s + [x]) == [[x]]
  {
    var c, c' := Chunks(s), Chunks(s + [x]);
    assert NumChunks(1) == 1 && NumChunks(0) == 1;
    assert s + [x] == [x];
    assert c'[0] == [x][0..1] == [x];
    assert c[0] == s[0..0] == [];
  }

  lemma ChunksPushExtend(s: seq<nat>, x: nat)
    requires |s| > 0 && |s| % ChunkSize != 0
    ensures var c := Chunks(s);
            |c[|c| - 1]| < ChunkSize && Chunks(s + [x]) == c[..|c| - 1] + [c[|c| - 1] + [x]]
  {
    var c, c' := Chunks(s), Chunks(s + [x]);
    var n := |s|;
    assert NumChunks(n + 1) == NumChunks(n);
    var last := c[|c| - 1];
    var e := c[..|c| - 1] + [last + [x]];
    forall k | 0 <= k < |c'| ensures c'[k] == e[k] {
      if k < |c| - 1 {
        assert c'[k] == (s + [x])[ChunkSize * k .. ChunkSize * k + ChunkSize];
        assert (s + [x])[ChunkSize * k .. ChunkSize * k + ChunkSize] == s[ChunkSize * k .. ChunkSize * k + ChunkSize];
      } else {
        assert c'[k] == (s + [x])[ChunkSize * k .. n + 1];
        assert (s + [x])[ChunkSize * k .. n + 1] == s[ChunkSize * k .. n] + [x];
      }
    }
  }

  lemma ChunksPushOpen(s: seq<nat>, x: nat)
    requires |s| > 0 && |s| % ChunkSize == 0
    ensures var c := Chunks(s);
            |c[|c| - 1]| == ChunkSize && Chunks(s + [x]) == c + [[x]]
  {
    var c, c' := Chunks(s), Chunks(s + [x]);
    var n := |s|;
    assert NumChunks(n + 1) == NumChunks(n) + 1;
    var e := c + [[x]];
    forall k | 0 <= k < |c'| ensures c'[k] == e[k] {
      if k < |c| {
        assert (s + [x])[ChunkSize * k .. ChunkSize * k + ChunkSize] == s[ChunkSize * k .. ChunkSize * k + ChunkSize];
      } else {
        assert c'[k] == (s + [x])[n .. n + 1];
      }
    }
  }

  /** The `forEach` that pushes each track into the last group, or into a new one when it is full. */
  method Chunk(data: seq<nat>) returns (groups: seq<seq<nat>>)
    ensures groups == Chunks(data)
  {
    groups := [[]];
    assert Chunks(data[..0]) == [[]];
    var k := 0;
    while k < |data|
      invariant 0 <= k <= |data|
      invariant groups == Chunks(data[..k])
    {
      groups := PushToChunk(groups, data[k]);
      ChunksPush(data[..k], data[k]);
      assert data[..k + 1] == data[..k] + [data[k]];
      k := k + 1;
    }
    assert data[..k] == data;
  }

  /** The body of that `forEach`. */
  method PushToChunk(groups: seq<seq<nat>>, t: nat) returns (groups': seq<seq<nat>>)
    requires groups != []
    ensures groups' == if |groups[|groups| - 1]| < ChunkSize then groups[..|groups| - 1] + [groups[|groups| - 1] + [t]] else groups + [[t]]
  {
    var lastGroup := groups[|groups| - 1];
    if |lastGroup| < ChunkSize {
      groups' := groups[..|groups| - 1] + [lastGroup + [t]];
    } else {
      groups' := groups + [[t]];
    }
  }

  /** Chunks are consecutive runs that together give back the input. */
  lemma {:induction false} ChunksFlatten(s: seq<nat>)
    ensures Flatten(Chunks(s)) == s
    decreases |s|
  {
    if s == [] {
      assert Chunks(s) == [[]] by {
        assert Chunks(s)[0] == [];
      }
    } else {
      var init, x := s[..|s| - 1], s[|s| - 1];
      var c := Chunks(init);
      ChunksPush(init, x);
      calc {
        Flatten(Chunks(s));
        { assert s == init + [x]; }
        Flatten(Chunks(init + [x]));
        { if |c[|c| - 1]| < ChunkSize { FlattenPushLast(c, x); } else { FlattenAppend(c, [x]); } }
        Flatten(c) + [x];
        { ChunksFlatten(init); }
        init + [x];
        s;
      }
    }
  }

  /**
   * All chunks hold 30 tracks except the last, which holds between 1 and 30; no tracks give one
   * empty chunk.
   */
  lemma ChunkSizes(s: seq<nat>)
    ensures forall k :: 0 <= k < |Chunks(s)| - 1 ==> |Chunks(s)[k]| == ChunkSize
    ensures s != [] ==> 0 < |Chunks(s)[|Chunks(s)| - 1]| <= ChunkSize
    ensures s == [] ==> Chunks(s) == [[]]
  {
    if s == [] {
      assert Chunks(s)[0] == [];
    }
  }

  // ---------------------------------------------------------------------------------------------
  // Sorting each group in alternating directions

  /** Group `k` stably sorted by `key`, ascending when `k` is even and descending when it is odd. */
  function ZigZag(groups: seq<seq<nat>>, key: nat -> real): (r: seq<seq<nat>>)
    ensures |r| == |groups|
  {
    seq(|groups|, k requires 0 <= k < |groups| => SortBy(groups[k], Direction(key, k)))
  }

  /** `groups.forEach((group, k) => group.sort(...))`. */
  method SortGroups(groups: seq<seq<nat>>, key: nat -> real) returns (r: seq<seq<nat>>)
    ensures r == ZigZag(groups, key)
  {
    r := groups;
    for k := 0 to |r|
      invariant |r| == |groups|
      invariant forall j :: 0 <= j < k ==> r[j] == SortBy(groups[j], Direction(key, j))
      invariant forall j :: k <= j < |r| ==> r[j] == groups[j]
    {
      r := r[k := SortBy(r[k], Direction(key, k))];
    }
  }

  /**
   * Each group keeps its tracks, is ordered by the key ascending (even groups) or descending (odd
   * groups), and keeps the order of tracks with equal keys; so the flattening is a permutation.
   */
  lemma ZigZagSorts(groups: seq<seq<nat>>, key: nat -> real)
    ensures forall k :: 0 <= k < |groups| ==> multiset(ZigZag(groups, key)[k]) == multiset(groups[k])
    ensures forall k, i, j :: 0 <= k < |groups| && k % 2 == 0 && 0 <= i < j < |groups[k]| ==>
              key(ZigZag(groups, key)[k][i]) <= key(ZigZag(groups, key)[k][j])
    ensures forall k, i, j :: 0 <= k < |groups| && k % 2 == 1 && 0 <= i < j < |groups[k]| ==>
              key(ZigZag(groups, key)[k][i]) >= key(ZigZag(groups, key)[k][j])
    ensures forall k, v :: 0 <= k < |groups| ==>
              WithKey(ZigZag(groups, key)[k], Direction(key, k), v) == WithKey(groups[k], Direction(key, k), v)
    ensures multiset(Flatten(ZigZag(groups, key))) == multiset(Flatten(groups))
  {
    var r := ZigZag(groups, key);
    forall k | 0 <= k < |groups| ensures SortedBy(r[k], Direction(key, k)) {
      SortBySorted(groups[k], Direction(key, k));
    }
    forall k, v | 0 <= k < |groups|
      ensures WithKey(r[k], Direction(key, k), v) == WithKey(groups[k], Direction(key, k), v)
    {
      SortByStable(groups[k], Direction(key, k), v);
    }
    forall k, i, j | 0 <= k < |groups| && k % 2 == 1 && 0 <= i < j < |groups[k]|
      ensures key(r[k][i]) >= key(r[k][j])
    {
      assert Descending(key)(r[k][i]) <= Descending(key)(r[k][j]);
    }
    FlattenSameMultisets(r, groups);
  }

  lemma {:induction false} FlattenSameMultisets(a: seq<seq<nat>>, b: seq<seq<nat>>)
    requires |a| == |b|
    requires forall k :: 0 <= k < |a| ==> multiset(a[k]) == multiset(b[k])
    ensures multiset(Flatten(a)) == multiset(Flatten(b))
    decreases |a|
  {
    if a != [] {
      FlattenSameMultisets(a[..|a| - 1], b[..|b| - 1]);
    }
  }

  // ---------------------------------------------------------------------------------------------
  // Valence bands

  function Artists(tracks: seq<Snapshot>, band: seq<nat>): seq<Option<string>> {
    seq(|band|, i requires 0 <= i < |band| => Artist(tracks, band[i]))
  }

  /**
   * The track stays in the current band: its valence is at most 0.1 above the band's first track, and
   * with `separate_artists` no track of the band has its primary artist.
   */
  predicate Joins(tracks: seq<Snapshot>, band: seq<nat>, t: nat, separate: bool) {
    |band| > 0 && Valence(tracks, t) - Valence(tracks, band[0]) <= BandWidth
    && !(separate && Artist(tracks, t) in Artists(tracks, band))
  }

  /** One step of the band loop. */
  function PlaceInBands(tracks: seq<Snapshot>, bands: seq<seq<nat>>, t: nat, separate: bool): seq<seq<nat>> {
    if bands != [] && Joins(tracks, bands[|bands| - 1], t, separate)
    then bands[..|bands| - 1] + [bands[|bands| - 1] + [t]]
    else bands + [[t]]
  }

  function BandsOf(tracks: seq<Snapshot>, s: seq<nat>, separate: bool): seq<seq<nat>> {
    if s == [] then [] else PlaceInBands(tracks, BandsOf(tracks, s[..|s| - 1], separate), s[|s| - 1], separate)
  }

  /** The `forEach` over the tracks with the running `baseValence` (`None` is `undefined`). */
  method ValenceBands(tracks: seq<Snapshot>, data: seq<nat>, separate: bool) returns (valenceGroups: seq<seq<nat>>)
    ensures valenceGroups == BandsOf(tracks, data, separate)
  {
    valenceGroups := [];
    var baseValence: Option<real> := None;
    var k := 0;
    while k < |data|
      invariant 0 <= k <= |data|
      invariant valenceGroups == BandsOf(tracks, data[..k], separate)
      invariant BaseOf(tracks, valenceGroups, baseValence)
    {
      valenceGroups, baseValence := PlaceTrack(tracks, valenceGroups, baseValence, data[k], separate);
      BandsOfPrefix(tracks, data, k, separate);
      k := k + 1;
    }
    assert data[..k] == data;
  }

  /** The body of that `forEach`: open a new band or push the track into the last one. */
  method PlaceTrack(tracks: seq<Snapshot>, groups: seq<seq<nat>>, base: Option<real>, track: nat, separate: bool)
    returns (groups': seq<seq<nat>>, base': Option<real>)
    requires BaseOf(tracks, groups, base)
    ensures groups' == PlaceInBands(tracks, groups, track, separate)
    ensures BaseOf(tracks, groups', base')
  {
    var isTrackAllowed := true;
    if separate && |groups| > 0 {
      var groupArtists := Artists(tracks, groups[|groups| - 1]);
      if Artist(tracks, track) in groupArtists {
        isTrackAllowed := false;
      }
    }
    NewBandCondition(tracks, groups, base, track, separate, isTrackAllowed);
    PlaceKeepsBase(tracks, groups, track, separate);
    if base.None? || Valence(tracks, track) - base.value > BandWidth || !isTrackAllowed {
      base' := Some(Valence(tracks, track));
      groups' := groups + [[track]];
    } else {
      base' := base;
      groups' := groups[..|groups| - 1] + [groups[|groups| - 1] + [track]];
    }
  }

  /** One more track of the input is one more step of the band loop. */
  lemma BandsOfPrefix(tracks: seq<Snapshot>, data: seq<nat>, k: nat, separate: bool)
    requires k < |data|
    ensures BandsOf(tracks, data[..k + 1], separate) == PlaceInBands(tracks, BandsOf(tracks, data[..k], separate), data[k], separate)
  {
    assert data[..k + 1][..k] == data[..k];
  }

  /** `baseValence` is the valence of the last band's first track, and `undefined` before the first band. */
  predicate BaseOf(tracks: seq<Snapshot>, bands: seq<seq<nat>>, base: Option<real>) {
    (forall i :: 0 <= i < |bands| ==> |bands[i]| > 0)
    && base == if bands == [] then None else Some(Valence(tracks, bands[|bands| - 1][0]))
  }

  lemma NewBandCondition(tracks: seq<Snapshot>, bands: seq<seq<nat>>, base: Option<real>, t: nat, separate: bool, allowed: bool)
    requires BaseOf(tracks, bands, base)
    requires allowed == !(separate && |bands| > 0 && Artist(tracks, t) in Artists(tracks, bands[|bands| - 1]))
    ensures (base.None? || Valence(tracks, t) - base.value > BandWidth || !allowed)
            <==> !(bands != [] && Joins(tracks, bands[|bands| - 1], t, separate))
  {
  }

  lemma PlaceKeepsBase(tracks: seq<Snapshot>, bands: seq<seq<nat>>, t: nat, separate: bool)
    requires forall i :: 0 <= i < |bands| ==> |bands[i]| > 0
    ensures var r := PlaceInBands(tracks, bands, t, separate);
            BaseOf(tracks, r, if bands != [] && Joins(tracks, bands[|bands| - 1], t, separate)
                              then Some(Valence(tracks, bands[|bands| - 1][0])) else Some(Valence(tracks, t)))
  {
  }

  /**
   * What the bands are: consecutive non-empty runs that together give back the input; every member's
   * valence is at most 0.1 above the band's first track; with `separate_artists` no two members share a
   * primary artist; and a band ends only where the next track could not have joined it (its valence
   * is more than 0.1 above the band's first, or its artist clashes), so a fall in valence never
   * starts a band.
   */
  ghost predicate IsBanding(tracks: seq<Snapshot>, s: seq<nat>, bands: seq<seq<nat>>, separate: bool) {
    Flatten(bands) == s
    && (forall k :: 0 <= k < |bands| ==> |bands[k]| > 0)
    && (forall k, i :: 0 <= k < |bands| && 0 <= i < |bands[k]| ==>
          Valence(tracks, bands[k][i]) - Valence(tracks, bands[k][0]) <= BandWidth)
    && (separate ==> forall k, i, j :: 0 <= k < |bands| && 0 <= i < j < |bands[k]| ==>
          Artist(tracks, bands[k][i]) != Artist(tracks, bands[k][j]))
    && (forall k :: 0 <= k < |bands| - 1 ==> !Joins(tracks, bands[k], bands[k + 1][0], separate))
  }

  lemma {:induction false} BandsOfIsBanding(tracks: seq<Snapshot>, s: seq<nat>, separate: bool)
    ensures IsBanding(tracks, s, BandsOf(tracks, s, separate), separate)
    decreases |s|
  {
    if s != [] {
      var init, t := s[..|s| - 1], s[|s| - 1];
      var b := BandsOf(tracks, init, separate);
      BandsOfIsBanding(tracks, init, separate);
      assert s == init + [t];
      if b != [] && Joins(tracks, b[|b| - 1], t, separate) {
        PushKeepsBanding(tracks, init, b, t, separate);
      } else {
        NewBandKeepsBanding(tracks, init, b, t, separate);
      }
    }
  }

  lemma NewBandKeepsBanding(tracks: seq<Snapshot>, s: seq<nat>, b: seq<seq<nat>>, t: nat, separate: bool)
    requires IsBanding(tracks, s, b, separate)
    requires !(b != [] && Joins(tracks, b[|b| - 1], t, separate))
    ensures IsBanding(tracks, s + [t], b + [[t]], separate)
  {
    var r := b + [[t]];
    FlattenAppend(b, [t]);
    assert forall k :: 0 <= k < |b| ==> r[k] == b[k];
    assert r[|b|] == [t];
  }

  lemma PushKeepsBanding(tracks: seq<Snapshot>, s: seq<nat>, b: seq<seq<nat>>, t: nat, separate: bool)
    requires IsBanding(tracks, s, b, separate)
    requires b != [] && Joins(tracks, b[|b| - 1], t, separate)
    ensures IsBanding(tracks, s + [t], b[..|b| - 1] + [b[|b| - 1] + [t]], separate)
  {
    var last := b[|b| - 1];
    var r := b[..|b| - 1] + [last + [t]];
    FlattenPushLast(b, t);
    assert |r| == |b|;
    assert forall k :: 0 <= k < |b| - 1 ==> r[k] == b[k];
    assert r[|b| - 1] == last + [t];
    if separate {
      forall i, j | 0 <= i < j < |last + [t]|
        ensures Artist(tracks, (last + [t])[i]) != Artist(tracks, (last + [t])[j])
      {
        if j == |last| {
          assert Artists(tracks, last)[i] == Artist(tracks, last[i]);
        }
      }
    }
  }

  // ---------------------------------------------------------------------------------------------
  // The pipeline

  /** Stages one to four: valence sort, interleave, chunks, and the alternating valence sort. */
  function ValenceChunks(tracks: seq<Snapshot>, data: seq<nat>): seq<seq<nat>> {
    ZigZag(Chunks(Interleave(SortBy(data, ValenceKey(tracks)))), ValenceKey(tracks))
  }

  /** Stages five and six: the bands of the flattened chunks, each sorted by energy in alternating directions. */
  function EnergyBands(tracks: seq<Snapshot>, data: seq<nat>, separate: bool): seq<seq<nat>> {
    ZigZag(BandsOf(tracks, Flatten(ValenceChunks(tracks, data)), separate), EnergyKey(tracks))
  }

  function MoodOrder(tracks: seq<Snapshot>, data: seq<nat>, separate: bool): seq<nat> {
    Flatten(EnergyBands(tracks, data, separate))
  }

  /**
   * `sorted(data, separate_artists)`. `callerData` is the caller's array afterwards, which the first `sort`
   * reorders in place by ascending valence.
   */
  method Sorted(tracks: seq<Snapshot>, data: seq<nat>, separate: bool) returns (result: seq<nat>, callerData: seq<nat>)
    requires Enriched(tracks, data)
    ensures callerData == SortBy(data, ValenceKey(tracks))
    ensures SortedBy(callerData, ValenceKey(tracks)) && multiset(callerData) == multiset(data)
    ensures result == MoodOrder(tracks, data, separate)
    ensures multiset(result) == multiset(data)
  {
    var d := SortBy(data, ValenceKey(tracks));
    callerData := d;
    var dataSortedTemp := SortBy(d, InterleaveKey(d));
    d := dataSortedTemp;
    var groups := Chunk(d);
    groups := SortGroups(groups, ValenceKey(tracks));
    var flat := Flatten(groups);
    var valenceGroups := ValenceBands(tracks, flat, separate);
    valenceGroups := SortGroups(valenceGroups, EnergyKey(tracks));
    result := Flatten(valenceGroups);
    SortBySorted(data, ValenceKey(tracks));
    MoodOrderIsPermutation(tracks, data, separate);
  }

  /** Every stage only reorders or regroups: the result holds each input track as often as the input. */
  lemma MoodOrderIsPermutation(tracks: seq<Snapshot>, data: seq<nat>, separate: bool)
    ensures multiset(MoodOrder(tracks, data, separate)) == multiset(data)
  {
    var v := SortBy(data, ValenceKey(tracks));
    var i := Interleave(v);
    ChunksFlatten(i);
    ZigZagSorts(Chunks(i), ValenceKey(tracks));
    var c := Flatten(ValenceChunks(tracks, data));
    BandsOfIsBanding(tracks, c, separate);
    ZigZagSorts(BandsOf(tracks, c, separate), EnergyKey(tracks));
  }

  /**
   * The result is the bands of the valence chunks, in order, each reordered by energy: band `k`
   * ascending when `k` is even and descending when it is odd.
   */
  lemma MoodOrderBands(tracks: seq<Snapshot>, data: seq<nat>, separate: bool)
    ensures var c := Flatten(ValenceChunks(tracks, data));
            var b := BandsOf(tracks, c, separate);
            IsBanding(tracks, c, b, separate)
            && MoodOrder(tracks, data, separate) == Flatten(ZigZag(b, EnergyKey(tracks)))
  {
    BandsOfIsBanding(tracks, Flatten(ValenceChunks(tracks, data)), separate);
  }
}

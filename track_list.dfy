/**
 * src/classes/TrackList.js and classes/TrackList.js (the same class): the list of tracks built from
 * the Spotify playlist items, and its delegation to a sorter. Sorters work on track numbers, the
 * positions in `data`; `Select` turns their result back into tracks.
 */
module TrackLists {
  import opened Wrappers
  import opened Seqs
  import opened Tracks
  import Greedy
  import GenreSort
  import MoodSort
  import AISort
  import opened Sorters

  datatype Artist = Artist(name: string, id: string)
  datatype Album = Album(name: string, images: seq<Image>)
  /** The fields of `item.track` the constructor reads. */
  datatype ApiTrack = ApiTrack(id: string, name: string, artists: seq<Artist>, album: Album, spotifyUrl: string, isrc: string)
  datatype PlaylistItem = PlaylistItem(isLocal: bool, track: ApiTrack)

  /** The tracks of the items that are not local files, in order. */
  function NonLocal(items: seq<PlaylistItem>): (r: seq<ApiTrack>)
    ensures |r| <= |items|
  {
    if items == [] then []
    else NonLocal(items[..|items| - 1]) + (if items[|items| - 1].isLocal then [] else [items[|items| - 1].track])
  }

  /** Filtering distributes over concatenation: it keeps the input order. */
  lemma {:induction false} NonLocalAppend(a: seq<PlaylistItem>, b: seq<PlaylistItem>)
    ensures NonLocal(a + b) == NonLocal(a) + NonLocal(b)
    decreases |b|
  {
    if b == [] {
      assert a + b == a;
    } else {
      assert (a + b)[..|a + b| - 1] == a + b[..|b| - 1];
      NonLocalAppend(a, b[..|b| - 1]);
    }
  }

  /** Exactly the non-local items: a local item contributes nothing, any other contributes its track. */
  lemma NonLocalSingle(item: PlaylistItem)
    ensures NonLocal([item]) == if item.isLocal then [] else [item.track]
  {
    assert [item][..0] == [];
  }

  /** The number of items that are not local files. */
  function CountNonLocal(items: seq<PlaylistItem>): nat {
    |set i | 0 <= i < |items| && !items[i].isLocal|
  }

  lemma {:induction false} NonLocalLength(items: seq<PlaylistItem>)
    ensures |NonLocal(items)| == CountNonLocal(items)
    decreases |items|
  {
    if items != [] {
      var init := items[..|items| - 1];
      NonLocalLength(init);
      var s := set i | 0 <= i < |items| && !items[i].isLocal;
      var s0 := set i | 0 <= i < |init| && !init[i].isLocal;
      if items[|items| - 1].isLocal {
        assert s == s0;
      } else {
        assert s == s0 + {|items| - 1};
      }
    }
  }

  /** `artists.map(artist => artist.id)`. */
  function ArtistIds(artists: seq<Artist>): (r: seq<string>)
    ensures |r| == |artists| && forall i :: 0 <= i < |artists| ==> r[i] == artists[i].id
  {
    seq(|artists|, i requires 0 <= i < |artists| => artists[i].id)
  }

  function ArtistNames(artists: seq<Artist>): (r: seq<string>)
    ensures |r| == |artists| && forall i :: 0 <= i < |artists| ==> r[i] == artists[i].name
  {
    seq(|artists|, i requires 0 <= i < |artists| => artists[i].name)
  }

  /** `album.images[0]`, `undefined` when there are none. */
  function FirstImage(images: seq<Image>): Option<Image> {
    if images == [] then None else Some(images[0])
  }

  /** The first-listed artist is the primary artist the sorters compare. */
  lemma PrimaryArtistIsFirstListed(a: ApiTrack)
    ensures PrimaryArtist(ArtistIds(a.artists)) == if a.artists == [] then None else Some(a.artists[0].id)
  {
  }

  /** The track is `new Track(...)` of the API track: its fields copied, nothing retrieved yet. */
  ghost predicate Mirrors(t: Track, a: ApiTrack)
    reads t
  {
    t.id == a.id && t.name == a.name && t.artistNames == ArtistNames(a.artists) && t.album == a.album.name
    && t.albumArt == FirstImage(a.album.images) && t.artistIds == ArtistIds(a.artists)
    && t.url == a.spotifyUrl && t.isrc == a.isrc
    && t.genres == None && t.genresHidden == None && t.audioFeatures == None && t.embedding == None
  }

  /** The tracks with the given numbers. */
  function Select(ts: seq<Track>, order: seq<nat>): (r: seq<Track>)
    requires forall k :: 0 <= k < |order| ==> order[k] < |ts|
    ensures |r| == |order| && forall k :: 0 <= k < |order| ==> r[k] == ts[order[k]]
  {
    seq(|order|, k requires 0 <= k < |order| => ts[order[k]])
  }

  /** The track numbers `0, 1, …, n - 1`. */
  function Range(n: nat): (r: seq<nat>)
    ensures |r| == n && forall k :: 0 <= k < n ==> r[k] == k
  {
    seq(n, k requires 0 <= k < n => k)
  }

  lemma RangeDistinct(n: nat)
    ensures Distinct(Range(n))
  {
  }

  /** A rearrangement of the track numbers `0 … n - 1` holds only track numbers below `n`. */
  lemma PermutationOfRange(r: seq<nat>, n: nat)
    requires multiset(r) == multiset(Range(n))
    ensures ValidOrder(r, n) && |r| == n
  {
    forall k | 0 <= k < |r| ensures r[k] < n {
      assert r[k] in multiset(r);
      assert r[k] in Range(n);
    }
    assert |r| == |multiset(r)| == |multiset(Range(n))| == n;
  }

  /** A rearrangement of the track numbers `0 … n - 1` names no track twice. */
  lemma PermutationOfRangeDistinct(r: seq<nat>, n: nat)
    requires multiset(r) == multiset(Range(n))
    ensures Distinct(r)
  {
    RangeDistinct(n);
    forall i, j | 0 <= i < j < |r| ensures r[i] != r[j] {
      var v := r[i];
      DistinctCount(Range(n), v);
      assert r == r[..i] + [v] + r[i + 1..j] + [r[j]] + r[j + 1..];
      assert multiset(r)[v] >= 1 + (if r[j] == v then 1 else 0);
    }
  }

  /** Taking the tracks of two orders runs in concatenation. */
  lemma SelectConcat(ts: seq<Track>, a: seq<nat>, b: seq<nat>)
    requires ValidOrder(a, |ts|) && ValidOrder(b, |ts|)
    ensures ValidOrder(a + b, |ts|) && Select(ts, a + b) == Select(ts, a) + Select(ts, b)
  {
  }

  /** Orders holding the same track numbers select the same tracks, in some order. */
  lemma {:induction false} SelectPermutation(ts: seq<Track>, o1: seq<nat>, o2: seq<nat>)
    requires ValidOrder(o1, |ts|) && ValidOrder(o2, |ts|) && multiset(o1) == multiset(o2)
    ensures multiset(Select(ts, o1)) == multiset(Select(ts, o2))
    decreases |o1|
  {
    if o1 == [] {
      assert |o2| == |multiset(o2)| == 0;
    } else {
      var x := o1[0];
      assert x in multiset(o2);
      var i := IndexOf(o2, x);
      var before, after := o2[..i], o2[i + 1..];
      SelectDropFirst(ts, o1, o2, i);
      SelectPermutation(ts, o1[1..], before + after);
      SelectDropAt(ts, o2, i);
      assert Select(ts, o1) == [ts[x]] + Select(ts, o1[1..]);
    }
  }

  /** The orders left after dropping the first entry of one and the same track number from the other. */
  lemma SelectDropFirst(ts: seq<Track>, o1: seq<nat>, o2: seq<nat>, i: nat)
    requires ValidOrder(o1, |ts|) && ValidOrder(o2, |ts|) && multiset(o1) == multiset(o2)
    requires 0 < |o1| && i < |o2| && o2[i] == o1[0]
    ensures ValidOrder(o1[1..], |ts|) && ValidOrder(o2[..i] + o2[i + 1..], |ts|)
    ensures multiset(o1[1..]) == multiset(o2[..i] + o2[i + 1..])
  {
    var rest := o2[..i] + o2[i + 1..];
    forall k | 0 <= k < |rest| ensures rest[k] < |ts| {
      assert rest[k] == if k < i then o2[k] else o2[k + 1];
    }
    var x := o1[0];
    assert o2 == o2[..i] + [x] + o2[i + 1..];
    assert o1 == [x] + o1[1..];
    calc {
      multiset(o1[1..]);
      multiset(o1) - multiset{x};
      multiset(o2) - multiset{x};
      (multiset(o2[..i]) + multiset{x} + multiset(o2[i + 1..])) - multiset{x};
      multiset(rest);
    }
  }

  /** Selecting around position `i` selects the tracks of the whole order but `ts[o[i]]`. */
  lemma SelectDropAt(ts: seq<Track>, o: seq<nat>, i: nat)
    requires ValidOrder(o, |ts|) && i < |o|
    ensures ValidOrder(o[..i] + o[i + 1..], |ts|)
    ensures multiset(Select(ts, o)) == multiset{ts[o[i]]} + multiset(Select(ts, o[..i] + o[i + 1..]))
  {
    var r, r' := Select(ts, o), Select(ts, o[..i] + o[i + 1..]);
    assert r == r[..i] + [r[i]] + r[i + 1..];
    assert r' == r[..i] + r[i + 1..];
  }

  /** Taking every track in order gives the tracks back. */
  lemma SelectRange(ts: seq<Track>)
    ensures ValidOrder(Range(|ts|), |ts|) && Select(ts, Range(|ts|)) == ts
  {
  }

  /** Distinct track numbers select distinct tracks. */
  lemma SelectDistinct(ts: seq<Track>, order: seq<nat>)
    requires Distinct(ts) && Distinct(order) && ValidOrder(order, |ts|)
    ensures Distinct(Select(ts, order))
  {
    var r := Select(ts, order);
    forall i, j | 0 <= i < j < |r| ensures r[i] != r[j] {
      if order[i] < order[j] {
        assert ts[order[i]] != ts[order[j]];
      } else {
        assert ts[order[j]] != ts[order[i]];
      }
    }
  }

  /** What the sorters read of each track. */
  function Snapshots(ts: seq<Track>): (r: seq<Snapshot>)
    reads ts
    ensures |r| == |ts| && forall k :: 0 <= k < |ts| ==> r[k] == ts[k].Current()
  {
    seq(|ts|, k requires 0 <= k < |ts| reads ts => ts[k].Current())
  }

  /** The tracks in the order the mood sort returns them. */
  function MoodSorted(ts: seq<Track>, separate: bool): (r: seq<Track>)
    reads ts
    ensures |r| == |ts|
  {
    var order := MoodSort.MoodOrder(Snapshots(ts), Range(|ts|), separate);
    MoodSort.MoodOrderIsPermutation(Snapshots(ts), Range(|ts|), separate);
    PermutationOfRange(order, |ts|);
    Select(ts, order)
  }

  /** The tracks sorted by valence alone, as the mood sort's first `sort` leaves the array it was handed. */
  function ValenceSorted(ts: seq<Track>): (r: seq<Track>)
    reads ts
    ensures |r| == |ts|
  {
    var order := SortBy(Range(|ts|), MoodSort.ValenceKey(Snapshots(ts)));
    PermutationOfRange(order, |ts|);
    Select(ts, order)
  }

  /** The data the chosen sorter reads has been retrieved for every track. */
  predicate Ready(sorter: Sorter, tracks: seq<Snapshot>) {
    match sorter
    case GenreSorter => GenreSort.Enriched(tracks, Range(|tracks|))
    case MoodSorter => MoodSort.Enriched(tracks, Range(|tracks|))
    case AISorter => AISort.Enriched(tracks, Range(|tracks|))
  }

  /** The chosen sorter throws on these tracks: only the genre sort does, given two or more tracks of which fewer than two different ones have genres. */
  predicate Throws(sorter: Sorter, tracks: seq<Snapshot>) {
    sorter.GenreSorter? && |tracks| >= 2 && GenreSort.AtMostOneTagged(tracks, Range(|tracks|))
  }

  /**
   * The outcome the chosen sorter gives for these tracks: the greedy order (or the throw) for the genre
   * and AI sorts, the mood order for the mood sort.
   */
  ghost predicate SorterGives(sorter: Sorter, tracks: seq<Snapshot>, separate: bool, finish: AISort.Sums -> real, outcome: Greedy.Outcome) {
    match sorter
    case GenreSorter => Greedy.SortsTo(GenreSort.Metric(tracks), Range(|tracks|), separate, outcome)
    case MoodSorter => outcome == Greedy.Ok(MoodSort.MoodOrder(tracks, Range(|tracks|), separate))
    case AISorter => Greedy.SortsTo(AISort.Metric(tracks, finish), Range(|tracks|), separate, outcome)
  }

  /** Each sorter has one outcome for given tracks. */
  lemma SorterGivesUnique(sorter: Sorter, tracks: seq<Snapshot>, separate: bool, finish: AISort.Sums -> real, o1: Greedy.Outcome, o2: Greedy.Outcome)
    requires SorterGives(sorter, tracks, separate, finish, o1) && SorterGives(sorter, tracks, separate, finish, o2)
    ensures o1 == o2
  {
    match sorter
    case GenreSorter => Greedy.SortsToUnique(GenreSort.Metric(tracks), Range(|tracks|), separate, o1, o2);
    case MoodSorter =>
    case AISorter => Greedy.SortsToUnique(AISort.Metric(tracks, finish), Range(|tracks|), separate, o1, o2);
  }

  /** Every entry is a track number below `n`. */
  predicate ValidOrder(order: seq<nat>, n: nat) {
    forall k :: 0 <= k < |order| ==> order[k] < n
  }

  /**
   * The chosen sorter run on the track numbers `0 … n - 1`: the result, and what remains in the array
   * the sorter was handed (emptied by the greedy sorters' `splice` calls, sorted by valence in place
   * by the mood sort).
   */
  method RunSorter(sorter: Sorter, tracks: seq<Snapshot>, separate: bool, finish: AISort.Sums -> real)
    returns (outcome: Greedy.Outcome, rest: seq<nat>)
    requires Ready(sorter, tracks)
    ensures SorterGives(sorter, tracks, separate, finish, outcome)
    ensures ValidOrder(rest, |tracks|) && (outcome.Ok? ==> ValidOrder(outcome.order, |tracks|))
    ensures sorter.MoodSorter? ==> outcome == Greedy.Ok(MoodSort.MoodOrder(tracks, Range(|tracks|), separate))
    ensures sorter.MoodSorter? ==> multiset(outcome.order) == multiset(Range(|tracks|))
    ensures sorter.MoodSorter? ==> rest == SortBy(Range(|tracks|), MoodSort.ValenceKey(tracks))
    ensures !sorter.MoodSorter? && outcome.Ok? ==> rest == []
    ensures sorter.GenreSorter? ==>
              (outcome.Crash? <==> |tracks| >= 2 && GenreSort.AtMostOneTagged(tracks, Range(|tracks|)))
    ensures sorter.GenreSorter? && GenreSort.HiddenIsExpansion(tracks, Range(|tracks|))
            && GenreSort.SomeDisjointPair(tracks, Range(|tracks|)) ==>
              outcome.Ok? && multiset(outcome.order) == multiset(Range(|tracks|))
    ensures sorter.AISorter? ==> outcome.Ok?
  {
    match sorter {
      case GenreSorter => outcome, rest := RunGenreSort(tracks, separate);
      case MoodSorter => outcome, rest := RunMoodSort(tracks, separate);
      case AISorter => outcome, rest := RunAISort(tracks, separate, finish);
    }
  }

  method RunGenreSort(tracks: seq<Snapshot>, separate: bool) returns (outcome: Greedy.Outcome, rest: seq<nat>)
    requires GenreSort.Enriched(tracks, Range(|tracks|))
    ensures Greedy.SortsTo(GenreSort.Metric(tracks), Range(|tracks|), separate, outcome)
    ensures ValidOrder(rest, |tracks|) && (outcome.Ok? ==> ValidOrder(outcome.order, |tracks|) && rest == [])
    ensures outcome.Crash? <==> |tracks| >= 2 && GenreSort.AtMostOneTagged(tracks, Range(|tracks|))
    ensures GenreSort.HiddenIsExpansion(tracks, Range(|tracks|)) && GenreSort.SomeDisjointPair(tracks, Range(|tracks|)) ==>
              outcome.Ok? && multiset(outcome.order) == multiset(Range(|tracks|))
  {
    var numbers := Range(|tracks|);
    RangeDistinct(|tracks|);
    ghost var seed;
    outcome, rest, seed := GenreSort.Sorted(tracks, numbers, separate);
    DrawnFromRange(rest, |tracks|);
    if outcome.Ok? {
      DrawnFromRange(outcome.order, |tracks|);
    }
  }

  /** Track numbers drawn from `0 … n - 1` are below `n`. */
  lemma DrawnFromRange(s: seq<nat>, n: nat)
    requires forall t :: t in s ==> t in Range(n)
    ensures ValidOrder(s, n)
  {
    forall k | 0 <= k < |s| ensures s[k] < n {
      assert s[k] in Range(n);
    }
  }

  method RunMoodSort(tracks: seq<Snapshot>, separate: bool) returns (outcome: Greedy.Outcome, rest: seq<nat>)
    requires MoodSort.Enriched(tracks, Range(|tracks|))
    ensures ValidOrder(rest, |tracks|) && outcome.Ok? && ValidOrder(outcome.order, |tracks|)
    ensures outcome.order == MoodSort.MoodOrder(tracks, Range(|tracks|), separate)
    ensures multiset(outcome.order) == multiset(Range(|tracks|))
    ensures rest == SortBy(Range(|tracks|), MoodSort.ValenceKey(tracks))
  {
    var numbers := Range(|tracks|);
    var result;
    result, rest := MoodSort.Sorted(tracks, numbers, separate);
    outcome := Greedy.Ok(result);
    PermutationOfRange(result, |tracks|);
    PermutationOfRange(rest, |tracks|);
  }

  method RunAISort(tracks: seq<Snapshot>, separate: bool, finish: AISort.Sums -> real) returns (outcome: Greedy.Outcome, rest: seq<nat>)
    requires AISort.Enriched(tracks, Range(|tracks|))
    ensures Greedy.SortsTo(AISort.Metric(tracks, finish), Range(|tracks|), separate, outcome)
    ensures outcome.Ok? && rest == [] && ValidOrder(outcome.order, |tracks|)
  {
    var numbers := Range(|tracks|);
    RangeDistinct(|tracks|);
    ghost var seed;
    outcome, rest, seed := AISort.Sorted(tracks, numbers, separate, finish);
    if outcome.Ok? {
      forall k | 0 <= k < |outcome.order| ensures outcome.order[k] < |tracks| {
        assert outcome.order[k] in numbers;
      }
    }
    if |numbers| >= 2 {
      assert !AISort.AllSameTrack(numbers) by {
        assert numbers[0] != numbers[1];
      }
    }
  }

  /** Tracks taken in a rearrangement of their numbers: the same tracks, and still distinct if they were. */
  lemma Rearranged(ts: seq<Track>, order: seq<nat>)
    requires multiset(order) == multiset(Range(|ts|))
    ensures ValidOrder(order, |ts|)
    ensures multiset(Select(ts, order)) == multiset(ts)
    ensures Distinct(ts) ==> Distinct(Select(ts, order))
  {
    PermutationOfRange(order, |ts|);
    SelectRange(ts);
    SelectPermutation(ts, order, Range(|ts|));
    if Distinct(ts) {
      PermutationOfRangeDistinct(order, |ts|);
      SelectDistinct(ts, order);
    }
  }

  class TrackList {
    var data: seq<Track>

    /** Distinct track objects: a track number names one track. */
    ghost predicate Valid()
      reads this
    {
      Distinct(data)
    }

    /** `new TrackList({items})`: one new track per non-local item, in order. */
    constructor (items: seq<PlaylistItem>)
      ensures |data| == |NonLocal(items)| == CountNonLocal(items)
      ensures forall i :: 0 <= i < |data| ==> fresh(data[i]) && Mirrors(data[i], NonLocal(items)[i])
      ensures Valid()
    {
      var retVal: seq<Track> := [];
      var k := 0;
      while k < |items|
        invariant 0 <= k <= |items|
        invariant |retVal| == |NonLocal(items[..k])|
        invariant forall i :: 0 <= i < |retVal| ==> fresh(retVal[i]) && Mirrors(retVal[i], NonLocal(items[..k])[i])
        invariant forall i, j :: 0 <= i < j < |retVal| ==> retVal[i] != retVal[j]
      {
        var item := items[k];
        assert items[..k + 1][..k] == items[..k];
        assert NonLocal(items[..k + 1]) == NonLocal(items[..k]) + if item.isLocal then [] else [item.track];
        if !item.isLocal {
          var a := item.track;
          var track := new Track(a.id, a.name, ArtistNames(a.artists), a.album.name, FirstImage(a.album.images),
                                 ArtistIds(a.artists), a.spotifyUrl, a.isrc);
          retVal := retVal + [track];
        }
        k := k + 1;
      }
      assert items[..k] == items;
      NonLocalLength(items);
      data := retVal;
    }

    /**
     * `retrieveData(sort, onDataUpdate)`: the track numbers reported to `onDataUpdate`, one per track,
     * in order. The retrieval itself is network I/O and not part of this model.
     */
    method RetrieveData() returns (reported: seq<nat>)
      ensures reported == Range(|data|)
    {
      reported := [];
      var trackNum := 0;
      while trackNum < |data|
        invariant 0 <= trackNum <= |data|
        invariant reported == Range(trackNum)
      {
        reported := reported + [trackNum];
        trackNum := trackNum + 1;
      }
    }

    /** `getDisplayText(sort, trackNum)`: the sorter's text for track `trackNum`. */
    function GetDisplayText(sorter: Sorter, trackNum: nat): (r: DisplayText)
      requires trackNum < |data|
      reads this, data
      ensures r == DisplayTextFor(sorter, Snapshots(data)[trackNum])
    {
      DisplayTextFor(sorter, data[trackNum].Current())
    }

    /**
     * `sort(sort, separate_artists)`: `data` becomes the sorter's result. When the sorter throws, `data` is
     * not reassigned and keeps the array the sorter emptied with `splice`. `detached` is that array
     * (the one the sorter was handed) as it is after the sorter has returned, and `rest` its track
     * numbers. `finish` is the square root and division step of the cosine similarity.
     */
    method Sort(sorter: Sorter, separate: bool, finish: AISort.Sums -> real)
      returns (outcome: Greedy.Outcome, rest: seq<nat>, detached: seq<Track>)
      requires Valid() && Ready(sorter, Snapshots(data))
      modifies this
      ensures SorterGives(sorter, old(Snapshots(data)), separate, finish, outcome)
      ensures ValidOrder(rest, |old(data)|) && detached == Select(old(data), rest)
      ensures outcome.Ok? ==> ValidOrder(outcome.order, |old(data)|) && data == Select(old(data), outcome.order)
      ensures outcome.Crash? ==> data == detached
      ensures sorter.MoodSorter? ==> outcome == Greedy.Ok(MoodSort.MoodOrder(old(Snapshots(data)), Range(|old(data)|), separate))
      ensures sorter.MoodSorter? ==> multiset(outcome.order) == multiset(Range(|old(data)|))
      ensures sorter.MoodSorter? ==> rest == SortBy(Range(|old(data)|), MoodSort.ValenceKey(old(Snapshots(data))))
      ensures !sorter.MoodSorter? && outcome.Ok? ==> detached == []
      ensures outcome.Crash? <==> Throws(sorter, old(Snapshots(data)))
      ensures sorter.GenreSorter? && GenreSort.HiddenIsExpansion(old(Snapshots(data)), Range(|old(data)|))
              && GenreSort.SomeDisjointPair(old(Snapshots(data)), Range(|old(data)|)) ==>
                outcome.Ok? && multiset(outcome.order) == multiset(Range(|old(data)|))
      ensures outcome.Ok? && multiset(outcome.order) == multiset(Range(|old(data)|)) ==>
                Valid() && multiset(data) == multiset(old(data))
    {
      var tracks := Snapshots(data);
      outcome, rest := RunSorter(sorter, tracks, separate, finish);
      detached := Select(data, rest);
      if outcome.Ok? {
        var before := data;
        data := Select(data, outcome.order);
        if multiset(outcome.order) == multiset(Range(|before|)) {
          Rearranged(before, outcome.order);
        }
      } else {
        data := detached;
      }
    }
  }
}

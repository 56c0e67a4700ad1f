/**
 * The pure helpers of app.js and src/app.js: reading the playlist id from the URI the user typed,
 * mapping the sorted tracks to track URIs, and cutting them into batches of 100 to save; and the
 * order in which the submit handlers sort and collect the ids. The DOM, the Spotify calls and the
 * image upload are not part of this model.
 */
module App {
  import opened Wrappers
  import opened Seqs
  import opened Tracks
  import Greedy
  import GenreSort
  import AISort
  import opened Sorters
  import opened TrackLists

  // ---------------------------------------------------------------------------------------------
  // getPlaylistIdFromUri

  /**
   * What `String.prototype.trim` removes: the white space (tab, vertical tab, form feed, space,
   * no-break space, the byte order mark and the other space separators) and line terminators of
   * ECMA-262.
   */
  predicate IsWhitespace(c: char) {
    var n := c as int;
    n in {0x09, 0x0A, 0x0B, 0x0C, 0x0D, 0x20, 0xA0, 0x1680, 0x2028, 0x2029, 0x202F, 0x205F, 0x3000, 0xFEFF}
    || 0x2000 <= n <= 0x200A
  }

  predicate AllWhitespace(s: string) {
    forall i :: 0 <= i < |s| ==> IsWhitespace(s[i])
  }

  function TrimStart(s: string): string {
    if s != [] && IsWhitespace(s[0]) then TrimStart(s[1..]) else s
  }

  function TrimEnd(s: string): string {
    if s != [] && IsWhitespace(s[|s| - 1]) then TrimEnd(s[..|s| - 1]) else s
  }

  function Trim(s: string): string {
    TrimEnd(TrimStart(s))
  }

  const PlaylistPrefix: string := "spotify:playlist:"

  /**
   * `getPlaylistIdFromUri`: the trimmed input must start with `spotify:playlist:`, otherwise "Invalid URI"
   * is thrown; the id is everything after the 17 characters of that prefix.
   */
  function PlaylistIdFromUri(input: string): (r: Result<string>)
    ensures r.Failure? <==> !(PlaylistPrefix <= Trim(input))
    ensures r.Failure? ==> r.error == "Invalid URI"
    ensures r.Success? ==> PlaylistPrefix + r.value == Trim(input)
  {
    var uri := Trim(input);
    if !(PlaylistPrefix <= uri) then Failure("Invalid URI")
    else
      assert |PlaylistPrefix| == 17;
      assert uri == uri[..17] + uri[17..];
      Success(uri[17..])
  }

  lemma {:induction false} TrimStartSkipsWhitespace(w: string, s: string)
    requires AllWhitespace(w)
    ensures TrimStart(w + s) == TrimStart(s)
    decreases |w|
  {
    if w != [] {
      assert (w + s)[1..] == w[1..] + s;
      TrimStartSkipsWhitespace(w[1..], s);
    } else {
      assert w + s == s;
    }
  }

  lemma {:induction false} TrimEndSkipsWhitespace(s: string, w: string)
    requires AllWhitespace(w)
    ensures TrimEnd(s + w) == TrimEnd(s)
    decreases |w|
  {
    if w != [] {
      assert (s + w)[..|s + w| - 1] == s + w[..|w| - 1];
      TrimEndSkipsWhitespace(s, w[..|w| - 1]);
    } else {
      assert s + w == s;
    }
  }

  /** Trimming the front of a string that has a visible character leaves its end alone. */
  lemma {:induction false} TrimStartAppend(s: string, t: string)
    ensures AllWhitespace(s) ==> TrimStart(s + t) == TrimStart(t)
    ensures !AllWhitespace(s) ==> TrimStart(s + t) == TrimStart(s) + t
    decreases |s|
  {
    if s == [] {
      assert s + t == t;
    } else {
      assert (s + t)[1..] == s[1..] + t;
      TrimStartAppend(s[1..], t);
      if IsWhitespace(s[0]) && !AllWhitespace(s) {
        var i :| 0 <= i < |s| && !IsWhitespace(s[i]);
        assert !IsWhitespace(s[1..][i - 1]);
      }
    }
  }

  lemma {:induction false} TrimEndAllWhitespace(w: string)
    requires AllWhitespace(w)
    ensures TrimEnd(w) == []
    decreases |w|
  {
    if w != [] {
      TrimEndAllWhitespace(w[..|w| - 1]);
    }
  }

  lemma TrimStartAllWhitespace(w: string)
    requires AllWhitespace(w)
    ensures TrimStart(w) == []
  {
    TrimStartSkipsWhitespace(w, []);
    assert w + [] == w;
  }

  /** Leading and trailing white space does not change the result. */
  lemma PlaylistIdIgnoresSurroundingWhitespace(w1: string, input: string, w2: string)
    requires AllWhitespace(w1) && AllWhitespace(w2)
    ensures PlaylistIdFromUri(w1 + input + w2) == PlaylistIdFromUri(input)
  {
    assert Trim(w1 + input + w2) == Trim(input) by {
      assert w1 + input + w2 == w1 + (input + w2);
      TrimStartSkipsWhitespace(w1, input + w2);
      TrimStartAppend(input, w2);
      if AllWhitespace(input) {
        TrimStartAllWhitespace(w2);
        TrimStartAllWhitespace(input);
      } else {
        TrimEndSkipsWhitespace(TrimStart(input), w2);
      }
    }
  }

  /** Trimming the end of a string that ends in a visible character leaves its front alone. */
  lemma {:induction false} TrimEndAppend(s: string, t: string)
    requires s != [] && !IsWhitespace(s[|s| - 1])
    ensures TrimEnd(s + t) == s + TrimEnd(t)
    decreases |t|
  {
    if t == [] {
      assert s + t == s;
    } else {
      assert (s + t)[..|s + t| - 1] == s + t[..|t| - 1];
      if IsWhitespace(t[|t| - 1]) {
        TrimEndAppend(s, t[..|t| - 1]);
      }
    }
  }

  /** The id is read back from a URI built from it, up to the white space `trim` removes at its end. */
  lemma PlaylistIdOfUri(id: string)
    ensures PlaylistIdFromUri(PlaylistPrefix + id) == Success(TrimEnd(id))
  {
    var uri := PlaylistPrefix + id;
    assert TrimStart(uri) == uri;
    TrimEndAppend(PlaylistPrefix, id);
    assert PlaylistPrefix <= PlaylistPrefix + TrimEnd(id);
    assert (PlaylistPrefix + TrimEnd(id))[17..] == TrimEnd(id);
  }

  // ---------------------------------------------------------------------------------------------
  // finalTrackIds

  const TrackPrefix: string := "spotify:track:"

  /** `data.map(track => "spotify:track:" + track.id)`. */
  function TrackUris(ids: seq<string>): (r: seq<string>)
    ensures |r| == |ids|
    ensures forall i :: 0 <= i < |ids| ==> TrackPrefix <= r[i]
  {
    seq(|ids|, i requires 0 <= i < |ids| => TrackPrefix + ids[i])
  }

  /** The id in a track URI. */
  function TrackIdOf(uri: string): string {
    if TrackPrefix <= uri then uri[|TrackPrefix|..] else uri
  }

  /** Each URI gives back its track's id, in the same order. */
  lemma TrackUrisInverse(ids: seq<string>)
    ensures forall i :: 0 <= i < |ids| ==> TrackIdOf(TrackUris(ids)[i]) == ids[i]
  {
    forall i | 0 <= i < |ids| ensures TrackIdOf(TrackUris(ids)[i]) == ids[i] {
      assert TrackUris(ids)[i] == TrackPrefix + ids[i];
      assert (TrackPrefix + ids[i])[|TrackPrefix|..] == ids[i];
    }
  }

  function IdsOf(ts: seq<Track>): (r: seq<string>)
    reads ts
    ensures |r| == |ts| && forall i :: 0 <= i < |ts| ==> r[i] == ts[i].id
  {
    seq(|ts|, i requires 0 <= i < |ts| reads ts => ts[i].id)
  }

  // ---------------------------------------------------------------------------------------------
  // The save loop of src/app.js

  function Min(a: nat, b: nat): nat {
    if a < b then a else b
  }

  /**
   * `for (i = 0; i < finalTrackIds.length; i += 100) addTracksToPlaylist(id, finalTrackIds.slice(i, i + 100))`:
   * the slices sent, in order. Each holds 100 ids except the last, which holds between 1 and 100, and
   * together they are exactly the ids.
   */
  method SaveBatches(finalTrackIds: seq<string>) returns (batches: seq<seq<string>>)
    ensures Flatten(batches) == finalTrackIds
    ensures |batches| == (|finalTrackIds| + 99) / 100
    ensures forall k :: 0 <= k < |batches| ==> 0 < |batches[k]| <= 100
    ensures forall k :: 0 <= k < |batches| - 1 ==> |batches[k]| == 100
  {
    batches := [];
    var i := 0;
    while i < |finalTrackIds|
      invariant i == 100 * |batches|
      invariant i <= |finalTrackIds| || (|batches| > 0 && i - 100 < |finalTrackIds|)
      invariant Flatten(batches) == finalTrackIds[..Min(i, |finalTrackIds|)]
      invariant forall k :: 0 <= k < |batches| ==> 0 < |batches[k]| <= 100
      invariant forall k :: 0 <= k < |batches| - 1 ==> |batches[k]| == 100
      invariant i < |finalTrackIds| ==> forall k :: 0 <= k < |batches| ==> |batches[k]| == 100
    {
      var batch := Slice(finalTrackIds, i, i + 100);
      assert batch == finalTrackIds[i..Min(i + 100, |finalTrackIds|)];
      FlattenAppend(batches, batch);
      assert finalTrackIds[..Min(i + 100, |finalTrackIds|)] == finalTrackIds[..i] + batch;
      batches := batches + [batch];
      i := i + 100;
    }
    assert finalTrackIds[..Min(i, |finalTrackIds|)] == finalTrackIds;
  }

  // ---------------------------------------------------------------------------------------------
  // Sorting and collecting the ids

  /** `separate_artists` is passed on as the string it was read as; the sorters test its truthiness. */
  function Truthy(s: string): bool {
    s != ""
  }

  /**
   * src/app.js: `await trackList.sort(...)`, then the ids of the sorted list. When the sorter throws,
   * the handler's `catch` takes over and no ids are collected (`None`). The rendering calls in between
   * (`displayNewTracks` and `displayGraph`) are skipped: they are taken to return normally.
   */
  method SubmitAwaited(list: TrackList, sorter: Sorter, separateArtists: string, finish: AISort.Sums -> real)
    returns (finalTrackIds: Option<seq<string>>)
    requires list.Valid() && Ready(sorter, Snapshots(list.data))
    modifies list
    ensures exists outcome :: SorterGives(sorter, old(Snapshots(list.data)), Truthy(separateArtists), finish, outcome)
              && (outcome.Crash? <==> finalTrackIds.None?)
              && (outcome.Ok? ==> ValidOrder(outcome.order, |old(list.data)|) && list.data == Select(old(list.data), outcome.order))
    ensures finalTrackIds.None? <==> Throws(sorter, old(Snapshots(list.data)))
    ensures finalTrackIds.Some? ==> finalTrackIds.value == TrackUris(IdsOf(list.data))
    ensures sorter.MoodSorter? ==> list.data == old(MoodSorted(list.data, Truthy(separateArtists)))
    ensures sorter.GenreSorter? && GenreSort.HiddenIsExpansion(old(Snapshots(list.data)), Range(|old(list.data)|))
            && GenreSort.SomeDisjointPair(old(Snapshots(list.data)), Range(|old(list.data)|)) ==>
              finalTrackIds.Some? && |finalTrackIds.value| == |old(list.data)|
              && multiset(list.data) == multiset(old(list.data)) && list.Valid()
    ensures sorter.MoodSorter? ==> multiset(list.data) == multiset(old(list.data)) && list.Valid()
  {
    ghost var before, tracks := list.data, Snapshots(list.data);
    var outcome, rest, detached := list.Sort(sorter, Truthy(separateArtists), finish);
    if outcome.Crash? {
      return None;
    }
    finalTrackIds := Some(TrackUris(IdsOf(list.data)));
    match sorter
    case MoodSorter =>
      assert old(MoodSorted(list.data, Truthy(separateArtists))) == Select(before, outcome.order);
    case GenreSorter =>
      if GenreSort.HiddenIsExpansion(tracks, Range(|tracks|)) && GenreSort.SomeDisjointPair(tracks, Range(|tracks|)) {
        PermutationOfRange(outcome.order, |tracks|);
      }
    case AISorter =>
  }

  /**
   * app.js: `trackList.sort(...)` is called without `await`. The sorter runs to completion at once,
   * but `trackList.data` is reassigned only later, so the ids are collected from the array the
   * sorter was handed, as the sorter left it: emptied by the genre and AI sorts, only sorted by
   * valence by the mood sort. A sorter that throws goes unnoticed.
   */
  method SubmitUnawaited(list: TrackList, sorter: Sorter, separateArtists: string, finish: AISort.Sums -> real)
    returns (finalTrackIds: seq<string>)
    requires list.Valid() && Ready(sorter, Snapshots(list.data))
    modifies list
    ensures !sorter.MoodSorter? && !Throws(sorter, old(Snapshots(list.data))) ==> finalTrackIds == []
    ensures sorter.MoodSorter? ==> finalTrackIds == TrackUris(IdsOf(old(ValenceSorted(list.data))))
  {
    var outcome, rest, detached := list.Sort(sorter, Truthy(separateArtists), finish);
    finalTrackIds := TrackUris(IdsOf(detached));
  }

  /** Two fresh tracks, made by the constructor from two items that are not local files. */
  method TwoTracks() returns (list: TrackList)
    ensures fresh(list) && |list.data| == 2 && list.data[0] != list.data[1]
    ensures fresh(list.data[0]) && fresh(list.data[1])
  {
    var album := Album("", []);
    var items := [PlaylistItem(false, ApiTrack("a", "A", [Artist("x", "x")], album, "", "")),
                  PlaylistItem(false, ApiTrack("b", "B", [Artist("y", "y")], album, "", ""))];
    NonLocalSingle(items[0]);
    NonLocalSingle(items[1]);
    NonLocalAppend([items[0]], [items[1]]);
    assert items == [items[0]] + [items[1]];
    list := new TrackList(items);
  }

  /** A playlist of two tracks whose genres were retrieved as one single-word genre each, different ones. */
  method TaggedPair(g0: string, g1: string) returns (list: TrackList)
    requires ' ' !in g0 && ' ' !in g1 && g0 != g1
    ensures fresh(list) && |list.data| == 2 && list.Valid()
    ensures Ready(GenreSorter, Snapshots(list.data))
    ensures GenreSort.HiddenIsExpansion(Snapshots(list.data), Range(2))
    ensures GenreSort.SomeDisjointPair(Snapshots(list.data), Range(2))
  {
    list := TwoTracks();
    assert list.Valid();
    var first, second := list.data[0], list.data[1];
    first.ApplyGenres([g0], []);
    second.ApplyGenres([g1], []);
    OneWordGenre(g0);
    OneWordGenre(g1);
    DisjointlyTagged(Snapshots(list.data), g0, g1);
  }

  /** Two tracks tagged with one single-word genre each, different ones. */
  lemma DisjointlyTagged(tracks: seq<Snapshot>, g0: string, g1: string)
    requires |tracks| == 2 && g0 != g1
    requires tracks[0].genres == Some([g0]) && tracks[0].genresHidden == Some([g0]) && ExpandGenres([g0]) == [g0]
    requires tracks[1].genres == Some([g1]) && tracks[1].genresHidden == Some([g1]) && ExpandGenres([g1]) == [g1]
    ensures Ready(GenreSorter, tracks)
    ensures GenreSort.HiddenIsExpansion(tracks, Range(2))
    ensures GenreSort.SomeDisjointPair(tracks, Range(2))
  {
    var r := Range(2);
    forall t | t in r
      ensures t < |tracks| && tracks[t].genres.Some? && tracks[t].genresHidden.Some?
      ensures GenreSort.Hidden(tracks, t) == ExpandGenres(GenreSort.Genres(tracks, t))
    {
      assert t == 0 || t == 1;
    }
    assert GenreSort.Enriched(tracks, r);
    assert GenreSort.NumSharedGenres([g0], [g1]) == 0 by {
      assert g0 !in [g1];
    }
    assert r[0] == 0 && r[1] == 1 && GenreSort.Tagged(tracks, r[0]) && GenreSort.Tagged(tracks, r[1]);
  }

  /**
   * Sorting "rock" and "jazz" by genre: awaited (src/app.js) the two ids are collected; unawaited
   * (app.js) none are, so the playlist that is saved is empty.
   */
  method UnawaitedGenreSortSavesNothing() returns (awaited: Option<seq<string>>, unawaited: seq<string>)
    ensures awaited.Some? && |awaited.value| == 2
    ensures unawaited == []
  {
    var finish := (s: AISort.Sums) => 0.0;
    var list1 := TaggedPair("rock", "jazz");
    awaited := SubmitAwaited(list1, GenreSorter, "on", finish);
    var list2 := TaggedPair("rock", "jazz");
    unawaited := SubmitUnawaited(list2, GenreSorter, "on", finish);
  }
}

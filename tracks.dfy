/**
 * classes/Track.js: one playlist track, its constructor defaults, `deduplicate`, the word-split
 * expansion of genres into `genresHidden`, and the extraction of MusicBrainz tag names. The network
 * calls that fetch genres, audio features and embeddings are not part of this model; their results
 * are parameters.
 */
module Tracks {
  import opened Wrappers
  import opened Seqs

  /** The Spotify audio features a mood sort reads; exact reals rather than doubles. */
  datatype AudioFeatures = AudioFeatures(energy: real, valence: real)

  /** An album image as the Spotify API returns it; only carried along. */
  datatype Image = Image(url: string, width: int, height: int)

  /** What a sorter reads about a track at the moment it sorts. */
  datatype Snapshot = Snapshot(
    artistIds: seq<string>,
    genres: Option<seq<string>>,
    genresHidden: Option<seq<string>>,
    audioFeatures: Option<AudioFeatures>,
    embedding: Option<seq<real>>)

  /** `track.artistIds[0]`, which is `undefined` for a track without artists. */
  function PrimaryArtist(artistIds: seq<string>): (r: Option<string>)
    ensures r.Some? <==> |artistIds| > 0
    ensures r.Some? ==> r.value == artistIds[0]
  {
    if artistIds == [] then None else Some(artistIds[0])
  }

  class Track {
    var id: string
    var name: string
    var artistNames: seq<string>
    var album: string
    var albumArt: Option<Image>
    var artistIds: seq<string>
    var url: string
    var isrc: string
    /** `null` until genres are retrieved. */
    var genres: Option<seq<string>>
    /** `undefined` until genres are retrieved. */
    var genresHidden: Option<seq<string>>
    /** `null` until audio features are retrieved. */
    var audioFeatures: Option<AudioFeatures>
    /** `undefined` until the embedding is retrieved. */
    var embedding: Option<seq<real>>

    constructor (id: string, name: string, artistNames: seq<string>, album: string, albumArt: Option<Image>,
                 artistIds: seq<string>, url: string, isrc: string,
                 genres: Option<seq<string>> := None, audioFeatures: Option<AudioFeatures> := None)
      ensures this.id == id && this.name == name && this.artistNames == artistNames && this.album == album
      ensures this.albumArt == albumArt && this.artistIds == artistIds && this.url == url && this.isrc == isrc
      ensures this.genres == genres && this.audioFeatures == audioFeatures
      ensures this.genresHidden == None && this.embedding == None
    {
      this.id := id;
      this.name := name;
      this.artistNames := artistNames;
      this.album := album;
      this.albumArt := albumArt;
      this.artistIds := artistIds;
      this.url := url;
      this.isrc := isrc;
      this.genres := genres;
      this.audioFeatures := audioFeatures;
      this.genresHidden := None;
      this.embedding := None;
    }

    function Current(): (s: Snapshot)
      reads this
      ensures s.artistIds == artistIds && s.genres == genres && s.genresHidden == genresHidden
      ensures s.audioFeatures == audioFeatures && s.embedding == embedding
    {
      Snapshot(artistIds, genres, genresHidden, audioFeatures, embedding)
    }

    /**
     * The part of `retrieveGenres` after both fetches have resolved: `genres` becomes the deduplicated
     * concatenation of the Spotify and MusicBrainz genres, and `genresHidden` their word-split expansion.
     */
    method ApplyGenres(spotifyGenres: seq<string>, musicBrainzGenres: seq<string>)
      modifies this`genres, this`genresHidden
      ensures genres == Some(Dedup(spotifyGenres + musicBrainzGenres))
      ensures genresHidden == Some(ExpandGenres(genres.value))
    {
      var retVal: seq<string> := [];
      retVal := retVal + spotifyGenres;
      retVal := retVal + musicBrainzGenres;
      assert retVal == spotifyGenres + musicBrainzGenres;
      retVal := Deduplicate(retVal);
      genres := Some(retVal);
      var hidden: seq<string> := [];
      var k := 0;
      while k < |retVal|
        invariant 0 <= k <= |retVal|
        invariant hidden == Expansion(retVal[..k])
      {
        hidden := hidden + [retVal[k]] + Split(retVal[k], ' ');
        assert retVal[..k + 1][..k] == retVal[..k];
        k := k + 1;
      }
      assert retVal[..k] == retVal;
      hidden := Deduplicate(hidden);
      genresHidden := Some(hidden);
    }
  }

  // ---------------------------------------------------------------------------------------------
  // deduplicate

  /** The elements of `s`, each at its first occurrence. */
  function Dedup<T(==)>(s: seq<T>): seq<T> {
    if s == [] then []
    else
      var d := Dedup(s[..|s| - 1]);
      if s[|s| - 1] in d then d else d + [s[|s| - 1]]
  }

  /** `deduplicate(list)`: push each item that the result does not include yet. */
  method Deduplicate<T(==)>(list: seq<T>) returns (r: seq<T>)
    ensures r == Dedup(list)
    ensures Distinct(r)
    ensures forall x :: x in r <==> x in list
  {
    r := [];
    var k := 0;
    while k < |list|
      invariant 0 <= k <= |list|
      invariant r == Dedup(list[..k])
    {
      if list[k] !in r {
        r := r + [list[k]];
      }
      assert list[..k + 1][..k] == list[..k];
      k := k + 1;
    }
    assert list[..k] == list;
    DedupDistinct(list);
    DedupSameElements(list);
  }

  lemma {:induction false} DedupSameElements<T>(s: seq<T>)
    ensures forall x :: x in Dedup(s) <==> x in s
    decreases |s|
  {
    if s != [] {
      DedupSameElements(s[..|s| - 1]);
      assert s == s[..|s| - 1] + [s[|s| - 1]];
    }
  }

  lemma DedupWithin<T>(s: seq<T>, x: T)
    requires x in Dedup(s)
    ensures x in s
  {
    DedupSameElements(s);
  }

  lemma {:induction false} DedupDistinct<T>(s: seq<T>)
    ensures Distinct(Dedup(s))
    decreases |s|
  {
    if s != [] {
      DedupDistinct(s[..|s| - 1]);
    }
  }

  /** A list without duplicates is left as it is. */
  lemma {:induction false} DedupOfDistinct<T>(s: seq<T>)
    requires Distinct(s)
    ensures Dedup(s) == s
    decreases |s|
  {
    if s != [] {
      DedupOfDistinct(s[..|s| - 1]);
      assert s[|s| - 1] !in s[..|s| - 1];
      assert s == s[..|s| - 1] + [s[|s| - 1]];
    }
  }

  /** Deduplicating twice is deduplicating once. */
  lemma DedupIdempotent<T>(s: seq<T>)
    ensures Dedup(Dedup(s)) == Dedup(s)
  {
    DedupDistinct(s);
    DedupOfDistinct(Dedup(s));
  }

  /**
   * Each element is kept at its first occurrence: the kept elements come in the order of their first
   * occurrences in the input.
   */
  lemma {:induction false} DedupKeepsFirstOccurrences<T>(s: seq<T>)
    ensures forall i, j :: 0 <= i < j < |Dedup(s)| ==> IndexOf(s, Dedup(s)[i]) < IndexOf(s, Dedup(s)[j])
    decreases |s|
  {
    if s != [] {
      var init, last := s[..|s| - 1], s[|s| - 1];
      var d, r := Dedup(init), Dedup(s);
      DedupKeepsFirstOccurrences(init);
      assert s == init + [last];
      assert r == if last in d then d else d + [last];
      forall i | 0 <= i < |d| ensures IndexOf(s, d[i]) == IndexOf(init, d[i]) < |s| - 1 {
        DedupWithin(init, d[i]);
        IndexOfPrefix(init, [last], d[i]);
      }
      if last !in d {
        assert IndexOf(s, last) == |s| - 1 by {
          DedupSameElements(init);
          assert last !in init;
          assert IndexOf([last], last) == 0;
          IndexOfPrefix(init, [last], last);
        }
      }
      forall i, j | 0 <= i < j < |r| ensures IndexOf(s, r[i]) < IndexOf(s, r[j]) {
        assert r[i] == d[i];
        if j < |d| {
          assert r[j] == d[j];
        } else {
          assert r[j] == last;
        }
      }
    }
  }

  lemma {:induction false} IndexOfPrefix<T>(s: seq<T>, t: seq<T>, x: T)
    ensures x in s ==> IndexOf(s + t, x) == IndexOf(s, x)
    ensures x !in s && x in t ==> IndexOf(s + t, x) == |s| + IndexOf(t, x)
    decreases |s|
  {
    if s != [] {
      assert (s + t)[1..] == s[1..] + t;
      IndexOfPrefix(s[1..], t, x);
    } else {
      assert s + t == t;
    }
  }

  // ---------------------------------------------------------------------------------------------
  // String.prototype.split with a one-character separator, and its inverse

  /** `s.split(sep)`: the pieces between separators; "" gives [""] and adjacent separators give "". */
  function Split(s: string, sep: char): (r: seq<string>)
    ensures |r| >= 1
    decreases |s|
  {
    var k := IndexOf(s, sep);
    if k < 0 then [s] else [s[..k]] + Split(s[k + 1..], sep)
  }

  /** `parts.join(sep)`. */
  function Join(parts: seq<string>, sep: char): string {
    if parts == [] then ""
    else if |parts| == 1 then parts[0]
    else parts[0] + [sep] + Join(parts[1..], sep)
  }

  /** Splitting loses nothing: joining the pieces with the separator gives the string back. */
  lemma {:induction false} JoinSplit(s: string, sep: char)
    ensures Join(Split(s, sep), sep) == s
    decreases |s|
  {
    var k := IndexOf(s, sep);
    if k >= 0 {
      var head, tail := s[..k], s[k + 1..];
      var rest := Split(tail, sep);
      assert Split(s, sep) == [head] + rest;
      calc {
        Join(Split(s, sep), sep);
        Join([head] + rest, sep);
        { JoinCons(head, rest, sep); }
        head + [sep] + Join(rest, sep);
        { JoinSplit(tail, sep); }
        head + [sep] + tail;
        { CutAt(s, k); }
        s;
      }
    }
  }

  /** A string is the part before position `k`, the character there, and the part after. */
  lemma CutAt(s: string, k: int)
    requires 0 <= k < |s|
    ensures s[..k] + [s[k]] + s[k + 1..] == s
  {
  }

  lemma JoinCons(head: string, rest: seq<string>, sep: char)
    requires |rest| >= 1
    ensures Join([head] + rest, sep) == head + [sep] + Join(rest, sep)
  {
    assert ([head] + rest)[1..] == rest;
  }

  /** No piece contains the separator. */
  lemma {:induction false} SplitPiecesLackSeparator(s: string, sep: char)
    ensures forall p :: p in Split(s, sep) ==> sep !in p
    decreases |s|
  {
    var k := IndexOf(s, sep);
    if k >= 0 {
      SplitPiecesLackSeparator(s[k + 1..], sep);
    }
  }

  /** A word without the separator splits into itself. */
  lemma SplitWord(s: string, sep: char)
    requires sep !in s
    ensures Split(s, sep) == [s]
  {
  }

  // ---------------------------------------------------------------------------------------------
  // genresHidden

  /** Each genre followed by its space-separated words, before deduplication. */
  function Expansion(genres: seq<string>): seq<string> {
    if genres == [] then []
    else Expansion(genres[..|genres| - 1]) + [genres[|genres| - 1]] + Split(genres[|genres| - 1], ' ')
  }

  /** `genresHidden`: the deduplicated expansion. */
  function ExpandGenres(genres: seq<string>): seq<string> {
    Dedup(Expansion(genres))
  }

  /** A genre without spaces is its own expansion, and a single genre needs no deduplication. */
  lemma OneWordGenre(g: string)
    requires ' ' !in g
    ensures Dedup([g]) == [g] && Dedup([g] + []) == [g] && ExpandGenres([g]) == [g]
  {
    assert [g] + [] == [g];
    assert [g][..0] == [];
    SplitWord(g, ' ');
    assert Expansion([g]) == [g, g];
    assert [g, g][..1] == [g];
  }

  lemma {:induction false} ExpansionElements(genres: seq<string>)
    ensures forall g :: g in genres ==> g in Expansion(genres)
    ensures forall g, w :: g in genres && w in Split(g, ' ') ==> w in Expansion(genres)
    ensures forall x :: x in Expansion(genres) ==> x in genres || exists g :: g in genres && x in Split(g, ' ')
    decreases |genres|
  {
    if genres != [] {
      var init, last := genres[..|genres| - 1], genres[|genres| - 1];
      ExpansionElements(init);
      assert genres == init + [last];
      forall x | x in Expansion(genres) && x !in genres
        ensures exists g :: g in genres && x in Split(g, ' ')
      {
        if x in Expansion(init) {
          var g :| g in init && x in Split(g, ' ');
          assert g in genres;
        } else {
          assert x in Split(last, ' ');
        }
      }
    }
  }

  /**
   * `genresHidden` holds every genre and every word of every genre (so "jazz fusion" also counts as
   * "jazz"), nothing else, and nothing twice.
   */
  lemma ExpandGenresContents(genres: seq<string>)
    ensures forall g :: g in genres ==> g in ExpandGenres(genres)
    ensures forall g, w :: g in genres && w in Split(g, ' ') ==> w in ExpandGenres(genres)
    ensures forall x :: x in ExpandGenres(genres) ==> x in genres || exists g :: g in genres && x in Split(g, ' ')
    ensures Distinct(ExpandGenres(genres))
  {
    ExpansionElements(genres);
    DedupSameElements(Expansion(genres));
    DedupDistinct(Expansion(genres));
  }

  /** Expanding an expanded list adds nothing: words have no spaces left to split on. */
  lemma ExpandGenresIdempotent(genres: seq<string>)
    ensures forall x :: x in ExpandGenres(ExpandGenres(genres)) <==> x in ExpandGenres(genres)
  {
    var h := ExpandGenres(genres);
    ExpandGenresContents(genres);
    ExpandGenresContents(h);
    forall g, x | g in h && x in Split(g, ' ') ensures x in h {
      if g !in genres {
        var g0 :| g0 in genres && g in Split(g0, ' ');
        SplitPiecesLackSeparator(g0, ' ');
        SplitWord(g, ' ');
      }
    }
  }

  // ---------------------------------------------------------------------------------------------
  // _getMusicBrainzTags

  datatype MusicBrainzTag = MusicBrainzTag(name: string)
  /** A recording of the MusicBrainz search result; `tags` may be missing. */
  datatype Recording = Recording(tags: Option<seq<MusicBrainzTag>>)

  /** The tag names of the recordings, in order; recordings without `tags` contribute nothing. */
  function TagNames(recordings: seq<Recording>): seq<string> {
    if recordings == [] then []
    else
      var last := recordings[|recordings| - 1];
      TagNames(recordings[..|recordings| - 1])
        + (if last.tags.Some? then seq(|last.tags.value|, k requires 0 <= k < |last.tags.value| => last.tags.value[k].name) else [])
  }

  method MusicBrainzTags(recordings: seq<Recording>) returns (genres: seq<string>)
    ensures genres == TagNames(recordings)
  {
    genres := [];
    var k := 0;
    while k < |recordings|
      invariant 0 <= k <= |recordings|
      invariant genres == TagNames(recordings[..k])
    {
      var recording := recordings[k];
      if recording.tags.Some? {
        var tags := seq(|recording.tags.value|, i requires 0 <= i < |recording.tags.value| => recording.tags.value[i].name);
        genres := genres + tags;
      }
      assert recordings[..k + 1][..k] == recordings[..k];
      k := k + 1;
    }
    assert recordings[..k] == recordings;
  }

  /** Tag extraction distributes over concatenation of the recording lists. */
  lemma {:induction false} TagNamesAppend(a: seq<Recording>, b: seq<Recording>)
    ensures TagNames(a + b) == TagNames(a) + TagNames(b)
    decreases |b|
  {
    if b == [] {
      assert a + b == a;
    } else {
      assert (a + b)[..|a + b| - 1] == a + b[..|b| - 1];
      TagNamesAppend(a, b[..|b| - 1]);
    }
  }

  /** A recording without `tags` changes nothing wherever it stands. */
  lemma UntaggedRecordingAddsNothing(a: seq<Recording>, b: seq<Recording>)
    ensures TagNames(a + [Recording(None)] + b) == TagNames(a + b)
  {
    TagNamesAppend(a + [Recording(None)], b);
    TagNamesAppend(a, [Recording(None)]);
    TagNamesAppend(a, b);
    assert [Recording(None)][..0] == [];
  }
}

/**
 * The three `SortFactory` functions (src/classes/SortFactory.js, classes/SortFactory.js and
 * _site/classes/SortFactory.js) and what each sorter's `getDisplayText` shows, with numbers kept as
 * numbers rather than formatted into text.
 */
module Sorters {
  import opened Wrappers
  import opened Tracks

  datatype Sorter = GenreSorter | MoodSorter | AISorter

  /** `SortFactory(sortMethodString)` with cases 'genre', 'mood' and 'AI' and no default: `undefined` is `None`. */
  function Factory(key: string): (r: Option<Sorter>)
    ensures r.Some? <==> key in {"genre", "mood", "AI"}
  {
    match key
    case "genre" => Some(GenreSorter)
    case "mood" => Some(MoodSorter)
    case "AI" => Some(AISorter)
    case _ => None
  }

  /** The `_site` copy of `SortFactory`, whose switch has no 'AI' case. */
  function SiteFactory(key: string): (r: Option<Sorter>)
    ensures r.Some? <==> key in {"genre", "mood"}
  {
    match key
    case "genre" => Some(GenreSorter)
    case "mood" => Some(MoodSorter)
    case _ => None
  }

  /** Each of the three cases yields its own sorter, and only its own key yields it. */
  lemma FactoryDispatch(key: string)
    ensures Factory(key) == Some(GenreSorter) <==> key == "genre"
    ensures Factory(key) == Some(MoodSorter) <==> key == "mood"
    ensures Factory(key) == Some(AISorter) <==> key == "AI"
  {
  }

  /** Keys are compared exactly: 'ai' or 'Genre' yield nothing, and no error is raised. */
  lemma FactoryIsCaseSensitive()
    ensures Factory("ai") == None && Factory("Genre") == None && Factory("MOOD") == None
  {
  }

  /** The `_site` factory agrees with the full one on every key except 'AI', which it does not know. */
  lemma SiteFactoryLacksAI(key: string)
    ensures SiteFactory(key) == if key == "AI" then None else Factory(key)
  {
  }

  /** What `getDisplayText(track)` shows; the numbers are shown as they are, not formatted. */
  datatype DisplayText =
    | RetrievingGenres | NoGenresFound | GenresText(genres: seq<string>)
    | RetrievingAudioFeatures | MoodText(energy: real, valence: real)
    | RetrievingData | FeaturesText(energy: real, valence: real, firstGenres: seq<string>)

  /** The first three genres, `genres.slice(0, 3)`. */
  function FirstThree(genres: seq<string>): (r: seq<string>)
    ensures |r| <= 3 && r <= genres
    ensures |genres| <= 3 ==> r == genres
  {
    if |genres| <= 3 then genres else genres[..3]
  }

  /** `GenreSort`, `MoodSort` and `AISort`'s `getDisplayText` for a track in the state `t`. */
  function DisplayTextFor(sorter: Sorter, t: Snapshot): (r: DisplayText)
    ensures sorter.GenreSorter? ==> (r == RetrievingGenres <==> t.genres.None?)
    ensures sorter.GenreSorter? ==> (r == NoGenresFound <==> t.genres == Some([]))
    ensures sorter.MoodSorter? ==> (r == RetrievingAudioFeatures <==> t.audioFeatures.None?)
    ensures sorter.AISorter? ==> (r == RetrievingData <==> t.genres.None? || t.audioFeatures.None?)
    ensures r.FeaturesText? ==> |r.firstGenres| <= 3
  {
    match sorter
    case GenreSorter =>
      if t.genres.None? then RetrievingGenres
      else if |t.genres.value| == 0 then NoGenresFound
      else GenresText(t.genres.value)
    case MoodSorter =>
      if t.audioFeatures.None? then RetrievingAudioFeatures
      else MoodText(t.audioFeatures.value.energy, t.audioFeatures.value.valence)
    case AISorter =>
      if t.genres.None? || t.audioFeatures.None? then RetrievingData
      else FeaturesText(t.audioFeatures.value.energy, t.audioFeatures.value.valence, FirstThree(t.genres.value))
  }
}

# Flow: a verified model of the playlist reordering engine

Flow reorders a Spotify playlist. A `TrackList` is built from the playlist's items and keeps the tracks
that are not local files. Each track is enriched with genres (Spotify and MusicBrainz), audio features
(energy and valence) or a vector embedding. Then one of three sorters returns a new order, and the
page collects the ids of that order to save a new playlist in batches of 100.

This project models that engine in Dafny and proves its properties:

- `Greedy`: the greedy insertion sequencer that `GenreSort` and `AISort` share.
  - It picks the least similar seed pair (first in row-major order, skipping self-pairs and ineligible tracks).
  - It extends the seed with every track at that minimum with all current seed members.
  - It then repeatedly inserts the pool track with the best average similarity between the least
    similar adjacent pair. Artist separation applies, with a retry without it, and index 0 as the last fallback.
  - Ties go to the first adjacent pair and the first candidate. The ghost function `GrowOrder` states the
    whole run pass by pass, and the growth loop, both sorters, `TrackList.sort` and the awaited submit
    are proved to produce exactly that order.
  - The pool is `data` with the seed spliced out by `findIndex`/`splice`. A seed track found twice makes
    `findIndex` return -1, and `splice(-1, 1)` then drops the pool's last track; the model keeps this.
  - Tracks are identified by their position in the list (the source compares them with `===`).
  - A run either returns an order or throws. It throws when the seed has one track and the pool is not
    empty: the growth loop then reads an undefined neighbour.
- `GenreSort`: the metric is the number of shared genres in the `genresHidden` lists, and tracks without
  genres are skipped by the pair search; in the extension pass they join the seed whenever the
  minimum is 0.
- `AISort`: the metric is the cosine similarity of the embeddings, over the common prefix. The sums are
  computed by a loop; the final `sqrt` and division are a parameter `finish`.
- `MoodSort`, in five stages:
  - a stable valence sort of the caller's array, in place;
  - the `indexOf(t) % Math.round(n/30)` interleave;
  - chunks of 30, sorted by valence in alternating directions;
  - greedy valence bands with a running `baseValence`;
  - each band sorted by energy in alternating directions, then everything flattened.
  - `Array.prototype.sort` is modelled as the stable sort ECMA-262 requires
    (section 23.1.3.30.1, SortIndexedProperties). A comparator returning `NaN` counts as 0
    (section 23.1.3.30.2, CompareArrayElements).
- `Tracks`: the `Track` class, including:
  - `deduplicate` (first occurrences, in order);
  - the genre part of `retrieveGenres`: `genres` is the deduplicated concatenation, and `genresHidden` the
    deduplicated genres and their words;
  - the MusicBrainz tag extraction.
- `TrackLists`: the `TrackList` class:
  - the constructor's filter of non-local items;
  - `retrieveData`'s track numbers;
  - `getDisplayText` delegation;
  - `sort`, which replaces `data` with the sorter's result.

  What the sorter leaves in the array it was handed is kept as well. It is emptied by the greedy sorts
  and valence-sorted by the mood sort.
- `Sorters`: the three `SortFactory` copies, and each sorter's `getDisplayText` cases.
- `App`: the page logic of `app.js` and `src/app.js`:
  - the playlist-URI check;
  - the `spotify:track:` mapping;
  - the batches of 100;
  - the submit flow, with and without `await` on `trackList.sort`.

JavaScript's `undefined`/`null` attributes are `Option` values. Numbers are unbounded integers and exact
reals. `separate_artists` is the string value of a page element, used as a condition (`Truthy`).

Three behaviours of the code that a reader might not expect, and that the model keeps:
- The greedy sorters do not always return a permutation: they throw when fewer than two different
  tracks can form a pair, and a duplicated seed track makes them drop a track.
- An unknown sorter key gives `undefined`, not an error.
- The mood sort always runs both the coarse phase and the interleave; neither is optional.

The cosine similarity of a zero vector divides by zero in the code and is NaN, not 0. The model leaves
that case to the parameter `finish`, which yields a real number: NaN is not modelled.

## Model

| member | source | states |
|---|---|---|
| Seqs.IndexOf | src/classes/MoodSort.js:20 | `indexOf` is -1 exactly when the track is absent, and otherwise the position of its first occurrence |
| Seqs.RemoveAtMultiset | classes/GenreSort.js:40 | `splice(i, 1)` removes exactly the element at `i` and keeps the rest |
| Seqs.SortBySorted | src/classes/MoodSort.js:13-15 | the sort's result is ordered by the comparator's key |
| Seqs.SortByStable | classes/MoodSort.js:4-6 | the sort is stable: the tracks of any one key keep their relative order |
| Seqs.SortByConstantKey | classes/MoodSort.js:9-12 | a comparator that always counts as 0 leaves the order unchanged |
| Seqs.FlattenConcat | src/classes/MoodSort.js:46 | `flat()` of two runs of groups is the concatenation of their flattenings |
| Tracks.PrimaryArtist | classes/GenreSort.js:188-190 | `artistIds[0]` is defined exactly when there is an artist, and is then the first id |
| Tracks.Track.constructor | classes/Track.js:11-33 | every field is the argument given, `genres` and `audioFeatures` default to null, and `genresHidden` and `embedding` start undefined |
| Tracks.Track.ApplyGenres | classes/Track.js:39-58 | `genres` becomes the deduplicated Spotify-then-MusicBrainz genres, and `genresHidden` their expansion |
| Tracks.Deduplicate | classes/Track.js:89-97 | the loop returns the first-occurrence list, which has no duplicates and exactly the input's elements |
| Tracks.DedupSameElements | classes/Track.js:89-97 | an element is in the deduplicated list iff it is in the input |
| Tracks.DedupDistinct | classes/Track.js:89-97 | the deduplicated list has no duplicates |
| Tracks.DedupOfDistinct | classes/Track.js:91-95 | a list without duplicates is returned unchanged |
| Tracks.DedupIdempotent | classes/Track.js:89-97 | deduplicating twice equals deduplicating once |
| Tracks.DedupKeepsFirstOccurrences | classes/Track.js:91-95 | the kept elements appear in the order of their first occurrences in the input |
| Tracks.Split | classes/Track.js:55 | `split(' ')` yields at least one piece |
| Tracks.JoinSplit | classes/Track.js:55 | joining the pieces of `split(' ')` with the separator gives back the genre |
| Tracks.SplitPiecesLackSeparator | classes/Track.js:55 | no piece of `split(' ')` contains a space |
| Tracks.SplitWord | classes/Track.js:55 | a genre without spaces splits into itself alone |
| Tracks.ExpansionElements | classes/Track.js:52-56 | the pushed list holds every genre and every word of every genre, and nothing else |
| Tracks.ExpandGenresContents | classes/Track.js:52-57 | `genresHidden` holds every genre and each of its words, nothing else, and no duplicates ("jazz fusion" gives "jazz") |
| Tracks.ExpandGenresIdempotent | classes/Track.js:52-57 | expanding an expanded list adds no element |
| Tracks.MusicBrainzTags | classes/Track.js:160-172 | the loop returns the tag names of the recordings, in order |
| Tracks.TagNamesAppend | classes/Track.js:163-169 | the tag names of two runs of recordings are the concatenation of each run's |
| Tracks.UntaggedRecordingAddsNothing | classes/Track.js:164 | a recording whose `tags` is undefined contributes nothing |
| Greedy.LeastSimilarConsecutive | classes/GenreSort.js:139-160 | undefined exactly for fewer than two tracks; otherwise the first adjacent pair of minimal similarity |
| Greedy.LeastPairUnique | classes/GenreSort.js:154-157 | the strict `<` makes the first adjacent pair of minimal similarity unique |
| Greedy.LeastPair | classes/GenreSort.js:139-160 | for two or more tracks a first least similar adjacent pair exists |
| Greedy.MedianSimilarTrack | classes/GenreSort.js:171-215 | the first allowed candidate with the greatest average above 0; failing that, the same without separation; failing that, 0; always a valid index into a non-empty pool |
| Greedy.RelaxedKeepsCandidates | classes/GenreSort.js:200-213 | if no candidate qualifies without separation, none qualifies with it, so the retry falls through to 0 |
| Greedy.BestCandidateUnique | classes/GenreSort.js:194-197 | the strict `>` makes the first candidate with the greatest average unique |
| Greedy.MedianChoiceUnique | classes/GenreSort.js:171-215 | the choice of the separated pass, the relaxed retry and the fallback 0 is unique |
| Greedy.MedianChoice | classes/GenreSort.js:171-215 | for a non-empty pool the choice exists |
| Greedy.LeastSimilarTracks | classes/GenreSort.js:91-131 | the result is the seed: the first minimal eligible pair in row-major order, extended in data order with every track at the minimum with all members so far; just `data[0]` when no eligible pair exists |
| Greedy.ScanRow | classes/GenreSort.js:100-114 | after the inner loop over row `i`, the kept pair is the first minimal eligible pair among all pairs visited up to the end of that row |
| Greedy.ExtendPass | classes/GenreSort.js:119-128 | the extension loop appends, in data order, each track at the minimum similarity with every current seed member |
| Greedy.RemoveTrack | classes/GenreSort.js:17-20 | `findIndex` then `splice` removes one track, and the last one when the track is absent |
| Greedy.SpliceOutSeed | classes/GenreSort.js:16-20 | the loop leaves the pool with each seed entry spliced out in turn |
| Greedy.Grow | classes/GenreSort.js:25-41 | the growth loop gives exactly the growth order: each pass inserts, right after the first least similar adjacent pair's first track, the pool track of the median choice; it throws iff the seed has one track and the pool is not empty; otherwise the order holds the seed and the pool, keeps the seed's first and last track at the ends, and is the seed when the pool is empty |
| Greedy.InsertBetween | classes/GenreSort.js:26-40 | for the first least similar pair `k`, the track spliced out of the pool is the median choice (best allowed average above 0, else best average above 0, else index 0) and is spliced in at `k + 1`; this is one pass of the growth order; nothing is lost and the ends stay put |
| Greedy.GrowStep | classes/GenreSort.js:26-40 | any least pair and median choice the loop finds are the ones one pass of the growth order uses |
| Greedy.GrowNextKeeps | classes/GenreSort.js:39-40 | one pass keeps the tracks of order and pool together and the ends of the order |
| Greedy.GrowOrderKeeps | classes/GenreSort.js:25-41 | the growth order throws iff the order has fewer than two tracks and the pool is not empty, holds the order and the pool, and keeps the ends |
| Greedy.Sorted | classes/GenreSort.js:11-44 | seed, splice-out and growth: the growth order of the seed and the pool that remains; crash iff one-track seed and a non-empty pool; every ordered track comes from `data`; a permutation of `data` when tracks are distinct and no track ties with itself |
| Greedy.SortsToUnique | classes/GenreSort.js:11-44 | the sorted order is determined by the data, the metric and the separation flag |
| Greedy.SeparationDecides | classes/GenreSort.js:186-197 | artist separation can change the order: seed `[a, b]` and pool `[c, d]`, where `c` shares `a`'s primary artist and matches best, give `[a, c, d, b]` without separation and `[a, d, c, b]` with it |
| Greedy.InsertMovesOne | classes/GenreSort.js:39-40 | one growth step moves one track from the pool into the order, between the ends |
| Greedy.OrderFromSeedAndPool | classes/AISort.js:16-41 | an order made of the seed and the pool contains only tracks of `data`, and all of them when the seed has no repeats |
| Greedy.ExtendSeedWithin | classes/GenreSort.js:119-128 | extension only appends tracks of `data` and keeps the pair at the front |
| Greedy.SeedWithinData | classes/AISort.js:80-117 | every seed track is a track of `data` |
| Greedy.RemoveTrackWithin | classes/AISort.js:17-20 | a splice never adds a track |
| Greedy.RemovedWithinData | classes/AISort.js:16-20 | the pool left after the seed is spliced out is part of `data` |
| Greedy.ExtendSeedStuck | classes/GenreSort.js:92 | with the minimum still Infinity, no track passes the extension test |
| Greedy.NoPairSeed | classes/GenreSort.js:96-128 | with no eligible pair, the seed is `data[0]` alone, or empty for empty data |
| Greedy.CrashIffNoPair | classes/GenreSort.js:25-31 | the loop throws exactly when there are two or more tracks and no eligible pair |
| Greedy.FirstMinPairUnique | classes/AISort.js:80-100 | the first minimal pair in row-major order is unique |
| Greedy.SeedUnique | classes/AISort.js:80-117 | the seed is determined by the data and the metric |
| Greedy.ExtendSeedDistinct | classes/AISort.js:105-114 | when no track ties with itself at the minimum, extension adds no repeats |
| Greedy.RemoveDistinctSeeds | classes/GenreSort.js:17-20 | splicing out a seed without repeats leaves exactly the other tracks |
| Greedy.SeedAndPoolPartitionData | classes/GenreSort.js:16-20 | for distinct tracks that do not tie with themselves, the seed and the pool partition `data` |
| GenreSort.SharedGenres | classes/GenreSort.js:78-80 | the filter keeps exactly the hidden genres of the first track that the second also has |
| GenreSort.NumSharedGenres | classes/GenreSort.js:77-83 | the count lies between 0 and the first list's length, and is 0 iff the lists are disjoint |
| GenreSort.NumSharedWithSelf | classes/GenreSort.js:77-83 | a track shares all of its hidden genres with itself |
| GenreSort.SharedWithSuperset | classes/GenreSort.js:78-80 | against a list holding every element, the filter keeps everything |
| GenreSort.SharedDistinct | classes/GenreSort.js:78-80 | filtering a list without duplicates keeps it without duplicates |
| GenreSort.NumSharedSymmetric | classes/GenreSort.js:77-83 | for deduplicated lists the count is symmetric |
| GenreSort.Sorted | classes/GenreSort.js:11-44 | the greedy order for the shared-genre metric; throws iff there are two or more tracks and fewer than two different tracks have genres; otherwise an order of tracks from `data`, and a permutation of `data` when some two tagged tracks share no genre |
| GenreSort.NoValidPairIffAtMostOneTagged | classes/GenreSort.js:96-104 | the seed search finds no pair iff at most one distinct track has genres |
| GenreSort.DisjointPairSelfDistinct | classes/GenreSort.js:119-128 | when two tagged tracks share no genre the minimum is 0, and no tagged track can rejoin the seed |
| GenreSort.DuplicateSeed | classes/GenreSort.js:119-128 | two tracks tagged only with the same genre (say "rock") and one untagged track give the seed `[a, b, a, b]`, and splicing it out empties the pool |
| GenreSort.TwoTaggedOneUntaggedIsExpanded | classes/Track.js:52-57 | in that playlist `genresHidden` is what the expansion gives for a one-word genre, so the example can arise |
| GenreSort.DuplicateSeedExample | classes/GenreSort.js:11-44 | that playlist is sorted to `[a, b, a, b]`: the untagged track is lost and two are doubled |
| AISort.MagnitudesNonNegative | classes/AISort.js:215-219 | both squared magnitudes are non-negative |
| AISort.CosineSums | classes/AISort.js:211-219 | the loop's sums run over the first `min(len1, len2)` components |
| AISort.SumsSwap | classes/AISort.js:215-219 | swapping the two embeddings swaps the magnitudes and keeps the dot product |
| AISort.SumsIgnoreTail | classes/AISort.js:215 | components beyond the shorter embedding are never read |
| AISort.CosineSymmetric | classes/AISort.js:211-224 | the similarity is symmetric in its two tracks |
| AISort.CosineReadsCommonPrefix | classes/AISort.js:215 | extending the longer embedding does not change the similarity |
| AISort.Sorted | classes/AISort.js:11-44 | for real-valued similarities: the greedy order for the cosine metric; throws iff there are two or more entries all of the same track; always an order for two or more distinct tracks; a permutation when no track ties with itself at the seed minimum |
| AISort.NoValidPairIffAllSame | classes/AISort.js:80-100 | the seed search finds no pair iff every entry is the same track |
| MoodSort.NumGroups | src/classes/MoodSort.js:19 | `Math.round(n / 30)`: the nearest whole number, halves rounded up |
| MoodSort.InterleaveShortIsIdentity | src/classes/MoodSort.js:18-21 | under 45 tracks there are at most one group and the interleave keeps the order (for n < 15 the comparator is NaN) |
| MoodSort.InterleaveOrder | classes/MoodSort.js:9-13 | the interleave is a permutation ordered by position modulo the group count, stable within each residue |
| MoodSort.Chunks | src/classes/MoodSort.js:25-33 | the number of chunks is `ceil(n / 30)`, and 1 for no tracks |
| MoodSort.Chunk | classes/MoodSort.js:16-25 | the `push` loop builds exactly the consecutive chunks of 30 |
| MoodSort.ChunksPush | classes/MoodSort.js:17-25 | pushing a track extends the last chunk when it has fewer than 30 tracks, and otherwise opens a new chunk |
| MoodSort.ChunksFlatten | src/classes/MoodSort.js:25-34 | flattening the chunks gives back the tracks in order |
| MoodSort.ChunkSizes | classes/MoodSort.js:16-24 | every chunk but the last has 30 tracks; the last has 1 to 30; no tracks give one empty chunk |
| MoodSort.SortGroups | src/classes/MoodSort.js:37-45 | the loop sorts group `k` in the direction of `k`'s parity |
| MoodSort.ZigZagSorts | classes/MoodSort.js:28-36 | each group is permuted, ascending when even, descending when odd, stable per key; the flattening is a permutation |
| MoodSort.ValenceBands | src/classes/MoodSort.js:50-76 | the loop with its running `baseValence` builds exactly the greedy bands |
| MoodSort.PlaceTrack | classes/MoodSort.js:43-67 | one pass places the track exactly as the band step does and keeps `baseValence` the valence of the last band's first track |
| MoodSort.NewBandCondition | src/classes/MoodSort.js:66-70 | the source's new-band test holds iff the track cannot join the last band |
| MoodSort.PlaceKeepsBase | classes/MoodSort.js:57-66 | after each step `baseValence` is the valence of the last band's first track |
| MoodSort.BandsOfIsBanding | classes/MoodSort.js:41-67 | the bands are non-empty consecutive runs of the input; members are within 0.1 above the band's first; with separation, no two members share a primary artist; a band ends only where the next track could not join |
| MoodSort.NewBandKeepsBanding | classes/MoodSort.js:61-63 | starting a band for a track that cannot join keeps those band properties |
| MoodSort.PushKeepsBanding | src/classes/MoodSort.js:73-75 | appending a track that may join keeps them, including distinct artists |
| MoodSort.Sorted | src/classes/MoodSort.js:11-92 | the caller's array ends sorted by valence and permuted; the result is the pipeline's order and a permutation of the input |
| MoodSort.MoodOrderIsPermutation | classes/MoodSort.js:2-83 | every stage only reorders or regroups, so the result is a permutation of the input |
| MoodSort.MoodOrderBands | src/classes/MoodSort.js:78-91 | the result is the valence bands of the sorted chunks, each sorted by energy in alternating directions, flattened |
| Sorters.Factory | src/classes/SortFactory.js:11-23 | a sorter exactly for 'genre', 'mood' and 'AI', `undefined` for any other key |
| Sorters.FactoryDispatch | classes/SortFactory.js:4-17 | each key yields its own sorter, and only it does |
| Sorters.FactoryIsCaseSensitive | src/classes/SortFactory.js:12-22 | 'ai', 'Genre' and 'MOOD' yield `undefined` |
| Sorters.SiteFactory | _site/classes/SortFactory.js:4-13 | a sorter exactly for 'genre' and 'mood' |
| Sorters.SiteFactoryLacksAI | _site/classes/SortFactory.js:4-13 | agrees with the full factory except that 'AI' yields `undefined` |
| Sorters.FirstThree | classes/AISort.js:68 | `slice(0, 3)` is a prefix of at most three genres, and everything when there are at most three |
| Sorters.DisplayTextFor | classes/GenreSort.js:59-67 | "Retrieving genres..." iff genres are null; "No genres found." iff empty; likewise for the mood and AI sorters |
| TrackLists.NonLocal | src/classes/TrackList.js:10-28 | filtering never yields more tracks than items |
| TrackLists.NonLocalAppend | src/classes/TrackList.js:10-28 | the filter keeps input order: it distributes over concatenation |
| TrackLists.NonLocalSingle | classes/TrackList.js:7-25 | a local item contributes nothing, any other item its track |
| TrackLists.NonLocalLength | classes/TrackList.js:7-27 | the number of tracks equals the number of non-local items |
| TrackLists.ArtistIds | src/classes/TrackList.js:20-22 | `artistIds` lists the artists' ids in order |
| TrackLists.ArtistNames | classes/TrackList.js:12-14 | `artistNames` lists the artists' names in order |
| TrackLists.PrimaryArtistIsFirstListed | src/classes/TrackList.js:20-22 | `artistIds[0]` is the first-listed artist's id |
| TrackLists.RunSorter | src/classes/TrackList.js:55 | dispatch to the chosen sorter: the chosen sorter's own result (the greedy order for genre and AI, the mood order for mood); the mood order and valence-sorted array, the genre crash condition and permutation, AI always an order |
| TrackLists.SorterGivesUnique | src/classes/TrackList.js:54-56 | each sorter's result is determined by the tracks, the flag and the similarity |
| TrackLists.SelectPermutation | src/classes/TrackList.js:55 | replacing the tracks by an order that is a permutation of their positions permutes the tracks |
| TrackLists.Rearranged | src/classes/TrackList.js:55 | such a rearrangement keeps the tracks, and keeps them distinct |
| TrackLists.TrackList.constructor | src/classes/TrackList.js:7-31 | one new track per non-local item, in order, with the item's fields and no genres or audio features |
| TrackLists.TrackList.RetrieveData | classes/TrackList.js:30-37 | the track numbers 0, 1, … n-1 are reported once each, in order |
| TrackLists.TrackList.GetDisplayText | src/classes/TrackList.js:64-66 | the sorter's display text for track `trackNum` |
| TrackLists.TrackList.Sort | src/classes/TrackList.js:54-56 | `data` becomes the chosen sorter's own result; when that is a permutation (always for mood) the tracks are kept and stay distinct; `data` becomes the sorter's order (the spliced array when it throws); the array handed over is left emptied (greedy) or valence-sorted (mood); throws iff the genre sort's condition holds |
| App.PlaylistIdFromUri | src/app.js:18-24 | "Invalid URI" iff the trimmed input lacks `spotify:playlist:`; otherwise prefix followed by the result is the trimmed input |
| App.PlaylistIdIgnoresSurroundingWhitespace | app.js:20 | whitespace around the input does not change the result |
| App.PlaylistIdOfUri | app.js:19-25 | the URI built from an id gives the id back, trailing whitespace trimmed |
| App.TrackUris | src/app.js:123-125 | one `spotify:track:` URI per track, same length and order |
| App.TrackUrisInverse | app.js:90-92 | stripping the prefix from each URI gives back the track ids |
| App.SaveBatches | src/app.js:169-171 | the batches are `ceil(n / 100)` slices of 1 to 100 ids, all but the last full, and their concatenation is the id list |
| App.SubmitAwaited | src/app.js:113-125 | the list becomes the chosen sorter's own result; with the rendering in between taken to return normally, no ids iff the sorter throws; otherwise the ids of the sorted list; for the mood sort and for a genre sort with a disjoint pair the list keeps all its tracks, distinct |
| App.SubmitUnawaited | app.js:83-92 | the ids are read from the array the sorter emptied: none for a genre or AI sort that does not throw, and the merely valence-sorted tracks for the mood sort |
| App.TaggedPair | classes/TrackList.js:7-25 | two tracks built from playlist items and then tagged with two different one-word genres are distinct, ready for the genre sort, and share no genre |
| App.UnawaitedGenreSortSavesNothing | app.js:85-92 | for a "rock" and a "jazz" track, awaiting collects two ids and not awaiting collects none |

## Left out

- Network enrichment: the fetches in `retrieveGenres`, `retrieveAudioFeatures` and `retrieveEmbedding` are I/O
  and timers. `Track.ApplyGenres` takes the Spotify and MusicBrainz genres as arguments instead.
- Cosine arithmetic: `Math.sqrt` and the division are floating point, and NaN for a zero vector. `AISort` takes
  them as the parameter `finish`, applied to the loop's sums.
- Floating point: valence, energy and similarities are exact reals, so the 0.1 band width is exact.
- `retrieveData` of each sorter performs network calls. `TrackList.RetrieveData` models only the track
  numbers reported to `onDataUpdate`. The display texts keep numbers as numbers instead of formatting them.
- The DOM, pagination, image upload, `PlaylistDisplay`, `Graph`, `EmbeddingExtractor` and `APISingleton`
  are rendering or library wrappers. `authorize.js` (PKCE, section 4.2 of RFC 7636) and `callback.js`
  (section 4.1.3 of RFC 6749) rely on randomness, `crypto.subtle` and `fetch`.
- Promises: `sorted` awaits nothing and runs synchronously. The only asynchrony modelled is whether
  `trackList.sort` is awaited before `finalTrackIds` is read.
- App.SubmitAwaited: the rendering between the sort and the id collection, `displayNewTracks` and `displayGraph`
  at src/app.js:116-120, is assumed to return normally and is skipped. The model does not decide whether it
  can throw. src/app.js:117 hands `displayNewTracks` the sort's name `sortString`, where src/app.js:104 hands
  `displayOldTracks` the sort object, and src/classes/TrackList.js:65 calls `getDisplayText` on what it is
  given. The `PlaylistDisplay` that src/app.js uses is not part of this model, so whether that call reaches
  a string is not known.
- App.SubmitUnawaited: does not state which ids are collected when the genre sort throws (then the tracks
  other than the first), because the crash is not reported to the caller.
- GenreSort.Sorted: the permutation is stated only when two tagged tracks share no genre. Otherwise a track can
  tie with itself at the seed minimum and be seeded twice (see `GenreSort.DuplicateSeed`).
- AISort.Sorted: the permutation is stated only when no track's similarity with itself equals a seed
  minimum. The similarity is left uninterpreted, so nothing else excludes such a tie. "Always an order
  for two or more distinct tracks" and "throws only when all entries are one track" hold only for
  real-valued similarities. When every similarity is NaN (all embeddings zero or empty), every comparison
  fails, the seed is `data[0]` alone, and the code throws.
- TrackLists.TrackList.Sort: inherits the same conditions on the genre permutation and leaves out the AI one.

## Findings

| source | as written | input that shows it | evidently intended | confidence | as-written member | corrected member |
|---|---|---|---|---|---|---|
| app.js:85-92 | `trackList.sort(sort, separate_artists)` is not awaited, so `finalTrackIds` is read before `trackList.data` is replaced. It is read from the array the greedy sorters emptied with `splice`. | genre sort of two tracks, one tagged "rock", the other "jazz": no ids are collected and the saved playlist is empty | await the sort before collecting the ids, the shape src/app.js:115-123 takes, and collect the ids of the sorted list (the rendering in between, src/app.js:116-120, is not modelled; see "## Left out") | high; not executed | App.SubmitUnawaited, App.UnawaitedGenreSortSavesNothing | App.SubmitAwaited |

# Playlist manager — a verified Dafny model

This project models the in-memory playlist manager of
`Caden_PlaylistManager.js`. The manager keeps a fixed catalog of four
songs, each with a title, an artist and a list of genre tags. It builds a
genre index from that catalog once, at load time, and keeps a store of
named playlists. It offers eight operations: search the catalog; create,
rename, view and delete a playlist; add a catalog song to a playlist and
remove it; and recommend songs that share a genre with a playlist.

Layout (one module per file):

- `text.dfy` (`Text`): the string primitives the source relies on. These
  are `trim()` (blank-name detection), `toLowerCase()` and `includes()`.
- `seqs.dfy` (`Seqs`): `find`/`findIndex`/`some` over sequences, and `Option`.
- `songs.dfy` (`Songs`): the catalog and catalog lookup. It also holds the
  genre index, both as a value (`GenreIndex`) and as the nested loops that
  build it (`BuildGenreIndex`).
- `outcomes.dfy` (`Outcomes`): what an operation reports.
  - An error carries the three arguments of `errorMessage`: the kind
    (`Playlist`/`Song`), the offending name and the reason.
  - "No results" is its own outcome, distinct from an error.
- `store.dfy` (`Store`): each operation on the playlist store as a function.
  It maps the store before to the status it reports and the store after.
- `store_properties.dfy` (`StoreProperties`): the store invariant, and that
  every operation keeps it. Also the round trips between operations.
- `search.dfy` (`SongSearch`): `searchSongs`.
- `recommend.dfy` (`Recommender`): `recommendSongs`, as the recursive
  function `Recommendations` and as the loops that run it.
- `manager.dfy` (`Manager`): the class `PlaylistManager`.
  - Its `playlists` field is updated in place by the mutating operations.
  - Each state-changing method is proved equal to the matching `Store`
    function, and `RecommendSongs` to `Recommender.Recommend`.
  - Each method keeps the invariant `Valid()`.
- `scenarios.dfy` (`Scenarios`): lemmas about concrete inputs over the real
  catalog, derived from the general lemmas.

The store invariant (`Store.Inv`) has three parts:

- playlist names are unique and not blank;
- no playlist holds two entries with the same title and artist;
- playlists hold only catalog songs.

Three details of the code the model keeps:

- `editPlaylist` reports a missing `oldName` before a blank `newName`
  (`Store.Rename`).
- `recommendSongs` leaves out a bucket song when the playlist already holds
  a song with the same *title*. The artist is not compared
  (`Recommender.UnheardMembers`).
- `recommendSongs` does not remove repeats. A song that carries two of the
  playlist's genres is recommended twice (`Recommender.RecommendCount`,
  `Scenarios.RecommendRepeats`).

## Model

| member | source | states |
|---|---|---|
| Text.Trim | Caden_PlaylistManager.js:99 | `name.trim()` is empty exactly when every character of the name is ECMAScript whitespace; otherwise neither end of the result is whitespace |
| Seqs.FirstIndex | Caden_PlaylistManager.js:36 | `find`/`findIndex`: the index found holds the predicate and no earlier index does; none is found exactly when no element satisfies it |
| Songs.CatalogLookup | Caden_PlaylistManager.js:177 | the song found is a catalog song with exactly that title and artist; none is found exactly when no catalog song has both |
| Songs.BuildGenreIndex | Caden_PlaylistManager.js:53-61 | the nested push loops leave exactly the genre index of the catalog: one key per genre carried, each bucket in catalog order with a song once per occurrence of the genre in its tags |
| Songs.PushSong | Caden_PlaylistManager.js:54-60 | the inner loop pushes one song into the bucket of each of its genres, creating missing buckets, so each bucket gains the song once per occurrence of its genre |
| Songs.GenresOfMembers | Caden_PlaylistManager.js:53-61 | a genre is a key of the index exactly when some catalog song carries it |
| Songs.BucketMembers | Caden_PlaylistManager.js:53-61 | a song is in a genre's bucket exactly when it is a catalog song carrying that genre |
| Songs.BucketCount | Caden_PlaylistManager.js:53-61 | in a catalog without repeated songs or tags, a song sits in the bucket of each of its genres exactly once |
| Songs.CatalogDistinct | Caden_PlaylistManager.js:4-25 | the catalog repeats no song and no song repeats a genre tag |
| Store.Lookup | Caden_PlaylistManager.js:35-37 | `playlistExist` finds a playlist exactly when one has that exact name, and it finds the first one |
| Store.SongIndex | Caden_PlaylistManager.js:206 | the entry found has that title and artist and no earlier entry does; none is found exactly when no entry matches |
| Store.Create | Caden_PlaylistManager.js:98-111 | a blank name is refused as not allowed, checked first; then an existing exact name is refused as already existing; either way the store is unchanged; otherwise one empty playlist with the untrimmed name is appended |
| Store.Rename | Caden_PlaylistManager.js:120-138 | errors in source order (old name missing, new name blank, new name held by another playlist), store unchanged on error; success exactly when the old name exists, the new name is not blank and is the old name or unused; success replaces only the found playlist's name, at its position |
| Store.View | Caden_PlaylistManager.js:146-161 | a missing playlist is a not-found error; an empty one is the distinct "empty" outcome; otherwise its songs in insertion order |
| Store.AddSong | Caden_PlaylistManager.js:171-190 | errors in source order (playlist missing, no catalog song with that title and artist, pair already held), store unchanged on error; success exactly when none applies, appending the catalog song to that playlist only |
| Store.RemoveSong | Caden_PlaylistManager.js:200-215 | a missing playlist or a missing (title, artist) entry is an error with the store unchanged; otherwise exactly the first matching entry is spliced out of that playlist only |
| Store.Delete | Caden_PlaylistManager.js:223-233 | a missing playlist is a not-found error with the store unchanged; otherwise exactly the first playlist with that name is spliced out and the rest keep their order |
| StoreProperties.CreatePreservesInv | Caden_PlaylistManager.js:98-111 | create keeps the store invariant (unique, non-blank names; no repeated song; catalog songs only) |
| StoreProperties.AppendKeepsInv | Caden_PlaylistManager.js:108 | pushing a well-formed playlist whose name is unused keeps the store invariant |
| StoreProperties.CreateThenViewAndCreate | Caden_PlaylistManager.js:98-111 | after a successful create, viewing the name gives the "empty" outcome and creating it again is refused as already existing |
| StoreProperties.RenamePreservesInv | Caden_PlaylistManager.js:120-138 | rename keeps the store invariant, in particular name uniqueness |
| StoreProperties.ReplaceKeepsInv | Caden_PlaylistManager.js:135 | updating playlist `k` in place to a well-formed one whose name no other playlist holds keeps the store invariant |
| StoreProperties.RenameToSelf | Caden_PlaylistManager.js:130-136 | renaming an existing playlist to its own name succeeds and leaves the store as it was |
| StoreProperties.AddSongPreservesInv | Caden_PlaylistManager.js:171-190 | add keeps the store invariant, in particular no (title, artist) pair twice in a playlist |
| StoreProperties.AppendWellFormed | Caden_PlaylistManager.js:187 | pushing a catalog song whose (title, artist) pair the playlist lacks keeps the playlist well formed |
| StoreProperties.AddThenRemove | Caden_PlaylistManager.js:171-215 | a successful add followed by the matching remove succeeds and gives back the store exactly as it was |
| StoreProperties.LookupKept | Caden_PlaylistManager.js:35-37 | replacing the found playlist by one with the same name does not move where that name is found |
| StoreProperties.AppendThenSplice | Caden_PlaylistManager.js:206-212 | in a song list without the pair, the appended entry is the first match and splicing it out restores the list |
| StoreProperties.SpliceWellFormed | Caden_PlaylistManager.js:212 | splicing one entry out of a well-formed playlist keeps it well formed |
| StoreProperties.RemoveSongPreservesInv | Caden_PlaylistManager.js:200-215 | remove keeps the store invariant |
| StoreProperties.DeletePreservesInv | Caden_PlaylistManager.js:223-233 | delete keeps the store invariant |
| StoreProperties.DeleteThenView | Caden_PlaylistManager.js:223-233 | under unique names, after a successful delete the name is gone and viewing it is a not-found error |
| SongSearch.MatchingSongs | Caden_PlaylistManager.js:72-79 | the filter keeps exactly the songs whose lower-cased title or artist includes the lower-cased query, and never more songs than it is given |
| SongSearch.Search | Caden_PlaylistManager.js:71-89 | search never fails; "no songs found" exactly when no catalog song matches; otherwise the matching catalog songs, which are not empty |
| SongSearch.MatchingSongsAppend | Caden_PlaylistManager.js:72-79 | filtering distributes over concatenation, so matches keep their catalog order |
| SongSearch.MatchesLower | Caden_PlaylistManager.js:73-78 | a song matches a query exactly when it matches the lower-cased query |
| SongSearch.MatchingSongsCaseInsensitive | Caden_PlaylistManager.js:72-79 | two queries with the same lower-casing select the same songs |
| SongSearch.SearchCaseInsensitive | Caden_PlaylistManager.js:71-89 | the search result depends on the query only through its lower-casing |
| SongSearch.SearchEmptyQuery | Caden_PlaylistManager.js:71-89 | the empty query lists the whole catalog in order |
| SongSearch.MatchingSongsAll | Caden_PlaylistManager.js:72-79 | when every song matches, the filter returns its input unchanged |
| Recommender.FlatGenres | Caden_PlaylistManager.js:247 | `flatMap` of the genre tags holds exactly the tags some playlist song carries |
| Recommender.Distinct | Caden_PlaylistManager.js:247 | iterating `new Set(...)` yields the same members without repeats |
| Recommender.DistinctOrder | Caden_PlaylistManager.js:247 | the iteration order of `new Set(...)` is insertion order: of two kept members, the one whose first occurrence comes earlier in the input comes earlier in the result |
| Recommender.UnheardMembers | Caden_PlaylistManager.js:255-259 | a bucket song is kept exactly when no playlist song has its title |
| Recommender.CollectRecommendations | Caden_PlaylistManager.js:250-262 | the outer loop over the playlist's genres leaves exactly `Recommendations(playlist, index, genres)`, genre by genre, in order |
| Recommender.PushUnheard | Caden_PlaylistManager.js:253-260 | the inner loop over one bucket appends exactly that bucket's unheard songs, in bucket order |
| Recommender.Recommend | Caden_PlaylistManager.js:241-273 | a missing playlist is the not-found error and only then an error; a listing that is not "no recommendations" is not empty |
| Recommender.RecommendationsMembers | Caden_PlaylistManager.js:252-262 | a song is recommended exactly when its title is new to the playlist and it is in the bucket of one of the visited genres |
| Recommender.CatalogBucket | Caden_PlaylistManager.js:253 | in the catalog's index a bucket holds exactly the catalog songs carrying its genre, each once |
| Recommender.RecommendMembers | Caden_PlaylistManager.js:241-273 | a song is recommended exactly when it is a catalog song, shares a genre with the playlist, and its title is not in the playlist |
| Recommender.RecommendEmpty | Caden_PlaylistManager.js:264-266 | "no recommendations" exactly when every catalog song that shares a genre has a title already in the playlist |
| Recommender.UnheardCount | Caden_PlaylistManager.js:255-259 | a song occurs in a bucket's unheard part as often as in the bucket when its title is new, and not at all otherwise |
| Recommender.RecommendationsCount | Caden_PlaylistManager.js:252-262 | a catalog song with a new title is pushed once per visited genre it carries |
| Recommender.RecommendCount | Caden_PlaylistManager.js:241-273 | no repeats are removed: a recommended song occurs once for every genre of the playlist it carries |
| Manager.PlaylistManager.constructor | Caden_PlaylistManager.js:53-61 | at load the store is empty and the genre index is the catalog's |
| Manager.PlaylistManager.CreatePlaylist | Caden_PlaylistManager.js:98-111 | reports and leaves the store as `Store.Create` says, keeping the invariant |
| Manager.PlaylistManager.EditPlaylist | Caden_PlaylistManager.js:120-138 | sets the name field in place as `Store.Rename` says, keeping the invariant |
| Manager.PlaylistManager.AddSongToPlaylist | Caden_PlaylistManager.js:171-190 | pushes onto the playlist as `Store.AddSong` says, keeping the invariant |
| Manager.PlaylistManager.RemoveSongFromPlaylist | Caden_PlaylistManager.js:200-215 | splices the playlist as `Store.RemoveSong` says, keeping the invariant |
| Manager.PlaylistManager.DeletePlaylist | Caden_PlaylistManager.js:223-233 | splices the store as `Store.Delete` says, keeping the invariant |
| Manager.PlaylistManager.RecommendSongs | Caden_PlaylistManager.js:241-273 | the loops over the built index return what `Recommender.Recommend` specifies over the catalog's genre index, so the Recommender lemmas apply to it |
| Scenarios.SearchEnemy | Caden_PlaylistManager.js:71-89 | "enemy" and "ENEMY" give the same results, and they include the song "Enemy" |
| Scenarios.HeardNotRecommended | Caden_PlaylistManager.js:255-259 | a playlist holding "Enemy" and "Perfect" is recommended neither of them |
| Scenarios.UnheardRecommended | Caden_PlaylistManager.js:252-262 | for that playlist "Heathens" comes back twice (Rock and Pop) and "Hymn for the Weekend" once (Alternative) |
| Scenarios.OutsiderNotRecommended | Caden_PlaylistManager.js:253-259 | a song outside the catalog is never recommended |
| Scenarios.CountForEnemyAndPerfect | Caden_PlaylistManager.js:241-273 | for the playlist "Enemy", "Perfect", every song occurs in the recommendations as often as in "Hymn for the Weekend" once and "Heathens" twice |
| Scenarios.RecommendRepeats | Caden_PlaylistManager.js:241-273 | for that playlist the recommendations are, as a multiset, "Hymn for the Weekend" once and "Heathens" twice |
| Scenarios.RecommendInOrder | Caden_PlaylistManager.js:241-273 | for that playlist the recommendations are exactly "Hymn for the Weekend", "Heathens", "Heathens": genres in first-met order, each bucket in catalog order |
| Scenarios.RecommendationsForEnemyAndPerfect | Caden_PlaylistManager.js:252-262 | over the buckets Alternative, Rock and Pop of the catalog, the loops push "Hymn for the Weekend", "Heathens", "Heathens" for a playlist holding "Enemy" and "Perfect" |
| Scenarios.RecommendationsOfThree | Caden_PlaylistManager.js:252-262 | visiting three genres appends the unheard songs of their three buckets, in genre order |
| Scenarios.UnheardPair | Caden_PlaylistManager.js:255-259 | of a two-song bucket, each song whose title the playlist lacks is kept, in bucket order |
| Scenarios.CatalogBuckets | Caden_PlaylistManager.js:52-61 | in the catalog's index the Alternative bucket is "Enemy", "Hymn for the Weekend"; Rock is "Enemy", "Heathens"; Pop is "Perfect", "Heathens" |
| Scenarios.CatalogBucketOf | Caden_PlaylistManager.js:52-61 | the bucket of any genre is the catalog songs carrying it, once each, in catalog order |
| Scenarios.BucketOfFour | Caden_PlaylistManager.js:54-61 | pushing each song of a four-song catalog once per genre it carries at most once gives those songs in catalog order |
| Scenarios.CreateThenAdd | Caden_PlaylistManager.js:98-111 | in an empty store, creating a non-blank name and adding "Enemy" by Imagine Dragons both succeed, leaving that one song |
| Scenarios.RecommendAfterEnemy | Caden_PlaylistManager.js:241-273 | a playlist holding only "Enemy" is recommended "Heathens", and neither "Enemy" nor "Perfect" |

## Left out

- `console.error` in `errorMessage` (Caden_PlaylistManager.js:48) is output only. The model keeps the kind, name and reason the message is built from.
- The result strings and their formatting are not modelled. These are the "Search Results:" header, the `- title by artist` lines joined by newlines, and the success messages. Operations return songs and outcomes instead. The one string an error carries for a song, `${title} by ${artist}`, is modelled by `Outcomes.SongLabel`.
- `app.js` is a driver with fixed calls and no logic of its own. It is not part of this model.
- Text.Lower: lower-cases the ASCII letters only. JavaScript's `toLowerCase` follows the full Unicode case mapping, which this model does not capture.
- Playlist records are values. The source mutates the record object that `playlistExist` returns. The model replaces the record at its index in `playlists`. No playlist object is ever handed out, so no aliasing is observable. The song objects shared between the catalog and the playlists are plain values too.
- `searchSongs` reads only the catalog and `viewPlaylist` only reads the store. They are the functions `SongSearch.Search` and `Store.View`, not methods of `PlaylistManager`.
- The module-level singleton and `module.exports` are packaging. They become the class `PlaylistManager` with a constructor.
- Scenarios.SearchEnemy: states that "Enemy" is among the results for "enemy", not that it is the only result. Ruling out the other catalog songs needs substring refutation on concrete strings, which is not proved here.

## Findings

No source defects were found.

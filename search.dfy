/** `searchSongs` (Caden_PlaylistManager.js, lines 71-89). */
module SongSearch {
  import opened Text
  import opened Songs
  import opened Outcomes

  /** The filter of `searchSongs`: the lower-cased query occurs in the
      lower-cased title or in the lower-cased artist. */
  predicate Matches(s: Song, query: string) {
    Includes(Lower(s.title), Lower(query)) || Includes(Lower(s.artist), Lower(query))
  }

  /** `songs.filter(song => Matches(song, query))`. */
  function MatchingSongs(songs: seq<Song>, query: string): (r: seq<Song>)
    ensures forall s :: s in r <==> s in songs && Matches(s, query)
    ensures |r| <= |songs|
  {
    if songs == [] then []
    else (if Matches(songs[0], query) then [songs[0]] else []) + MatchingSongs(songs[1..], query)
  }

  /** Search results in catalog order, or the distinct "no songs found"
      outcome; searching never fails. */
  function Search(query: string): (r: Listing)
    ensures !r.Failed?
    ensures r.NoneFound? <==> forall s :: s in CATALOG ==> !Matches(s, query)
    ensures r.Items? ==> r.songs == MatchingSongs(CATALOG, query) && r.songs != []
  {
    var results := MatchingSongs(CATALOG, query);
    if results == [] then NoneFound
    else assert results[0] in results; Items(results)
  }

  /** Filtering distributes over concatenation: the matches keep the relative
      order they have in the input. */
  lemma {:induction false} MatchingSongsAppend(a: seq<Song>, b: seq<Song>, query: string)
    ensures MatchingSongs(a + b, query) == MatchingSongs(a, query) + MatchingSongs(b, query)
  {
    if a != [] {
      MatchingSongsAppend(a[1..], b, query);
      assert (a + b)[0] == a[0] && (a + b)[1..] == a[1..] + b;
    } else {
      assert a + b == b;
    }
  }

  /** A song matches a query exactly as it matches the lower-cased query. */
  lemma MatchesLower(s: Song, query: string)
    ensures Matches(s, query) <==> Matches(s, Lower(query))
  {
    LowerIdempotent(query);
  }

  /** Queries with the same lower-casing select the same songs. */
  lemma {:induction false} MatchingSongsCaseInsensitive(songs: seq<Song>, q1: string, q2: string)
    requires Lower(q1) == Lower(q2)
    ensures MatchingSongs(songs, q1) == MatchingSongs(songs, q2)
  {
    if songs != [] {
      MatchingSongsCaseInsensitive(songs[1..], q1, q2);
    }
  }

  /** The search depends on the query only through its lower-casing. */
  lemma SearchCaseInsensitive(q1: string, q2: string)
    requires Lower(q1) == Lower(q2)
    ensures Search(q1) == Search(q2)
  {
    MatchingSongsCaseInsensitive(CATALOG, q1, q2);
  }

  /** The empty query is included in every title: it lists the whole catalog. */
  lemma SearchEmptyQuery()
    ensures Search("") == Items(CATALOG)
  {
    forall s | s in CATALOG ensures Matches(s, "") {
      assert OccursAt(Lower(s.title), Lower(""), 0);
    }
    MatchingSongsAll(CATALOG, "");
  }

  lemma {:induction false} MatchingSongsAll(songs: seq<Song>, query: string)
    requires forall s :: s in songs ==> Matches(s, query)
    ensures MatchingSongs(songs, query) == songs
  {
    if songs != [] {
      MatchingSongsAll(songs[1..], query);
    }
  }
}

/** The fixed song catalog and the genre index derived from it once at
    start-up (Caden_PlaylistManager.js, lines 4-25 and 52-61). */
module Songs {
  import opened Seqs

  /** A catalog entry; `genres` keeps the order (and any repetition) of the
      source's `genre` array. */
  datatype Song = Song(title: string, artist: string, genres: seq<string>)

  const CATALOG: seq<Song> := [
    Song("Enemy", "Imagine Dragons", ["Alternative", "Rock"]),
    Song("Perfect", "Ed Sheeran", ["Pop"]),
    Song("Heathens", "twenty one pilots", ["Pop", "Rock"]),
    Song("Hymn for the Weekend", "Coldplay", ["Alternative", "Indie"])
  ]

  /** The key songs are looked up by: exact title and exact artist. */
  predicate SameSong(s: Song, title: string, artist: string) {
    s.title == title && s.artist == artist
  }

  /** `songs.find(song => song.title === title && song.artist === artist)`:
      the first catalog song with that title and artist. */
  function CatalogLookup(title: string, artist: string): (r: Option<Song>)
    ensures r.Some? ==> r.value in CATALOG && SameSong(r.value, title, artist)
    ensures r.None? <==> forall s :: s in CATALOG ==> !SameSong(s, title, artist)
  {
    match FirstIndex(CATALOG, (s: Song) => SameSong(s, title, artist))
    case None => None
    case Some(k) => Some(CATALOG[k])
  }

  /** How often `g` occurs in a genre list. */
  function Occurrences(gs: seq<string>, g: string): nat {
    if gs == [] then 0
    else Occurrences(gs[..|gs| - 1], g) + (if gs[|gs| - 1] == g then 1 else 0)
  }

  function Repeat(s: Song, n: nat): (r: seq<Song>)
    ensures |r| == n && forall i :: 0 <= i < n ==> r[i] == s
  {
    seq(n, _ => s)
  }

  /** The bucket of genre `g`: the songs of `cat` carrying `g`, in catalog
      order, a song pushed once per occurrence of `g` in its genre list. */
  function Bucket(cat: seq<Song>, g: string): seq<Song> {
    if cat == [] then []
    else
      var last := cat[|cat| - 1];
      Bucket(cat[..|cat| - 1], g) + Repeat(last, Occurrences(last.genres, g))
  }

  /** The genres of one genre list, as a set. */
  function GenreSet(gs: seq<string>): (r: set<string>)
    ensures forall g :: g in r <==> g in gs
  {
    set k | 0 <= k < |gs| :: gs[k]
  }

  /** The genres carried by some song of `cat`: the keys of the index. */
  function GenresOf(cat: seq<Song>): set<string> {
    if cat == [] then {}
    else GenresOf(cat[..|cat| - 1]) + GenreSet(cat[|cat| - 1].genres)
  }

  /** The genre index as a value: each genre of the catalog to its bucket. */
  function GenreIndex(cat: seq<Song>): map<string, seq<Song>> {
    map g | g in GenresOf(cat) :: Bucket(cat, g)
  }

  /** Builds `genreToSongsMap` as the source does: for each song, for each of
      its genres, create the bucket if missing, then push the song. */
  method BuildGenreIndex(cat: seq<Song>) returns (index: map<string, seq<Song>>)
    ensures index == GenreIndex(cat)
  {
    index := map[];
    var i := 0;
    while i < |cat|
      invariant 0 <= i <= |cat|
      invariant IndexOf(index, cat[..i])
    {
      index := PushSong(index, cat[..i], cat[i]);
      NextSong(index, cat, i);
      i := i + 1;
    }
    assert cat[..i] == cat;
  }

  /** The inner loop: push `song` into the bucket of each of its genres. */
  method PushSong(index0: map<string, seq<Song>>, ghost done: seq<Song>, song: Song)
    returns (index: map<string, seq<Song>>)
    requires IndexOf(index0, done)
    ensures IndexOfPrefix(index, done, song, |song.genres|)
  {
    index := index0;
    var j := 0;
    assert GenreSet(song.genres[..0]) == {};
    while j < |song.genres|
      invariant 0 <= j <= |song.genres|
      invariant IndexOfPrefix(index, done, song, j)
    {
      var genre := song.genres[j];
      ghost var before := index;
      if genre !in index {
        index := index[genre := []];
      }
      index := index[genre := index[genre] + [song]];
      PushStep(before, done, song, j);
      j := j + 1;
    }
  }

  /** `index` is the genre index of the songs `done`. */
  ghost predicate IndexOf(index: map<string, seq<Song>>, done: seq<Song>) {
    && index.Keys == GenresOf(done)
    && forall g :: g in index ==> index[g] == Bucket(done, g)
  }

  /** The state of the index once the songs `done` and the first `j` genres
      of `song` have been pushed. */
  ghost predicate IndexOfPrefix(index: map<string, seq<Song>>, done: seq<Song>, song: Song, j: nat) {
    && j <= |song.genres|
    && index.Keys == GenresOf(done) + GenreSet(song.genres[..j])
    && forall g :: g in index ==>
         index[g] == Bucket(done, g) + Repeat(song, Occurrences(song.genres[..j], g))
  }

  /** One push into the bucket of the `j`-th genre of `song` advances the state. */
  lemma PushStep(index: map<string, seq<Song>>, done: seq<Song>, song: Song, j: nat)
    requires j < |song.genres| && IndexOfPrefix(index, done, song, j)
    ensures var genre := song.genres[j];
            var bucket := if genre in index then index[genre] else [];
            IndexOfPrefix(index[genre := bucket + [song]], done, song, j + 1)
  {
    var genre := song.genres[j];
    var bucket := if genre in index then index[genre] else [];
    var next := index[genre := bucket + [song]];
    GenreSetStep(song.genres, j);
    forall g | g in next
      ensures next[g] == Bucket(done, g) + Repeat(song, Occurrences(song.genres[..j + 1], g))
    {
      PushBucket(index, done, song, j, g);
    }
  }

  /** The bucket of `g` after the push, genre by genre. */
  lemma PushBucket(index: map<string, seq<Song>>, done: seq<Song>, song: Song, j: nat, g: string)
    requires j < |song.genres| && IndexOfPrefix(index, done, song, j)
    requires g in index || g == song.genres[j]
    ensures var genre := song.genres[j];
            var bucket := if genre in index then index[genre] else [];
            index[genre := bucket + [song]][g]
              == Bucket(done, g) + Repeat(song, Occurrences(song.genres[..j + 1], g))
  {
    var genre := song.genres[j];
    OccurrencesStep(song.genres, j);
    if g == genre {
      var n := Occurrences(song.genres[..j], genre);
      if genre !in index {
        BucketAbsent(done, genre);
        OccurrencesAbsent(song.genres[..j], genre);
      }
      RepeatSnoc(song, n);
    }
  }

  lemma RepeatSnoc(s: Song, n: nat)
    ensures Repeat(s, n + 1) == Repeat(s, n) + [s]
  {
    assert Repeat(s, n + 1)[n] == s;
  }

  lemma GenreSetStep(gs: seq<string>, j: nat)
    requires j < |gs|
    ensures GenreSet(gs[..j + 1]) == GenreSet(gs[..j]) + {gs[j]}
  {
    assert gs[..j + 1] == gs[..j] + [gs[j]];
  }

  /** Once all genres of `cat[i]` are pushed, the index is that of `cat[..i + 1]`. */
  lemma NextSong(index: map<string, seq<Song>>, cat: seq<Song>, i: nat)
    requires i < |cat| && IndexOfPrefix(index, cat[..i], cat[i], |cat[i].genres|)
    ensures IndexOf(index, cat[..i + 1])
  {
    assert cat[i].genres[..|cat[i].genres|] == cat[i].genres;
    assert cat[..i + 1][..i] == cat[..i];
  }

  lemma OccurrencesStep(gs: seq<string>, j: nat)
    requires j < |gs|
    ensures forall g :: Occurrences(gs[..j + 1], g) == Occurrences(gs[..j], g) + (if gs[j] == g then 1 else 0)
  {
    assert gs[..j + 1][..j] == gs[..j];
  }

  lemma {:induction false} OccurrencesAbsent(gs: seq<string>, g: string)
    requires g !in gs
    ensures Occurrences(gs, g) == 0
  {
    if gs != [] {
      OccurrencesAbsent(gs[..|gs| - 1], g);
    }
  }

  lemma {:induction false} BucketAbsent(cat: seq<Song>, g: string)
    requires g !in GenresOf(cat)
    ensures Bucket(cat, g) == []
  {
    if cat != [] {
      BucketAbsent(cat[..|cat| - 1], g);
      OccurrencesAbsent(cat[|cat| - 1].genres, g);
    }
  }

  lemma {:induction false} OccurrencesPositive(gs: seq<string>, g: string)
    ensures Occurrences(gs, g) > 0 <==> g in gs
  {
    if gs != [] {
      OccurrencesPositive(gs[..|gs| - 1], g);
      assert gs == gs[..|gs| - 1] + [gs[|gs| - 1]];
    }
  }

  /** A genre is a key of the index exactly when some catalog song carries it. */
  lemma {:induction false} GenresOfMembers(cat: seq<Song>, g: string)
    ensures g in GenresOf(cat) <==> exists s :: s in cat && g in s.genres
  {
    if cat != [] {
      var init := cat[..|cat| - 1];
      GenresOfMembers(init, g);
      assert cat == init + [cat[|cat| - 1]];
      if exists s :: s in cat && g in s.genres {
        var s :| s in cat && g in s.genres;
        assert s in init || s == cat[|cat| - 1];
      }
    }
  }

  /** A bucket holds exactly the catalog songs that carry its genre. */
  lemma {:induction false} BucketMembers(cat: seq<Song>, g: string, s: Song)
    ensures s in Bucket(cat, g) <==> s in cat && g in s.genres
  {
    if cat != [] {
      var init, last := cat[..|cat| - 1], cat[|cat| - 1];
      BucketMembers(init, g, s);
      OccurrencesPositive(last.genres, g);
      assert cat == init + [last];
      if Occurrences(last.genres, g) > 0 {
        assert Repeat(last, Occurrences(last.genres, g))[0] == last;
      }
    }
  }

  /** No song appears twice in the catalog. */
  ghost predicate DistinctSongs(cat: seq<Song>) {
    forall i, j :: 0 <= i < j < |cat| ==> cat[i] != cat[j]
  }

  /** No song lists a genre twice. */
  ghost predicate DistinctGenres(cat: seq<Song>) {
    forall s :: s in cat ==> forall i, j :: 0 <= i < j < |s.genres| ==> s.genres[i] != s.genres[j]
  }

  lemma {:induction false} OccurrencesDistinct(gs: seq<string>, g: string)
    requires forall i, j :: 0 <= i < j < |gs| ==> gs[i] != gs[j]
    ensures Occurrences(gs, g) == if g in gs then 1 else 0
  {
    if gs != [] {
      var init := gs[..|gs| - 1];
      OccurrencesDistinct(init, g);
      assert gs == init + [gs[|gs| - 1]];
    }
  }

  /** In a catalog without repeated songs or repeated genre tags, a song
      sits in the bucket of each of its genres exactly once. */
  lemma {:induction false} BucketCount(cat: seq<Song>, g: string, s: Song)
    requires DistinctSongs(cat) && DistinctGenres(cat)
    ensures multiset(Bucket(cat, g))[s] == if s in cat && g in s.genres then 1 else 0
  {
    if cat != [] {
      var init, last := cat[..|cat| - 1], cat[|cat| - 1];
      DistinctInit(cat);
      BucketCount(init, g, s);
      OccurrencesDistinct(last.genres, g);
      var n := Occurrences(last.genres, g);
      assert multiset(Bucket(cat, g)) == multiset(Bucket(init, g)) + multiset(Repeat(last, n));
      if n == 1 {
        assert Repeat(last, n) == [last];
      }
    }
  }

  /** Both distinctness conditions pass to the catalog without its last song,
      which is not among the others. */
  lemma DistinctInit(cat: seq<Song>)
    requires cat != [] && DistinctSongs(cat) && DistinctGenres(cat)
    ensures var init := cat[..|cat| - 1];
            DistinctSongs(init) && DistinctGenres(init) && cat[|cat| - 1] !in init
            && DistinctGenres([cat[|cat| - 1]])
            && forall x :: x in cat <==> x in init || x == cat[|cat| - 1]
  {
    var init := cat[..|cat| - 1];
    assert cat == init + [cat[|cat| - 1]];
  }

  /** The catalog meets both distinctness conditions. */
  lemma CatalogDistinct()
    ensures DistinctSongs(CATALOG) && DistinctGenres(CATALOG)
  {
    assert forall i, j :: 0 <= i < j < |CATALOG| ==> CATALOG[i].title != CATALOG[j].title;
    forall s | s in CATALOG
      ensures forall i, j :: 0 <= i < j < |s.genres| ==> s.genres[i] != s.genres[j]
    {
      assert |s.genres| <= 2 && (|s.genres| == 2 ==> s.genres[0] != s.genres[1]);
    }
  }
}

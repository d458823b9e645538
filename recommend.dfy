/** `recommendSongs` (Caden_PlaylistManager.js, lines 241-273) as a
    specification: the genres of the playlist in first-encountered order,
    and for each the genre's bucket minus the songs whose TITLE is already
    in the playlist. Nothing removes repeats across genres. */
module Recommender {
  import opened Seqs
  import opened Songs
  import opened Outcomes
  import opened Store

  /** `playlist.songs.flatMap(song => song.genre)` */
  function FlatGenres(songs: seq<Song>): (r: seq<string>)
    ensures forall g :: g in r <==> exists s :: s in songs && g in s.genres
  {
    if songs == [] then []
    else
      var init, last := songs[..|songs| - 1], songs[|songs| - 1];
      assert songs == init + [last];
      FlatGenres(init) + last.genres
  }

  /** Iterating `new Set(xs)`: `xs` without repeats, each kept where it first
      occurs. */
  function Distinct(xs: seq<string>): (r: seq<string>)
    ensures forall x :: x in r <==> x in xs
    ensures forall i, j :: 0 <= i < j < |r| ==> r[i] != r[j]
  {
    if xs == [] then []
    else
      var rest := Distinct(xs[..|xs| - 1]);
      var last := xs[|xs| - 1];
      assert xs == xs[..|xs| - 1] + [last];
      if last in rest then rest else rest + [last]
  }

  /** Where `x` first occurs in `xs`. */
  function FirstPos(xs: seq<string>, x: string): (p: nat)
    requires x in xs
    ensures p < |xs| && xs[p] == x && x !in xs[..p]
  {
    if xs[0] == x then 0
    else
      var p := 1 + FirstPos(xs[1..], x);
      assert xs[..p] == [xs[0]] + xs[1..][..p - 1];
      p
  }

  /** `Distinct` keeps the order of first occurrences: of two members, the
      one that comes first in `xs` comes first in the result. */
  lemma {:induction false} DistinctOrder(xs: seq<string>)
    ensures forall i, j :: 0 <= i < j < |Distinct(xs)| ==>
              FirstPos(xs, Distinct(xs)[i]) < FirstPos(xs, Distinct(xs)[j])
  {
    if xs != [] {
      var init, last := xs[..|xs| - 1], xs[|xs| - 1];
      var rest := Distinct(init);
      DistinctOrder(init);
      forall x | x in init ensures FirstPos(xs, x) == FirstPos(init, x) {
        FirstPosSnoc(init, last, x);
      }
    }
  }

  /** Appending an element leaves the first position of an earlier member
      where it was. */
  lemma FirstPosSnoc(init: seq<string>, last: string, x: string)
    requires x in init
    ensures FirstPos(init + [last], x) == FirstPos(init, x)
  {
    var xs := init + [last];
    var p, q := FirstPos(xs, x), FirstPos(init, x);
    assert xs[..q] == init[..q];
    assert xs[q] == x;
  }

  /** The genres of a playlist, in the order they are first met. */
  function PlaylistGenres(songs: seq<Song>): seq<string> {
    Distinct(FlatGenres(songs))
  }

  /** `playlist.songs.some(playlistSong => playlistSong.title === title)` */
  predicate HasTitle(songs: seq<Song>, title: string) {
    Any(songs, (s: Song) => s.title == title)
  }

  /** The songs of `bucket` whose title is not in `playlist`, in bucket order. */
  function Unheard(bucket: seq<Song>, playlist: seq<Song>): seq<Song> {
    if bucket == [] then []
    else
      var last := bucket[|bucket| - 1];
      Unheard(bucket[..|bucket| - 1], playlist) + (if HasTitle(playlist, last.title) then [] else [last])
  }

  /** A bucket song is kept exactly when the playlist has no song with its
      title. */
  lemma {:induction false} UnheardMembers(bucket: seq<Song>, playlist: seq<Song>, s: Song)
    ensures s in Unheard(bucket, playlist) <==> s in bucket && !HasTitle(playlist, s.title)
  {
    if bucket != [] {
      var init, last := bucket[..|bucket| - 1], bucket[|bucket| - 1];
      UnheardMembers(init, playlist, s);
      assert bucket == init + [last];
    }
  }

  /** `genreToSongsMap.get(genre)`, a missing bucket read as an empty one. */
  function BucketIn(index: map<string, seq<Song>>, g: string): seq<Song> {
    if g in index then index[g] else []
  }

  /** The `recommendations` array after visiting `genres` in order. */
  function Recommendations(playlist: seq<Song>, index: map<string, seq<Song>>, genres: seq<string>): seq<Song> {
    if genres == [] then []
    else
      Recommendations(playlist, index, genres[..|genres| - 1])
        + Unheard(BucketIn(index, genres[|genres| - 1]), playlist)
  }

  /** The outer loop of `recommendSongs`: visit `genres` in order and push
      the unheard songs of each genre's bucket. */
  method CollectRecommendations(playlist: seq<Song>, index: map<string, seq<Song>>, genres: seq<string>)
    returns (recs: seq<Song>)
    ensures recs == Recommendations(playlist, index, genres)
  {
    recs := [];
    var k := 0;
    while k < |genres|
      invariant 0 <= k <= |genres|
      invariant recs == Recommendations(playlist, index, genres[..k])
    {
      RecommendationsStep(playlist, index, genres, k);
      if genres[k] in index {
        recs := PushUnheard(recs, index[genres[k]], playlist);
      }
      k := k + 1;
    }
    assert genres[..k] == genres;
  }

  /** The inner loop: walk one bucket and push every song whose title
      `playlist` does not hold. */
  method PushUnheard(recs: seq<Song>, bucket: seq<Song>, playlist: seq<Song>) returns (out: seq<Song>)
    ensures out == recs + Unheard(bucket, playlist)
  {
    out := recs;
    var m := 0;
    while m < |bucket|
      invariant 0 <= m <= |bucket|
      invariant out == recs + Unheard(bucket[..m], playlist)
    {
      UnheardStep(bucket, playlist, m);
      if !HasTitle(playlist, bucket[m].title) {
        out := out + [bucket[m]];
      }
      m := m + 1;
    }
    assert bucket[..m] == bucket;
  }

  lemma RecommendationsStep(playlist: seq<Song>, index: map<string, seq<Song>>, genres: seq<string>, k: nat)
    requires k < |genres|
    ensures Recommendations(playlist, index, genres[..k + 1])
            == Recommendations(playlist, index, genres[..k]) + Unheard(BucketIn(index, genres[k]), playlist)
  {
    assert genres[..k + 1][..k] == genres[..k];
  }

  lemma UnheardStep(bucket: seq<Song>, playlist: seq<Song>, m: nat)
    requires m < |bucket|
    ensures Unheard(bucket[..m + 1], playlist)
            == Unheard(bucket[..m], playlist) + (if HasTitle(playlist, bucket[m].title) then [] else [bucket[m]])
  {
    assert bucket[..m + 1][..m] == bucket[..m];
  }

  /** `recommendSongs` on the store `ps` with genre index `index`. */
  function Recommend(ps: seq<Playlist>, name: string, index: map<string, seq<Song>>): (r: Listing)
    ensures r.Failed? <==> !HasName(ps, name)
    ensures r.Failed? ==> r.error == Error(PlaylistKind, name, NotFound)
    ensures r.Items? ==> r.songs != []
  {
    match Lookup(ps, name)
    case None => Failed(Error(PlaylistKind, name, NotFound))
    case Some(i) =>
      var recs := Recommendations(ps[i].songs, index, PlaylistGenres(ps[i].songs));
      if recs == [] then NoneFound else Items(recs)
  }

  /** The songs a listing carries (none for the empty and the error outcome). */
  function Listed(r: Listing): seq<Song> {
    if r.Items? then r.songs else []
  }

  /** Some song of the playlist carries one of the genres of `s`. */
  ghost predicate SharesGenre(playlist: seq<Song>, s: Song) {
    exists g :: g in s.genres && g in FlatGenres(playlist)
  }

  /** How many of `genres` the song `s` carries. */
  function SharedCount(genres: seq<string>, s: Song): nat {
    if genres == [] then 0
    else SharedCount(genres[..|genres| - 1], s) + (if genres[|genres| - 1] in s.genres then 1 else 0)
  }

  lemma {:induction false} RecommendationsMembers(playlist: seq<Song>, index: map<string, seq<Song>>,
                                                  genres: seq<string>, s: Song)
    ensures s in Recommendations(playlist, index, genres) <==>
            !HasTitle(playlist, s.title) && exists g :: g in genres && s in BucketIn(index, g)
  {
    if genres != [] {
      var init, last := genres[..|genres| - 1], genres[|genres| - 1];
      RecommendationsMembers(playlist, index, init, s);
      UnheardMembers(BucketIn(index, last), playlist, s);
      assert genres == init + [last];
    }
  }

  /** In the catalog's genre index, the bucket of `g` is the set of catalog
      songs carrying `g`, each once. */
  lemma CatalogBucket(g: string, s: Song)
    ensures s in BucketIn(GenreIndex(CATALOG), g) <==> s in CATALOG && g in s.genres
    ensures s in CATALOG ==> multiset(BucketIn(GenreIndex(CATALOG), g))[s] == if g in s.genres then 1 else 0
  {
    GenresOfMembers(CATALOG, g);
    CatalogDistinct();
    if g in GenresOf(CATALOG) {
      BucketMembers(CATALOG, g, s);
      BucketCount(CATALOG, g, s);
    }
  }

  /** Exactly the catalog songs that share a genre with the playlist and whose
      title is not in it are recommended; a missing playlist is an error. */
  lemma RecommendMembers(ps: seq<Playlist>, name: string, s: Song)
    requires HasName(ps, name)
    ensures var playlist := ps[Lookup(ps, name).value].songs;
            s in Listed(Recommend(ps, name, GenreIndex(CATALOG))) <==>
              s in CATALOG && SharesGenre(playlist, s) && !HasTitle(playlist, s.title)
  {
    var playlist := ps[Lookup(ps, name).value].songs;
    var genres := PlaylistGenres(playlist);
    RecommendationsMembers(playlist, GenreIndex(CATALOG), genres, s);
    if exists g :: g in genres && s in BucketIn(GenreIndex(CATALOG), g) {
      var g :| g in genres && s in BucketIn(GenreIndex(CATALOG), g);
      CatalogBucket(g, s);
    }
    if s in CATALOG && SharesGenre(playlist, s) {
      var g :| g in s.genres && g in FlatGenres(playlist);
      CatalogBucket(g, s);
      assert g in genres;
    }
  }

  /** "No recommendations" exactly when no catalog song with a new title
      shares a genre with the playlist. */
  lemma RecommendEmpty(ps: seq<Playlist>, name: string)
    requires HasName(ps, name)
    ensures var playlist := ps[Lookup(ps, name).value].songs;
            Recommend(ps, name, GenreIndex(CATALOG)).NoneFound? <==>
              forall s :: s in CATALOG && SharesGenre(playlist, s) ==> HasTitle(playlist, s.title)
  {
    var r := Recommend(ps, name, GenreIndex(CATALOG));
    var playlist := ps[Lookup(ps, name).value].songs;
    forall s | s in CATALOG && SharesGenre(playlist, s) && !HasTitle(playlist, s.title)
      ensures r.Items?
    {
      RecommendMembers(ps, name, s);
    }
    if r.Items? {
      RecommendMembers(ps, name, r.songs[0]);
    }
  }

  lemma {:induction false} UnheardCount(bucket: seq<Song>, playlist: seq<Song>, s: Song)
    ensures multiset(Unheard(bucket, playlist))[s] ==
            if HasTitle(playlist, s.title) then 0 else multiset(bucket)[s]
  {
    if bucket != [] {
      UnheardCount(bucket[..|bucket| - 1], playlist, s);
      UnheardLastCount(bucket, playlist, s);
    }
  }

  /** How the last song of a bucket adds to the counts of the bucket and of
      its unheard part. */
  lemma UnheardLastCount(bucket: seq<Song>, playlist: seq<Song>, s: Song)
    requires bucket != []
    ensures var init, last := bucket[..|bucket| - 1], bucket[|bucket| - 1];
            && multiset(bucket)[s] == multiset(init)[s] + (if s == last then 1 else 0)
            && multiset(Unheard(bucket, playlist))[s] == multiset(Unheard(init, playlist))[s]
                 + (if s == last && !HasTitle(playlist, last.title) then 1 else 0)
  {
    var init, last := bucket[..|bucket| - 1], bucket[|bucket| - 1];
    assert bucket == init + [last];
  }

  lemma {:induction false} RecommendationsCount(playlist: seq<Song>, genres: seq<string>, s: Song)
    requires s in CATALOG && !HasTitle(playlist, s.title)
    ensures multiset(Recommendations(playlist, GenreIndex(CATALOG), genres))[s] == SharedCount(genres, s)
  {
    if genres != [] {
      var last := genres[|genres| - 1];
      RecommendationsCount(playlist, genres[..|genres| - 1], s);
      UnheardCount(BucketIn(GenreIndex(CATALOG), last), playlist, s);
      CatalogBucket(last, s);
    }
  }

  /** No de-duplication: a recommended song comes back once for every genre
      of the playlist it carries. */
  lemma RecommendCount(ps: seq<Playlist>, name: string, s: Song)
    requires HasName(ps, name)
    requires s in CATALOG && !HasTitle(ps[Lookup(ps, name).value].songs, s.title)
    ensures var playlist := ps[Lookup(ps, name).value].songs;
            multiset(Listed(Recommend(ps, name, GenreIndex(CATALOG))))[s] ==
              SharedCount(PlaylistGenres(playlist), s)
  {
    var playlist := ps[Lookup(ps, name).value].songs;
    RecommendationsCount(playlist, PlaylistGenres(playlist), s);
  }
}

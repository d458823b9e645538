/** Lemmas about concrete inputs over the source's catalog, derived from
    the general lemmas. */
module Scenarios {
  import opened Text
  import opened Seqs
  import opened Songs
  import opened Outcomes
  import opened Store
  import opened SongSearch
  import opened Recommender

  /** Searching "enemy" or "ENEMY" gives the same results, and they include
      the catalog entry titled "Enemy".
      The strings are parameters pinned by `requires` rather than literals in
      the body, which keeps the solver's work on them small. */
  lemma SearchEnemy(lower: string, upper: string)
    requires lower == "enemy" && upper == "ENEMY"
    ensures Search(upper) == Search(lower)
    ensures Search(lower).Items? && CATALOG[0] in Search(lower).songs
  {
    EnemyLowered(lower, upper);
    SearchCaseInsensitive(upper, lower);
    assert OccursAt(Lower(CATALOG[0].title), Lower(lower), 0);
  }

  /** "ENEMY", "enemy" and "Enemy" all lower-case to "enemy".
      The strings are parameters pinned by `requires` rather than literals in
      the body, which keeps the solver's work on them small. */
  lemma EnemyLowered(lower: string, upper: string)
    requires lower == "enemy" && upper == "ENEMY"
    ensures Lower(upper) == lower && Lower(lower) == lower && Lower(CATALOG[0].title) == lower
  {
  }

  lemma GenresOfEnemyAndPerfect()
    ensures PlaylistGenres([CATALOG[0], CATALOG[1]]) == ["Alternative", "Rock", "Pop"]
  {
    var pl := [CATALOG[0], CATALOG[1]];
    assert pl[..1] == [CATALOG[0]];
    assert [CATALOG[0]][..0] == [];
    assert FlatGenres([CATALOG[0]]) == FlatGenres([]) + CATALOG[0].genres;
    assert FlatGenres(pl) == FlatGenres([CATALOG[0]]) + CATALOG[1].genres;
    var flat := ["Alternative", "Rock", "Pop"];
    assert FlatGenres(pl) == flat;
    assert flat[..2] == ["Alternative", "Rock"];
    assert flat[..2][..1] == ["Alternative"];
    assert ["Alternative"][..0] == [];
    assert Distinct(["Alternative"]) == ["Alternative"];
    assert Distinct(["Alternative", "Rock"]) == ["Alternative", "Rock"];
  }

  lemma SharedWithEnemyAndPerfect()
    ensures SharedCount(["Alternative", "Rock", "Pop"], CATALOG[2]) == 2
    ensures SharedCount(["Alternative", "Rock", "Pop"], CATALOG[3]) == 1
  {
    var genres := ["Alternative", "Rock", "Pop"];
    assert genres[..2] == ["Alternative", "Rock"];
    assert genres[..2][..1] == ["Alternative"];
    assert ["Alternative"][..0] == [];
  }

  /** The playlist `name` finds in `ps` holds exactly these songs. */
  ghost predicate Holding(ps: seq<Playlist>, name: string, songs: seq<Song>) {
    HasName(ps, name) && ps[Lookup(ps, name).value].songs == songs
  }

  /** The songs of a playlist holding "Enemy" and "Perfect" are not
      recommended to it. */
  lemma HeardNotRecommended(ps: seq<Playlist>, name: string, s: Song)
    requires Holding(ps, name, [CATALOG[0], CATALOG[1]])
    requires s == CATALOG[0] || s == CATALOG[1]
    ensures multiset(Listed(Recommend(ps, name, GenreIndex(CATALOG))))[s] == 0
  {
    var pl := [CATALOG[0], CATALOG[1]];
    RecommendMembers(ps, name, s);
    assert HasTitle(pl, s.title) by {
      assert s == pl[0] || s == pl[1];
    }
  }

  /** "Heathens" comes back twice and "Hymn for the Weekend" once for a
      playlist holding "Enemy" and "Perfect". */
  lemma UnheardRecommended(ps: seq<Playlist>, name: string, s: Song)
    requires Holding(ps, name, [CATALOG[0], CATALOG[1]])
    requires s == CATALOG[2] || s == CATALOG[3]
    ensures multiset(Listed(Recommend(ps, name, GenreIndex(CATALOG))))[s] ==
              if s == CATALOG[2] then 2 else 1
  {
    var pl := [CATALOG[0], CATALOG[1]];
    assert !HasTitle(pl, s.title) by {
      assert pl[0].title != s.title && pl[1].title != s.title;
    }
    RecommendCount(ps, name, s);
    GenresOfEnemyAndPerfect();
    SharedWithEnemyAndPerfect();
  }

  /** Songs outside the catalog are never recommended. */
  lemma OutsiderNotRecommended(ps: seq<Playlist>, name: string, s: Song)
    requires HasName(ps, name) && s !in CATALOG
    ensures multiset(Listed(Recommend(ps, name, GenreIndex(CATALOG))))[s] == 0
  {
    RecommendMembers(ps, name, s);
  }

  /** The count of every song in the recommendations for "Enemy", "Perfect". */
  lemma CountForEnemyAndPerfect(ps: seq<Playlist>, name: string, s: Song)
    requires Holding(ps, name, [CATALOG[0], CATALOG[1]])
    ensures multiset(Listed(Recommend(ps, name, GenreIndex(CATALOG))))[s]
              == multiset{CATALOG[3], CATALOG[2], CATALOG[2]}[s]
  {
    if s == CATALOG[0] || s == CATALOG[1] {
      HeardNotRecommended(ps, name, s);
    } else if s == CATALOG[2] || s == CATALOG[3] {
      UnheardRecommended(ps, name, s);
    } else {
      OutsiderNotRecommended(ps, name, s);
    }
  }

  /** A playlist holding "Enemy" (Alternative, Rock) and "Perfect" (Pop) is
      recommended "Hymn for the Weekend" once (through Alternative) and
      "Heathens" twice (through Rock and through Pop), and nothing else. */
  lemma RecommendRepeats(ps: seq<Playlist>, name: string)
    requires Holding(ps, name, [CATALOG[0], CATALOG[1]])
    ensures multiset(Listed(Recommend(ps, name, GenreIndex(CATALOG))))
              == multiset{CATALOG[3], CATALOG[2], CATALOG[2]}
  {
    forall s {
      CountForEnemyAndPerfect(ps, name, s);
    }
  }

  /** The same playlist gets exactly "Hymn for the Weekend" (from the
      Alternative bucket), then "Heathens" (Rock), then "Heathens" again
      (Pop): genres in first-met order, each bucket in catalog order. */
  lemma RecommendInOrder(ps: seq<Playlist>, name: string)
    requires Holding(ps, name, [CATALOG[0], CATALOG[1]])
    ensures Recommend(ps, name, GenreIndex(CATALOG)) == Items([CATALOG[3], CATALOG[2], CATALOG[2]])
  {
    var pl := ps[Lookup(ps, name).value].songs;
    GenresOfEnemyAndPerfect();
    CatalogBuckets();
    RecommendationsForEnemyAndPerfect(pl, GenreIndex(CATALOG), PlaylistGenres(pl));
  }

  /** With the buckets of the catalog, the genres of "Enemy" and "Perfect"
      give "Hymn for the Weekend", "Heathens", "Heathens". */
  lemma RecommendationsForEnemyAndPerfect(playlist: seq<Song>, index: map<string, seq<Song>>, genres: seq<string>)
    requires playlist == [CATALOG[0], CATALOG[1]] && |genres| == 3
    requires BucketIn(index, genres[0]) == [CATALOG[0], CATALOG[3]]
    requires BucketIn(index, genres[1]) == [CATALOG[0], CATALOG[2]]
    requires BucketIn(index, genres[2]) == [CATALOG[1], CATALOG[2]]
    ensures Recommendations(playlist, index, genres) == [CATALOG[3], CATALOG[2], CATALOG[2]]
  {
    RecommendationsOfThree(playlist, index, genres);
    TitlesOfEnemyAndPerfect();
    UnheardPair(CATALOG[0], CATALOG[3], playlist);
    UnheardPair(CATALOG[0], CATALOG[2], playlist);
    UnheardPair(CATALOG[1], CATALOG[2], playlist);
  }

  /** Visiting three genres concatenates the unheard part of their buckets. */
  lemma RecommendationsOfThree(playlist: seq<Song>, index: map<string, seq<Song>>, gs: seq<string>)
    requires |gs| == 3
    ensures Recommendations(playlist, index, gs) ==
              Unheard(BucketIn(index, gs[0]), playlist) + Unheard(BucketIn(index, gs[1]), playlist)
                + Unheard(BucketIn(index, gs[2]), playlist)
  {
    var a, b := Unheard(BucketIn(index, gs[0]), playlist), Unheard(BucketIn(index, gs[1]), playlist);
    RecommendationsStep(playlist, index, gs, 0);
    assert gs[..0] == [];
    assert Recommendations(playlist, index, gs[..1]) == a;
    RecommendationsStep(playlist, index, gs, 1);
    assert Recommendations(playlist, index, gs[..2]) == a + b;
    RecommendationsStep(playlist, index, gs, 2);
    assert gs[..3] == gs;
  }

  /** A two-song bucket keeps each song whose title the playlist lacks. */
  lemma UnheardPair(a: Song, b: Song, playlist: seq<Song>)
    ensures Unheard([a, b], playlist) ==
              (if HasTitle(playlist, a.title) then [] else [a]) + (if HasTitle(playlist, b.title) then [] else [b])
  {
    assert [a, b][..1] == [a] && [a][..0] == [];
    assert Unheard([a], playlist) == if HasTitle(playlist, a.title) then [] else [a];
  }

  /** Which titles a playlist holding "Enemy" and "Perfect" has. */
  lemma TitlesOfEnemyAndPerfect()
    ensures HasTitle([CATALOG[0], CATALOG[1]], CATALOG[0].title)
    ensures HasTitle([CATALOG[0], CATALOG[1]], CATALOG[1].title)
    ensures !HasTitle([CATALOG[0], CATALOG[1]], CATALOG[2].title)
    ensures !HasTitle([CATALOG[0], CATALOG[1]], CATALOG[3].title)
  {
    var pl := [CATALOG[0], CATALOG[1]];
    assert pl[0].title == CATALOG[0].title && pl[1].title == CATALOG[1].title;
  }

  /** The Alternative, Rock and Pop buckets of the catalog's index. */
  lemma CatalogBuckets()
    ensures BucketIn(GenreIndex(CATALOG), "Alternative") == [CATALOG[0], CATALOG[3]]
    ensures BucketIn(GenreIndex(CATALOG), "Rock") == [CATALOG[0], CATALOG[2]]
    ensures BucketIn(GenreIndex(CATALOG), "Pop") == [CATALOG[1], CATALOG[2]]
  {
    CatalogBucketOf("Alternative");
    CatalogBucketOf("Rock");
    CatalogBucketOf("Pop");
  }

  /** The bucket of `g`: each catalog song carrying `g`, once, in catalog
      order. */
  lemma CatalogBucketOf(g: string)
    ensures BucketIn(GenreIndex(CATALOG), g) ==
              Tagged(CATALOG[0], g) + Tagged(CATALOG[1], g) + Tagged(CATALOG[2], g) + Tagged(CATALOG[3], g)
  {
    GenresOfMembers(CATALOG, g);
    CatalogDistinct();
    forall k | 0 <= k < 4 ensures Repeat(CATALOG[k], Occurrences(CATALOG[k].genres, g)) == Tagged(CATALOG[k], g) {
      OccurrencesDistinct(CATALOG[k].genres, g);
    }
    BucketOfFour(CATALOG, g);
  }

  /** The bucket of a four-song catalog whose songs each carry `g` at most
      once. */
  lemma BucketOfFour(c: seq<Song>, g: string)
    requires |c| == 4
    requires forall k :: 0 <= k < 4 ==> Repeat(c[k], Occurrences(c[k].genres, g)) == Tagged(c[k], g)
    ensures Bucket(c, g) == Tagged(c[0], g) + Tagged(c[1], g) + Tagged(c[2], g) + Tagged(c[3], g)
  {
    assert c[..1][..0] == [] && c[..2][..1] == c[..1] && c[..3][..2] == c[..2] && c[..4] == c;
    assert Bucket(c[..1], g) == Tagged(c[0], g);
    assert Bucket(c[..2], g) == Tagged(c[0], g) + Tagged(c[1], g);
    assert Bucket(c[..3], g) == Tagged(c[0], g) + Tagged(c[1], g) + Tagged(c[2], g);
  }

  /** `[s]` when `s` carries `g`, otherwise nothing. */
  function Tagged(s: Song, g: string): (r: seq<Song>)
    ensures r == [] || r == [s]
  {
    if g in s.genres then [s] else []
  }

  /** Creating a playlist in an empty store and adding "Enemy" by Imagine
      Dragons both succeed and leave that one song in it.
      The title and artist are parameters pinned by `requires` rather than literals in
      the body, which keeps the solver's work on them small. */
  lemma CreateThenAdd(name: string, title: string, artist: string)
    requires !IsBlank(name) && title == "Enemy" && artist == "Imagine Dragons"
    ensures Create([], name) == Change(Done, [Playlist(name, [])])
    ensures AddSong(Create([], name).after, name, title, artist)
              == Change(Done, [Playlist(name, [CATALOG[0]])])
  {
    var ps := [Playlist(name, [])];
    assert Lookup(ps, name) == Some(0) by { assert ps[0].name == name; }
    assert CatalogLookup(title, artist) == Some(CATALOG[0]) by {
      assert SameSong(CATALOG[0], title, artist);
    }
    assert [] + [CATALOG[0]] == [CATALOG[0]];
  }

  /** A playlist holding only "Enemy" is recommended "Heathens" (it shares
      Rock), and neither "Enemy" itself nor "Perfect" (no shared genre). */
  lemma RecommendAfterEnemy(ps: seq<Playlist>, name: string)
    requires Holding(ps, name, [CATALOG[0]])
    ensures var r := Listed(Recommend(ps, name, GenreIndex(CATALOG)));
            CATALOG[2] in r && CATALOG[0] !in r && CATALOG[1] !in r
  {
    HeathensAfterEnemy(ps, name);
    EnemyAfterEnemy(ps, name);
    PerfectAfterEnemy(ps, name);
  }

  lemma EnemyGenres()
    ensures FlatGenres([CATALOG[0]]) == ["Alternative", "Rock"]
  {
    assert [CATALOG[0]][..0] == [];
  }

  lemma HeathensAfterEnemy(ps: seq<Playlist>, name: string)
    requires Holding(ps, name, [CATALOG[0]])
    ensures CATALOG[2] in Listed(Recommend(ps, name, GenreIndex(CATALOG)))
  {
    var pl := [CATALOG[0]];
    EnemyGenres();
    RecommendMembers(ps, name, CATALOG[2]);
    assert "Rock" in CATALOG[2].genres && "Rock" in FlatGenres(pl);
    assert !HasTitle(pl, CATALOG[2].title) by {
      assert pl[0].title != CATALOG[2].title;
    }
  }

  lemma EnemyAfterEnemy(ps: seq<Playlist>, name: string)
    requires Holding(ps, name, [CATALOG[0]])
    ensures CATALOG[0] !in Listed(Recommend(ps, name, GenreIndex(CATALOG)))
  {
    var pl := [CATALOG[0]];
    RecommendMembers(ps, name, CATALOG[0]);
    assert HasTitle(pl, CATALOG[0].title) by { assert pl[0] == CATALOG[0]; }
  }

  lemma PerfectAfterEnemy(ps: seq<Playlist>, name: string)
    requires Holding(ps, name, [CATALOG[0]])
    ensures CATALOG[1] !in Listed(Recommend(ps, name, GenreIndex(CATALOG)))
  {
    EnemyGenres();
    RecommendMembers(ps, name, CATALOG[1]);
  }
}

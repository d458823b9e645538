/** The playlist manager object: the store the exported functions of
    Caden_PlaylistManager.js share, updated in place, and the genre index
    built once from the catalog. Each state-changing method is tied to the
    transition function of the Store module, whose properties are proved in
    StoreProperties; `RecommendSongs` runs the source's nested loops and is
    proved against `Recommend`. */
module Manager {
  import opened Text
  import opened Seqs
  import opened Songs
  import opened Outcomes
  import opened Store
  import opened StoreProperties
  import opened Recommender

  class PlaylistManager {
    /** The module-level `playlists` array. */
    var playlists: seq<Playlist>
    /** `genreToSongsMap` */
    const genreIndex: map<string, seq<Song>>

    ghost predicate Valid()
      reads this
    {
      genreIndex == GenreIndex(CATALOG) && Inv(playlists)
    }

    /** Module load: an empty store and the genre index of the catalog. */
    constructor ()
      ensures Valid() && playlists == []
    {
      var index := BuildGenreIndex(CATALOG);
      genreIndex := index;
      playlists := [];
    }

    /** `createPlaylist`: pushes a new empty playlist. */
    method CreatePlaylist(name: string) returns (status: Status)
      requires Valid()
      modifies this
      ensures Valid()
      ensures Change(status, playlists) == Create(old(playlists), name)
    {
      CreatePreservesInv(playlists, name);
      if Trim(name) == [] {
        status := Rejected(Error(PlaylistKind, name, NotAllowed));
      } else if Lookup(playlists, name).Some? {
        status := Rejected(Error(PlaylistKind, name, AlreadyExists));
      } else {
        playlists := playlists + [Playlist(name, [])];
        status := Done;
      }
    }

    /** `editPlaylist`: sets the name of the first playlist called `oldName`. */
    method EditPlaylist(oldName: string, newName: string) returns (status: Status)
      requires Valid()
      modifies this
      ensures Valid()
      ensures Change(status, playlists) == Rename(old(playlists), oldName, newName)
    {
      RenamePreservesInv(playlists, oldName, newName);
      var found := Lookup(playlists, oldName);
      if found.None? {
        status := Rejected(Error(PlaylistKind, oldName, NotFound));
      } else if Trim(newName) == [] {
        status := Rejected(Error(PlaylistKind, newName, NotAllowed));
      } else if Any(playlists, (p: Playlist) => p.name == newName && p.name != oldName) {
        status := Rejected(Error(PlaylistKind, newName, AlreadyExists));
      } else {
        var i := found.value;
        playlists := playlists[i := playlists[i].(name := newName)];
        status := Done;
      }
    }

    /** `addSongToPlaylist`: pushes the catalog song onto the playlist. */
    method AddSongToPlaylist(name: string, title: string, artist: string) returns (status: Status)
      requires Valid()
      modifies this
      ensures Valid()
      ensures Change(status, playlists) == AddSong(old(playlists), name, title, artist)
    {
      AddSongPreservesInv(playlists, name, title, artist);
      var found := Lookup(playlists, name);
      if found.None? {
        return Rejected(Error(PlaylistKind, name, NotFound));
      }
      var i := found.value;
      var song := CatalogLookup(title, artist);
      if song.None? {
        status := Rejected(Error(SongKind, SongLabel(title, artist), NotFound));
      } else if Any(playlists[i].songs, (s: Song) => SameSong(s, title, artist)) {
        status := Rejected(Error(SongKind, SongLabel(title, artist), AlreadyInPlaylist));
      } else {
        playlists := playlists[i := playlists[i].(songs := playlists[i].songs + [song.value])];
        status := Done;
      }
    }

    /** `removeSongFromPlaylist`: splices out the first matching entry. */
    method RemoveSongFromPlaylist(name: string, title: string, artist: string) returns (status: Status)
      requires Valid()
      modifies this
      ensures Valid()
      ensures Change(status, playlists) == RemoveSong(old(playlists), name, title, artist)
    {
      RemoveSongPreservesInv(playlists, name, title, artist);
      var found := Lookup(playlists, name);
      if found.None? {
        return Rejected(Error(PlaylistKind, name, NotFound));
      }
      var i := found.value;
      var at := SongIndex(playlists[i].songs, title, artist);
      if at.None? {
        status := Rejected(Error(SongKind, SongLabel(title, artist), NotFoundInPlaylist));
      } else {
        var songs := playlists[i].songs;
        var k := at.value;
        playlists := playlists[i := playlists[i].(songs := songs[..k] + songs[k + 1..])];
        status := Done;
      }
    }

    /** `deletePlaylist`: splices out the first playlist with that name. */
    method DeletePlaylist(name: string) returns (status: Status)
      requires Valid()
      modifies this
      ensures Valid()
      ensures Change(status, playlists) == Delete(old(playlists), name)
    {
      DeletePreservesInv(playlists, name);
      var found := FirstIndex(playlists, (p: Playlist) => p.name == name);
      if found.None? {
        status := Rejected(Error(PlaylistKind, name, NotFound));
      } else {
        var i := found.value;
        playlists := playlists[..i] + playlists[i + 1..];
        status := Done;
      }
    }

    /** `recommendSongs` */
    method RecommendSongs(name: string) returns (r: Listing)
      requires Valid()
      ensures r == Recommend(playlists, name, GenreIndex(CATALOG))
    {
      var found := Lookup(playlists, name);
      if found.None? {
        return Failed(Error(PlaylistKind, name, NotFound));
      }
      var playlist := playlists[found.value].songs;
      var recs := CollectRecommendations(playlist, genreIndex, PlaylistGenres(playlist));
      r := if recs == [] then NoneFound else Items(recs);
    }
  }
}

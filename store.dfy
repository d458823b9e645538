/** The playlist store of Caden_PlaylistManager.js as a value: each
    operation that changes it is a function from the store before to its
    status and the store after (lines 28-37 and 98-233). */
module Store {
  import opened Text
  import opened Seqs
  import opened Songs
  import opened Outcomes

  datatype Playlist = Playlist(name: string, songs: seq<Song>)

  /** What an operation reports and the store it leaves behind. */
  datatype Change = Change(status: Status, after: seq<Playlist>)

  ghost predicate HasName(ps: seq<Playlist>, name: string) {
    exists i :: 0 <= i < |ps| && ps[i].name == name
  }

  /** `playlistExist`: where the first playlist named exactly `name` sits. */
  function Lookup(ps: seq<Playlist>, name: string): (r: Option<nat>)
    ensures r.Some? <==> HasName(ps, name)
    ensures r.Some? ==> r.value < |ps| && ps[r.value].name == name
    ensures r.Some? ==> forall j :: 0 <= j < r.value ==> ps[j].name != name
  {
    FirstIndex(ps, (p: Playlist) => p.name == name)
  }

  /** Some entry of `songs` has this title and artist. */
  ghost predicate Holds(songs: seq<Song>, title: string, artist: string) {
    exists k :: 0 <= k < |songs| && SameSong(songs[k], title, artist)
  }

  /** `playlist.songs.findIndex(...)` on title and artist. */
  function SongIndex(songs: seq<Song>, title: string, artist: string): (r: Option<nat>)
    ensures r.Some? <==> Holds(songs, title, artist)
    ensures r.Some? ==> r.value < |songs| && SameSong(songs[r.value], title, artist)
    ensures r.Some? ==> forall k :: 0 <= k < r.value ==> !SameSong(songs[k], title, artist)
  {
    FirstIndex(songs, (s: Song) => SameSong(s, title, artist))
  }

  ghost predicate UniqueNames(ps: seq<Playlist>) {
    forall i, j :: 0 <= i < j < |ps| ==> ps[i].name != ps[j].name
  }

  ghost predicate NoDuplicateSongs(songs: seq<Song>) {
    forall i, j :: 0 <= i < j < |songs| ==> !SameSong(songs[j], songs[i].title, songs[i].artist)
  }

  ghost predicate WellFormed(p: Playlist) {
    && !IsBlank(p.name)
    && NoDuplicateSongs(p.songs)
    && forall s :: s in p.songs ==> s in CATALOG
  }

  /** The store invariant: names unique and not blank, no (title, artist)
      pair twice in a playlist, only catalog songs. */
  ghost predicate Inv(ps: seq<Playlist>) {
    && UniqueNames(ps)
    && forall i :: 0 <= i < |ps| ==> WellFormed(ps[i])
  }

  /** `createPlaylist` */
  function Create(ps: seq<Playlist>, name: string): (c: Change)
    ensures IsBlank(name) ==>
      c == Change(Rejected(Error(PlaylistKind, name, NotAllowed)), ps)
    ensures !IsBlank(name) && HasName(ps, name) ==>
      c == Change(Rejected(Error(PlaylistKind, name, AlreadyExists)), ps)
    ensures !IsBlank(name) && !HasName(ps, name) ==>
      c == Change(Done, ps + [Playlist(name, [])])
  {
    if Trim(name) == [] then Change(Rejected(Error(PlaylistKind, name, NotAllowed)), ps)
    else if Lookup(ps, name).Some? then Change(Rejected(Error(PlaylistKind, name, AlreadyExists)), ps)
    else Change(Done, ps + [Playlist(name, [])])
  }

  /** `editPlaylist`: the missing playlist is reported before a blank new name. */
  function Rename(ps: seq<Playlist>, oldName: string, newName: string): (c: Change)
    ensures !HasName(ps, oldName) ==>
      c == Change(Rejected(Error(PlaylistKind, oldName, NotFound)), ps)
    ensures HasName(ps, oldName) && IsBlank(newName) ==>
      c == Change(Rejected(Error(PlaylistKind, newName, NotAllowed)), ps)
    ensures HasName(ps, oldName) && !IsBlank(newName) && newName != oldName && HasName(ps, newName) ==>
      c == Change(Rejected(Error(PlaylistKind, newName, AlreadyExists)), ps)
    ensures c.status.Done? <==>
      HasName(ps, oldName) && !IsBlank(newName) && (newName == oldName || !HasName(ps, newName))
    ensures c.status.Done? ==>
      var i := Lookup(ps, oldName).value;
      c.after == ps[i := Playlist(newName, ps[i].songs)]
  {
    match Lookup(ps, oldName)
    case None => Change(Rejected(Error(PlaylistKind, oldName, NotFound)), ps)
    case Some(i) =>
      if Trim(newName) == [] then
        Change(Rejected(Error(PlaylistKind, newName, NotAllowed)), ps)
      else if Any(ps, (p: Playlist) => p.name == newName && p.name != oldName) then
        Change(Rejected(Error(PlaylistKind, newName, AlreadyExists)), ps)
      else
        Change(Done, ps[i := ps[i].(name := newName)])
  }

  /** `viewPlaylist`: an error, the distinct "empty" outcome, or the songs in
      insertion order. */
  function View(ps: seq<Playlist>, name: string): (r: Listing)
    ensures r.Failed? <==> !HasName(ps, name)
    ensures r.Failed? ==> r.error == Error(PlaylistKind, name, NotFound)
    ensures r.NoneFound? <==> HasName(ps, name) && ps[Lookup(ps, name).value].songs == []
    ensures r.Items? ==> r.songs == ps[Lookup(ps, name).value].songs
  {
    match Lookup(ps, name)
    case None => Failed(Error(PlaylistKind, name, NotFound))
    case Some(i) => if ps[i].songs == [] then NoneFound else Items(ps[i].songs)
  }

  /** `addSongToPlaylist` */
  function AddSong(ps: seq<Playlist>, name: string, title: string, artist: string): (c: Change)
    ensures !HasName(ps, name) ==>
      c == Change(Rejected(Error(PlaylistKind, name, NotFound)), ps)
    ensures HasName(ps, name) && (forall s :: s in CATALOG ==> !SameSong(s, title, artist)) ==>
      c == Change(Rejected(Error(SongKind, SongLabel(title, artist), NotFound)), ps)
    ensures HasName(ps, name) && CatalogLookup(title, artist).Some?
            && Holds(ps[Lookup(ps, name).value].songs, title, artist) ==>
      c == Change(Rejected(Error(SongKind, SongLabel(title, artist), AlreadyInPlaylist)), ps)
    ensures c.status.Done? <==>
      && HasName(ps, name)
      && CatalogLookup(title, artist).Some?
      && !Holds(ps[Lookup(ps, name).value].songs, title, artist)
    ensures c.status.Done? ==>
      var i := Lookup(ps, name).value;
      c.after == ps[i := Playlist(name, ps[i].songs + [CatalogLookup(title, artist).value])]
  {
    match Lookup(ps, name)
    case None => Change(Rejected(Error(PlaylistKind, name, NotFound)), ps)
    case Some(i) =>
      match CatalogLookup(title, artist)
      case None => Change(Rejected(Error(SongKind, SongLabel(title, artist), NotFound)), ps)
      case Some(song) =>
        if Any(ps[i].songs, (s: Song) => SameSong(s, title, artist)) then
          Change(Rejected(Error(SongKind, SongLabel(title, artist), AlreadyInPlaylist)), ps)
        else
          Change(Done, ps[i := ps[i].(songs := ps[i].songs + [song])])
  }

  /** `removeSongFromPlaylist`: splices out the first matching entry. */
  function RemoveSong(ps: seq<Playlist>, name: string, title: string, artist: string): (c: Change)
    ensures !HasName(ps, name) ==>
      c == Change(Rejected(Error(PlaylistKind, name, NotFound)), ps)
    ensures HasName(ps, name) && !Holds(ps[Lookup(ps, name).value].songs, title, artist) ==>
      c == Change(Rejected(Error(SongKind, SongLabel(title, artist), NotFoundInPlaylist)), ps)
    ensures c.status.Done? <==> HasName(ps, name) && Holds(ps[Lookup(ps, name).value].songs, title, artist)
    ensures c.status.Done? ==>
      var i := Lookup(ps, name).value;
      var k := SongIndex(ps[i].songs, title, artist).value;
      c.after == ps[i := Playlist(name, ps[i].songs[..k] + ps[i].songs[k + 1..])]
  {
    match Lookup(ps, name)
    case None => Change(Rejected(Error(PlaylistKind, name, NotFound)), ps)
    case Some(i) =>
      match SongIndex(ps[i].songs, title, artist)
      case None => Change(Rejected(Error(SongKind, SongLabel(title, artist), NotFoundInPlaylist)), ps)
      case Some(k) =>
        var songs := ps[i].songs;
        Change(Done, ps[i := ps[i].(songs := songs[..k] + songs[k + 1..])])
  }

  /** `deletePlaylist`: splices out the first playlist with that name. */
  function Delete(ps: seq<Playlist>, name: string): (c: Change)
    ensures !HasName(ps, name) ==>
      c == Change(Rejected(Error(PlaylistKind, name, NotFound)), ps)
    ensures HasName(ps, name) ==>
      var i := Lookup(ps, name).value;
      c == Change(Done, ps[..i] + ps[i + 1..])
  {
    match Lookup(ps, name)
    case None => Change(Rejected(Error(PlaylistKind, name, NotFound)), ps)
    case Some(i) => Change(Done, ps[..i] + ps[i + 1..])
  }
}

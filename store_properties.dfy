/** What the store operations promise across calls: each keeps the store
    invariant, and the round trips and follow-up lookups behave as the
    source's error checks imply. */
module StoreProperties {
  import opened Text
  import opened Seqs
  import opened Songs
  import opened Outcomes
  import opened Store

  lemma CreatePreservesInv(ps: seq<Playlist>, name: string)
    requires Inv(ps)
    ensures Inv(Create(ps, name).after)
  {
    if Create(ps, name).status.Done? {
      AppendKeepsInv(ps, Playlist(name, []));
    }
  }

  /** Appending a well-formed playlist whose name no playlist holds keeps the
      invariant. */
  lemma AppendKeepsInv(ps: seq<Playlist>, p: Playlist)
    requires Inv(ps) && WellFormed(p) && !HasName(ps, p.name)
    ensures Inv(ps + [p])
  {
    var after := ps + [p];
    assert forall j :: 0 <= j < |ps| ==> after[j] == ps[j];
  }

  /** After a successful create the new playlist views as empty and a second
      create with the same name is refused as a duplicate. */
  lemma CreateThenViewAndCreate(ps: seq<Playlist>, name: string)
    requires Create(ps, name).status.Done?
    ensures View(Create(ps, name).after, name) == NoneFound
    ensures var after := Create(ps, name).after;
            Create(after, name) == Change(Rejected(Error(PlaylistKind, name, AlreadyExists)), after)
  {
    var after := Create(ps, name).after;
    assert after[|ps|].name == name;
    assert Lookup(after, name).value == |ps|;
  }

  lemma RenamePreservesInv(ps: seq<Playlist>, oldName: string, newName: string)
    requires Inv(ps)
    ensures Inv(Rename(ps, oldName, newName).after)
  {
    if Rename(ps, oldName, newName).status.Done? {
      var k := Lookup(ps, oldName).value;
      forall j | 0 <= j < |ps| && j != k ensures ps[j].name != newName {
        if newName == oldName {
          assert ps[j].name != ps[k].name;
        }
      }
      assert WellFormed(ps[k]);
      ReplaceKeepsInv(ps, k, ps[k].(name := newName));
    }
  }

  /** Putting at position `k` a well-formed playlist whose name no other
      playlist holds keeps the invariant. */
  lemma ReplaceKeepsInv(ps: seq<Playlist>, k: nat, p: Playlist)
    requires Inv(ps) && k < |ps| && WellFormed(p)
    requires forall j :: 0 <= j < |ps| && j != k ==> ps[j].name != p.name
    ensures Inv(ps[k := p])
  {
    var after := ps[k := p];
    assert forall j :: 0 <= j < |ps| && j != k ==> after[j] == ps[j];
  }

  /** Renaming a playlist to its own name succeeds and changes nothing. */
  lemma RenameToSelf(ps: seq<Playlist>, name: string)
    requires Inv(ps) && HasName(ps, name)
    ensures Rename(ps, name, name) == Change(Done, ps)
  {
    var i := Lookup(ps, name).value;
    assert WellFormed(ps[i]);
    assert ps[i := Playlist(name, ps[i].songs)] == ps;
  }

  lemma AddSongPreservesInv(ps: seq<Playlist>, name: string, title: string, artist: string)
    requires Inv(ps)
    ensures Inv(AddSong(ps, name, title, artist).after)
  {
    if AddSong(ps, name, title, artist).status.Done? {
      var k := Lookup(ps, name).value;
      var song := CatalogLookup(title, artist).value;
      AppendWellFormed(ps[k], song);
      assert forall j :: 0 <= j < |ps| && j != k ==> ps[j].name != ps[k].name;
      ReplaceKeepsInv(ps, k, ps[k].(songs := ps[k].songs + [song]));
    }
  }

  /** Appending a catalog song whose (title, artist) pair a well-formed
      playlist does not hold keeps it well formed. */
  lemma AppendWellFormed(p: Playlist, song: Song)
    requires WellFormed(p) && song in CATALOG && !Holds(p.songs, song.title, song.artist)
    ensures WellFormed(p.(songs := p.songs + [song]))
  {
    var songs := p.songs + [song];
    forall i, j | 0 <= i < j < |songs|
      ensures !SameSong(songs[j], songs[i].title, songs[i].artist)
    {
      if j == |p.songs| {
        assert !SameSong(p.songs[i], song.title, song.artist);
      }
    }
  }

  /** A successful add followed by the matching remove gives back the store
      exactly as it was. */
  lemma AddThenRemove(ps: seq<Playlist>, name: string, title: string, artist: string)
    requires AddSong(ps, name, title, artist).status.Done?
    ensures RemoveSong(AddSong(ps, name, title, artist).after, name, title, artist) == Change(Done, ps)
  {
    var after := AddSong(ps, name, title, artist).after;
    var i := Lookup(ps, name).value;
    var song := CatalogLookup(title, artist).value;
    assert after == ps[i := ps[i].(songs := ps[i].songs + [song])];
    LookupKept(ps, name, Playlist(name, ps[i].songs + [song]));
    AppendThenSplice(ps[i].songs, song, title, artist);
    assert after[i := ps[i]] == ps;
  }

  /** Replacing the playlist `name` finds by one with the same name keeps
      where `name` is found. */
  lemma LookupKept(ps: seq<Playlist>, name: string, p: Playlist)
    requires Lookup(ps, name).Some? && p.name == name
    ensures Lookup(ps[Lookup(ps, name).value := p], name) == Lookup(ps, name)
  {
    var i := Lookup(ps, name).value;
    var ps' := ps[i := p];
    assert ps'[i].name == name;
    assert forall j :: 0 <= j < i ==> ps'[j] == ps[j];
  }

  /** In `songs + [song]`, where `songs` has no entry with that title and
      artist, the first match is the appended one, and splicing it out gives
      `songs` back. */
  lemma AppendThenSplice(songs: seq<Song>, song: Song, title: string, artist: string)
    requires !Holds(songs, title, artist) && SameSong(song, title, artist)
    ensures SongIndex(songs + [song], title, artist) == Some(|songs|)
    ensures (songs + [song])[..|songs|] + (songs + [song])[|songs| + 1..] == songs
  {
    var longer := songs + [song];
    assert forall k :: 0 <= k < |songs| ==> longer[k] == songs[k];
    assert SameSong(longer[|songs|], title, artist);
  }

  /** Splicing one entry out of a well-formed playlist keeps it well formed. */
  lemma SpliceWellFormed(p: Playlist, k: nat)
    requires WellFormed(p) && k < |p.songs|
    ensures WellFormed(p.(songs := p.songs[..k] + p.songs[k + 1..]))
  {
    var songs := p.songs[..k] + p.songs[k + 1..];
    forall a, b | 0 <= a < b < |songs|
      ensures !SameSong(songs[b], songs[a].title, songs[a].artist)
    {
      assert songs[a] == p.songs[if a < k then a else a + 1];
      assert songs[b] == p.songs[if b < k then b else b + 1];
    }
    forall s | s in songs ensures s in CATALOG {
      var m :| 0 <= m < |songs| && songs[m] == s;
      assert s == p.songs[if m < k then m else m + 1];
    }
  }

  lemma RemoveSongPreservesInv(ps: seq<Playlist>, name: string, title: string, artist: string)
    requires Inv(ps)
    ensures Inv(RemoveSong(ps, name, title, artist).after)
  {
    if RemoveSong(ps, name, title, artist).status.Done? {
      var i := Lookup(ps, name).value;
      var k := SongIndex(ps[i].songs, title, artist).value;
      SpliceWellFormed(ps[i], k);
      assert forall j :: 0 <= j < |ps| && j != i ==> ps[j].name != ps[i].name;
      ReplaceKeepsInv(ps, i, ps[i].(songs := ps[i].songs[..k] + ps[i].songs[k + 1..]));
    }
  }

  lemma DeletePreservesInv(ps: seq<Playlist>, name: string)
    requires Inv(ps)
    ensures Inv(Delete(ps, name).after)
  {
    var c := Delete(ps, name);
    if c.status.Done? {
      var k := Lookup(ps, name).value;
      var after := c.after;
      forall i | 0 <= i < |after| ensures WellFormed(after[i]) {
        assert after[i] == ps[if i < k then i else i + 1];
      }
      forall i, j | 0 <= i < j < |after| ensures after[i].name != after[j].name {
        assert after[i] == ps[if i < k then i else i + 1];
        assert after[j] == ps[if j < k then j else j + 1];
      }
    }
  }

  /** Under unique names a deleted playlist is gone: viewing it fails. */
  lemma DeleteThenView(ps: seq<Playlist>, name: string)
    requires Inv(ps) && Delete(ps, name).status.Done?
    ensures !HasName(Delete(ps, name).after, name)
    ensures View(Delete(ps, name).after, name) == Failed(Error(PlaylistKind, name, NotFound))
  {
    var k := Lookup(ps, name).value;
    var after := Delete(ps, name).after;
    forall i | 0 <= i < |after| ensures after[i].name != name {
      var i' := if i < k then i else i + 1;
      assert after[i] == ps[i'];
    }
  }
}

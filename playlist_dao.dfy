/** `dao.PlaylistDAO`: the operations on `playlists` and `playlist_songs`.
    As in the other DAOs, `fails` is a `SQLException` from the call's own
    connection or statement. */
module PlaylistDao {
  import opened Basics
  import opened Tables
  import opened Database
  import opened MusicModel
  import opened PlaylistModel
  import opened MusicDao

  /** `songs` are new objects for the rows of `rows`, in order. */
  ghost predicate TracksReflect(songs: seq<Music>, rows: seq<(int, MusicRow)>)
    reads songs
  {
    |songs| == |rows| && forall i :: 0 <= i < |rows| ==> Reflects(songs[i], rows[i].0, rows[i].1)
  }

  /** `p` is the playlist built from row `row` with key `id`, carrying the
      tracks of that playlist's membership rows. */
  ghost predicate Loaded(p: Playlist, s: Store, id: int, row: PlaylistRow)
    reads p, p.songs
  {
    p.id == id && p.title == row.title && TracksReflect(p.songs, SongsQuery(s, id))
  }

  /** `createPlaylist(listenerId, title)`: one new row owned by the
      listener; the result is its generated key, or -1 when no key comes
      back. */
  method CreatePlaylist(server: Server, listenerId: int, title: string, fails: bool, keyReturned: bool)
    returns (r: Result<int>)
    modifies server
    ensures fails ==> r == Err(SqlException) && server.store == old(server.store)
    ensures !fails ==> server.store == InsertPlaylistRow(old(server.store), PlaylistRow(listenerId, title))
    ensures !fails ==> r == Ok(if keyReturned then old(server.store.nextPlaylistId) else -1)
    ensures old(server.Valid()) ==> server.Valid()
    ensures old(server.Valid()) && r.Ok? && r.value != -1 ==>
      r.value >= 1 && r.value !in old(server.store.playlists)
  {
    if fails {
      return Err(SqlException);
    }
    var id := server.store.nextPlaylistId;
    if server.Valid() {
      InsertPlaylistConsistent(server.store, PlaylistRow(listenerId, title));
    }
    server.store := InsertPlaylistRow(server.store, PlaylistRow(listenerId, title));
    r := Ok(if keyReturned then id else -1);
  }

  /** `getSongsForPlaylist(id)`: the tracks joined to the playlist through
      its membership rows. */
  method GetSongsForPlaylist(server: Server, playlistId: int, fails: bool) returns (r: Result<seq<Music>>)
    ensures fails <==> r.Err?
    ensures r.Err? ==> r.error == SqlException
    ensures r.Ok? ==> TracksReflect(r.value, SongsQuery(server.store, playlistId))
    ensures r.Ok? ==> forall i :: 0 <= i < |r.value| ==> fresh(r.value[i])
  {
    if fails {
      return Err(SqlException);
    }
    var songs := Materialize(SongsQuery(server.store, playlistId));
    r := Ok(songs);
  }

  /** `getPlaylistsForListener(id)`: one new playlist per row owned by the
      listener, each filled with its tracks by `addAll`. The loop issues
      one more query per playlist; a `SQLException` from any of them
      (`fails`) ends the call with nothing returned. */
  method GetPlaylistsForListener(server: Server, listenerId: int, fails: bool)
    returns (r: Result<seq<Playlist>>)
    ensures fails <==> r.Err?
    ensures r.Err? ==> r.error == SqlException
    ensures r.Ok? ==> var rows := PlaylistQuery(server.store, listenerId);
      |r.value| == |rows|
      && forall i :: 0 <= i < |rows| ==>
        fresh(r.value[i]) && Loaded(r.value[i], server.store, rows[i].0, rows[i].1)
  {
    if fails {
      return Err(SqlException);
    }
    var rows := PlaylistQuery(server.store, listenerId);
    var out: seq<Playlist> := [];
    var i := 0;
    while i < |rows|
      invariant 0 <= i <= |rows| && |out| == i
      invariant forall j :: 0 <= j < i ==> fresh(out[j]) && Loaded(out[j], server.store, rows[j].0, rows[j].1)
    {
      out := LoadNext(server, rows, out);
      i := i + 1;
    }
    r := Ok(out);
  }

  /** One turn of that loop: the next row's playlist appended to those
      already built, which stay as they were. */
  method LoadNext(server: Server, rows: seq<(int, PlaylistRow)>, out: seq<Playlist>) returns (next: seq<Playlist>)
    requires |out| < |rows|
    requires forall j :: 0 <= j < |out| ==> Loaded(out[j], server.store, rows[j].0, rows[j].1)
    ensures |next| == |out| + 1 && fresh(next[|out|])
    ensures forall j :: 0 <= j < |out| ==> next[j] == out[j]
    ensures forall j :: 0 <= j < |next| ==> Loaded(next[j], server.store, rows[j].0, rows[j].1)
  {
    var i := |out|;
    var p := LoadPlaylist(server, rows[i].0, rows[i].1);
    next := out + [p];
    forall j | 0 <= j <= i
      ensures Loaded(next[j], server.store, rows[j].0, rows[j].1)
    {
      if j < i {
        assert next[j] == out[j];
      }
    }
  }

  /** The body of that loop for one row: `new Playlist(id, title)`, then
      `addAll` of its tracks. */
  method LoadPlaylist(server: Server, id: int, row: PlaylistRow) returns (p: Playlist)
    ensures fresh(p) && Loaded(p, server.store, id, row)
  {
    p := new Playlist(id, row.title);
    var songs := Materialize(SongsQuery(server.store, id));
    p.songs := p.songs + songs;
  }

  /** `addSongToPlaylist(p, m)`: `INSERT IGNORE`, so a pair already there
      stays once. */
  method AddSongToPlaylist(server: Server, playlistId: int, musicId: int, fails: bool) returns (r: Status)
    modifies server
    ensures r == Done <==> !fails
    ensures server.store == (if fails then old(server.store) else InsertIgnoreSong(old(server.store), playlistId, musicId))
    ensures old(server.Valid()) ==> server.Valid()
  {
    r := AutoCommitUpdate(server, AddMembership(playlistId, musicId), fails);
  }

  /** `removeSongFromPlaylist(p, m)`. */
  method RemoveSongFromPlaylist(server: Server, playlistId: int, musicId: int, fails: bool) returns (r: Status)
    modifies server
    ensures r == Done <==> !fails
    ensures server.store == (if fails then old(server.store) else DeleteSong(old(server.store), playlistId, musicId))
    ensures old(server.Valid()) ==> server.Valid()
  {
    r := AutoCommitUpdate(server, RemoveMembership(playlistId, musicId), fails);
  }

  /** The tables after a committed `deletePlaylist(id)`: membership rows
      first, then the playlist row. */
  function PlaylistDeleted(s: Store, playlistId: int): (t: Store)
    ensures playlistId !in t.playlists
    ensures forall p :: p in t.playlistSongs ==> p.0 != playlistId
    ensures forall p :: p in s.playlistSongs && p.0 != playlistId ==> p in t.playlistSongs
    ensures forall q :: q in s.playlists && q != playlistId ==> q in t.playlists && t.playlists[q] == s.playlists[q]
    ensures t.(playlists := s.playlists, playlistSongs := s.playlistSongs) == s
    ensures t.playlistSongs == set p | p in s.playlistSongs && p.0 != playlistId
    ensures t.playlists == s.playlists - {playlistId}
  {
    DeletePlaylistRow(DeleteSongsOf(s, playlistId), playlistId)
  }

  /** `deletePlaylist(id)`: both deletes in one transaction, so either both
      happen or neither does; both have happened when only the restoring of
      auto-commit or the close throws. When the playlist delete fails and
      the rollback throws as well, the membership delete alone is
      committed. */
  method DeletePlaylist(server: Server, playlistId: int, fault: TxFault) returns (r: Status)
    modifies server
    ensures r == Done <==> Completes(fault, 2)
    ensures r.Failed? ==> r.error == SqlException
    ensures server.store ==
      if Commits(fault, 2) then PlaylistDeleted(old(server.store), playlistId)
      else if CommittedSteps(fault, 2) == 1 then DeleteSongsOf(old(server.store), playlistId)
      else old(server.store)
    ensures old(server.Valid()) ==> server.Valid()
  {
    ExecAllPair(server.store, RemoveMembershipsOf(playlistId), RemovePlaylist(playlistId));
    var conn;
    r, conn := RunInTransaction(server, [RemoveMembershipsOf(playlistId), RemovePlaylist(playlistId)], fault);
  }

  /** Adding a pair twice is the same as adding it once. */
  lemma AddSongIdempotent(s: Store, playlistId: int, musicId: int)
    ensures var t := InsertIgnoreSong(s, playlistId, musicId);
      InsertIgnoreSong(t, playlistId, musicId) == t
  {
  }

  /** Adding a pair that was absent and removing it again restores the
      tables. */
  lemma AddThenRemoveRestores(s: Store, playlistId: int, musicId: int)
    requires (playlistId, musicId) !in s.playlistSongs
    ensures DeleteSong(InsertIgnoreSong(s, playlistId, musicId), playlistId, musicId) == s
  {
    var t := DeleteSong(InsertIgnoreSong(s, playlistId, musicId), playlistId, musicId);
    assert t.playlistSongs == s.playlistSongs;
  }

  /** After the playlist is deleted, loading its songs finds none. */
  lemma DeletedPlaylistHasNoSongs(s: Store, playlistId: int)
    ensures SongsQuery(PlaylistDeleted(s, playlistId), playlistId) == []
  {
    var t := PlaylistDeleted(s, playlistId);
    var all := KeyOrder(t.music, 1, t.nextMusicId);
    assert forall i :: 0 <= i < |all| ==> (playlistId, all[i].0) !in t.playlistSongs;
  }
}

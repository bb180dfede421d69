/** `dao.MusicDAO`: the operations on the `music` table. Every call opens a
    connection of its own; a `SQLException` from opening it or from the
    statement is the `fails` parameter, and it leaves the tables as they
    were. */
module MusicDao {
  import opened Basics
  import opened Tables
  import opened Database
  import opened MusicModel

  /** `m` is the object built from row `row` with key `id`: the approval
      flag is read back as `approved == 1`, every other column as is. */
  ghost predicate Reflects(m: Music, id: int, row: MusicRow)
    reads m
  {
    && m.id == id && m.title == row.title && m.artistName == row.artistName
    && m.album == row.album && m.genre == row.genre && m.filepath == row.filepath
    && m.approved == IsSet(row.approved) && m.streams == row.streams && m.likes == row.likes
  }

  /** One new `Music` object per result row, in the order of the rows: the
      `while (rs.next()) out.add(new Music(...))` loop. */
  method Materialize(rows: seq<(int, MusicRow)>) returns (out: seq<Music>)
    ensures |out| == |rows|
    ensures forall i :: 0 <= i < |out| ==> fresh(out[i]) && Reflects(out[i], rows[i].0, rows[i].1)
  {
    out := [];
    var i := 0;
    while i < |rows|
      invariant 0 <= i <= |rows| && |out| == i
      invariant forall j :: 0 <= j < i ==> fresh(out[j]) && Reflects(out[j], rows[j].0, rows[j].1)
    {
      var row := rows[i].1;
      var m := new Music(rows[i].0, row.title, row.artistName, row.album, row.genre,
                         row.filepath, IsSet(row.approved), row.streams, row.likes);
      out := out + [m];
      i := i + 1;
    }
  }

  /** `insertMusic(...)`: one new row with the given columns, the approval
      flag written as 1 or 0 and 0 streams and 0 likes; the result is its
      generated key, or -1 when the driver returns no key (`keyReturned`
      false) although the row was inserted. */
  method InsertMusic(server: Server, title: Option<string>, artistName: string, album: Option<string>,
                     genre: string, filepath: string, approved: bool, fails: bool, keyReturned: bool)
    returns (r: Result<int>)
    modifies server
    ensures fails ==> r == Err(SqlException) && server.store == old(server.store)
    ensures !fails ==> server.store == InsertMusicRow(old(server.store),
      NewTrackRow(title, artistName, album, genre, filepath, approved))
    ensures !fails ==> r == Ok(if keyReturned then old(server.store.nextMusicId) else -1)
    ensures old(server.Valid()) ==> server.Valid()
    ensures old(server.Valid()) && r.Ok? && r.value != -1 ==>
      r.value >= 1 && r.value !in old(server.store.music)
  {
    if fails {
      return Err(SqlException);
    }
    var row := NewTrackRow(title, artistName, album, genre, filepath, approved);
    var id := server.store.nextMusicId;
    if server.Valid() {
      InsertMusicConsistent(server.store, row);
    }
    server.store := InsertMusicRow(server.store, row);
    r := Ok(if keyReturned then id else -1);
  }

  /** `getAllMusic(onlyApproved)`: every stored track, or only the approved
      ones, each as a new object. */
  method GetAllMusic(server: Server, onlyApproved: bool, fails: bool) returns (r: Result<seq<Music>>)
    ensures fails <==> r.Err?
    ensures r.Err? ==> r.error == SqlException
    ensures r.Ok? ==> var rows := MusicQuery(server.store, onlyApproved);
      |r.value| == |rows|
      && forall i :: 0 <= i < |rows| ==> fresh(r.value[i]) && Reflects(r.value[i], rows[i].0, rows[i].1)
  {
    if fails {
      return Err(SqlException);
    }
    var tracks := Materialize(MusicQuery(server.store, onlyApproved));
    r := Ok(tracks);
  }

  /** `findById(id)`: the track with that id, or `null` (`None`). */
  method FindById(server: Server, id: int, fails: bool) returns (r: Result<Option<Music>>)
    ensures fails <==> r.Err?
    ensures r.Err? ==> r.error == SqlException
    ensures r.Ok? ==> (r.value.Some? <==> id in server.store.music)
    ensures r.Ok? && r.value.Some? ==>
      fresh(r.value.value) && Reflects(r.value.value, id, server.store.music[id])
  {
    if fails {
      return Err(SqlException);
    }
    match MusicById(server.store, id)
    case None =>
      r := Ok(None);
    case Some(row) =>
      var m := new Music(id, row.title, row.artistName, row.album, row.genre,
                         row.filepath, IsSet(row.approved), row.streams, row.likes);
      r := Ok(Some(m));
  }

  /** `setApproved(id, approved)`. */
  method SetApproved(server: Server, id: int, approved: bool, fails: bool) returns (r: Status)
    modifies server
    ensures r == Done <==> !fails
    ensures server.store == (if fails then old(server.store) else UpdateApproved(old(server.store), id, approved))
    ensures old(server.Valid()) ==> server.Valid()
  {
    r := AutoCommitUpdate(server, Stmt.SetApproved(id, approved), fails);
  }

  /** `incrementStream(id)`. */
  method IncrementStream(server: Server, id: int, fails: bool) returns (r: Status)
    modifies server
    ensures r == Done <==> !fails
    ensures server.store == (if fails then old(server.store) else AddStream(old(server.store), id))
    ensures old(server.Valid()) ==> server.Valid()
  {
    r := AutoCommitUpdate(server, IncrementStreams(id), fails);
  }

  /** `incrementLike(id)`. */
  method IncrementLike(server: Server, id: int, fails: bool) returns (r: Status)
    modifies server
    ensures r == Done <==> !fails
    ensures server.store == (if fails then old(server.store) else AddLike(old(server.store), id))
    ensures old(server.Valid()) ==> server.Valid()
  {
    r := AutoCommitUpdate(server, IncrementLikes(id), fails);
  }

  /** A stored approval flag reads back as the boolean that was written. */
  lemma ApprovedRoundTrip(s: Store, id: int, approved: bool)
    requires id in s.music
    ensures IsSet(UpdateApproved(s, id, approved).music[id].approved) == approved
    ensures MusicById(UpdateApproved(s, id, approved), id).Some?
  {
  }

  /** `n` increments of the same track raise its stream count by exactly
      `n` and change nothing else in the tables. */
  lemma {:induction false} StreamsAfterIncrements(s: Store, id: int, n: nat)
    requires id in s.music
    ensures var t := ExecAll(s, seq(n, _ => IncrementStreams(id)));
      && t.music.Keys == s.music.Keys
      && t.music[id] == s.music[id].(streams := s.music[id].streams + n)
      && (forall k :: k in s.music && k != id ==> t.music[k] == s.music[k])
      && t.(music := s.music) == s
    decreases n
  {
    if n > 0 {
      var body := seq(n, _ => IncrementStreams(id));
      assert body[..n - 1] == seq(n - 1, _ => IncrementStreams(id));
      StreamsAfterIncrements(s, id, n - 1);
    }
  }
}

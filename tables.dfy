/** The six tables that `Database.ensureSchema` declares, as values: one map
    per table with an auto-increment key, one set per table with a composite
    primary key, and the append-only approval log. Each SQL statement the
    catalog issues is a function from the tables before it to the tables
    after it; each query is a function from the tables to its result rows. */
module Tables {
  import opened Basics
  import UserModel

  /** `users(id, name, email UNIQUE, password_hash, role)`. */
  datatype UserRow = UserRow(name: string, email: string, passwordHash: string, role: string)

  /** `music(id, title, artist_name, album, genre, filepath, approved TINYINT,
      streams, likes)`; title and album may be NULL. The upload timestamp is
      not modelled. */
  datatype MusicRow = MusicRow(
    title: Option<string>, artistName: string, album: Option<string>, genre: string,
    filepath: string, approved: int, streams: int, likes: int)

  /** `playlists(id, listener_id, title)`. */
  datatype PlaylistRow = PlaylistRow(listenerId: int, title: string)

  /** `approval_log(id, music_id, admin_id)`; the id is the position in the
      log and the timestamp is not modelled. */
  datatype ApprovalRow = ApprovalRow(musicId: int, adminId: int)

  /** All tables, with the next value of each AUTO_INCREMENT counter.
      `playlist_songs` is keyed on (playlist_id, music_id) and `follows` on
      (listener_id, artist_name), so as sets they cannot hold a pair twice. */
  datatype Store = Store(
    users: map<int, UserRow>, nextUserId: int,
    music: map<int, MusicRow>, nextMusicId: int,
    playlists: map<int, PlaylistRow>, nextPlaylistId: int,
    playlistSongs: set<(int, int)>,
    follows: set<(int, string)>,
    approvalLog: seq<ApprovalRow>)

  /** The tables right after `ensureSchema` first creates them. */
  const EmptyStore: Store := Store(map[], 1, map[], 1, map[], 1, {}, {}, [])

  /** How a boolean is written to a TINYINT column: `b ? 1 : 0`. */
  function Flag(b: bool): (v: int)
    ensures v == 0 || v == 1
    ensures IsSet(v) == b
  {
    if b then 1 else 0
  }

  /** How a TINYINT column is read back as a boolean: `getInt(..) == 1`. */
  predicate IsSet(v: int) {
    v == 1
  }

  predicate KeysBelow<R>(m: map<int, R>, next: int) {
    forall id :: id in m ==> 1 <= id < next
  }

  predicate UniqueEmails(users: map<int, UserRow>) {
    forall i, j :: i in users && j in users && users[i].email == users[j].email ==> i == j
  }

  /** What every stored track satisfies: the flag is 0 or 1 (it is only
      ever written from a boolean) and the counters start at 0 and only
      grow. */
  predicate WellFormedTrack(r: MusicRow) {
    (r.approved == 0 || r.approved == 1) && r.streams >= 0 && r.likes >= 0
  }

  /** The invariant of the stored tables: every key was handed out by its
      AUTO_INCREMENT counter, emails are unique, every role column holds
      the name of a role (the only writer stores `role.name()`), and every
      track is well formed. */
  ghost predicate Consistent(s: Store) {
    && s.nextUserId >= 1 && s.nextMusicId >= 1 && s.nextPlaylistId >= 1
    && KeysBelow(s.users, s.nextUserId)
    && KeysBelow(s.music, s.nextMusicId)
    && KeysBelow(s.playlists, s.nextPlaylistId)
    && UniqueEmails(s.users)
    && (forall id :: id in s.users ==> UserModel.RoleFromName(s.users[id].role).Some?)
    && (forall id :: id in s.music ==> WellFormedTrack(s.music[id]))
  }

  lemma EmptyStoreConsistent()
    ensures Consistent(EmptyStore)
  {
  }

  /* ---------------------------- statements ---------------------------- */

  /** `UPDATE music SET approved=? WHERE id=?`: one field of at most one row. */
  function UpdateApproved(s: Store, id: int, approved: bool): (t: Store)
    ensures t.music.Keys == s.music.Keys
    ensures forall k :: k in s.music && k != id ==> t.music[k] == s.music[k]
    ensures id in s.music ==> t.music[id] == s.music[id].(approved := Flag(approved))
    ensures t.(music := s.music) == s
  {
    if id in s.music then s.(music := s.music[id := s.music[id].(approved := Flag(approved))]) else s
  }

  /** `UPDATE music SET streams = streams + 1 WHERE id=?`. */
  function AddStream(s: Store, id: int): (t: Store)
    ensures t.music.Keys == s.music.Keys
    ensures forall k :: k in s.music && k != id ==> t.music[k] == s.music[k]
    ensures id in s.music ==> t.music[id] == s.music[id].(streams := s.music[id].streams + 1)
    ensures t.(music := s.music) == s
  {
    if id in s.music then s.(music := s.music[id := s.music[id].(streams := s.music[id].streams + 1)]) else s
  }

  /** `UPDATE music SET likes = likes + 1 WHERE id=?`. */
  function AddLike(s: Store, id: int): (t: Store)
    ensures t.music.Keys == s.music.Keys
    ensures forall k :: k in s.music && k != id ==> t.music[k] == s.music[k]
    ensures id in s.music ==> t.music[id] == s.music[id].(likes := s.music[id].likes + 1)
    ensures t.(music := s.music) == s
  {
    if id in s.music then s.(music := s.music[id := s.music[id].(likes := s.music[id].likes + 1)]) else s
  }

  /** `INSERT INTO approval_log (music_id, admin_id)`: no foreign key, so
      the row goes in whether or not a track has that id. */
  function AppendApproval(s: Store, musicId: int, adminId: int): (t: Store)
    ensures t.approvalLog == s.approvalLog + [ApprovalRow(musicId, adminId)]
    ensures t.(approvalLog := s.approvalLog) == s
  {
    s.(approvalLog := s.approvalLog + [ApprovalRow(musicId, adminId)])
  }

  /** `INSERT IGNORE INTO playlist_songs`: a pair already present is skipped. */
  function InsertIgnoreSong(s: Store, playlistId: int, musicId: int): (t: Store)
    ensures t.playlistSongs == s.playlistSongs + {(playlistId, musicId)}
    ensures t.(playlistSongs := s.playlistSongs) == s
  {
    s.(playlistSongs := s.playlistSongs + {(playlistId, musicId)})
  }

  /** `DELETE FROM playlist_songs WHERE playlist_id=? AND music_id=?`. */
  function DeleteSong(s: Store, playlistId: int, musicId: int): (t: Store)
    ensures t.playlistSongs == s.playlistSongs - {(playlistId, musicId)}
    ensures t.(playlistSongs := s.playlistSongs) == s
  {
    s.(playlistSongs := s.playlistSongs - {(playlistId, musicId)})
  }

  /** `DELETE FROM playlist_songs WHERE playlist_id=?`. */
  function DeleteSongsOf(s: Store, playlistId: int): (t: Store)
    ensures forall p :: p in t.playlistSongs <==> p in s.playlistSongs && p.0 != playlistId
    ensures t.(playlistSongs := s.playlistSongs) == s
  {
    s.(playlistSongs := set p | p in s.playlistSongs && p.0 != playlistId)
  }

  /** `DELETE FROM playlists WHERE id=?`. */
  function DeletePlaylistRow(s: Store, playlistId: int): (t: Store)
    ensures t.playlists == s.playlists - {playlistId}
    ensures t.(playlists := s.playlists) == s
  {
    s.(playlists := s.playlists - {playlistId})
  }

  /** `INSERT IGNORE INTO follows`. */
  function InsertIgnoreFollow(s: Store, listenerId: int, artistName: string): (t: Store)
    ensures t.follows == s.follows + {(listenerId, artistName)}
    ensures t.(follows := s.follows) == s
  {
    s.(follows := s.follows + {(listenerId, artistName)})
  }

  /** `DELETE FROM follows WHERE listener_id=? AND artist_name=?`. */
  function DeleteFollow(s: Store, listenerId: int, artistName: string): (t: Store)
    ensures t.follows == s.follows - {(listenerId, artistName)}
    ensures t.(follows := s.follows) == s
  {
    s.(follows := s.follows - {(listenerId, artistName)})
  }

  /** The statements that run without asking for a generated key, so that a
      transaction body is a list of them. */
  datatype Stmt =
    | SetApproved(musicId: int, approved: bool)
    | IncrementStreams(musicId: int)
    | IncrementLikes(musicId: int)
    | LogApproval(musicId: int, adminId: int)
    | AddMembership(playlistId: int, musicId: int)
    | RemoveMembership(playlistId: int, musicId: int)
    | RemoveMembershipsOf(playlistId: int)
    | RemovePlaylist(playlistId: int)
    | AddFollow(listenerId: int, artistName: string)
    | RemoveFollow(listenerId: int, artistName: string)

  function Exec(s: Store, st: Stmt): (t: Store)
    ensures t.users == s.users && t.music.Keys == s.music.Keys && t.playlists.Keys <= s.playlists.Keys
    ensures t.nextUserId == s.nextUserId && t.nextMusicId == s.nextMusicId && t.nextPlaylistId == s.nextPlaylistId
    ensures s.approvalLog <= t.approvalLog
  {
    match st
    case SetApproved(id, b) => UpdateApproved(s, id, b)
    case IncrementStreams(id) => AddStream(s, id)
    case IncrementLikes(id) => AddLike(s, id)
    case LogApproval(id, admin) => AppendApproval(s, id, admin)
    case AddMembership(p, m) => InsertIgnoreSong(s, p, m)
    case RemoveMembership(p, m) => DeleteSong(s, p, m)
    case RemoveMembershipsOf(p) => DeleteSongsOf(s, p)
    case RemovePlaylist(p) => DeletePlaylistRow(s, p)
    case AddFollow(l, a) => InsertIgnoreFollow(s, l, a)
    case RemoveFollow(l, a) => DeleteFollow(s, l, a)
  }

  /** The tables after running `body` in order. */
  function ExecAll(s: Store, body: seq<Stmt>): (t: Store)
    ensures t.users == s.users && t.music.Keys == s.music.Keys && t.playlists.Keys <= s.playlists.Keys
    ensures t.nextUserId == s.nextUserId && t.nextMusicId == s.nextMusicId && t.nextPlaylistId == s.nextPlaylistId
    ensures s.approvalLog <= t.approvalLog
    decreases |body|
  {
    if body == [] then s else Exec(ExecAll(s, body[..|body| - 1]), body[|body| - 1])
  }

  /** A body of two statements runs the first, then the second; its
      prefixes run nothing and the first alone. */
  lemma ExecAllPair(s: Store, first: Stmt, second: Stmt)
    ensures ExecAll(s, [first, second]) == Exec(Exec(s, first), second)
    ensures ExecAll(s, [first, second][..0]) == s
    ensures ExecAll(s, [first, second][..1]) == Exec(s, first)
    ensures ExecAll(s, [first, second][..2]) == Exec(Exec(s, first), second)
  {
    assert [first, second][..0] == [];
    assert [first, second][..2] == [first, second];
    var body := [first, second];
    assert body[..1] == [first] && [first][..0] == [];
    assert ExecAll(s, [first]) == Exec(ExecAll(s, []), first);
  }

  /** No statement breaks the invariant: updates touch neither keys nor
      emails, and an increment keeps a counter non-negative. */
  lemma ExecConsistent(s: Store, st: Stmt)
    requires Consistent(s)
    ensures Consistent(Exec(s, st))
  {
    var t := Exec(s, st);
    match st
    case SetApproved(id, b) =>
      assert forall k :: k in t.music ==> WellFormedTrack(t.music[k]);
    case IncrementStreams(id) =>
      assert forall k :: k in t.music ==> WellFormedTrack(t.music[k]);
    case IncrementLikes(id) =>
      assert forall k :: k in t.music ==> WellFormedTrack(t.music[k]);
    case _ =>
  }

  lemma {:induction false} ExecAllConsistent(s: Store, body: seq<Stmt>)
    requires Consistent(s)
    ensures Consistent(ExecAll(s, body))
    decreases |body|
  {
    if body != [] {
      ExecAllConsistent(s, body[..|body| - 1]);
      ExecConsistent(ExecAll(s, body[..|body| - 1]), body[|body| - 1]);
    }
  }

  /** The row `INSERT INTO music(title, ..., approved)` creates: the
      columns it does not name take their defaults, 0 streams and 0 likes. */
  function NewTrackRow(title: Option<string>, artistName: string, album: Option<string>,
                       genre: string, filepath: string, approved: bool): (r: MusicRow)
    ensures WellFormedTrack(r)
    ensures r.streams == 0 && r.likes == 0 && IsSet(r.approved) == approved
    ensures r.title == title && r.artistName == artistName && r.album == album
    ensures r.genre == genre && r.filepath == filepath
  {
    MusicRow(title, artistName, album, genre, filepath, Flag(approved), 0, 0)
  }

  /** An INSERT into `music`: the row gets the next AUTO_INCREMENT key. */
  function InsertMusicRow(s: Store, row: MusicRow): (t: Store)
    ensures t.music == s.music[s.nextMusicId := row] && t.nextMusicId == s.nextMusicId + 1
    ensures t.(music := s.music, nextMusicId := s.nextMusicId) == s
  {
    s.(music := s.music[s.nextMusicId := row], nextMusicId := s.nextMusicId + 1)
  }

  lemma InsertMusicConsistent(s: Store, row: MusicRow)
    requires Consistent(s) && WellFormedTrack(row)
    ensures Consistent(InsertMusicRow(s, row))
    ensures s.nextMusicId !in s.music && s.nextMusicId >= 1
  {
  }

  /** An INSERT into `playlists`. */
  function InsertPlaylistRow(s: Store, row: PlaylistRow): (t: Store)
    ensures t.playlists == s.playlists[s.nextPlaylistId := row]
    ensures t.nextPlaylistId == s.nextPlaylistId + 1
    ensures t.(playlists := s.playlists, nextPlaylistId := s.nextPlaylistId) == s
  {
    s.(playlists := s.playlists[s.nextPlaylistId := row], nextPlaylistId := s.nextPlaylistId + 1)
  }

  lemma InsertPlaylistConsistent(s: Store, row: PlaylistRow)
    requires Consistent(s)
    ensures Consistent(InsertPlaylistRow(s, row))
    ensures s.nextPlaylistId !in s.playlists && s.nextPlaylistId >= 1
  {
  }

  predicate EmailTaken(s: Store, email: string) {
    exists id :: id in s.users && s.users[id].email == email
  }

  /** An INSERT into `users`; the UNIQUE constraint on `email` rejects a
      second row with the same email (`None`, a `SQLException`). */
  function InsertUserRow(s: Store, row: UserRow): (t: Option<Store>)
    ensures t.None? <==> EmailTaken(s, row.email)
    ensures t.Some? ==> t.value.users == s.users[s.nextUserId := row]
    ensures t.Some? ==> t.value.nextUserId == s.nextUserId + 1
    ensures t.Some? ==> t.value.(users := s.users, nextUserId := s.nextUserId) == s
  {
    if EmailTaken(s, row.email) then None
    else Some(s.(users := s.users[s.nextUserId := row], nextUserId := s.nextUserId + 1))
  }

  /** A successful user insert keeps emails unique. */
  lemma InsertUserConsistent(s: Store, row: UserRow)
    requires Consistent(s) && UserModel.RoleFromName(row.role).Some?
    requires InsertUserRow(s, row).Some?
    ensures Consistent(InsertUserRow(s, row).value)
    ensures s.nextUserId !in s.users && s.nextUserId >= 1
  {
    assert forall k :: k in s.users ==> s.users[k].email != row.email;
  }

  /* ----------------------------- queries ------------------------------ */

  predicate Increasing<R>(rows: seq<(int, R)>) {
    forall i, j :: 0 <= i < j < |rows| ==> rows[i].0 < rows[j].0
  }

  /** The rows of a table whose key lies in `[lo, hi)`, in ascending key
      order: the order a primary-key scan produces. */
  function KeyOrder<R>(m: map<int, R>, lo: int, hi: int): (rows: seq<(int, R)>)
    ensures Increasing(rows)
    ensures forall i :: 0 <= i < |rows| ==>
      lo <= rows[i].0 < hi && rows[i].0 in m && rows[i].1 == m[rows[i].0]
    ensures forall k :: lo <= k < hi && k in m ==> (k, m[k]) in rows
    decreases hi - lo
  {
    if lo >= hi then []
    else
      var rest := KeyOrder(m, lo + 1, hi);
      if lo in m then [(lo, m[lo])] + rest else rest
  }

  /** The rows of `rows` that satisfy `keep`, in their order. */
  function Where<R(!new)>(rows: seq<(int, R)>, keep: (int, R) -> bool): (out: seq<(int, R)>)
    ensures forall x :: x in out <==> x in rows && keep(x.0, x.1)
    ensures Increasing(rows) ==> Increasing(out)
    ensures (forall i :: 0 <= i < |rows| ==> !keep(rows[i].0, rows[i].1)) ==> out == []
    decreases |rows|
  {
    if rows == [] then []
    else
      var rest := Where(rows[1..], keep);
      assert forall i :: 0 <= i < |rest| ==> rest[i] in rows[1..];
      if keep(rows[0].0, rows[0].1) then [rows[0]] + rest else rest
  }

  /** `SELECT ... FROM music`, with `WHERE approved=1` when only approved
      tracks are asked for. */
  function MusicQuery(s: Store, onlyApproved: bool): (rows: seq<(int, MusicRow)>)
    ensures Increasing(rows)
    ensures forall i :: 0 <= i < |rows| ==>
      rows[i].0 in s.music && rows[i].1 == s.music[rows[i].0]
      && (onlyApproved ==> IsSet(rows[i].1.approved))
  {
    var all := KeyOrder(s.music, 1, s.nextMusicId);
    if onlyApproved then Where(all, ApprovedRow) else all
  }

  /** The condition `approved=1` of the approved-tracks query. */
  predicate ApprovedRow(id: int, row: MusicRow) {
    IsSet(row.approved)
  }

  /** On stored tables the query misses no track it should return. */
  lemma MusicQueryComplete(s: Store, onlyApproved: bool, k: int)
    requires Consistent(s)
    requires k in s.music && (onlyApproved ==> IsSet(s.music[k].approved))
    ensures (k, s.music[k]) in MusicQuery(s, onlyApproved)
  {
    var all := KeyOrder(s.music, 1, s.nextMusicId);
    assert (k, s.music[k]) in all;
    if onlyApproved {
      var i :| 0 <= i < |all| && all[i] == (k, s.music[k]);
      assert all[i] in Where(all, ApprovedRow);
    }
  }

  /** `SELECT ... FROM music WHERE id=?`. */
  function MusicById(s: Store, id: int): Option<MusicRow> {
    if id in s.music then Some(s.music[id]) else None
  }

  /** `SELECT id,name,email,role FROM users`. */
  function UserQuery(s: Store): (rows: seq<(int, UserRow)>)
    ensures Increasing(rows)
    ensures forall i :: 0 <= i < |rows| ==> rows[i].0 in s.users && rows[i].1 == s.users[rows[i].0]
    ensures Consistent(s) ==> forall k :: k in s.users ==> (k, s.users[k]) in rows
  {
    KeyOrder(s.users, 1, s.nextUserId)
  }

  /** The first of `rows` with the given email. */
  function FirstWithEmail(rows: seq<(int, UserRow)>, email: string): (r: Option<(int, UserRow)>)
    ensures r.Some? ==> r.value in rows && r.value.1.email == email
    ensures r.None? ==> forall i :: 0 <= i < |rows| ==> rows[i].1.email != email
    ensures r.Some? ==> exists i :: 0 <= i < |rows| && rows[i] == r.value && AllOtherEmail(rows[..i], email)
    decreases |rows|
  {
    if rows == [] then None
    else if rows[0].1.email == email then Some(rows[0])
    else
      var r := FirstWithEmail(rows[1..], email);
      assert r.Some? ==> exists i :: 0 <= i < |rows| && rows[i] == r.value && AllOtherEmail(rows[..i], email) by {
        if r.Some? {
          var i :| 0 <= i < |rows[1..]| && rows[1..][i] == r.value && AllOtherEmail(rows[1..][..i], email);
          assert rows[..i + 1] == [rows[0]] + rows[1..][..i];
          assert rows[i + 1] == r.value;
        }
      }
      r
  }

  /** No row of `rows` has the given email. */
  predicate AllOtherEmail(rows: seq<(int, UserRow)>, email: string) {
    forall j :: 0 <= j < |rows| ==> rows[j].1.email != email
  }

  /** `SELECT ... FROM users WHERE email=?`, first row. */
  function UserByEmail(s: Store, email: string): (r: Option<(int, UserRow)>)
    ensures r.Some? ==> r.value.0 in s.users && s.users[r.value.0] == r.value.1
    ensures r.Some? ==> r.value.1.email == email
    ensures Consistent(s) && r.None? ==> !EmailTaken(s, email)
  {
    FirstWithEmail(UserQuery(s), email)
  }

  /** Emails are unique, so the lookup finds exactly the user with that email. */
  lemma UserByEmailFinds(s: Store, id: int)
    requires Consistent(s) && id in s.users
    ensures UserByEmail(s, s.users[id].email) == Some((id, s.users[id]))
  {
    var r := UserByEmail(s, s.users[id].email);
    assert (id, s.users[id]) in UserQuery(s);
  }

  /** `SELECT ... FROM users WHERE id=?`. */
  function UserById(s: Store, id: int): Option<UserRow> {
    if id in s.users then Some(s.users[id]) else None
  }

  /** `SELECT id,title FROM playlists WHERE listener_id=?`. */
  function PlaylistQuery(s: Store, listenerId: int): (rows: seq<(int, PlaylistRow)>)
    ensures Increasing(rows)
    ensures forall i :: 0 <= i < |rows| ==>
      rows[i].0 in s.playlists && rows[i].1 == s.playlists[rows[i].0]
      && rows[i].1.listenerId == listenerId
  {
    Where(KeyOrder(s.playlists, 1, s.nextPlaylistId), (k, r: PlaylistRow) => r.listenerId == listenerId)
  }

  lemma PlaylistQueryComplete(s: Store, listenerId: int, k: int)
    requires Consistent(s)
    requires k in s.playlists && s.playlists[k].listenerId == listenerId
    ensures (k, s.playlists[k]) in PlaylistQuery(s, listenerId)
  {
    var all := KeyOrder(s.playlists, 1, s.nextPlaylistId);
    assert (k, s.playlists[k]) in all;
    var i :| 0 <= i < |all| && all[i] == (k, s.playlists[k]);
    assert all[i] in Where(all, (k, r: PlaylistRow) => r.listenerId == listenerId);
  }

  /** `SELECT m.* FROM music m JOIN playlist_songs ps ON m.id=ps.music_id
      WHERE ps.playlist_id=?`, in track order. */
  function SongsQuery(s: Store, playlistId: int): (rows: seq<(int, MusicRow)>)
    ensures Increasing(rows)
    ensures forall i :: 0 <= i < |rows| ==>
      rows[i].0 in s.music && rows[i].1 == s.music[rows[i].0]
      && (playlistId, rows[i].0) in s.playlistSongs
  {
    Where(KeyOrder(s.music, 1, s.nextMusicId), (k, r: MusicRow) => (playlistId, k) in s.playlistSongs)
  }

  lemma SongsQueryComplete(s: Store, playlistId: int, k: int)
    requires Consistent(s)
    requires k in s.music && (playlistId, k) in s.playlistSongs
    ensures (k, s.music[k]) in SongsQuery(s, playlistId)
  {
    var all := KeyOrder(s.music, 1, s.nextMusicId);
    assert (k, s.music[k]) in all;
    var i :| 0 <= i < |all| && all[i] == (k, s.music[k]);
    assert all[i] in Where(all, (k, r: MusicRow) => (playlistId, k) in s.playlistSongs);
  }

  /** `SELECT artist_name FROM follows WHERE listener_id=?`, as a set. */
  function FollowedBy(s: Store, listenerId: int): (artists: set<string>)
    ensures forall a :: a in artists <==> (listenerId, a) in s.follows
  {
    set p | p in s.follows && p.0 == listenerId :: p.1
  }
}

/** `service.MusicService`: the coordinator the user interface calls. It
    forwards to the DAOs and keeps two caches, users and tracks by id,
    which it only ever writes. The analytics thread, the lock around the
    caches and `shutdown` are not part of this model. */
module Catalog {
  import opened Basics
  import opened Tables
  import opened Database
  import opened MusicModel
  import opened PlaylistModel
  import opened UserModel
  import opened MusicDao
  import PlaylistDao
  import FollowDao
  import opened UserDao
  import opened Auth

  /* ------------------------ streams by artist ------------------------ */

  /** The artist names of `rows`. */
  function ArtistsOf(rows: seq<(int, MusicRow)>): set<string>
    decreases |rows|
  {
    if rows == [] then {} else ArtistsOf(rows[..|rows| - 1]) + {rows[|rows| - 1].1.artistName}
  }

  lemma {:induction false} ArtistsOfMembers(rows: seq<(int, MusicRow)>, a: string)
    ensures a in ArtistsOf(rows) <==> exists i :: 0 <= i < |rows| && rows[i].1.artistName == a
    decreases |rows|
  {
    if rows != [] {
      var init := rows[..|rows| - 1];
      ArtistsOfMembers(init, a);
      if i :| 0 <= i < |init| && init[i].1.artistName == a {
        assert rows[i] == init[i];
      }
      if i :| 0 <= i < |rows| && rows[i].1.artistName == a {
        if i < |init| {
          assert init[i] == rows[i];
        }
      }
    }
  }

  /** What one row adds to the total of artist `a`. */
  function Contribution(row: MusicRow, a: string): int {
    if row.artistName == a then row.streams else 0
  }

  /** The streams of the rows by artist `a`, added in row order. */
  function ArtistStreams(rows: seq<(int, MusicRow)>, a: string): (total: int)
    ensures a !in ArtistsOf(rows) ==> total == 0
    decreases |rows|
  {
    if rows == [] then 0 else ArtistStreams(rows[..|rows| - 1], a) + Contribution(rows[|rows| - 1].1, a)
  }

  /** The map `getStreamsByArtist` builds from the rows it reads: one entry
      per artist name, holding that artist's total. */
  function StreamsByArtist(rows: seq<(int, MusicRow)>): (totals: map<string, int>)
    ensures forall a :: a in totals <==> exists i :: 0 <= i < |rows| && rows[i].1.artistName == a
  {
    assert forall a :: a in ArtistsOf(rows) <==> exists i :: 0 <= i < |rows| && rows[i].1.artistName == a by {
      forall a
        ensures a in ArtistsOf(rows) <==> exists i :: 0 <= i < |rows| && rows[i].1.artistName == a
      {
        ArtistsOfMembers(rows, a);
      }
    }
    map a | a in ArtistsOf(rows) :: ArtistStreams(rows, a)
  }

  /** One more row adds its streams to its artist's entry, creating the
      entry when the artist is new. */
  lemma StreamsByArtistSnoc(rows: seq<(int, MusicRow)>, i: nat, totals: map<string, int>, a: string, n: int)
    requires i < |rows| && totals == StreamsByArtist(rows[..i])
    requires a == rows[i].1.artistName && n == rows[i].1.streams
    ensures StreamsByArtist(rows[..i + 1]) == totals[a := (if a in totals then totals[a] else 0) + n]
  {
    var init, next := rows[..i], rows[..i + 1];
    assert next[..i] == init && next[i] == rows[i];
  }

  /** The loop of `getStreamsByArtist` over the tracks it read:
      the entry of each track's artist, 0 when absent, plus the track's
      streams, track by track. */
  method Tally(ms: seq<Music>, ghost rows: seq<(int, MusicRow)>) returns (totals: map<string, int>)
    requires |ms| == |rows|
    requires forall i :: 0 <= i < |rows| ==> Reflects(ms[i], rows[i].0, rows[i].1)
    ensures totals == StreamsByArtist(rows)
  {
    totals := map[];
    for i := 0 to |ms|
      invariant totals == StreamsByArtist(rows[..i])
    {
      var m := ms[i];
      assert m.artistName == rows[i].1.artistName && m.streams == rows[i].1.streams;
      var before := if m.artistName in totals then totals[m.artistName] else 0;
      StreamsByArtistSnoc(rows, i, totals, m.artistName, m.streams);
      totals := totals[m.artistName := before + m.streams];
    }
    assert rows[..|rows|] == rows;
  }

  lemma {:induction false} ArtistStreamsCons(x: (int, MusicRow), rest: seq<(int, MusicRow)>, a: string)
    ensures ArtistStreams([x] + rest, a) == Contribution(x.1, a) + ArtistStreams(rest, a)
    decreases |rest|
  {
    if rest != [] {
      var rows := [x] + rest;
      assert rows[..|rows| - 1] == [x] + rest[..|rest| - 1];
      ArtistStreamsCons(x, rest[..|rest| - 1], a);
    }
  }

  /** An independent account of the same total: walk the track ids in
      `[lo, hi)` and add the streams of each approved track by `a`. */
  function ApprovedStreams(music: map<int, MusicRow>, a: string, lo: int, hi: int): int
    decreases hi - lo
  {
    if lo >= hi then 0
    else
      (if lo in music && IsSet(music[lo].approved) then Contribution(music[lo], a) else 0)
      + ApprovedStreams(music, a, lo + 1, hi)
  }

  lemma {:induction false} ApprovedStreamsMatch(music: map<int, MusicRow>, a: string, lo: int, hi: int)
    ensures ArtistStreams(Where(KeyOrder(music, lo, hi), ApprovedRow), a) == ApprovedStreams(music, a, lo, hi)
    decreases hi - lo
  {
    if lo < hi {
      var rest := KeyOrder(music, lo + 1, hi);
      ApprovedStreamsMatch(music, a, lo + 1, hi);
      if lo in music {
        var x := (lo, music[lo]);
        var rows := [x] + rest;
        assert rows[0] == x && rows[1..] == rest;
        if ApprovedRow(x.0, x.1) {
          ArtistStreamsCons(x, Where(rest, ApprovedRow), a);
        }
      }
    }
  }

  /** What `getStreamsByArtist` promises, on stored tables: an artist is in
      the map exactly when it has an approved track, and its entry is the
      sum of the streams of its approved tracks; unapproved tracks add
      nothing. */
  lemma StreamsByArtistMeaning(s: Store, a: string)
    requires Consistent(s)
    ensures var rows := MusicQuery(s, true);
      && (a in StreamsByArtist(rows) <==>
          exists k :: k in s.music && IsSet(s.music[k].approved) && s.music[k].artistName == a)
      && (a in StreamsByArtist(rows) ==>
          StreamsByArtist(rows)[a] == ApprovedStreams(s.music, a, 1, s.nextMusicId))
  {
    var rows := MusicQuery(s, true);
    ApprovedArtists(s, rows, a);
    ApprovedStreamsMatch(s.music, a, 1, s.nextMusicId);
  }

  /** The artists of the approved listing are those with an approved
      track. */
  lemma ApprovedArtists(s: Store, rows: seq<(int, MusicRow)>, a: string)
    requires Consistent(s) && rows == MusicQuery(s, true)
    ensures a in ArtistsOf(rows) <==>
      exists k :: k in s.music && IsSet(s.music[k].approved) && s.music[k].artistName == a
  {
    ArtistsOfMembers(rows, a);
    if k :| k in s.music && IsSet(s.music[k].approved) && s.music[k].artistName == a {
      MusicQueryComplete(s, true, k);
      var i :| 0 <= i < |rows| && rows[i] == (k, s.music[k]);
      assert rows[i].1.artistName == a;
    }
    if i :| 0 <= i < |rows| && rows[i].1.artistName == a {
      assert rows[i].0 in s.music && IsSet(s.music[rows[i].0].approved);
    }
  }

  /** Two approved tracks by "A" with 3 and 5 streams and an unapproved
      one by "A" with 100 give {"A": 8}. */
  lemma StreamsByArtistExample(s: Store, r1: MusicRow, r2: MusicRow, r3: MusicRow)
    requires s.music == map[1 := r1, 2 := r2, 3 := r3] && s.nextMusicId == 4
    requires r1.artistName == "A" && r1.approved == 1 && r1.streams == 3
    requires r2.artistName == "A" && r2.approved == 1 && r2.streams == 5
    requires r3.artistName == "A" && r3.approved == 0 && r3.streams == 100
    ensures StreamsByArtist(MusicQuery(s, true)) == map["A" := 8]
  {
    ExampleListing(s, r1, r2, r3);
    ExampleTotals(r1, r2);
  }

  /** The fold over the two approved rows. */
  lemma ExampleTotals(r1: MusicRow, r2: MusicRow)
    requires r1.artistName == "A" && r1.streams == 3
    requires r2.artistName == "A" && r2.streams == 5
    ensures StreamsByArtist([(1, r1), (2, r2)]) == map["A" := 8]
  {
    var rows: seq<(int, MusicRow)> := [(1, r1), (2, r2)];
    var one := rows[..1];
    assert one == [(1, r1)] && one[..0] == [];
    assert ArtistsOf(one) == {"A"};
    assert ArtistStreams(one, "A") == 3;
    assert ArtistsOf(rows) == {"A"};
    assert ArtistStreams(rows, "A") == 8;
  }

  /** The approved listing of those tables: tracks 1 and 2, in key order. */
  lemma ExampleListing(s: Store, r1: MusicRow, r2: MusicRow, r3: MusicRow)
    requires s.music == map[1 := r1, 2 := r2, 3 := r3] && s.nextMusicId == 4
    requires r1.approved == 1 && r2.approved == 1 && r3.approved == 0
    ensures MusicQuery(s, true) == [(1, r1), (2, r2)]
  {
    ExampleScan(s.music, r1, r2, r3);
    ExampleFilter(r1, r2, r3);
  }

  lemma ExampleFilter(r1: MusicRow, r2: MusicRow, r3: MusicRow)
    requires r1.approved == 1 && r2.approved == 1 && r3.approved == 0
    ensures Where([(1, r1), (2, r2), (3, r3)], ApprovedRow) == [(1, r1), (2, r2)]
  {
    var all: seq<(int, MusicRow)> := [(1, r1), (2, r2), (3, r3)];
    assert all[2..] == [(3, r3)] && all[1..] == [(2, r2), (3, r3)];
    assert [(3, r3)][1..] == [];
    assert Where([(3, r3)], ApprovedRow) == [];
    assert Where(all[1..], ApprovedRow) == [(2, r2)];
  }

  lemma ExampleScan(m: map<int, MusicRow>, r1: MusicRow, r2: MusicRow, r3: MusicRow)
    requires m == map[1 := r1, 2 := r2, 3 := r3]
    ensures KeyOrder(m, 1, 4) == [(1, r1), (2, r2), (3, r3)]
  {
    assert KeyOrder(m, 4, 4) == [];
    assert KeyOrder(m, 3, 4) == [(3, r3)];
    assert KeyOrder(m, 2, 4) == [(2, r2), (3, r3)];
  }

  /* ---------------------------- approval ----------------------------- */

  /** The tables after the approval transaction commits: the flag of the
      track, if there is one, and one new log row, whether or not a track
      has that id. */
  function ApprovalApplied(s: Store, musicId: int, approved: bool, adminId: int): (t: Store)
    ensures t.approvalLog == s.approvalLog + [ApprovalRow(musicId, adminId)]
    ensures t.music.Keys == s.music.Keys
    ensures musicId in s.music ==> t.music[musicId] == s.music[musicId].(approved := Flag(approved))
    ensures forall k :: k in s.music && k != musicId ==> t.music[k] == s.music[k]
    ensures t.(music := s.music, approvalLog := s.approvalLog) == s
  {
    AppendApproval(UpdateApproved(s, musicId, approved), musicId, adminId)
  }

  /** Approving a track leaves stored tables consistent. */
  lemma ApprovalKeepsConsistent(s: Store, musicId: int, approved: bool, adminId: int)
    requires Consistent(s)
    ensures Consistent(ApprovalApplied(s, musicId, approved, adminId))
  {
    ExecAllPair(s, Stmt.SetApproved(musicId, approved), LogApproval(musicId, adminId));
    ExecAllConsistent(s, [Stmt.SetApproved(musicId, approved), LogApproval(musicId, adminId)]);
  }

  /** The log rows about one track, in order. */
  function LogFor(log: seq<ApprovalRow>, musicId: int): (rows: seq<ApprovalRow>)
    ensures forall i :: 0 <= i < |rows| ==> rows[i].musicId == musicId && rows[i] in log
    ensures (forall i :: 0 <= i < |log| ==> log[i].musicId != musicId) ==> rows == []
    ensures forall x :: x in log && x.musicId == musicId ==> x in rows
    decreases |log|
  {
    if log == [] then []
    else
      var init := log[..|log| - 1];
      assert forall i :: 0 <= i < |init| ==> init[i] == log[i];
      assert log == init + [log[|log| - 1]];
      LogFor(init, musicId) + (if log[|log| - 1].musicId == musicId then [log[|log| - 1]] else [])
  }

  /** Appending a row to the log appends it to the rows about its track and
      leaves the rows about every other track as they were, so the rows
      come in the order they were logged. */
  lemma LogForSnoc(log: seq<ApprovalRow>, x: ApprovalRow, musicId: int)
    ensures LogFor(log + [x], musicId) == LogFor(log, musicId) + (if x.musicId == musicId then [x] else [])
  {
    assert (log + [x])[..|log + [x]| - 1] == log;
  }

  /** Upload a track, approve it as admin 7: before the approval the
      approved listing leaves it out, afterwards it lists it, and the log
      holds exactly one row for it, naming admin 7 (the log holds no row
      for an id before the id is handed out, which approving an id not yet
      used would break). */
  lemma UploadThenApprove(s: Store, title: Option<string>, artistName: string, album: Option<string>,
                          genre: string, filepath: string)
    requires Consistent(s)
    requires forall i :: 0 <= i < |s.approvalLog| ==> s.approvalLog[i].musicId != s.nextMusicId
    ensures var id := s.nextMusicId;
      var uploaded := InsertMusicRow(s, NewTrackRow(title, artistName, album, genre, filepath, false));
      var approved := ApprovalApplied(uploaded, id, true, 7);
      && (forall i :: 0 <= i < |MusicQuery(uploaded, true)| ==> MusicQuery(uploaded, true)[i].0 != id)
      && LogFor(approved.approvalLog, id) == [ApprovalRow(id, 7)]
      && id in approved.music && (id, approved.music[id]) in MusicQuery(approved, true)
  {
    var id := s.nextMusicId;
    var row := NewTrackRow(title, artistName, album, genre, filepath, false);
    var uploaded := InsertMusicRow(s, row);
    InsertMusicConsistent(s, row);
    var approved := ApprovalApplied(uploaded, id, true, 7);
    ApprovalKeepsConsistent(uploaded, id, true, 7);
    MusicQueryComplete(approved, true, id);
    var log := approved.approvalLog;
    assert log[..|log| - 1] == s.approvalLog;
  }

  /* ----------------------------- caches ------------------------------ */

  /** The track cache holds exactly the stored tracks, each as an object
      built from its row. */
  ghost predicate MusicLoaded(cache: map<int, Music>, s: Store)
    reads set id | id in cache :: cache[id]
  {
    cache.Keys == s.music.Keys && forall id :: id in cache ==> Reflects(cache[id], id, s.music[id])
  }

  /** The user cache holds exactly the stored users, each of the variant
      its role names. */
  ghost predicate UsersLoaded(cache: map<int, User>, s: Store)
    reads set id | id in cache && cache[id].Listener? :: cache[id].playlists
  {
    cache.Keys == s.users.Keys && forall id :: id in cache ==> Describes(cache[id], id, s.users[id])
  }

  /** Loading twice from the same tables gives caches with the same
      contents, object identity aside. */
  lemma LoadIdempotent(c1: map<int, Music>, c2: map<int, Music>, s: Store)
    requires MusicLoaded(c1, s) && MusicLoaded(c2, s)
    ensures c1.Keys == c2.Keys
    ensures forall id :: id in c1 ==>
      c1[id].title == c2[id].title && c1[id].artistName == c2[id].artistName
      && c1[id].album == c2[id].album && c1[id].genre == c2[id].genre
      && c1[id].filepath == c2[id].filepath && c1[id].approved == c2[id].approved
      && c1[id].streams == c2[id].streams && c1[id].likes == c2[id].likes
  {
  }

  /** The same for the user cache: the same ids, each with the same kind of
      user, name and email, and every listener with no playlists. */
  lemma LoadUsersIdempotent(u1: map<int, User>, u2: map<int, User>, s: Store)
    requires UsersLoaded(u1, s) && UsersLoaded(u2, s)
    ensures u1.Keys == u2.Keys
    ensures forall id :: id in u1 ==>
      RoleOf(u1[id]) == RoleOf(u2[id]) && u1[id].name == u2[id].name && u1[id].email == u2[id].email
    ensures forall id :: id in u1 && u1[id].Listener? ==>
      u1[id].playlists.items == [] && u2[id].playlists.items == []
  {
    forall id | id in u1
      ensures RoleOf(u1[id]) == RoleOf(u2[id])
    {
      assert RoleFromName(s.users[id].role) == Some(RoleOf(u1[id]));
      assert RoleFromName(s.users[id].role) == Some(RoleOf(u2[id]));
    }
  }

  /** The map that putting each user under its id builds, later entries
      winning. */
  function KeyedUsers(users: seq<User>): map<int, User>
    decreases |users|
  {
    if users == [] then map[]
    else KeyedUsers(users[..|users| - 1])[users[|users| - 1].id := users[|users| - 1]]
  }

  function KeyedTracks(tracks: seq<Music>): map<int, Music>
    reads set i | 0 <= i < |tracks| :: tracks[i]
    decreases |tracks|
  {
    if tracks == [] then map[]
    else KeyedTracks(tracks[..|tracks| - 1])[tracks[|tracks| - 1].id := tracks[|tracks| - 1]]
  }

  /** When the ids ascend, the map holds each user under its own id and
      nothing else. */
  lemma {:induction false} KeyedUsersHolds(users: seq<User>)
    requires forall i, j :: 0 <= i < j < |users| ==> users[i].id < users[j].id
    ensures forall id :: id in KeyedUsers(users) <==> exists i :: 0 <= i < |users| && users[i].id == id
    ensures forall i :: 0 <= i < |users| ==> KeyedUsers(users)[users[i].id] == users[i]
    decreases |users|
  {
    if users != [] {
      var init := users[..|users| - 1];
      KeyedUsersHolds(init);
      forall id | id in KeyedUsers(users)
        ensures exists i :: 0 <= i < |users| && users[i].id == id
      {
        if id in KeyedUsers(init) {
          var i :| 0 <= i < |init| && init[i].id == id;
          assert users[i].id == id;
        } else {
          assert users[|users| - 1].id == id;
        }
      }
    }
  }

  lemma {:induction false} KeyedTracksHolds(tracks: seq<Music>)
    requires forall i, j :: 0 <= i < j < |tracks| ==> tracks[i].id < tracks[j].id
    ensures forall id :: id in KeyedTracks(tracks) <==> exists i :: 0 <= i < |tracks| && tracks[i].id == id
    ensures forall i :: 0 <= i < |tracks| ==> KeyedTracks(tracks)[tracks[i].id] == tracks[i]
    decreases |tracks|
  {
    if tracks != [] {
      var init := tracks[..|tracks| - 1];
      KeyedTracksHolds(init);
      forall id | id in KeyedTracks(tracks)
        ensures exists i :: 0 <= i < |tracks| && tracks[i].id == id
      {
        if id in KeyedTracks(init) {
          var i :| 0 <= i < |init| && init[i].id == id;
          assert tracks[i].id == id;
        } else {
          assert tracks[|tracks| - 1].id == id;
        }
      }
    }
  }

  lemma UserIdsAscend(rows: seq<(int, UserRow)>, users: seq<User>)
    requires Increasing(rows) && |users| == |rows|
    requires forall i :: 0 <= i < |rows| ==> users[i].id == rows[i].0
    ensures forall i, j :: 0 <= i < j < |users| ==> users[i].id < users[j].id
  {
    forall i, j | 0 <= i < j < |users|
      ensures users[i].id < users[j].id
    {
      assert users[i].id == rows[i].0 && users[j].id == rows[j].0;
    }
  }

  lemma TrackIdsAscend(rows: seq<(int, MusicRow)>, tracks: seq<Music>)
    requires Increasing(rows) && |tracks| == |rows|
    requires forall i :: 0 <= i < |rows| ==> tracks[i].id == rows[i].0
    ensures forall i, j :: 0 <= i < j < |tracks| ==> tracks[i].id < tracks[j].id
  {
    forall i, j | 0 <= i < j < |tracks|
      ensures tracks[i].id < tracks[j].id
    {
      assert tracks[i].id == rows[i].0 && tracks[j].id == rows[j].0;
    }
  }

  /** Caching the users `getAllUsers` returns from stored tables caches
      exactly the stored users. */
  lemma {:induction false} UsersCached(s: Store, rows: seq<(int, UserRow)>, users: seq<User>)
    requires Consistent(s) && rows == UserQuery(s)
    requires |users| == |rows|
    requires forall i :: 0 <= i < |rows| ==> Describes(users[i], rows[i].0, rows[i].1)
    ensures UsersLoaded(KeyedUsers(users), s)
  {
    UserIdsAscend(rows, users);
    KeyedUsersHolds(users);
    CachedUserKeys(s, rows, users);
    var c := KeyedUsers(users);
    forall id | id in c
      ensures Describes(c[id], id, s.users[id])
    {
      var i :| 0 <= i < |users| && users[i].id == id;
      assert rows[i].0 == id;
    }
  }

  lemma {:induction false} CachedUserKeys(s: Store, rows: seq<(int, UserRow)>, users: seq<User>)
    requires Consistent(s) && rows == UserQuery(s)
    requires |users| == |rows|
    requires forall i :: 0 <= i < |rows| ==> users[i].id == rows[i].0
    requires forall id :: id in KeyedUsers(users) <==> exists i :: 0 <= i < |users| && users[i].id == id
    ensures KeyedUsers(users).Keys == s.users.Keys
  {
    var c := KeyedUsers(users);
    forall k | k in c
      ensures k in s.users
    {
      var i :| 0 <= i < |users| && users[i].id == k;
      assert rows[i].0 == k;
    }
    forall k | k in s.users
      ensures k in c
    {
      var j :| 0 <= j < |rows| && rows[j] == (k, s.users[k]);
      assert users[j].id == k;
    }
  }

  lemma {:induction false} TracksCached(s: Store, rows: seq<(int, MusicRow)>, tracks: seq<Music>)
    requires Consistent(s) && rows == MusicQuery(s, false)
    requires |tracks| == |rows|
    requires forall i :: 0 <= i < |rows| ==> Reflects(tracks[i], rows[i].0, rows[i].1)
    ensures MusicLoaded(KeyedTracks(tracks), s)
  {
    TrackIdsAscend(rows, tracks);
    KeyedTracksHolds(tracks);
    CachedTrackKeys(s, rows, tracks);
    var c := KeyedTracks(tracks);
    forall id | id in c
      ensures Reflects(c[id], id, s.music[id])
    {
      var i :| 0 <= i < |tracks| && tracks[i].id == id;
      assert rows[i].0 == id;
    }
  }

  lemma {:induction false} CachedTrackKeys(s: Store, rows: seq<(int, MusicRow)>, tracks: seq<Music>)
    requires Consistent(s) && rows == MusicQuery(s, false)
    requires |tracks| == |rows|
    requires forall i :: 0 <= i < |rows| ==> tracks[i].id == rows[i].0
    requires forall id :: id in KeyedTracks(tracks) <==> exists i :: 0 <= i < |tracks| && tracks[i].id == id
    ensures KeyedTracks(tracks).Keys == s.music.Keys
  {
    var c := KeyedTracks(tracks);
    forall k | k in c
      ensures k in s.music
    {
      var i :| 0 <= i < |tracks| && tracks[i].id == k;
      assert rows[i].0 == k;
    }
    forall k | k in s.music
      ensures k in c
    {
      MusicQueryComplete(s, false, k);
      var j :| 0 <= j < |rows| && rows[j] == (k, s.music[k]);
      assert tracks[j].id == k;
    }
  }

  class MusicService {
    const server: Server
    const digest: string -> seq<JByte>
    var userCache: map<int, User>
    var musicCache: map<int, Music>

    /** A service with empty caches. */
    constructor (server: Server, digest: string -> seq<JByte>)
      ensures this.server == server && this.digest == digest
      ensures userCache == map[] && musicCache == map[]
    {
      this.server := server;
      this.digest := digest;
      userCache := map[];
      musicCache := map[];
    }

    /** `loadAll()`: both caches are cleared, then filled from a scan of
        all users and a scan of all tracks, approved or not. A failing
        user scan leaves both caches empty; a failing track scan leaves
        the users loaded and the track cache empty. */
    method LoadAll(usersFail: bool, musicFail: bool) returns (r: Status)
      modifies this
      ensures r.Done? ==> !usersFail && !musicFail
      ensures server.Valid() ==> (r.Done? <==> !usersFail && !musicFail)
      ensures r.Failed? ==> musicCache == map[]
      ensures usersFail ==> r == Failed(SqlException) && userCache == map[]
      ensures server.Valid() && r.Failed? ==> r.error == SqlException
      ensures server.Valid() && !usersFail ==> UsersLoaded(userCache, server.store)
      ensures server.Valid() && r.Done? ==> MusicLoaded(musicCache, server.store)
    {
      userCache := map[];
      musicCache := map[];
      var users := UserDao.GetAllUsers(server, usersFail);
      if users.Err? {
        return Failed(users.error);
      }
      PutUsers(users.value);
      var tracks := MusicDao.GetAllMusic(server, false, musicFail);
      if tracks.Err? {
        r := Failed(tracks.error);
      } else {
        PutTracks(tracks.value);
        r := Done;
      }
      if server.Valid() {
        UsersCached(server.store, UserQuery(server.store), users.value);
        if r.Done? {
          TracksCached(server.store, MusicQuery(server.store, false), tracks.value);
        }
      }
    }

    /** The `for (User u : users) userCache.put(u.getId(), u)` loop, run
        on the cleared cache. */
    method PutUsers(users: seq<User>)
      requires userCache == map[]
      modifies this
      ensures userCache == KeyedUsers(users)
      ensures musicCache == old(musicCache)
    {
      for i := 0 to |users|
        invariant userCache == KeyedUsers(users[..i])
        invariant musicCache == old(musicCache)
      {
        assert users[..i + 1][..i] == users[..i];
        userCache := userCache[users[i].id := users[i]];
      }
      assert users[..|users|] == users;
    }

    /** The `for (Music m : mus) musicCache.put(m.getId(), m)` loop, run on
        the cleared cache. */
    method PutTracks(tracks: seq<Music>)
      requires musicCache == map[]
      modifies this
      ensures musicCache == KeyedTracks(tracks)
      ensures userCache == old(userCache)
    {
      for i := 0 to |tracks|
        invariant musicCache == KeyedTracks(tracks[..i])
        invariant userCache == old(userCache)
      {
        assert tracks[..i + 1][..i] == tracks[..i];
        musicCache := musicCache[tracks[i].id := tracks[i]];
      }
      assert tracks[..|tracks|] == tracks;
    }

    /** `createUser(name, email, role, password)`: registers the user and
        returns the id registration returned. For a positive id it reads
        the user back and caches it; a failed read-back is swallowed and
        leaves the cache alone. (A role that does not parse, which would
        escape the `catch`, cannot occur: the row read back holds
        `role.name()`.) */
    method CreateUser(name: string, email: string, role: Role, password: string,
                      registerFails: bool, keyReturned: bool, rereadFails: bool)
      returns (r: Result<int>)
      modifies this, server
      ensures r.Ok? <==> !registerFails && !EmailTaken(old(server.store), email)
      ensures r.Err? ==> r.error == SqlException && server.store == old(server.store)
      ensures r.Ok? ==> server.store == InsertUserRow(old(server.store),
        UserRow(name, email, HexOf(digest(password)), RoleName(role))).value
      ensures r.Ok? ==> r.value == (if keyReturned then old(server.store.nextUserId) else -1)
      ensures old(server.Valid()) ==> server.Valid()
      ensures musicCache == old(musicCache)
      ensures r.Ok? && r.value > 0 && !rereadFails ==>
        && r.value in userCache && userCache == old(userCache)[r.value := userCache[r.value]]
        && Describes(userCache[r.value], r.value, server.store.users[r.value])
        && RoleOf(userCache[r.value]) == role
      ensures r.Err? || r.value <= 0 || rereadFails ==> userCache == old(userCache)
    {
      r := Register(server, name, email, password, role, digest, registerFails, keyReturned);
      if r.Err? {
        return;
      }
      if r.value > 0 {
        var created := UserDao.FindById(server, r.value, rereadFails);
        if created.Ok? && created.value.Some? {
          userCache := userCache[r.value := created.value.value];
        }
      }
    }

    /** `uploadMusic(...)`: inserts the track unapproved; for a positive
        id it reads the row back and caches it. A failed read-back is
        raised, with the row already stored. */
    method UploadMusic(title: Option<string>, artistName: string, album: Option<string>,
                       genre: string, filepath: string,
                       insertFails: bool, keyReturned: bool, rereadFails: bool)
      returns (r: Result<int>)
      modifies this, server
      ensures insertFails ==> r == Err(SqlException) && server.store == old(server.store)
      ensures !insertFails ==> server.store == InsertMusicRow(old(server.store),
        NewTrackRow(title, artistName, album, genre, filepath, false))
      ensures r.Ok? ==> r.value == (if keyReturned then old(server.store.nextMusicId) else -1)
      ensures r.Err? ==> r.error == SqlException
      ensures r.Err? <==> insertFails || (keyReturned && old(server.store.nextMusicId) > 0 && rereadFails)
      ensures old(server.Valid()) ==> server.Valid()
      ensures userCache == old(userCache)
      ensures r.Ok? && r.value > 0 ==>
        && r.value in musicCache && musicCache == old(musicCache)[r.value := musicCache[r.value]]
        && Reflects(musicCache[r.value], r.value, server.store.music[r.value])
        && !musicCache[r.value].approved && musicCache[r.value].streams == 0
        && musicCache[r.value].likes == 0
      ensures r.Err? || r.value <= 0 ==> musicCache == old(musicCache)
    {
      r := InsertMusic(server, title, artistName, album, genre, filepath, false, insertFails, keyReturned);
      if r.Err? {
        return;
      }
      if r.value > 0 {
        var m := MusicDao.FindById(server, r.value, rereadFails);
        if m.Err? {
          return Err(m.error);
        }
        if m.value.Some? {
          musicCache := musicCache[r.value := m.value.value];
        }
      }
    }

    /** `getApprovedMusic()`: straight from the tables, never the cache. */
    method GetApprovedMusic(fails: bool) returns (r: Result<seq<Music>>)
      ensures fails <==> r.Err?
      ensures r.Err? ==> r.error == SqlException
      ensures r.Ok? ==> var rows := MusicQuery(server.store, true);
        |r.value| == |rows|
        && forall i :: 0 <= i < |rows| ==>
          fresh(r.value[i]) && Reflects(r.value[i], rows[i].0, rows[i].1) && r.value[i].approved
    {
      r := MusicDao.GetAllMusic(server, true, fails);
    }

    /** `getAllMusic()`: every stored track, from the tables. */
    method GetAllMusic(fails: bool) returns (r: Result<seq<Music>>)
      ensures fails <==> r.Err?
      ensures r.Err? ==> r.error == SqlException
      ensures r.Ok? ==> var rows := MusicQuery(server.store, false);
        |r.value| == |rows|
        && forall i :: 0 <= i < |rows| ==> fresh(r.value[i]) && Reflects(r.value[i], rows[i].0, rows[i].1)
    {
      r := MusicDao.GetAllMusic(server, false, fails);
    }

    /** `approveMusic(id, approved, adminId)`: the flag update and the log
        row in one transaction, then a read-back into the cache. A failed
        read-back is raised, but the transaction stays committed; so is a
        failure to restore auto-commit or to close, which skips the
        read-back. */
    method ApproveMusic(musicId: int, approved: bool, adminId: int, fault: TxFault, rereadFails: bool)
      returns (r: Status)
      modifies this, server
      ensures server.store ==
        if Commits(fault, 2) then ApprovalApplied(old(server.store), musicId, approved, adminId)
        else if CommittedSteps(fault, 2) == 1 then UpdateApproved(old(server.store), musicId, approved)
        else old(server.store)
      ensures r.Done? <==> Completes(fault, 2) && !rereadFails
      ensures r.Failed? ==> r.error == SqlException
      ensures old(server.Valid()) ==> server.Valid()
      ensures userCache == old(userCache)
      ensures r.Done? && musicId in server.store.music ==>
        && musicId in musicCache && musicCache == old(musicCache)[musicId := musicCache[musicId]]
        && Reflects(musicCache[musicId], musicId, server.store.music[musicId])
        && musicCache[musicId].approved == approved
      ensures r.Failed? || musicId !in server.store.music ==> musicCache == old(musicCache)
    {
      var body := [Stmt.SetApproved(musicId, approved), LogApproval(musicId, adminId)];
      ExecAllPair(server.store, body[0], body[1]);
      var conn;
      r, conn := RunInTransaction(server, body, fault);
      if r.Failed? {
        return;
      }
      var m := MusicDao.FindById(server, musicId, rereadFails);
      if m.Err? {
        return Failed(m.error);
      }
      if m.value.Some? {
        musicCache := musicCache[musicId := m.value.value];
      }
    }

    /** `approveMusic(id, approved)`: the same, logged as admin 0. */
    method ApproveMusicUnattributed(musicId: int, approved: bool, fault: TxFault, rereadFails: bool)
      returns (r: Status)
      modifies this, server
      ensures server.store ==
        if Commits(fault, 2) then ApprovalApplied(old(server.store), musicId, approved, 0)
        else if CommittedSteps(fault, 2) == 1 then UpdateApproved(old(server.store), musicId, approved)
        else old(server.store)
      ensures r.Done? <==> Completes(fault, 2) && !rereadFails
      ensures old(server.Valid()) ==> server.Valid()
      ensures userCache == old(userCache)
      ensures r.Failed? ==> r.error == SqlException
      ensures r.Done? && musicId in server.store.music ==>
        && musicId in musicCache && musicCache == old(musicCache)[musicId := musicCache[musicId]]
        && Reflects(musicCache[musicId], musicId, server.store.music[musicId])
        && musicCache[musicId].approved == approved
      ensures r.Failed? || musicId !in server.store.music ==> musicCache == old(musicCache)
    {
      r := ApproveMusic(musicId, approved, 0, fault, rereadFails);
    }

    /** `streamMusic(id)`: one more stream in the tables, then a read-back
        into the cache; a failed read-back is raised after the increment. */
    method StreamMusic(musicId: int, updateFails: bool, rereadFails: bool) returns (r: Status)
      modifies this, server
      ensures server.store == (if updateFails then old(server.store) else AddStream(old(server.store), musicId))
      ensures r.Done? <==> !updateFails && !rereadFails
      ensures old(server.Valid()) ==> server.Valid()
      ensures userCache == old(userCache)
      ensures r.Done? && musicId in server.store.music ==>
        && musicId in musicCache && musicCache == old(musicCache)[musicId := musicCache[musicId]]
        && Reflects(musicCache[musicId], musicId, server.store.music[musicId])
        && musicCache[musicId].streams == old(server.store.music[musicId].streams) + 1
      ensures r.Failed? || musicId !in server.store.music ==> musicCache == old(musicCache)
    {
      r := IncrementStream(server, musicId, updateFails);
      if r.Failed? {
        return;
      }
      var m := MusicDao.FindById(server, musicId, rereadFails);
      if m.Err? {
        return Failed(m.error);
      }
      if m.value.Some? {
        musicCache := musicCache[musicId := m.value.value];
      }
    }

    /** `likeMusic(id)`: one more like, then the same read-back. */
    method LikeMusic(musicId: int, updateFails: bool, rereadFails: bool) returns (r: Status)
      modifies this, server
      ensures server.store == (if updateFails then old(server.store) else AddLike(old(server.store), musicId))
      ensures r.Done? <==> !updateFails && !rereadFails
      ensures old(server.Valid()) ==> server.Valid()
      ensures userCache == old(userCache)
      ensures r.Done? && musicId in server.store.music ==>
        && musicId in musicCache && musicCache == old(musicCache)[musicId := musicCache[musicId]]
        && Reflects(musicCache[musicId], musicId, server.store.music[musicId])
        && musicCache[musicId].likes == old(server.store.music[musicId].likes) + 1
      ensures r.Failed? || musicId !in server.store.music ==> musicCache == old(musicCache)
    {
      r := IncrementLike(server, musicId, updateFails);
      if r.Failed? {
        return;
      }
      var m := MusicDao.FindById(server, musicId, rereadFails);
      if m.Err? {
        return Failed(m.error);
      }
      if m.value.Some? {
        musicCache := musicCache[musicId := m.value.value];
      }
    }

    /** `getStreamsByArtist()`: the streams of the approved tracks, added up
        per artist name in a `HashMap`. */
    method GetStreamsByArtist(fails: bool) returns (r: Result<map<string, int>>)
      ensures fails <==> r.Err?
      ensures r.Err? ==> r.error == SqlException
      ensures r.Ok? ==> r.value == StreamsByArtist(MusicQuery(server.store, true))
    {
      var tracks := MusicDao.GetAllMusic(server, true, fails);
      if tracks.Err? {
        return Err(tracks.error);
      }
      var totals := Tally(tracks.value, MusicQuery(server.store, true));
      r := Ok(totals);
    }

    /* ------------------- playlist and follow delegates ------------------- */

    method CreatePlaylist(listenerId: int, title: string, fails: bool, keyReturned: bool)
      returns (r: Result<int>)
      modifies server
      ensures fails ==> r == Err(SqlException) && server.store == old(server.store)
      ensures !fails ==> server.store == InsertPlaylistRow(old(server.store), PlaylistRow(listenerId, title))
      ensures !fails ==> r == Ok(if keyReturned then old(server.store.nextPlaylistId) else -1)
      ensures old(server.Valid()) ==> server.Valid()
      ensures old(server.Valid()) && r.Ok? && r.value != -1 ==>
        r.value >= 1 && r.value !in old(server.store.playlists)
    {
      r := PlaylistDao.CreatePlaylist(server, listenerId, title, fails, keyReturned);
    }

    method GetPlaylistsForListener(listenerId: int, fails: bool) returns (r: Result<seq<Playlist>>)
      ensures fails <==> r.Err?
      ensures r.Err? ==> r.error == SqlException
      ensures r.Ok? ==> var rows := PlaylistQuery(server.store, listenerId);
        |r.value| == |rows|
        && forall i :: 0 <= i < |rows| ==>
          fresh(r.value[i]) && PlaylistDao.Loaded(r.value[i], server.store, rows[i].0, rows[i].1)
    {
      r := PlaylistDao.GetPlaylistsForListener(server, listenerId, fails);
    }

    method AddSongToPlaylist(playlistId: int, musicId: int, fails: bool) returns (r: Status)
      modifies server
      ensures r == Done <==> !fails
      ensures server.store == (if fails then old(server.store) else InsertIgnoreSong(old(server.store), playlistId, musicId))
      ensures old(server.Valid()) ==> server.Valid()
    {
      r := PlaylistDao.AddSongToPlaylist(server, playlistId, musicId, fails);
    }

    method RemoveSongFromPlaylist(playlistId: int, musicId: int, fails: bool) returns (r: Status)
      modifies server
      ensures r == Done <==> !fails
      ensures server.store == (if fails then old(server.store) else DeleteSong(old(server.store), playlistId, musicId))
      ensures old(server.Valid()) ==> server.Valid()
    {
      r := PlaylistDao.RemoveSongFromPlaylist(server, playlistId, musicId, fails);
    }

    method DeletePlaylist(playlistId: int, fault: TxFault) returns (r: Status)
      modifies server
      ensures r == Done <==> Completes(fault, 2)
      ensures r.Failed? ==> r.error == SqlException
      ensures server.store ==
        if Commits(fault, 2) then PlaylistDao.PlaylistDeleted(old(server.store), playlistId)
        else if CommittedSteps(fault, 2) == 1 then DeleteSongsOf(old(server.store), playlistId)
        else old(server.store)
      ensures old(server.Valid()) ==> server.Valid()
    {
      r := PlaylistDao.DeletePlaylist(server, playlistId, fault);
    }

    method FollowArtist(listenerId: int, artistName: string, fails: bool) returns (r: Status)
      modifies server
      ensures r == Done <==> !fails
      ensures server.store == (if fails then old(server.store) else InsertIgnoreFollow(old(server.store), listenerId, artistName))
      ensures old(server.Valid()) ==> server.Valid()
    {
      r := FollowDao.FollowArtist(server, listenerId, artistName, fails);
    }

    method UnfollowArtist(listenerId: int, artistName: string, fails: bool) returns (r: Status)
      modifies server
      ensures r == Done <==> !fails
      ensures server.store == (if fails then old(server.store) else DeleteFollow(old(server.store), listenerId, artistName))
      ensures old(server.Valid()) ==> server.Valid()
    {
      r := FollowDao.UnfollowArtist(server, listenerId, artistName, fails);
    }

    method GetFollowedArtists(listenerId: int, fails: bool) returns (r: Result<seq<string>>)
      ensures fails <==> r.Err?
      ensures r.Err? ==> r.error == SqlException
      ensures r.Ok? ==> Distinct(r.value)
      ensures r.Ok? ==> forall a :: a in r.value <==> a in FollowedBy(server.store, listenerId)
    {
      r := FollowDao.GetFollowedArtists(server, listenerId, fails);
    }
  }
}

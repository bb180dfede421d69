# OnlineMusic catalog layer, modelled in Dafny

OnlineMusic is a desktop music catalog written in Java. Artists upload
tracks, admins approve them, listeners stream, like and follow, and
listeners keep playlists. Everything is kept in a MySQL database. This
project models the catalog layer beneath the Swing interface:

- the service class `MusicService`, with its two caches;
- the data-access classes for tracks, playlists, follows and users;
- the transaction helper in `Database`;
- password hashing and login in `AuthService`;
- the domain classes `Music`, `Playlist`, `User`, `Admin`, `Artist` and `Listener`.

The database is an in-memory value (`Tables.Store`): one map per table
with an AUTO_INCREMENT key, one set per table with a composite key, and
the approval log as a sequence. Each SQL statement is a function on that
value. A `Database.Server` object holds the committed tables. Each DAO
call is a method on that server; it changes the committed tables only as
its statement says. The constraints that the schema declares become the
invariant `Tables.Consistent`: keys handed out by their counters, unique
emails, roles that name a role, and approval flags of 0 or 1 with
non-negative counters. Every writing operation is proved to preserve it.

Modules, one per source file or layer:

| module | source | form |
|---|---|---|
| `Basics` | — | `Option`, `Result`, `Status`, the Java `int` range |
| `JavaText` | `String`/`Integer` library calls used by the code | functions and lemmas |
| `MusicModel` | `Music.java` | class `Music` (only `approved` is mutable) |
| `PlaylistModel` | `Playlist.java` | class `Playlist` whose `songs` the methods reassign |
| `UserModel` | `User.java`, `Admin.java`, `Artist.java`, `Listener.java` | datatype `User` with three variants; a listener's playlist list is an object |
| `Tables` | the schema in `Database.java` and the SQL text of the DAOs | datatypes, statement and query functions |
| `Database` | `Database.java` | classes `Server` and `Connection`; method `RunInTransaction` |
| `MusicDao`, `PlaylistDao`, `FollowDao`, `UserDao` | the four DAO classes | methods on a `Server` |
| `Auth` | `AuthService.java` | hex encoder as a loop; login and register |
| `Catalog` | `MusicService.java` | class `MusicService` with `userCache` and `musicCache` |

Things outside the program's control are explicit parameters. A
`SQLException` from the driver is a boolean per call (`fails`,
`rereadFails` and similar), or a `TxFault` telling where a transaction
breaks. Whether the driver returns a generated key is `keyReturned`.
The SHA-256 digest is a function parameter `digest`.

Only `createUser` swallows a failed read-back of the new row
(MusicService.java:59-61). `uploadMusic`, `approveMusic`, `streamMusic`
and `likeMusic` let the exception from `findById` propagate
(MusicService.java:72,115,134,147) after their write has committed.

## Model

| member | source | states |
|---|---|---|
| `Tables.Flag` | MusicDAO.java:20 | a boolean is written as 0 or 1 and reads back (`== 1`) as the same boolean |
| `Tables.NewTrackRow` | Database.java:27 | a new track row carries the given columns, the flag written from the boolean, and 0 streams and 0 likes by column default; it is well formed |
| `Tables.EmptyStoreConsistent` | Database.java:24-38 | the freshly created schema satisfies every table constraint |
| `Tables.UpdateApproved` | MusicDAO.java:72-80 | `UPDATE music SET approved=?` changes only the flag of the row with that id, keeps every other row and table, and leaves the tables unchanged when the id is missing |
| `Tables.AddStream` | MusicDAO.java:82-89 | the matching row's `streams` grows by exactly 1; every other field, row and table is unchanged |
| `Tables.AddLike` | MusicDAO.java:91-98 | the matching row's `likes` grows by exactly 1; every other field, row and table is unchanged |
| `Tables.AppendApproval` | MusicService.java:99-100 | one log row (music id, admin id) is appended with no foreign-key check; nothing else changes |
| `Tables.InsertIgnoreSong` | PlaylistDAO.java:45-51 | the membership set becomes the old set plus the pair, so an existing pair stays once; nothing else changes |
| `Tables.DeleteSong` | PlaylistDAO.java:53-59 | exactly that (playlist, track) pair leaves the membership set; nothing else changes |
| `Tables.DeleteSongsOf` | PlaylistDAO.java:63-65 | exactly the memberships of the playlist are removed |
| `Tables.DeletePlaylistRow` | PlaylistDAO.java:67-69 | exactly the playlist's row is removed |
| `Tables.InsertIgnoreFollow` | FollowDAO.java:8-14 | the follow set gains the pair, and a pair already present stays once |
| `Tables.DeleteFollow` | FollowDAO.java:16-22 | exactly that (listener, artist) pair is removed; the rest of the follow set is kept |
| `Tables.Exec` | Database.java:46 | no statement a transaction body runs adds a user, track or playlist, moves an auto-increment counter or removes an approval log row; playlists can only disappear |
| `Tables.ExecAll` | Database.java:45-47 | the same holds for a whole body, statement after statement |
| `Tables.ExecAllPair` | Database.java:45-47 | a two-statement transaction body has the effect of its first statement followed by its second |
| `Tables.ExecConsistent` | Database.java:24-38 | no single UPDATE, INSERT IGNORE or DELETE the catalog issues breaks a table constraint |
| `Tables.ExecAllConsistent` | Database.java:45-47 | a whole transaction body keeps the constraints, by induction over its statements |
| `Tables.InsertMusicRow` | MusicDAO.java:11-27 | the new row is stored under the next AUTO_INCREMENT key, the counter advances, and the other tables are unchanged |
| `Tables.InsertMusicConsistent` | Database.java:27 | inserting a well-formed track keeps the constraints, and the new key is fresh and at least 1 |
| `Tables.InsertPlaylistRow` | PlaylistDAO.java:12-24 | the playlist row is stored under the next key, the counter advances, and the other tables are unchanged |
| `Tables.InsertPlaylistConsistent` | Database.java:28 | inserting a playlist keeps the constraints, and its key is fresh |
| `Tables.InsertUserRow` | Database.java:26 | the UNIQUE email constraint rejects the insert exactly when a stored user has that email; otherwise the row gets the next key |
| `Tables.InsertUserConsistent` | Database.java:26 | a successful user insert keeps emails unique and the key fresh |
| `Tables.KeyOrder` | MusicDAO.java:29-49 | a table scan yields rows in strictly ascending key order, each row being the stored row for its key, with no stored row missed |
| `Tables.Where` | MusicDAO.java:32 | a WHERE clause keeps exactly the rows that satisfy it, in their order |
| `Tables.MusicQuery` | MusicDAO.java:29-49 | the track scan lists only stored rows, in key order, and only approved ones when asked |
| `Tables.MusicQueryComplete` | MusicDAO.java:29-49 | on stored tables the scan misses no track it should list (every track, or every approved one) |
| `Tables.UserQuery` | UserDAO.java:67-84 | the user scan lists exactly the stored users, in key order |
| `Tables.FirstWithEmail` | UserDAO.java:31-50 | the first row with the email is found, and when none is found no row has it |
| `Tables.UserByEmail` | UserDAO.java:31-50 | the lookup returns a stored user with that email, and finds none only when no stored user has it |
| `Tables.UserByEmailFinds` | Database.java:26 | since emails are unique, looking up a stored user's email finds exactly that user |
| `Tables.PlaylistQuery` | PlaylistDAO.java:26-43 | only the listener's own playlists are returned, in key order |
| `Tables.PlaylistQueryComplete` | PlaylistDAO.java:26-43 | every playlist owned by the listener is returned |
| `Tables.SongsQuery` | PlaylistDAO.java:74-94 | only stored tracks that have a membership row for the playlist are returned |
| `Tables.SongsQueryComplete` | PlaylistDAO.java:74-94 | every stored track in the playlist is returned |
| `Tables.FollowedBy` | FollowDAO.java:24-34 | an artist name is in the result exactly when the listener follows it |
| `Database.Server.constructor` | Database.java:24-38 | a server whose schema was just created holds empty, consistent tables |
| `Database.Connection.constructor` | Database.java:12-22 | a new connection is open and in auto-commit mode |
| `Database.Connection.SetAutoCommit` | Database.java:43 | switching auto-commit sets the mode; switching it back on publishes pending work |
| `Database.Connection.Execute` | Database.java:46 | a statement goes straight to the committed tables in auto-commit mode, and only into the pending work otherwise |
| `Database.Connection.Commit` | Database.java:47 | the pending work becomes the committed tables |
| `Database.Connection.Rollback` | Database.java:49 | the pending work is discarded |
| `Database.Connection.Close` | Database.java:41 | the connection is closed and nothing else changes |
| `Database.RunInTransaction` | Database.java:40-55 | all or nothing unless the rollback fails: when the commit succeeds the committed tables are the old ones after the whole body, and on a `SQLException` in the connection, the body or the commit they are the old ones and the exception is returned. When a statement fails and the rollback throws too, restoring auto-commit commits the statements before the failing one, and the exception is returned. A `SQLException` from restoring auto-commit or from closing, after the commit, is returned with the writes committed. The constraints are kept. The connection is the call's own, comes back closed, and has auto-commit restored unless restoring it failed |
| `Database.AutoCommitUpdate` | MusicDAO.java:72-80 | a single statement on its own auto-commit connection is either committed or, on a `SQLException`, has no effect |
| `MusicModel.Music.constructor` | Music.java:14-28 | every getter returns what the constructor was given |
| `MusicModel.Music.SetApproved` | Music.java:26 | the flag becomes the given value; no other field can change |
| `MusicModel.Music.Label` | Music.java:31-33 | the label starts with '[' and ends in the tick exactly when the track is approved |
| `MusicModel.ParseLabelId` | PlaylistEditorDialog.java:48 | a parsed id is in the `int` range, and a label without `]` gives no id (the exception) |
| `MusicModel.LabelIdRoundTrip` | PlaylistEditorDialog.java:48 | parsing the label text between index 1 and the first ']' yields the track's id, whatever its title or artist name contains |
| `MusicModel.BracketedIdRoundTrip` | PlaylistEditorDialog.java:48 | for any text after the closing bracket, parsing from index 1 up to the first ']' gives back the number written in the brackets |
| `PlaylistModel.WithSong` | Playlist.java:20 | after `addSong(m)` the list holds m, grows by one exactly when m was absent, and keeps the earlier songs as a prefix |
| `PlaylistModel.WithSongIdempotent` | Playlist.java:20 | adding the same object twice is the same as adding it once |
| `PlaylistModel.WithSongKeepsDistinct` | Playlist.java:20 | adding never creates a duplicate object in the list |
| `PlaylistModel.RemoveFirst` | Playlist.java:21 | removal drops exactly one occurrence when one exists (as a multiset) and is a no-op otherwise |
| `PlaylistModel.RemoveFirstAt` | Playlist.java:21 | the occurrence removed is the first, and the songs before and after it keep their order |
| `PlaylistModel.Playlist.constructor` | Playlist.java:11-13 | the given id and title, with no songs |
| `PlaylistModel.Playlist.Unsaved` | Playlist.java:9-14 | `Playlist(title)` has id 0 and no songs |
| `PlaylistModel.Playlist.AddSong` | Playlist.java:20 | the song list becomes `WithSong` of the old list (identity, not equality, decides presence) |
| `PlaylistModel.Playlist.RemoveSong` | Playlist.java:21 | the song list becomes the old one without its first occurrence of the track |
| `PlaylistModel.Playlist.Label` | Playlist.java:24 | the label begins with the title |
| `PlaylistModel.LabelShowsCount` | Playlist.java:24 | the number shown after the title parses back to the current song count |
| `UserModel.RoleFromName` | User.java:9 | exactly the three names ADMIN, ARTIST and LISTENER name a role |
| `UserModel.RoleName` | User.java:9 | the stored name of a role parses back to that role |
| `UserModel.RoleNameInjective` | User.java:9 | two roles never share a name |
| `UserModel.RoleOf` | User.java:11-18 | the role is determined by the variant: Admin has ADMIN, Artist has ARTIST, Listener has LISTENER |
| `UserModel.DisplayInfo` | Admin.java:9-12 | every kind of user supplies "Kind: name (email)", with the kind word of its own role |
| `UserModel.DisplayInfoRevealsRole` | Listener.java:18-21 | equal display texts imply equal roles |
| `UserModel.NewListener` | Listener.java:10-12 | a new listener with those fields and an empty playlist list of its own |
| `UserModel.Upload` | Artist.java:15-27 | upload succeeds exactly when a track is given, its title is present and not blank, and it names this artist; otherwise the guards fail in the order null, title, name, each with its own reason |
| `UserModel.Stream` | Listener.java:23-34 | streaming succeeds exactly for a non-null approved track; otherwise it fails for null, then for unapproved |
| `UserModel.AddPlaylist` | Listener.java:16 | the playlist is appended at the end and the earlier ones are unchanged |
| `MusicDao.Materialize` | MusicDAO.java:36-46 | one new object per result row, in row order, each carrying that row's columns and the flag read as `== 1` |
| `MusicDao.InsertMusic` | MusicDAO.java:11-27 | one row with the given columns is added under a fresh key, which is returned, or -1 when no key comes back; on a `SQLException` nothing changes |
| `MusicDao.GetAllMusic` | MusicDAO.java:29-49 | the result mirrors the approved rows, or all rows, in key order |
| `MusicDao.FindById` | MusicDAO.java:51-70 | a track is returned exactly when a row has that id, and it carries that row |
| `MusicDao.SetApproved` | MusicDAO.java:72-80 | the flag update is committed, or nothing changes on failure |
| `MusicDao.IncrementStream` | MusicDAO.java:82-89 | the increment is committed, or nothing changes on failure |
| `MusicDao.IncrementLike` | MusicDAO.java:91-98 | the increment is committed, or nothing changes on failure |
| `MusicDao.ApprovedRoundTrip` | MusicDAO.java:43 | a stored approval flag reads back as the boolean that was written |
| `MusicDao.StreamsAfterIncrements` | MusicDAO.java:82-89 | n increments raise that track's streams by exactly n and change nothing else |
| `PlaylistDao.CreatePlaylist` | PlaylistDAO.java:12-24 | one playlist owned by the listener is added under a fresh key, which is returned, or -1 |
| `PlaylistDao.GetSongsForPlaylist` | PlaylistDAO.java:74-94 | new objects mirroring exactly the playlist's tracks |
| `PlaylistDao.GetPlaylistsForListener` | PlaylistDAO.java:26-43 | one new playlist per row owned by the listener, each carrying the tracks of its membership rows |
| `PlaylistDao.LoadPlaylist` | PlaylistDAO.java:33-38 | the playlist built from one row has that row's id and title and its tracks |
| `PlaylistDao.LoadNext` | PlaylistDAO.java:33-38 | one turn of the loop appends one new playlist for the next row and leaves the playlists already built as they were |
| `PlaylistDao.AddSongToPlaylist` | PlaylistDAO.java:45-51 | the INSERT IGNORE is committed, or nothing changes |
| `PlaylistDao.RemoveSongFromPlaylist` | PlaylistDAO.java:53-59 | the DELETE is committed, or nothing changes |
| `PlaylistDao.PlaylistDeleted` | PlaylistDAO.java:61-72 | after both deletes the playlist row and all its memberships are gone, everything else remains, and nothing is added |
| `PlaylistDao.DeletePlaylist` | PlaylistDAO.java:61-72 | both deletes happen, or on a failure before or during the commit neither does, except that when the playlist delete fails and the rollback fails too, the song-link delete alone is committed; a failure after the commit is returned with both done |
| `PlaylistDao.AddSongIdempotent` | PlaylistDAO.java:45-51 | adding a pair twice equals adding it once |
| `PlaylistDao.AddThenRemoveRestores` | PlaylistDAO.java:45-59 | adding an absent pair and removing it restores the tables |
| `PlaylistDao.DeletedPlaylistHasNoSongs` | PlaylistDAO.java:61-94 | after deletion, loading the playlist's songs finds none |
| `FollowDao.FollowArtist` | FollowDAO.java:8-14 | the INSERT IGNORE is committed, or nothing changes |
| `FollowDao.UnfollowArtist` | FollowDAO.java:16-22 | the DELETE is committed, or nothing changes |
| `FollowDao.GetFollowedArtists` | FollowDAO.java:24-34 | exactly the artists the listener follows, each once |
| `FollowDao.FollowIdempotent` | FollowDAO.java:8-14 | following again is a no-op |
| `FollowDao.FollowThenUnfollow` | FollowDAO.java:8-22 | after follow then unfollow of a pair, the listener does not follow that artist |
| `FollowDao.FollowFrames` | FollowDAO.java:8-22 | follow and unfollow change only that listener's set by that one artist; other listeners are unaffected |
| `UserDao.ToUser` | UserDAO.java:94-99 | the row becomes Admin for "ADMIN", Artist for "ARTIST", Listener for "LISTENER"; any other role text is an `IllegalArgumentException` |
| `UserDao.CreateUser` | UserDAO.java:15-29 | inserts (name, email, hash, role name) under a fresh key, which is returned, or -1; a taken email or a failure changes nothing |
| `UserDao.FindByEmail` | UserDAO.java:31-50 | empty when no user has the email, otherwise the user stored under it, of the variant its role names |
| `UserDao.StoredHashMatchesIff` | UserDAO.java:52-65 | true exactly when a user with that email exists and its stored hash equals the given one |
| `UserDao.VerifyPassword` | UserDAO.java:52-65 | the answer is that comparison; a missing user gives false |
| `UserDao.GetAllUsers` | UserDAO.java:67-84 | one user per stored row, in key order, with the same role mapping; on consistent tables no role error occurs |
| `UserDao.FindById` | UserDAO.java:86-104 | empty when no row has the id, otherwise a user with that id and the row's name, email and role |
| `UserDao.StoredRoleRoundTrip` | UserDAO.java:94 | a role stored as its name reads back as the same role |
| `Auth.Hex2` | AuthService.java:19 | `%02x` of any byte, negative ones included, is exactly two lower-case hex digits |
| `Auth.HexOf` | AuthService.java:18-20 | the hex text has two characters per digest byte |
| `Auth.HexShape` | AuthService.java:19 | the hex text is twice as long as the digest and well formed |
| `Auth.Hex2RoundTrip` | AuthService.java:19 | the two lowercase hex digits of a signed byte decode to that byte |
| `Auth.HexRoundTrip` | AuthService.java:18-20 | decoding the hex text gives the digest back, so the encoding loses nothing |
| `Auth.HashPassword` | AuthService.java:14-24 | the loop's result is the hex text of the digest: exactly two lowercase hex digits per byte, decoding to the digest |
| `Auth.LoginMatch` | AuthService.java:26-32 | the match is a stored user with that email whose hash is the password's hash, and with no match there is no such user |
| `Auth.Login` | AuthService.java:26-32 | empty unless the stored hash equals the password's hash; then exactly the user stored under the email |
| `Auth.Register` | AuthService.java:34-37 | the stored row holds the hash of the password, never the plaintext |
| `Auth.RegisterThenLogin` | AuthService.java:26-37 | after a successful registration, logging in with the same email and password finds the new row, whose role is the registered one |
| `Catalog.ArtistsOfMembers` | MusicService.java:198-200 | an artist is among the keys exactly when some row names it |
| `Catalog.ArtistStreams` | MusicService.java:199 | an artist with no rows totals 0 |
| `Catalog.StreamsByArtist` | MusicService.java:198-200 | the map has an entry for exactly the artists some row read names |
| `Catalog.StreamsByArtistSnoc` | MusicService.java:199 | one more track adds its streams to its artist's entry, starting from 0 when the artist is new |
| `Catalog.Tally` | MusicService.java:198-200 | the loop's map is the per-artist total of the rows read |
| `Catalog.ApprovedStreamsMatch` | MusicService.java:196-203 | the fold over the approved listing equals an independent sum over track ids of approved tracks' streams |
| `Catalog.ApprovedArtists` | MusicService.java:196-203 | the artists in the approved listing are exactly those with an approved track |
| `Catalog.StreamsByArtistMeaning` | MusicService.java:196-203 | each artist with an approved track maps to the sum of its approved tracks' streams; no other artist appears, and unapproved tracks add nothing |
| `Catalog.StreamsByArtistExample` | MusicService.java:196-203 | approved tracks with 3 and 5 streams plus an unapproved one with 100, all by "A", give {"A": 8} |
| `Catalog.ApprovalApplied` | MusicService.java:95-112 | the committed approval sets that track's flag, keeps every other track, and appends exactly one log row (id, admin) even when no track has the id |
| `Catalog.LogFor` | MusicService.java:99-100 | exactly the log rows about one track: every row listed is about it and every row about it is listed |
| `Catalog.LogForSnoc` | MusicService.java:99-100 | a row appended to the log is appended to the rows of its track and to no other, so the rows keep the order in which they were logged |
| `Catalog.ApprovalKeepsConsistent` | MusicService.java:96-112 | the committed approval transaction keeps every table constraint |
| `Catalog.UploadThenApprove` | MusicService.java:68-126 | an uploaded track is missing from the approved listing; after approval by admin 7 it is listed, and the log holds exactly one row for it |
| `Catalog.LoadIdempotent` | MusicService.java:43-44 | loading the track cache twice from the same tables gives the same keys and field values |
| `Catalog.LoadUsersIdempotent` | MusicService.java:39-40 | loading the user cache twice from the same tables gives the same keys, and each id the same kind of user, name and email, with no playlists |
| `Catalog.KeyedUsersHolds` | MusicService.java:40 | with ascending ids, putting each user under its id caches each user under its own id and nothing else |
| `Catalog.KeyedTracksHolds` | MusicService.java:44 | the same for tracks |
| `Catalog.UsersCached` | MusicService.java:39-40 | caching what `getAllUsers` returns caches exactly the stored users, each of the variant its role names |
| `Catalog.TracksCached` | MusicService.java:43-44 | caching what `getAllMusic(false)` returns caches exactly the stored tracks, approved or not |
| `Catalog.MusicService.constructor` | MusicService.java:16-27 | a service starts with empty caches |
| `Catalog.MusicService.LoadAll` | MusicService.java:33-46 | after a full load the user cache holds exactly the stored users and the track cache exactly all stored tracks, with no leftover entries. A failed user scan leaves both caches empty; a failed track scan leaves the users loaded and the track cache empty. On consistent tables a failure is a `SQLException` |
| `Catalog.MusicService.PutUsers` | MusicService.java:40 | the loop fills the cleared user cache with each user under its id |
| `Catalog.MusicService.PutTracks` | MusicService.java:44 | the loop fills the cleared track cache with each track under its id |
| `Catalog.MusicService.CreateUser` | MusicService.java:50-64 | returns the id from registration unchanged. For a positive id with a successful read-back the new user is cached with the registered role. A failed read-back is swallowed and leaves the cache alone, as does an id ≤ 0 |
| `Catalog.MusicService.UploadMusic` | MusicService.java:68-80 | always inserts the track unapproved with zero counters. For a positive id the cached object mirrors the stored row. A failed read-back is raised after the insert |
| `Catalog.MusicService.GetApprovedMusic` | MusicService.java:82-85 | exactly the stored approved tracks as new objects, from the tables and not the cache; a failure is a `SQLException` |
| `Catalog.MusicService.GetAllMusic` | MusicService.java:87-89 | every stored track as a new object, from the tables; a failure is a `SQLException` |
| `Catalog.MusicService.ApproveMusic` | MusicService.java:95-121 | the flag update and the log row commit together or not at all, except that when the log insert fails and the rollback fails too, the flag update alone is committed. Afterwards the cached entry mirrors the stored row. A failed read-back, or a failure after the commit inside the transaction, is raised without undoing the commit |
| `Catalog.MusicService.ApproveMusicUnattributed` | MusicService.java:124-126 | the two-argument overload logs admin id 0 and otherwise keeps `ApproveMusic`'s contract: the same committed tables for each fault, only the approved entry of the cache changes and mirrors the stored row, and a failure is a `SQLException` |
| `Catalog.MusicService.StreamMusic` | MusicService.java:132-140 | the stored streams of that track rise by exactly 1, nothing else changes, and the cache then holds the fresh row |
| `Catalog.MusicService.LikeMusic` | MusicService.java:145-153 | the stored likes of that track rise by exactly 1, nothing else changes, and the cache then holds the fresh row |
| `Catalog.MusicService.GetStreamsByArtist` | MusicService.java:196-203 | the result is the per-artist total of the approved listing, characterised by `StreamsByArtistMeaning`; a failure is a `SQLException` |
| `Catalog.MusicService.CreatePlaylist` | MusicService.java:157-159 | forwards to `PlaylistDao.CreatePlaylist` with its contract |
| `Catalog.MusicService.GetPlaylistsForListener` | MusicService.java:161-163 | forwards to `PlaylistDao.GetPlaylistsForListener` with its contract |
| `Catalog.MusicService.AddSongToPlaylist` | MusicService.java:165-167 | forwards to `PlaylistDao.AddSongToPlaylist` with its contract |
| `Catalog.MusicService.RemoveSongFromPlaylist` | MusicService.java:169-171 | forwards to `PlaylistDao.RemoveSongFromPlaylist` with its contract |
| `Catalog.MusicService.DeletePlaylist` | MusicService.java:173-175 | forwards to `PlaylistDao.DeletePlaylist` with its contract: both deletes or neither, except that a failed rollback after a failed playlist delete commits the song-link delete alone; a failure is a `SQLException` |
| `Catalog.MusicService.FollowArtist` | MusicService.java:179-181 | forwards to `FollowDao.FollowArtist` with its contract |
| `Catalog.MusicService.UnfollowArtist` | MusicService.java:183-185 | forwards to `FollowDao.UnfollowArtist` with its contract |
| `Catalog.MusicService.GetFollowedArtists` | MusicService.java:187-189 | forwards to `FollowDao.GetFollowedArtists` with its contract |
| `JavaText.Decimal` | Music.java:32 | `%d` writes a non-empty text with no `]` in it |
| `JavaText.Substring` | PlaylistEditorDialog.java:48 | `substring(b, e)` succeeds exactly when `0 <= b <= e <= length`, and gives the `e - b` characters starting at `b` |
| `JavaText.IsJavaWhitespace` | Artist.java:19 | space, tab, line feed and carriage return are white space; the no-break spaces and the printable ASCII characters are not |
| `JavaText.IsBlank` | Artist.java:19 | text is blank exactly when every character in it is white space, so the empty title is blank |
| `JavaText.Digits` | Music.java:32 | the decimal digits of a natural number: non-empty, digits only |
| `JavaText.DigitsRoundTrip` | Music.java:32 | reading the digits back gives the number |
| `JavaText.ParseInt` | PlaylistEditorDialog.java:48 | `Integer.parseInt` succeeds only on non-empty text and only with a value in the `int` range |
| `JavaText.DecimalRoundTrip` | PlaylistEditorDialog.java:48 | `Integer.parseInt` of the rendering of any `int` gives that `int` |
| `JavaText.IndexOf` | PlaylistEditorDialog.java:48 | `indexOf` returns the first position of the character, or -1 when it is absent |
| `JavaText.IndexOfAfterPrefix` | PlaylistEditorDialog.java:48 | in text that is a prefix without the character, then the character, `indexOf` finds it right after the prefix |

## Left out

- Concurrency: the analytics worker thread, `volatile analyticsRunning`, `shutdown()` and the `synchronized (cacheLock)` blocks (MusicService.java:16-27,205-230). The caches are updated sequentially.
- JDBC plumbing: loading the driver, `DriverManager`, running the DDL, and the time stamps `upload_time` and `approved_at`. Only the table constraints are kept, as `Tables.Consistent`.
- SHA-256 itself is a library call and is the parameter `digest`. Only the hex encoder is modelled.
- An exception other than `SQLException` thrown by a transaction body is not caught at Database.java:48, so nothing rolls back, and the `finally` at Database.java:52 commits the writes made so far when it restores auto-commit. The bodies here run only SQL statements, so this is not modelled; neither is the `RuntimeException` from a missing SHA-256 provider (AuthService.java:21-22).
- Console output and the Swing interface, including the playlist editor apart from the id parsing it does on a label (PlaylistEditorDialog.java:48).
- A fault interrupts a statement before it takes effect. In a transaction, when the body fails, the rollback succeeds and restoring auto-commit fails as well, the second exception replaces the first; both are a `SQLException` and the tables are unchanged either way, so one fault stands for both. A failed INSERT does not consume an AUTO_INCREMENT value, although MySQL may consume one.
- `Database.RunInTransaction`: `RollbackFails` assumes that restoring auto-commit then succeeds. When it throws too, the uncommitted writes are left to `close()`, whose outcome depends on the driver and is not modelled.
- Read-only DAO calls fail as a whole (one `fails` flag). The model does not say which row a failing scan stopped at, since the call returns nothing either way.
- Scans return rows in ascending key order, the order of a primary-key scan. The source has no ORDER BY, so this is an assumption about MySQL. The follow scan is modelled as a set and its result in any order.
- MySQL compares email addresses and the `artist_name` of `follows` (part of its primary key, Database.java:30; FollowDAO.java:9,17) by its collation, usually case-insensitively. The model compares them as exact strings. So `Tables.InsertIgnoreFollow`, `Tables.DeleteFollow`, `Tables.FollowedBy`, `FollowDao.FollowArtist`, `FollowDao.UnfollowArtist` and `FollowDao.GetFollowedArtists` treat "Adele" and "adele" as two artists, where MySQL keeps one row for both.
- `MusicDao.StreamsAfterIncrements`, `Tables.AddStream`, `Tables.AddLike`: counters are unbounded integers. The source's `INT` columns and Java `int`s would overflow at 2^31-1, which is not modelled.
- `Catalog.Tally`, `Catalog.StreamsByArtist`: the per-artist sums are unbounded. Java's `Integer` addition wraps around, which is not modelled.
- `MusicModel.Music.Label`: the contract states the prefix and the approval mark, and the id round trip is `MusicModel.LabelIdRoundTrip`. That "Single" appears exactly when the album is absent is not stated, because an album titled "Single" looks the same.
- `JavaText.ParseInt`, `JavaText.Decimal`, `MusicModel.Music.Label`: digits are the ASCII digits. `Integer.parseInt` (PlaylistEditorDialog.java:48) also accepts the decimal digits of other scripts, and `String.format("%d")` (Music.java:32) writes digits in the script of the default locale. The id round trip holds either way, but those digits are not modelled.
- Only `title` and `album` may be absent (`Option`). A Java `null` in any other string column or argument is not modelled.
- `PlaylistModel.Playlist.AddSong`, `PlaylistModel.Playlist.RemoveSong`: the track argument is never null. Java's `addSong(null)` would add a null entry once and `removeSong(null)` remove it (Playlist.java:20-21); the model's list holds only tracks.
- `Catalog.MusicService.CreateUser`: the `IllegalArgumentException` a corrupt role column would raise during the read-back is not caught by the source. On consistent tables it cannot happen, because the only writer stores `role.name()`. The model treats it like any other read-back failure.
- The `Uploadable` and `Streamable` interfaces are not separate types. `Upload` requires an Artist and `Stream` a Listener, so an Admin can do neither.

/** `models.User` and its three concrete kinds, `Admin`, `Artist` and
    `Listener`, as one tagged variant. Id, name, email and role are fixed at
    construction (there are no setters); only a listener carries mutable
    state, its list of playlists. */
module UserModel {
  import opened Basics
  import opened JavaText
  import opened MusicModel
  import opened PlaylistModel

  /** `User.Role`: exactly three roles. */
  datatype Role = ADMIN | ARTIST | LISTENER

  /** `Role.valueOf(s)`; `None` is the `IllegalArgumentException` it throws
      for a string that names no role. */
  function RoleFromName(s: string): (r: Option<Role>)
    ensures r.Some? <==> s in {"ADMIN", "ARTIST", "LISTENER"}
  {
    if s == "ADMIN" then Some(ADMIN)
    else if s == "ARTIST" then Some(ARTIST)
    else if s == "LISTENER" then Some(LISTENER)
    else None
  }

  /** `role.name()`, the text stored in the role column. */
  function RoleName(r: Role): (s: string)
    ensures RoleFromName(s) == Some(r)
  {
    match r
    case ADMIN => "ADMIN"
    case ARTIST => "ARTIST"
    case LISTENER => "LISTENER"
  }

  /** Two roles never share a name, so the stored text identifies the role. */
  lemma RoleNameInjective(r: Role, q: Role)
    requires RoleName(r) == RoleName(q)
    ensures r == q
  {
    assert RoleFromName(RoleName(r)) == Some(r);
  }

  /** The `ArrayList<Playlist>` a listener owns. */
  class PlaylistList {
    var items: seq<Playlist>

    constructor ()
      ensures items == []
    {
      items := [];
    }
  }

  datatype User =
    | Admin(id: int, name: string, email: string)
    | Artist(id: int, name: string, email: string)
    | Listener(id: int, name: string, email: string, playlists: PlaylistList)

  /** `getRole()`: fixed by the kind of user. */
  function RoleOf(u: User): (r: Role)
    ensures r == ADMIN <==> u.Admin?
    ensures r == ARTIST <==> u.Artist?
    ensures r == LISTENER <==> u.Listener?
  {
    match u
    case Admin(_, _, _) => ADMIN
    case Artist(_, _, _) => ARTIST
    case Listener(_, _, _, _) => LISTENER
  }

  /** The word each kind of user introduces itself with. */
  function KindWord(r: Role): string {
    match r
    case ADMIN => "Admin"
    case ARTIST => "Artist"
    case LISTENER => "Listener"
  }

  /** `getDisplayInfo()`, supplied by every kind of user:
      "Kind: name (email)". */
  function DisplayInfo(u: User): (s: string)
    ensures s == KindWord(RoleOf(u)) + ": " + u.name + " (" + u.email + ")"
  {
    match u
    case Admin(_, name, email) => "Admin: " + name + " (" + email + ")"
    case Artist(_, name, email) => "Artist: " + name + " (" + email + ")"
    case Listener(_, name, email, _) => "Listener: " + name + " (" + email + ")"
  }

  /** The display text alone tells which kind of user it describes. */
  lemma DisplayInfoRevealsRole(u: User, v: User)
    requires DisplayInfo(u) == DisplayInfo(v)
    ensures RoleOf(u) == RoleOf(v)
  {
    var s, ku, kv := DisplayInfo(u), KindWord(RoleOf(u)), KindWord(RoleOf(v));
    assert s[0] == ku[0] && s[1] == ku[1];
    assert s[0] == kv[0] && s[1] == kv[1];
  }

  /** `Listener(id, name, email)`: a listener with no playlists yet. */
  method NewListener(id: int, name: string, email: string) returns (u: User)
    ensures u.Listener? && u == Listener(id, name, email, u.playlists)
    ensures fresh(u.playlists) && u.playlists.items == []
  {
    var list := new PlaylistList();
    u := Listener(id, name, email, list);
  }

  /** The outcome of a check that throws on rejection. */
  datatype Verdict<E> = Accepted | Rejected(reason: E)

  /** The three reasons `upload` throws an `UploadException`. */
  datatype UploadError = NullMusic | MissingTitle | ArtistMismatch

  /** `Artist.upload(music)`: only an artist can upload. The guards are tried
      in order: no track, then a missing or blank title, then a track that
      names another artist. Nothing changes either way. */
  function Upload(artist: User, m: Music?): (v: Verdict<UploadError>)
    requires artist.Artist?
    reads m
    ensures v == Accepted <==>
      m != null && m.title.Some? && !IsBlank(m.title.value) && m.artistName == artist.name
    ensures m == null ==> v == Rejected(NullMusic)
    ensures m != null && (m.title.None? || IsBlank(m.title.value)) ==> v == Rejected(MissingTitle)
    ensures m != null && m.title.Some? && !IsBlank(m.title.value) && m.artistName != artist.name ==>
      v == Rejected(ArtistMismatch)
    ensures v == Rejected(ArtistMismatch) ==> m != null && m.artistName != artist.name
  {
    if m == null then Rejected(NullMusic)
    else if m.title.None? || IsBlank(m.title.value) then Rejected(MissingTitle)
    else if artist.name != m.artistName then Rejected(ArtistMismatch)
    else Accepted
  }

  /** The two reasons `stream` throws a `StreamingException`. */
  datatype StreamError = NullTrack | NotApproved

  /** `Listener.stream(music)`: only a listener can stream, and only an
      approved track. Nothing changes either way. */
  function Stream(listener: User, m: Music?): (v: Verdict<StreamError>)
    requires listener.Listener?
    reads m
    ensures v == Accepted <==> m != null && m.approved
    ensures m == null ==> v == Rejected(NullTrack)
    ensures m != null && !m.approved ==> v == Rejected(NotApproved)
  {
    if m == null then Rejected(NullTrack)
    else if !m.approved then Rejected(NotApproved)
    else Accepted
  }

  /** `Listener.addPlaylist(p)`: appends at the end; the earlier playlists
      stay where they were. */
  method AddPlaylist(listener: User, p: Playlist)
    requires listener.Listener?
    modifies listener.playlists
    ensures listener.playlists.items == old(listener.playlists.items) + [p]
  {
    listener.playlists.items := listener.playlists.items + [p];
  }
}

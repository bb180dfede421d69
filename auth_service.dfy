/** `service.AuthService`: password hashing and the login and registration
    flows built on `UserDAO`. The SHA-256 digest itself is the parameter
    `digest`, from the text of a password to the bytes of its digest
    (including the UTF-8 encoding); only the rendering of those bytes as
    text is modelled. */
module Auth {
  import opened Basics
  import opened Tables
  import opened Database
  import opened UserModel
  import opened UserDao

  /** A Java `byte`: signed, 8 bits. */
  type JByte = b: int | -128 <= b < 128

  predicate IsHexChar(c: char) {
    '0' <= c <= '9' || 'a' <= c <= 'f'
  }

  /** The lower-case hex digit of `d`. */
  function HexChar(d: int): (c: char)
    requires 0 <= d < 16
    ensures IsHexChar(c)
  {
    if d < 10 then ('0' as int + d) as char else ('a' as int + d - 10) as char
  }

  function HexValue(c: char): (d: int)
    requires IsHexChar(c)
    ensures 0 <= d < 16
  {
    if c <= '9' then c as int - '0' as int else c as int - 'a' as int + 10
  }

  /** `String.format("%02x", b)`: a negative byte is first taken as
      unsigned (plus 256), then written as two lower-case hex digits. */
  function Hex2(b: JByte): (s: string)
    ensures |s| == 2 && IsHexChar(s[0]) && IsHexChar(s[1])
  {
    var u := if b < 0 then b + 256 else b;
    [HexChar(u / 16), HexChar(u % 16)]
  }

  /** The byte two hex digits stand for, read back as a signed byte. */
  function ByteOf(hi: char, lo: char): JByte
    requires IsHexChar(hi) && IsHexChar(lo)
  {
    var u := HexValue(hi) * 16 + HexValue(lo);
    if u >= 128 then u - 256 else u
  }

  /** The text `hashPassword` builds: `Hex2` of every byte, in order. */
  function HexOf(bytes: seq<JByte>): (s: string)
    ensures |s| == 2 * |bytes|
    decreases |bytes|
  {
    if bytes == [] then "" else HexOf(bytes[..|bytes| - 1]) + Hex2(bytes[|bytes| - 1])
  }

  /** Text made of pairs of lower-case hex digits. */
  predicate WellFormedHex(s: string) {
    |s| % 2 == 0 && forall i :: 0 <= i < |s| ==> IsHexChar(s[i])
  }

  /** Reading hex text back two digits at a time. */
  function UnHex(s: string): seq<JByte>
    requires WellFormedHex(s)
    decreases |s|
  {
    if s == [] then [] else UnHex(s[..|s| - 2]) + [ByteOf(s[|s| - 2], s[|s| - 1])]
  }

  /** Two characters per byte, each a lower-case hex digit. */
  lemma {:induction false} HexShape(bytes: seq<JByte>)
    ensures |HexOf(bytes)| == 2 * |bytes| && WellFormedHex(HexOf(bytes))
    decreases |bytes|
  {
    if bytes != [] {
      HexShape(bytes[..|bytes| - 1]);
    }
  }

  lemma Hex2RoundTrip(b: JByte)
    ensures ByteOf(Hex2(b)[0], Hex2(b)[1]) == b
  {
  }

  /** Reading one more pair of digits reads one more byte. */
  lemma UnHexSnoc(p: string, hi: char, lo: char)
    requires WellFormedHex(p) && IsHexChar(hi) && IsHexChar(lo)
    ensures WellFormedHex(p + [hi, lo]) && UnHex(p + [hi, lo]) == UnHex(p) + [ByteOf(hi, lo)]
  {
    var s := p + [hi, lo];
    assert s[..|s| - 2] == p;
  }

  /** The encoding loses nothing: the digest bytes can be read back from
      the stored text. */
  lemma {:induction false} HexRoundTrip(bytes: seq<JByte>)
    ensures WellFormedHex(HexOf(bytes)) && UnHex(HexOf(bytes)) == bytes
    decreases |bytes|
  {
    if bytes != [] {
      var init, last := bytes[..|bytes| - 1], bytes[|bytes| - 1];
      assert bytes == init + [last];
      HexRoundTrip(init);
      var pair := Hex2(last);
      assert HexOf(bytes) == HexOf(init) + [pair[0], pair[1]];
      UnHexSnoc(HexOf(init), pair[0], pair[1]);
      Hex2RoundTrip(last);
    }
  }

  /** `hashPassword(plain)`: the hex text of the digest, built one byte at
      a time in a `StringBuilder`. */
  method HashPassword(plain: string, digest: string -> seq<JByte>) returns (h: string)
    ensures h == HexOf(digest(plain))
    ensures |h| == 2 * |digest(plain)|
    ensures forall i :: 0 <= i < |h| ==> IsHexChar(h[i])
    ensures WellFormedHex(h) && UnHex(h) == digest(plain)
  {
    var bytes := digest(plain);
    h := "";
    for i := 0 to |bytes|
      invariant h == HexOf(bytes[..i])
    {
      assert bytes[..i + 1][..i] == bytes[..i];
      h := h + Hex2(bytes[i]);
    }
    assert bytes[..|bytes|] == bytes;
    HexShape(bytes);
    HexRoundTrip(bytes);
  }

  /** The user a login with these credentials finds: the one stored under
      the email, when its stored hash is the hash of the password. */
  function LoginMatch(s: Store, email: string, password: string, digest: string -> seq<JByte>)
    : (r: Option<(int, UserRow)>)
    ensures r.Some? ==> r.value.0 in s.users && s.users[r.value.0] == r.value.1
    ensures r.Some? ==> r.value.1.email == email && r.value.1.passwordHash == HexOf(digest(password))
    ensures r.None? && Consistent(s) ==> forall id :: id in s.users && s.users[id].email == email
                                          ==> s.users[id].passwordHash != HexOf(digest(password))
  {
    if StoredHashMatches(s, email, HexOf(digest(password))) then
      UserByEmail(s, email)
    else
      None
  }

  /** `login(email, password)`: empty unless `verifyPassword` accepts the
      hash of the password, then whatever `findByEmail` returns. The two
      calls open a connection each; `verifyFails` and `findFails` are
      their `SQLException`s. */
  method Login(server: Server, email: string, password: string, digest: string -> seq<JByte>,
               verifyFails: bool, findFails: bool)
    returns (r: Result<Option<User>>)
    ensures verifyFails ==> r == Err(SqlException)
    ensures !verifyFails && LoginMatch(server.store, email, password, digest).None? ==> r == Ok(None)
    ensures !verifyFails && LoginMatch(server.store, email, password, digest).Some? ==>
      var (id, row) := LoginMatch(server.store, email, password, digest).value;
      && (findFails ==> r == Err(SqlException))
      && (!findFails && server.Valid() ==> r.Ok? && r.value.Some? && Describes(r.value.value, id, row))
  {
    var h := HashPassword(password, digest);
    var ok := VerifyPassword(server, email, h, verifyFails);
    if ok.Err? {
      return Err(ok.error);
    }
    if !ok.value {
      return Ok(None);
    }
    r := FindByEmail(server, email, findFails);
  }

  /** `register(name, email, password, role)`: stores the hash of the
      password, not the password. */
  method Register(server: Server, name: string, email: string, password: string, role: Role,
                  digest: string -> seq<JByte>, fails: bool, keyReturned: bool)
    returns (r: Result<int>)
    modifies server
    ensures r.Ok? <==> !fails && !EmailTaken(old(server.store), email)
    ensures r.Err? ==> r.error == SqlException && server.store == old(server.store)
    ensures r.Ok? ==> server.store == InsertUserRow(old(server.store),
      UserRow(name, email, HexOf(digest(password)), RoleName(role))).value
    ensures r.Ok? ==> r.value == (if keyReturned then old(server.store.nextUserId) else -1)
    ensures old(server.Valid()) ==> server.Valid()
  {
    var h := HashPassword(password, digest);
    r := CreateUser(server, name, email, h, role, fails, keyReturned);
  }

  /** After a successful registration, logging in with the same email and
      password finds the new user, with the role it registered with. */
  lemma RegisterThenLogin(s: Store, name: string, email: string, password: string, role: Role,
                          digest: string -> seq<JByte>)
    requires Consistent(s) && !EmailTaken(s, email)
    ensures var row := UserRow(name, email, HexOf(digest(password)), RoleName(role));
      var t := InsertUserRow(s, row).value;
      && LoginMatch(t, email, password, digest) == Some((s.nextUserId, row))
      && RoleFromName(row.role) == Some(role)
  {
    var row := UserRow(name, email, HexOf(digest(password)), RoleName(role));
    InsertUserConsistent(s, row);
    var t := InsertUserRow(s, row).value;
    UserByEmailFinds(t, s.nextUserId);
  }
}

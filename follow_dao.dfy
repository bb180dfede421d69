/** `dao.FollowDAO`: the `follows` table, a set of (listener, artist name)
    pairs. `fails` is a `SQLException` from the call's own connection or
    statement. */
module FollowDao {
  import opened Basics
  import opened Tables
  import opened Database
  import opened PlaylistModel

  /** `followArtist(l, a)`: `INSERT IGNORE`, so following twice is the
      same as following once. */
  method FollowArtist(server: Server, listenerId: int, artistName: string, fails: bool) returns (r: Status)
    modifies server
    ensures r == Done <==> !fails
    ensures server.store == (if fails then old(server.store) else InsertIgnoreFollow(old(server.store), listenerId, artistName))
    ensures old(server.Valid()) ==> server.Valid()
  {
    r := AutoCommitUpdate(server, AddFollow(listenerId, artistName), fails);
  }

  /** `unfollowArtist(l, a)`. */
  method UnfollowArtist(server: Server, listenerId: int, artistName: string, fails: bool) returns (r: Status)
    modifies server
    ensures r == Done <==> !fails
    ensures server.store == (if fails then old(server.store) else DeleteFollow(old(server.store), listenerId, artistName))
    ensures old(server.Valid()) ==> server.Valid()
  {
    r := AutoCommitUpdate(server, RemoveFollow(listenerId, artistName), fails);
  }

  /** `getFollowedArtists(l)`: the artist names paired with the listener,
      each once, in the order the server returns the rows, which the
      model leaves open. */
  method GetFollowedArtists(server: Server, listenerId: int, fails: bool) returns (r: Result<seq<string>>)
    ensures fails <==> r.Err?
    ensures r.Err? ==> r.error == SqlException
    ensures r.Ok? ==> Distinct(r.value)
    ensures r.Ok? ==> forall a :: a in r.value <==> a in FollowedBy(server.store, listenerId)
  {
    if fails {
      return Err(SqlException);
    }
    var mine := set p | p in server.store.follows && p.0 == listenerId;
    var pending := mine;
    var out: seq<string> := [];
    while pending != {}
      invariant pending <= mine
      invariant forall i :: 0 <= i < |out| ==> (listenerId, out[i]) in mine - pending
      invariant forall p :: p in mine - pending ==> p.1 in out
      invariant Distinct(out)
      decreases |pending|
    {
      var p :| p in pending;
      out := out + [p.1];
      pending := pending - {p};
    }
    r := Ok(out);
  }

  /** Following an artist already followed changes nothing. */
  lemma FollowIdempotent(s: Store, listenerId: int, artistName: string)
    ensures var t := InsertIgnoreFollow(s, listenerId, artistName);
      InsertIgnoreFollow(t, listenerId, artistName) == t
  {
  }

  /** After a follow and then an unfollow of the same pair, the listener
      does not follow that artist, whatever the tables held before. */
  lemma FollowThenUnfollow(s: Store, listenerId: int, artistName: string)
    ensures artistName !in FollowedBy(DeleteFollow(InsertIgnoreFollow(s, listenerId, artistName),
                                                   listenerId, artistName), listenerId)
  {
  }

  /** Following adds the artist to what the listener follows and to
      nothing else; unfollowing removes it from that listener only. */
  lemma FollowFrames(s: Store, listenerId: int, artistName: string)
    ensures FollowedBy(InsertIgnoreFollow(s, listenerId, artistName), listenerId)
      == FollowedBy(s, listenerId) + {artistName}
    ensures FollowedBy(DeleteFollow(s, listenerId, artistName), listenerId)
      == FollowedBy(s, listenerId) - {artistName}
    ensures forall other :: other != listenerId ==>
      FollowedBy(InsertIgnoreFollow(s, listenerId, artistName), other) == FollowedBy(s, other)
      && FollowedBy(DeleteFollow(s, listenerId, artistName), other) == FollowedBy(s, other)
  {
  }
}

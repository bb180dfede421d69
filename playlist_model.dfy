/** `models.Playlist`: a titled list of tracks held in memory. */
module PlaylistModel {
  import opened Basics
  import opened JavaText
  import opened MusicModel

  predicate Distinct<T(==)>(s: seq<T>) {
    forall i, j :: 0 <= i < j < |s| ==> s[i] != s[j]
  }

  /** The song list after `addSong(m)`. `Music` does not override `equals`,
      so "already present" means the same object, not an equal track. */
  function WithSong(songs: seq<Music>, m: Music): (r: seq<Music>)
    ensures m in r
    ensures |r| == (if m in songs then |songs| else |songs| + 1)
    ensures r[..|songs|] == songs
  {
    if m in songs then songs else songs + [m]
  }

  /** Adding a song that is already there changes nothing. */
  lemma WithSongIdempotent(songs: seq<Music>, m: Music)
    ensures WithSong(WithSong(songs, m), m) == WithSong(songs, m)
  {
  }

  /** A list built only by `addSong` never holds the same object twice. */
  lemma WithSongKeepsDistinct(songs: seq<Music>, m: Music)
    requires Distinct(songs)
    ensures Distinct(WithSong(songs, m))
  {
  }

  /** `List.remove(Object)`: drop the first element equal to `x`, if any. */
  function RemoveFirst<T(==)>(s: seq<T>, x: T): (r: seq<T>)
    ensures x !in s ==> r == s
    ensures x in s ==> |r| == |s| - 1 && multiset(r) == multiset(s) - multiset{x}
    decreases |s|
  {
    if s == [] then []
    else
      assert s == [s[0]] + s[1..];
      if s[0] == x then s[1..] else [s[0]] + RemoveFirst(s[1..], x)
  }

  /** What `RemoveFirst` removes is the first occurrence: the elements before
      it and after it stay, in their order. */
  lemma {:induction false} RemoveFirstAt<T>(s: seq<T>, x: T, i: nat)
    requires i < |s| && s[i] == x && x !in s[..i]
    ensures RemoveFirst(s, x) == s[..i] + s[i + 1..]
    decreases i
  {
    if i > 0 {
      assert s[0] in s[..i];
      assert s[1..][..i - 1] == s[..i][1..];
      RemoveFirstAt(s[1..], x, i - 1);
    }
  }

  class Playlist {
    const id: int
    const title: string
    var songs: seq<Music>

    /** `Playlist(id, title)`: no songs yet. */
    constructor (id: int, title: string)
      ensures this.id == id && this.title == title && songs == []
    {
      this.id := id;
      this.title := title;
      songs := [];
    }

    /** `Playlist(title)`: a playlist not yet stored, with id 0. */
    constructor Unsaved(title: string)
      ensures id == 0 && this.title == title && songs == []
    {
      id := 0;
      this.title := title;
      songs := [];
    }

    method AddSong(m: Music)
      modifies this
      ensures songs == WithSong(old(songs), m)
    {
      if m !in songs {
        songs := songs + [m];
      }
    }

    method RemoveSong(m: Music)
      modifies this
      ensures songs == RemoveFirst(old(songs), m)
    {
      songs := RemoveFirst(songs, m);
    }

    /** `toString()`: the title, then the song count in parentheses. */
    function Label(): (s: string)
      reads this
      ensures |s| > |title| && s[..|title|] == title
    {
      title + " (" + Decimal(|songs|) + " songs)"
    }
  }

  /** The count shown after the title is the current number of songs. */
  lemma LabelShowsCount(p: Playlist)
    requires InIntRange(|p.songs|)
    ensures var s := p.Label();
      |s| >= |p.title| + 9 && ParseInt(s[|p.title| + 2 .. |s| - 7]) == Some(|p.songs|)
  {
    var s := p.Label();
    assert s == p.title + " (" + Decimal(|p.songs|) + " songs)";
    assert s[|p.title| + 2 .. |s| - 7] == Decimal(|p.songs|);
    DecimalRoundTrip(|p.songs|);
  }
}

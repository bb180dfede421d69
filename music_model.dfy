/** `models.Music`: a track as the application holds it in memory. */
module MusicModel {
  import opened Basics
  import opened JavaText

  /** A track. The class has getters for every field and a setter only for
      the approval flag, so every other field is a constant here. Title and
      album are references that may be `null` (`None`). */
  class Music {
    const id: int
    const title: Option<string>
    const artistName: string
    const album: Option<string>
    const genre: string
    const filepath: string
    var approved: bool
    const streams: int
    const likes: int

    /** Every getter returns what the constructor was given. */
    constructor (id: int, title: Option<string>, artistName: string, album: Option<string>,
                 genre: string, filepath: string, approved: bool, streams: int, likes: int)
      ensures this.id == id && this.title == title && this.artistName == artistName
      ensures this.album == album && this.genre == genre && this.filepath == filepath
      ensures this.approved == approved && this.streams == streams && this.likes == likes
    {
      this.id := id;
      this.title := title;
      this.artistName := artistName;
      this.album := album;
      this.genre := genre;
      this.filepath := filepath;
      this.approved := approved;
      this.streams := streams;
      this.likes := likes;
    }

    /** `setApproved(b)`: only the approval flag changes. */
    method SetApproved(b: bool)
      modifies this
      ensures approved == b
    {
      approved := b;
    }

    /** `toString()`: "[id] title - artist (album) mark", with "Single" for a
        missing album and a tick or a cross for the approval flag. */
    function Label(): (s: string)
      reads this
      ensures |s| > 0 && s[0] == '['
      ensures s[|s| - 1] == Mark(approved)
      ensures Mark(approved) == '\U{2714}' <==> approved
    {
      "[" + Decimal(id) + "]" + LabelTail(title, artistName, album, approved)
    }
  }

  /** What `toString()` prints after the bracketed id: " title - artist
      (album) mark". */
  function LabelTail(title: Option<string>, artistName: string, album: Option<string>, approved: bool): (s: string)
    ensures |s| > 0 && s[|s| - 1] == Mark(approved)
  {
    " " + FormatText(title) + " - " + artistName + " (" + AlbumText(album) + ") " + [Mark(approved)]
  }

  /** The approval mark: a heavy check mark or a heavy multiplication sign. */
  function Mark(approved: bool): char {
    if approved then '\U{2714}' else '\U{2716}'
  }

  /** What `%s` prints for a string reference. */
  function FormatText(s: Option<string>): string {
    match s
    case None => "null"
    case Some(t) => t
  }

  function AlbumText(album: Option<string>): string {
    match album
    case None => "Single"
    case Some(a) => a
  }

  /** How the playlist editor recovers a track id from a label it shows: it
      parses, as an `int`, the text from the second character up to the first
      ']'. `None` is the exception that the substring or the parse throws. */
  function ParseLabelId(shown: string): (r: Option<int>)
    ensures r.Some? ==> InIntRange(r.value)
    ensures ']' !in shown ==> r.None?
  {
    match Substring(shown, 1, IndexOf(shown, ']'))
    case None => None
    case Some(digits) => ParseInt(digits)
  }

  /** The id of every track survives the round trip through its label, even
      when the title or the artist name contains a ']'. */
  lemma LabelIdRoundTrip(m: Music)
    requires InIntRange(m.id)
    ensures ParseLabelId(m.Label()) == Some(m.id)
  {
    BracketedIdRoundTrip(m.id, LabelTail(m.title, m.artistName, m.album, m.approved));
  }

  /** Whatever follows the closing bracket, the number written inside the
      brackets is the one parsed back. */
  lemma BracketedIdRoundTrip(n: int, q: string)
    requires InIntRange(n)
    ensures ParseLabelId("[" + Decimal(n) + "]" + q) == Some(n)
  {
    var p := "[" + Decimal(n);
    var shown := p + "]" + q;
    assert "[" + Decimal(n) + "]" + q == shown;
    assert ']' !in p;
    IndexOfAfterPrefix(p, ']', q);
    assert shown[1..|p|] == Decimal(n);
    DecimalRoundTrip(n);
  }
}

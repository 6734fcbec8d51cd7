/** The track catalog endpoint (`GET /api/tracks`): list the music directory,
    keep the audio files, read each file's embedded metadata, and answer with
    one track record per audio file, in listing order.

    The directory listing and the metadata parser are inputs: the listing is a
    `Result` (a failed `readdir` is a `Failure`), and the parser is a total
    oracle from a file path to a `Result` (a thrown parse error is a
    `Failure`). With those fixed, the endpoint is a pure function. */
module Tracks {
  import opened Wrappers
  import opened NodePath

  /** Directory scanned by the endpoint, relative to the server's root. */
  const MusicDir: string := "static/music"
  /** Public URL prefix under which the static server exposes that directory. */
  const PublicPrefix: string := "/music/"
  const UnknownArtist: string := "Unknown Artist"
  const UnknownAlbum: string := "Unknown Album"
  const DirectoryFailureMessage: string := "Failed to read music directory"
  /** HTTP status of a successful `json(...)` answer and of the error answer. */
  const StatusOk: int := 200
  const StatusServerError: int := 500

  /** The fields of the parser's answer that the endpoint reads
      (`common.title`, `common.artist`, `common.album`, `format.duration`).
      A tag the file lacks is `None`; a tag present but empty is `Some("")`. */
  datatype Meta = Meta(
    title: Option<string>,
    artist: Option<string>,
    album: Option<string>,
    duration: real)

  /** Whatever the parser throws; the endpoint only logs it. */
  datatype ParseError = ParseError(message: string)

  /** Whatever `readdir` throws; the endpoint only logs it. */
  datatype DirError = DirError(message: string)

  type Parser = string -> Result<Meta, ParseError>

  datatype Track = Track(
    id: string,
    title: string,
    artist: string,
    album: string,
    duration: int,
    filepath: string)

  /** The JSON body of the answer: a track array or an error object. */
  datatype Body = TrackList(tracks: seq<Track>) | ErrorObject(error: string)

  datatype Response = Response(status: int, body: Body)

  // ---------------------------------------------------------------------
  // Extension filter
  // ---------------------------------------------------------------------

  /** The recognised audio extensions, matched case-sensitively. */
  predicate IsAudioFile(name: EntryName) {
    EndsWith(name, ".mp3") || EndsWith(name, ".flac")
    || EndsWith(name, ".opus") || EndsWith(name, ".wav")
  }

  /** `files.filter(...)`: the audio files of the listing, in listing order. */
  function AudioFiles(files: seq<EntryName>): (audio: seq<EntryName>)
    ensures |audio| <= |files|
    ensures forall f :: f in audio <==> f in files && IsAudioFile(f)
  {
    if |files| == 0 then []
    else if IsAudioFile(files[0]) then [files[0]] + AudioFiles(files[1..])
    else AudioFiles(files[1..])
  }

  /** The filter distributes over concatenation of listings: it keeps the
      relative order of the names it keeps and never reorders across parts. */
  lemma {:induction false} AudioFilesAppend(a: seq<EntryName>, b: seq<EntryName>)
    ensures AudioFiles(a + b) == AudioFiles(a) + AudioFiles(b)
  {
    if |a| == 0 {
      assert a + b == b;
    } else {
      assert (a + b)[1..] == a[1..] + b;
      AudioFilesAppend(a[1..], b);
    }
  }

  /** The filter on a one-name listing keeps it exactly when it is audio. */
  lemma AudioFilesSingleton(f: EntryName)
    ensures AudioFiles([f]) == if IsAudioFile(f) then [f] else []
  {
  }

  /** Each name is kept as many times as it is listed when it is audio, and
      never otherwise. */
  lemma {:induction false} AudioFilesCount(files: seq<EntryName>, f: EntryName)
    ensures multiset(AudioFiles(files))[f] == if IsAudioFile(f) then multiset(files)[f] else 0
  {
    if |files| > 0 {
      assert files == [files[0]] + files[1..];
      AudioFilesCount(files[1..], f);
    }
  }

  /** Distinct listing names give distinct kept names. */
  lemma {:induction false} AudioFilesDistinct(files: seq<EntryName>)
    requires forall i, j :: 0 <= i < j < |files| ==> files[i] != files[j]
    ensures forall i, j :: 0 <= i < j < |AudioFiles(files)| ==> AudioFiles(files)[i] != AudioFiles(files)[j]
  {
    if |files| > 0 {
      AudioFilesDistinct(files[1..]);
      var rest := AudioFiles(files[1..]);
      assert files[0] !in files[1..] by {
        forall k | 0 <= k < |files[1..]|
          ensures files[1..][k] != files[0]
        {
          assert files[1..][k] == files[k + 1];
        }
      }
      assert files[0] !in rest;
    }
  }

  // ---------------------------------------------------------------------
  // Per-file record
  // ---------------------------------------------------------------------

  /** JavaScript truthiness of a tag: present and not the empty string. */
  predicate Truthy(tag: Option<string>) {
    tag.Some? && tag.value != ""
  }

  /** `tag || fallback`. */
  function Or(tag: Option<string>, fallback: string): string {
    if Truthy(tag) then tag.value else fallback
  }

  /** `path.join(MUSIC_DIR, file)`, the path handed to the parser. For an
      entry name without separators that is not `.` or `..`, Node's
      normalisation leaves the joined path as plain concatenation. */
  function ParserPath(file: EntryName): (path: string)
    ensures |path| == 13 + |file|
    ensures path[..13] == "static/music/" && path[13..] == file
  {
    MusicDir + "/" + file
  }

  /** The record built from the file name alone, used when parsing fails. */
  function FallbackTrack(file: EntryName): (t: Track) {
    Track(file, Stem(file), UnknownArtist, UnknownAlbum, 0, PublicPrefix + file)
  }

  /** The record for one audio file, given what the parser did with it: the
      `try` branch on `Success`, the `catch` branch on `Failure`. */
  function TrackFor(file: EntryName, parsed: Result<Meta, ParseError>): (t: Track)
    ensures t.id == file
    ensures t.filepath == "/music/" + file
    ensures parsed.Failure? ==> t == Track(file, Stem(file), "Unknown Artist", "Unknown Album", 0, "/music/" + file)
    ensures parsed.Success? ==>
      && (t.title == if Truthy(parsed.value.title) then parsed.value.title.value else Stem(file))
      && (t.artist == if Truthy(parsed.value.artist) then parsed.value.artist.value else "Unknown Artist")
      && (t.album == if Truthy(parsed.value.album) then parsed.value.album.value else "Unknown Album")
      && t.duration as real <= parsed.value.duration < t.duration as real + 1.0
  {
    match parsed
    case Success(m) =>
      Track(file, Or(m.title, Stem(file)), Or(m.artist, UnknownArtist), Or(m.album, UnknownAlbum),
            m.duration.Floor, PublicPrefix + file)
    case Failure(_) => FallbackTrack(file)
  }

  /** A present but empty tag is treated exactly like a missing one. */
  lemma EmptyTagIsMissing(file: EntryName, m: Meta)
    ensures TrackFor(file, Success(m.(title := Some("")))) == TrackFor(file, Success(m.(title := None)))
    ensures TrackFor(file, Success(m.(artist := Some("")))) == TrackFor(file, Success(m.(artist := None)))
    ensures TrackFor(file, Success(m.(album := Some("")))) == TrackFor(file, Success(m.(album := None)))
  {
  }

  /** The failure record is the record of a successful parse that found no
      tags and a duration under one second: a failure degrades to "nothing
      known". */
  lemma FailureIsEmptyMetadata(file: EntryName, e: ParseError, d: real)
    requires 0.0 <= d < 1.0
    ensures TrackFor(file, Failure(e)) == TrackFor(file, Success(Meta(None, None, None, d)))
  {
  }

  // ---------------------------------------------------------------------
  // Catalog assembly
  // ---------------------------------------------------------------------

  /** `.map(...)` followed by `Promise.all`: one record per name, in order. */
  function TracksFor(files: seq<EntryName>, parse: Parser): (tracks: seq<Track>)
    ensures |tracks| == |files|
    ensures forall i :: 0 <= i < |files| ==> tracks[i] == TrackFor(files[i], parse(ParserPath(files[i])))
  {
    if |files| == 0 then []
    else [TrackFor(files[0], parse(ParserPath(files[0])))] + TracksFor(files[1..], parse)
  }

  /** The track array for a successful listing. */
  function Catalog(files: seq<EntryName>, parse: Parser): (tracks: seq<Track>)
    ensures |tracks| == |AudioFiles(files)|
    ensures forall i :: 0 <= i < |tracks| ==>
      && tracks[i].id == AudioFiles(files)[i]
      && tracks[i].filepath == "/music/" + AudioFiles(files)[i]
    ensures forall i :: 0 <= i < |tracks| ==>
      tracks[i] == TrackFor(AudioFiles(files)[i], parse(ParserPath(AudioFiles(files)[i])))
  {
    TracksFor(AudioFiles(files), parse)
  }

  /** The whole endpoint: a failed listing collapses to one fixed error
      answer; a successful one always answers with the catalog. */
  function Get(listing: Result<seq<EntryName>, DirError>, parse: Parser): (resp: Response)
    ensures listing.Failure? <==> resp.body.ErrorObject?
    ensures listing.Failure? ==> resp == Response(500, ErrorObject("Failed to read music directory"))
    ensures listing.Success? ==> resp.status == 200 && resp.body.TrackList?
    ensures listing.Success? ==> |resp.body.tracks| == |AudioFiles(listing.value)|
    ensures listing.Success? ==> resp.body.tracks == Catalog(listing.value, parse)
  {
    match listing
    case Failure(_) => Response(StatusServerError, ErrorObject(DirectoryFailureMessage))
    case Success(files) => Response(StatusOk, TrackList(Catalog(files, parse)))
  }

  /** Only audio files appear in the answer: a listed name shows up as a
      track id exactly when it is an audio file. */
  lemma OnlyAudioFilesAppear(files: seq<EntryName>, parse: Parser, name: EntryName)
    ensures (exists i :: 0 <= i < |Get(Success(files), parse).body.tracks|
               && Get(Success(files), parse).body.tracks[i].id == name)
            <==> name in files && IsAudioFile(name)
  {
    var tracks := Get(Success(files), parse).body.tracks;
    var audio := AudioFiles(files);
    if name in files && IsAudioFile(name) {
      var i :| 0 <= i < |audio| && audio[i] == name;
      assert tracks[i].id == name;
    }
  }

  /** A failed parse never loses its file: the answer is still a track list,
      and the file's record is the fallback record. */
  lemma ParseFailureIsIsolated(files: seq<EntryName>, parse: Parser, i: nat)
    requires i < |AudioFiles(files)|
    requires parse(ParserPath(AudioFiles(files)[i])).Failure?
    ensures Get(Success(files), parse).status == 200
    ensures Get(Success(files), parse).body.tracks[i] == FallbackTrack(AudioFiles(files)[i])
  {
  }

  /** Track ids depend on the listing alone, never on metadata. */
  lemma IdsIgnoreMetadata(files: seq<EntryName>, parse1: Parser, parse2: Parser, i: nat)
    requires i < |AudioFiles(files)|
    ensures Catalog(files, parse1)[i].id == Catalog(files, parse2)[i].id
    ensures Catalog(files, parse1)[i].filepath == Catalog(files, parse2)[i].filepath
  {
  }

  /** Distinct names in the listing give distinct track ids. */
  lemma IdsAreDistinct(files: seq<EntryName>, parse: Parser)
    requires forall i, j :: 0 <= i < j < |files| ==> files[i] != files[j]
    ensures forall i, j :: 0 <= i < j < |Catalog(files, parse)| ==> Catalog(files, parse)[i].id != Catalog(files, parse)[j].id
  {
    AudioFilesDistinct(files);
  }

  /** When every audio file that parses reports a non-negative duration,
      every track of the catalog has a non-negative whole number of seconds,
      never more than the reported duration of its file. */
  lemma DurationsAreWholeSeconds(files: seq<EntryName>, parse: Parser)
    requires forall f :: f in files && IsAudioFile(f) && parse(ParserPath(f)).Success? ==>
      parse(ParserPath(f)).value.duration >= 0.0
    ensures forall i :: 0 <= i < |Catalog(files, parse)| ==> Catalog(files, parse)[i].duration >= 0
    ensures forall i :: 0 <= i < |Catalog(files, parse)| && parse(ParserPath(AudioFiles(files)[i])).Success? ==>
      Catalog(files, parse)[i].duration as real <= parse(ParserPath(AudioFiles(files)[i])).value.duration
  {
    var audio := AudioFiles(files);
    forall i | 0 <= i < |audio|
      ensures Catalog(files, parse)[i].duration >= 0
    {
      assert audio[i] in audio;
    }
  }

  /** Mapping a listing part by part gives the same records as mapping it
      whole. */
  lemma {:induction false} TracksForAppend(x: seq<EntryName>, y: seq<EntryName>, parse: Parser)
    ensures TracksFor(x + y, parse) == TracksFor(x, parse) + TracksFor(y, parse)
  {
    if |x| == 0 {
      assert x + y == y;
    } else {
      assert (x + y)[0] == x[0];
      assert (x + y)[1..] == x[1..] + y;
      TracksForAppend(x[1..], y, parse);
    }
  }

  /** Assembling a listing part by part gives the same array as assembling it
      whole. */
  lemma CatalogAppend(a: seq<EntryName>, b: seq<EntryName>, parse: Parser)
    ensures Catalog(a + b, parse) == Catalog(a, parse) + Catalog(b, parse)
  {
    AudioFilesAppend(a, b);
    TracksForAppend(AudioFiles(a), AudioFiles(b), parse);
  }

  /** `Promise.all`: the settled values arrive one at a time, in whatever
      order the extractions finish, and each is stored in the slot of its
      own index; the array is released once every slot is filled.
      `completion` is that finishing order (every index occurs in it).
      Whatever the order, the joined array is the values in index order. */
  method JoinAll<T>(settled: seq<T>, completion: seq<nat>) returns (joined: seq<T>)
    requires forall k :: 0 <= k < |completion| ==> completion[k] < |settled|
    requires forall i :: 0 <= i < |settled| ==> i in completion
    ensures joined == settled
  {
    var slots: seq<Option<T>> := seq(|settled|, _ => None);
    var k := 0;
    while k < |completion|
      invariant 0 <= k <= |completion|
      invariant |slots| == |settled|
      invariant forall i :: 0 <= i < |slots| && slots[i].Some? ==> slots[i].value == settled[i]
      invariant forall j :: 0 <= j < k ==> slots[completion[j]].Some?
    {
      var i := completion[k];
      slots := slots[i := Some(settled[i])];
      k := k + 1;
    }
    forall i | 0 <= i < |slots|
      ensures slots[i].Some?
    {
      assert i in completion;
      var j :| 0 <= j < |completion| && completion[j] == i;
    }
    joined := seq(|slots|, i requires 0 <= i < |slots| => slots[i].value);
  }

  /** The track array is the same whatever order the per-file extractions
      finish in. */
  method JoinTracks(files: seq<EntryName>, parse: Parser, completion: seq<nat>) returns (tracks: seq<Track>)
    requires forall k :: 0 <= k < |completion| ==> completion[k] < |AudioFiles(files)|
    requires forall i :: 0 <= i < |AudioFiles(files)| ==> i in completion
    ensures tracks == Catalog(files, parse)
    ensures |tracks| == |AudioFiles(files)|
  {
    tracks := JoinAll(TracksFor(AudioFiles(files), parse), completion);
  }

  /** The tags of the worked example's `song.mp3`: title "Test", artist
      "Band", no album, 125.7 seconds. */
  const ExampleSongTags: Meta := Meta(Some("Test"), Some("Band"), None, 125.7)

  /** The parser of the worked example: `song.mp3` carries
      `ExampleSongTags`; every other file is unreadable. */
  function ExampleParser(path: string): Result<Meta, ParseError> {
    if path == "static/music/song.mp3" then Success(ExampleSongTags)
    else Failure(ParseError("unreadable"))
  }

  /** The worked example: a tagged `song.mp3`, an unreadable `broken.wav`
      and a non-audio `cover.jpg`. */
  lemma SongAndBrokenExample()
    ensures Get(Success(["song.mp3", "broken.wav", "cover.jpg"]), ExampleParser)
      == Response(200, TrackList([
           Track("song.mp3", "Test", "Band", "Unknown Album", 125, "/music/song.mp3"),
           Track("broken.wav", "broken", "Unknown Artist", "Unknown Album", 0, "/music/broken.wav")]))
  {
    ExampleFilter();
    ExampleTracks();
  }

  lemma ExampleTracks()
    ensures TracksFor(["song.mp3", "broken.wav"], ExampleParser)
      == [Track("song.mp3", "Test", "Band", "Unknown Album", 125, "/music/song.mp3"),
          Track("broken.wav", "broken", "Unknown Artist", "Unknown Album", 0, "/music/broken.wav")]
  {
    TracksForPair("song.mp3", "broken.wav", ExampleParser);
    ExampleParses();
    ExampleSongRecord("song.mp3");
    ExampleSongPath();
    ExampleBrokenRecord();
  }

  lemma TracksForPair(a: EntryName, b: EntryName, parse: Parser)
    ensures TracksFor([a, b], parse)
      == [TrackFor(a, parse(ParserPath(a))), TrackFor(b, parse(ParserPath(b)))]
  {
    assert [a, b][1..] == [b];
  }

  lemma ExampleFilter()
    ensures AudioFiles(["song.mp3", "broken.wav", "cover.jpg"]) == ["song.mp3", "broken.wav"]
  {
    assert IsAudioFile("song.mp3") && IsAudioFile("broken.wav");
    assert !IsAudioFile("cover.jpg");
  }

  lemma ExampleParses()
    ensures ExampleParser(ParserPath("song.mp3")) == Success(ExampleSongTags)
    ensures ExampleParser(ParserPath("broken.wav")).Failure?
  {
  }

  /** The record of any file carrying the song's tags. */
  lemma ExampleSongRecord(file: EntryName)
    ensures TrackFor(file, Success(ExampleSongTags))
      == Track(file, "Test", "Band", "Unknown Album", 125, "/music/" + file)
  {
    TaggedRecord(file, ExampleSongTags);
  }

  lemma ExampleSongPath()
    ensures "/music/" + "song.mp3" == "/music/song.mp3"
  {
  }

  /** With a title and an artist but no album tag, the record takes the two
      tags and the album default, whatever the name. */
  lemma TaggedRecord(file: EntryName, m: Meta)
    requires Truthy(m.title) && Truthy(m.artist) && !Truthy(m.album)
    ensures TrackFor(file, Success(m))
      == Track(file, m.title.value, m.artist.value, UnknownAlbum, m.duration.Floor, PublicPrefix + file)
  {
  }

  lemma ExampleBrokenRecord()
    ensures TrackFor("broken.wav", Failure(ParseError("unreadable")))
      == Track("broken.wav", "broken", "Unknown Artist", "Unknown Album", 0, "/music/broken.wav")
  {
    assert "/music/" + "broken.wav" == "/music/broken.wav";
    assert "broken.wav"[..6] == "broken";
    StemOfSuffix("broken.wav", ".wav");
  }
}

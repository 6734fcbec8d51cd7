# spotipi: track catalog and command line, modelled in Dafny

Spotipi is a small music player. The server exposes `GET /api/tracks`. It
lists the `static/music` directory and keeps the files whose names end in
`.mp3`, `.flac`, `.opus` or `.wav`. For each such file it asks a metadata
extractor for tags and builds a track record: id, title, artist, album,
duration and public path. If the extractor fails on a file, that file gets a
fallback record and the rest of the request is unaffected. If the directory
cannot be listed, every failure collapses into one HTTP 500 answer. The
`spotipi` command-line entry point decides from its arguments whether to
start the dev server, and on which port, or to print an error and exit.

The model has five modules:

- `Wrappers`: the `Option` and `Result` types.
- `NodePath`: Node's `path.extname` and `path.basename(name, suffix)` on
  directory-entry names, and the title stem derived from them.
- `Tracks`: the endpoint.
  - The directory listing is an input `Result<seq<EntryName>, DirError>`.
  - The metadata extractor is an input `Parser`, a function from a path to
    `Result<Meta, ParseError>`.
  - `Get` returns the HTTP answer as a `Response` value.
  - `Promise.all` is modelled as filling result slots in an arbitrary
    completion order (`JoinAll`).
- `JsParseInt`: JavaScript's `parseInt(s, 10)`, with `None` for `NaN`, and
  the decimal printing of a non-negative integer.
- `Cli`: `main`'s decision as a pure function `Decide(args)`. It returns
  `Start(port)`, `InvalidPort(message, 1)` or `Usage(message, 1)` instead of
  spawning a process or exiting.

## Model

| member | source | states |
|---|---|---|
| Tracks.AudioFiles | src/routes/api/tracks/+server.js:13-19 | A name is kept exactly when it is listed and ends in one of the four audio extensions, and the result is never longer than the listing |
| Tracks.AudioFilesAppend | src/routes/api/tracks/+server.js:13-19 | Filtering keeps listing order: filtering two concatenated listings is the concatenation of their filtered parts |
| Tracks.AudioFilesCount | src/routes/api/tracks/+server.js:13-19 | An audio name is kept as many times as it is listed, and a non-audio name never |
| Tracks.AudioFilesDistinct | src/routes/api/tracks/+server.js:13-19 | A listing with distinct names filters to distinct names |
| Tracks.AudioFilesSingleton | src/routes/api/tracks/+server.js:13-19 | A one-name listing is kept exactly when the name is an audio file |
| Tracks.TrackFor | src/routes/api/tracks/+server.js:20-50 | Both branches set the id to the file name and the public path to `/music/` plus the name. On failure the record is the stem with Unknown Artist, Unknown Album and duration 0. On success each tag is used when present and non-empty, else the default, and the duration is the floor of the reported seconds |
| Tracks.EmptyTagIsMissing | src/routes/api/tracks/+server.js:30-33 | An empty-string title, artist or album gives the same record as a missing one |
| Tracks.FailureIsEmptyMetadata | src/routes/api/tracks/+server.js:28-49 | The catch-branch record equals the try-branch record for a parse with no tags and a duration under one second |
| Tracks.DurationsAreWholeSeconds | src/routes/api/tracks/+server.js:34 | When every audio file that parses reports a non-negative duration, every track has a non-negative whole number of seconds, at most its file's reported duration |
| Tracks.ParserPath | src/routes/api/tracks/+server.js:25 | The path handed to the parser is `static/music/` followed by the file name, which can be read back from it |
| Tracks.TracksFor | src/routes/api/tracks/+server.js:11-52 | One record per file, in file order. Record i is the record of file i under the parse of `static/music/` plus that file |
| Tracks.Catalog | src/routes/api/tracks/+server.js:11-52 | The array has one track per audio file. Track i has that file's name as its id and `/music/` plus that name as its path, and is the record built from the parse of that file |
| Tracks.Get | src/routes/api/tracks/+server.js:8-61 | The answer is an error object exactly when listing fails. That answer is status 500 with "Failed to read music directory". Otherwise it is status 200, and the track list is exactly the catalog of the listing: one track per audio file, each built from that file's parse |
| Tracks.OnlyAudioFilesAppear | src/routes/api/tracks/+server.js:12-54 | A name appears as a track id exactly when it is listed and is an audio file |
| Tracks.ParseFailureIsIsolated | src/routes/api/tracks/+server.js:37-50 | A parse failure on one file still yields status 200, and that file's track is its fallback record |
| Tracks.IdsIgnoreMetadata | src/routes/api/tracks/+server.js:28-49 | Track ids and public paths do not depend on what the parser returns |
| Tracks.IdsAreDistinct | src/routes/api/tracks/+server.js:12-29 | Distinct directory entries give distinct track ids |
| Tracks.TracksForAppend | src/routes/api/tracks/+server.js:20-51 | Mapping a listing in two parts gives the concatenation of the parts' records |
| Tracks.CatalogAppend | src/routes/api/tracks/+server.js:11-52 | Assembling two concatenated listings gives the concatenation of their catalogs |
| Tracks.JoinAll | src/routes/api/tracks/+server.js:11-52 | In every completion order that settles each index, the joined array is the settled values in index order |
| Tracks.JoinTracks | src/routes/api/tracks/+server.js:11-52 | In every completion order of the per-file extractions, the resolved array is the catalog |
| Tracks.SongAndBrokenExample | src/routes/api/tracks/+server.js:8-54 | Example: a tagged `song.mp3`, an unreadable `broken.wav` and `cover.jpg` give status 200 with two records. The first is titled "Test" by "Band", duration 125 (from 125.7). The second is the `broken` fallback |
| NodePath.Extname | src/routes/api/tracks/+server.js:23 | The extension is empty or a single dot followed by dot-free text. The name ends with it, and it is never the whole name |
| NodePath.Basename | src/routes/api/tracks/+server.js:21-24 | When the name ends with the suffix, the result followed by the suffix is the name. Otherwise the name is unchanged |
| NodePath.Stem | src/routes/api/tracks/+server.js:21-24 | The default title is a prefix of the file name. StemExtnameRoundTrip, StemOfSuffix and LeadingDotOnlyIsNotStripped fix which prefix it is |
| NodePath.StemExtnameRoundTrip | src/routes/api/tracks/+server.js:21-24 | The stem followed by the extension is the name, and a non-empty name has a non-empty stem |
| NodePath.StemOfSuffix | src/routes/api/tracks/+server.js:21-24 | A name ending in a dot plus dot-free text, where that dot is not the first character, has that as its extension. Its stem is everything before it |
| NodePath.LeadingDotOnlyIsNotStripped | src/routes/api/tracks/+server.js:21-24 | A name whose only dot is its first character (such as `.mp3`) has no extension, so its stem is the whole name |
| JsParseInt.ParseInt | cli.js:27 | No contract of its own. ParseIntOfNumeral and its converse ParseIntReadsNumeral characterise it: it succeeds exactly on white space, an optional sign and at least one digit, and yields the signed value of the digit run |
| JsParseInt.ParseIntOfNumeral | cli.js:27 | Leading white space, an optional sign, digits, then text not starting with a digit parse to the signed value of the digits |
| JsParseInt.ParseIntReadsNumeral | cli.js:27 | Conversely, every successful parse splits its input into white space, an optional sign, a digit run and a non-digit remainder, and yields the signed value of that run |
| JsParseInt.ParseIntOfDecimal | cli.js:27 | Parsing the decimal text of a non-negative integer gives the integer back |
| JsParseInt.ParseIntSkipsBlankAndPlus | cli.js:27 | " +8080" parses as 8080 |
| JsParseInt.ParseIntIgnoresTrailingText | cli.js:27 | "3000abc" parses as 3000 |
| JsParseInt.ParseIntIgnoresExponent | cli.js:27 | "8e3" parses as 8 |
| JsParseInt.ParseIntOfNegativeZero | cli.js:27 | "-0" parses as zero |
| JsParseInt.ParseIntWithoutDigits | cli.js:27-30 | "" and "port" parse as NaN |
| Cli.Decide | cli.js:19-43 | Usage (exit 1) exactly when there is no argument or the first is not `start`. Invalid port always carries the fixed message and exit 1. Every start is on a port in 1..65535 |
| Cli.StartWithoutPortUsesDefault | cli.js:25-38 | `start` alone starts on 5173 |
| Cli.StartWithPort | cli.js:26-35 | With a port argument the server starts on p exactly when the argument parses to p in 1..65535. It is an invalid port exactly when the argument parses to NaN or out of range |
| Cli.ExtraArgumentsIgnored | cli.js:20-27 | Arguments after the second never change the decision |
| Cli.PortFlag | cli.js:6-7 | The dev-server flag is `--port=` followed by text that parses back to the port |
| Cli.DevServerCommand | cli.js:7 | The dev server is started as `npm run dev --` followed by the port flag, whose number reads back as the port (by PortFlag's contract) |
| Cli.PortRoundTrip | cli.js:6-38 | Every valid port, typed in decimal, starts the server on that port, and the flag passed on reads back as the same port |
| Cli.NegativeZeroIsInvalidPort | cli.js:27-35 | `start -0` is rejected as an invalid port |
| Cli.PaddedPortStarts | cli.js:27-38 | `start " +8080"` starts on 8080 |

## Left out

- Reading the directory (`fs.readdir`) and extracting metadata (`parseFile`
  from `music-metadata`) are foreign I/O. They are inputs: a listing `Result`
  and a `Parser` function.
- The `console.error` and `console.log` calls are left out. Logging does not
  affect the answer or the decision.
- JSON serialisation by `json(...)` is left out. The answer is a `Response`
  holding the status and the track array or the error object.
- Concurrency of the per-file extractions is reduced to their completion
  order. `Promise.all` rejecting is not modelled, because every per-file
  promise catches its own errors.
- Tracks.JoinAll: requires every index to occur in the completion order,
  and the `Parser` is a total function. Together these assume that every
  extraction settles. The source sets no timeout on a single `parseFile`
  call, so one extraction that never settles leaves `Promise.all`, and with
  it the whole request, pending forever. The model does not describe that
  hang.
- Tracks.TrackFor: the reported duration is always a real number. Node's
  `Math.floor(undefined)` gives `NaN`, which JSON prints as `null`, and that
  case is not modelled. Floating-point rounding of the duration is also not
  modelled.
- NodePath.Extname and NodePath.Basename agree with Node only on names
  without `/`. A directory listing never yields such a separator, so Node's
  separator scanning and trailing-slash handling are left out.
- Tracks.ParserPath writes `path.join(MUSIC_DIR, file)` as plain
  concatenation. Node's normalisation would change the path only for the
  names `.` and `..`, which a listing does not return.
- JsParseInt.ParseIntOfNumeral: `parseInt` returns a double. The model keeps
  the exact integer, so it does not model the precision lost above 2^53 or
  the overflow to `Infinity`. Neither changes the in-range decision.
- Spawning the dev server (`spawn` with `shell: true`), its `error` handler,
  and `process.exit` are process effects. `Decide` returns the outcome and
  `Cli.DevServerCommand` the argument list instead.
- Reading `process.argv` is replaced by the `args` parameter, which stands
  for `process.argv.slice(2)`.

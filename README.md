# Media download façade: request handling and workspace cleanup

The repository is an HTTP server with two handlers. Both hand their work to an
external media extractor (`youtube-dl-exec`):

- `GET /info` validates `url`. It asks the extractor to describe the media and
  answers with a reduced descriptor: `id`, `title`, `thumbnail`, `duration`, and
  the list of formats that have a playable URL, each cut down to twelve
  properties.
- `POST /download` validates `url` and `format_id`. It creates a temporary
  directory, has the extractor write the chosen rendition into it, and sends the
  first file listed there as an attachment. It removes the file and the
  directory afterwards, or removes every file and the directory after a failure.

Both handlers report extractor failures as a 500. A message that mentions
`403`, `login` or `private`, in any case, is replaced by a fixed explanation.

This Dafny project models the decision logic of `app.js`:

- `js.dfy`: the JavaScript values the handlers test (truthiness, `a || b`,
  missing properties as `undefined`), thrown values with `e.message || String(e)`,
  and promise settlement.
- `messages.dfy`: the `/403|login|private/i` test and the replacement texts.
  The recursive scan is proved equal to a case-insensitive occurrence predicate.
- `formats.dfy`: the `filter(f => f.url).map(...)` projection. It is proved to
  keep exactly the playable entries, in their original order.
- `http.dfy`: responses and the record of extractor calls.
- `info.dfy`: the `/info` handler as a function. Its extractor answer is a
  parameter, and the calls it makes are part of its result.
- `workspace.dfy`: the temporary directory as a class `Dir`, with `readdir`,
  `existsSync`, `unlink` and `rmdir`. It also holds the two cleanup procedures:
  the loop in the `catch` block and the transfer callback.
- `download.dfy`: the `/download` handler as a method. An explicit `World`
  value says how `mkdtemp`, the extractor and the transfer behave. The handler
  returns its response, the extractor calls, the directory and the stage where
  it ended.

Three behaviours of the code are modelled as written and stated as proved
properties:

- With more than one file in the directory, the send path picks the first
  listed file. Its `rmdir` then fails on the non-empty directory, and the
  failure is swallowed. `Download.HandleDownload` proves that when no file
  refuses removal, the directory outlives the request exactly when the send
  path ran with more than one file.
- The error-path cleanup stops at the first `unlink` that fails. The directory
  is then left in place, holding the files from that one on.
  `Workspace.RemoveAll` proves this.
- `/info` rejects any falsy `url` (missing, empty, ...), not only a missing one.

## Model

| member | source | states |
|---|---|---|
| `Js.Or` | app.js:77 | The logical-or of two values is one of its operands. It is the first operand when that one is truthy, and it is truthy exactly when either operand is. |
| `Js.Truthy` | app.js:33 | ToBoolean, as `!url`, `!format_id` and the `f => f.url` filter use it: `undefined`, `null`, `false`, `0`, `NaN` and the empty string are falsy, and every other value is truthy. |
| `Js.Stringify` | app.js:66 | `String(e)` for a thrown value. For an `Error` it is empty exactly when name and message are both empty; it starts with the name and ends with the message. For any other value it is that value's text. |
| `Js.RawMessage` | app.js:66 | The reported text is the error's own message when non-empty. An `Error` with an empty message gives its name. A non-`Error` value gives its `String(value)` text. |
| `Messages.LowerStr` | app.js:67 | Case folding keeps the length and folds each character on its own. |
| `Messages.ContainsIff` | app.js:67 | The left-to-right scan finds a word exactly when the word occurs at some position of the text. |
| `Messages.MentionsIff` | app.js:67 | Scanning the folded text finds a lower-case word exactly when the word occurs in the raw text with case ignored. |
| `Messages.Restricted` | app.js:67 | The regular-expression test holds exactly when the message mentions `403`, `login` or `private`, in any case (proved through `MentionsIff`). |
| `Messages.Classify` | app.js:66-70 | The reported message is the fixed explanation exactly when the raw message mentions `403`, `login` or `private` in any case. Otherwise it is the raw message, unchanged. |
| `Messages.ExplanationsMentionLogin` | app.js:68 | Both fixed explanations mention `login`, so each passes the test. |
| `Messages.ClassifyIdempotent` | app.js:130-134 | Classifying a classified message again gives the same text, with either explanation. |
| `Messages.ClassifyPrivateExample` | app.js:67-68 | A message naming a private video is replaced by the explanation. |
| `Messages.ClassifyUnsupportedExample` | app.js:66-70 | "ERROR: Unsupported URL" is passed through unchanged. |
| `Formats.Playable` | app.js:43 | The filter keeps an entry exactly when it has a `url` property and that value is truthy. |
| `Formats.Project` | app.js:43-56 | Under each of the twelve keys, a projected entry reads the raw entry's value (`undefined` when absent). Under every other key, `url` included, it reads `undefined`. |
| `Formats.KeepPlayable` | app.js:43 | The filter returns no more entries than it is given, and every entry it returns has a truthy `url`. |
| `Formats.ProjectAll` | app.js:43-56 | The `.map` keeps the length, and its k-th entry is the projection of the k-th input entry. |
| `Formats.FormatsOf` | app.js:43 | A missing `formats` list reads as the empty list, and a present one is used as it is. |
| `Formats.PlayableIndices` | app.js:43 | The playable positions form an increasing list. It holds every position whose entry has a truthy `url`, and no other position. |
| `Formats.KeepPlayableInOrder` | app.js:43 | The k-th entry kept by the filter is the raw entry at the k-th playable position. |
| `Formats.ProjectFormats` | app.js:43-56 | The response's `formats` has one entry per playable raw entry, in the raw list's order. Each is the projection of that raw entry, and there are never more entries than in the raw list. |
| `Info.HandleInfo` | app.js:31-72 | A falsy `url` gives 400 "No URL provided" and no extractor call. Otherwise the handler makes exactly one describe call with the options of app.js:36-41 (`dumpSingleJson`, `skipDownload`, `quiet` and `noWarnings`, each `true`, held in `Info.DescribeOptions`). On success it answers 200 with `id`, `title`, `thumbnail` and `duration` copied and the projected formats. On failure it answers 500 with the classified message. |
| `Info.InfoScenario` | app.js:43-64 | For a list with one playable entry and one entry whose `url` is null, the response keeps only the first. Its missing properties read as `undefined`. |
| `Workspace.Without` | app.js:125 | Removing a name leaves every other listed name and nothing else, and keeps the names distinct. |
| `Workspace.Join` | app.js:86 | A joined path is the directory, a `/`, then the name, so the output template lies inside the temporary directory. |
| `Workspace.Dir.Create` | app.js:27-29 | A directory made by `mkdtemp` exists and is empty. |
| `Workspace.Dir.Fill` | app.js:102 | After the extractor runs, the directory lists exactly the names it wrote. |
| `Workspace.Dir.ReadDir` | app.js:104 | `readdir` returns the entries in listing order. |
| `Workspace.Dir.Exists` | app.js:113 | `existsSync` holds exactly when the directory exists and lists the name. |
| `Workspace.Dir.Unlink` | app.js:125 | `unlink` succeeds exactly when the name is listed and not refused. It then removes just that name. Otherwise nothing changes. |
| `Workspace.Dir.Rmdir` | app.js:127 | `rmdir` succeeds exactly when the directory exists and is empty. Only then does the directory disappear. |
| `Workspace.FirstPinned` | app.js:123-127 | Gives the position of the first listed name that refuses removal, or the list's length when there is none. Every name before that position can be removed. |
| `Workspace.RemoveAll` | app.js:121-129 | The error-path cleanup unlinks names in listing order up to the first one that refuses removal. The directory is removed exactly when no listed name refuses removal, so it goes only after every file is gone. Failures are swallowed. |
| `Workspace.RemoveSent` | app.js:112-115 | The send-path cleanup removes the sent file if it is there. The directory disappears exactly when that removal did not fail and nothing else remains. |
| `Download.MediaType` | app.js:77 | The media type is always truthy. It is "audio" exactly when the request's `type` is "audio". A falsy `type` gives "video", and any other truthy `type` is kept. |
| `Download.IsDownloadArgs` | app.js:88-100 | The shape of `ytdlArgs`: the keys `f`, `o`, `quiet` and `noPlaylist` always, the four audio keys exactly when the media type is "audio", and no other key, with the values of the source. Its meaning is established by `BuildArgs` and used by `AudioOptionsIffAudioType`. |
| `Download.BuildArgs` | app.js:86-100 | The options always hold `f = format_id`, `o` = the template, `quiet` and `noPlaylist`. They hold `extractAudio`, `audioFormat = mp3`, `audioQuality = 192K` and `preferFfmpeg` exactly when the media type is "audio", and no other key. |
| `Download.AudioOptionsIffAudioType` | app.js:77-100 | The options contain the audio options exactly when the request's `type` is "audio". A missing `type` gives only the four base options. |
| `Download.Delivery` | app.js:111-118 | A delivered transfer is an attachment of the first file under its own name. A failure before the headers were sent gives 500 "Failed to send file". A failure after that gives nothing further. |
| `Download.NoFileNotClassified` | app.js:105-107 | The error thrown for an empty directory is reported as "No file was downloaded", not as the explanation. |
| `Download.Abort` | app.js:120-135 | The `catch` answers 500 with the classified message, whatever the cleanup did. When the directory exists, it is cleaned as `RemoveAll` states. |
| `Download.LocateAndSend` | app.js:104-119 | An empty listing gives 500 "No file was downloaded", and the directory is removed. Otherwise the first listed file is sent under its own name and cleaned up as `RemoveSent` states. |
| `Download.RunInWorkspace` | app.js:86-107 | Once the directory exists, the extractor is called once with the download options. If it fails, the directory is cleaned and a classified 500 is sent. Otherwise the handler goes on to the file. |
| `Download.HandleDownload` | app.js:74-136 | A falsy `url` or `format_id` gives 400 "Missing url or format_id", with no directory and no extractor call. A failed `mkdtemp` gives a classified 500 with no call. Each later exit path is proved: which response is sent, which files remain, and when the directory survives. With no file refusing removal, the directory survives exactly when more than one file was written and the send path ran. |

## Left out

- Express setup, CORS, URL-encoded body parsing and `app.listen` (app.js:10-12, app.js:138-141) are framework plumbing.
- The rate limiter (app.js:17-25) is configuration of a library. Its state is shared across requests and depends on time.
- The extractor itself (app.js:36, app.js:102) is a separate process that uses the network. It becomes an oracle: describe answers `Resolved(info)` or `Rejected(error)`. Materialise writes a list of names and then may reject.
- `mkdtemp` does not choose a name or guarantee uniqueness: the resolved path or the rejection is an input. The temporary root is not modelled.
- `readdir` never rejects in the model, because it only lists the request's own directory while that directory exists.
- Filesystem failures are reduced to two kinds. `unlink` refuses a fixed set of names; `rmdir` refuses a non-empty directory. No other errors (permissions on `rmdir`, races with other processes) are modelled.
- `Workspace.Join` is plain concatenation with `/`. The normalisation done by `path.join` is not modelled.
- Asynchronous scheduling, streaming and the timing of `res.headersSent` are not modelled. The transfer is one step with three outcomes.
- JSON serialisation is not modelled. `res.json` drops `undefined` properties, but the model's response keeps them as `Undefined`.
- `info.formats` is modelled as present-or-absent. A truthy non-array, which would make `.filter` throw, and format entries that are not objects are not modelled.
- Thrown values: a non-`Error` value is reduced to its `String(value)` text. Two cases of `e.message || String(e)` are not modelled. A thrown `null` or `undefined` makes `e.message` itself throw inside the `catch`, so no response is sent; in `/download` the cleanup has already run by then. A non-`Error` object with a truthy `message` property reports that message. A non-string `message` property is not modelled either. The collaborators (`fs.promises`, the extractor wrapper) reject only with `Error` instances, so none of these reach the handlers.
- app.js:88 declares `const ytdlArgs: any = {`, a TypeScript type annotation inside a `.js` module. Read as plain JavaScript the file does not parse, so under `node app.js` neither handler runs. The model reads the line as a TypeScript-aware loader would, with the annotation erased.
- Option objects are maps. Their property order, which only sets the order of command-line flags, is not modelled.
- JavaScript numbers are modelled as reals plus NaN. The regular expression engine is modelled as a substring search over ASCII-lower-cased text, which gives the same answers as the `i` flag without `u` for this pattern.

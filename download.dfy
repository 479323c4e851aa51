/**
 * The `POST /download` handler: validate `url` and `format_id`, acquire a
 * temporary directory, have the extractor write the chosen rendition into it,
 * send the first file listed, and tear the directory down on every path once
 * it exists.
 */
module Download {
  import opened Js
  import opened Messages
  import opened Http
  import opened Workspace

  const MissingParams: string := "Missing url or format_id"
  const NoFile: string := "No file was downloaded"
  const SendFailed: string := "Failed to send file"

  /** The output template's file-name part: the media's title and extension. */
  const NamePattern: string := "%(title)s.%(ext)s"

  /** `req.body.type || 'video'`. */
  function MediaType(typ: JsValue): (m: JsValue)
    ensures Truthy(m)
    ensures m == Str("audio") <==> typ == Str("audio")
    ensures !Truthy(typ) ==> m == Str("video")
    ensures Truthy(typ) ==> m == typ
  {
    Or(typ, Str("video"))
  }

  /** The options the audio mode adds to the extractor call. */
  const AudioOptions: Object :=
    map["extractAudio" := Bool(true), "audioFormat" := Str("mp3"),
        "audioQuality" := Str("192K"), "preferFfmpeg" := Bool(true)]

  const BaseKeys: set<string> := {"f", "o", "quiet", "noPlaylist"}

  /** The extractor options of a download: the rendition, the output template,
      quiet, no playlist expansion; and the audio options exactly when the
      media type is the string "audio". */
  ghost predicate IsDownloadArgs(args: Object, formatId: JsValue, template: string, mediaType: JsValue) {
    && args.Keys == BaseKeys + (if mediaType == Str("audio") then AudioOptions.Keys else {})
    && args["f"] == formatId
    && args["o"] == Str(template)
    && args["quiet"] == Bool(true)
    && args["noPlaylist"] == Bool(true)
    && (mediaType == Str("audio") ==> forall k :: k in AudioOptions ==> args[k] == AudioOptions[k])
  }

  /** Builds `ytdlArgs`, adding the audio options one by one for audio. */
  method BuildArgs(formatId: JsValue, template: string, mediaType: JsValue) returns (args: Object)
    ensures IsDownloadArgs(args, formatId, template, mediaType)
  {
    args := map["f" := formatId, "o" := Str(template), "quiet" := Bool(true), "noPlaylist" := Bool(true)];
    if mediaType == Str("audio") {
      args := args["extractAudio" := Bool(true)];
      args := args["audioFormat" := Str("mp3")];
      args := args["audioQuality" := Str("192K")];
      args := args["preferFfmpeg" := Bool(true)];
    }
  }

  /** The request's `type` decides the audio options: they are present exactly
      when `type` is the string "audio", and a missing or empty `type` gives
      video options. */
  lemma AudioOptionsIffAudioType(args: Object, formatId: JsValue, template: string, typ: JsValue)
    requires IsDownloadArgs(args, formatId, template, MediaType(typ))
    ensures "extractAudio" in args <==> typ == Str("audio")
    ensures typ == Str("audio") ==> args["audioFormat"] == Str("mp3") && args["audioQuality"] == Str("192K")
    ensures !Truthy(typ) ==> args.Keys == BaseKeys
  {
  }

  /** How the transfer started by `res.download` ends. */
  datatype Transfer = Delivered | FailedBeforeHeaders | FailedAfterHeaders

  /** What the world does during one download: how `mkdtemp` settles, the
      entries the system refuses to unlink, the names the extractor writes
      (in listing order, also when it fails part-way), how the extractor's
      promise settles, and how the transfer ends. */
  datatype World = World(
    tempDir: Outcome<string>,
    pinned: set<string>,
    produced: seq<string>,
    extraction: Outcome<()>,
    transfer: Transfer)

  /** Where one request ended. */
  datatype Stage =
    | Refused          // a parameter was missing
    | MkdtempFailed    // the directory could not be created
    | ExtractorFailed  // the extractor rejected
    | NothingWritten   // the extractor resolved but wrote nothing
    | Streamed         // the first entry was handed to the transfer

  /** The response once the transfer of `path` as `name` has ended. */
  function Delivery(path: string, name: string, t: Transfer): (r: Response)
    ensures r.Json? <==> t == FailedBeforeHeaders
    ensures r.Json? ==> r == ServerError(SendFailed)
    ensures !r.Json? ==> r.path == path && r.filename == name
    ensures r.Attachment? <==> t == Delivered
  {
    match t
    case Delivered => Attachment(path, name)
    case FailedBeforeHeaders => ServerError(SendFailed)
    case FailedAfterHeaders => Interrupted(path, name)
  }

  /** The error thrown for zero written files is reported with its own message. */
  lemma NoFileNotClassified()
    ensures Classify(RawMessage(Error("Error", NoFile)), DownloadExplanation) == NoFile
  {
    NotMentioned(NoFile, "403", 0);
    NotMentioned(NoFile, "login", 2);
    NotMentioned(NoFile, "private", 0);
  }

  /** The handler's `catch`: clean the directory up if it exists, swallowing
      cleanup failures, and answer 500 with the classified message. */
  method Abort(ws: Dir?, e: Thrown) returns (resp: Response)
    requires ws != null ==> ws.Valid() && ws.present
    modifies ws
    ensures resp == ServerError(Classify(RawMessage(e), DownloadExplanation))
    ensures ws != null ==>
              && ws.Valid()
              && ws.entries == old(ws.entries)[FirstPinned(old(ws.entries), ws.pinned)..]
              && (!ws.present <==> forall f :: f in old(ws.entries) ==> f !in ws.pinned)
  {
    if ws != null {
      RemoveAll(ws);
    }
    resp := ServerError(Classify(RawMessage(e), DownloadExplanation));
  }

  /** The steps after the extractor resolved: list the directory; with no
      entry, fail with "No file was downloaded"; otherwise `res.download` the
      first entry under its own name and clean up in its completion callback. */
  method LocateAndSend(ws: Dir, t: Transfer) returns (resp: Response, reached: Stage)
    requires ws.Valid() && ws.present
    modifies ws
    ensures ws.Valid()
    ensures var files := old(ws.entries);
            && (reached == NothingWritten <==> files == [])
            && (reached == Streamed <==> files != [])
    ensures reached == NothingWritten ==> resp == ServerError(NoFile) && ws.entries == [] && !ws.present
    ensures reached == Streamed ==>
              var files := old(ws.entries);
              var name := files[0];
              && resp == Delivery(Join(ws.path, name), name, t)
              && ws.entries == (if name in ws.pinned then files else files[1..])
              && (!ws.present <==> |files| == 1 && name !in ws.pinned)
  {
    var files := ws.ReadDir();
    if |files| == 0 {
      var e := Error("Error", NoFile);
      NoFileNotClassified();
      resp := Abort(ws, e);
      reached := NothingWritten;
      return;
    }
    var name := files[0];
    resp := Delivery(Join(ws.path, name), name, t);
    WithoutFirst(files);
    RemoveSent(ws, name);
    reached := Streamed;
  }

  /** The handler's steps once the directory exists: build the options, run
      the extractor, and either clean up after its failure or go on to the
      file. */
  method RunInWorkspace(ws: Dir, url: JsValue, formatId: JsValue, mediaType: JsValue, w: World)
    returns (resp: Response, call: ExtractorCall, reached: Stage)
    requires ws.Valid() && ws.present && ws.entries == [] && ws.pinned == w.pinned
    requires Distinct(w.produced)
    modifies ws
    ensures ws.Valid()
    ensures call.url == url && IsDownloadArgs(call.options, formatId, Join(ws.path, NamePattern), mediaType)
    ensures reached == ExtractorFailed <==> w.extraction.Rejected?
    ensures reached == NothingWritten <==> w.extraction.Resolved? && w.produced == []
    ensures reached == Streamed <==> w.extraction.Resolved? && w.produced != []
    ensures reached == ExtractorFailed ==>
              resp == ServerError(Classify(RawMessage(w.extraction.reason), DownloadExplanation))
    ensures reached == NothingWritten ==> resp == ServerError(NoFile)
    ensures reached != Streamed ==>
              && ws.entries == w.produced[FirstPinned(w.produced, w.pinned)..]
              && (!ws.present <==> forall f :: f in w.produced ==> f !in w.pinned)
    ensures reached == Streamed ==>
              var name := w.produced[0];
              && resp == Delivery(Join(ws.path, name), name, w.transfer)
              && ws.entries == (if name in w.pinned then w.produced else w.produced[1..])
              && (!ws.present <==> |w.produced| == 1 && name !in w.pinned)
  {
    var template := Join(ws.path, NamePattern);
    var args := BuildArgs(formatId, template, mediaType);
    call := ExtractorCall(url, args);
    ws.Fill(w.produced);
    if w.extraction.Rejected? {
      resp := Abort(ws, w.extraction.reason);
      reached := ExtractorFailed;
      return;
    }
    resp, reached := LocateAndSend(ws, w.transfer);
  }

  /** The handler. Returns the response, the extractor calls made, the
      temporary directory (null when none was created) and where it ended. */
  method HandleDownload(url: JsValue, formatId: JsValue, typ: JsValue, w: World)
    returns (resp: Response, calls: seq<ExtractorCall>, ws: Dir?, reached: Stage)
    requires Distinct(w.produced)
    ensures ws != null ==> fresh(ws) && ws.Valid()
    // validation comes before every side effect
    ensures reached == Refused <==> !Truthy(url) || !Truthy(formatId)
    ensures reached == Refused ==> resp == Json(400, ErrorBody(MissingParams)) && calls == [] && ws == null
    // acquisition
    ensures ws != null <==> reached != Refused && w.tempDir.Resolved?
    ensures reached == MkdtempFailed <==> reached != Refused && w.tempDir.Rejected?
    ensures reached == MkdtempFailed ==>
              resp == ServerError(Classify(RawMessage(w.tempDir.reason), DownloadExplanation)) && calls == []
    // exactly one extractor call, with the download options, once the directory exists
    ensures ws != null ==>
              && ws.path == w.tempDir.value && ws.pinned == w.pinned
              && |calls| == 1 && calls[0].url == url
              && IsDownloadArgs(calls[0].options, formatId, Join(ws.path, NamePattern), MediaType(typ))
    // failures after acquisition: a classified 500, each entry unlinked before the directory
    ensures ws != null ==> (reached == ExtractorFailed <==> w.extraction.Rejected?)
    ensures reached == ExtractorFailed ==>
              resp == ServerError(Classify(RawMessage(w.extraction.reason), DownloadExplanation))
    ensures ws != null && w.extraction.Resolved? ==> (reached == NothingWritten <==> w.produced == [])
    ensures reached == NothingWritten ==> resp == ServerError(NoFile) && !ws.present
    ensures reached == ExtractorFailed || reached == NothingWritten ==>
              && ws.entries == w.produced[FirstPinned(w.produced, w.pinned)..]
              && (!ws.present <==> forall f :: f in w.produced ==> f !in w.pinned)
    // the send path: the first listed entry, under its own name
    ensures reached == Streamed ==>
              var name := w.produced[0];
              && resp == Delivery(Join(ws.path, name), name, w.transfer)
              && ws.entries == (if name in w.pinned then w.produced else w.produced[1..])
              && (!ws.present <==> |w.produced| == 1 && name !in w.pinned)
    // with no entry refusing removal, the directory survives exactly when the
    // send path ran with more than one entry written
    ensures ws != null && (forall f :: f in w.produced ==> f !in w.pinned) ==>
              (ws.present <==> reached == Streamed && |w.produced| > 1)
  {
    calls, ws := [], null;
    var mediaType := MediaType(typ);
    if !Truthy(url) || !Truthy(formatId) {
      resp, reached := Json(400, ErrorBody(MissingParams)), Refused;
      return;
    }
    if w.tempDir.Rejected? {
      resp := Abort(null, w.tempDir.reason);
      reached := MkdtempFailed;
      return;
    }
    ws := new Dir.Create(w.tempDir.value, w.pinned);
    var call;
    resp, call, reached := RunInWorkspace(ws, url, formatId, mediaType, w);
    calls := [call];
  }
}

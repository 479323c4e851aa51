/**
 * The `GET /info` handler: validate `url`, ask the extractor to describe the
 * media, and answer with the reduced descriptor or a classified error.
 */
module Info {
  import opened Js
  import opened Formats
  import opened Messages
  import opened Http

  /** What the extractor's describe mode returns: the top-level properties,
      and the `formats` list when it has one. */
  datatype RawInfo = RawInfo(fields: Object, formats: Option<seq<RawFormat>>)

  /** Options of the describe call: one JSON document, no download, quiet,
      no warnings. */
  const DescribeOptions: Object :=
    map["dumpSingleJson" := Bool(true), "skipDownload" := Bool(true),
        "quiet" := Bool(true), "noWarnings" := Bool(true)]

  const NoUrl: string := "No URL provided"

  /** The response and the extractor calls made on the way to it. */
  datatype Exchange = Exchange(response: Response, calls: seq<ExtractorCall>)

  /** The handler, with the extractor's answer `describe` for the call it
      would make; that answer is consulted only when the call is made. */
  function HandleInfo(url: JsValue, describe: Outcome<RawInfo>): (x: Exchange)
    ensures !Truthy(url) <==> x.response == Json(400, ErrorBody(NoUrl))
    ensures !Truthy(url) ==> x.calls == []
    ensures Truthy(url) ==> x.calls == [ExtractorCall(url, DescribeOptions)]
    ensures Truthy(url) && describe.Resolved? ==>
              var info := describe.value;
              x.response == Json(200, InfoBody(Get(info.fields, "id"), Get(info.fields, "title"),
                                               Get(info.fields, "thumbnail"),
                                               Get(info.fields, "duration"),
                                               ProjectFormats(FormatsOf(info.formats))))
    ensures Truthy(url) && describe.Rejected? ==>
              x.response == ServerError(Classify(RawMessage(describe.reason), InfoExplanation))
  {
    if !Truthy(url) then
      Exchange(Json(400, ErrorBody(NoUrl)), [])
    else
      var call := ExtractorCall(url, DescribeOptions);
      match describe
      case Rejected(e) =>
        Exchange(ServerError(Classify(RawMessage(e), InfoExplanation)), [call])
      case Resolved(info) =>
        var formats := ProjectFormats(FormatsOf(info.formats));
        Exchange(Json(200, InfoBody(Get(info.fields, "id"), Get(info.fields, "title"),
                                    Get(info.fields, "thumbnail"), Get(info.fields, "duration"),
                                    formats)), [call])
  }

  /** The worked scenario: one playable entry and one with a null `url`; the
      latter is dropped and absent properties read as `undefined`. */
  lemma InfoScenario()
    ensures var f18: RawFormat := map["format_id" := Str("18"), "url" := Str("x"), "ext" := Str("mp4")];
            var fnone: RawFormat := map["format_id" := Str("none"), "url" := Null];
            var info := RawInfo(map["id" := Str("abc"), "title" := Str("T")], Some([f18, fnone]));
            HandleInfo(Str("https://example.com/v/abc"), Resolved(info)).response
              == Json(200, InfoBody(Str("abc"), Str("T"), Undefined, Undefined,
                                    [Format(Str("18"), Str("mp4"), Undefined, Undefined, Undefined,
                                            Undefined, Undefined, Undefined, Undefined, Undefined,
                                            Undefined, Undefined)]))
  {
    var f18: RawFormat := map["format_id" := Str("18"), "url" := Str("x"), "ext" := Str("mp4")];
    var fnone: RawFormat := map["format_id" := Str("none"), "url" := Null];
    var fs := [f18, fnone];
    assert Playable(f18) && !Playable(fnone);
    assert PlayableIndices(fs, 2) == [];
    assert PlayableIndices(fs, 1) == [];
    assert PlayableIndices(fs, 0) == [0];
    assert ProjectFormats(fs) == [Project(f18)];
    assert Project(f18) == Format(Str("18"), Str("mp4"), Undefined, Undefined, Undefined,
                                  Undefined, Undefined, Undefined, Undefined, Undefined,
                                  Undefined, Undefined);
  }
}

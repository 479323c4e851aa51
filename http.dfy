/**
 * What a handler sends back, and the record of what it asked the extractor.
 */
module Http {
  import opened Js
  import opened Formats

  /** A JSON body: `{ error }`, or the `/info` document. */
  datatype Body =
    | ErrorBody(error: string)
    | InfoBody(id: JsValue, title: JsValue, thumbnail: JsValue, duration: JsValue,
               formats: seq<Format>)

  datatype Response =
    | Json(status: nat, body: Body)
      /** `res.download` delivered the file at `path` as attachment `filename`. */
    | Attachment(path: string, filename: string)
      /** The transfer failed after the headers went out: the client gets a
          truncated attachment and no further response. */
    | Interrupted(path: string, filename: string)

  /** One invocation of the extractor: the URL and the options object. */
  datatype ExtractorCall = ExtractorCall(url: JsValue, options: Object)

  /** `res.status(500).json({ error: message })`. */
  function ServerError(message: string): Response {
    Json(500, ErrorBody(message))
  }
}

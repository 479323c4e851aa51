/**
 * The `/info` handler's projection of the extractor's format list:
 * `(info.formats || []).filter(f => f.url).map(f => ({ ...12 fields }))`.
 */
module Formats {
  import opened Js

  /** One entry of the extractor's `formats` array: a plain object. */
  type RawFormat = Object

  /** One entry of the response's `formats`: the twelve copied properties,
      each `undefined` when the raw entry lacks it. */
  datatype Format = Format(
    format_id: JsValue,
    ext: JsValue,
    format_note: JsValue,
    height: JsValue,
    width: JsValue,
    filesize: JsValue,
    fps: JsValue,
    tbr: JsValue,
    acodec: JsValue,
    vcodec: JsValue,
    asr: JsValue,
    abr: JsValue)

  /** The property names a projected entry carries. */
  const FormatKeys: set<string> :=
    {"format_id", "ext", "format_note", "height", "width", "filesize",
     "fps", "tbr", "acodec", "vcodec", "asr", "abr"}

  /** Reading property `key` of a projected entry, as a client of the JSON does. */
  function Lookup(p: Format, key: string): JsValue {
    match key
    case "format_id" => p.format_id
    case "ext" => p.ext
    case "format_note" => p.format_note
    case "height" => p.height
    case "width" => p.width
    case "filesize" => p.filesize
    case "fps" => p.fps
    case "tbr" => p.tbr
    case "acodec" => p.acodec
    case "vcodec" => p.vcodec
    case "asr" => p.asr
    case "abr" => p.abr
    case _ => Undefined
  }

  /** The filter `f => f.url`: an entry without `url` is dropped. */
  predicate Playable(f: RawFormat)
    ensures Playable(f) <==> "url" in f && Truthy(f["url"])
  {
    Truthy(Get(f, "url"))
  }

  /** The map callback: copies the twelve properties. The projected entry
      reads, under every key, what the raw entry holds under that key if it is
      one of the twelve, and `undefined` otherwise (so `url` and every other raw
      property are dropped). */
  function Project(f: RawFormat): (p: Format)
    ensures forall key :: Lookup(p, key) == if key in FormatKeys then Get(f, key) else Undefined
  {
    Format(Get(f, "format_id"), Get(f, "ext"), Get(f, "format_note"), Get(f, "height"),
           Get(f, "width"), Get(f, "filesize"), Get(f, "fps"), Get(f, "tbr"),
           Get(f, "acodec"), Get(f, "vcodec"), Get(f, "asr"), Get(f, "abr"))
  }

  /** `.filter(f => f.url)`. */
  function KeepPlayable(fs: seq<RawFormat>): (r: seq<RawFormat>)
    ensures |r| <= |fs|
    ensures forall k :: 0 <= k < |r| ==> Playable(r[k])
  {
    if fs == [] then []
    else if Playable(fs[0]) then [fs[0]] + KeepPlayable(fs[1..])
    else KeepPlayable(fs[1..])
  }

  /** `.map(Project)`. */
  function ProjectAll(fs: seq<RawFormat>): (r: seq<Format>)
    ensures |r| == |fs|
    ensures forall k :: 0 <= k < |fs| ==> r[k] == Project(fs[k])
  {
    seq(|fs|, k requires 0 <= k < |fs| => Project(fs[k]))
  }

  /** `info.formats || []`: an absent list reads as the empty one. */
  function FormatsOf(formats: Option<seq<RawFormat>>): (fs: seq<RawFormat>)
    ensures formats.None? ==> fs == []
    ensures formats.Some? ==> fs == formats.value
  {
    if formats.Some? then formats.value else []
  }

  /** The positions, from `from` on, of the playable entries: increasing, and
      holding every playable position and nothing else. */
  function PlayableIndices(fs: seq<RawFormat>, from: nat): (ix: seq<nat>)
    requires from <= |fs|
    ensures forall k :: 0 <= k < |ix| ==> from <= ix[k] < |fs| && Playable(fs[ix[k]])
    ensures forall k, l :: 0 <= k < l < |ix| ==> ix[k] < ix[l]
    ensures forall i {:trigger i in ix} :: from <= i < |fs| && Playable(fs[i]) ==> i in ix
    decreases |fs| - from
  {
    if from == |fs| then []
    else if Playable(fs[from]) then [from] + PlayableIndices(fs, from + 1)
    else PlayableIndices(fs, from + 1)
  }

  /** The filter keeps exactly the playable entries, in their original order:
      its k-th result is the entry at the k-th playable position. */
  lemma {:induction false} KeepPlayableInOrder(fs: seq<RawFormat>, from: nat)
    requires from <= |fs|
    ensures |KeepPlayable(fs[from..])| == |PlayableIndices(fs, from)|
    ensures forall k :: 0 <= k < |PlayableIndices(fs, from)| ==>
              KeepPlayable(fs[from..])[k] == fs[PlayableIndices(fs, from)[k]]
    decreases |fs| - from
  {
    if from < |fs| {
      KeepPlayableInOrder(fs, from + 1);
      assert fs[from..][1..] == fs[from + 1..];
      assert fs[from..][0] == fs[from];
    }
  }

  /** The response's `formats` for a raw list: as many entries as the raw list
      has playable ones, each the projection of the raw entry at the matching
      playable position, so the relative order of the raw list is kept. */
  function ProjectFormats(fs: seq<RawFormat>): (r: seq<Format>)
    ensures var ix := PlayableIndices(fs, 0);
            |r| == |ix| <= |fs| &&
            forall k :: 0 <= k < |ix| ==> r[k] == Project(fs[ix[k]])
  {
    KeepPlayableInOrder(fs, 0);
    assert fs[0..] == fs;
    ProjectAll(KeepPlayable(fs))
  }
}

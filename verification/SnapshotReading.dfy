/**
 What the snapshot of a message says, type by type: which spelling each field is read from, what stands in for a
 missing one, and when a message is refused. Nothing here refers to how the elements are put together.
 */
module SnapshotReading {
  import opened Options
  import opened Json
  import opened ForwardSnapshot
  import opened SnapshotMedia
  import opened SnapshotContent

  // ----- spellings -----

  /** What two spellings of a field say: the first if it is there and not null, else the second. */
  function Said(o: map<string, Json>, key: string, alias: string): Option<Json> {
    if key in o && o[key] != Null then Some(o[key])
    else if alias in o && o[alias] != Null then Some(o[alias])
    else None
  }

  function SaidOr(o: map<string, Json>, key: string, alias: string, default: Json): Json {
    match Said(o, key, alias) case Some(j) => j case None => default
  }

  /** The first of the spellings that holds a non-empty text says it; without one the text is empty. */
  ghost predicate TextSaid(o: map<string, Json>, keys: seq<string>, s: string) {
    || (s == "" && forall k <- keys :: !HasText(o, k))
    || (exists i :: 0 <= i < |keys| && HasText(o, keys[i]) && s == o[keys[i]].s && forall j :: 0 <= j < i ==> !HasText(o, keys[j]))
  }

  predicate Counts(rt: Runtime, o: map<string, Json>, k: string) {
    k in o && rt.number(o[k]).Some? && rt.number(o[k]).value >= 0
  }

  /** The first of the spellings that is a number and not negative counts; without one the count is 0. */
  ghost predicate CountSaid(rt: Runtime, o: map<string, Json>, keys: seq<string>, n: int) {
    || (n == 0 && forall k <- keys :: !Counts(rt, o, k))
    || (exists i :: 0 <= i < |keys| && Counts(rt, o, keys[i]) && n == rt.number(o[keys[i]]).value
                    && forall j :: 0 <= j < i ==> !Counts(rt, o, keys[j]))
  }

  lemma {:induction false} TextIsSaid(o: map<string, Json>, keys: seq<string>)
    ensures TextSaid(o, keys, StringOf(o, keys))
  {
    if keys != [] {
      var rest := keys[1..];
      TextIsSaid(o, rest);
      assert keys == [keys[0]] + rest;
      if HasText(o, keys[0]) {
        assert StringOf(o, keys) == o[keys[0]].s;
      } else if i :| 0 <= i < |rest| && HasText(o, rest[i]) && StringOf(o, rest) == o[rest[i]].s
                     && forall j :: 0 <= j < i ==> !HasText(o, rest[j]) {
        assert HasText(o, keys[i + 1]);
        forall j | 0 <= j < i + 1 ensures !HasText(o, keys[j]) { if j > 0 { assert keys[j] == rest[j - 1]; } }
      }
    }
  }

  lemma {:induction false} CountIsSaid(rt: Runtime, o: map<string, Json>, keys: seq<string>)
    ensures CountSaid(rt, o, keys, NumberOf(rt, o, keys))
  {
    if keys != [] {
      var rest := keys[1..];
      CountIsSaid(rt, o, rest);
      assert keys == [keys[0]] + rest;
      if Counts(rt, o, keys[0]) {
        assert NumberOf(rt, o, keys) == rt.number(o[keys[0]]).value;
      } else if i :| 0 <= i < |rest| && Counts(rt, o, rest[i]) && NumberOf(rt, o, rest) == rt.number(o[rest[i]]).value
                     && forall j :: 0 <= j < i ==> !Counts(rt, o, rest[j]) {
        assert Counts(rt, o, keys[i + 1]);
        forall j | 0 <= j < i + 1 ensures !Counts(rt, o, keys[j]) { if j > 0 { assert keys[j] == rest[j - 1]; } }
      }
    }
  }

  ghost predicate FieldText(o: map<string, Json>, keys: seq<string>, e: map<string, Json>, key: string) {
    key in e && e[key].Str? && TextSaid(o, keys, e[key].s)
  }

  ghost predicate FieldCount(rt: Runtime, o: map<string, Json>, keys: seq<string>, e: map<string, Json>, key: string) {
    key in e && e[key].Num? && CountSaid(rt, o, keys, e[key].n)
  }

  /** A text field with something in place of an empty one, and a count with something in place of 0. */
  ghost predicate FieldTextOr(o: map<string, Json>, keys: seq<string>, e: map<string, Json>, key: string, default: string) {
    key in e && exists s :: TextSaid(o, keys, s) && e[key] == Str(if s == "" then default else s)
  }

  ghost predicate FieldCountOr(rt: Runtime, o: map<string, Json>, keys: seq<string>, e: map<string, Json>, key: string,
                               default: int) {
    key in e && exists n :: CountSaid(rt, o, keys, n) && e[key] == Num(if n == 0 then default else n)
  }

  /** An address: the first http(s) one of the given address and the path, trimmed; else whichever says anything. */
  ghost predicate AddressSaid(rt: Runtime, o: map<string, Json>, keys: seq<string>, paths: seq<string>, address: string) {
    exists a, b :: TextSaid(o, keys, a) && TextSaid(o, paths, b)
                   && address == if rt.isHttp(rt.trim(a)) then rt.trim(a) else if rt.isHttp(rt.trim(b)) then rt.trim(b)
                                 else if rt.trim(a) != "" then rt.trim(a) else rt.trim(b)
  }

  ghost predicate FieldAddress(rt: Runtime, o: map<string, Json>, keys: seq<string>, paths: seq<string>,
                               e: map<string, Json>, key: string) {
    key in e && e[key].Str? && AddressSaid(rt, o, keys, paths, e[key].s)
  }

  lemma AddressIsSaid(rt: Runtime, o: map<string, Json>, keys: seq<string>, paths: seq<string>)
    requires Lawful(rt)
    ensures AddressSaid(rt, o, keys, paths, PreferHttp(rt, StringOf(o, keys), StringOf(o, paths)))
  {
    TextIsSaid(o, keys);
    TextIsSaid(o, paths);
    hide StringOf, TextSaid;
  }

  // ----- elements -----

  ghost predicate VoiceSays(rt: Runtime, o: map<string, Json>, e: map<string, Json>) {
    && e.Keys == {"uuid", "soundPath", "sourceUrl", "dataSize", "duration"} && e["soundPath"] == Str("")
    && FieldText(o, ["uuid", "UUID"], e, "uuid")
    && FieldAddress(rt, o, ["sourceUrl", "SourceUrl", "SourceURL"], ["soundPath", "SoundPath"], e, "sourceUrl")
    && FieldCount(rt, o, ["dataSize", "DataSize"], e, "dataSize")
    && FieldCount(rt, o, ["duration", "Duration"], e, "duration")
  }

  ghost predicate FileSays(rt: Runtime, o: map<string, Json>, e: map<string, Json>) {
    && e.Keys == {"uuid", "filePath", "sourceUrl", "fileName", "fileSize"} && e["filePath"] == Str("")
    && FieldText(o, ["uuid", "UUID"], e, "uuid")
    && FieldAddress(rt, o, ["sourceUrl", "SourceUrl", "SourceURL"], ["filePath", "FilePath"], e, "sourceUrl")
    && FieldText(o, ["fileName", "FileName"], e, "fileName")
    && FieldCount(rt, o, ["fileSize", "FileSize"], e, "fileSize")
  }

  const VIDEO_URLS: seq<string> := ["videoUrl", "VideoUrl", "videoURL", "VideoURL", "url", "URL"]
  const COVER_URLS: seq<string> := ["snapshotUrl", "SnapshotUrl", "snapshotURL", "SnapshotURL"]

  ghost predicate VideoSays(rt: Runtime, o: map<string, Json>, e: map<string, Json>, fallback: string) {
    && "videoPath" in e && e["videoPath"] == Str("")
    && FieldTextOr(o, ["videoUUID", "VideoUUID", "videoUuid"], e, "videoUUID", fallback + "_video")
    && FieldAddress(rt, o, VIDEO_URLS, ["videoPath", "VideoPath"], e, "videoUrl") && rt.isHttp(e["videoUrl"].s)
    && FieldTextOr(o, ["videoType", "VideoType"], e, "videoType", "mp4")
    && FieldCountOr(rt, o, ["videoSize", "VideoSize"], e, "videoSize", 1)
    && FieldCountOr(rt, o, ["duration", "Duration"], e, "duration", 1)
  }

  ghost predicate CoverSays(rt: Runtime, o: map<string, Json>, e: map<string, Json>, fallback: string) {
    && "snapshotPath" in e && e["snapshotPath"] == Str("")
    && FieldTextOr(o, ["snapshotUUID", "SnapshotUUID", "snapshotUuid"], e, "snapshotUUID", fallback + "_cover")
    && "snapshotUrl" in e && (exists u :: AddressSaid(rt, o, COVER_URLS, ["snapshotPath", "SnapshotPath"], u)
                                          && e["snapshotUrl"] == Str(if rt.isHttp(u) then u else ""))
    && FieldCount(rt, o, ["snapshotSize", "SnapshotSize"], e, "snapshotSize")
    && FieldCountOr(rt, o, ["snapshotWidth", "SnapshotWidth"], e, "snapshotWidth", 720)
    && FieldCountOr(rt, o, ["snapshotHeight", "SnapshotHeight"], e, "snapshotHeight", 1280)
  }

  /** One entry of a picture; its type is filled in when it has none. */
  ghost predicate PictureSays(rt: Runtime, p: map<string, Json>, e: map<string, Json>, default: string) {
    && e.Keys == {"uuid", "type", "url", "size", "width", "height"}
    && FieldText(p, ["uuid", "UUID"], e, "uuid") && FieldText(p, ["url", "Url", "URL"], e, "url")
    && (exists s :: TextSaid(p, ["type", "Type"], s) && e["type"] == Str(if rt.trim(s) == "" then default else s))
    && FieldCount(rt, p, ["size", "Size"], e, "size") && FieldCount(rt, p, ["width", "Width"], e, "width")
    && FieldCount(rt, p, ["height", "Height"], e, "height")
  }

  // ----- field by field -----

  lemma TextField(o: map<string, Json>, keys: seq<string>, e: map<string, Json>, key: string)
    requires key in e && e[key] == Str(StringOf(o, keys))
    ensures FieldText(o, keys, e, key)
  {
    TextIsSaid(o, keys);
  }

  lemma TextFieldOr(o: map<string, Json>, keys: seq<string>, e: map<string, Json>, key: string, default: string)
    requires key in e && e[key] == Str(Nonempty(StringOf(o, keys), default))
    ensures FieldTextOr(o, keys, e, key, default)
  {
    TextIsSaid(o, keys);
    hide TextSaid;
  }

  lemma CountField(rt: Runtime, o: map<string, Json>, keys: seq<string>, e: map<string, Json>, key: string)
    requires key in e && e[key] == Num(NumberOf(rt, o, keys))
    ensures FieldCount(rt, o, keys, e, key)
  {
    CountIsSaid(rt, o, keys);
  }

  lemma CountFieldOr(rt: Runtime, o: map<string, Json>, keys: seq<string>, e: map<string, Json>, key: string, default: nat)
    requires key in e && e[key] == Num(Positive(NumberOf(rt, o, keys), default))
    ensures FieldCountOr(rt, o, keys, e, key, default)
  {
    CountIsSaid(rt, o, keys);
    hide CountSaid;
  }

  lemma AddressField(rt: Runtime, o: map<string, Json>, keys: seq<string>, paths: seq<string>, e: map<string, Json>,
                     key: string)
    requires Lawful(rt) && key in e && e[key] == Str(PreferHttp(rt, StringOf(o, keys), StringOf(o, paths)))
    ensures FieldAddress(rt, o, keys, paths, e, key)
  {
    AddressIsSaid(rt, o, keys, paths);
  }

  // ----- the elements say this -----

  lemma VoiceReads(rt: Runtime, o: map<string, Json>)
    requires Lawful(rt)
    ensures VoiceSays(rt, o, VoiceElem(rt, o))
  {
    var e := VoiceElem(rt, o);
    VoiceFields(rt, o);
    assert e.Keys == {"uuid", "soundPath", "sourceUrl", "dataSize", "duration"};
    hide Lawful, VoiceElem, StringOf, NumberOf, PreferHttp, FieldText, FieldCount, FieldAddress;
    TextField(o, ["uuid", "UUID"], e, "uuid");
    AddressField(rt, o, ["sourceUrl", "SourceUrl", "SourceURL"], ["soundPath", "SoundPath"], e, "sourceUrl");
    CountField(rt, o, ["dataSize", "DataSize"], e, "dataSize");
    CountField(rt, o, ["duration", "Duration"], e, "duration");
  }

  lemma FileReads(rt: Runtime, o: map<string, Json>)
    requires Lawful(rt)
    ensures FileSays(rt, o, FileElem(rt, o))
  {
    var e := FileElem(rt, o);
    FileFields(rt, o);
    assert e.Keys == {"uuid", "filePath", "sourceUrl", "fileName", "fileSize"};
    hide Lawful, FileElem, StringOf, NumberOf, PreferHttp, FieldText, FieldCount, FieldAddress;
    TextField(o, ["uuid", "UUID"], e, "uuid");
    AddressField(rt, o, ["sourceUrl", "SourceUrl", "SourceURL"], ["filePath", "FilePath"], e, "sourceUrl");
    TextField(o, ["fileName", "FileName"], e, "fileName");
    CountField(rt, o, ["fileSize", "FileSize"], e, "fileSize");
  }

  lemma VideoReads(rt: Runtime, o: map<string, Json>, fallback: string)
    requires Lawful(rt) && rt.isHttp(VideoUrl(rt, o))
    ensures VideoSays(rt, o, VideoElem(rt, o, fallback), fallback)
  {
    var e := VideoElem(rt, o, fallback);
    VideoPartFields(rt, o, fallback);
    VideoFields(rt, o, fallback);
    assert VideoUrl(rt, o) == PreferHttp(rt, StringOf(o, VIDEO_URLS), StringOf(o, ["videoPath", "VideoPath"]));
    hide Lawful, VideoElem, VideoPart, CoverPart, StringOf, NumberOf, PreferHttp, Nonempty, Positive, FieldTextOr,
         FieldCountOr, FieldAddress, VideoUrl;
    TextFieldOr(o, ["videoUUID", "VideoUUID", "videoUuid"], e, "videoUUID", fallback + "_video");
    AddressField(rt, o, VIDEO_URLS, ["videoPath", "VideoPath"], e, "videoUrl");
    TextFieldOr(o, ["videoType", "VideoType"], e, "videoType", "mp4");
    CountFieldOr(rt, o, ["videoSize", "VideoSize"], e, "videoSize", 1);
    CountFieldOr(rt, o, ["duration", "Duration"], e, "duration", 1);
  }

  lemma CoverAddress(rt: Runtime, o: map<string, Json>)
    requires Lawful(rt)
    ensures exists u :: AddressSaid(rt, o, COVER_URLS, ["snapshotPath", "SnapshotPath"], u)
                        && CoverUrl(rt, o) == if rt.isHttp(u) then u else ""
  {
    AddressIsSaid(rt, o, COVER_URLS, ["snapshotPath", "SnapshotPath"]);
    var u := PreferHttp(rt, StringOf(o, COVER_URLS), StringOf(o, ["snapshotPath", "SnapshotPath"]));
    assert CoverUrl(rt, o) == if rt.isHttp(u) then u else "";
    hide AddressSaid, PreferHttp, StringOf;
  }

  lemma CoverReads(rt: Runtime, o: map<string, Json>, fallback: string)
    requires Lawful(rt)
    ensures CoverSays(rt, o, VideoElem(rt, o, fallback), fallback)
  {
    var e := VideoElem(rt, o, fallback);
    CoverPartFields(rt, o, fallback);
    VideoFields(rt, o, fallback);
    CoverAddress(rt, o);
    hide Lawful, VideoElem, VideoPart, CoverPart, StringOf, NumberOf, PreferHttp, Nonempty, Positive, FieldTextOr,
         FieldCountOr, FieldCount, AddressSaid, CoverUrl;
    TextFieldOr(o, ["snapshotUUID", "SnapshotUUID", "snapshotUuid"], e, "snapshotUUID", fallback + "_cover");
    CountField(rt, o, ["snapshotSize", "SnapshotSize"], e, "snapshotSize");
    CountFieldOr(rt, o, ["snapshotWidth", "SnapshotWidth"], e, "snapshotWidth", 720);
    CountFieldOr(rt, o, ["snapshotHeight", "SnapshotHeight"], e, "snapshotHeight", 1280);
  }

  /** Filling in the type changes the type alone. */
  lemma TypedFields(rt: Runtime, p: map<string, Json>, default: string)
    ensures var e, type0 := Typed(rt, Some(PictureInfo(rt, p)), default).value, StringOf(p, ["type", "Type"]);
            && e.Keys == {"uuid", "type", "url", "size", "width", "height"}
            && e["uuid"] == Str(StringOf(p, ["uuid", "UUID"])) && e["url"] == Str(StringOf(p, ["url", "Url", "URL"]))
            && e["type"] == Str(if rt.trim(type0) == "" then default else type0)
            && e["size"] == Num(NumberOf(rt, p, ["size", "Size"])) && e["width"] == Num(NumberOf(rt, p, ["width", "Width"]))
            && e["height"] == Num(NumberOf(rt, p, ["height", "Height"]))
  {
    InfoFields(rt, p);
    assert PictureInfo(rt, p).Keys == {"uuid", "type", "url", "size", "width", "height"};
    assert "uuid"[0] == 'u' && "type"[0] == 't' && "size"[0] == 's' && |"url"| == 3 && |"type"| == 4;
    assert "width"[0] == 'w' && "height"[0] == 'h';
    hide PictureInfo, StringOf, NumberOf;
  }

  lemma PictureInfoReads(rt: Runtime, p: map<string, Json>, default: string)
    ensures PictureSays(rt, p, Typed(rt, Some(PictureInfo(rt, p)), default).value, default)
  {
    var e := Typed(rt, Some(PictureInfo(rt, p)), default).value;
    TypedFields(rt, p, default);
    TextIsSaid(p, ["type", "Type"]);
    hide PictureInfo, StringOf, NumberOf, TextSaid, FieldText, FieldCount, Typed, TypeOf;
    TextField(p, ["uuid", "UUID"], e, "uuid");
    TextField(p, ["url", "Url", "URL"], e, "url");
    CountField(rt, p, ["size", "Size"], e, "size");
    CountField(rt, p, ["width", "Width"], e, "width");
    CountField(rt, p, ["height", "Height"], e, "height");
  }
}

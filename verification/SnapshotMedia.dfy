/**
 Media elements are fixed points of their own normalisers: reading a normalised element again, under any
 later clock, gives the same element.
 */
module SnapshotMedia {
  import opened Options
  import opened Json
  import opened ForwardSnapshot
  import opened SnapshotWriting

  ghost predicate LowerKeys(o: map<string, Json>) {
    forall k <- o :: LowerFirst(k)
  }

  /** The first spelling decides, since a normalised element has no capitalised ones. */
  lemma FirstSpelling(o: map<string, Json>, keys: seq<string>)
    requires LowerKeys(o)
    requires keys != [] && keys[0] in o && o[keys[0]].Str?
    requires forall k :: 1 <= k < |keys| ==> !LowerFirst(keys[k])
    ensures StringOf(o, keys) == o[keys[0]].s
  {
    StringOfFirst(o, keys);
  }

  lemma EitherLower(o: map<string, Json>, key: string, alias: string)
    requires LowerKeys(o) && !LowerFirst(alias)
    ensures Either(o, key, alias) == if key in o && o[key] != Null then Some(o[key]) else None
  {
  }

  /** An address that was preferred once is preferred again over nothing. */
  lemma PreferAgain(rt: Runtime, a: string, b: string)
    requires Lawful(rt)
    ensures PreferHttp(rt, PreferHttp(rt, a, b), "") == PreferHttp(rt, a, b)
  {
  }

  lemma VoiceFields(rt: Runtime, o: map<string, Json>)
    ensures var e := VoiceElem(rt, o);
            && LowerKeys(e)
            && e["uuid"] == Str(StringOf(o, ["uuid", "UUID"]))
            && e["soundPath"] == Str("")
            && e["sourceUrl"] == Str(PreferHttp(rt, StringOf(o, ["sourceUrl", "SourceUrl", "SourceURL"]),
                                                StringOf(o, ["soundPath", "SoundPath"])))
            && e["dataSize"] == Num(NumberOf(rt, o, ["dataSize", "DataSize"]))
            && e["duration"] == Num(NumberOf(rt, o, ["duration", "Duration"]))
  {
    assert "soundPath"[3] == 'n' && "sourceUrl"[3] == 'r' && "dataSize"[1] == 'a' && "duration"[1] == 'u';
  }

  lemma VoiceAgain(rt: Runtime, o: map<string, Json>)
    requires Lawful(rt)
    ensures VoiceElem(rt, VoiceElem(rt, o)) == VoiceElem(rt, o)
  {
    var e := VoiceElem(rt, o);
    VoiceFields(rt, o);
    FirstSpelling(e, ["uuid", "UUID"]);
    FirstSpelling(e, ["soundPath", "SoundPath"]);
    FirstSpelling(e, ["sourceUrl", "SourceUrl", "SourceURL"]);
    NumberOfFirst(rt, e, ["dataSize", "DataSize"]);
    NumberOfFirst(rt, e, ["duration", "Duration"]);
    PreferAgain(rt, StringOf(o, ["sourceUrl", "SourceUrl", "SourceURL"]), StringOf(o, ["soundPath", "SoundPath"]));
  }

  lemma FileFields(rt: Runtime, o: map<string, Json>)
    ensures var e := FileElem(rt, o);
            && LowerKeys(e)
            && e["uuid"] == Str(StringOf(o, ["uuid", "UUID"]))
            && e["filePath"] == Str("")
            && e["sourceUrl"] == Str(PreferHttp(rt, StringOf(o, ["sourceUrl", "SourceUrl", "SourceURL"]),
                                                StringOf(o, ["filePath", "FilePath"])))
            && e["fileName"] == Str(StringOf(o, ["fileName", "FileName"]))
            && e["fileSize"] == Num(NumberOf(rt, o, ["fileSize", "FileSize"]))
  {
    assert "filePath"[4] == 'P' && "fileName"[4] == 'N' && "fileSize"[4] == 'S';
  }

  lemma FileAgain(rt: Runtime, o: map<string, Json>)
    requires Lawful(rt)
    ensures FileElem(rt, FileElem(rt, o)) == FileElem(rt, o)
  {
    var e := FileElem(rt, o);
    FileFields(rt, o);
    FirstSpelling(e, ["uuid", "UUID"]);
    FirstSpelling(e, ["filePath", "FilePath"]);
    FirstSpelling(e, ["sourceUrl", "SourceUrl", "SourceURL"]);
    FirstSpelling(e, ["fileName", "FileName"]);
    NumberOfFirst(rt, e, ["fileSize", "FileSize"]);
    PreferAgain(rt, StringOf(o, ["sourceUrl", "SourceUrl", "SourceURL"]), StringOf(o, ["filePath", "FilePath"]));
  }

  /** Six different keys hold six values. */
  lemma SixFields(a: string, va: Json, b: string, vb: Json, c: string, vc: Json,
                  d: string, vd: Json, e: string, ve: Json, f: string, vf: Json)
    requires a != b && a != c && a != d && a != e && a != f
    requires b != c && b != d && b != e && b != f
    requires c != d && c != e && c != f && d != e && d != f && e != f
    ensures var m := map[a := va, b := vb, c := vc, d := vd, e := ve, f := vf];
            && m.Keys == {a, b, c, d, e, f}
            && m[a] == va && m[b] == vb && m[c] == vc && m[d] == vd && m[e] == ve && m[f] == vf
  {
  }

  lemma VideoKeys()
    ensures var (a, b, c) := ("videoPath", "videoUUID", "videoUrl");
            var (d, e, f) := ("videoType", "videoSize", "duration");
            && a != b && a != c && a != d && a != e && a != f
            && b != c && b != d && b != e && b != f
            && c != d && c != e && c != f && d != e && d != f && e != f
            && (forall k <- {a, b, c, d, e, f} :: LowerFirst(k) && k[0] != 's')
  {
    assert "videoPath"[5] == 'P' && "videoUUID"[5] == 'U' && "videoType"[5] == 'T' && "videoSize"[5] == 'S';
    assert "videoUrl"[0] == 'v' && "duration"[0] == 'd';
  }

  lemma CoverKeys()
    ensures var (a, b, c) := ("snapshotPath", "snapshotUUID", "snapshotSize");
            var (d, e, f) := ("snapshotUrl", "snapshotWidth", "snapshotHeight");
            && a != b && a != c && a != d && a != e && a != f
            && b != c && b != d && b != e && b != f
            && c != d && c != e && c != f && d != e && d != f && e != f
            && (forall k <- {a, b, c, d, e, f} :: LowerFirst(k) && k[0] == 's' && k != "snapshotURL")
  {
    assert "snapshotPath"[8] == 'P' && "snapshotUUID"[8] == 'U' && "snapshotSize"[8] == 'S';
    assert "snapshotUrl"[9] == 'r' && "snapshotURL"[9] == 'R';
  }

  lemma VideoPartFields(rt: Runtime, o: map<string, Json>, fallback: string)
    ensures var e := VideoPart(rt, o, fallback);
            && e.Keys == {"videoPath", "videoUUID", "videoUrl", "videoType", "videoSize", "duration"}
            && e["videoPath"] == Str("")
            && e["videoUUID"] == Str(Nonempty(StringOf(o, ["videoUUID", "VideoUUID", "videoUuid"]), fallback + "_video"))
            && e["videoUrl"] == Str(VideoUrl(rt, o))
            && e["videoType"] == Str(Nonempty(StringOf(o, ["videoType", "VideoType"]), "mp4"))
            && e["videoSize"] == Num(Positive(NumberOf(rt, o, ["videoSize", "VideoSize"]), 1))
            && e["duration"] == Num(Positive(NumberOf(rt, o, ["duration", "Duration"]), 1))
  {
    VideoKeys();
    SixFields("videoPath", Str(""),
              "videoUUID", Str(Nonempty(StringOf(o, ["videoUUID", "VideoUUID", "videoUuid"]), fallback + "_video")),
              "videoUrl", Str(VideoUrl(rt, o)),
              "videoType", Str(Nonempty(StringOf(o, ["videoType", "VideoType"]), "mp4")),
              "videoSize", Num(Positive(NumberOf(rt, o, ["videoSize", "VideoSize"]), 1)),
              "duration", Num(Positive(NumberOf(rt, o, ["duration", "Duration"]), 1)));
  }

  lemma CoverPartFields(rt: Runtime, o: map<string, Json>, fallback: string)
    ensures var e := CoverPart(rt, o, fallback);
            && e.Keys == {"snapshotPath", "snapshotUUID", "snapshotSize", "snapshotUrl", "snapshotWidth", "snapshotHeight"}
            && e["snapshotPath"] == Str("")
            && e["snapshotUUID"] == Str(Nonempty(StringOf(o, ["snapshotUUID", "SnapshotUUID", "snapshotUuid"]), fallback + "_cover"))
            && e["snapshotSize"] == Num(NumberOf(rt, o, ["snapshotSize", "SnapshotSize"]))
            && e["snapshotUrl"] == Str(CoverUrl(rt, o))
            && e["snapshotWidth"] == Num(Positive(NumberOf(rt, o, ["snapshotWidth", "SnapshotWidth"]), 720))
            && e["snapshotHeight"] == Num(Positive(NumberOf(rt, o, ["snapshotHeight", "SnapshotHeight"]), 1280))
  {
    CoverKeys();
    SixFields("snapshotPath", Str(""),
              "snapshotUUID", Str(Nonempty(StringOf(o, ["snapshotUUID", "SnapshotUUID", "snapshotUuid"]), fallback + "_cover")),
              "snapshotSize", Num(NumberOf(rt, o, ["snapshotSize", "SnapshotSize"])),
              "snapshotUrl", Str(CoverUrl(rt, o)),
              "snapshotWidth", Num(Positive(NumberOf(rt, o, ["snapshotWidth", "SnapshotWidth"]), 720)),
              "snapshotHeight", Num(Positive(NumberOf(rt, o, ["snapshotHeight", "SnapshotHeight"]), 1280)));
  }

  ghost predicate HasText(o: map<string, Json>, key: string) { key in o && o[key].Str? && o[key].s != "" }

  ghost predicate HasCount(o: map<string, Json>, key: string) { key in o && o[key].Num? && o[key].n > 0 }

  /** What the first half of a normalised video element looks like, */
  ghost predicate NormalVideo(rt: Runtime, e: map<string, Json>) {
    && LowerKeys(e)
    && "videoPath" in e && e["videoPath"] == Str("")
    && HasText(e, "videoUUID") && HasText(e, "videoUrl") && HasText(e, "videoType")
    && rt.trim(e["videoUrl"].s) == e["videoUrl"].s && rt.isHttp(e["videoUrl"].s)
    && HasCount(e, "videoSize") && HasCount(e, "duration")
  }

  /** and the second. */
  ghost predicate NormalCover(rt: Runtime, e: map<string, Json>) {
    && LowerKeys(e) && "snapshotURL" !in e
    && "snapshotPath" in e && e["snapshotPath"] == Str("")
    && HasText(e, "snapshotUUID")
    && "snapshotUrl" in e && e["snapshotUrl"].Str? && rt.trim(e["snapshotUrl"].s) == e["snapshotUrl"].s
    && (e["snapshotUrl"].s == "" || rt.isHttp(e["snapshotUrl"].s))
    && "snapshotSize" in e && e["snapshotSize"].Num? && e["snapshotSize"].n >= 0
    && HasCount(e, "snapshotWidth") && HasCount(e, "snapshotHeight")
  }

  lemma NormalVideoUrl(rt: Runtime, e: map<string, Json>)
    requires Lawful(rt) && NormalVideo(rt, e)
    ensures VideoUrl(rt, e) == e["videoUrl"].s
  {
    FirstSpelling(e, ["videoPath", "VideoPath"]);
  }

  lemma NormalCoverUrl(rt: Runtime, e: map<string, Json>)
    requires Lawful(rt) && NormalCover(rt, e)
    ensures CoverUrl(rt, e) == e["snapshotUrl"].s
  {
    StringOfFirst(e, ["snapshotUrl", "SnapshotUrl", "snapshotURL", "SnapshotURL"]);
    FirstSpelling(e, ["snapshotPath", "SnapshotPath"]);
  }

  /** Such a half is read back as it stands, whatever identifier is offered. */
  lemma NormalVideoPart(rt: Runtime, e: map<string, Json>, later: string)
    requires Lawful(rt) && NormalVideo(rt, e)
    ensures VideoPart(rt, e, later) ==
            map["videoPath" := Str(""), "videoUUID" := e["videoUUID"], "videoUrl" := e["videoUrl"],
                "videoType" := e["videoType"], "videoSize" := e["videoSize"], "duration" := e["duration"]]
  {
    NormalVideoUrl(rt, e);
    NumberOfFirst(rt, e, ["videoSize", "VideoSize"]);
    NumberOfFirst(rt, e, ["duration", "Duration"]);
  }

  lemma NormalCoverPart(rt: Runtime, e: map<string, Json>, later: string)
    requires Lawful(rt) && NormalCover(rt, e)
    ensures CoverPart(rt, e, later) ==
            map["snapshotPath" := Str(""), "snapshotUUID" := e["snapshotUUID"], "snapshotSize" := e["snapshotSize"],
                "snapshotUrl" := e["snapshotUrl"], "snapshotWidth" := e["snapshotWidth"],
                "snapshotHeight" := e["snapshotHeight"]]
  {
    NormalCoverUrl(rt, e);
    NumberOfFirst(rt, e, ["snapshotSize", "SnapshotSize"]);
    NumberOfFirst(rt, e, ["snapshotWidth", "SnapshotWidth"]);
    NumberOfFirst(rt, e, ["snapshotHeight", "SnapshotHeight"]);
  }

  /** The halves share no key. */
  lemma Halves(a: map<string, Json>, b: map<string, Json>, missing: string)
    requires forall k <- a :: LowerFirst(k) && k[0] != 's'
    requires forall k <- b :: LowerFirst(k) && k[0] == 's' && k != missing
    requires LowerFirst(missing) && missing[0] == 's'
    ensures LowerKeys(a + b) && missing !in a + b
    ensures forall k <- a :: (a + b)[k] == a[k]
    ensures forall k <- b :: (a + b)[k] == b[k]
  {
  }

  lemma VideoPartKeys(rt: Runtime, o: map<string, Json>, fallback: string)
    ensures forall k <- VideoPart(rt, o, fallback) :: LowerFirst(k) && k[0] != 's'
  {
    hide StringOf, NumberOf, PreferHttp;
    VideoKeys();
    VideoPartFields(rt, o, fallback);
  }

  lemma CoverPartKeys(rt: Runtime, o: map<string, Json>, fallback: string)
    ensures forall k <- CoverPart(rt, o, fallback) :: LowerFirst(k) && k[0] == 's' && k != "snapshotURL"
  {
    CoverKeys();
    CoverPartFields(rt, o, fallback);
  }

  lemma VideoFields(rt: Runtime, o: map<string, Json>, fallback: string)
    ensures var e := VideoElem(rt, o, fallback);
            && LowerKeys(e) && "snapshotURL" !in e
            && (forall k <- VideoPart(rt, o, fallback) :: k in e && e[k] == VideoPart(rt, o, fallback)[k])
            && (forall k <- CoverPart(rt, o, fallback) :: k in e && e[k] == CoverPart(rt, o, fallback)[k])
  {
    VideoPartKeys(rt, o, fallback);
    CoverPartKeys(rt, o, fallback);
    assert "snapshotURL"[0] == 's';
    Halves(VideoPart(rt, o, fallback), CoverPart(rt, o, fallback), "snapshotURL");
  }

  lemma VideoIsNormal(rt: Runtime, o: map<string, Json>, fallback: string)
    requires Lawful(rt) && rt.isHttp(VideoUrl(rt, o))
    ensures NormalVideo(rt, VideoElem(rt, o, fallback))
  {
    VideoPartFields(rt, o, fallback);
    VideoFields(rt, o, fallback);
  }

  lemma CoverIsNormal(rt: Runtime, o: map<string, Json>, fallback: string)
    requires Lawful(rt)
    ensures NormalCover(rt, VideoElem(rt, o, fallback))
  {
    CoverPartFields(rt, o, fallback);
    VideoFields(rt, o, fallback);
  }

  lemma VideoPartAgain(rt: Runtime, o: map<string, Json>, fallback: string, later: string)
    requires Lawful(rt) && rt.isHttp(VideoUrl(rt, o))
    ensures var e := VideoElem(rt, o, fallback);
            VideoPart(rt, e, later) == VideoPart(rt, o, fallback) && VideoUrl(rt, e) == VideoUrl(rt, o)
  {
    var e := VideoElem(rt, o, fallback);
    VideoIsNormal(rt, o, fallback);
    VideoFields(rt, o, fallback);
    VideoPartFields(rt, o, fallback);
    NormalVideoUrl(rt, e);
    NormalVideoPart(rt, e, later);
    hide Lawful, NormalVideo, VideoElem, VideoUrl;
  }

  lemma CoverPartAgain(rt: Runtime, o: map<string, Json>, fallback: string, later: string)
    requires Lawful(rt)
    ensures CoverPart(rt, VideoElem(rt, o, fallback), later) == CoverPart(rt, o, fallback)
  {
    var e := VideoElem(rt, o, fallback);
    CoverIsNormal(rt, o, fallback);
    VideoFields(rt, o, fallback);
    CoverPartFields(rt, o, fallback);
    NormalCoverPart(rt, e, later);
    hide Lawful, NormalCover, VideoElem, CoverUrl;
  }

  /** The identifiers made up from the clock are made up once. */
  lemma VideoAgain(rt: Runtime, o: map<string, Json>, fallback: string, later: string)
    requires Lawful(rt) && rt.isHttp(VideoUrl(rt, o))
    ensures VideoElem(rt, VideoElem(rt, o, fallback), later) == VideoElem(rt, o, fallback)
    ensures VideoUrl(rt, VideoElem(rt, o, fallback)) == VideoUrl(rt, o)
  {
    hide VideoPart, CoverPart, VideoUrl;
    VideoPartAgain(rt, o, fallback, later);
    CoverPartAgain(rt, o, fallback, later);
  }

  // ----- pictures -----

  lemma InfoFields(rt: Runtime, p: map<string, Json>)
    ensures var e := PictureInfo(rt, p);
            && LowerKeys(e)
            && e["uuid"] == Str(StringOf(p, ["uuid", "UUID"]))
            && e["type"] == Str(StringOf(p, ["type", "Type"]))
            && e["url"] == Str(StringOf(p, ["url", "Url", "URL"]))
            && e["size"] == Num(NumberOf(rt, p, ["size", "Size"]))
            && e["width"] == Num(NumberOf(rt, p, ["width", "Width"]))
            && e["height"] == Num(NumberOf(rt, p, ["height", "Height"]))
  {
    assert "uuid"[0] == 'u' && "type"[0] == 't' && "size"[0] == 's';
  }

  /** An entry of a normalised element: all six fields, with a type. */
  ghost predicate Complete(rt: Runtime, info: map<string, Json>) {
    && PictureInfo(rt, info) == info
    && rt.trim(TypeOf(info)) != ""
  }

  lemma InfoAgain(rt: Runtime, p: map<string, Json>, mime: string)
    requires Lawful(rt) && rt.trim(mime) != ""
    requires mime == StringOf(p, ["type", "Type"]) || rt.trim(StringOf(p, ["type", "Type"])) == ""
    ensures Complete(rt, PictureInfo(rt, p)["type" := Str(mime)])
  {
    var e := PictureInfo(rt, p)["type" := Str(mime)];
    InfoFields(rt, p);
    assert "uuid"[0] == 'u' && "type"[0] == 't' && "size"[0] == 's';
    FirstSpelling(e, ["uuid", "UUID"]);
    FirstSpelling(e, ["type", "Type"]);
    FirstSpelling(e, ["url", "Url", "URL"]);
    NumberOfFirst(rt, e, ["size", "Size"]);
    NumberOfFirst(rt, e, ["width", "Width"]);
    NumberOfFirst(rt, e, ["height", "Height"]);
  }

  lemma TypedIsComplete(rt: Runtime, p: map<string, Json>, fallback: string)
    requires Lawful(rt) && rt.trim(fallback) != ""
    ensures Complete(rt, Typed(rt, Some(PictureInfo(rt, p)), fallback).value)
  {
    InfoFields(rt, p);
    var e := PictureInfo(rt, p);
    if rt.trim(TypeOf(e)) != "" {
      assert e == e["type" := Str(TypeOf(e))];
      InfoAgain(rt, p, TypeOf(e));
    } else {
      InfoAgain(rt, p, fallback);
    }
  }

  lemma {:induction false} FirstTypeNonempty(rt: Runtime, pics: seq<Option<map<string, Json>>>)
    requires Lawful(rt)
    ensures rt.trim(FirstType(rt, pics)) != ""
  {
    if pics != [] { FirstTypeNonempty(rt, pics[1..]); }
  }

  /** What is left of an element once its three entries are known. */
  function Pictures(source: Option<map<string, Json>>, big: Option<map<string, Json>>,
                    small: Option<map<string, Json>>): map<string, Json>
  {
    WithPicture(WithPicture(WithPicture(map["sourcePath" := Str("")], "sourcePicture", source), "bigPicture", big),
                "snapshotPicture", small)
  }

  ghost predicate Usable(rt: Runtime, pic: Option<map<string, Json>>) {
    pic.Some? ==> Complete(rt, pic.value)
  }

  lemma PictureKeys()
    ensures LowerFirst("sourcePath") && LowerFirst("sourcePicture") && LowerFirst("bigPicture") && LowerFirst("snapshotPicture")
    ensures !LowerFirst("SourcePicture") && !LowerFirst("BigPicture") && !LowerFirst("SnapshotPicture")
    ensures "sourcePath" != "sourcePicture" && "sourcePath" != "bigPicture" && "sourcePath" != "snapshotPicture"
    ensures "sourcePicture" != "bigPicture" && "sourcePicture" != "snapshotPicture" && "bigPicture" != "snapshotPicture"
  {
    assert "sourcePath"[0] == 's' && "bigPicture"[0] == 'b';
  }

  /** The fields of such an element, for any four different keys. */
  lemma PicturesAt(path: string, a: string, b: string, c: string, source: Option<map<string, Json>>,
                   big: Option<map<string, Json>>, small: Option<map<string, Json>>)
    requires LowerFirst(path) && LowerFirst(a) && LowerFirst(b) && LowerFirst(c)
    requires path != a && path != b && path != c && a != b && a != c && b != c
    ensures var e := WithPicture(WithPicture(WithPicture(map[path := Str("")], a, source), b, big), c, small);
            && LowerKeys(e) && path in e && e[path] == Str("")
            && (a in e <==> source.Some?) && (a in e ==> e[a] == Obj(source.value))
            && (b in e <==> big.Some?) && (b in e ==> e[b] == Obj(big.value))
            && (c in e <==> small.Some?) && (c in e ==> e[c] == Obj(small.value))
  {
  }

  lemma PictureReads(rt: Runtime, e: map<string, Json>, key: string, alias: string, pic: Option<map<string, Json>>)
    requires LowerKeys(e) && !LowerFirst(alias) && Usable(rt, pic)
    requires key in e <==> pic.Some?
    requires key in e ==> e[key] == Obj(pic.value)
    ensures PictureAt(rt, e, key, alias) == pic
  {
    EitherLower(e, key, alias);
  }

  lemma PicturesRead(rt: Runtime, source: Option<map<string, Json>>, big: Option<map<string, Json>>,
                     small: Option<map<string, Json>>)
    requires Usable(rt, source) && Usable(rt, big) && Usable(rt, small)
    ensures PictureAt(rt, Pictures(source, big, small), "sourcePicture", "SourcePicture") == source
    ensures PictureAt(rt, Pictures(source, big, small), "bigPicture", "BigPicture") == big
    ensures PictureAt(rt, Pictures(source, big, small), "snapshotPicture", "SnapshotPicture") == small
  {
    var e := Pictures(source, big, small);
    PictureKeys();
    PicturesAt("sourcePath", "sourcePicture", "bigPicture", "snapshotPicture", source, big, small);
    PictureReads(rt, e, "sourcePicture", "SourcePicture", source);
    PictureReads(rt, e, "bigPicture", "BigPicture", big);
    PictureReads(rt, e, "snapshotPicture", "SnapshotPicture", small);
  }

  /** With types present, and nothing missing next to a source picture, there is nothing left to fill in. */
  lemma PicturesFixed(rt: Runtime, source: Option<map<string, Json>>, big: Option<map<string, Json>>,
                      small: Option<map<string, Json>>)
    requires Usable(rt, source) && Usable(rt, big) && Usable(rt, small)
    requires source.Some? ==> big.Some? && small.Some?
    ensures PictureElem(rt, Pictures(source, big, small)) == Pictures(source, big, small)
  {
    PicturesRead(rt, source, big, small);
  }

  /** Missing types and missing pictures are filled in once and for all. */
  lemma PictureAgain(rt: Runtime, o: map<string, Json>)
    requires Lawful(rt)
    ensures PictureElem(rt, PictureElem(rt, o)) == PictureElem(rt, o)
  {
    hide Lawful, PictureAt, FirstType, Complete;
    var source0 := PictureAt(rt, o, "sourcePicture", "SourcePicture");
    var big0 := PictureAt(rt, o, "bigPicture", "BigPicture");
    var small0 := PictureAt(rt, o, "snapshotPicture", "SnapshotPicture");
    var fallback := FirstType(rt, [source0, big0, small0]);
    FirstTypeNonempty(rt, [source0, big0, small0]);
    TypedUsable(rt, o, "sourcePicture", "SourcePicture", fallback);
    TypedUsable(rt, o, "bigPicture", "BigPicture", fallback);
    TypedUsable(rt, o, "snapshotPicture", "SnapshotPicture", fallback);
    var source := Typed(rt, source0, fallback);
    var big := if big0.Some? then Typed(rt, big0, fallback) else source;
    var small := if small0.Some? then Typed(rt, small0, fallback) else source;
    assert PictureElem(rt, o) == Pictures(source, big, small);
    hide PictureElem;
    PicturesFixed(rt, source, big, small);
  }

  lemma TypedUsable(rt: Runtime, o: map<string, Json>, key: string, alias: string, fallback: string)
    requires Lawful(rt) && rt.trim(fallback) != ""
    ensures Usable(rt, Typed(rt, PictureAt(rt, o, key, alias), fallback))
  {
    if PictureAt(rt, o, key, alias).Some? {
      TypedIsComplete(rt, AsObject(rt, Either(o, key, alias)).value, fallback);
    }
  }
}

/**
 Which addresses a snapshot may carry. A video is refused without a remote address; a voice or file message known
 only by a path of the sender's device is not, and takes that path along as its address; the addresses of pictures
 are never looked at.
 */
module SnapshotAddresses {
  import opened Options
  import opened Json
  import opened ForwardSnapshot
  import opened SnapshotMedia
  import opened SnapshotTree
  import opened SnapshotShape

  predicate EmptyOrRemote(rt: Runtime, address: string) { address == "" || rt.isHttp(address) }

  /** One of the two candidates is remote, or there is none. */
  predicate SafePair(rt: Runtime, first: string, second: string) {
    rt.isHttp(rt.trim(first)) || rt.isHttp(rt.trim(second)) || (rt.trim(first) == "" && rt.trim(second) == "")
  }

  /** The preferred address is empty or remote exactly when a candidate is remote or all are empty; otherwise it is
      the first candidate that says anything, which may be a path of the device. */
  lemma PreferredExactly(rt: Runtime, first: string, second: string)
    requires Lawful(rt)
    ensures EmptyOrRemote(rt, PreferHttp(rt, first, second)) <==> SafePair(rt, first, second)
    ensures !SafePair(rt, first, second) ==>
              PreferHttp(rt, first, second) == if rt.trim(first) != "" then rt.trim(first) else rt.trim(second)
  {
  }

  // ----- voice and file -----

  predicate VoiceSafe(rt: Runtime, o: map<string, Json>) {
    SafePair(rt, StringOf(o, ["sourceUrl", "SourceUrl", "SourceURL"]), StringOf(o, ["soundPath", "SoundPath"]))
  }

  predicate FileSafe(rt: Runtime, o: map<string, Json>) {
    SafePair(rt, StringOf(o, ["sourceUrl", "SourceUrl", "SourceURL"]), StringOf(o, ["filePath", "FilePath"]))
  }

  predicate SafeField(rt: Runtime, fields: map<string, Json>, key: string) {
    key in fields && fields[key].Str? && EmptyOrRemote(rt, fields[key].s)
  }

  lemma VoiceAddressExactly(rt: Runtime, o: map<string, Json>)
    requires Lawful(rt)
    ensures SafeField(rt, VoiceElem(rt, o), "sourceUrl") <==> VoiceSafe(rt, o)
  {
    VoiceFields(rt, o);
    PreferredExactly(rt, StringOf(o, ["sourceUrl", "SourceUrl", "SourceURL"]), StringOf(o, ["soundPath", "SoundPath"]));
    hide VoiceElem, StringOf;
  }

  lemma FileAddressExactly(rt: Runtime, o: map<string, Json>)
    requires Lawful(rt)
    ensures SafeField(rt, FileElem(rt, o), "sourceUrl") <==> FileSafe(rt, o)
  {
    FileFields(rt, o);
    PreferredExactly(rt, StringOf(o, ["sourceUrl", "SourceUrl", "SourceURL"]), StringOf(o, ["filePath", "FilePath"]));
    hide FileElem, StringOf;
  }

  /** A path of the device. */
  ghost predicate LocalPath(rt: Runtime, path: string) {
    path != "" && rt.trim(path) == path && !rt.isHttp(path)
  }

  lemma LocalVoicePath(rt: Runtime, path: string)
    requires Lawful(rt) && LocalPath(rt, path)
    ensures "sourceUrl" in VoiceElem(rt, map["soundPath" := Str(path)])
    ensures VoiceElem(rt, map["soundPath" := Str(path)])["sourceUrl"] == Str(path)
  {
    var o := map["soundPath" := Str(path)];
    VoiceFields(rt, o);
    assert "soundPath"[3] == 'n' && "sourceUrl"[3] == 'r' && "SourceUrl"[0] == 'S' && "SourceURL"[0] == 'S';
    NoString(o, ["sourceUrl", "SourceUrl", "SourceURL"]);
    hide VoiceElem;
    assert StringOf(o, ["soundPath", "SoundPath"]) == path;
  }

  lemma LocalFilePath(rt: Runtime, path: string)
    requires Lawful(rt) && LocalPath(rt, path)
    ensures "sourceUrl" in FileElem(rt, map["filePath" := Str(path)])
    ensures FileElem(rt, map["filePath" := Str(path)])["sourceUrl"] == Str(path)
  {
    var o := map["filePath" := Str(path)];
    FileFields(rt, o);
    assert |"filePath"| == 8 && |"sourceUrl"| == 9 && |"SourceUrl"| == 9 && |"SourceURL"| == 9;
    NoString(o, ["sourceUrl", "SourceUrl", "SourceURL"]);
    hide FileElem;
    assert StringOf(o, ["filePath", "FilePath"]) == path;
  }

  /** Such a message is frozen, and its snapshot names the path. */
  lemma LocalVoiceIsFrozen(rt: Runtime, clock: string, path: string)
    requires Lawful(rt) && LocalPath(rt, path)
    ensures var item := map["contentType" := Num(VOICE), "soundElem" := Obj(map["soundPath" := Str(path)])];
            var s := Build(rt, clock, item, 0);
            s.Ok? && s.value.content.Obj? && "sourceUrl" in s.value.content.fields
            && s.value.content.fields["sourceUrl"] == Str(path)
  {
    var o := map["soundPath" := Str(path)];
    var item := map["contentType" := Num(VOICE), "soundElem" := Obj(o)];
    assert |"contentType"| == 11 && |"soundElem"| == 9;
    LocalVoicePath(rt, path);
    hide VoiceElem;
    assert ContentType(rt, item) == Some(VOICE);
    assert ElemOf(rt, item, "soundElem", "SoundElem") == Ok(o);
    assert Content(rt, clock, item, VOICE, 0) == Ok(Obj(VoiceElem(rt, o)));
  }

  // ----- pictures -----

  function GivenUrl(rt: Runtime, o: map<string, Json>, key: string, alias: string): Option<string> {
    match AsObject(rt, Either(o, key, alias))
    case Some(p) => Some(StringOf(p, ["url", "Url", "URL"]))
    case None => None
  }

  predicate SafeUrl(rt: Runtime, url: Option<string>) { url.Some? ==> EmptyOrRemote(rt, url.value) }

  predicate PicturesSafe(rt: Runtime, o: map<string, Json>) {
    && SafeUrl(rt, GivenUrl(rt, o, "sourcePicture", "SourcePicture"))
    && SafeUrl(rt, GivenUrl(rt, o, "bigPicture", "BigPicture"))
    && SafeUrl(rt, GivenUrl(rt, o, "snapshotPicture", "SnapshotPicture"))
  }

  predicate SafePicture(rt: Runtime, fields: map<string, Json>, key: string) {
    key in fields ==> fields[key].Obj? && SafeField(rt, fields[key].fields, "url")
  }

  predicate SafePictures(rt: Runtime, content: Json) {
    && content.Obj?
    && SafePicture(rt, content.fields, "sourcePicture")
    && SafePicture(rt, content.fields, "bigPicture")
    && SafePicture(rt, content.fields, "snapshotPicture")
  }

  /** Filling in the type leaves the address as it was given. */
  lemma TypedUrl(rt: Runtime, o: map<string, Json>, key: string, alias: string, fallback: string)
    ensures var pic := Typed(rt, PictureAt(rt, o, key, alias), fallback);
            && (pic.Some? <==> GivenUrl(rt, o, key, alias).Some?)
            && (pic.Some? ==> "url" in pic.value && pic.value["url"] == Str(GivenUrl(rt, o, key, alias).value))
  {
    match AsObject(rt, Either(o, key, alias))
    case None =>
    case Some(p) =>
      InfoFields(rt, p);
      assert |"url"| == 3 && |"type"| == 4;
      hide PictureInfo;
  }

  /** The three entries of a normalised element, each with the address it was given; a missing one is the source. */
  lemma PictureUrls(rt: Runtime, o: map<string, Json>)
    ensures var e := PictureElem(rt, o);
            var source := GivenUrl(rt, o, "sourcePicture", "SourcePicture");
            var big := GivenUrl(rt, o, "bigPicture", "BigPicture");
            var small := GivenUrl(rt, o, "snapshotPicture", "SnapshotPicture");
            && HasUrl(e, "sourcePicture", source)
            && HasUrl(e, "bigPicture", if big.Some? then big else source)
            && HasUrl(e, "snapshotPicture", if small.Some? then small else source)
  {
    var source0 := PictureAt(rt, o, "sourcePicture", "SourcePicture");
    var big0 := PictureAt(rt, o, "bigPicture", "BigPicture");
    var small0 := PictureAt(rt, o, "snapshotPicture", "SnapshotPicture");
    var fallback := FirstType(rt, [source0, big0, small0]);
    var source := Typed(rt, source0, fallback);
    TypedUrl(rt, o, "sourcePicture", "SourcePicture", fallback);
    TypedUrl(rt, o, "bigPicture", "BigPicture", fallback);
    TypedUrl(rt, o, "snapshotPicture", "SnapshotPicture", fallback);
    PictureKeys();
    PicturesAt("sourcePath", "sourcePicture", "bigPicture", "snapshotPicture", source,
               if big0.Some? then Typed(rt, big0, fallback) else source,
               if small0.Some? then Typed(rt, small0, fallback) else source);
    hide Typed, PictureAt, GivenUrl, FirstType, WithPicture;
  }

  predicate HasUrl(fields: map<string, Json>, key: string, url: Option<string>) {
    && (key in fields <==> url.Some?)
    && (key in fields ==> fields[key].Obj? && "url" in fields[key].fields && fields[key].fields["url"] == Str(url.value))
  }

  lemma PictureAddressExactly(rt: Runtime, o: map<string, Json>)
    ensures SafePictures(rt, Obj(PictureElem(rt, o))) <==> PicturesSafe(rt, o)
  {
    PictureUrls(rt, o);
    hide PictureElem, GivenUrl;
  }

  /** The address of a picture is never looked at. */
  lemma LocalPictureUrl(rt: Runtime, path: string)
    requires LocalPath(rt, path)
    ensures var e := PictureElem(rt, map["sourcePicture" := Obj(map["url" := Str(path)])]);
            HasUrl(e, "sourcePicture", Some(path)) && !SafePictures(rt, Obj(e))
  {
    var o := map["sourcePicture" := Obj(map["url" := Str(path)])];
    PictureUrls(rt, o);
    hide PictureElem;
    assert GivenUrl(rt, o, "sourcePicture", "SourcePicture") == Some(path);
  }

  // ----- every message of a snapshot -----

  /** No address in the media element of this snapshot can be a path of the device. */
  function RemoteOnly(rt: Runtime): Snapshot -> bool {
    (s: Snapshot) =>
      && (s.contentType in {VOICE, FILE} ==> s.content.Obj? && SafeField(rt, s.content.fields, "sourceUrl"))
      && (s.contentType == VIDEO ==> s.content.Obj? && SafeField(rt, s.content.fields, "videoUrl")
                                     && SafeField(rt, s.content.fields, "snapshotUrl"))
      && (s.contentType == PICTURE ==> SafePictures(rt, s.content))
  }

  function PictureSource(rt: Runtime, m: map<string, Json>): Option<map<string, Json>> {
    match AsObject(rt, Either(m, "pictureElem", "PictureElem"))
    case Some(o) => Some(o)
    case None => if Stored(rt, m).Ok? then AsObject(rt, Some(Stored(rt, m).value)) else None
  }

  predicate ElemSafe(rt: Runtime, elem: Result<map<string, Json>>, voice: bool) {
    elem.Ok? ==> if voice then VoiceSafe(rt, elem.value) else FileSafe(rt, elem.value)
  }

  /** What a message has to offer for that: a remote address or none for voice and file, an element with remote or
      empty addresses for a picture. */
  function OffersRemote(rt: Runtime): map<string, Json> -> bool {
    m =>
      && (ContentType(rt, m) == Some(VOICE) ==> ElemSafe(rt, ElemOf(rt, m, "soundElem", "SoundElem"), true))
      && (ContentType(rt, m) == Some(FILE) ==> ElemSafe(rt, ElemOf(rt, m, "fileElem", "FileElem"), false))
      && (ContentType(rt, m) == Some(PICTURE) ==> PictureSource(rt, m).Some? && PicturesSafe(rt, PictureSource(rt, m).value))
  }

  lemma PictureContentExactly(rt: Runtime, item: map<string, Json>)
    requires PictureContent(rt, item).Ok?
    ensures SafePictures(rt, PictureContent(rt, item).value)
            <==> PictureSource(rt, item).Some? && PicturesSafe(rt, PictureSource(rt, item).value)
  {
    if PictureSource(rt, item).Some? { PictureAddressExactly(rt, PictureSource(rt, item).value); }
    hide PictureElem, PicturesSafe;
  }

  lemma VideoIsRemote(rt: Runtime, clock: string, item: map<string, Json>)
    requires Video(rt, clock, item).Ok?
    ensures RemoteOnly(rt)(Snapshot(VIDEO, Video(rt, clock, item).value))
  {
    PreferredIsRemote(rt, item, clock);
    hide Video;
  }

  /** One message. */
  lemma OwnAddressesExactly(rt: Runtime, clock: string, item: map<string, Json>, depth: nat)
    requires Lawful(rt) && Build(rt, clock, item, depth).Ok?
    ensures OffersRemote(rt)(item) <==> RemoteOnly(rt)(Build(rt, clock, item, depth).value)
  {
    var s := Build(rt, clock, item, depth).value;
    assert Content(rt, clock, item, s.contentType, depth) == Ok(s.content) && ContentType(rt, item) == Some(s.contentType);
    if s.contentType == VOICE {
      VoiceAddressExactly(rt, ElemOf(rt, item, "soundElem", "SoundElem").value);
    } else if s.contentType == FILE {
      FileAddressExactly(rt, ElemOf(rt, item, "fileElem", "FileElem").value);
    } else if s.contentType == VIDEO {
      VideoIsRemote(rt, clock, item);
    } else if s.contentType == PICTURE {
      PictureContentExactly(rt, item);
    }
    hide VoiceElem, FileElem, Video, PictureContent, SafePictures, VoiceSafe, FileSafe;
  }

  /** Main result: no address anywhere in a snapshot is a path of the device if and only if every media message
      reached offers a remote address or none. */
  lemma RemoteExactlyWhenOffered(rt: Runtime, clock: string, item: map<string, Json>, depth: nat)
    requires Lawful(rt) && Build(rt, clock, item, depth).Ok?
    ensures depth <= 6
    ensures Everywhere(rt, RemoteOnly(rt), Build(rt, clock, item, depth).value, 6 - depth)
            <==> Every(rt, OffersRemote(rt), item, depth)
  {
    assert Mirrors(rt, clock, OffersRemote(rt), RemoteOnly(rt)) by {
      forall m, d: nat | Build(rt, clock, m, d).Ok?
        ensures OffersRemote(rt)(m) <==> RemoteOnly(rt)(Build(rt, clock, m, d).value)
      {
        OwnAddressesExactly(rt, clock, m, d);
      }
    }
    EverywhereMirrors(rt, clock, OffersRemote(rt), RemoteOnly(rt), item, depth);
  }
}

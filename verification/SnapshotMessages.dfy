/** Which messages can be frozen and what their snapshots say, for each type of message. */
module SnapshotMessages {
  import opened Options
  import opened Json
  import opened ForwardSnapshot
  import opened SnapshotMedia
  import opened SnapshotContent
  import opened SnapshotReading

  // ----- where the fields of a message are -----

  /** The element of a message, under either spelling, as an object or as its text. */
  function Element(rt: Runtime, item: map<string, Json>, key: string, alias: string): Option<map<string, Json>> {
    match Said(item, key, alias) case Some(j) => AsObject(rt, Some(j)) case None => None
  }

  /** The content stored with a message: an object, an array, JSON text, or text that stands for itself. */
  function StoredSaid(rt: Runtime, item: map<string, Json>): Option<Json> {
    match Said(item, "content", "Content")
    case Some(Obj(o)) => Some(Obj(o))
    case Some(Arr(a)) => Some(Arr(a))
    case Some(Str(s)) =>
      if s == "" || rt.parse(s) == Some(Null) then None
      else if rt.parse(s).Some? then rt.parse(s) else Some(Obj(map["content" := Str(s)]))
    case _ => None
  }

  /** The element, else the stored content if that is an object, else nothing; None if there is no content at all. */
  function Source(rt: Runtime, item: map<string, Json>, key: string, alias: string): Option<map<string, Json>> {
    if Element(rt, item, key, alias).Some? then Element(rt, item, key, alias)
    else if StoredSaid(rt, item).None? then None
    else if AsObject(rt, StoredSaid(rt, item)).Some? then AsObject(rt, StoredSaid(rt, item))
    else Some(map[])
  }

  function TypeSaid(rt: Runtime, item: map<string, Json>): Option<int> {
    rt.number(SaidOr(item, "contentType", "ContentType", Num(0)))
  }

  lemma EitherSaid(o: map<string, Json>, key: string, alias: string, default: Json)
    ensures OrElse(Either(o, key, alias), default) == SaidOr(o, key, alias, default)
    ensures Said(o, key, alias) == if Either(o, key, alias) == Some(Null) then None else Either(o, key, alias)
  {
  }

  lemma ElementRead(rt: Runtime, item: map<string, Json>, key: string, alias: string)
    ensures AsObject(rt, Either(item, key, alias)) == Element(rt, item, key, alias)
  {
    EitherSaid(item, key, alias, Null);
  }

  lemma StoredRead(rt: Runtime, item: map<string, Json>)
    ensures Stored(rt, item).Ok? <==> StoredSaid(rt, item).Some?
    ensures Stored(rt, item).Ok? ==> Stored(rt, item).value == StoredSaid(rt, item).value
  {
    EitherSaid(item, "content", "Content", Null);
  }

  lemma SourceRead(rt: Runtime, item: map<string, Json>, key: string, alias: string)
    ensures ElemOf(rt, item, key, alias).Ok? <==> Source(rt, item, key, alias).Some?
    ensures ElemOf(rt, item, key, alias).Ok? ==> ElemOf(rt, item, key, alias).value == Source(rt, item, key, alias).value
  {
    ElementRead(rt, item, key, alias);
    StoredRead(rt, item);
    hide Either, Element, StoredSaid, Stored, AsObject;
  }

  // ----- every message -----

  /** Only messages of a known type below 1000, at most six levels deep, are frozen, and the snapshot has that type. */
  lemma FrozenNeedsType(rt: Runtime, clock: string, item: map<string, Json>, depth: nat)
    ensures var s := Build(rt, clock, item, depth);
            && (s.Ok? ==> depth <= 6 && TypeSaid(rt, item) == Some(s.value.contentType)
                          && s.value.contentType != 0 && s.value.contentType < 1000)
            && (depth > 6 ==> s == Err(TooDeep))
            && (depth <= 6 && (TypeSaid(rt, item).None? || TypeSaid(rt, item).value == 0 || TypeSaid(rt, item).value >= 1000)
                ==> s == Err(NotForwardable))
  {
    EitherSaid(item, "contentType", "ContentType", Num(0));
    hide Content, Either, Said;
  }

  ghost predicate OfType(rt: Runtime, item: map<string, Json>, ct: int, depth: nat) {
    depth <= 6 && TypeSaid(rt, item) == Some(ct) && ct != 0 && ct < 1000
  }

  lemma BuiltFromContent(rt: Runtime, clock: string, item: map<string, Json>, ct: int, depth: nat)
    requires OfType(rt, item, ct, depth)
    ensures Build(rt, clock, item, depth).Ok? <==> Content(rt, clock, item, ct, depth).Ok?
    ensures Build(rt, clock, item, depth).Ok? ==>
              Build(rt, clock, item, depth).value == Snapshot(ct, Content(rt, clock, item, ct, depth).value)
  {
    EitherSaid(item, "contentType", "ContentType", Num(0));
    hide Content, Either, Said;
  }

  ghost predicate Freezes(s: Result<Snapshot>, ct: int, content: Json) { s == Ok(Snapshot(ct, content)) }

  // ----- text and plain content -----

  /** Main result on texts: the snapshot holds the text of the element under whichever spelling, or nothing if it has
      none; without an element the stored content is taken, and a message without that is refused. */
  lemma TextIsFrozen(rt: Runtime, clock: string, item: map<string, Json>, depth: nat)
    requires OfType(rt, item, 101, depth)
    ensures var elem := Element(rt, item, "textElem", "TextElem");
            && (elem.Some? ==> Freezes(Build(rt, clock, item, depth), 101,
                                       Obj(map["content" := SaidOr(elem.value, "content", "Content", Str(""))])))
            && (elem.None? && StoredSaid(rt, item).Some? ==>
                  Freezes(Build(rt, clock, item, depth), 101, StoredSaid(rt, item).value))
            && (elem.None? && StoredSaid(rt, item).None? ==> Build(rt, clock, item, depth).Err?)
  {
    BuiltFromContent(rt, clock, item, 101, depth);
    ElementRead(rt, item, "textElem", "TextElem");
    StoredRead(rt, item);
    var elem := Element(rt, item, "textElem", "TextElem");
    if elem.Some? { EitherSaid(elem.value, "content", "Content", Str("")); }
    assert Content(rt, clock, item, 101, depth) == TextContent(rt, item);
    hide Build, Content, Either, Element, StoredSaid, Stored, Said, SaidOr;
  }

  /** For instance the spelling with capital letters. */
  lemma CapitalTextIsFrozen(rt: Runtime, clock: string, text: string)
    requires Lawful(rt) && text != ""
    ensures Freezes(Build(rt, clock, map["ContentType" := Num(101), "TextElem" := Obj(map["Content" := Str(text)])], 0),
                    101, Obj(map["content" := Str(text)]))
  {
    var item := map["ContentType" := Num(101), "TextElem" := Obj(map["Content" := Str(text)])];
    assert "ContentType"[0] == 'C' && "contentType"[0] == 'c' && "TextElem"[0] == 'T' && "textElem"[0] == 't';
    assert Said(item, "contentType", "ContentType") == Some(Num(101));
    assert Said(item, "textElem", "TextElem") == Some(Obj(map["Content" := Str(text)]));
    assert "Content"[0] == 'C' && "content"[0] == 'c';
    assert Said(map["Content" := Str(text)], "content", "Content") == Some(Str(text));
    TextIsFrozen(rt, clock, item, 0);
    hide Build, Said;
  }

  /** Any type without an element of its own is frozen with its stored content. */
  lemma PlainIsFrozen(rt: Runtime, clock: string, item: map<string, Json>, ct: int, depth: nat)
    requires OfType(rt, item, ct, depth) && ct !in {101, 102, 103, 104, 105, 106, 107, 114}
    ensures StoredSaid(rt, item).Some? ==> Freezes(Build(rt, clock, item, depth), ct, StoredSaid(rt, item).value)
    ensures StoredSaid(rt, item).None? ==> Build(rt, clock, item, depth).Err?
  {
    BuiltFromContent(rt, clock, item, ct, depth);
    StoredRead(rt, item);
    assert Content(rt, clock, item, ct, depth) == Stored(rt, item);
    hide Build, Content, StoredSaid, Stored;
  }

  // ----- media -----

  /** Voice and file messages are frozen unless they have neither an element nor content. */
  lemma VoiceIsFrozen(rt: Runtime, clock: string, item: map<string, Json>, depth: nat)
    requires Lawful(rt) && OfType(rt, item, 103, depth)
    ensures var s, o := Build(rt, clock, item, depth), Source(rt, item, "soundElem", "SoundElem");
            && (s.Ok? <==> o.Some?)
            && (s.Ok? ==> s.value.contentType == 103 && s.value.content.Obj? && VoiceSays(rt, o.value, s.value.content.fields))
  {
    BuiltFromContent(rt, clock, item, 103, depth);
    SourceRead(rt, item, "soundElem", "SoundElem");
    assert Content(rt, clock, item, 103, depth) == VoiceContent(rt, item);
    var o := ElemOf(rt, item, "soundElem", "SoundElem");
    if o.Ok? { VoiceReads(rt, o.value); }
    hide Build, Content, ElemOf, Source, VoiceElem, VoiceSays, Lawful;
  }

  lemma FileIsFrozen(rt: Runtime, clock: string, item: map<string, Json>, depth: nat)
    requires Lawful(rt) && OfType(rt, item, 105, depth)
    ensures var s, o := Build(rt, clock, item, depth), Source(rt, item, "fileElem", "FileElem");
            && (s.Ok? <==> o.Some?)
            && (s.Ok? ==> s.value.contentType == 105 && s.value.content.Obj? && FileSays(rt, o.value, s.value.content.fields))
  {
    BuiltFromContent(rt, clock, item, 105, depth);
    SourceRead(rt, item, "fileElem", "FileElem");
    assert Content(rt, clock, item, 105, depth) == FileContent(rt, item);
    var o := ElemOf(rt, item, "fileElem", "FileElem");
    if o.Ok? { FileReads(rt, o.value); }
    hide Build, Content, ElemOf, Source, FileElem, FileSays, Lawful;
  }

  /** The element of a video, else its content as an object, else nothing. */
  function VideoFrom(rt: Runtime, item: map<string, Json>): map<string, Json> {
    if Element(rt, item, "videoElem", "VideoElem").Some? then Element(rt, item, "videoElem", "VideoElem").value
    else if Element(rt, item, "content", "Content").Some? then Element(rt, item, "content", "Content").value
    else map[]
  }

  /** The identifier that stands in for missing ones: the message's own, or one made from the clock. */
  ghost predicate StandIn(rt: Runtime, clock: string, item: map<string, Json>, id: string) {
    if "clientMsgID" in item && Truthy(item["clientMsgID"]) then id == rt.text(item["clientMsgID"])
    else exists s :: TextSaid(item, ["ClientMsgID", "clientMsgId"], s) && id == if s == "" then "video_" + clock else s
  }

  /** What a normalised video says, cover included. */
  ghost predicate WholeVideoSays(rt: Runtime, clock: string, item: map<string, Json>, e: map<string, Json>) {
    exists id :: StandIn(rt, clock, item, id) && VideoSays(rt, VideoFrom(rt, item), e, id)
                 && CoverSays(rt, VideoFrom(rt, item), e, id)
  }

  lemma VideoContentReads(rt: Runtime, clock: string, item: map<string, Json>)
    requires Lawful(rt)
    ensures Video(rt, clock, item).Ok? <==> rt.isHttp(VideoUrl(rt, VideoFrom(rt, item)))
    ensures Video(rt, clock, item).Ok? ==>
              Video(rt, clock, item).value.Obj? && WholeVideoSays(rt, clock, item, Video(rt, clock, item).value.fields)
  {
    VideoFromRead(rt, item);
    StandInRead(rt, clock, item);
    var o, id := VideoFrom(rt, item), FallbackId(rt, clock, item);
    hide VideoFrom, VideoSource, FallbackId, VideoElem, VideoUrl, VideoSays, CoverSays, StandIn, Lawful;
    if rt.isHttp(VideoUrl(rt, o)) {
      VideoReads(rt, o, id);
      CoverReads(rt, o, id);
    }
  }

  /** The address of a video, under whichever spelling, or its path is an http(s) address. */
  ghost predicate HasVideoAddress(rt: Runtime, o: map<string, Json>) {
    exists u :: AddressSaid(rt, o, VIDEO_URLS, ["videoPath", "VideoPath"], u) && rt.isHttp(u)
  }

  /** A video is frozen exactly when it has an http(s) address. */
  lemma VideoIsFrozen(rt: Runtime, clock: string, item: map<string, Json>, depth: nat)
    requires Lawful(rt) && OfType(rt, item, 104, depth)
    ensures var s := Build(rt, clock, item, depth);
            && (s.Ok? <==> HasVideoAddress(rt, VideoFrom(rt, item)))
            && (s.Ok? ==> s.value.contentType == 104 && s.value.content.Obj?
                          && WholeVideoSays(rt, clock, item, s.value.content.fields))
  {
    hide Build, Content, Video, VideoFrom, VideoUrl, WholeVideoSays, HasVideoAddress, Lawful, OfType, Element, Said;
    BuiltVideo(rt, clock, item, depth);
    VideoContentReads(rt, clock, item);
    VideoAddressExactly(rt, VideoFrom(rt, item));
  }

  lemma BuiltVideo(rt: Runtime, clock: string, item: map<string, Json>, depth: nat)
    requires OfType(rt, item, 104, depth)
    ensures Build(rt, clock, item, depth).Ok? <==> Video(rt, clock, item).Ok?
    ensures Build(rt, clock, item, depth).Ok? ==> Build(rt, clock, item, depth).value == Snapshot(104, Video(rt, clock, item).value)
  {
    BuiltFromContent(rt, clock, item, 104, depth);
    assert Content(rt, clock, item, 104, depth) == Video(rt, clock, item);
    hide Build, Content, Video, OfType;
  }

  lemma VideoFromRead(rt: Runtime, item: map<string, Json>)
    ensures VideoSource(rt, item) == VideoFrom(rt, item)
  {
    ElementRead(rt, item, "videoElem", "VideoElem");
    ElementRead(rt, item, "content", "Content");
    hide AsObject, Either, Element;
  }

  lemma StandInRead(rt: Runtime, clock: string, item: map<string, Json>)
    ensures StandIn(rt, clock, item, FallbackId(rt, clock, item))
  {
    TextIsSaid(item, ["ClientMsgID", "clientMsgId"]);
    hide StringOf, TextSaid;
  }

  lemma TextSaidOnce(o: map<string, Json>, keys: seq<string>, s: string, t: string)
    requires TextSaid(o, keys, s) && TextSaid(o, keys, t)
    ensures s == t
  {
    FirstFilledSpelling(o, keys);
  }

  lemma VideoAddressExactly(rt: Runtime, o: map<string, Json>)
    requires Lawful(rt)
    ensures rt.isHttp(VideoUrl(rt, o)) <==> HasVideoAddress(rt, o)
  {
    var paths := ["videoPath", "VideoPath"];
    AddressIsSaid(rt, o, VIDEO_URLS, paths);
    assert VideoUrl(rt, o) == PreferHttp(rt, StringOf(o, VIDEO_URLS), StringOf(o, paths));
    hide PreferHttp, StringOf;
    if u :| AddressSaid(rt, o, VIDEO_URLS, paths, u) && rt.isHttp(u) { AddressSaidOnce(rt, o, VIDEO_URLS, paths, u, VideoUrl(rt, o)); }
  }

  lemma AddressSaidOnce(rt: Runtime, o: map<string, Json>, keys: seq<string>, paths: seq<string>, u: string, v: string)
    requires AddressSaid(rt, o, keys, paths, u) && AddressSaid(rt, o, keys, paths, v)
    ensures u == v
  {
    var a, b :| TextSaid(o, keys, a) && TextSaid(o, paths, b)
                && u == if rt.isHttp(rt.trim(a)) then rt.trim(a) else if rt.isHttp(rt.trim(b)) then rt.trim(b)
                        else if rt.trim(a) != "" then rt.trim(a) else rt.trim(b);
    var c, d :| TextSaid(o, keys, c) && TextSaid(o, paths, d)
                && v == if rt.isHttp(rt.trim(c)) then rt.trim(c) else if rt.isHttp(rt.trim(d)) then rt.trim(d)
                        else if rt.trim(c) != "" then rt.trim(c) else rt.trim(d);
    TextSaidOnce(o, keys, a, c);
    TextSaidOnce(o, paths, b, d);
    hide TextSaid;
  }

  // ----- pictures -----

  /** The type a picture declares, unless it is blank. */
  ghost predicate DeclaresType(rt: Runtime, pic: Option<map<string, Json>>, mime: string) {
    pic.Some? && exists s :: TextSaid(pic.value, ["type", "Type"], s) && rt.trim(s) != "" && mime == rt.trim(s)
  }

  ghost predicate Undeclared(rt: Runtime, pic: Option<map<string, Json>>) {
    pic.Some? ==> exists s :: TextSaid(pic.value, ["type", "Type"], s) && rt.trim(s) == ""
  }

  /** The type that fills the gaps: of the source picture, else the big one, else the small one, else image/jpeg. */
  ghost predicate GapType(rt: Runtime, source: Option<map<string, Json>>, big: Option<map<string, Json>>,
                          small: Option<map<string, Json>>, mime: string) {
    || DeclaresType(rt, source, mime)
    || (Undeclared(rt, source) && DeclaresType(rt, big, mime))
    || (Undeclared(rt, source) && Undeclared(rt, big) && DeclaresType(rt, small, mime))
    || (Undeclared(rt, source) && Undeclared(rt, big) && Undeclared(rt, small) && mime == "image/jpeg")
  }

  /** One of the three entries: its own picture, else that of the source. */
  ghost predicate EntrySays(rt: Runtime, own: Option<map<string, Json>>, source: Option<map<string, Json>>,
                            e: map<string, Json>, key: string, mime: string) {
    var from := if own.Some? then own else source;
    && (key in e <==> from.Some?)
    && (key in e ==> e[key].Obj? && PictureSays(rt, from.value, e[key].fields, mime))
  }

  ghost predicate PicturesSay(rt: Runtime, o: map<string, Json>, e: map<string, Json>) {
    var source := Element(rt, o, "sourcePicture", "SourcePicture");
    var big := Element(rt, o, "bigPicture", "BigPicture");
    var small := Element(rt, o, "snapshotPicture", "SnapshotPicture");
    && "sourcePath" in e && e["sourcePath"] == Str("")
    && exists mime :: GapType(rt, source, big, small, mime) && EntrySays(rt, source, source, e, "sourcePicture", mime)
                      && EntrySays(rt, big, source, e, "bigPicture", mime)
                      && EntrySays(rt, small, source, e, "snapshotPicture", mime)
  }

  lemma DeclaredType(rt: Runtime, p: map<string, Json>)
    ensures TypeOf(PictureInfo(rt, p)) == StringOf(p, ["type", "Type"]) && TextSaid(p, ["type", "Type"], TypeOf(PictureInfo(rt, p)))
  {
    InfoFields(rt, p);
    TextIsSaid(p, ["type", "Type"]);
    hide StringOf, TextSaid;
  }

  function Infos(rt: Runtime, pic: Option<map<string, Json>>): Option<map<string, Json>> {
    match pic case Some(p) => Some(PictureInfo(rt, p)) case None => None
  }

  lemma TypeDecided(rt: Runtime, pic: Option<map<string, Json>>)
    ensures var info := Infos(rt, pic);
            if info.Some? && rt.trim(TypeOf(info.value)) != "" then DeclaresType(rt, pic, rt.trim(TypeOf(info.value)))
            else Undeclared(rt, pic)
  {
    if pic.Some? { DeclaredType(rt, pic.value); }
    hide PictureInfo, TypeOf, TextSaid;
  }

  lemma GapTypeRead(rt: Runtime, source: Option<map<string, Json>>, big: Option<map<string, Json>>, small: Option<map<string, Json>>)
    ensures GapType(rt, source, big, small, FirstType(rt, [Infos(rt, source), Infos(rt, big), Infos(rt, small)]))
  {
    FirstOfThree(rt, Infos(rt, source), Infos(rt, big), Infos(rt, small));
    TypeDecided(rt, source);
    TypeDecided(rt, big);
    TypeDecided(rt, small);
    hide Infos, TypeOf, DeclaresType, Undeclared, FirstType;
  }

  lemma FirstOfThree(rt: Runtime, a: Option<map<string, Json>>, b: Option<map<string, Json>>, c: Option<map<string, Json>>)
    ensures FirstType(rt, [a, b, c]) ==
            if a.Some? && rt.trim(TypeOf(a.value)) != "" then rt.trim(TypeOf(a.value))
            else if b.Some? && rt.trim(TypeOf(b.value)) != "" then rt.trim(TypeOf(b.value))
            else if c.Some? && rt.trim(TypeOf(c.value)) != "" then rt.trim(TypeOf(c.value)) else "image/jpeg"
  {
    hide TypeOf;
    assert [a, b, c][1..] == [b, c] && [b, c][1..] == [c] && [c][1..] == [];
    assert FirstType(rt, []) == "image/jpeg";
    assert FirstType(rt, [c]) == if c.Some? && rt.trim(TypeOf(c.value)) != "" then rt.trim(TypeOf(c.value)) else "image/jpeg";
    assert FirstType(rt, [b, c]) == if b.Some? && rt.trim(TypeOf(b.value)) != "" then rt.trim(TypeOf(b.value)) else FirstType(rt, [c]);
  }

  lemma EntryRead(rt: Runtime, pic: Option<map<string, Json>>, mime: string)
    ensures var e := Typed(rt, Infos(rt, pic), mime);
            (e.Some? <==> pic.Some?) && (e.Some? ==> PictureSays(rt, pic.value, e.value, mime))
  {
    if pic.Some? { PictureInfoReads(rt, pic.value, mime); }
    hide PictureInfo, PictureSays;
  }

  function Entry(rt: Runtime, own: Option<map<string, Json>>, source: Option<map<string, Json>>, mime: string)
    : Option<map<string, Json>>
  {
    if own.Some? then Typed(rt, Infos(rt, own), mime) else Typed(rt, Infos(rt, source), mime)
  }

  /** The element with the entries of its three pictures. */
  lemma PictureEntries(rt: Runtime, o: map<string, Json>, mime: string)
    requires mime == FirstType(rt, [Infos(rt, Element(rt, o, "sourcePicture", "SourcePicture")),
                                    Infos(rt, Element(rt, o, "bigPicture", "BigPicture")),
                                    Infos(rt, Element(rt, o, "snapshotPicture", "SnapshotPicture"))])
    ensures var source := Element(rt, o, "sourcePicture", "SourcePicture");
            PictureElem(rt, o) ==
            Pictures(Entry(rt, source, source, mime), Entry(rt, Element(rt, o, "bigPicture", "BigPicture"), source, mime),
                     Entry(rt, Element(rt, o, "snapshotPicture", "SnapshotPicture"), source, mime))
  {
    ElementRead(rt, o, "sourcePicture", "SourcePicture");
    ElementRead(rt, o, "bigPicture", "BigPicture");
    ElementRead(rt, o, "snapshotPicture", "SnapshotPicture");
    hide Element, AsObject, Either, FirstType, Typed, WithPicture, PictureInfo;
  }

  lemma EntryWritten(rt: Runtime, own: Option<map<string, Json>>, source: Option<map<string, Json>>, e: map<string, Json>,
                     key: string, mime: string)
    requires key in e <==> Entry(rt, own, source, mime).Some?
    requires key in e ==> e[key] == Obj(Entry(rt, own, source, mime).value)
    ensures EntrySays(rt, own, source, e, key, mime)
  {
    EntryRead(rt, own, mime);
    EntryRead(rt, source, mime);
    hide Typed, Infos, PictureSays;
  }

  lemma PicturesRead(rt: Runtime, o: map<string, Json>)
    ensures PicturesSay(rt, o, PictureElem(rt, o))
  {
    var source := Element(rt, o, "sourcePicture", "SourcePicture");
    var big := Element(rt, o, "bigPicture", "BigPicture");
    var small := Element(rt, o, "snapshotPicture", "SnapshotPicture");
    var mime := FirstType(rt, [Infos(rt, source), Infos(rt, big), Infos(rt, small)]);
    GapTypeRead(rt, source, big, small);
    PictureEntries(rt, o, mime);
    PictureKeys();
    PicturesAt("sourcePath", "sourcePicture", "bigPicture", "snapshotPicture", Entry(rt, source, source, mime),
               Entry(rt, big, source, mime), Entry(rt, small, source, mime));
    var e := PictureElem(rt, o);
    hide Element, FirstType, WithPicture, GapType, PictureElem, Entry, Infos, EntrySays;
    EntryWritten(rt, source, source, e, "sourcePicture", mime);
    EntryWritten(rt, big, source, e, "bigPicture", mime);
    EntryWritten(rt, small, source, e, "snapshotPicture", mime);
  }

  /** A picture is frozen from its element, else from its stored content; content that is no object stays as it is. */
  lemma PictureIsFrozen(rt: Runtime, clock: string, item: map<string, Json>, depth: nat)
    requires OfType(rt, item, 102, depth)
    ensures var s, elem, stored := Build(rt, clock, item, depth), Element(rt, item, "pictureElem", "PictureElem"), StoredSaid(rt, item);
            var from := if elem.Some? then elem else if stored.Some? then AsObject(rt, stored) else None;
            && (s.Ok? <==> elem.Some? || stored.Some?) && (s.Ok? ==> s.value.contentType == 102)
            && (s.Ok? && from.Some? ==> s.value.content.Obj? && PicturesSay(rt, from.value, s.value.content.fields))
            && (s.Ok? && from.None? ==> s.value.content == stored.value)
  {
    BuiltFromContent(rt, clock, item, 102, depth);
    ElementRead(rt, item, "pictureElem", "PictureElem");
    StoredRead(rt, item);
    var elem, stored := Element(rt, item, "pictureElem", "PictureElem"), StoredSaid(rt, item);
    var from := if elem.Some? then elem else if stored.Some? then AsObject(rt, stored) else None;
    if from.Some? { PicturesRead(rt, from.value); }
    assert Content(rt, clock, item, 102, depth) == PictureContent(rt, item);
    hide Build, Content, Element, AsObject, Either, Stored, StoredSaid, PictureElem, PicturesSay;
  }
}

/**
 The snapshot that is frozen before a message is forwarded: its content is rebuilt from whichever spelling
 the SDK used, and the messages it quotes or merges are rebuilt the same way, at most six levels down.
 */
module ForwardSnapshot {
  import opened Options
  import opened Json

  datatype Snapshot = Snapshot(contentType: int, content: Json)

  const TEXT := 101
  const PICTURE := 102
  const VOICE := 103
  const VIDEO := 104
  const FILE := 105
  const AT_TEXT := 106
  const MERGE := 107
  const QUOTE := 114

  function Fuel(depth: nat): nat { if depth > 6 then 0 else 7 - depth }

  // ----- reading one message -----

  function ContentType(rt: Runtime, item: map<string, Json>): Option<int> {
    rt.number(OrElse(Either(item, "contentType", "ContentType"), Num(0)))
  }

  predicate Forwardable(ct: Option<int>) {
    ct.Some? && ct.value != 0 && ct.value < 1000
  }

  /** The content kept as JSON text, or as an object; text that is no JSON counts as plain text. */
  function Stored(rt: Runtime, item: map<string, Json>): Result<Json> {
    match Either(item, "content", "Content")
    case Some(Str(s)) =>
      if s == "" then Err(Unreadable)
      else (match rt.parse(s)
            case Some(Null) => Err(Unreadable)
            case Some(j) => Ok(j)
            case None => Ok(Obj(map["content" := Str(s)])))
    case Some(Obj(o)) => Ok(Obj(o))
    case Some(Arr(a)) => Ok(Arr(a))
    case _ => Err(Unreadable)
  }

  /** The typed element under either spelling, else the stored content, else nothing. */
  function ElemOf(rt: Runtime, item: map<string, Json>, key: string, alias: string): Result<map<string, Json>> {
    match AsObject(rt, Either(item, key, alias))
    case Some(o) => Ok(o)
    case None =>
      var stored :- Stored(rt, item);
      Ok(match AsObject(rt, Some(stored)) case Some(o) => o case None => map[])
  }

  function PreferHttp(rt: Runtime, first: string, second: string): string {
    var a, b := rt.trim(first), rt.trim(second);
    if a != "" && rt.isHttp(a) then a
    else if b != "" && rt.isHttp(b) then b
    else if a != "" then a else b
  }

  // ----- media elements -----

  function VoiceElem(rt: Runtime, o: map<string, Json>): map<string, Json> {
    map["uuid" := Str(StringOf(o, ["uuid", "UUID"])),
        "soundPath" := Str(""),
        "sourceUrl" := Str(PreferHttp(rt, StringOf(o, ["sourceUrl", "SourceUrl", "SourceURL"]),
                                      StringOf(o, ["soundPath", "SoundPath"]))),
        "dataSize" := Num(NumberOf(rt, o, ["dataSize", "DataSize"])),
        "duration" := Num(NumberOf(rt, o, ["duration", "Duration"]))]
  }

  function FileElem(rt: Runtime, o: map<string, Json>): map<string, Json> {
    map["uuid" := Str(StringOf(o, ["uuid", "UUID"])),
        "filePath" := Str(""),
        "sourceUrl" := Str(PreferHttp(rt, StringOf(o, ["sourceUrl", "SourceUrl", "SourceURL"]),
                                      StringOf(o, ["filePath", "FilePath"]))),
        "fileName" := Str(StringOf(o, ["fileName", "FileName"])),
        "fileSize" := Num(NumberOf(rt, o, ["fileSize", "FileSize"]))]
  }

  function VideoUrl(rt: Runtime, o: map<string, Json>): string {
    PreferHttp(rt, StringOf(o, ["videoUrl", "VideoUrl", "videoURL", "VideoURL", "url", "URL"]),
               StringOf(o, ["videoPath", "VideoPath"]))
  }

  function CoverUrl(rt: Runtime, o: map<string, Json>): string {
    var u := PreferHttp(rt, StringOf(o, ["snapshotUrl", "SnapshotUrl", "snapshotURL", "SnapshotURL"]),
                        StringOf(o, ["snapshotPath", "SnapshotPath"]));
    if rt.isHttp(u) then u else ""
  }

  function Nonempty(s: string, default: string): string { if s != "" then s else default }

  function Positive(n: nat, default: nat): nat { if n > 0 then n else default }

  function VideoPart(rt: Runtime, o: map<string, Json>, fallback: string): map<string, Json> {
    map["videoPath" := Str(""),
        "videoUUID" := Str(Nonempty(StringOf(o, ["videoUUID", "VideoUUID", "videoUuid"]), fallback + "_video")),
        "videoUrl" := Str(VideoUrl(rt, o)),
        "videoType" := Str(Nonempty(StringOf(o, ["videoType", "VideoType"]), "mp4")),
        "videoSize" := Num(Positive(NumberOf(rt, o, ["videoSize", "VideoSize"]), 1)),
        "duration" := Num(Positive(NumberOf(rt, o, ["duration", "Duration"]), 1))]
  }

  function CoverPart(rt: Runtime, o: map<string, Json>, fallback: string): map<string, Json> {
    map["snapshotPath" := Str(""),
        "snapshotUUID" := Str(Nonempty(StringOf(o, ["snapshotUUID", "SnapshotUUID", "snapshotUuid"]), fallback + "_cover")),
        "snapshotSize" := Num(NumberOf(rt, o, ["snapshotSize", "SnapshotSize"])),
        "snapshotUrl" := Str(CoverUrl(rt, o)),
        "snapshotWidth" := Num(Positive(NumberOf(rt, o, ["snapshotWidth", "SnapshotWidth"]), 720)),
        "snapshotHeight" := Num(Positive(NumberOf(rt, o, ["snapshotHeight", "SnapshotHeight"]), 1280))]
  }

  function VideoElem(rt: Runtime, o: map<string, Json>, fallback: string): map<string, Json> {
    VideoPart(rt, o, fallback) + CoverPart(rt, o, fallback)
  }

  /** The element of a video has no error path of its own: the stored text is read as an object or not at all. */
  function VideoSource(rt: Runtime, item: map<string, Json>): map<string, Json> {
    match AsObject(rt, Either(item, "videoElem", "VideoElem"))
    case Some(o) => o
    case None =>
      match AsObject(rt, Either(item, "content", "Content"))
      case Some(o) => o
      case None => map[]
  }

  function FallbackId(rt: Runtime, clock: string, item: map<string, Json>): string {
    if "clientMsgID" in item && Truthy(item["clientMsgID"]) then rt.text(item["clientMsgID"])
    else Nonempty(StringOf(item, ["ClientMsgID", "clientMsgId"]), "video_" + clock)
  }

  function Video(rt: Runtime, clock: string, item: map<string, Json>): Result<Json> {
    var o := VideoSource(rt, item);
    if !rt.isHttp(VideoUrl(rt, o)) then Err(NoVideoUrl)
    else Ok(Obj(VideoElem(rt, o, FallbackId(rt, clock, item))))
  }

  function PictureInfo(rt: Runtime, p: map<string, Json>): map<string, Json> {
    map["uuid" := Str(StringOf(p, ["uuid", "UUID"])),
        "type" := Str(StringOf(p, ["type", "Type"])),
        "url" := Str(StringOf(p, ["url", "Url", "URL"])),
        "size" := Num(NumberOf(rt, p, ["size", "Size"])),
        "width" := Num(NumberOf(rt, p, ["width", "Width"])),
        "height" := Num(NumberOf(rt, p, ["height", "Height"]))]
  }

  function TypeOf(info: map<string, Json>): string {
    if "type" in info && info["type"].Str? then info["type"].s else ""
  }

  function PictureAt(rt: Runtime, o: map<string, Json>, key: string, alias: string): Option<map<string, Json>> {
    match AsObject(rt, Either(o, key, alias))
    case Some(p) => Some(PictureInfo(rt, p))
    case None => None
  }

  function FirstType(rt: Runtime, pics: seq<Option<map<string, Json>>>): string {
    if pics == [] then "image/jpeg"
    else if pics[0].Some? && rt.trim(TypeOf(pics[0].value)) != "" then rt.trim(TypeOf(pics[0].value))
    else FirstType(rt, pics[1..])
  }

  function Typed(rt: Runtime, pic: Option<map<string, Json>>, fallback: string): Option<map<string, Json>> {
    match pic
    case None => None
    case Some(p) => Some(if rt.trim(TypeOf(p)) != "" then p else p["type" := Str(fallback)])
  }

  function WithPicture(o: map<string, Json>, key: string, pic: Option<map<string, Json>>): map<string, Json> {
    match pic case None => o case Some(p) => o[key := Obj(p)]
  }

  function PictureElem(rt: Runtime, o: map<string, Json>): map<string, Json> {
    var source0 := PictureAt(rt, o, "sourcePicture", "SourcePicture");
    var big0 := PictureAt(rt, o, "bigPicture", "BigPicture");
    var small0 := PictureAt(rt, o, "snapshotPicture", "SnapshotPicture");
    var fallback := FirstType(rt, [source0, big0, small0]);
    var source := Typed(rt, source0, fallback);
    var big := if big0.Some? then Typed(rt, big0, fallback) else source;
    var small := if small0.Some? then Typed(rt, small0, fallback) else source;
    WithPicture(WithPicture(WithPicture(map["sourcePath" := Str("")], "sourcePicture", source),
                            "bigPicture", big), "snapshotPicture", small)
  }

  /** Content that is no object stays as it is. */
  function Picture(rt: Runtime, elem: Json): Json {
    match AsObject(rt, Some(elem))
    case Some(o) => Obj(PictureElem(rt, o))
    case None => elem
  }

  // ----- references -----

  function AtUser(rt: Runtime, j: Json): Json {
    var info := match AsObject(rt, Some(j)) case Some(o) => o case None => map[];
    Obj(map["atUserID" := Str(StringOf(info, ["atUserID", "AtUserID"])),
            "groupNickname" := Str(StringOf(info, ["groupNickname", "GroupNickname"]))])
  }

  function AtUsersInfo(rt: Runtime, raw: Option<Json>): Json {
    if raw.Some? && raw.value.Arr?
    then Arr(seq(|raw.value.items|, i requires 0 <= i < |raw.value.items| => AtUser(rt, raw.value.items[i])))
    else Arr([])
  }

  function QuoteIn(elem: map<string, Json>): Option<Json> {
    var quote := Either(elem, "quoteMessage", "QuoteMessage");
    if quote.Some? && Truthy(quote.value) then quote else None
  }

  function ReferenceFields(rt: Runtime, elem: map<string, Json>, atText: bool): map<string, Json> {
    var text := OrElse(Either(elem, "text", "Text"), Str(""));
    if atText then
      map["text" := text,
          "atUserList" := OrElse(Either(elem, "atUserList", "AtUserList"), Arr([])),
          "atUsersInfo" := AtUsersInfo(rt, Either(elem, "atUsersInfo", "AtUsersInfo"))]
    else map["text" := text]
  }

  function Reference(rt: Runtime, clock: string, elem: map<string, Json>, depth: nat, atText: bool): Result<Json>
    requires depth <= 6
    decreases Fuel(depth), 1, 0
  {
    match QuoteIn(elem)
    case None => Ok(Obj(ReferenceFields(rt, elem, atText)))
    case Some(quote) =>
      var message :- Embedded(rt, clock, quote, depth + 1);
      Ok(Obj(ReferenceFields(rt, elem, atText)["quoteMessage" := Obj(message)]))
  }

  /** The merged messages, given as an array or as its JSON text. */
  function MergedItems(rt: Runtime, elem: map<string, Json>): Result<seq<Json>> {
    var messages := Either(elem, "multiMessage", "MultiMessage");
    var parsed := if messages.Some? && messages.value.Str? then rt.parse(messages.value.s) else messages;
    if parsed.Some? && parsed.value.Arr? && parsed.value.items != [] then Ok(parsed.value.items) else Err(BadMerge)
  }

  function MergeFields(elem: map<string, Json>, messages: seq<Json>): map<string, Json> {
    map["title" := OrElse(Either(elem, "title", "Title"), Str("")),
        "abstractList" := OrElse(Either(elem, "abstractList", "AbstractList"), Arr([])),
        "multiMessage" := Arr(messages),
        "messageEntityList" := OrElse(Either(elem, "messageEntityList", "MessageEntityList"), Arr([]))]
  }

  function Merged(rt: Runtime, clock: string, elem: map<string, Json>, depth: nat): Result<Json>
    requires depth <= 6
    decreases Fuel(depth), 1, 0
  {
    var items :- MergedItems(rt, elem);
    var messages :- EmbedAll(rt, clock, items, depth + 1);
    Ok(Obj(MergeFields(elem, messages)))
  }

  function EmbedAll(rt: Runtime, clock: string, items: seq<Json>, depth: nat): (r: Result<seq<Json>>)
    ensures r.Ok? ==> |r.value| == |items|
    decreases Fuel(depth), 5, |items|
  {
    if items == [] then Ok([])
    else
      var front :- EmbedAll(rt, clock, items[..|items| - 1], depth);
      var last :- Embedded(rt, clock, items[|items| - 1], depth);
      Ok(front + [Obj(last)])
  }

  function Embedded(rt: Runtime, clock: string, raw: Json, depth: nat): Result<map<string, Json>>
    decreases Fuel(depth), 4, 0
  {
    match AsObject(rt, Some(raw))
    case None => Err(BadReference)
    case Some(item) =>
      var s :- Build(rt, clock, item, depth);
      Ok(WithSnapshot(rt, item, s))
  }

  function TextContent(rt: Runtime, item: map<string, Json>): Result<Json> {
    match AsObject(rt, Either(item, "textElem", "TextElem"))
    case Some(o) => Ok(Obj(map["content" := OrElse(Either(o, "content", "Content"), Str(""))]))
    case None => Stored(rt, item)
  }

  function PictureContent(rt: Runtime, item: map<string, Json>): Result<Json> {
    match AsObject(rt, Either(item, "pictureElem", "PictureElem"))
    case Some(o) => Ok(Obj(PictureElem(rt, o)))
    case None =>
      var stored :- Stored(rt, item);
      Ok(Picture(rt, stored))
  }

  function VoiceContent(rt: Runtime, item: map<string, Json>): Result<Json> {
    var elem :- ElemOf(rt, item, "soundElem", "SoundElem");
    Ok(Obj(VoiceElem(rt, elem)))
  }

  function FileContent(rt: Runtime, item: map<string, Json>): Result<Json> {
    var elem :- ElemOf(rt, item, "fileElem", "FileElem");
    Ok(Obj(FileElem(rt, elem)))
  }

  function MergeContent(rt: Runtime, clock: string, item: map<string, Json>, depth: nat): Result<Json>
    requires depth <= 6
    decreases Fuel(depth), 2, 0
  {
    var elem :- ElemOf(rt, item, "mergeElem", "MergeElem");
    Merged(rt, clock, elem, depth)
  }

  function ReferenceElem(rt: Runtime, item: map<string, Json>, atText: bool): Result<map<string, Json>> {
    if atText then ElemOf(rt, item, "atTextElem", "AtTextElem") else ElemOf(rt, item, "quoteElem", "QuoteElem")
  }

  /** Text that names other users, or text that quotes a message. */
  function ReferenceContent(rt: Runtime, clock: string, item: map<string, Json>, depth: nat, atText: bool): Result<Json>
    requires depth <= 6
    decreases Fuel(depth), 2, 0
  {
    var elem :- ReferenceElem(rt, item, atText);
    Reference(rt, clock, elem, depth, atText)
  }

  function Content(rt: Runtime, clock: string, item: map<string, Json>, ct: int, depth: nat): Result<Json>
    requires depth <= 6
    decreases Fuel(depth), 2, 1
  {
    if ct == TEXT then TextContent(rt, item)
    else if ct == AT_TEXT then ReferenceContent(rt, clock, item, depth, true)
    else if ct == QUOTE then ReferenceContent(rt, clock, item, depth, false)
    else if ct == PICTURE then PictureContent(rt, item)
    else if ct == VOICE then VoiceContent(rt, item)
    else if ct == FILE then FileContent(rt, item)
    else if ct == VIDEO then Video(rt, clock, item)
    else if ct == MERGE then MergeContent(rt, clock, item, depth)
    else Stored(rt, item)
  }

  /** buildSnapshot: the measure is the number of levels still allowed. */
  function Build(rt: Runtime, clock: string, item: map<string, Json>, depth: nat): Result<Snapshot>
    decreases Fuel(depth), 3, 0
  {
    if depth > 6 then Err(TooDeep)
    else
      var ct := ContentType(rt, item);
      if !Forwardable(ct) then Err(NotForwardable)
      else
        var content :- Content(rt, clock, item, ct.value, depth);
        Ok(Snapshot(ct.value, content))
  }

  // ----- writing a snapshot back into a message -----

  function ElemKey(ct: int): Option<string> {
    if ct == TEXT then Some("textElem")
    else if ct == PICTURE then Some("pictureElem")
    else if ct == VOICE then Some("soundElem")
    else if ct == VIDEO then Some("videoElem")
    else if ct == FILE then Some("fileElem")
    else if ct == AT_TEXT then Some("atTextElem")
    else if ct == MERGE then Some("mergeElem")
    else if ct == QUOTE then Some("quoteElem")
    else None
  }

  /** The spelling with a capital first letter. */
  function Pascal(key: string): string {
    if key != "" && 'a' <= key[0] <= 'z' then [(key[0] as int - 32) as char] + key[1..] else key
  }

  const IDENTITY_KEYS: seq<string> :=
    ["clientMsgID", "serverMsgID", "sendID", "recvID", "groupID", "sendTime", "createTime", "sessionType", "seq",
     "status", "senderNickname", "senderFaceUrl"]

  function Aliased(o: map<string, Json>, keys: seq<string>): map<string, Json> {
    if keys == [] then o
    else
      var p, key := Aliased(o, keys[..|keys| - 1]), keys[|keys| - 1];
      if key !in p && Pascal(key) in p then p[key := p[Pascal(key)]] else p
  }

  /** Set a key, and its capitalised spelling where that exists. */
  function SetBoth(o: map<string, Json>, key: string, value: Json): map<string, Json> {
    if Pascal(key) in o then o[key := value][Pascal(key) := value] else o[key := value]
  }

  /** withForwardSnapshot: copying plain data through JSON is the identity. */
  function WithSnapshot(rt: Runtime, item: map<string, Json>, s: Snapshot): map<string, Json> {
    var typed := SetBoth(SetBoth(item, "contentType", Num(s.contentType)), "content", Str(rt.stringify(s.content)));
    var known := Aliased(typed, IDENTITY_KEYS);
    match ElemKey(s.contentType)
    case Some(key) => SetBoth(known, key, s.content)
    case None => known
  }

  /** The two spellings of the type and of the content. */
  lemma Spellings()
    ensures Pascal("contentType") == "ContentType" && Pascal("content") == "Content"
    ensures "contentType" != "content" && "ContentType" != "Content"
    ensures "contentType" != "Content" && "content" != "ContentType"
  {
    assert "contentType"[0] == 'c' && "content"[0] == 'c' && "ContentType"[0] == 'C' && "Content"[0] == 'C';
    assert |"contentType"| == 11 && |"content"| == 7 && |"ContentType"| == 11 && |"Content"| == 7;
  }

  /** The copy is filled in key by key: type and content first, */
  method SetContent(item: map<string, Json>, contentType: Json, content: Json) returns (plain: map<string, Json>)
    ensures plain == SetBoth(SetBoth(item, "contentType", contentType), "content", content)
  {
    Spellings();
    plain := item["contentType" := contentType]["content" := content];
    if "ContentType" in plain { plain := plain["ContentType" := contentType]; }
    if "Content" in plain { plain := plain["Content" := content]; }
  }

  /** then the identity of the message, */
  method CopyAliases(typed: map<string, Json>, keys: seq<string>) returns (plain: map<string, Json>)
    ensures plain == Aliased(typed, keys)
  {
    plain := typed;
    for i := 0 to |keys|
      invariant plain == Aliased(typed, keys[..i])
    {
      assert keys[..i + 1][..i] == keys[..i];
      var key := keys[i];
      if key !in plain && Pascal(key) in plain { plain := plain[key := plain[Pascal(key)]]; }
    }
    assert keys[..|keys|] == keys;
  }

  /** then the typed element. */
  method WithForwardSnapshot(rt: Runtime, item: map<string, Json>, s: Snapshot) returns (plain: map<string, Json>)
    ensures plain == WithSnapshot(rt, item, s)
  {
    plain := SetContent(item, Num(s.contentType), Str(rt.stringify(s.content)));
    plain := CopyAliases(plain, IDENTITY_KEYS);
    var name := ElemKey(s.contentType);
    if name.Some? {
      plain := plain[name.value := s.content];
      if Pascal(name.value) in plain { plain := plain[Pascal(name.value) := s.content]; }
    }
  }
}

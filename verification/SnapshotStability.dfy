/**
 Freezing a message twice. A snapshot written into its message is read back unchanged - at every nesting level -
 exactly when no text message on the way keeps its text as a foreign JSON object.
 */
module SnapshotStability {
  import opened Options
  import opened Json
  import opened ForwardSnapshot
  import opened SnapshotWriting
  import opened SnapshotMedia
  import opened SnapshotTree

  /** Stored text that the text element of the snapshot gives back: no JSON object, or exactly `{ content }`. */
  predicate PlainText(rt: Runtime, c: Json) {
    || AsObject(rt, Some(c)).None?
    || (c.Obj? && c.fields.Keys == {"content"} && c.fields["content"] != Null)
  }

  predicate TextSettled(rt: Runtime, item: map<string, Json>) {
    || AsObject(rt, Either(item, "textElem", "TextElem")).Some?
    || (Stored(rt, item).Ok? ==> PlainText(rt, Stored(rt, item).value))
  }

  /** What a single message must meet for its own snapshot to be stable. */
  function KeepsText(rt: Runtime): map<string, Json> -> bool {
    m => ContentType(rt, m) == Some(TEXT) ==> TextSettled(rt, m)
  }

  /** Every text message reached through quotes and merges has its element, or plain stored text. */
  predicate Settled(rt: Runtime, item: map<string, Json>, depth: nat) {
    Every(rt, KeepsText(rt), item, depth)
  }

  // ----- reading a written message -----

  lemma StoredIsNotNull(rt: Runtime, item: map<string, Json>)
    requires Stored(rt, item).Ok?
    ensures Stored(rt, item).value != Null
  {
  }

  lemma ReferenceIsObject(rt: Runtime, clock: string, item: map<string, Json>, depth: nat, atText: bool)
    requires depth <= 6 && ReferenceContent(rt, clock, item, depth, atText).Ok?
    ensures ReferenceContent(rt, clock, item, depth, atText).value.Obj?
  {
  }

  lemma MergeIsObject(rt: Runtime, clock: string, item: map<string, Json>, depth: nat)
    requires depth <= 6 && MergeContent(rt, clock, item, depth).Ok?
    ensures MergeContent(rt, clock, item, depth).value.Obj?
  {
  }

  lemma ContentIsNotNull(rt: Runtime, clock: string, item: map<string, Json>, ct: int, depth: nat)
    requires depth <= 6 && Content(rt, clock, item, ct, depth).Ok?
    ensures Content(rt, clock, item, ct, depth).value != Null
  {
    if Stored(rt, item).Ok? { StoredIsNotNull(rt, item); }
    if ct == AT_TEXT { ReferenceIsObject(rt, clock, item, depth, true); }
    if ct == QUOTE { ReferenceIsObject(rt, clock, item, depth, false); }
    if ct == MERGE { MergeIsObject(rt, clock, item, depth); }
  }

  lemma WrittenReads(rt: Runtime, item: map<string, Json>, s: Snapshot)
    requires Lawful(rt) && s.content != Null
    ensures var w := WithSnapshot(rt, item, s);
            && ContentType(rt, w) == Some(s.contentType)
            && Stored(rt, w) == Ok(s.content)
  {
    WrittenCarries(rt, item, s);
    assert rt.parse(rt.stringify(s.content)) == Some(s.content);
  }

  // ----- text -----

  lemma ContentObject(o: map<string, Json>)
    ensures map["content" := OrElse(Either(o, "content", "Content"), Str(""))] == o
            <==> o.Keys == {"content"} && o["content"] != Null
  {
    var built := map["content" := OrElse(Either(o, "content", "Content"), Str(""))];
    assert built.Keys == {"content"};
    if o.Keys == {"content"} { assert "content" in o; }
  }

  lemma TextAgain(rt: Runtime, item: map<string, Json>, w: map<string, Json>, c: Json)
    requires TextContent(rt, item) == Ok(c) && c != Null
    requires Either(w, "textElem", "TextElem") == Some(c) && Stored(rt, w) == Ok(c)
    ensures TextContent(rt, w) == Ok(c) <==> TextSettled(rt, item)
  {
    if c.Obj? { ContentObject(c.fields); }
  }

  // ----- references -----

  lemma AtUserAgain(rt: Runtime, j: Json)
    ensures AtUser(rt, AtUser(rt, j)) == AtUser(rt, j)
  {
    var e := AtUser(rt, j).fields;
    assert "atUserID"[0] == 'a' && "groupNickname"[0] == 'g';
    FirstSpelling(e, ["atUserID", "AtUserID"]);
    FirstSpelling(e, ["groupNickname", "GroupNickname"]);
  }

  lemma AtUsersAgain(rt: Runtime, raw: Option<Json>)
    ensures AtUsersInfo(rt, Some(AtUsersInfo(rt, raw))) == AtUsersInfo(rt, raw)
  {
    if raw.Some? && raw.value.Arr? {
      forall i | 0 <= i < |raw.value.items|
        ensures AtUser(rt, AtUser(rt, raw.value.items[i])) == AtUser(rt, raw.value.items[i])
      {
        AtUserAgain(rt, raw.value.items[i]);
      }
    }
  }

  function Quoting(base: map<string, Json>, quote: Option<Json>): map<string, Json> {
    match quote case None => base case Some(q) => base["quoteMessage" := q]
  }

  lemma ReferenceKeys()
    ensures LowerFirst("text") && LowerFirst("atUserList") && LowerFirst("atUsersInfo") && LowerFirst("quoteMessage")
    ensures !LowerFirst("Text") && !LowerFirst("AtUserList") && !LowerFirst("AtUsersInfo") && !LowerFirst("QuoteMessage")
  {
  }

  lemma ReferenceFieldsAt(rt: Runtime, elem: map<string, Json>, atText: bool, quote: Option<Json>)
    ensures var base := ReferenceFields(rt, elem, atText);
            var f := Quoting(base, quote);
            && LowerKeys(f)
            && "text" in f && f["text"] == base["text"] != Null
            && (atText ==> "atUserList" in f && f["atUserList"] == base["atUserList"] != Null)
            && (atText ==> "atUsersInfo" in f && f["atUsersInfo"] == AtUsersInfo(rt, Either(elem, "atUsersInfo", "AtUsersInfo")))
            && ("quoteMessage" in f <==> quote.Some?)
            && (quote.Some? ==> f["quoteMessage"] == quote.value)
  {
    ReferenceKeys();
  }

  /** The fields of a reference are read back, and so is its quote. */
  lemma ReferenceFieldsAgain(rt: Runtime, elem: map<string, Json>, atText: bool, quote: Option<Json>)
    requires quote.Some? ==> quote.value.Obj?
    ensures var f := Quoting(ReferenceFields(rt, elem, atText), quote);
            && ReferenceFields(rt, f, atText) == ReferenceFields(rt, elem, atText)
            && QuoteIn(f) == quote
  {
    var f := Quoting(ReferenceFields(rt, elem, atText), quote);
    ReferenceFieldsAt(rt, elem, atText, quote);
    ReferenceKeys();
    EitherLower(f, "text", "Text");
    EitherLower(f, "atUserList", "AtUserList");
    EitherLower(f, "atUsersInfo", "AtUsersInfo");
    EitherLower(f, "quoteMessage", "QuoteMessage");
    AtUsersAgain(rt, Either(elem, "atUsersInfo", "AtUsersInfo"));
  }

  lemma ReferenceAgain(rt: Runtime, clock: string, later: string, elem: map<string, Json>, depth: nat, atText: bool)
    requires Lawful(rt) && depth <= 6 && Reference(rt, clock, elem, depth, atText).Ok?
    ensures var c := Reference(rt, clock, elem, depth, atText).value;
            c.Obj? && (Reference(rt, later, c.fields, depth, atText) == Ok(c) <==> EveryQuoted(rt, KeepsText(rt), Ok(elem), depth))
    decreases Fuel(depth), 1, 0
  {
    hide Lawful;
    var base := ReferenceFields(rt, elem, atText);
    match QuoteIn(elem)
    case None =>
      ReferenceFieldsAgain(rt, elem, atText, None);
    case Some(quote) =>
      var m := Embedded(rt, clock, quote, depth + 1).value;
      EmbeddedAgain(rt, clock, later, quote, depth + 1);
      ReferenceFieldsAgain(rt, elem, atText, Some(Obj(m)));
      var f := Quoting(base, Some(Obj(m)));
      var again := Embedded(rt, later, Obj(m), depth + 1);
      if again.Ok? && base["quoteMessage" := Obj(again.value)] == f {
        assert base["quoteMessage" := Obj(again.value)]["quoteMessage"] == f["quoteMessage"];
      }
  }

  /** The message inside a quote or a merge. */
  lemma EmbeddedAgain(rt: Runtime, clock: string, later: string, raw: Json, depth: nat)
    requires Lawful(rt) && Embedded(rt, clock, raw, depth).Ok?
    ensures var m := Embedded(rt, clock, raw, depth).value;
            Embedded(rt, later, Obj(m), depth) == Ok(m) <==> EveryEmbedded(rt, KeepsText(rt), raw, depth)
    decreases Fuel(depth), 4, 0
  {
    var item := AsObject(rt, Some(raw)).value;
    var s := Build(rt, clock, item, depth).value;
    var m := WithSnapshot(rt, item, s);
    StableExactlyWhenSettled(rt, clock, later, item, depth);
    AsObjectOfObject(rt, m);
    WritingIsIdempotent(rt, item, s);
    var again := Build(rt, later, m, depth);
    if again.Ok? && WithSnapshot(rt, m, again.value) == m {
      WritingIsInjective(rt, m, again.value, item, s);
    }
  }

  lemma EmbedAllAgain(rt: Runtime, clock: string, later: string, items: seq<Json>, depth: nat)
    requires Lawful(rt) && EmbedAll(rt, clock, items, depth).Ok?
    ensures var ms := EmbedAll(rt, clock, items, depth).value;
            EmbedAll(rt, later, ms, depth) == Ok(ms) <==> forall raw <- items :: EveryEmbedded(rt, KeepsText(rt), raw, depth)
    decreases Fuel(depth), 5, |items|
  {
    hide Lawful;
    if items != [] {
      var n := |items| - 1;
      var front, last := items[..n], items[n];
      var ms := EmbedAll(rt, clock, items, depth).value;
      EmbedAllAgain(rt, clock, later, front, depth);
      EmbeddedAgain(rt, clock, later, last, depth);
      assert ms[..n] == EmbedAll(rt, clock, front, depth).value;
      assert items == front + [last];
      var f, l := EmbedAll(rt, later, ms[..n], depth), Embedded(rt, later, ms[n], depth);
      if f.Ok? && l.Ok? {
        assert f.value + [Obj(l.value)] == ms <==> f.value == ms[..n] && Obj(l.value) == ms[n] by {
          assert (f.value + [Obj(l.value)])[..n] == f.value;
          assert ms == ms[..n] + [ms[n]];
        }
      }
    }
  }

  // ----- merges -----

  lemma MergeKeys()
    ensures LowerFirst("title") && LowerFirst("abstractList") && LowerFirst("multiMessage") && LowerFirst("messageEntityList")
    ensures !LowerFirst("Title") && !LowerFirst("AbstractList") && !LowerFirst("MultiMessage") && !LowerFirst("MessageEntityList")
    ensures "abstractList" != "multiMessage"
  {
    assert "abstractList"[0] == 'a' && "multiMessage"[0] == 'm';
  }

  lemma MergeFieldsAgain(elem: map<string, Json>, messages: seq<Json>)
    ensures var f := MergeFields(elem, messages);
            && "multiMessage" in f && f["multiMessage"] == Arr(messages)
            && Either(f, "multiMessage", "MultiMessage") == Some(Arr(messages))
            && MergeFields(f, messages) == f
  {
    var f := MergeFields(elem, messages);
    MergeKeys();
    assert LowerKeys(f);
    EitherLower(f, "title", "Title");
    EitherLower(f, "abstractList", "AbstractList");
    EitherLower(f, "multiMessage", "MultiMessage");
    EitherLower(f, "messageEntityList", "MessageEntityList");
  }

  lemma MergeAgain(rt: Runtime, clock: string, later: string, elem: map<string, Json>, depth: nat)
    requires Lawful(rt) && depth <= 6 && Merged(rt, clock, elem, depth).Ok?
    ensures var c := Merged(rt, clock, elem, depth).value;
            c.Obj? && (Merged(rt, later, c.fields, depth) == Ok(c) <==> EveryMerged(rt, KeepsText(rt), Ok(elem), depth))
    decreases Fuel(depth), 1, 0
  {
    hide Lawful;
    var items := MergedItems(rt, elem).value;
    var ms := EmbedAll(rt, clock, items, depth + 1).value;
    var f := MergeFields(elem, ms);
    EmbedAllAgain(rt, clock, later, items, depth + 1);
    MergeFieldsAgain(elem, ms);
    var again := EmbedAll(rt, later, ms, depth + 1);
    if again.Ok? && MergeFields(f, again.value) == f {
      MergeFieldsAgain(f, again.value);
    }
  }

  // ----- media -----

  lemma VideoMessageAgain(rt: Runtime, clock: string, later: string, item: map<string, Json>, w: map<string, Json>,
                          c: Json)
    requires Lawful(rt) && Video(rt, clock, item) == Ok(c) && Either(w, "videoElem", "VideoElem") == Some(c)
    ensures Video(rt, later, w) == Ok(c)
  {
    hide VideoElem, VideoUrl, FallbackId;
    VideoAgain(rt, VideoSource(rt, item), FallbackId(rt, clock, item), FallbackId(rt, later, w));
  }

  lemma PictureMessageAgain(rt: Runtime, item: map<string, Json>, w: map<string, Json>, c: Json)
    requires Lawful(rt) && PictureContent(rt, item) == Ok(c)
    requires Either(w, "pictureElem", "PictureElem") == Some(c) && Stored(rt, w) == Ok(c)
    ensures PictureContent(rt, w) == Ok(c)
  {
    hide Lawful;
    forall o: map<string, Json>
      ensures PictureElem(rt, PictureElem(rt, o)) == PictureElem(rt, o)
    {
      PictureAgain(rt, o);
    }
  }

  lemma VoiceMessageAgain(rt: Runtime, item: map<string, Json>, w: map<string, Json>, c: Json)
    requires Lawful(rt) && VoiceContent(rt, item) == Ok(c) && Either(w, "soundElem", "SoundElem") == Some(c)
    ensures VoiceContent(rt, w) == Ok(c)
  {
    VoiceAgain(rt, ElemOf(rt, item, "soundElem", "SoundElem").value);
  }

  lemma FileMessageAgain(rt: Runtime, item: map<string, Json>, w: map<string, Json>, c: Json)
    requires Lawful(rt) && FileContent(rt, item) == Ok(c) && Either(w, "fileElem", "FileElem") == Some(c)
    ensures FileContent(rt, w) == Ok(c)
  {
    FileAgain(rt, ElemOf(rt, item, "fileElem", "FileElem").value);
  }

  // ----- any message -----

  /** The typed element under the name of its type. */
  function ElemAt(rt: Runtime, item: map<string, Json>, ct: int): Option<Json> {
    if ct == TEXT then Either(item, "textElem", "TextElem")
    else if ct == PICTURE then Either(item, "pictureElem", "PictureElem")
    else if ct == VOICE then Either(item, "soundElem", "SoundElem")
    else if ct == VIDEO then Either(item, "videoElem", "VideoElem")
    else if ct == FILE then Either(item, "fileElem", "FileElem")
    else if ct == AT_TEXT then Either(item, "atTextElem", "AtTextElem")
    else if ct == MERGE then Either(item, "mergeElem", "MergeElem")
    else if ct == QUOTE then Either(item, "quoteElem", "QuoteElem")
    else None
  }

  lemma WrittenElemAt(rt: Runtime, item: map<string, Json>, s: Snapshot)
    requires s.content != Null && ElemKey(s.contentType).Some?
    ensures ElemAt(rt, WithSnapshot(rt, item, s), s.contentType) == Some(s.content)
  {
    WrittenCarries(rt, item, s);
  }

  lemma PlainContentAgain(rt: Runtime, clock: string, later: string, item: map<string, Json>, w: map<string, Json>,
                          ct: int, c: Json, depth: nat)
    requires Lawful(rt) && depth <= 6 && ct !in {AT_TEXT, QUOTE, MERGE} && ContentType(rt, item) == Some(ct)
    requires Content(rt, clock, item, ct, depth) == Ok(c) && c != Null
    requires ElemKey(ct).Some? ==> ElemAt(rt, w, ct) == Some(c)
    requires Stored(rt, w) == Ok(c)
    ensures Content(rt, later, w, ct, depth) == Ok(c) <==> Settled(rt, item, depth)
  {
    if ct == TEXT {
      TextAgain(rt, item, w, c);
    } else if ct == PICTURE {
      PictureMessageAgain(rt, item, w, c);
    } else if ct == VOICE {
      VoiceMessageAgain(rt, item, w, c);
    } else if ct == VIDEO {
      VideoMessageAgain(rt, clock, later, item, w, c);
    } else if ct == FILE {
      FileMessageAgain(rt, item, w, c);
    }
  }

  lemma ElemOfObject(rt: Runtime, w: map<string, Json>, key: string, alias: string, o: map<string, Json>)
    requires Either(w, key, alias) == Some(Obj(o))
    ensures ElemOf(rt, w, key, alias) == Ok(o)
  {
  }

  lemma ReferenceElemAt(rt: Runtime, w: map<string, Json>, o: map<string, Json>, atText: bool)
    requires ElemAt(rt, w, if atText then AT_TEXT else QUOTE) == Some(Obj(o))
    ensures ReferenceElem(rt, w, atText) == Ok(o)
  {
  }

  lemma ReferenceContentAgain(rt: Runtime, clock: string, later: string, item: map<string, Json>, w: map<string, Json>,
                              c: Json, depth: nat, atText: bool)
    requires Lawful(rt) && depth <= 6 && ReferenceContent(rt, clock, item, depth, atText) == Ok(c)
    requires ElemAt(rt, w, if atText then AT_TEXT else QUOTE) == Some(c)
    ensures ReferenceContent(rt, later, w, depth, atText) == Ok(c) <==>
            EveryQuoted(rt, KeepsText(rt), ReferenceElem(rt, item, atText), depth)
    decreases Fuel(depth), 2, 0
  {
    hide Lawful;
    var elem := ReferenceElem(rt, item, atText);
    ReferenceAgain(rt, clock, later, elem.value, depth, atText);
    ReferenceElemAt(rt, w, c.fields, atText);
  }

  lemma MergeContentAgain(rt: Runtime, clock: string, later: string, item: map<string, Json>, w: map<string, Json>,
                          c: Json, depth: nat)
    requires Lawful(rt) && depth <= 6 && MergeContent(rt, clock, item, depth) == Ok(c)
    requires ElemAt(rt, w, MERGE) == Some(c)
    ensures MergeContent(rt, later, w, depth) == Ok(c) <==>
            EveryMerged(rt, KeepsText(rt), ElemOf(rt, item, "mergeElem", "MergeElem"), depth)
    decreases Fuel(depth), 2, 0
  {
    hide Lawful;
    var elem := ElemOf(rt, item, "mergeElem", "MergeElem");
    MergeAgain(rt, clock, later, elem.value, depth);
    ElemOfObject(rt, w, "mergeElem", "MergeElem", c.fields);
  }

  lemma ContentAgain(rt: Runtime, clock: string, later: string, item: map<string, Json>, w: map<string, Json>,
                     ct: int, c: Json, depth: nat)
    requires Lawful(rt) && depth <= 6 && ContentType(rt, item) == Some(ct)
    requires Content(rt, clock, item, ct, depth) == Ok(c) && c != Null
    requires ElemKey(ct).Some? ==> ElemAt(rt, w, ct) == Some(c)
    requires Stored(rt, w) == Ok(c)
    ensures Content(rt, later, w, ct, depth) == Ok(c) <==> Settled(rt, item, depth)
    decreases Fuel(depth), 2, 1
  {
    hide Lawful;
    if ct == AT_TEXT {
      ReferenceContentAgain(rt, clock, later, item, w, c, depth, true);
    } else if ct == QUOTE {
      ReferenceContentAgain(rt, clock, later, item, w, c, depth, false);
    } else if ct == MERGE {
      MergeContentAgain(rt, clock, later, item, w, c, depth);
    } else {
      PlainContentAgain(rt, clock, later, item, w, ct, c, depth);
    }
  }

  /** Main result: building again from the written message, at any later moment, gives the same snapshot
      exactly when the message is settled. */
  lemma StableExactlyWhenSettled(rt: Runtime, clock: string, later: string, item: map<string, Json>, depth: nat)
    requires Lawful(rt) && Build(rt, clock, item, depth).Ok?
    ensures var s := Build(rt, clock, item, depth).value;
            Build(rt, later, WithSnapshot(rt, item, s), depth) == Ok(s) <==> Settled(rt, item, depth)
    decreases Fuel(depth), 3, 0
  {
    var s := Build(rt, clock, item, depth).value;
    ContentIsNotNull(rt, clock, item, s.contentType, depth);
    WrittenReads(rt, item, s);
    if ElemKey(s.contentType).Some? { WrittenElemAt(rt, item, s); }
    ContentAgain(rt, clock, later, item, WithSnapshot(rt, item, s), s.contentType, s.content, depth);
  }
}

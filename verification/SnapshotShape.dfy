/** What a successful snapshot guarantees at every level: bounded nesting, empty path fields, remote videos. */
module SnapshotShape {
  import opened Options
  import opened Json
  import opened ForwardSnapshot
  import opened SnapshotWriting
  import opened SnapshotMedia
  import opened SnapshotTree
  import Stability = SnapshotStability

  ghost predicate Blank(content: Json, key: string) {
    content.Obj? && key in content.fields && content.fields[key] == Str("")
  }

  ghost predicate Remote(rt: Runtime, content: Json, key: string) {
    content.Obj? && key in content.fields && content.fields[key].Str? && rt.isHttp(content.fields[key].s)
  }

  /** The path fields of a media element are empty and the address of a video is remote. What the other addresses may
      still say is the subject of SnapshotAddresses. */
  ghost predicate Scrubbed(rt: Runtime, ct: int, content: Json) {
    && (ct == VOICE ==> Blank(content, "soundPath"))
    && (ct == FILE ==> Blank(content, "filePath"))
    && (ct == VIDEO ==> Blank(content, "videoPath") && Blank(content, "snapshotPath") && Remote(rt, content, "videoUrl")
                        && (Blank(content, "snapshotUrl") || Remote(rt, content, "snapshotUrl")))
    && (ct == PICTURE ==> Blank(content, "sourcePath") || AsObject(rt, Some(content)).None?)
  }

  /** The snapshot that a written message carries. */
  function Carried(rt: Runtime, j: Json): Option<Snapshot> {
    if j.Obj? && "contentType" in j.fields && j.fields["contentType"].Num? && "content" in j.fields && j.fields["content"].Str?
       && rt.parse(j.fields["content"].s).Some?
    then Some(Snapshot(j.fields["contentType"].n, rt.parse(j.fields["content"].s).value))
    else None
  }

  ghost predicate FrozenReference(rt: Runtime, c: Json, levels: nat)
    decreases levels, 0
  {
    c.Obj? && ("quoteMessage" in c.fields ==> levels > 0 && FrozenMessage(rt, c.fields["quoteMessage"], levels - 1))
  }

  ghost predicate FrozenMerge(rt: Runtime, c: Json, levels: nat)
    decreases levels, 0
  {
    && c.Obj? && "multiMessage" in c.fields && c.fields["multiMessage"].Arr?
    && c.fields["multiMessage"].items != [] && levels > 0
    && forall m <- c.fields["multiMessage"].items :: FrozenMessage(rt, m, levels - 1)
  }

  /** A snapshot with at most `levels` levels of messages inside it, path fields emptied everywhere. */
  ghost predicate Frozen(rt: Runtime, s: Snapshot, levels: nat)
    decreases levels, 1
  {
    && s.contentType != 0 && s.contentType < 1000
    && Scrubbed(rt, s.contentType, s.content)
    && (s.contentType in {AT_TEXT, QUOTE} ==> FrozenReference(rt, s.content, levels))
    && (s.contentType == MERGE ==> FrozenMerge(rt, s.content, levels))
  }

  /** A message inside a snapshot: every spelling of its type, content and element says the same. */
  ghost predicate FrozenMessage(rt: Runtime, j: Json, levels: nat)
    decreases levels, 2
  {
    && Carried(rt, j).Some?
    && Carries(j.fields, Num(Carried(rt, j).value.contentType), j.fields["content"])
    && CarriesElem(j.fields, Carried(rt, j).value)
    && Frozen(rt, Carried(rt, j).value, levels)
  }

  lemma WrittenIsCarried(rt: Runtime, item: map<string, Json>, s: Snapshot)
    requires Lawful(rt)
    ensures Carried(rt, Obj(WithSnapshot(rt, item, s))) == Some(s)
  {
    WrittenCarries(rt, item, s);
    assert rt.parse(rt.stringify(s.content)) == Some(s.content);
  }

  // ----- one level -----

  lemma PreferredIsRemote(rt: Runtime, item: map<string, Json>, clock: string)
    requires Video(rt, clock, item).Ok?
    ensures Scrubbed(rt, VIDEO, Video(rt, clock, item).value)
  {
    var o, fallback := VideoSource(rt, item), FallbackId(rt, clock, item);
    VideoPartFields(rt, o, fallback);
    CoverPartFields(rt, o, fallback);
    VideoFields(rt, o, fallback);
  }

  lemma PictureIsScrubbed(rt: Runtime, item: map<string, Json>)
    requires PictureContent(rt, item).Ok?
    ensures Scrubbed(rt, PICTURE, PictureContent(rt, item).value)
  {
    forall o: map<string, Json>
      ensures Blank(Obj(PictureElem(rt, o)), "sourcePath")
    {
      PictureHasNoPath(rt, o);
    }
  }

  lemma PictureHasNoPath(rt: Runtime, o: map<string, Json>)
    ensures "sourcePath" in PictureElem(rt, o) && PictureElem(rt, o)["sourcePath"] == Str("")
  {
    var source0 := PictureAt(rt, o, "sourcePicture", "SourcePicture");
    var big0 := PictureAt(rt, o, "bigPicture", "BigPicture");
    var small0 := PictureAt(rt, o, "snapshotPicture", "SnapshotPicture");
    var fallback := FirstType(rt, [source0, big0, small0]);
    var source := Typed(rt, source0, fallback);
    PictureKeys();
    PicturesAt("sourcePath", "sourcePicture", "bigPicture", "snapshotPicture", source,
               if big0.Some? then Typed(rt, big0, fallback) else source,
               if small0.Some? then Typed(rt, small0, fallback) else source);
  }

  lemma ContentIsScrubbed(rt: Runtime, clock: string, item: map<string, Json>, ct: int, depth: nat)
    requires depth <= 6 && Content(rt, clock, item, ct, depth).Ok?
    ensures Scrubbed(rt, ct, Content(rt, clock, item, ct, depth).value)
  {
    if ct == VOICE {
      VoiceFields(rt, ElemOf(rt, item, "soundElem", "SoundElem").value);
    } else if ct == FILE {
      FileFields(rt, ElemOf(rt, item, "fileElem", "FileElem").value);
    } else if ct == VIDEO {
      PreferredIsRemote(rt, item, clock);
    } else if ct == PICTURE {
      PictureIsScrubbed(rt, item);
    }
  }

  // ----- all levels -----

  lemma EmbeddedIsFrozen(rt: Runtime, clock: string, raw: Json, depth: nat)
    requires Lawful(rt) && Embedded(rt, clock, raw, depth).Ok?
    ensures depth <= 6 && FrozenMessage(rt, Obj(Embedded(rt, clock, raw, depth).value), 6 - depth)
    decreases Fuel(depth), 4, 0
  {
    var item := AsObject(rt, Some(raw)).value;
    var s := Build(rt, clock, item, depth).value;
    SnapshotIsFrozen(rt, clock, item, depth);
    WrittenIsCarried(rt, item, s);
    WrittenCarries(rt, item, s);
  }

  lemma EmbedAllIsFrozen(rt: Runtime, clock: string, items: seq<Json>, depth: nat)
    requires Lawful(rt) && EmbedAll(rt, clock, items, depth).Ok? && depth <= 7
    requires items != [] ==> depth <= 6
    ensures forall m <- EmbedAll(rt, clock, items, depth).value :: depth <= 6 && FrozenMessage(rt, m, 6 - depth)
    decreases Fuel(depth), 5, |items|
  {
    hide Lawful;
    if items != [] {
      EmbedAllIsFrozen(rt, clock, items[..|items| - 1], depth);
      EmbeddedIsFrozen(rt, clock, items[|items| - 1], depth);
    }
  }

  lemma DeepEmbedAllFails(rt: Runtime, clock: string, items: seq<Json>)
    requires items != []
    ensures EmbedAll(rt, clock, items, 7).Err?
  {
    assert Embedded(rt, clock, items[|items| - 1], 7).Err?;
  }

  lemma ReferenceParts(rt: Runtime, clock: string, elem: map<string, Json>, depth: nat, atText: bool)
    requires depth <= 6 && Reference(rt, clock, elem, depth, atText).Ok?
    ensures Reference(rt, clock, elem, depth, atText).value.Obj?
    ensures var f, quote := Reference(rt, clock, elem, depth, atText).value.fields, QuoteIn(elem);
            && ("quoteMessage" in f <==> quote.Some?)
            && (quote.Some? ==> Embedded(rt, clock, quote.value, depth + 1).Ok?
                                && f["quoteMessage"] == Obj(Embedded(rt, clock, quote.value, depth + 1).value))
  {
    Stability.ReferenceFieldsAt(rt, elem, atText, None);
  }

  lemma EmbedAllParts(rt: Runtime, clock: string, items: seq<Json>, depth: nat)
    requires items != [] && EmbedAll(rt, clock, items, depth).Ok?
    ensures EmbedAll(rt, clock, items[..|items| - 1], depth).Ok? && Embedded(rt, clock, items[|items| - 1], depth).Ok?
    ensures EmbedAll(rt, clock, items, depth).value ==
            EmbedAll(rt, clock, items[..|items| - 1], depth).value + [Obj(Embedded(rt, clock, items[|items| - 1], depth).value)]
  {
  }

  lemma ReferenceIsFrozen(rt: Runtime, clock: string, elem: map<string, Json>, depth: nat, atText: bool)
    requires Lawful(rt) && depth <= 6 && Reference(rt, clock, elem, depth, atText).Ok?
    ensures FrozenReference(rt, Reference(rt, clock, elem, depth, atText).value, 6 - depth)
    decreases Fuel(depth), 1, 0
  {
    hide Lawful;
    hide Reference, Embedded, QuoteIn;
    ReferenceParts(rt, clock, elem, depth, atText);
    match QuoteIn(elem)
    case None =>
    case Some(quote) => EmbeddedIsFrozen(rt, clock, quote, depth + 1);
  }

  lemma MergedParts(rt: Runtime, clock: string, elem: map<string, Json>, depth: nat)
    requires depth <= 6 && Merged(rt, clock, elem, depth).Ok?
    ensures MergedItems(rt, elem).Ok? && MergedItems(rt, elem).value != []
    ensures EmbedAll(rt, clock, MergedItems(rt, elem).value, depth + 1).Ok?
    ensures var ms := EmbedAll(rt, clock, MergedItems(rt, elem).value, depth + 1).value;
            && Merged(rt, clock, elem, depth) == Ok(Obj(MergeFields(elem, ms)))
            && "multiMessage" in MergeFields(elem, ms) && MergeFields(elem, ms)["multiMessage"] == Arr(ms)
  {
    Stability.MergeFieldsAgain(elem, EmbedAll(rt, clock, MergedItems(rt, elem).value, depth + 1).value);
  }

  lemma FrozenMergeAt(rt: Runtime, c: Json, ms: seq<Json>, levels: nat)
    requires c.Obj? && "multiMessage" in c.fields && c.fields["multiMessage"] == Arr(ms) && ms != [] && levels > 0
    requires forall m <- ms :: FrozenMessage(rt, m, levels - 1)
    ensures FrozenMerge(rt, c, levels)
  {
    hide FrozenMessage;
  }

  lemma MergeIsFrozen(rt: Runtime, clock: string, elem: map<string, Json>, depth: nat)
    requires Lawful(rt) && depth <= 6 && Merged(rt, clock, elem, depth).Ok?
    ensures FrozenMerge(rt, Merged(rt, clock, elem, depth).value, 6 - depth)
    decreases Fuel(depth), 1, 0
  {
    hide Lawful;
    MergedParts(rt, clock, elem, depth);
    var items := MergedItems(rt, elem).value;
    if depth == 6 { DeepEmbedAllFails(rt, clock, items); }
    hide Merged, EmbedAll, MergedItems, MergeFields, FrozenMessage, FrozenMerge;
    EmbedAllIsFrozen(rt, clock, items, depth + 1);
    FrozenMergeAt(rt, Merged(rt, clock, elem, depth).value, EmbedAll(rt, clock, items, depth + 1).value, 6 - depth);
  }

  lemma BuildParts(rt: Runtime, clock: string, item: map<string, Json>, depth: nat)
    requires Build(rt, clock, item, depth).Ok?
    ensures depth <= 6
    ensures var s := Build(rt, clock, item, depth).value;
            && ContentType(rt, item) == Some(s.contentType)
            && (s.contentType in {AT_TEXT, QUOTE} ==>
                  var elem := ReferenceElem(rt, item, s.contentType == AT_TEXT);
                  elem.Ok? && Reference(rt, clock, elem.value, depth, s.contentType == AT_TEXT) == Ok(s.content))
            && (s.contentType == MERGE ==>
                  var elem := ElemOf(rt, item, "mergeElem", "MergeElem");
                  elem.Ok? && Merged(rt, clock, elem.value, depth) == Ok(s.content))
  {
    var s := Build(rt, clock, item, depth).value;
    assert Content(rt, clock, item, s.contentType, depth) == Ok(s.content);
    if s.contentType in {AT_TEXT, QUOTE} {
      assert ReferenceContent(rt, clock, item, depth, s.contentType == AT_TEXT) == Ok(s.content);
    } else if s.contentType == MERGE {
      assert MergeContent(rt, clock, item, depth) == Ok(s.content);
    }
  }

  /** Main result: whatever the message, a successful snapshot nests at most `6 - depth` levels, with empty path
      fields and remote videos in each. */
  lemma SnapshotIsFrozen(rt: Runtime, clock: string, item: map<string, Json>, depth: nat)
    requires Lawful(rt) && Build(rt, clock, item, depth).Ok?
    ensures depth <= 6 && Frozen(rt, Build(rt, clock, item, depth).value, 6 - depth)
    decreases Fuel(depth), 3, 0
  {
    var s := Build(rt, clock, item, depth).value;
    ContentIsScrubbed(rt, clock, item, s.contentType, depth);
    if s.contentType == AT_TEXT {
      ReferenceIsFrozen(rt, clock, ReferenceElem(rt, item, true).value, depth, true);
    } else if s.contentType == QUOTE {
      ReferenceIsFrozen(rt, clock, ReferenceElem(rt, item, false).value, depth, false);
    } else if s.contentType == MERGE {
      MergeIsFrozen(rt, clock, ElemOf(rt, item, "mergeElem", "MergeElem").value, depth);
    }
  }

  // ----- the bound is exact -----

  /** A text quoted `n` times over. */
  function Chain(n: nat): map<string, Json> {
    if n == 0 then map["contentType" := Num(TEXT), "textElem" := Obj(map["content" := Str("x")])]
    else map["contentType" := Num(QUOTE), "quoteElem" := Obj(map["quoteMessage" := Obj(Chain(n - 1))])]
  }

  lemma ChainReads(rt: Runtime, n: nat)
    requires Lawful(rt)
    ensures ContentType(rt, Chain(n)) == Some(if n == 0 then TEXT else QUOTE)
    ensures n == 0 ==> TextContent(rt, Chain(n)).Ok?
    ensures n > 0 ==> ReferenceElem(rt, Chain(n), false) == Ok(map["quoteMessage" := Obj(Chain(n - 1))])
    ensures n > 0 ==> QuoteIn(map["quoteMessage" := Obj(Chain(n - 1))]) == Some(Obj(Chain(n - 1)))
  {
    assert "contentType"[0] == 'c' && "textElem"[0] == 't' && "quoteElem"[0] == 'q';
  }

  lemma ChainStep(rt: Runtime, clock: string, n: nat, depth: nat)
    requires Lawful(rt) && n > 0 && depth <= 6
    ensures Build(rt, clock, Chain(n), depth).Ok? <==> Build(rt, clock, Chain(n - 1), depth + 1).Ok?
  {
    ChainReads(rt, n);
    var elem := map["quoteMessage" := Obj(Chain(n - 1))];
    assert Build(rt, clock, Chain(n), depth).Ok? <==> ReferenceContent(rt, clock, Chain(n), depth, false).Ok?;
    assert ReferenceContent(rt, clock, Chain(n), depth, false) == Reference(rt, clock, elem, depth, false);
    assert Reference(rt, clock, elem, depth, false).Ok? <==> Embedded(rt, clock, Obj(Chain(n - 1)), depth + 1).Ok?;
    AsObjectOfObject(rt, Chain(n - 1));
  }

  lemma ChainEnd(rt: Runtime, clock: string, depth: nat)
    requires Lawful(rt) && depth <= 6
    ensures Build(rt, clock, Chain(0), depth).Ok?
  {
    ChainReads(rt, 0);
  }

  /** Six levels of quotes can be forwarded, seven cannot. */
  lemma {:induction false} ChainFits(rt: Runtime, clock: string, n: nat, depth: nat)
    requires Lawful(rt)
    ensures Build(rt, clock, Chain(n), depth).Ok? <==> depth + n <= 6
    decreases n
  {
    hide Lawful;
    if depth <= 6 {
      if n == 0 {
        ChainEnd(rt, clock, depth);
      } else {
        hide Chain, Content;
        ChainStep(rt, clock, n, depth);
        ChainFits(rt, clock, n - 1, depth + 1);
      }
    }
  }

  // ----- a property of every message -----

  ghost predicate Inside(rt: Runtime, q: Snapshot -> bool, j: Json, levels: nat)
    decreases levels, 2
  {
    Carried(rt, j).Some? ==> Everywhere(rt, q, Carried(rt, j).value, levels)
  }

  ghost predicate InQuote(rt: Runtime, q: Snapshot -> bool, c: Json, levels: nat)
    decreases levels, 0
  {
    levels > 0 && c.Obj? && "quoteMessage" in c.fields ==> Inside(rt, q, c.fields["quoteMessage"], levels - 1)
  }

  ghost predicate InMerge(rt: Runtime, q: Snapshot -> bool, c: Json, levels: nat)
    decreases levels, 0
  {
    levels > 0 && c.Obj? && "multiMessage" in c.fields && c.fields["multiMessage"].Arr? ==>
      forall m <- c.fields["multiMessage"].items :: Inside(rt, q, m, levels - 1)
  }

  /** The snapshot and every snapshot inside it meet `q`. */
  ghost predicate Everywhere(rt: Runtime, q: Snapshot -> bool, s: Snapshot, levels: nat)
    decreases levels, 1
  {
    && q(s)
    && (s.contentType in {AT_TEXT, QUOTE} ==> InQuote(rt, q, s.content, levels))
    && (s.contentType == MERGE ==> InMerge(rt, q, s.content, levels))
  }

  /** A message meets `p` exactly when its own snapshot meets `q`. */
  ghost predicate Mirrors(rt: Runtime, clock: string, p: map<string, Json> -> bool, q: Snapshot -> bool) {
    forall item, depth: nat {:trigger Build(rt, clock, item, depth)} ::
      Build(rt, clock, item, depth).Ok? ==> (p(item) <==> q(Build(rt, clock, item, depth).value))
  }

  lemma EmbeddedMirrors(rt: Runtime, clock: string, p: map<string, Json> -> bool, q: Snapshot -> bool, raw: Json, depth: nat)
    requires Lawful(rt) && Mirrors(rt, clock, p, q) && Embedded(rt, clock, raw, depth).Ok? && depth <= 6
    ensures Inside(rt, q, Obj(Embedded(rt, clock, raw, depth).value), 6 - depth) <==> EveryEmbedded(rt, p, raw, depth)
    decreases Fuel(depth), 4, 0
  {
    var item := AsObject(rt, Some(raw)).value;
    hide Mirrors;
    EverywhereMirrors(rt, clock, p, q, item, depth);
    WrittenIsCarried(rt, item, Build(rt, clock, item, depth).value);
  }

  lemma InsideAppend(rt: Runtime, q: Snapshot -> bool, ms: seq<Json>, x: Json, levels: nat)
    ensures (forall m <- ms + [x] :: Inside(rt, q, m, levels)) <==>
            (forall m <- ms :: Inside(rt, q, m, levels)) && Inside(rt, q, x, levels)
  {
    hide Inside;
    assert x in ms + [x] && forall m <- ms :: m in ms + [x];
  }

  lemma EveryEmbeddedAppend(rt: Runtime, p: map<string, Json> -> bool, items: seq<Json>, x: Json, depth: nat)
    ensures (forall raw <- items + [x] :: EveryEmbedded(rt, p, raw, depth)) <==>
            (forall raw <- items :: EveryEmbedded(rt, p, raw, depth)) && EveryEmbedded(rt, p, x, depth)
  {
    hide EveryEmbedded;
    assert x in items + [x] && forall raw <- items :: raw in items + [x];
  }

  lemma EmbedAllMirrors(rt: Runtime, clock: string, p: map<string, Json> -> bool, q: Snapshot -> bool, items: seq<Json>,
                        depth: nat)
    requires Lawful(rt) && Mirrors(rt, clock, p, q) && EmbedAll(rt, clock, items, depth).Ok? && depth <= 6
    ensures (forall m <- EmbedAll(rt, clock, items, depth).value :: Inside(rt, q, m, 6 - depth))
            <==> (forall raw <- items :: EveryEmbedded(rt, p, raw, depth))
    decreases Fuel(depth), 5, |items|
  {
    hide Lawful;
    hide Embedded, EveryEmbedded, Inside, Mirrors;
    if items != [] {
      var front, last := items[..|items| - 1], items[|items| - 1];
      EmbedAllParts(rt, clock, items, depth);
      EmbedAllMirrors(rt, clock, p, q, front, depth);
      EmbeddedMirrors(rt, clock, p, q, last, depth);
      assert items == front + [last];
      InsideAppend(rt, q, EmbedAll(rt, clock, front, depth).value, Obj(Embedded(rt, clock, last, depth).value), 6 - depth);
      EveryEmbeddedAppend(rt, p, front, last, depth);
    }
  }

  lemma ReferenceMirrors(rt: Runtime, clock: string, p: map<string, Json> -> bool, q: Snapshot -> bool,
                         elem: map<string, Json>, depth: nat, atText: bool)
    requires Lawful(rt) && Mirrors(rt, clock, p, q) && depth <= 6 && Reference(rt, clock, elem, depth, atText).Ok?
    ensures InQuote(rt, q, Reference(rt, clock, elem, depth, atText).value, 6 - depth)
            <==> EveryQuoted(rt, p, Ok(elem), depth)
    decreases Fuel(depth), 1, 0
  {
    hide Lawful;
    hide Reference, Embedded, QuoteIn, Mirrors, FrozenMessage;
    ReferenceParts(rt, clock, elem, depth, atText);
    match QuoteIn(elem)
    case None =>
    case Some(quote) =>
      EmbeddedIsFrozen(rt, clock, quote, depth + 1);
      EmbeddedMirrors(rt, clock, p, q, quote, depth + 1);
  }

  lemma InMergeAt(rt: Runtime, q: Snapshot -> bool, c: Json, ms: seq<Json>, levels: nat)
    requires c.Obj? && "multiMessage" in c.fields && c.fields["multiMessage"] == Arr(ms) && levels > 0
    ensures InMerge(rt, q, c, levels) <==> forall m <- ms :: Inside(rt, q, m, levels - 1)
  {
    hide Inside;
  }

  lemma MergeMirrors(rt: Runtime, clock: string, p: map<string, Json> -> bool, q: Snapshot -> bool,
                     elem: map<string, Json>, depth: nat)
    requires Lawful(rt) && Mirrors(rt, clock, p, q) && depth <= 6 && Merged(rt, clock, elem, depth).Ok?
    ensures InMerge(rt, q, Merged(rt, clock, elem, depth).value, 6 - depth) <==> EveryMerged(rt, p, Ok(elem), depth)
    decreases Fuel(depth), 1, 0
  {
    hide Lawful;
    MergedParts(rt, clock, elem, depth);
    var items := MergedItems(rt, elem).value;
    if depth == 6 { DeepEmbedAllFails(rt, clock, items); }
    hide Merged, EmbedAll, MergedItems, MergeFields, Inside, InMerge, Mirrors, EveryEmbedded;
    EmbedAllMirrors(rt, clock, p, q, items, depth + 1);
    InMergeAt(rt, q, Merged(rt, clock, elem, depth).value, EmbedAll(rt, clock, items, depth + 1).value, 6 - depth);
  }

  lemma MirrorsAt(rt: Runtime, clock: string, p: map<string, Json> -> bool, q: Snapshot -> bool, item: map<string, Json>,
                  depth: nat)
    requires Mirrors(rt, clock, p, q) && Build(rt, clock, item, depth).Ok?
    ensures p(item) <==> q(Build(rt, clock, item, depth).value)
  {
  }

  /** What mirrors one message mirrors them all, at every level. */
  lemma EverywhereMirrors(rt: Runtime, clock: string, p: map<string, Json> -> bool, q: Snapshot -> bool,
                          item: map<string, Json>, depth: nat)
    requires Lawful(rt) && Mirrors(rt, clock, p, q) && Build(rt, clock, item, depth).Ok?
    ensures depth <= 6
    ensures Everywhere(rt, q, Build(rt, clock, item, depth).value, 6 - depth) <==> Every(rt, p, item, depth)
    decreases Fuel(depth), 3, 0
  {
    hide Lawful;
    MirrorsAt(rt, clock, p, q, item, depth);
    hide InQuote, InMerge, EveryQuoted, EveryMerged, Reference, Merged, Mirrors;
    var s := Build(rt, clock, item, depth).value;
    BuildParts(rt, clock, item, depth);
    if s.contentType == AT_TEXT {
      ReferenceMirrors(rt, clock, p, q, ReferenceElem(rt, item, true).value, depth, true);
    } else if s.contentType == QUOTE {
      ReferenceMirrors(rt, clock, p, q, ReferenceElem(rt, item, false).value, depth, false);
    } else if s.contentType == MERGE {
      MergeMirrors(rt, clock, p, q, ElemOf(rt, item, "mergeElem", "MergeElem").value, depth);
    }
  }

  // ----- types -----

  function PositiveType(): Snapshot -> bool { (s: Snapshot) => s.contentType > 0 }

  function DeclaresPositive(rt: Runtime): map<string, Json> -> bool {
    m => ContentType(rt, m).Some? && ContentType(rt, m).value > 0
  }

  /** The lower bound on types is not enforced: it holds exactly when every message reached declares it. */
  lemma PositiveExactlyWhenDeclared(rt: Runtime, clock: string, item: map<string, Json>, depth: nat)
    requires Lawful(rt) && Build(rt, clock, item, depth).Ok?
    ensures depth <= 6
    ensures Everywhere(rt, PositiveType(), Build(rt, clock, item, depth).value, 6 - depth)
            <==> Every(rt, DeclaresPositive(rt), item, depth)
  {
    EverywhereMirrors(rt, clock, DeclaresPositive(rt), PositiveType(), item, depth);
  }

  /** For instance, a message of type -1 is frozen like any other. */
  lemma NegativeTypeIsAccepted(rt: Runtime, clock: string)
    requires Lawful(rt)
    ensures Build(rt, clock, map["contentType" := Num(-1), "content" := Obj(map[])], 0) == Ok(Snapshot(-1, Obj(map[])))
  {
    assert "contentType"[7] == 'T';
  }

  /** And a text known only as stored JSON is not stable: its first snapshot is read differently. */
  lemma StoredTextIsUnstable(rt: Runtime, clock: string)
    requires Lawful(rt)
    ensures var item := map["contentType" := Num(TEXT), "content" := Obj(map["a" := Num(1)])];
            Build(rt, clock, item, 0).Ok? && !Stability.Settled(rt, item, 0)
  {
    assert "contentType"[7] == 'T' && "a"[0] == 'a' && "content"[0] == 'c' && |"textElem"| == 8 && |"TextElem"| == 8;
  }
}

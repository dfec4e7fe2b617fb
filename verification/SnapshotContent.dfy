/** What a snapshot takes over from the message: texts, media data, and every message that is quoted or merged. */
module SnapshotContent {
  import opened Options
  import opened Json
  import opened ForwardSnapshot
  import opened SnapshotWriting
  import opened SnapshotMedia
  import opened SnapshotAddresses
  import Shape = SnapshotShape
  import Stability = SnapshotStability

  // ----- spellings -----

  /** The first spelling that holds something decides; nothing else is ever read. */
  lemma {:induction false} FirstFilledSpelling(o: map<string, Json>, keys: seq<string>)
    ensures StringOf(o, keys) == "" <==> forall k <- keys :: !HasText(o, k)
    ensures forall i :: 0 <= i < |keys| && HasText(o, keys[i]) && (forall j :: 0 <= j < i ==> !HasText(o, keys[j]))
              ==> StringOf(o, keys) == o[keys[i]].s
  {
    if keys != [] {
      FirstFilledSpelling(o, keys[1..]);
      assert keys == [keys[0]] + keys[1..];
      assert (forall k <- keys :: !HasText(o, k)) <==> !HasText(o, keys[0]) && forall k <- keys[1..] :: !HasText(o, k) by {
        assert keys[0] in keys && forall k <- keys[1..] :: k in keys;
      }
      forall i | 0 <= i < |keys| && HasText(o, keys[i]) && (forall j :: 0 <= j < i ==> !HasText(o, keys[j]))
        ensures StringOf(o, keys) == o[keys[i]].s
      {
        if i > 0 { assert keys[1..][i - 1] == keys[i]; }
      }
    }
  }

  ghost predicate HasSize(o: map<string, Json>, key: string) { key in o && o[key].Num? && o[key].n >= 0 }

  ghost predicate HasAddress(rt: Runtime, o: map<string, Json>, key: string) {
    HasText(o, key) && rt.trim(o[key].s) == o[key].s && rt.isHttp(o[key].s)
  }

  /** A remote address is taken as it is; without one, whatever the first candidate says is taken, path or not. */
  ghost predicate AddressTaken(rt: Runtime, o: map<string, Json>, address: Json, path: string) {
    var given := StringOf(o, ["sourceUrl", "SourceUrl", "SourceURL"]);
    && (HasAddress(rt, o, "sourceUrl") ==> address == o["sourceUrl"])
    && (!rt.isHttp(rt.trim(given)) && rt.isHttp(rt.trim(path)) ==> address == Str(rt.trim(path)))
    && (!SafePair(rt, given, path) ==> address == Str(if rt.trim(given) != "" then rt.trim(given) else rt.trim(path)))
    && (rt.trim(given) == "" && rt.trim(path) == "" ==> address == Str(""))
  }

  lemma AddressKept(rt: Runtime, o: map<string, Json>, path: string)
    requires Lawful(rt)
    ensures AddressTaken(rt, o, Str(PreferHttp(rt, StringOf(o, ["sourceUrl", "SourceUrl", "SourceURL"]), path)), path)
  {
    PreferredExactly(rt, StringOf(o, ["sourceUrl", "SourceUrl", "SourceURL"]), path);
    FirstFilledSpelling(o, ["sourceUrl", "SourceUrl", "SourceURL"]);
    if HasAddress(rt, o, "sourceUrl") {
      assert HasText(o, ["sourceUrl", "SourceUrl", "SourceURL"][0]);
    }
  }

  lemma VoiceKept(rt: Runtime, o: map<string, Json>)
    requires Lawful(rt)
    ensures var e := VoiceElem(rt, o);
            && e.Keys == {"uuid", "soundPath", "sourceUrl", "dataSize", "duration"}
            && AddressTaken(rt, o, e["sourceUrl"], StringOf(o, ["soundPath", "SoundPath"]))
            && (HasText(o, "uuid") ==> e["uuid"] == o["uuid"])
            && (HasSize(o, "dataSize") ==> e["dataSize"] == o["dataSize"])
            && (HasSize(o, "duration") ==> e["duration"] == o["duration"])
  {
    VoiceFields(rt, o);
    AddressKept(rt, o, StringOf(o, ["soundPath", "SoundPath"]));
    if HasSize(o, "dataSize") { NumberOfFirst(rt, o, ["dataSize", "DataSize"]); }
    if HasSize(o, "duration") { NumberOfFirst(rt, o, ["duration", "Duration"]); }
    hide AddressTaken;
  }

  lemma FileKept(rt: Runtime, o: map<string, Json>)
    requires Lawful(rt)
    ensures var e := FileElem(rt, o);
            && e.Keys == {"uuid", "filePath", "sourceUrl", "fileName", "fileSize"}
            && AddressTaken(rt, o, e["sourceUrl"], StringOf(o, ["filePath", "FilePath"]))
            && (HasText(o, "uuid") ==> e["uuid"] == o["uuid"])
            && (HasText(o, "fileName") ==> e["fileName"] == o["fileName"])
            && (HasSize(o, "fileSize") ==> e["fileSize"] == o["fileSize"])
  {
    FileFields(rt, o);
    AddressKept(rt, o, StringOf(o, ["filePath", "FilePath"]));
    if HasSize(o, "fileSize") { NumberOfFirst(rt, o, ["fileSize", "FileSize"]); }
    hide AddressTaken;
  }

  /** A picture keeps its data; only its type may be filled in. */
  lemma PictureKept(rt: Runtime, p: map<string, Json>)
    requires Lawful(rt)
    ensures var e := PictureInfo(rt, p);
            && e.Keys == {"uuid", "type", "url", "size", "width", "height"}
            && (HasText(p, "uuid") ==> e["uuid"] == p["uuid"])
            && (HasText(p, "type") ==> e["type"] == p["type"])
            && (HasText(p, "url") ==> e["url"] == p["url"])
            && (HasSize(p, "size") ==> e["size"] == p["size"])
            && (HasSize(p, "width") ==> e["width"] == p["width"])
            && (HasSize(p, "height") ==> e["height"] == p["height"])
  {
    InfoFields(rt, p);
    if HasSize(p, "size") { NumberOfFirst(rt, p, ["size", "Size"]); }
    if HasSize(p, "width") { NumberOfFirst(rt, p, ["width", "Width"]); }
    if HasSize(p, "height") { NumberOfFirst(rt, p, ["height", "Height"]); }
  }

  /** A missing big or small picture is replaced by the source picture, never the other way round. */
  lemma MissingPicturesAreTheSource(rt: Runtime, o: map<string, Json>)
    requires Lawful(rt)
    ensures var e := PictureElem(rt, o);
            var source := PictureAt(rt, o, "sourcePicture", "SourcePicture");
            && ("sourcePicture" in e <==> source.Some?)
            && (source.Some? ==> "bigPicture" in e && "snapshotPicture" in e)
            && (source.Some? && PictureAt(rt, o, "bigPicture", "BigPicture").None? ==> e["bigPicture"] == e["sourcePicture"])
            && (source.Some? && PictureAt(rt, o, "snapshotPicture", "SnapshotPicture").None? ==>
                  e["snapshotPicture"] == e["sourcePicture"])
  {
    var source0 := PictureAt(rt, o, "sourcePicture", "SourcePicture");
    var big0 := PictureAt(rt, o, "bigPicture", "BigPicture");
    var small0 := PictureAt(rt, o, "snapshotPicture", "SnapshotPicture");
    var fallback := FirstType(rt, [source0, big0, small0]);
    var source := Typed(rt, source0, fallback);
    PictureKeys();
    PicturesAt("sourcePath", "sourcePicture", "bigPicture", "snapshotPicture", source,
               if big0.Some? then Typed(rt, big0, fallback) else source,
               if small0.Some? then Typed(rt, small0, fallback) else source);
  }

  // ----- the messages inside -----

  /** All messages of a merge are taken, in order, or none. */
  lemma {:induction false} EmbedAllExactly(rt: Runtime, clock: string, items: seq<Json>, depth: nat)
    ensures EmbedAll(rt, clock, items, depth).Ok? <==> forall i :: 0 <= i < |items| ==> Embedded(rt, clock, items[i], depth).Ok?
    ensures EmbedAll(rt, clock, items, depth).Ok? ==>
              forall i :: 0 <= i < |items| ==>
                EmbedAll(rt, clock, items, depth).value[i] == Obj(Embedded(rt, clock, items[i], depth).value)
  {
    hide Embedded;
    if items != [] {
      var n := |items| - 1;
      EmbedAllExactly(rt, clock, items[..n], depth);
      forall i | 0 <= i < n ensures items[..n][i] == items[i] {
      }
    }
  }

  /** A message inside a snapshot carries exactly its own snapshot and keeps every field that is not its type, its
      content or its typed element. */
  lemma EmbeddedKeeps(rt: Runtime, clock: string, raw: Json, depth: nat, k: string)
    requires Lawful(rt) && Embedded(rt, clock, raw, depth).Ok?
    ensures var item, m := AsObject(rt, Some(raw)).value, Embedded(rt, clock, raw, depth).value;
            var s := Build(rt, clock, item, depth).value;
            && Shape.Carried(rt, Obj(m)) == Some(s)
            && (k in item && k !in {"contentType", "ContentType", "content", "Content"}
                && (ElemKey(s.contentType).Some? ==> k != ElemKey(s.contentType).value && k != Pascal(ElemKey(s.contentType).value))
                ==> k in m && m[k] == item[k])
  {
    var item := AsObject(rt, Some(raw)).value;
    var s := Build(rt, clock, item, depth).value;
    Shape.WrittenIsCarried(rt, item, s);
    if k in item && k !in {"contentType", "ContentType", "content", "Content"}
       && (ElemKey(s.contentType).Some? ==> k != ElemKey(s.contentType).value && k != Pascal(ElemKey(s.contentType).value))
    {
      WrittenKeepsRest(rt, item, s, k);
    }
  }

  /** The merged messages of a snapshot are those of the message, one for one. */
  lemma MergeKeepsEachMessage(rt: Runtime, clock: string, elem: map<string, Json>, depth: nat)
    requires depth <= 6 && Merged(rt, clock, elem, depth).Ok?
    ensures var c := Merged(rt, clock, elem, depth).value;
            c.Obj? && "multiMessage" in c.fields && c.fields["multiMessage"].Arr?
            && MergedItems(rt, elem).Ok?
            && |c.fields["multiMessage"].items| == |MergedItems(rt, elem).value|
            && forall i :: 0 <= i < |MergedItems(rt, elem).value| ==>
                 Embedded(rt, clock, MergedItems(rt, elem).value[i], depth + 1).Ok?
                 && c.fields["multiMessage"].items[i] == Obj(Embedded(rt, clock, MergedItems(rt, elem).value[i], depth + 1).value)
  {
    Shape.MergedParts(rt, clock, elem, depth);
    EmbedAllExactly(rt, clock, MergedItems(rt, elem).value, depth + 1);
    hide Merged, EmbedAll, Embedded, MergedItems;
  }

  /** A reference keeps its text and the message it quotes; a message without a quote gets none. */
  lemma ReferenceKeeps(rt: Runtime, clock: string, elem: map<string, Json>, depth: nat, atText: bool)
    requires depth <= 6 && Reference(rt, clock, elem, depth, atText).Ok?
    ensures var c := Reference(rt, clock, elem, depth, atText).value;
            && c.Obj? && "text" in c.fields
            && c.fields["text"] == (if "text" in elem && elem["text"] != Null then elem["text"]
                                    else if "Text" in elem && elem["Text"] != Null then elem["Text"] else Str(""))
            && ("quoteMessage" in c.fields <==> QuoteIn(elem).Some?)
            && (QuoteIn(elem).Some? ==>
                  Embedded(rt, clock, QuoteIn(elem).value, depth + 1).Ok?
                  && c.fields["quoteMessage"] == Obj(Embedded(rt, clock, QuoteIn(elem).value, depth + 1).value))
  {
    Shape.ReferenceParts(rt, clock, elem, depth, atText);
    hide Embedded;
    var quote := QuoteIn(elem);
    Stability.ReferenceFieldsAt(rt, elem, atText,
                                if quote.Some? then Some(Obj(Embedded(rt, clock, quote.value, depth + 1).value)) else None);
  }
}

/** What the snapshots of quotes, texts naming users and merges say, and when such messages are refused. */
module SnapshotNesting {
  import opened Options
  import opened Json
  import opened ForwardSnapshot
  import opened SnapshotContent
  import opened SnapshotReading
  import opened SnapshotMessages
  import Shape = SnapshotShape
  import Stability = SnapshotStability

  // ----- a message inside another -----

  /** The message is an object, or the text of one, that can be frozen at this depth. */
  ghost predicate CanFreeze(rt: Runtime, clock: string, raw: Json, depth: nat) {
    var item := AsObject(rt, Some(raw));
    item.Some? && Build(rt, clock, item.value, depth).Ok?
  }

  /** `m` is such a message with its own snapshot written in. */
  ghost predicate Inner(rt: Runtime, clock: string, raw: Json, depth: nat, m: Json) {
    var item := AsObject(rt, Some(raw));
    CanFreeze(rt, clock, raw, depth)
    && m == Obj(WithSnapshot(rt, item.value, Build(rt, clock, item.value, depth).value))
  }

  lemma InnerExactly(rt: Runtime, clock: string, raw: Json, depth: nat)
    ensures Embedded(rt, clock, raw, depth).Ok? <==> CanFreeze(rt, clock, raw, depth)
    ensures Embedded(rt, clock, raw, depth).Ok? ==> Inner(rt, clock, raw, depth, Obj(Embedded(rt, clock, raw, depth).value))
  {
    hide Build, WithSnapshot, AsObject;
  }

  // ----- references -----

  ghost predicate UserSays(rt: Runtime, raw: Json, j: Json) {
    var o := if AsObject(rt, Some(raw)).Some? then AsObject(rt, Some(raw)).value else map[];
    j.Obj? && FieldText(o, ["atUserID", "AtUserID"], j.fields, "atUserID")
    && FieldText(o, ["groupNickname", "GroupNickname"], j.fields, "groupNickname")
  }

  /** The users that a text names, one for one; anything but a list names nobody. */
  ghost predicate UsersSay(rt: Runtime, raw: Option<Json>, j: Json) {
    j.Arr? &&
    if raw.Some? && raw.value.Arr?
    then |j.items| == |raw.value.items| && forall i :: 0 <= i < |j.items| ==> UserSays(rt, raw.value.items[i], j.items[i])
    else j.items == []
  }

  lemma UserReads(rt: Runtime, raw: Json)
    ensures UserSays(rt, raw, AtUser(rt, raw))
  {
    var o := if AsObject(rt, Some(raw)).Some? then AsObject(rt, Some(raw)).value else map[];
    var e := AtUser(rt, raw).fields;
    assert "atUserID"[0] == 'a' && "groupNickname"[0] == 'g';
    hide AsObject, StringOf, FieldText;
    TextField(o, ["atUserID", "AtUserID"], e, "atUserID");
    TextField(o, ["groupNickname", "GroupNickname"], e, "groupNickname");
  }

  lemma UsersRead(rt: Runtime, raw: Option<Json>)
    ensures UsersSay(rt, raw, AtUsersInfo(rt, raw))
  {
    if raw.Some? && raw.value.Arr? {
      forall i | 0 <= i < |raw.value.items| ensures UserSays(rt, raw.value.items[i], AtUser(rt, raw.value.items[i])) {
        UserReads(rt, raw.value.items[i]);
      }
    }
    hide UserSays, AtUser;
  }

  /** What a list of users may be given as: the first spelling that says something. */
  lemma UsersSaid(rt: Runtime, elem: map<string, Json>, j: Json)
    requires UsersSay(rt, Either(elem, "atUsersInfo", "AtUsersInfo"), j)
    ensures UsersSay(rt, Said(elem, "atUsersInfo", "AtUsersInfo"), j)
  {
    EitherSaid(elem, "atUsersInfo", "AtUsersInfo", Null);
    hide Either, Said, UserSays;
  }

  /** The quote of an element: there, and neither null, false, zero nor empty. */
  function QuoteSaid(elem: map<string, Json>): Option<Json> {
    match Said(elem, "quoteMessage", "QuoteMessage")
    case Some(Bool(b)) => if b then Some(Bool(b)) else None
    case Some(Num(n)) => if n != 0 then Some(Num(n)) else None
    case Some(Str(s)) => if s != "" then Some(Str(s)) else None
    case other => other
  }

  lemma QuoteRead(elem: map<string, Json>)
    ensures QuoteIn(elem) == QuoteSaid(elem)
  {
    EitherSaid(elem, "quoteMessage", "QuoteMessage", Null);
    hide Either, Said;
  }

  /** A reference says its text and its quote under whichever spelling, and, if it names users, whom. */
  ghost predicate ReferenceSays(rt: Runtime, clock: string, elem: map<string, Json>, depth: nat, atText: bool, e: map<string, Json>) {
    && "text" in e && e["text"] == SaidOr(elem, "text", "Text", Str(""))
    && ("quoteMessage" in e <==> QuoteSaid(elem).Some?)
    && ("quoteMessage" in e ==> Inner(rt, clock, QuoteSaid(elem).value, depth + 1, e["quoteMessage"]))
    && (atText ==> "atUserList" in e && e["atUserList"] == SaidOr(elem, "atUserList", "AtUserList", Arr([]))
                   && "atUsersInfo" in e && UsersSay(rt, Said(elem, "atUsersInfo", "AtUsersInfo"), e["atUsersInfo"]))
  }

  /** A reference can be frozen when it quotes nothing, or something that can be. */
  ghost predicate CanReference(rt: Runtime, clock: string, elem: map<string, Json>, depth: nat) {
    QuoteSaid(elem).Some? ==> CanFreeze(rt, clock, QuoteSaid(elem).value, depth + 1)
  }

  lemma QuoteFreezes(rt: Runtime, clock: string, elem: map<string, Json>, depth: nat)
    ensures CanReference(rt, clock, elem, depth) <==>
            (QuoteIn(elem).Some? ==> Embedded(rt, clock, QuoteIn(elem).value, depth + 1).Ok?)
  {
    QuoteRead(elem);
    if QuoteIn(elem).Some? { InnerExactly(rt, clock, QuoteIn(elem).value, depth + 1); }
    hide QuoteIn, QuoteSaid, Inner, CanFreeze, Embedded;
  }

  lemma ReferenceExactly(rt: Runtime, clock: string, elem: map<string, Json>, depth: nat, atText: bool)
    requires depth <= 6
    ensures Reference(rt, clock, elem, depth, atText).Ok? <==> CanReference(rt, clock, elem, depth)
  {
    QuoteFreezes(rt, clock, elem, depth);
    hide QuoteIn, Embedded, ReferenceFields, CanReference;
  }

  lemma ReferenceReads(rt: Runtime, clock: string, elem: map<string, Json>, depth: nat, atText: bool)
    requires depth <= 6 && Reference(rt, clock, elem, depth, atText).Ok?
    ensures var c := Reference(rt, clock, elem, depth, atText).value;
            c.Obj? && ReferenceSays(rt, clock, elem, depth, atText, c.fields)
  {
    QuoteRead(elem);
    var quote := QuoteIn(elem);
    Shape.ReferenceParts(rt, clock, elem, depth, atText);
    var inner := if quote.Some? then Some(Obj(Embedded(rt, clock, quote.value, depth + 1).value)) else None;
    if quote.Some? { InnerExactly(rt, clock, quote.value, depth + 1); }
    Stability.ReferenceFieldsAt(rt, elem, atText, inner);
    ReferenceTexts(rt, elem, atText);
    UsersRead(rt, Either(elem, "atUsersInfo", "AtUsersInfo"));
    UsersSaid(rt, elem, AtUsersInfo(rt, Either(elem, "atUsersInfo", "AtUsersInfo")));
    hide QuoteIn, QuoteSaid, Embedded, ReferenceFields, Inner, UsersSay, Either, Said, SaidOr, AtUsersInfo;
  }

  lemma ReferenceTexts(rt: Runtime, elem: map<string, Json>, atText: bool)
    ensures var base := ReferenceFields(rt, elem, atText);
            && base["text"] == SaidOr(elem, "text", "Text", Str(""))
            && (atText ==> base["atUserList"] == SaidOr(elem, "atUserList", "AtUserList", Arr([])))
  {
    EitherSaid(elem, "text", "Text", Str(""));
    EitherSaid(elem, "atUserList", "AtUserList", Arr([]));
    Stability.ReferenceKeys();
    assert "text"[0] == 't' && "atUserList"[2] == 'U' && |"atUserList"| == 10 && |"atUsersInfo"| == 11;
    hide Either, Said, SaidOr, AtUsersInfo;
  }

  /** Quotes and texts naming users are frozen exactly when they have an element or content and quote nothing that
      cannot be frozen one level down. */
  lemma QuoteIsFrozen(rt: Runtime, clock: string, item: map<string, Json>, depth: nat)
    requires OfType(rt, item, 114, depth)
    ensures var s, o := Build(rt, clock, item, depth), Source(rt, item, "quoteElem", "QuoteElem");
            && (s.Ok? <==> o.Some? && CanReference(rt, clock, o.value, depth))
            && (s.Ok? ==> s.value.contentType == 114 && s.value.content.Obj?
                          && ReferenceSays(rt, clock, o.value, depth, false, s.value.content.fields))
  {
    BuiltFromContent(rt, clock, item, 114, depth);
    SourceRead(rt, item, "quoteElem", "QuoteElem");
    assert Content(rt, clock, item, 114, depth) == ReferenceContent(rt, clock, item, depth, false);
    var elem := ElemOf(rt, item, "quoteElem", "QuoteElem");
    if elem.Ok? {
      ReferenceExactly(rt, clock, elem.value, depth, false);
      if Reference(rt, clock, elem.value, depth, false).Ok? { ReferenceReads(rt, clock, elem.value, depth, false); }
    }
    hide Build, Content, ElemOf, Source, Reference, CanReference, ReferenceSays;
  }

  lemma AtTextIsFrozen(rt: Runtime, clock: string, item: map<string, Json>, depth: nat)
    requires OfType(rt, item, 106, depth)
    ensures var s, o := Build(rt, clock, item, depth), Source(rt, item, "atTextElem", "AtTextElem");
            && (s.Ok? <==> o.Some? && CanReference(rt, clock, o.value, depth))
            && (s.Ok? ==> s.value.contentType == 106 && s.value.content.Obj?
                          && ReferenceSays(rt, clock, o.value, depth, true, s.value.content.fields))
  {
    BuiltFromContent(rt, clock, item, 106, depth);
    SourceRead(rt, item, "atTextElem", "AtTextElem");
    assert Content(rt, clock, item, 106, depth) == ReferenceContent(rt, clock, item, depth, true);
    var elem := ElemOf(rt, item, "atTextElem", "AtTextElem");
    if elem.Ok? {
      ReferenceExactly(rt, clock, elem.value, depth, true);
      if Reference(rt, clock, elem.value, depth, true).Ok? { ReferenceReads(rt, clock, elem.value, depth, true); }
    }
    hide Build, Content, ElemOf, Source, Reference, CanReference, ReferenceSays;
  }

  // ----- merges -----

  /** The merged messages: a list, or the JSON text of one, and not empty. */
  function MessagesSaid(rt: Runtime, elem: map<string, Json>): Option<seq<Json>> {
    var said := Said(elem, "multiMessage", "MultiMessage");
    var list := if said.Some? && said.value.Str? then rt.parse(said.value.s) else said;
    if list.Some? && list.value.Arr? && list.value.items != [] then Some(list.value.items) else None
  }

  lemma MessagesRead(rt: Runtime, elem: map<string, Json>)
    ensures MergedItems(rt, elem).Ok? <==> MessagesSaid(rt, elem).Some?
    ensures MergedItems(rt, elem).Ok? ==> MergedItems(rt, elem).value == MessagesSaid(rt, elem).value
  {
    EitherSaid(elem, "multiMessage", "MultiMessage", Null);
    hide Either, Said;
  }

  ghost predicate CanMerge(rt: Runtime, clock: string, elem: map<string, Json>, depth: nat) {
    MessagesSaid(rt, elem).Some? && forall i :: 0 <= i < |MessagesSaid(rt, elem).value| ==>
      CanFreeze(rt, clock, MessagesSaid(rt, elem).value[i], depth + 1)
  }

  ghost predicate MergeSays(rt: Runtime, clock: string, elem: map<string, Json>, depth: nat, e: map<string, Json>) {
    && "title" in e && e["title"] == SaidOr(elem, "title", "Title", Str(""))
    && "abstractList" in e && e["abstractList"] == SaidOr(elem, "abstractList", "AbstractList", Arr([]))
    && "messageEntityList" in e && e["messageEntityList"] == SaidOr(elem, "messageEntityList", "MessageEntityList", Arr([]))
    && MessagesSaid(rt, elem).Some? && "multiMessage" in e && e["multiMessage"].Arr?
    && |e["multiMessage"].items| == |MessagesSaid(rt, elem).value|
    && forall i :: 0 <= i < |MessagesSaid(rt, elem).value| ==>
         Inner(rt, clock, MessagesSaid(rt, elem).value[i], depth + 1, e["multiMessage"].items[i])
  }

  lemma EachFreezes(rt: Runtime, clock: string, items: seq<Json>, depth: nat)
    ensures EmbedAll(rt, clock, items, depth).Ok? <==>
            forall i :: 0 <= i < |items| ==> CanFreeze(rt, clock, items[i], depth)
    ensures EmbedAll(rt, clock, items, depth).Ok? ==>
              forall i :: 0 <= i < |items| ==> Inner(rt, clock, items[i], depth, EmbedAll(rt, clock, items, depth).value[i])
  {
    EmbedAllExactly(rt, clock, items, depth);
    forall i | 0 <= i < |items|
      ensures Embedded(rt, clock, items[i], depth).Ok? <==> CanFreeze(rt, clock, items[i], depth)
      ensures Embedded(rt, clock, items[i], depth).Ok? ==>
                Inner(rt, clock, items[i], depth, Obj(Embedded(rt, clock, items[i], depth).value))
    {
      InnerExactly(rt, clock, items[i], depth);
    }
    hide Embedded, EmbedAll, Inner, CanFreeze;
  }

  lemma MergeTexts(elem: map<string, Json>, messages: seq<Json>)
    ensures var e := MergeFields(elem, messages);
            && "title" in e && e["title"] == SaidOr(elem, "title", "Title", Str(""))
            && "abstractList" in e && e["abstractList"] == SaidOr(elem, "abstractList", "AbstractList", Arr([]))
            && "messageEntityList" in e && e["messageEntityList"] == SaidOr(elem, "messageEntityList", "MessageEntityList", Arr([]))
            && "multiMessage" in e && e["multiMessage"] == Arr(messages)
  {
    EitherSaid(elem, "title", "Title", Str(""));
    EitherSaid(elem, "abstractList", "AbstractList", Arr([]));
    EitherSaid(elem, "messageEntityList", "MessageEntityList", Arr([]));
    assert "title"[0] == 't' && "abstractList"[0] == 'a' && |"multiMessage"| == 12 && |"messageEntityList"| == 17;
    hide Either, Said, SaidOr;
  }

  lemma MergedExactly(rt: Runtime, clock: string, elem: map<string, Json>, depth: nat)
    requires depth <= 6
    ensures Merged(rt, clock, elem, depth).Ok? <==> CanMerge(rt, clock, elem, depth)
    ensures Merged(rt, clock, elem, depth).Ok? ==>
              Merged(rt, clock, elem, depth).value.Obj?
              && MergeSays(rt, clock, elem, depth, Merged(rt, clock, elem, depth).value.fields)
  {
    MessagesRead(rt, elem);
    if MergedItems(rt, elem).Ok? {
      var items := MergedItems(rt, elem).value;
      EachFreezes(rt, clock, items, depth + 1);
      var all := EmbedAll(rt, clock, items, depth + 1);
      if all.Ok? { MergeTexts(elem, all.value); }
    }
    hide MergedItems, MessagesSaid, EmbedAll, Inner, CanFreeze, MergeFields, SaidOr;
  }

  /** A merge is frozen exactly when it has messages and each of them can be frozen one level down. */
  lemma MergeIsFrozen(rt: Runtime, clock: string, item: map<string, Json>, depth: nat)
    requires OfType(rt, item, 107, depth)
    ensures var s, o := Build(rt, clock, item, depth), Source(rt, item, "mergeElem", "MergeElem");
            && (s.Ok? <==> o.Some? && CanMerge(rt, clock, o.value, depth))
            && (s.Ok? ==> s.value.contentType == 107 && s.value.content.Obj?
                          && MergeSays(rt, clock, o.value, depth, s.value.content.fields))
  {
    BuiltFromContent(rt, clock, item, 107, depth);
    SourceRead(rt, item, "mergeElem", "MergeElem");
    assert Content(rt, clock, item, 107, depth) == MergeContent(rt, clock, item, depth);
    var elem := ElemOf(rt, item, "mergeElem", "MergeElem");
    if elem.Ok? { MergedExactly(rt, clock, elem.value, depth); }
    hide Build, Content, ElemOf, Source, Merged, CanMerge, MergeSays;
  }

  // ----- layers of text -----

  /** An object given as text inside text, `n` times over. */
  function Layered(rt: Runtime, o: map<string, Json>, n: nat): Json {
    if n == 0 then Obj(o) else Str(rt.stringify(Layered(rt, o, n - 1)))
  }

  lemma {:induction false} LayersUnwrap(rt: Runtime, o: map<string, Json>, n: nat, rounds: nat)
    requires Lawful(rt)
    ensures Unwrap(rt, Layered(rt, o, n), rounds) == Some(Layered(rt, o, if n <= rounds then 0 else n - rounds))
  {
    if n > 0 && rounds > 0 {
      var inner := Layered(rt, o, n - 1);
      assert rt.parse(rt.stringify(inner)) == Some(inner);
      LayersUnwrap(rt, o, n - 1, rounds - 1);
    }
  }

  /** An object is found under at most four layers of text. */
  lemma FourLayers(rt: Runtime, o: map<string, Json>, n: nat)
    requires Lawful(rt)
    ensures AsObject(rt, Some(Layered(rt, o, n))) == if n <= 4 then Some(o) else None
  {
    LayersUnwrap(rt, o, n, 4);
  }
}

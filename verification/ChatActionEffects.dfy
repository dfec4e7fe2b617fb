/** What pruning, reloads, deletions and the other operations on one conversation change, and what they leave alone. */
module ChatActionEffects {
  import opened Options
  import opened RetentionTable
  import opened ChatModel
  import opened ChatInvariants
  import opened ChatHistory
  import opened ChatRuns
  import opened ChatEffects

  /** The raw messages but those with these ids. */
  ghost predicate RawsWithout(before: map<string, Raw>, after: map<string, Raw>, gone: set<MsgId>) {
    (forall k :: k in after <==> k in before && Sdk(k) !in gone) && forall k <- after :: after[k] == before[k]
  }

  ghost predicate OnlyList(c: Chat, c': Chat, conv: string) {
    forall other :: other != conv ==> (other in c'.lists <==> other in c.lists) && ListOf(c', other) == ListOf(c, other)
  }

  // ----- pruning -----

  /** Pruning takes away exactly what lies below a boundary: from the announced lists, from all raw messages and from
      the previews; and nothing else. */
  lemma PruneTakesExactly(t: Table, c: Chat, ids: seq<string>, conv: string)
    ensures var c' := Prune(t, c, ids);
            && c' == c.(lists := c'.lists, raws := c'.raws, convs := c'.convs)
            && (conv in c'.lists <==> conv in c.lists)
            && (conv in c.lists && conv !in ids ==> c'.lists[conv] == c.lists[conv])
            && (conv in c.lists && conv in ids ==>
                  Filtered(c.lists[conv], c'.lists[conv], (m: Msg) => !Removed(t, conv, m.seqNo)))
            && (forall k :: k in c'.raws <==> k in c.raws && !Removed(t, c.raws[k].conv, c.raws[k].seqNo))
            && (forall k <- c'.raws :: c'.raws[k] == c.raws[k])
            && |c'.convs| == |c.convs|
            && (forall i :: 0 <= i < |c.convs| ==> Cleaned(t, c.convs[i], c'.convs[i]))
  {
    forall i | 0 <= i < |c.convs| ensures Cleaned(t, c.convs[i], Prune(t, c, ids).convs[i]) {
      SanitizedIsCleaned(t, c.convs[i]);
    }
    if conv in c.lists && conv in ids {
      VisibleExactly(t, conv, c.lists[conv]);
    }
    hide Visible, Sanitize, Cleaned, Filtered;
  }

  // ----- raw messages -----

  /** A raw message is kept when it is identified and visible; of a closed room with more than three hundred messages
      only the raw messages of the last three hundred stay. */
  lemma RawsKept(t: Table, c: Chat, r: Raw, k: string)
    ensures var c' := DirectStep(t, c, Recall(r));
            var list := ListOf(c, r.conv);
            var stored := if r.id == "" || Removed(t, r.conv, r.seqNo) then c.raws else c.raws[r.id := r];
            && c' == c.(raws := c'.raws)
            && (k in c'.raws <==>
                  k in stored && (r.id == "" || Removed(t, r.conv, r.seqNo) || r.conv == "" || r.conv == c.active || |list| <= 300
                                  || stored[k].conv != r.conv || exists m <- list[|list| - 300..] :: m.id == Sdk(k)))
            && (k in c'.raws ==> c'.raws[k] == stored[k])
  {
  }

  /** All visible messages of a page are kept while their room is open. */
  lemma {:induction false} PageRawsKept(t: Table, c: Chat, page: seq<Raw>)
    requires forall r <- page :: r.conv == c.active
    ensures var c' := RememberAll(t, c, page);
            && c' == c.(raws := c'.raws)
            && (forall k :: k in c'.raws <==> k in c.raws || exists r <- page :: r.id == k && k != "" && !Removed(t, r.conv, r.seqNo))
            && (forall k :: k in c'.raws ==> (k in c.raws && c'.raws[k] == c.raws[k]) || (c'.raws[k] in page && c'.raws[k].id == k))
  {
    if page != [] {
      var front, last := page[..|page| - 1], page[|page| - 1];
      assert page == front + [last];
      PageRawsKept(t, c, front);
      RememberChangesRaws(t, RememberAll(t, c, front), last);
      assert last.id == "" || Removed(t, last.conv, last.seqNo) ||
             Remember(t, RememberAll(t, c, front), last).raws == RememberAll(t, c, front).raws[last.id := last];
      hide Removed;
    }
  }

  // ----- history pages -----

  lemma {:induction false} SelectTwice<T(!new)>(s: seq<T>, p: T -> bool, q: T -> bool, both: T -> bool)
    requires forall x :: both(x) <==> p(x) && q(x)
    ensures Select(Select(s, p), q) == Select(s, both)
  {
    hide Select;
    if s == [] {
      SelectNone(p);
      SelectNone(q);
      SelectNone(both);
    } else {
      var front, last := s[..|s| - 1], s[|s| - 1];
      SelectTwice(front, p, q, both);
      assert s == front + [last];
      SelectStep(front, last, p);
      SelectStep(front, last, both);
      SelectStep(Select(front, p), last, q);
    }
  }

  lemma SelectStep<T(!new)>(s: seq<T>, x: T, p: T -> bool)
    ensures Select(s + [x], p) == if p(x) then Select(s, p) + [x] else Select(s, p)
  {
    SelectAppend(s, x, p);
  }

  /** Was the message marked as read before the page came? */
  predicate WasRead(t: Table, conv: string, captured: seq<Msg>, id: MsgId) {
    exists m <- captured :: m.hasRead && m.id == id && !Removed(t, conv, m.seqNo)
  }

  /** A captured message that the page does not have but that may not be dropped. */
  predicate StillPending(t: Table, conv: string, shown: seq<Msg>, now: int, m: Msg) {
    !Removed(t, conv, m.seqNo) && (forall x <- shown :: x.id != m.id) && (m.status != Sent || 0 <= now - m.at < 60000)
  }

  lemma PendingExactly(t: Table, conv: string, captured: seq<Msg>, shown: seq<Msg>, history: seq<Msg>, now: int)
    requires |history| == |shown| && forall i :: 0 <= i < |shown| ==> history[i].id == shown[i].id
    ensures Filtered(captured, Pending(history, Visible(t, conv, captured), now), (m: Msg) => StillPending(t, conv, shown, now, m))
  {
    var visible := (m: Msg) => !Removed(t, conv, m.seqNo);
    var kept := (m: Msg) => !HasId(history, m.id) && (m.status != Sent || 0 <= now - m.at < 60000);
    var both := (m: Msg) => StillPending(t, conv, shown, now, m);
    forall m: Msg ensures both(m) <==> visible(m) && kept(m) { SameIds(history, shown, m.id); }
    SelectTwice(captured, visible, kept, both);
    SelectFilters(captured, both);
  }

  /** The list a reload writes: the messages of the page, marked as read if they were, then the captured messages that
      are still pending, failed or less than a minute old, in their order. */
  lemma ReloadExactly(t: Table, conv: string, captured: seq<Msg>, page: seq<Raw>, now: int)
    ensures var list, shown := Reconciled(t, conv, captured, page, now), Shown(t, conv, page);
            && |shown| <= |list|
            && (forall i :: 0 <= i < |shown| ==>
                  list[i] == shown[i].(hasRead := shown[i].hasRead || WasRead(t, conv, captured, shown[i].id)))
            && Filtered(captured, list[|shown|..], (m: Msg) => StillPending(t, conv, shown, now, m))
  {
    var existing, shown := Visible(t, conv, captured), Shown(t, conv, page);
    var history := WithRead(shown, existing);
    ReloadIsPageThenPending(t, conv, captured, page, now);
    PendingExactly(t, conv, captured, shown, history, now);
    assert Reconciled(t, conv, captured, page, now)[|shown|..] == Pending(history, existing, now);
    hide Reconciled, Pending, Filtered, StillPending, Shown;
  }

  /** After the page of a room has arrived the room shows the last two hundred of the page and the captured messages to
      keep, and is at its end if the page says so and nothing was cut; an empty page over visible messages leaves the
      room alone. */
  lemma PageIsShown(t: Table, c: Chat, conv: string, captured: seq<Msg>, page: seq<Raw>, isEnd: bool, now: int)
    ensures var c' := Loaded(t, c, conv, captured, page, isEnd, now);
            var all := Reconciled(t, conv, captured, page, now);
            var skipped := (forall r <- page :: r.pin || Removed(t, conv, r.seqNo))
                           && exists m <- captured :: !Removed(t, conv, m.seqNo);
            && OnlyList(c, c', conv) && c'.convs == c.convs && c'.hidden == c.hidden && c'.exited == c.exited
            && ListOf(c', conv) == (if skipped then ListOf(c, conv) else if |all| <= 200 then all else all[|all| - 200..])
            && conv in c'.ended && (c'.ended[conv] <==> !skipped && isEnd && |all| <= 200)
  {
    NothingShown(t, conv, page);
    NothingVisible(t, conv, captured);
    ChangesRaws(t, c, page);
    hide RememberAll, Reconciled, Shown, Visible, DropRaws, Removed;
  }

  /** The identified and visible messages of the page are added, beside the raw messages that were there. */
  ghost predicate BringsRaws(t: Table, before: map<string, Raw>, after: map<string, Raw>, page: seq<Raw>) {
    forall k :: k in after <==> k in before || exists r <- page :: r.id == k && k != "" && !Removed(t, r.conv, r.seqNo)
  }

  lemma PageBrings(t: Table, c: Chat, page: seq<Raw>)
    requires forall r <- page :: r.conv == c.active
    ensures BringsRaws(t, c.raws, RememberAll(t, c, page).raws, page)
  {
    PageRawsKept(t, c, page);
    hide RememberAll, Removed;
  }

  /** An open room gains the raw messages of a page, after a reload */
  lemma ReloadBringsRaws(t: Table, c: Chat, conv: string, captured: seq<Msg>, page: seq<Raw>, isEnd: bool, now: int)
    requires (forall r <- page :: r.conv == c.active) && |Reconciled(t, conv, captured, page, now)| <= 200
    ensures BringsRaws(t, c.raws, Loaded(t, c, conv, captured, page, isEnd, now).raws, page)
  {
    PageBrings(t, c, page);
    hide RememberAll, Reconciled, Shown, Visible, Removed, BringsRaws;
  }

  /** as after an older page. */
  lemma OlderPageBringsRaws(t: Table, c: Chat, conv: string, captured: seq<Msg>, page: seq<Raw>, isEnd: bool)
    requires forall r <- page :: r.conv == c.active
    ensures BringsRaws(t, c.raws, LoadedMore(t, c, conv, captured, page, isEnd).raws, page)
  {
    var c0 := c.(ended := c.ended[conv := isEnd]);
    PageBrings(t, c0, page);
    if page == [] { assert RememberAll(t, c0, []) == c0; }
    hide RememberAll, Shown, Visible, Removed, BringsRaws;
  }

  lemma NothingShown(t: Table, conv: string, page: seq<Raw>)
    ensures Shown(t, conv, page) == [] <==> forall r <- page :: r.pin || Removed(t, conv, r.seqNo)
  {
    NothingSelected(page, (r: Raw) => !r.pin && !Removed(t, conv, r.seqNo));
  }

  lemma NothingVisible(t: Table, conv: string, list: seq<Msg>)
    ensures Visible(t, conv, list) == [] <==> forall m <- list :: Removed(t, conv, m.seqNo)
  {
    NothingSelected(list, (m: Msg) => !Removed(t, conv, m.seqNo));
  }

  lemma NothingSelected<T(!new)>(s: seq<T>, p: T -> bool)
    ensures Select(s, p) == [] <==> forall x <- s :: !p(x)
  {
    hide Select;
    if Select(s, p) != [] { assert Select(s, p)[0] in Select(s, p); }
  }

  lemma {:induction false} ChangesRaws(t: Table, c: Chat, page: seq<Raw>)
    ensures RememberAll(t, c, page) == c.(raws := RememberAll(t, c, page).raws)
  {
    if page != [] {
      ChangesRaws(t, c, page[..|page| - 1]);
      RememberChangesRaws(t, RememberAll(t, c, page[..|page| - 1]), page[|page| - 1]);
      hide Remember;
    }
  }

  /** Older messages go in front of what is visible of the captured list; a page that shows nothing changes no list. */
  lemma OlderPageIsShown(t: Table, c: Chat, conv: string, captured: seq<Msg>, page: seq<Raw>, isEnd: bool)
    ensures var c' := LoadedMore(t, c, conv, captured, page, isEnd);
            && OnlyList(c, c', conv) && c'.convs == c.convs && c'.hidden == c.hidden && c'.exited == c.exited
            && ListOf(c', conv) == (if Shown(t, conv, page) == [] then ListOf(c, conv)
                                    else Shown(t, conv, page) + Visible(t, conv, captured))
            && c'.ended == c.ended[conv := isEnd]
  {
    var c0 := c.(ended := c.ended[conv := isEnd]);
    ChangesRaws(t, c0, page);
    OlderGoesInFront(t, c0, conv, captured, page);
    NothingShown(t, conv, page);
    hide RememberAll, Shown, Visible;
  }

  /** The first message with this id and what follows it. */
  ghost predicate StartsAt(all: seq<Msg>, list: seq<Msg>, target: MsgId, i: nat) {
    i < |all| && all[i].id == target && (forall k :: 0 <= k < i ==> all[k].id != target) && list == all[i..]
  }

  lemma RetainStartsAt(c: Chat, conv: string, target: MsgId)
    requires HasId(ListOf(c, conv), target)
    ensures var c', i := RetainFrom(c, conv, target), FirstIndex(ListOf(c, conv), target);
            && StartsAt(ListOf(c, conv), ListOf(c', conv), target, i)
            && OnlyList(c, c', conv) && c'.convs == c.convs
            && c'.ended == if i > 0 then c.ended[conv := false] else c.ended
  {
    FirstIndexFinds(ListOf(c, conv), target);
    FirstIndexIsFirst(ListOf(c, conv), target);
    hide FirstIndex, DropRaws;
  }

  lemma PrependedChanges(t: Table, c: Chat, conv: string, captured: seq<Msg>, page: seq<Raw>)
    ensures var c' := Prepended(t, c, conv, captured, page);
            && ListOf(c', conv) == Shown(t, conv, page) + Visible(t, conv, captured)
            && OnlyList(c, c', conv) && c'.convs == c.convs && c'.ended == c.ended
  {
    OlderGoesInFront(t, c, conv, captured, page);
    ChangesRaws(t, c, page);
    hide RememberAll, Shown, Visible;
  }

  lemma OnlyListTwice(c: Chat, d: Chat, e: Chat, conv: string)
    requires OnlyList(c, d, conv) && OnlyList(d, e, conv)
    ensures OnlyList(c, e, conv)
  {
  }

  /** While a message is looked for, every page goes in front; */
  lemma SearchAddsPage(t: Table, c: Chat, conv: string, target: MsgId, captured: seq<Msg>, page: seq<Raw>, isEnd: bool)
    requires page != [] && !HasId(Shown(t, conv, page) + Visible(t, conv, captured), target)
    ensures var c' := Located(t, c, conv, target, captured, page, isEnd);
            && OnlyList(c, c', conv) && c'.convs == c.convs && c'.ended == c.ended[conv := isEnd]
            && ListOf(c', conv) == Shown(t, conv, page) + Visible(t, conv, captured)
  {
    PrependedChanges(t, c.(ended := c.ended[conv := isEnd]), conv, captured, page);
    hide Prepended, Shown, Visible, HasId;
  }

  /** when it is found the list starts with it. */
  lemma SearchStartsAtTarget(t: Table, c: Chat, conv: string, target: MsgId, captured: seq<Msg>, page: seq<Raw>,
                             isEnd: bool)
    requires page != [] && HasId(Shown(t, conv, page) + Visible(t, conv, captured), target)
    ensures var c' := Located(t, c, conv, target, captured, page, isEnd);
            && OnlyList(c, c', conv) && c'.convs == c.convs
            && exists i :: StartsAt(Shown(t, conv, page) + Visible(t, conv, captured), ListOf(c', conv), target, i)
                           && c'.ended == c.ended[conv := if i > 0 then false else isEnd]
  {
    var c1 := Prepended(t, c.(ended := c.ended[conv := isEnd]), conv, captured, page);
    PrependedChanges(t, c.(ended := c.ended[conv := isEnd]), conv, captured, page);
    SearchCases(t, c, conv, target, captured, page, isEnd);
    hide Prepended, Shown, Visible, HasId, Located, RetainFrom, StartsAt, OnlyList;
    RetainStartsAt(c1, conv, target);
    OnlyListTwice(c, c1, RetainFrom(c1, conv, target), conv);
  }

  lemma SearchCases(t: Table, c: Chat, conv: string, target: MsgId, captured: seq<Msg>, page: seq<Raw>, isEnd: bool)
    requires page != []
    ensures var c1 := Prepended(t, c.(ended := c.ended[conv := isEnd]), conv, captured, page);
            && Located(t, c, conv, target, captured, page, isEnd) ==
               (if HasId(ListOf(c1, conv), target) then RetainFrom(c1, conv, target) else c1)
            && (OnlyList(c.(ended := c.ended[conv := isEnd]), c1, conv) ==> OnlyList(c, c1, conv))
            && c.ended[conv := isEnd][conv := false] == c.ended[conv := false]
  {
    hide Prepended, RetainFrom, HasId;
  }

  lemma {:induction false} FirstIndexIsFirst(list: seq<Msg>, id: MsgId)
    ensures forall k :: 0 <= k < FirstIndex(list, id) ==> list[k].id != id
  {
    if list != [] && list[0].id != id {
      FirstIndexIsFirst(list[1..], id);
      assert forall k :: 1 <= k < |list| ==> list[k] == list[1..][k - 1];
    }
  }

  // ----- one conversation -----

  /** Reading a conversation clears its unread count and nothing else. */
  lemma ReadingClearsCount(t: Table, c: Chat, conv: string)
    ensures var c' := DirectStep(t, c, MarkRead(conv));
            && c' == c.(convs := c'.convs)
            && (FindRow(c, conv).None? ==> c'.convs == c.convs)
            && (FindRow(c, conv).Some? ==> OneRow(c.convs, c'.convs, FindRow(c, conv).value, FindRow(c, conv).value.(unread := 0)))
  {
    if FindRow(c, conv).Some? {
      RowHasId(c, conv);
      PutRowExactly(c, FindRow(c, conv).value, FindRow(c, conv).value.(unread := 0));
    }
  }

  /** Clearing the history empties the room with its raw messages, leaves it at its end, and the row says nothing. */
  lemma ClearingEmpties(t: Table, c: Chat, conv: string)
    ensures var c' := DirectStep(t, c, Clear(conv));
            && c' == c.(convs := c'.convs, lists := c.lists[conv := []], ended := c.ended[conv := true], raws := c'.raws)
            && RawsWithout(c.raws, c'.raws, set m <- ListOf(c, conv) :: m.id)
            && (FindRow(c, conv).None? ==> c'.convs == c.convs)
            && (FindRow(c, conv).Some? ==>
                  var v := FindRow(c, conv).value;
                  OneRow(c.convs, c'.convs, v, v.(text := "", at := 0, seqNo := 0, lastId := None)))
  {
    var c1 := Emptied(c, conv);
    if FindRow(c, conv).Some? {
      var v := FindRow(c, conv).value;
      RowHasId(c, conv);
      PutRowExactly(c1, v, v.(text := "", at := 0, seqNo := 0, lastId := None));
      hide PutRow;
    }
  }

  /** Leaving a group takes its row and its messages away for good; every other row stays. */
  lemma LeavingRemoves(t: Table, c: Chat, conv: string, v: Conv)
    requires conv != ""
    ensures var c' := DirectStep(t, c, Exit(conv));
            && c' == c.(convs := c'.convs, lists := c.lists[conv := []], ended := c.ended[conv := true], raws := c'.raws,
                        hidden := c.hidden + {conv}, exited := c.exited + {conv})
            && RawsWithout(c.raws, c'.raws, set m <- ListOf(c, conv) :: m.id)
            && (v in c'.convs <==> v in c.convs && v.id != conv)
            && DirectStep(t, c, Exit("")) == c
  {
  }

  /** Hiding takes the row away and keeps the messages. */
  lemma HidingRemovesRow(t: Table, c: Chat, conv: string, v: Conv)
    ensures var c' := DirectStep(t, c, Hide(conv));
            && c' == c.(convs := c'.convs, hidden := c.hidden + {conv})
            && (v in c'.convs <==> v in c.convs && v.id != conv)
  {
  }

  /** A group that was left may come back, and is not hidden any more unless its other side is blocked. */
  lemma AllowingReturns(t: Table, c: Chat, conv: string)
    ensures var c' := DirectStep(t, c, Allow(conv));
            && c' == c.(hidden := c'.hidden, exited := c.exited - (if conv == "" then {} else {conv}))
            && (conv in c.exited && conv != "" ==>
                  (conv in c'.hidden <==> conv in c.hidden && OtherSide(c, conv) in c.blocked))
            && (conv !in c.exited || conv == "" ==> c'.hidden == c.hidden)
            && forall id :: id != conv ==> (id in c'.hidden <==> id in c.hidden)
  {
    UnhideChangesHidden(c.(exited := c.exited - {conv}), conv);
    if conv !in c.exited { assert c.exited - {conv} == c.exited; }
    assert c.exited - {} == c.exited;
  }

  /** A revocation puts the tip in the place of the message and changes no other. */
  lemma RevocationReplaces(t: Table, c: Chat, conv: string, id: MsgId, tip: string)
    ensures var c' := DirectStep(t, c, Revoke(conv, id, tip));
            && c' == c.(lists := c'.lists) && OnlyList(c, c', conv) && |ListOf(c', conv)| == |ListOf(c, conv)|
            && forall i :: 0 <= i < |ListOf(c, conv)| ==>
                 var m := ListOf(c, conv)[i];
                 ListOf(c', conv)[i] == if m.id == id then Msg(m.id, m.seqNo, m.status, m.at, tip, m.hasRead) else m
  {
  }

  /** Deleting a message takes it out of its room, with its raw copy; the others stay in order. */
  lemma DeletionRemoves(t: Table, c: Chat, conv: string, id: MsgId)
    ensures var c' := DirectStep(t, c, RemoveLocal(conv, id));
            && c' == c.(lists := c'.lists, raws := c'.raws) && OnlyList(c, c', conv)
            && RawsWithout(c.raws, c'.raws, {id})
            && (forall m <- ListOf(c', conv) :: m.id != id)
            && Filtered(ListOf(c, conv), ListOf(c', conv), (m: Msg) => m.id != id)
  {
    hide Select, Filtered;
    SelectFilters(ListOf(c, conv), (m: Msg) => m.id != id);
    assert ListOf(DirectStep(t, c, RemoveLocal(conv, id)), conv) == Select(ListOf(c, conv), (m: Msg) => m.id != id);
  }

  /** Read receipts mark the messages they name in every room. */
  lemma ReceiptsMark(t: Table, c: Chat, ids: set<MsgId>, conv: string)
    ensures var c' := DirectStep(t, c, Receipts(ids));
            && c' == c.(lists := c'.lists) && (conv in c'.lists <==> conv in c.lists)
            && |ListOf(c', conv)| == |ListOf(c, conv)|
            && forall i :: 0 <= i < |ListOf(c, conv)| ==>
                 var m := ListOf(c, conv)[i];
                 ListOf(c', conv)[i] == Msg(m.id, m.seqNo, m.status, m.at, m.body, m.hasRead || m.id in ids)
  {
  }

  /** Leaving a room forgets every other room and keeps the last two hundred messages of this one. */
  lemma LeavingRoomForgetsOthers(t: Table, c: Chat, room: string)
    requires room != ""
    ensures var c' := DirectStep(t, c, Leave(room));
            var list := ListOf(c, room);
            && c' == c.(lists := c'.lists, raws := c'.raws, ended := c'.ended)
            && (forall conv :: conv in c'.lists <==> conv in c.lists && conv == room)
            && ListOf(c', room) == (if |list| <= 200 then list else list[|list| - 200..])
            && c'.ended == (if |list| <= 200 then c.ended else c.ended[room := false])
            && DirectStep(t, c, Leave("")) == c
  {
    hide DropRaws;
    var c1 := OnlyRoom(c, room);
    assert ListOf(c1, room) == ListOf(c, room);
  }

  /** The raw messages that stay are those of no other room and of none that was cut. */
  lemma LeavingRoomKeepsRaws(t: Table, c: Chat, room: string, k: string)
    requires room != "" && |ListOf(c, room)| <= 200
    ensures var c' := DirectStep(t, c, Leave(room));
            && (k in c'.raws <==> k in c.raws && forall conv <- c.lists :: conv != room ==> !HasId(c.lists[conv], Sdk(k)))
            && (k in c'.raws ==> c'.raws[k] == c.raws[k])
  {
    var c1 := OnlyRoom(c, room);
    assert ListOf(c1, room) == ListOf(c, room);
  }

  /** Entering a conversation unhides it unless its other side is blocked. */
  lemma EnteringUnhides(t: Table, c: Chat, conv: string)
    ensures var c' := DirectStep(t, c, Enter(conv));
            && c' == c.(hidden := c'.hidden)
            && (conv in c'.hidden <==> conv in c.hidden && (conv == "" || OtherSide(c, conv) in c.blocked))
            && forall id :: id != conv ==> (id in c'.hidden <==> id in c.hidden)
  {
    UnhideChangesHidden(c, conv);
  }

  /** Blocking somebody and unblocking them change the blocked set by that one, */
  lemma BlockingTaken(t: Table, c: Chat, peer: string)
    ensures DirectStep(t, c, Block(peer)) == c.(blocked := c.blocked + {peer})
    ensures DirectStep(t, c, Unblock(peer)) == c.(blocked := c.blocked - {peer})
  {
  }

  /** opening a room makes it the active one, and listening is switched on and off. */
  lemma SwitchesTaken(t: Table, c: Chat, room: string)
    ensures DirectStep(t, c, Open(room)).active == room
    ensures DirectStep(t, c, Subscribe).subscribed && !DirectStep(t, c, Unsubscribe).subscribed
  {
  }

  /** Logging out forgets rows, messages and pages, stops listening, and starts a new session. */
  lemma LogoutForgets(t: Table, c: Chat)
    ensures var c' := DirectStep(t, c, Reset);
            && c'.convs == [] && c'.lists == map[] && c'.raws == map[] && c'.ended == map[]
            && c'.session == c.session + 1 && !c'.subscribed
            && (c'.hidden, c'.exited, c'.blocked, c'.peers) == (c.hidden, c.exited, c.blocked, c.peers)
            && c'.localCount == c.localCount
  {
  }
}

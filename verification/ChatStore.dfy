/**
 The chat store in the form the application runs it: fields that the functions reassign, and loops.
 Each method is proved against the function of ChatModel that the run theorems use. The retention
 table, which these functions only read, is a parameter.
 */
module ChatStore {
  import opened Options
  import opened RetentionTable
  import opened ChatModel
  import opened ChatInvariants

  /** Pruning one more conversation; pruning it twice changes nothing. */
  lemma PrunedNext(t: Table, lists: map<string, seq<Msg>>, ids: seq<string>, id: string)
    ensures var done := PrunedLists(t, lists, ids);
            PrunedLists(t, lists, ids + [id]) ==
            if id in done then done[id := Visible(t, id, done[id])] else done
  {
    if id in lists {
      SelectAll(Visible(t, id, lists[id]), (m: Msg) => !Removed(t, id, m.seqNo));
    }
  }

  /** The messages of all lists but these. */
  ghost function IdsElsewhere(lists: map<string, seq<Msg>>, convs: set<string>): set<MsgId> {
    set k, m | k in lists && k !in convs && m in lists[k] :: m.id
  }

  lemma OneMoreList(lists: map<string, seq<Msg>>, convs: set<string>, conv: string)
    requires conv in convs && conv in lists
    ensures IdsElsewhere(lists, convs - {conv}) == IdsElsewhere(lists, convs) + Ids(lists[conv])
  {
  }

  lemma OnlyRoomIs(c: Chat, room: string, kept: map<string, seq<Msg>>)
    requires kept.Keys == c.lists.Keys * {room} && forall k <- kept :: kept[k] == c.lists[k]
    ensures OnlyRoom(c, room) == c.(lists := kept, raws := DropRaws(c.raws, IdsElsewhere(c.lists, {room})))
  {
    assert kept == map k | k in c.lists && k == room :: c.lists[k];
    assert IdsElsewhere(c.lists, {room}) == set k, m | k in c.lists && k != room && m in c.lists[k] :: m.id;
  }

  lemma DropTwice(raws: map<string, Raw>, a: set<MsgId>, b: set<MsgId>)
    ensures DropRaws(DropRaws(raws, a), b) == DropRaws(raws, a + b)
  {
  }

  class ChatStore {
    var convs: seq<Conv>
    var lists: map<string, seq<Msg>>
    var raws: map<string, Raw>
    var ended: map<string, bool>
    var hidden: set<string>
    var exited: set<string>
    var blocked: set<string>
    var peers: map<string, string>
    var active: string
    var session: nat
    var localCount: nat
    var subscribed: bool

    ghost function State(): Chat
      reads this
    {
      Chat(convs, lists, raws, ended, hidden, exited, blocked, peers, active, session, localCount, subscribed)
    }

    function Messages(conv: string): seq<Msg>
      reads this
    {
      if conv in lists then lists[conv] else []
    }

    method FilterVisible(t: Table, conv: string, items: seq<Msg>) returns (kept: seq<Msg>)
      ensures kept == Visible(t, conv, items)
    {
      kept := [];
      for i := 0 to |items|
        invariant kept == Visible(t, conv, items[..i])
      {
        assert items[..i + 1][..i] == items[..i];
        if !Removed(t, conv, items[i].seqNo) { kept := kept + [items[i]]; }
      }
      assert items[..|items|] == items;
    }

    method PruneLists(t: Table, ids: seq<string>)
      modifies this`lists
      ensures lists == PrunedLists(t, old(lists), ids)
    {
      ghost var before := lists;
      assert PrunedLists(t, before, []) == before;
      for i := 0 to |ids|
        invariant lists == PrunedLists(t, before, ids[..i])
      {
        var id := ids[i];
        assert ids[..i + 1] == ids[..i] + [id];
        PrunedNext(t, before, ids[..i], id);
        if id in lists {
          var kept := FilterVisible(t, id, lists[id]);
          lists := lists[id := kept];
        }
      }
      assert ids[..|ids|] == ids;
    }

    method PruneRaws(t: Table)
      modifies this`raws
      ensures raws == map k | k in old(raws) && !Removed(t, old(raws)[k].conv, old(raws)[k].seqNo) :: old(raws)[k]
    {
      var next, todo := raws, raws.Keys;
      while todo != {}
        invariant todo <= raws.Keys
        invariant forall k :: k in next <==>
                    k in raws && (k in todo || !Removed(t, raws[k].conv, raws[k].seqNo))
        invariant forall k :: k in next ==> next[k] == raws[k]
        decreases todo
      {
        var key :| key in todo;
        if Removed(t, raws[key].conv, raws[key].seqNo) { next := next - {key}; }
        todo := todo - {key};
      }
      raws := next;
    }

    method PruneRetainedHistory(t: Table, ids: seq<string>)
      modifies this`lists, this`raws, this`convs
      ensures State() == Prune(t, old(State()), ids)
    {
      PruneLists(t, ids);
      PruneRaws(t);
      convs := SanitizeAll(t, convs);
    }

    method TrimRawMessagesWindow(conv: string)
      modifies this`raws
      ensures State() == TrimRaws(old(State()), conv)
    {
      if conv == "" { return; }
      var list := Messages(conv);
      if |list| <= RAW_WINDOW { return; }
      var keep := Ids(Tail(list, RAW_WINDOW));
      var next, todo := raws, raws.Keys;
      while todo != {}
        invariant todo <= raws.Keys
        invariant forall k :: k in next <==>
                    k in raws && (k in todo || raws[k].conv != conv || Sdk(k) in keep)
        invariant forall k :: k in next ==> next[k] == raws[k]
        decreases todo
      {
        var key :| key in todo;
        if raws[key].conv == conv && Sdk(key) !in keep { next := next - {key}; }
        todo := todo - {key};
      }
      raws := next;
    }

    method RememberRaw(t: Table, r: Raw)
      modifies this`raws
      ensures State() == Remember(t, old(State()), r)
    {
      if r.id == "" || Removed(t, r.conv, r.seqNo) { return; }
      raws := raws[r.id := r];
      if r.conv != active { TrimRawMessagesWindow(r.conv); }
    }

    method TrimMessageWindow(conv: string)
      modifies this`lists, this`raws, this`ended
      ensures State() == TrimWindow(old(State()), conv)
    {
      if conv !in lists || |lists[conv]| <= MESSAGE_WINDOW { return; }
      var list := lists[conv];
      lists := lists[conv := list[|list| - MESSAGE_WINDOW..]];
      raws := DropRaws(raws, Ids(list[..|list| - MESSAGE_WINDOW]));
      ended := ended[conv := false];
    }

    /** One pass over the list with a flag, then an append if the placeholder was not met. */
    method ReplaceMessage(t: Table, conv: string, temp: MsgId, m: Msg)
      modifies this`lists
      ensures State() == Replace(t, old(State()), conv, temp, m)
    {
      hide Visible;
      var list := Messages(conv);
      var replaced := false;
      var next: seq<Msg> := [];
      for i := 0 to |list|
        invariant next == Swap(list[..i], temp, m)
        invariant replaced == HasId(list[..i], temp)
        invariant !replaced ==> !HasId(next, m.id)
      {
        assert list[..i + 1] == list[..i] + [list[i]];
        assert list[..i + 1][..i] == list[..i];
        var x := list[i];
        if x.id == m.id && x.id != temp { continue; }
        if x.id == temp {
          next := next + [m];
          replaced := true;
          continue;
        }
        next := next + [x];
      }
      assert list[..|list|] == list;
      if !replaced && !(exists x <- next :: x.id == m.id) { next := next + [m]; }
      var kept := FilterVisible(t, conv, next);
      lists := lists[conv := kept];
    }

    method PatchRow(row: Conv)
      modifies this`convs
      ensures State() == PutRow(old(State()), row)
    {
      var i := IndexOf(convs, row.id);
      if i < |convs| { convs := convs[i := row]; }
    }

    method UnhideConversation(conv: string)
      modifies this`hidden
      ensures State() == Unhide(old(State()), conv)
    {
      if conv == "" || conv !in hidden { return; }
      var i := IndexOf(convs, conv);
      var peer := if i < |convs| && convs[i].peer != "" then convs[i].peer
                  else if conv in peers then peers[conv] else "";
      if peer in blocked { return; }
      hidden := hidden - {conv};
    }

    method PatchPreview(r: Raw)
      modifies this`convs
      ensures State() == Preview(old(State()), r)
    {
      var i := IndexOf(convs, r.conv);
      if i < |convs| {
        var viewing := active != "" && r.conv == active;
        var unread := if viewing || r.mine then 0 else convs[i].unread + (if r.notice then 0 else 1);
        PatchRow(convs[i].(text := r.body, at := r.at, seqNo := r.seqNo, lastId := Some(Sdk(r.id)), unread := unread));
      }
    }

    method ShowMessage(r: Raw)
      modifies this
      ensures State() == AppendToList(old(State()), r)
    {
      var list := Messages(r.conv);
      if exists m <- list :: m.id == Sdk(r.id) { return; }
      lists := lists[r.conv := list + [ToMsg(r)]];
      if r.conv != active { TrimMessageWindow(r.conv); }
      PatchPreview(r);
    }

    method AppendMessage(t: Table, r: Raw)
      modifies this
      ensures State() == Append(t, old(State()), r)
    {
      if r.id == "" || Removed(t, r.conv, r.seqNo) { return; }
      if r.conv != "" && r.conv in exited { return; }
      RememberRaw(t, r);
      if r.conv == "" || r.pin { return; }
      if r.conv in hidden {
        if r.notice || r.peer in blocked { return; }
        UnhideConversation(r.conv);
      }
      ShowMessage(r);
    }

    function Shows(v: Conv): bool
      reads this
    {
      && v.id !in hidden && v.id !in exited
      && (!v.isGroup && v.peer != "" ==> v.peer !in blocked)
    }

    method ShowableOnly(items: seq<Conv>) returns (kept: seq<Conv>)
      ensures kept == ShownRows(State(), items)
    {
      kept := [];
      for i := 0 to |items|
        invariant kept == ShownRows(State(), items[..i])
      {
        assert items[..i + 1][..i] == items[..i];
        if Shows(items[i]) { kept := kept + [items[i]]; }
      }
      assert items[..|items|] == items;
    }

    method DecorateItems(t: Table, items: seq<Conv>) returns (rows: seq<Conv>)
      ensures rows == DecorateAll(t, State(), items)
    {
      rows := [];
      for i := 0 to |items|
        invariant |rows| == i
        invariant forall k :: 0 <= k < i ==> rows[k] == Decorate(t, State(), items[k])
      {
        var mapped := Sanitize(t, items[i]);
        if !mapped.isGroup && mapped.peer == "" && mapped.id in peers {
          mapped := mapped.(peer := peers[mapped.id]);
        }
        rows := rows + [Sanitize(t, mapped)];
      }
    }

    method UpsertConversations(t: Table, items: seq<Conv>)
      modifies this`convs
      ensures State() == Upsert(t, old(State()), items)
    {
      var rows := DecorateItems(t, items);
      var incoming := ShowableOnly(rows);
      if incoming == [] { return; }
      var merged := convs;
      for i := 0 to |incoming|
        invariant merged == MergeRows(t, active, convs, incoming[..i])
      {
        assert incoming[..i + 1][..i] == incoming[..i];
        var v := incoming[i];
        var idx := IndexOf(merged, v.id);
        if idx < |merged| {
          merged := merged[idx := KeepNewer(t, active, merged[idx], v)];
        } else {
          merged := merged + [v];
        }
      }
      assert incoming[..|incoming|] == incoming;
      var shown := ShowableOnly(merged);
      convs := shown;
    }

    method RememberPage(t: Table, page: seq<Raw>)
      modifies this`raws
      ensures State() == RememberAll(t, old(State()), page)
    {
      for i := 0 to |page|
        invariant State() == RememberAll(t, old(State()), page[..i])
      {
        assert page[..i + 1][..i] == page[..i];
        RememberRaw(t, page[i]);
      }
      assert page[..|page|] == page;
    }

    /** loadMessages from its await on; `captured` was read before it. */
    method FinishLoad(t: Table, conv: string, captured: seq<Msg>, page: seq<Raw>, isEnd: bool, now: int)
      modifies this
      ensures State() == Loaded(t, old(State()), conv, captured, page, isEnd, now)
    {
      var existing := FilterVisible(t, conv, captured);
      RememberPage(t, page);
      var mapped := Shown(t, conv, page);
      if mapped == [] && existing != [] {
        ended := ended[conv := false];
        return;
      }
      var history := WithRead(mapped, existing);
      var kept := FilterVisible(t, conv, history + Pending(history, existing, now));
      lists := lists[conv := kept];
      ended := ended[conv := isEnd];
      TrimMessageWindow(conv);
    }

    /** Older messages go in front of the list that was captured before the await. */
    method Prepend(t: Table, conv: string, captured: seq<Msg>, page: seq<Raw>)
      modifies this`lists, this`raws
      ensures State() == Prepended(t, old(State()), conv, captured, page)
    {
      RememberPage(t, page);
      var kept := FilterVisible(t, conv, Shown(t, conv, page) + captured);
      lists := lists[conv := kept];
    }

    /** loadMoreMessages from its await on. */
    method FinishLoadMore(t: Table, conv: string, captured: seq<Msg>, page: seq<Raw>, isEnd: bool)
      returns (added: bool)
      modifies this
      ensures State() == LoadedMore(t, old(State()), conv, captured, page, isEnd)
      ensures added <==> Shown(t, conv, page) != []
    {
      ended := ended[conv := isEnd];
      added := Shown(t, conv, page) != [];
      if page == [] {
        assert Shown(t, conv, page) == [];
      } else if added {
        Prepend(t, conv, captured, page);
      } else {
        RememberPage(t, page);
      }
    }

    method DropRow(conv: string)
      modifies this`convs
      ensures convs == WithoutRow(old(convs), conv)
    {
      var kept: seq<Conv> := [];
      for i := 0 to |convs|
        invariant kept == WithoutRow(convs[..i], conv)
      {
        assert convs[..i + 1][..i] == convs[..i];
        if convs[i].id != conv { kept := kept + [convs[i]]; }
      }
      assert convs[..|convs|] == convs;
      convs := kept;
    }

    method EmptyConversation(conv: string)
      modifies this`lists, this`ended, this`raws
      ensures State() == Emptied(old(State()), conv)
    {
      raws := DropRaws(raws, Ids(Messages(conv)));
      lists := lists[conv := []];
      ended := ended[conv := true];
    }

    method RemoveExitedGroupConversation(conv: string)
      modifies this
      ensures State() == Exited(old(State()), conv)
    {
      if conv == "" { return; }
      DropRow(conv);
      EmptyConversation(conv);
      hidden, exited := hidden + {conv}, exited + {conv};
    }

    method NumberRaw(t: Table, conv: string, m: Msg, n: nat, found: Option<Raw>)
      modifies this`raws
      ensures State() == NumberedRaws(t, old(State()), conv, m, n, found)
    {
      var known := if found.Some? then found
                   else if m.id.Sdk? && m.id.id in raws then Some(raws[m.id.id]) else None;
      if Removed(t, conv, n) {
        raws := DropRaws(raws, {m.id});
      } else if known.Some? {
        RememberRaw(t, known.value.(seqNo := n));
      }
    }

    method NumberRow(t: Table, conv: string, m: Msg, n: nat)
      modifies this`convs
      ensures State() == NumberedRow(t, old(State()), conv, m, n)
    {
      var i := IndexOf(convs, conv);
      if i < |convs| && convs[i].lastId == Some(m.id) {
        PatchRow(Sanitize(t, convs[i].(seqNo := n)));
      }
    }

    /** The late sequence number of a native send. */
    method FinishNumbering(t: Table, conv: string, m: Msg, n: nat, found: Option<Raw>)
      modifies this
      ensures State() == Numbered(t, old(State()), conv, m, n, found)
    {
      if n == 0 || !(exists x <- Messages(conv) :: x.id == m.id) { return; }
      NumberRaw(t, conv, m, n, found);
      ReplaceMessage(t, conv, m.id, m.(seqNo := n));
      NumberRow(t, conv, m, n);
    }

    method MarkAsRead(conv: string)
      modifies this`convs
      ensures State() == MarkedRead(old(State()), conv)
    {
      var i := IndexOf(convs, conv);
      if i < |convs| { PatchRow(convs[i].(unread := 0)); }
    }

    method ClearHistory(conv: string)
      modifies this
      ensures State() == Cleared(old(State()), conv)
    {
      EmptyConversation(conv);
      var i := IndexOf(convs, conv);
      if i < |convs| { PatchRow(convs[i].(text := "", at := 0, seqNo := 0, lastId := None)); }
    }

    method HideConversationLocal(conv: string)
      modifies this
      ensures State() == Hidden(old(State()), conv)
    {
      DropRow(conv);
      hidden := hidden + {conv};
    }

    method AllowGroupConversation(conv: string)
      modifies this
      ensures State() == Allowed(old(State()), conv)
    {
      if conv == "" || conv !in exited { return; }
      exited := exited - {conv};
      UnhideConversation(conv);
    }

    method DropRevokedMessage(conv: string, id: MsgId, tip: string)
      modifies this`lists
      ensures State() == Revoked(old(State()), conv, id, tip)
    {
      if conv !in lists { return; }
      var list := lists[conv];
      var next: seq<Msg> := [];
      for i := 0 to |list|
        invariant |next| == i
        invariant forall k :: 0 <= k < i ==> next[k] == if list[k].id == id then list[k].(body := tip) else list[k]
      {
        next := next + [if list[i].id == id then list[i].(body := tip) else list[i]];
      }
      assert next == Revoked(State(), conv, id, tip).lists[conv];
      lists := lists[conv := next];
    }

    method RemoveLocal(conv: string, id: MsgId)
      modifies this`lists, this`raws
      ensures State() == RemovedLocal(old(State()), conv, id)
    {
      var list := Messages(conv);
      var next: seq<Msg> := [];
      for i := 0 to |list|
        invariant next == Select(list[..i], (m: Msg) => m.id != id)
      {
        assert list[..i + 1][..i] == list[..i];
        if list[i].id != id { next := next + [list[i]]; }
      }
      assert list[..|list|] == list;
      lists := lists[conv := next];
      raws := DropRaws(raws, {id});
    }

    /** One list with the read marks set. */
    method WithReadMarks(list: seq<Msg>, ids: set<MsgId>) returns (next: seq<Msg>)
      ensures |next| == |list|
      ensures forall k :: 0 <= k < |list| ==> next[k] == if list[k].id in ids then list[k].(hasRead := true) else list[k]
    {
      next := [];
      for i := 0 to |list|
        invariant |next| == i
        invariant forall k :: 0 <= k < i ==> next[k] == if list[k].id in ids then list[k].(hasRead := true) else list[k]
      {
        next := next + [if list[i].id in ids then list[i].(hasRead := true) else list[i]];
      }
    }

    /** Only lists in which something changes are rebuilt. */
    method MarkLoadedMessagesRead(ids: set<MsgId>)
      modifies this`lists
      ensures State() == ReadMarked(old(State()), ids)
    {
      var before, after, todo := lists, lists, lists.Keys;
      ghost var goal := ReadMarked(State(), ids).lists;
      while todo != {}
        invariant todo <= before.Keys && after.Keys == before.Keys
        invariant forall k <- before :: after[k] == if k in todo then before[k] else goal[k]
        decreases todo
      {
        var conv :| conv in todo;
        var list := before[conv];
        if exists m <- list :: m.id in ids && !m.hasRead {
          var next := WithReadMarks(list, ids);
          assert next == goal[conv];
          after := after[conv := next];
        } else {
          assert forall k :: 0 <= k < |list| ==> list[k] in list;
          assert list == goal[conv];
        }
        todo := todo - {conv};
      }
      lists := after;
    }

    /** Leaving a room: every other list goes with its raw messages. */
    method TrimConversationMemory(room: string)
      modifies this
      ensures State() == LeftRoom(old(State()), room)
    {
      if room == "" { return; }
      var before := lists;
      var kept, rest, todo := lists, raws, lists.Keys - {room};
      while todo != {}
        invariant todo <= before.Keys - {room}
        invariant kept.Keys == before.Keys * (todo + {room}) && forall k <- kept :: kept[k] == before[k]
        invariant rest == DropRaws(raws, IdsElsewhere(before, todo + {room})) && State() == old(State())
        decreases todo
      {
        var conv :| conv in todo;
        OneMoreList(before, todo + {room}, conv);
        assert todo + {room} - {conv} == todo - {conv} + {room};
        DropTwice(raws, IdsElsewhere(before, todo + {room}), Ids(before[conv]));
        todo := todo - {conv};
        kept := kept - {conv};
        rest := DropRaws(rest, Ids(before[conv]));
      }
      assert todo + {room} == {room};
      OnlyRoomIs(old(State()), room, kept);
      lists, raws := kept, rest;
      assert State() == OnlyRoom(old(State()), room);
      hide OnlyRoom, DropRaws, TrimWindow, TrimRaws;
      TrimMessageWindow(room);
      TrimRawMessagesWindow(room);
    }

    /** Keep the message that was looked for and what follows it. */
    method RetainFromMessage(conv: string, id: MsgId)
      modifies this`lists, this`raws, this`ended
      ensures State() == RetainFrom(old(State()), conv, id)
    {
      var list := Messages(conv);
      var index := FirstIndex(list, id);
      if index == 0 || index == |list| { return; }
      raws := DropRaws(raws, Ids(list[..index]));
      lists := lists[conv := list[index..]];
      ended := ended[conv := false];
    }

    /** One round of locateMessage from its await on. */
    method FinishLocate(t: Table, conv: string, target: MsgId, captured: seq<Msg>, page: seq<Raw>, isEnd: bool)
      returns (found: bool)
      modifies this
      ensures State() == Located(t, old(State()), conv, target, captured, page, isEnd)
    {
      ended := ended[conv := isEnd];
      if page == [] { return false; }
      Prepend(t, conv, captured, page);
      found := exists m <- Messages(conv) :: m.id == target;
      if found { RetainFromMessage(conv, target); }
    }

    // ----- sending -----

    method InsertPlaceholder(conv: string, body: string, at: int) returns (placeholder: Msg)
      modifies this`lists, this`localCount
      ensures placeholder == Placeholder(old(State()), body, at)
      ensures State() == Placed(old(State()), conv, body, at)
    {
      localCount := localCount + 1;
      placeholder := Msg(Local(localCount), 0, Sending, at, body, false);
      lists := lists[conv := Messages(conv) + [placeholder]];
    }

    method FailSend(t: Table, conv: string, placeholder: Msg, gone: bool)
      modifies this
      ensures State() == SendFailed(t, old(State()), conv, placeholder, gone)
    {
      ReplaceMessage(t, conv, placeholder.id, placeholder.(status := Failed));
      if gone { RemoveExitedGroupConversation(conv); }
    }

    /** The send callback up to its next await; the session is checked first. */
    method SendReturns(t: Table, conv: string, placeholder: Msg, started: nat, r: Raw)
      modifies this
      ensures State() == if started != old(session) then old(State()) else SendReturned(t, old(State()), conv, placeholder, r)
    {
      hide Remember, Replace, SendFailed, Exited, Unhide;
      if started != session { return; }
      RememberRaw(t, r);
      var i := IndexOf(convs, conv);
      if i == |convs| {
        FailSend(t, conv, placeholder, false);
      } else {
        ReplaceMessage(t, conv, placeholder.id, ToMsg(r));
        if conv in exited { FailSend(t, conv, placeholder, true); } else { UnhideConversation(conv); }
      }
    }

    /** Its second half: the preview, unless a newer one is there. */
    method Acknowledge(t: Table, conv: string, placeholder: Msg, m: Msg, started: nat)
      modifies this
      ensures State() == if started != old(session) then old(State()) else Acknowledged(t, old(State()), conv, placeholder, m)
    {
      if started != session { return; }
      var i := IndexOf(convs, conv);
      if i == |convs| {
        FailSend(t, conv, placeholder, false);
      } else {
        var v := convs[i];
        var newerSeq := v.seqNo != 0 && m.seqNo != 0 && v.seqNo > m.seqNo;
        if v.text == "" || (!newerSeq && v.at <= m.at) {
          PatchRow(Sanitize(t, v.(text := m.body, at := m.at, seqNo := m.seqNo, lastId := Some(m.id))));
        }
      }
    }

    method Reset()
      modifies this
      ensures State() == WasReset(old(State()))
    {
      session := session + 1;
      subscribed := false;
      convs, lists, raws, ended := [], map[], map[], map[];
    }
  }
}

/** Each writer of the chat store keeps the three properties of ChatInvariants. */
module ChatWriters {
  import opened Options
  import opened RetentionTable
  import opened ChatModel
  import opened ChatInvariants

  /** `c'` keeps whatever `c` had of agreement, tidiness and absence of exited groups. */
  ghost predicate KeepsThree(t: Table, c: Chat, c': Chat) {
    && (Agree(t, c) ==> Agree(t, c'))
    && (AllTidy(c) ==> AllTidy(c'))
    && (NoExited(c) ==> NoExited(c'))
    && c.localCount <= c'.localCount
  }

  /** Besides, no exited group is readmitted and the session stays. */
  ghost predicate Keeps(t: Table, c: Chat, c': Chat) {
    KeepsThree(t, c, c') && c.exited <= c'.exited && c'.session == c.session
  }

  /** Only the raw messages and the end-of-history flags differ, and the raw messages agree. */
  ghost predicate RawsOnly(t: Table, c: Chat, c': Chat) {
    && c' == c.(raws := c'.raws, ended := c'.ended)
    && (RawsAgree(t, c.raws) ==> RawsAgree(t, c'.raws))
  }

  lemma RememberRawsOnly(t: Table, c: Chat, r: Raw)
    ensures RawsOnly(t, c, Remember(t, c, r))
  {
  }

  lemma {:induction false} RememberAllRawsOnly(t: Table, c: Chat, page: seq<Raw>)
    ensures RawsOnly(t, c, RememberAll(t, c, page))
  {
    if page != [] {
      RememberAllRawsOnly(t, c, page[..|page| - 1]);
      RememberRawsOnly(t, RememberAll(t, c, page[..|page| - 1]), page[|page| - 1]);
    }
  }

  lemma RawsOnlyKeeps(t: Table, c: Chat, c': Chat)
    requires RawsOnly(t, c, c')
    ensures Keeps(t, c, c')
  {
  }

  /** One list is replaced by a clean, tidy one; raw messages may go, rows stay. */
  lemma ListReplaced(t: Table, c: Chat, c': Chat, conv: string, list: seq<Msg>)
    requires c'.lists == c.lists[conv := list]
    requires forall k :: k in c'.raws ==> k in c.raws && c'.raws[k] == c.raws[k]
    requires c'.convs == c.convs && c'.exited == c.exited && c'.localCount == c.localCount && c'.session == c.session
    requires Agree(t, c) ==> Clean(t, conv, list)
    requires AllTidy(c) ==> Tidy(list, c.localCount)
    ensures Keeps(t, c, c')
  {
  }

  lemma ListTidy(c: Chat, conv: string)
    ensures AllTidy(c) ==> Tidy(ListOf(c, conv), c.localCount)
  {
  }

  lemma ListClean(t: Table, c: Chat, conv: string)
    ensures Agree(t, c) ==> Clean(t, conv, ListOf(c, conv))
  {
  }

  lemma TrimWindowKeeps(t: Table, c: Chat, conv: string)
    ensures Keeps(t, c, TrimWindow(c, conv))
  {
    var list := ListOf(c, conv);
    if |list| > MESSAGE_WINDOW {
      ListTidy(c, conv);
      ListClean(t, c, conv);
      if AllTidy(c) { SliceTidy(list, |list| - MESSAGE_WINDOW, c.localCount); }
      assert forall m :: m in list[|list| - MESSAGE_WINDOW..] ==> m in list;
      ListReplaced(t, c, TrimWindow(c, conv), conv, list[|list| - MESSAGE_WINDOW..]);
    }
  }

  lemma TrimRawsKeeps(t: Table, c: Chat, conv: string)
    ensures Keeps(t, c, TrimRaws(c, conv))
  {
  }

  lemma KeepsTrans(t: Table, a: Chat, b: Chat, c: Chat)
    requires Keeps(t, a, b) && Keeps(t, b, c)
    ensures Keeps(t, a, c)
  {
  }

  // ----- rows -----

  lemma SanitizedAgrees(t: Table, v: Conv)
    ensures RowAgrees(t, Sanitize(t, v))
    ensures Sanitize(t, v).id == v.id && Sanitize(t, v).seqNo == v.seqNo
  {
  }

  /** A row changes in place, and agrees. */
  lemma PutRowKeeps(t: Table, c: Chat, v: Conv)
    requires Agree(t, c) ==> RowAgrees(t, v)
    ensures Keeps(t, c, PutRow(c, v))
  {
    var i := IndexOf(c.convs, v.id);
    if i < |c.convs| {
      assert c.convs[i] in c.convs;
      assert forall w :: w in c.convs[i := v] ==> w == v || w in c.convs;
    }
  }

  lemma RowIn(c: Chat, id: string)
    ensures FindRow(c, id).Some? ==> FindRow(c, id).value in c.convs && FindRow(c, id).value.id == id
  {
  }

  ghost predicate RowsFrom(t: Table, c: Chat, c': Chat) {
    && c' == c.(convs := c'.convs)
    && (RowsAgree(t, c.convs) ==> RowsAgree(t, c'.convs))
    && (forall v :: v in c'.convs ==> v.id !in c.exited)
  }

  lemma RowsFromKeeps(t: Table, c: Chat, c': Chat)
    requires RowsFrom(t, c, c')
    ensures Keeps(t, c, c')
  {
  }

  lemma {:induction false} MergeRowsAgree(t: Table, active: string, convs: seq<Conv>, incoming: seq<Conv>)
    requires RowsAgree(t, convs)
    requires forall v :: v in incoming ==> RowAgrees(t, v)
    ensures RowsAgree(t, MergeRows(t, active, convs, incoming))
  {
    if incoming != [] {
      var last := incoming[|incoming| - 1];
      var before := MergeRows(t, active, convs, incoming[..|incoming| - 1]);
      MergeRowsAgree(t, active, convs, incoming[..|incoming| - 1]);
      var i := IndexOf(before, last.id);
      if i < |before| {
        var kept := KeepNewer(t, active, before[i], last);
        assert forall w :: w in before[i := kept] ==> w == kept || w in before;
      }
    }
  }

  lemma DecoratedAgree(t: Table, c: Chat, items: seq<Conv>)
    ensures RowsAgree(t, DecorateAll(t, c, items))
  {
  }

  lemma UpsertKeeps(t: Table, c: Chat, items: seq<Conv>)
    ensures Keeps(t, c, Upsert(t, c, items))
  {
    DecoratedAgree(t, c, items);
    var incoming := ShownRows(c, DecorateAll(t, c, items));
    if RowsAgree(t, c.convs) {
      MergeRowsAgree(t, c.active, c.convs, incoming);
    }
    if incoming != [] {
      RowsFromKeeps(t, c, Upsert(t, c, items));
    }
  }

  lemma ListArrivedKeeps(t: Table, c: Chat, items: seq<Conv>)
    ensures Keeps(t, c, ListArrived(t, c, items))
  {
    forall i | 0 <= i < |items|
      ensures RowAgrees(t, Reloaded(t, c, items[i]))
    {
      var mapped := Decorate(t, c, items[i]);
      match Previous(c.convs, mapped.id)
      case Some(prev) =>
      case None =>
    }
    RowsFromKeeps(t, c, ListArrived(t, c, items));
  }

  lemma MarkedReadKeeps(t: Table, c: Chat, conv: string)
    ensures Keeps(t, c, MarkedRead(c, conv))
  {
    RowIn(c, conv);
    match FindRow(c, conv)
    case None =>
    case Some(v) => PutRowKeeps(t, c, v.(unread := 0));
  }

  // ----- incoming messages -----

  lemma PreviewKeeps(t: Table, c: Chat, r: Raw)
    requires !Removed(t, r.conv, r.seqNo)
    ensures Keeps(t, c, Preview(c, r))
  {
    match FindRow(c, r.conv)
    case None =>
    case Some(v) =>
      var unread := if (c.active != "" && r.conv == c.active) || r.mine then 0 else v.unread + (if r.notice then 0 else 1);
      PutRowKeeps(t, c, v.(text := r.body, at := r.at, seqNo := r.seqNo, lastId := Some(Sdk(r.id)), unread := unread));
  }

  lemma PushKeeps(t: Table, c: Chat, conv: string, m: Msg)
    requires !Removed(t, conv, m.seqNo)
    requires m.id.Local? ==> m.id.n <= c.localCount
    ensures KeepsWith(t, c, Push(c, conv, m), !HasId(ListOf(c, conv), m.id))
  {
    var list := ListOf(c, conv);
    ListTidy(c, conv);
    ListClean(t, c, conv);
    if !HasId(list, m.id) {
      ListReplaced(t, c, Push(c, conv, m), conv, list + [m]);
    }
  }

  lemma AppendToListKeeps(t: Table, c: Chat, r: Raw)
    requires !Removed(t, r.conv, r.seqNo)
    ensures Keeps(t, c, AppendToList(c, r))
  {
    if !HasId(ListOf(c, r.conv), Sdk(r.id)) {
      var c1 := Push(c, r.conv, ToMsg(r));
      PushKeeps(t, c, r.conv, ToMsg(r));
      var c2 := if r.conv != c.active then TrimWindow(c1, r.conv) else c1;
      TrimWindowKeeps(t, c1, r.conv);
      PreviewKeeps(t, c2, r);
      KeepsTrans(t, c, c1, c2);
      KeepsTrans(t, c, c2, AppendToList(c, r));
    }
  }

  lemma UnhideKeeps(t: Table, c: Chat, conv: string)
    ensures Keeps(t, c, Unhide(c, conv))
  {
  }

  lemma AppendKeeps(t: Table, c: Chat, r: Raw)
    ensures Keeps(t, c, Append(t, c, r))
  {
    if r.id != "" && !Removed(t, r.conv, r.seqNo) {
      hide Remember, AppendToList, Unhide;
      var c1 := Remember(t, c, r);
      var c2 := Unhide(c1, r.conv);
      RememberRawsOnly(t, c, r);
      RawsOnlyKeeps(t, c, c1);
      UnhideKeeps(t, c1, r.conv);
      AppendToListKeeps(t, c1, r);
      AppendToListKeeps(t, c2, r);
      KeepsTrans(t, c, c1, c2);
      KeepsTrans(t, c, c1, AppendToList(c1, r));
      KeepsTrans(t, c, c2, AppendToList(c2, r));
    }
  }

  // ----- replacing -----

  lemma ReplaceKeeps(t: Table, c: Chat, conv: string, temp: MsgId, m: Msg)
    requires m.id.Local? ==> m.id.n <= c.localCount
    ensures Keeps(t, c, Replace(t, c, conv, temp, m))
  {
    var list := ListOf(c, conv);
    ListTidy(c, conv);
    var next := Replaced(list, temp, m);
    VisibleClean(t, conv, next);
    if AllTidy(c) {
      ReplacedTidy(list, temp, m, c.localCount);
      VisibleTidy(t, conv, next, c.localCount);
    }
    ListReplaced(t, c, Replace(t, c, conv, temp, m), conv, Visible(t, conv, next));
  }

  // ----- history -----

  /** Agreement needs nothing of the page or of the captured list; distinctness needs the SDK's promise
      about the page and that the captured list was distinct. */
  ghost predicate KeepsWith(t: Table, c: Chat, c': Chat, contract: bool) {
    && (Agree(t, c) ==> Agree(t, c'))
    && (AllTidy(c) && contract ==> AllTidy(c'))
    && (NoExited(c) ==> NoExited(c'))
    && c.localCount <= c'.localCount && c.exited <= c'.exited && c'.session == c.session
  }

  lemma KeepsWithTrans(t: Table, a: Chat, b: Chat, c: Chat, contract: bool)
    requires KeepsWith(t, a, b, contract) && KeepsWith(t, b, c, contract)
    ensures KeepsWith(t, a, c, contract)
  {
  }

  /** One list is replaced by a clean one that is tidy under the contract. */
  lemma PageWritten(t: Table, c: Chat, c': Chat, conv: string, list: seq<Msg>, contract: bool)
    requires c' == c.(lists := c.lists[conv := list], ended := c'.ended)
    requires Clean(t, conv, list) && (contract ==> Tidy(list, c.localCount))
    ensures KeepsWith(t, c, c', contract)
  {
  }

  lemma WriteListKeeps(t: Table, c: Chat, conv: string, list: seq<Msg>, isEnd: bool, contract: bool)
    requires Clean(t, conv, list) && (contract ==> Tidy(list, c.localCount))
    ensures KeepsWith(t, c, TrimWindow(WriteList(c, conv, list, isEnd), conv), contract)
  {
    var c1 := WriteList(c, conv, list, isEnd);
    PageWritten(t, c, c1, conv, list, contract);
    TrimWindowKeeps(t, c1, conv);
    KeepsWithTrans(t, c, c1, TrimWindow(c1, conv), contract);
  }

  lemma LoadedKeeps(t: Table, c: Chat, conv: string, captured: seq<Msg>, page: seq<Raw>, isEnd: bool, now: int)
    ensures KeepsWith(t, c, Loaded(t, c, conv, captured, page, isEnd, now),
                      Tidy(captured, c.localCount) && PageDistinct(page))
  {
    var contract := Tidy(captured, c.localCount) && PageDistinct(page);
    var c1 := RememberAll(t, c, page);
    RememberAllRawsOnly(t, c, page);
    var list := Reconciled(t, conv, captured, page, now);
    ReconciledClean(t, conv, captured, page, now);
    if contract { ReconciledTidy(t, conv, captured, page, now, c.localCount); }
    WriteListKeeps(t, c1, conv, list, isEnd, contract);
    RawsOnlyKeeps(t, c, c1);
    RawsOnlyKeeps(t, c1, c1.(ended := c1.ended[conv := false]));
  }

  lemma ReconciledClean(t: Table, conv: string, captured: seq<Msg>, page: seq<Raw>, now: int)
    ensures Clean(t, conv, Reconciled(t, conv, captured, page, now))
  {
  }

  lemma ReconciledTidy(t: Table, conv: string, captured: seq<Msg>, page: seq<Raw>, now: int, n: nat)
    requires Tidy(captured, n) && PageDistinct(page)
    ensures Tidy(Reconciled(t, conv, captured, page, now), n)
  {
    var existing := Visible(t, conv, captured);
    VisibleTidy(t, conv, captured, n);
    ShownTidy(t, conv, page, n);
    WithReadIds(Shown(t, conv, page), existing, n);
    var history := WithRead(Shown(t, conv, page), existing);
    MergedTidy(history, existing, now, n);
    VisibleTidy(t, conv, history + Pending(history, existing, now), n);
  }

  /** An older page repeats nothing, neither in itself nor of the list it was asked for. */
  ghost predicate OlderPage(captured: seq<Msg>, page: seq<Raw>) {
    PageDistinct(page) && forall r :: r in page ==> !HasId(captured, Sdk(r.id))
  }

  lemma PrependedKeeps(t: Table, c: Chat, conv: string, captured: seq<Msg>, page: seq<Raw>)
    ensures KeepsWith(t, c, Prepended(t, c, conv, captured, page),
                      Tidy(captured, c.localCount) && OlderPage(captured, page))
  {
    var c1 := RememberAll(t, c, page);
    RememberAllRawsOnly(t, c, page);
    RawsOnlyKeeps(t, c, c1);
    var older := Shown(t, conv, page);
    VisibleClean(t, conv, older + captured);
    if Tidy(captured, c.localCount) && OlderPage(captured, page) {
      ShownTidy(t, conv, page, c.localCount);
      ConcatTidy(older, captured, c.localCount);
      VisibleTidy(t, conv, older + captured, c.localCount);
    }
    PageWritten(t, c1, Prepended(t, c, conv, captured, page), conv, Visible(t, conv, older + captured),
                Tidy(captured, c.localCount) && OlderPage(captured, page));
  }

  lemma LoadedMoreKeeps(t: Table, c: Chat, conv: string, captured: seq<Msg>, page: seq<Raw>, isEnd: bool)
    ensures KeepsWith(t, c, LoadedMore(t, c, conv, captured, page, isEnd),
                      Tidy(captured, c.localCount) && OlderPage(captured, page))
  {
    var c0 := c.(ended := c.ended[conv := isEnd]);
    RememberAllRawsOnly(t, c0, page);
    PrependedKeeps(t, c0, conv, captured, page);
  }

  lemma RetainFromKeeps(t: Table, c: Chat, conv: string, id: MsgId)
    ensures Keeps(t, c, RetainFrom(c, conv, id))
  {
    var list := ListOf(c, conv);
    var i := FirstIndex(list, id);
    if i != 0 && i != |list| {
      ListTidy(c, conv);
      ListClean(t, c, conv);
      if AllTidy(c) { SliceTidy(list, i, c.localCount); }
      assert forall m :: m in list[i..] ==> m in list;
      ListReplaced(t, c, RetainFrom(c, conv, id), conv, list[i..]);
    }
  }

  lemma LocatedKeeps(t: Table, c: Chat, conv: string, target: MsgId, captured: seq<Msg>, page: seq<Raw>, isEnd: bool)
    ensures KeepsWith(t, c, Located(t, c, conv, target, captured, page, isEnd),
                      Tidy(captured, c.localCount) && OlderPage(captured, page))
  {
    var contract := Tidy(captured, c.localCount) && OlderPage(captured, page);
    var c0 := c.(ended := c.ended[conv := isEnd]);
    RawsOnlyKeeps(t, c, c0);
    var c1 := Prepended(t, c0, conv, captured, page);
    PrependedKeeps(t, c0, conv, captured, page);
    RetainFromKeeps(t, c1, conv, target);
    KeepsWithTrans(t, c, c0, c1, contract);
    KeepsWithTrans(t, c, c1, RetainFrom(c1, conv, target), contract);
  }

  // ----- emptying -----

  lemma EmptiedKeeps(t: Table, c: Chat, conv: string)
    ensures Keeps(t, c, Emptied(c, conv))
  {
    ListReplaced(t, c, Emptied(c, conv), conv, []);
  }

  lemma ClearedKeeps(t: Table, c: Chat, conv: string)
    ensures Keeps(t, c, Cleared(c, conv))
  {
    EmptiedKeeps(t, c, conv);
    match FindRow(c, conv)
    case None =>
    case Some(v) =>
      PutRowKeeps(t, Emptied(c, conv), v.(text := "", at := 0, seqNo := 0, lastId := None));
  }

  /** Leaving a group also removes its row, so the store stays free of exited groups. */
  lemma ExitedKeeps(t: Table, c: Chat, conv: string)
    ensures Keeps(t, c, Exited(c, conv))
    ensures conv != "" ==> conv in Exited(c, conv).exited
  {
    EmptiedKeeps(t, c, conv);
  }

  lemma AllowedKeeps(t: Table, c: Chat, conv: string)
    ensures KeepsThree(t, c, Allowed(c, conv))
    ensures forall id :: id in c.exited && id != conv ==> id in Allowed(c, conv).exited
    ensures Allowed(c, conv).session == c.session
  {
  }

  lemma RevokedKeeps(t: Table, c: Chat, conv: string, id: MsgId, tip: string)
    ensures Keeps(t, c, Revoked(c, conv, id, tip))
  {
    if conv in c.lists {
      var list := ListOf(c, conv);
      var next := Revoked(c, conv, id, tip).lists[conv];
      ListTidy(c, conv);
      ListClean(t, c, conv);
      forall m | m in next
        ensures exists o :: o in list && o.id == m.id && o.seqNo == m.seqNo
      {
        var k :| 0 <= k < |next| && next[k] == m;
        assert list[k] in list;
      }
      ListReplaced(t, c, Revoked(c, conv, id, tip), conv, next);
    }
  }

  lemma RemovedLocalKeeps(t: Table, c: Chat, conv: string, id: MsgId)
    ensures Keeps(t, c, RemovedLocal(c, conv, id))
  {
    var list := ListOf(c, conv);
    ListTidy(c, conv);
    ListClean(t, c, conv);
    if AllTidy(c) { SelectDistinct(list, (m: Msg) => m.id != id); }
    ListReplaced(t, c, RemovedLocal(c, conv, id), conv, RemovedLocal(c, conv, id).lists[conv]);
  }

  lemma OnlyRoomKeeps(t: Table, c: Chat, room: string)
    ensures Keeps(t, c, OnlyRoom(c, room))
  {
  }

  lemma LeftRoomKeeps(t: Table, c: Chat, room: string)
    ensures Keeps(t, c, LeftRoom(c, room))
  {
    var c1 := OnlyRoom(c, room);
    OnlyRoomKeeps(t, c, room);
    TrimWindowKeeps(t, c1, room);
    TrimRawsKeeps(t, TrimWindow(c1, room), room);
  }

  lemma WasResetKeeps(t: Table, c: Chat)
    ensures KeepsThree(t, c, WasReset(c)) && WasReset(c).exited == c.exited
    ensures WasReset(c).session == c.session + 1
    ensures forall u: Table :: Agree(u, WasReset(c))
  {
  }

  lemma ReadMarkedKeeps(t: Table, c: Chat, ids: set<MsgId>)
    ensures Keeps(t, c, ReadMarked(c, ids))
  {
    var c' := ReadMarked(c, ids);
    forall conv | conv in c.lists
      ensures Clean(t, conv, c.lists[conv]) ==> Clean(t, conv, c'.lists[conv])
      ensures Tidy(c.lists[conv], c.localCount) ==> Tidy(c'.lists[conv], c.localCount)
    {
      SameIdsAndSeqs(t, conv, c.lists[conv], c'.lists[conv], c.localCount);
    }
  }

  lemma SameIdsAndSeqs(t: Table, conv: string, a: seq<Msg>, b: seq<Msg>, n: nat)
    requires |a| == |b|
    requires forall i :: 0 <= i < |a| ==> a[i].id == b[i].id && a[i].seqNo == b[i].seqNo
    ensures Clean(t, conv, a) ==> Clean(t, conv, b)
    ensures Tidy(a, n) ==> Tidy(b, n)
  {
    forall m | m in b
      ensures exists o :: o in a && o.id == m.id && o.seqNo == m.seqNo
    {
      var k :| 0 <= k < |b| && b[k] == m;
      assert a[k] in a;
    }
  }

  lemma HiddenKeeps(t: Table, c: Chat, conv: string)
    ensures Keeps(t, c, Hidden(c, conv))
  {
  }

  lemma AccountChangedKeeps(t: Table, c: Chat, hidden: set<string>, exited: set<string>, blocked: set<string>)
    ensures KeepsThree(t, c, AccountChanged(c, hidden, exited, blocked))
    ensures NoExited(AccountChanged(c, hidden, exited, blocked))
    ensures AccountChanged(c, hidden, exited, blocked).session == c.session
  {
  }

  // ----- sending -----

  /** A new placeholder has a number that no list has seen. */
  lemma PlacedKeeps(t: Table, c: Chat, conv: string, body: string, at: int)
    ensures Keeps(t, c, Placed(c, conv, body, at))
  {
    var c1 := c.(localCount := c.localCount + 1);
    NextNumber(t, c);
    PlaceholderIsNew(c, conv, body, at);
    PushKeeps(t, c1, conv, Placeholder(c, body, at));
  }

  lemma NextNumber(t: Table, c: Chat)
    ensures Keeps(t, c, c.(localCount := c.localCount + 1))
  {
  }

  lemma PlaceholderIsNew(c: Chat, conv: string, body: string, at: int)
    ensures AllTidy(c) ==> !HasId(ListOf(c, conv), Placeholder(c, body, at).id)
  {
    ListTidy(c, conv);
  }

  lemma SendFailedKeeps(t: Table, c: Chat, conv: string, placeholder: Msg, gone: bool)
    requires placeholder.id.Local? ==> placeholder.id.n <= c.localCount
    ensures Keeps(t, c, SendFailed(t, c, conv, placeholder, gone))
  {
    ReplaceKeeps(t, c, conv, placeholder.id, placeholder.(status := Failed));
    ExitedKeeps(t, Replace(t, c, conv, placeholder.id, placeholder.(status := Failed)), conv);
  }

  lemma DeliverKeeps(t: Table, c: Chat, conv: string, placeholder: Msg, r: Raw)
    requires placeholder.id.Local? ==> placeholder.id.n <= c.localCount
    ensures Keeps(t, c, Deliver(t, c, conv, placeholder, r))
  {
    var c1 := Replace(t, c, conv, placeholder.id, ToMsg(r));
    ReplaceKeeps(t, c, conv, placeholder.id, ToMsg(r));
    if conv in c1.exited {
      SendFailedKeeps(t, c1, conv, placeholder, true);
    } else {
      UnhideKeeps(t, c1, conv);
    }
  }

  lemma SendReturnedKeeps(t: Table, c: Chat, conv: string, placeholder: Msg, r: Raw)
    requires placeholder.id.Local? ==> placeholder.id.n <= c.localCount
    ensures Keeps(t, c, SendReturned(t, c, conv, placeholder, r))
  {
    var c1 := Remember(t, c, r);
    RememberRawsOnly(t, c, r);
    RawsOnlyKeeps(t, c, c1);
    if FindRow(c1, conv).None? {
      SendFailedKeeps(t, c1, conv, placeholder, false);
      KeepsTrans(t, c, c1, SendFailed(t, c1, conv, placeholder, false));
    } else {
      DeliverKeeps(t, c1, conv, placeholder, r);
      KeepsTrans(t, c, c1, Deliver(t, c1, conv, placeholder, r));
    }
  }

  lemma AcknowledgedKeeps(t: Table, c: Chat, conv: string, placeholder: Msg, m: Msg)
    requires placeholder.id.Local? ==> placeholder.id.n <= c.localCount
    ensures Keeps(t, c, Acknowledged(t, c, conv, placeholder, m))
  {
    match FindRow(c, conv)
    case None => SendFailedKeeps(t, c, conv, placeholder, false);
    case Some(v) => PutRowKeeps(t, c, AckedRow(t, v, m));
  }

  lemma NumberedRawsOnly(t: Table, c: Chat, conv: string, m: Msg, n: nat, raw: Option<Raw>)
    ensures RawsOnly(t, c, NumberedRaws(t, c, conv, m, n, raw))
  {
  }

  lemma NumberedRowKeeps(t: Table, c: Chat, conv: string, m: Msg, n: nat)
    ensures Keeps(t, c, NumberedRow(t, c, conv, m, n))
  {
    match FindRow(c, conv)
    case None =>
    case Some(v) => PutRowKeeps(t, c, Sanitize(t, v.(seqNo := n)));
  }

  lemma NumberedKeeps(t: Table, c: Chat, conv: string, m: Msg, n: nat, raw: Option<Raw>)
    requires m.id.Local? ==> m.id.n <= c.localCount
    ensures Keeps(t, c, Numbered(t, c, conv, m, n, raw))
  {
    var c0 := NumberedRaws(t, c, conv, m, n, raw);
    NumberedRawsOnly(t, c, conv, m, n, raw);
    RawsOnlyKeeps(t, c, c0);
    var c1 := Replace(t, c0, conv, m.id, m.(seqNo := n));
    ReplaceKeeps(t, c0, conv, m.id, m.(seqNo := n));
    NumberedRowKeeps(t, c1, conv, m, n);
    KeepsTrans(t, c, c0, c1);
    KeepsTrans(t, c, c1, NumberedRow(t, c1, conv, m, n));
  }

  lemma PreviewedKeeps(t: Table, c: Chat, conv: string, placeholder: Msg, body: string)
    requires placeholder.id.Local? ==> placeholder.id.n <= c.localCount
    ensures Keeps(t, c, Previewed(t, c, conv, placeholder, body))
  {
    ReplaceKeeps(t, c, conv, placeholder.id, placeholder.(body := body));
  }
}

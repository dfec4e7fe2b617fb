/**
 The chat store's three caches - message lists, raw messages and conversation previews - and the
 functions that run between two awaits. The retention table is read, never written, here.
 */
module ChatModel {
  import opened Options
  import opened RetentionTable

  /** SDK ids and the ids of local placeholders never collide: the latter carry a counter. */
  datatype MsgId = Sdk(id: string) | Local(n: nat)
  datatype Status = Sending | Sent | Failed

  /** A message as the room shows it; `seqNo` is 0 while the server has not numbered it. */
  datatype Msg = Msg(id: MsgId, seqNo: nat, status: Status, at: int, body: string, hasRead: bool)

  /** A message as the SDK delivers it, with the fields the store looks at. */
  datatype Raw = Raw(id: string, conv: string, seqNo: nat, status: Status, at: int, body: string, read: bool,
                     pin: bool, notice: bool, mine: bool, peer: string)

  /** A conversation row: `text`, `at`, `seqNo` and `lastId` describe its last message ("" / 0 when none). */
  datatype Conv = Conv(id: string, isGroup: bool, peer: string, text: string, at: int, seqNo: nat,
                       lastId: Option<MsgId>, unread: nat)

  /** `peers` names the other side of a private conversation from its id. */
  datatype Chat = Chat(convs: seq<Conv>, lists: map<string, seq<Msg>>, raws: map<string, Raw>,
                       ended: map<string, bool>, hidden: set<string>, exited: set<string>, blocked: set<string>,
                       peers: map<string, string>, active: string, session: nat, localCount: nat, subscribed: bool)

  const MESSAGE_WINDOW: nat := 200
  const RAW_WINDOW: nat := 300

  // ----- lists -----

  function Select<T>(s: seq<T>, p: T -> bool): (r: seq<T>)
    ensures |r| <= |s|
    ensures forall x <- r :: x in s && p(x)
    ensures forall x <- s :: p(x) ==> x in r
  {
    if s == [] then []
    else
      assert s == s[..|s| - 1] + [s[|s| - 1]];
      Select(s[..|s| - 1], p) + (if p(s[|s| - 1]) then [s[|s| - 1]] else [])
  }

  function Ids(list: seq<Msg>): set<MsgId> { set m <- list :: m.id }

  predicate HasId(list: seq<Msg>, id: MsgId) { exists m <- list :: m.id == id }

  function ListOf(c: Chat, conv: string): seq<Msg> {
    if conv in c.lists then c.lists[conv] else []
  }

  function Tail<T>(s: seq<T>, n: nat): seq<T> {
    if |s| <= n then s else s[|s| - n..]
  }

  /** groupRetention.filter applied to one conversation. */
  function Visible(t: Table, conv: string, list: seq<Msg>): seq<Msg> {
    Select(list, (m: Msg) => !Removed(t, conv, m.seqNo))
  }

  function ToMsg(r: Raw): Msg { Msg(Sdk(r.id), r.seqNo, r.status, r.at, r.body, r.read) }

  function ToMsgs(raws: seq<Raw>): seq<Msg> {
    seq(|raws|, i requires 0 <= i < |raws| => ToMsg(raws[i]))
  }

  /** The messages of a history page that may be shown in `conv`. */
  function Shown(t: Table, conv: string, page: seq<Raw>): seq<Msg> {
    ToMsgs(Select(page, (r: Raw) => !r.pin && !Removed(t, conv, r.seqNo)))
  }

  // ----- conversation rows -----

  function IndexOf(convs: seq<Conv>, id: string): (i: nat)
    ensures i <= |convs|
    ensures i < |convs| ==> convs[i].id == id
    ensures forall k :: 0 <= k < i ==> convs[k].id != id
  {
    if convs == [] || convs[0].id == id then 0 else 1 + IndexOf(convs[1..], id)
  }

  function FindRow(c: Chat, id: string): Option<Conv> {
    var i := IndexOf(c.convs, id);
    if i < |c.convs| then Some(c.convs[i]) else None
  }

  /** patchConversation: only an existing row changes. */
  function PutRow(c: Chat, row: Conv): Chat {
    var i := IndexOf(c.convs, row.id);
    if i < |c.convs| then c.(convs := c.convs[i := row]) else c
  }

  function Sanitize(t: Table, v: Conv): Conv {
    if Removed(t, v.id, v.seqNo) then v.(text := "", at := 0, unread := 0)
    else v.(unread := Unread(t, v.id, v.seqNo, v.unread))
  }

  function SanitizeAll(t: Table, convs: seq<Conv>): seq<Conv> {
    seq(|convs|, i requires 0 <= i < |convs| => Sanitize(t, convs[i]))
  }

  predicate ShouldShow(c: Chat, v: Conv) {
    && v.id !in c.hidden && v.id !in c.exited
    && (!v.isGroup && v.peer != "" ==> v.peer !in c.blocked)
  }

  function ShownRows(c: Chat, convs: seq<Conv>): seq<Conv> {
    Select(convs, (v: Conv) => ShouldShow(c, v))
  }

  function PeerOf(c: Chat, conv: string): string {
    match FindRow(c, conv)
    case Some(v) => if v.peer != "" then v.peer else if conv in c.peers then c.peers[conv] else ""
    case None => if conv in c.peers then c.peers[conv] else ""
  }

  function Unhide(c: Chat, conv: string): Chat {
    if conv == "" || conv !in c.hidden || PeerOf(c, conv) in c.blocked then c
    else c.(hidden := c.hidden - {conv})
  }

  /** An SDK conversation as a row: mapped, then decorated. */
  function Decorate(t: Table, c: Chat, item: Conv): Conv {
    var mapped := Sanitize(t, item);
    if !mapped.isGroup && mapped.peer == "" && mapped.id in c.peers then
      Sanitize(t, mapped.(peer := c.peers[mapped.id]))
    else Sanitize(t, mapped)
  }

  function KeepNewer(t: Table, active: string, prev: Conv, next: Conv): Conv {
    var merged := if prev.text != "" && prev.at > next.at
                  then next.(text := prev.text, at := prev.at, seqNo := prev.seqNo, lastId := prev.lastId)
                  else next;
    var merged := if active != "" && merged.id == active then merged.(unread := 0)
                  else if prev.unread == 0 && merged.unread > 0 && prev.at >= next.at then merged.(unread := 0)
                  else merged;
    Sanitize(t, merged)
  }

  function MergeRow(t: Table, active: string, convs: seq<Conv>, v: Conv): seq<Conv> {
    var i := IndexOf(convs, v.id);
    if i < |convs| then convs[i := KeepNewer(t, active, convs[i], v)] else convs + [v]
  }

  function MergeRows(t: Table, active: string, convs: seq<Conv>, incoming: seq<Conv>): seq<Conv> {
    if incoming == [] then convs
    else MergeRow(t, active, MergeRows(t, active, convs, incoming[..|incoming| - 1]), incoming[|incoming| - 1])
  }

  function DecorateAll(t: Table, c: Chat, items: seq<Conv>): seq<Conv> {
    seq(|items|, i requires 0 <= i < |items| => Decorate(t, c, items[i]))
  }

  function Upsert(t: Table, c: Chat, items: seq<Conv>): Chat {
    var incoming := ShownRows(c, DecorateAll(t, c, items));
    if incoming == [] then c
    else c.(convs := ShownRows(c, MergeRows(t, c.active, c.convs, incoming)))
  }

  /** The row a Map built from the old list would hold: the last one with this id. */
  function Previous(convs: seq<Conv>, id: string): Option<Conv> {
    if convs == [] then None
    else if convs[|convs| - 1].id == id then Some(convs[|convs| - 1])
    else Previous(convs[..|convs| - 1], id)
  }

  function Reloaded(t: Table, c: Chat, item: Conv): Conv {
    var mapped := Decorate(t, c, item);
    match Previous(c.convs, mapped.id)
    case Some(prev) => KeepNewer(t, c.active, prev, mapped)
    case None => mapped
  }

  /** The last step of loadConversations, when the SDK's list has arrived. */
  function ListArrived(t: Table, c: Chat, items: seq<Conv>): Chat {
    c.(convs := ShownRows(c, seq(|items|, i requires 0 <= i < |items| => Reloaded(t, c, items[i]))))
  }

  // ----- raw messages and windows -----

  function DropRaws(raws: map<string, Raw>, gone: set<MsgId>): map<string, Raw> {
    map k | k in raws && Sdk(k) !in gone :: raws[k]
  }

  function TrimRaws(c: Chat, conv: string): Chat {
    if conv == "" || |ListOf(c, conv)| <= RAW_WINDOW then c
    else
      var keep := Ids(Tail(ListOf(c, conv), RAW_WINDOW));
      c.(raws := map k | k in c.raws && (c.raws[k].conv != conv || Sdk(k) in keep) :: c.raws[k])
  }

  function Remember(t: Table, c: Chat, r: Raw): Chat {
    if r.id == "" || Removed(t, r.conv, r.seqNo) then c
    else
      var c1 := c.(raws := c.raws[r.id := r]);
      if r.conv == c.active then c1 else TrimRaws(c1, r.conv)
  }

  function RememberAll(t: Table, c: Chat, page: seq<Raw>): Chat {
    if page == [] then c else Remember(t, RememberAll(t, c, page[..|page| - 1]), page[|page| - 1])
  }

  function TrimWindow(c: Chat, conv: string): Chat {
    var list := ListOf(c, conv);
    if |list| <= MESSAGE_WINDOW then c
    else c.(lists := c.lists[conv := Tail(list, MESSAGE_WINDOW)],
            raws := DropRaws(c.raws, Ids(list[..|list| - MESSAGE_WINDOW])),
            ended := c.ended[conv := false])
  }

  // ----- the writers -----

  function PrunedLists(t: Table, lists: map<string, seq<Msg>>, ids: seq<string>): map<string, seq<Msg>> {
    map conv | conv in lists :: if conv in ids then Visible(t, conv, lists[conv]) else lists[conv]
  }

  function Prune(t: Table, c: Chat, ids: seq<string>): Chat {
    c.(lists := PrunedLists(t, c.lists, ids),
       raws := map k | k in c.raws && !Removed(t, c.raws[k].conv, c.raws[k].seqNo) :: c.raws[k],
       convs := SanitizeAll(t, c.convs))
  }

  /** The preview and unread patch that goes with a message just appended. */
  function Preview(c: Chat, r: Raw): Chat {
    match FindRow(c, r.conv)
    case None => c
    case Some(v) =>
      var viewing := c.active != "" && r.conv == c.active;
      PutRow(c, v.(text := r.body, at := r.at, seqNo := r.seqNo, lastId := Some(Sdk(r.id)),
                   unread := if viewing || r.mine then 0 else v.unread + (if r.notice then 0 else 1)))
  }

  function Push(c: Chat, conv: string, m: Msg): Chat {
    c.(lists := c.lists[conv := ListOf(c, conv) + [m]])
  }

  function AppendToList(c: Chat, r: Raw): Chat {
    if HasId(ListOf(c, r.conv), Sdk(r.id)) then c
    else
      var c1 := Push(c, r.conv, ToMsg(r));
      Preview(if r.conv != c.active then TrimWindow(c1, r.conv) else c1, r)
  }

  function Append(t: Table, c: Chat, r: Raw): Chat {
    if r.id == "" || Removed(t, r.conv, r.seqNo) || (r.conv != "" && r.conv in c.exited) then c
    else
      var c1 := Remember(t, c, r);
      if r.conv == "" || r.pin then c1
      else if r.conv !in c.hidden then AppendToList(c1, r)
      else if r.notice || r.peer in c.blocked then c1
      else AppendToList(Unhide(c1, r.conv), r)
  }

  /** One pass: the placeholder becomes the message, an earlier copy of the message goes. */
  function Swap(list: seq<Msg>, temp: MsgId, m: Msg): seq<Msg> {
    if list == [] then []
    else
      var front, last := Swap(list[..|list| - 1], temp, m), list[|list| - 1];
      if last.id == temp then front + [m] else if last.id == m.id then front else front + [last]
  }

  function Replaced(list: seq<Msg>, temp: MsgId, m: Msg): seq<Msg> {
    if HasId(list, temp) then Swap(list, temp, m) else Swap(list, temp, m) + [m]
  }

  function Replace(t: Table, c: Chat, conv: string, temp: MsgId, m: Msg): Chat {
    c.(lists := c.lists[conv := Visible(t, conv, Replaced(ListOf(c, conv), temp, m))])
  }

  /** Local messages that the history does not know yet and that are still pending or very recent. */
  function Pending(history: seq<Msg>, existing: seq<Msg>, now: int): seq<Msg> {
    Select(existing, (m: Msg) => !HasId(history, m.id)
                                 && (m.status != Sent || 0 <= now - m.at < 60000))
  }

  function WithRead(mapped: seq<Msg>, existing: seq<Msg>): seq<Msg> {
    seq(|mapped|, i requires 0 <= i < |mapped| =>
      if exists m <- existing :: m.hasRead && m.id == mapped[i].id then mapped[i].(hasRead := true) else mapped[i])
  }

  /** The list loadMessages writes: the page, then the captured messages it still has to keep. */
  function Reconciled(t: Table, conv: string, captured: seq<Msg>, page: seq<Raw>, now: int): seq<Msg> {
    var existing := Visible(t, conv, captured);
    var history := WithRead(Shown(t, conv, page), existing);
    Visible(t, conv, history + Pending(history, existing, now))
  }

  function WriteList(c: Chat, conv: string, list: seq<Msg>, isEnd: bool): Chat {
    c.(lists := c.lists[conv := list], ended := c.ended[conv := isEnd])
  }

  /** loadMessages after the page has arrived; `captured` is the list read before the await. */
  function Loaded(t: Table, c: Chat, conv: string, captured: seq<Msg>, page: seq<Raw>, isEnd: bool, now: int): Chat {
    var c1 := RememberAll(t, c, page);
    if Shown(t, conv, page) == [] && Visible(t, conv, captured) != [] then c1.(ended := c1.ended[conv := false])
    else TrimWindow(WriteList(c1, conv, Reconciled(t, conv, captured, page, now), isEnd), conv)
  }

  /** One page of older messages put in front of the list captured before the await. */
  function Prepended(t: Table, c: Chat, conv: string, captured: seq<Msg>, page: seq<Raw>): Chat {
    var c1 := RememberAll(t, c, page);
    c1.(lists := c1.lists[conv := Visible(t, conv, Shown(t, conv, page) + captured)])
  }

  function LoadedMore(t: Table, c: Chat, conv: string, captured: seq<Msg>, page: seq<Raw>, isEnd: bool): Chat {
    var c0 := c.(ended := c.ended[conv := isEnd]);
    if page == [] then c0
    else if Shown(t, conv, page) == [] then RememberAll(t, c0, page)
    else Prepended(t, c0, conv, captured, page)
  }

  function FirstIndex(list: seq<Msg>, id: MsgId): (i: nat)
    ensures i <= |list|
  {
    if list == [] || list[0].id == id then 0 else 1 + FirstIndex(list[1..], id)
  }

  /** Keep the located message and what follows it. */
  function RetainFrom(c: Chat, conv: string, id: MsgId): Chat {
    var list := ListOf(c, conv);
    var i := FirstIndex(list, id);
    if i == 0 || i == |list| then c
    else c.(lists := c.lists[conv := list[i..]], raws := DropRaws(c.raws, Ids(list[..i])),
            ended := c.ended[conv := false])
  }

  function Located(t: Table, c: Chat, conv: string, target: MsgId, captured: seq<Msg>, page: seq<Raw>,
                   isEnd: bool): Chat {
    var c0 := c.(ended := c.ended[conv := isEnd]);
    if page == [] then c0
    else
      var c1 := Prepended(t, c0, conv, captured, page);
      if HasId(ListOf(c1, conv), target) then RetainFrom(c1, conv, target) else c1
  }

  function MarkedRead(c: Chat, conv: string): Chat {
    match FindRow(c, conv)
    case None => c
    case Some(v) => PutRow(c, v.(unread := 0))
  }

  function Emptied(c: Chat, conv: string): Chat {
    c.(lists := c.lists[conv := []], ended := c.ended[conv := true], raws := DropRaws(c.raws, Ids(ListOf(c, conv))))
  }

  function Cleared(c: Chat, conv: string): Chat {
    var c1 := Emptied(c, conv);
    match FindRow(c, conv)
    case None => c1
    case Some(v) => PutRow(c1, v.(text := "", at := 0, seqNo := 0, lastId := None))
  }

  function WithoutRow(convs: seq<Conv>, conv: string): seq<Conv> {
    Select(convs, (v: Conv) => v.id != conv)
  }

  function Exited(c: Chat, conv: string): Chat {
    if conv == "" then c
    else Emptied(c, conv).(convs := WithoutRow(c.convs, conv),
                           hidden := c.hidden + {conv}, exited := c.exited + {conv})
  }

  function Allowed(c: Chat, conv: string): Chat {
    if conv == "" || conv !in c.exited then c else Unhide(c.(exited := c.exited - {conv}), conv)
  }

  function Revoked(c: Chat, conv: string, id: MsgId, tip: string): Chat {
    var list := ListOf(c, conv);
    if conv !in c.lists then c
    else c.(lists := c.lists[conv := seq(|list|, i requires 0 <= i < |list| =>
              if list[i].id == id then list[i].(body := tip) else list[i])])
  }

  function RemovedLocal(c: Chat, conv: string, id: MsgId): Chat {
    c.(lists := c.lists[conv := Select(ListOf(c, conv), (m: Msg) => m.id != id)], raws := DropRaws(c.raws, {id}))
  }

  /** Leaving a room: every other list goes, the room's own is cut to its window. */
  function OnlyRoom(c: Chat, room: string): Chat {
    var gone := set conv, m | conv in c.lists && conv != room && m in c.lists[conv] :: m.id;
    c.(lists := map conv | conv in c.lists && conv == room :: c.lists[conv], raws := DropRaws(c.raws, gone))
  }

  function LeftRoom(c: Chat, room: string): Chat {
    if room == "" then c else TrimRaws(TrimWindow(OnlyRoom(c, room), room), room)
  }

  function WasReset(c: Chat): Chat {
    c.(convs := [], lists := map[], raws := map[], ended := map[], session := c.session + 1, subscribed := false)
  }

  /** Read receipts are looked up by message id in every loaded list. */
  function ReadMarked(c: Chat, ids: set<MsgId>): Chat {
    c.(lists := map conv | conv in c.lists ::
                  seq(|c.lists[conv]|, i requires 0 <= i < |c.lists[conv]| =>
                    if c.lists[conv][i].id in ids then c.lists[conv][i].(hasRead := true) else c.lists[conv][i]))
  }

  function Hidden(c: Chat, conv: string): Chat {
    c.(convs := WithoutRow(c.convs, conv), hidden := c.hidden + {conv})
  }

  /** The account changed: the three id sets are read again and the rows filtered by them. */
  function AccountChanged(c: Chat, hidden: set<string>, exited: set<string>, blocked: set<string>): Chat {
    var c1 := c.(hidden := hidden, exited := exited, blocked := blocked);
    c1.(convs := ShownRows(c1, c.convs))
  }

  /** The server's list of blocked peers has arrived. */
  function BlockedRead(c: Chat, keys: set<string>): Chat {
    var c1 := c.(blocked := keys);
    if c.convs != [] && keys != {} then c1.(convs := ShownRows(c1, c.convs)) else c1
  }

  // ----- sending -----

  function Placeholder(c: Chat, body: string, at: int): Msg {
    Msg(Local(c.localCount + 1), 0, Sending, at, body, false)
  }

  function Placed(c: Chat, conv: string, body: string, at: int): Chat {
    Push(c.(localCount := c.localCount + 1), conv, Placeholder(c, body, at))
  }

  function SendFailed(t: Table, c: Chat, conv: string, placeholder: Msg, gone: bool): Chat {
    var c1 := Replace(t, c, conv, placeholder.id, placeholder.(status := Failed));
    if gone then Exited(c1, conv) else c1
  }

  /** The placeholder becomes the sent message; a group that was left meanwhile turns it into a failure. */
  function Deliver(t: Table, c: Chat, conv: string, placeholder: Msg, r: Raw): Chat {
    var c1 := Replace(t, c, conv, placeholder.id, ToMsg(r));
    if conv in c1.exited then SendFailed(t, c1, conv, placeholder, true) else Unhide(c1, conv)
  }

  /** The send callback, up to its next await. */
  function SendReturned(t: Table, c: Chat, conv: string, placeholder: Msg, r: Raw): Chat {
    var c1 := Remember(t, c, r);
    if FindRow(c1, conv).None? then SendFailed(t, c1, conv, placeholder, false)
    else Deliver(t, c1, conv, placeholder, r)
  }

  predicate NewerThan(v: Conv, m: Msg) {
    (v.seqNo != 0 && m.seqNo != 0 && v.seqNo > m.seqNo) || v.at > m.at
  }

  function AckedRow(t: Table, v: Conv, m: Msg): Conv {
    Sanitize(t, v.(text := m.body, at := m.at, seqNo := m.seqNo, lastId := Some(m.id)))
  }

  /** The rest of a successful send: its preview, unless a newer one is already there. */
  function Acknowledged(t: Table, c: Chat, conv: string, placeholder: Msg, m: Msg): Chat {
    match FindRow(c, conv)
    case None => SendFailed(t, c, conv, placeholder, false)
    case Some(v) =>
      if v.text == "" || !NewerThan(v, m) then PutRow(c, AckedRow(t, v, m)) else c
  }

  function NumberedRaws(t: Table, c: Chat, conv: string, m: Msg, n: nat, raw: Option<Raw>): Chat {
    var known := if raw.Some? then raw
                 else if m.id.Sdk? && m.id.id in c.raws then Some(c.raws[m.id.id]) else None;
    if Removed(t, conv, n) then c.(raws := DropRaws(c.raws, {m.id}))
    else match known
      case Some(r) => Remember(t, c, r.(seqNo := n))
      case None => c
  }

  function NumberedRow(t: Table, c: Chat, conv: string, m: Msg, n: nat): Chat {
    match FindRow(c, conv)
    case None => c
    case Some(v) => if v.lastId == Some(m.id) then PutRow(c, Sanitize(t, v.(seqNo := n))) else c
  }

  /** A native send learns its sequence number late, if the message is still shown. */
  function Numbered(t: Table, c: Chat, conv: string, m: Msg, n: nat, raw: Option<Raw>): Chat {
    if n == 0 || !HasId(ListOf(c, conv), m.id) then c
    else
      var c1 := Replace(t, NumberedRaws(t, c, conv, m, n, raw), conv, m.id, m.(seqNo := n));
      NumberedRow(t, c1, conv, m, n)
  }

  /** An image placeholder gets its preview before it is sent. */
  function Previewed(t: Table, c: Chat, conv: string, placeholder: Msg, body: string): Chat {
    if body == placeholder.body then c
    else Replace(t, c, conv, placeholder.id, placeholder.(body := body))
  }
}

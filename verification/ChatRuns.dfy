/**
 The chat store and the retention client together, as a machine whose steps are what JavaScript runs
 between two awaits. An operation that awaits leaves a continuation holding the values it captured;
 answers arrive in any order, interleaved with pushes, and may never arrive.
 */
module ChatRuns {
  import opened Options
  import opened RetentionTable
  import opened ChatModel
  import opened ChatInvariants
  import opened ChatWriters
  import opened ChatPrune
  import Protocol = RetentionProtocol

  datatype Cont =
    | Loading(conv: string, captured: seq<Msg>)
    | LoadingMore(conv: string, captured: seq<Msg>)
    | Locating(conv: string, target: MsgId, captured: seq<Msg>, pages: nat)
    | Delivering(conv: string, placeholder: Msg, session: nat)
    | Acking(conv: string, placeholder: Msg, delivered: Msg, session: nat, isGroup: bool)
    | Numbering(conv: string, delivered: Msg, session: nat)
    | Previewing(conv: string, placeholder: Msg)

  datatype Reply =
    | Page(page: seq<Raw>, isEnd: bool, now: int)
    | Returned(raw: Raw)
    | Refused(gone: bool)
    | Resumed
    | SeqKnown(n: nat, found: Option<Raw>)
    | PreviewReady(body: string)

  datatype System = System(world: Protocol.World, chat: Chat, conts: map<nat, Cont>, nextCont: nat)

  /** Steps that never suspend: pushes, SDK lists, the synchronous tails of short operations. */
  datatype Direct =
    | Incoming(r: Raw)
    | RowsChanged(items: seq<Conv>)
    | RowsListed(items: seq<Conv>)
    | MarkRead(conv: string)
    | Clear(conv: string)
    | Hide(conv: string)
    | Exit(conv: string)
    | Allow(conv: string)
    | Revoke(conv: string, id: MsgId, tip: string)
    | Receipts(ids: set<MsgId>)
    | RemoveLocal(conv: string, id: MsgId)
    | Enter(conv: string)
    | Recall(r: Raw)
    | Block(peer: string)
    | Unblock(peer: string)
    | Open(conv: string)
    | Leave(room: string)
    | Reset
    | Subscribe
    | Unsubscribe
    | HiddenSynced(keys: set<string>)
    | BlockedSynced(keys: set<string>)
    | SwitchAccount(hidden: set<string>, exited: set<string>, blocked: set<string>)

  /** Operations that suspend on their first await. */
  datatype Begin =
    | StartLoad(conv: string)
    | StartMore(conv: string)
    | StartLocate(conv: string, target: MsgId)
    | StartSend(conv: string, body: string, at: int)
    | StartImage(conv: string, path: string, at: int)

  datatype Event =
    | Client(e: Protocol.Event)
    | Now(d: Direct)
    | Start(b: Begin)
    | Resume(cont: nat, reply: Reply)

  function TableOf(s: System): Table { s.world.client.index.table }

  // ----- steps -----

  function ClientStep(s: System, e: Protocol.Event): System {
    var world := Protocol.Step(s.world, e);
    var used := e.Answer? && e.task in s.world.tasks && !s.world.tasks[e.task].answered
                && Protocol.Usable(s.world.client, s.world.tasks[e.task].ids, s.world.tasks[e.task].generation, e.reply);
    s.(world := world,
       chat := if used then Committed(TableOf(s), Protocol.ValidRows(e.reply.rows), s.chat) else s.chat)
  }

  function DirectStep(t: Table, c: Chat, d: Direct): Chat {
    match d
    case Incoming(r) => Append(t, c, r)
    case RowsChanged(items) => Upsert(t, c, items)
    case RowsListed(items) => ListArrived(t, c, items)
    case MarkRead(conv) => MarkedRead(c, conv)
    case Clear(conv) => Cleared(c, conv)
    case Hide(conv) => Hidden(c, conv)
    case Exit(conv) => Exited(c, conv)
    case Allow(conv) => Allowed(c, conv)
    case Revoke(conv, id, tip) => Revoked(c, conv, id, tip)
    case Receipts(ids) => ReadMarked(c, ids)
    case RemoveLocal(conv, id) => RemovedLocal(c, conv, id)
    case Enter(conv) => Unhide(c, conv)
    case Recall(r) => Remember(t, c, r)
    case Block(peer) => c.(blocked := c.blocked + {peer})
    case Unblock(peer) => c.(blocked := c.blocked - {peer})
    case Open(conv) => c.(active := conv)
    case Leave(room) => LeftRoom(c, room)
    case Reset => WasReset(c)
    case Subscribe => c.(subscribed := true)
    case Unsubscribe => c.(subscribed := false)
    case HiddenSynced(keys) => c.(hidden := keys)
    case BlockedSynced(keys) => BlockedRead(c, keys)
    case SwitchAccount(hidden, exited, blocked) => AccountChanged(c, hidden, exited, blocked)
  }

  predicate AtEnd(c: Chat, conv: string) { conv in c.ended && c.ended[conv] }

  /** The store and the continuation an operation leaves at its first await; None when it returns at once. */
  function Begun(c: Chat, b: Begin): (Chat, Option<Cont>) {
    var list := ListOf(c, b.conv);
    match b
    case StartLoad(conv) => (c, Some(Loading(conv, list)))
    case StartMore(conv) => (c, if AtEnd(c, conv) || list == [] then None else Some(LoadingMore(conv, list)))
    case StartLocate(conv, target) =>
      (c, if conv == "" || HasId(list, target) || AtEnd(c, conv) || list == [] then None
          else Some(Locating(conv, target, list, 0)))
    case StartSend(conv, body, at) =>
      if FindRow(c, conv).None? then (c, None)
      else (Placed(c, conv, body, at), Some(Delivering(conv, Placeholder(c, body, at), c.session)))
    case StartImage(conv, path, at) =>
      if FindRow(c, conv).None? then (c, None)
      else (Placed(c, conv, path, at), Some(Previewing(conv, Placeholder(c, path, at))))
  }

  function Continued(s: System, chat: Chat, next: Option<Cont>): System {
    match next
    case None => s.(chat := chat)
    case Some(k) => s.(chat := chat, conts := s.conts[s.nextCont := k], nextCont := s.nextCont + 1)
  }

  /** The store after a continuation has run to its next await. */
  function ChatAfter(t: Table, c: Chat, k: Cont, reply: Reply): Chat {
    match (k, reply)
    case (Loading(conv, captured), Page(page, isEnd, now)) => Loaded(t, c, conv, captured, page, isEnd, now)
    case (LoadingMore(conv, captured), Page(page, isEnd, _)) => LoadedMore(t, c, conv, captured, page, isEnd)
    case (Locating(conv, target, captured, _), Page(page, isEnd, _)) => Located(t, c, conv, target, captured, page, isEnd)
    case (Delivering(conv, placeholder, session), Returned(raw)) =>
      if session != c.session then c else SendReturned(t, c, conv, placeholder, raw)
    case (Delivering(conv, placeholder, session), Refused(gone)) =>
      if session != c.session then c else SendFailed(t, c, conv, placeholder, gone)
    case (Acking(conv, placeholder, delivered, session, _), Resumed) =>
      if session != c.session then c else Acknowledged(t, c, conv, placeholder, delivered)
    case (Numbering(conv, delivered, session), SeqKnown(n, raw)) =>
      if session != c.session then c else Numbered(t, c, conv, delivered, n, raw)
    case (Previewing(conv, placeholder), PreviewReady(body)) => Previewed(t, c, conv, placeholder, body)
    case _ => c
  }

  /** What it awaits next, if anything. */
  function Next(t: Table, c: Chat, k: Cont, reply: Reply): Option<Cont> {
    match (k, reply)
    case (Locating(conv, target, captured, pages), Page(page, isEnd, _)) =>
      var merged := Visible(t, conv, Shown(t, conv, page) + captured);
      if page == [] || HasId(merged, target) || isEnd || |merged| > 500 || pages + 1 >= 20 || merged == [] then None
      else Some(Locating(conv, target, merged, pages + 1))
    case (Delivering(conv, placeholder, session), Returned(raw)) =>
      if session != c.session || FindRow(c, conv).None? || conv in c.exited then None
      else Some(Acking(conv, placeholder, ToMsg(raw), session, FindRow(c, conv).value.isGroup))
    case (Acking(conv, placeholder, delivered, session, isGroup), Resumed) =>
      if session == c.session && FindRow(c, conv).Some? && isGroup && delivered.seqNo == 0
      then Some(Numbering(conv, delivered, session)) else None
    case (Previewing(conv, placeholder), PreviewReady(body)) =>
      if FindRow(c, conv).None? then None
      else Some(Delivering(conv, placeholder.(body := body), c.session))
    case _ => None
  }

  function Step(s: System, e: Event): System {
    match e
    case Client(e) => ClientStep(s, e)
    case Now(d) => s.(chat := DirectStep(TableOf(s), s.chat, d))
    case Start(b) => var (chat, next) := Begun(s.chat, b); Continued(s, chat, next)
    case Resume(k, reply) =>
      if k !in s.conts then s
      else Continued(s.(conts := s.conts - {k}), ChatAfter(TableOf(s), s.chat, s.conts[k], reply),
                     Next(TableOf(s), s.chat, s.conts[k], reply))
  }

  function Run(s: System, events: seq<Event>): System {
    if events == [] then s else Step(Run(s, events[..|events| - 1]), events[|events| - 1])
  }

  // ----- continuations -----

  function PlaceholderOf(k: Cont): Option<Msg> {
    match k
    case Delivering(_, m, _) => Some(m)
    case Acking(_, m, _, _, _) => Some(m)
    case Previewing(_, m) => Some(m)
    case _ => None
  }

  function DeliveredOf(k: Cont): Option<Msg> {
    match k
    case Acking(_, _, m, _, _) => Some(m)
    case Numbering(_, m, _) => Some(m)
    case _ => None
  }

  predicate IssuedCont(k: Cont, n: nat) {
    && (PlaceholderOf(k).Some? && PlaceholderOf(k).value.id.Local? ==> PlaceholderOf(k).value.id.n <= n)
    && (DeliveredOf(k).Some? ==> DeliveredOf(k).value.id.Sdk?)
  }

  /** Every suspended send holds a placeholder that was handed out. */
  ghost predicate ContsIssued(s: System) {
    forall k :: k in s.conts ==> IssuedCont(s.conts[k], s.chat.localCount)
  }

  function CapturedOf(k: Cont): seq<Msg> {
    match k
    case Loading(_, list) => list
    case LoadingMore(_, list) => list
    case Locating(_, _, list, _) => list
    case _ => []
  }

  /** Every captured list was a tidy list of the store. */
  ghost predicate ContsTidy(s: System) {
    forall k :: k in s.conts ==> Tidy(CapturedOf(s.conts[k]), s.chat.localCount)
  }

  /** What the SDK promises when it answers a request for history. */
  ghost predicate PagePromise(k: Cont, page: seq<Raw>) {
    match k
    case Loading(_, _) => PageDistinct(page)
    case LoadingMore(_, captured) => OlderPage(captured, page)
    case Locating(_, _, captured, _) => OlderPage(captured, page)
    case _ => true
  }

  ghost predicate SdkPromise(s: System, e: Event) {
    e.Resume? && e.cont in s.conts && e.reply.Page? ==> PagePromise(s.conts[e.cont], e.reply.page)
  }

  // ----- one step -----

  lemma ChatAfterKeeps(t: Table, c: Chat, k: Cont, reply: Reply)
    requires IssuedCont(k, c.localCount)
    ensures KeepsWith(t, c, ChatAfter(t, c, k, reply),
                      Tidy(CapturedOf(k), c.localCount) && (reply.Page? ==> PagePromise(k, reply.page)))
  {
    hide Loaded, LoadedMore, Located, SendReturned, SendFailed, Acknowledged, Numbered, Previewed, Tidy;
    match (k, reply)
    case (Loading(conv, captured), Page(page, isEnd, now)) => LoadedKeeps(t, c, conv, captured, page, isEnd, now);
    case (LoadingMore(conv, captured), Page(page, isEnd, _)) => LoadedMoreKeeps(t, c, conv, captured, page, isEnd);
    case (Locating(conv, target, captured, _), Page(page, isEnd, _)) =>
      LocatedKeeps(t, c, conv, target, captured, page, isEnd);
    case (Delivering(conv, placeholder, session), Returned(raw)) => SendReturnedKeeps(t, c, conv, placeholder, raw);
    case (Delivering(conv, placeholder, session), Refused(gone)) => SendFailedKeeps(t, c, conv, placeholder, gone);
    case (Acking(conv, placeholder, delivered, session, _), Resumed) =>
      AcknowledgedKeeps(t, c, conv, placeholder, delivered);
    case (Numbering(conv, delivered, session), SeqKnown(n, found)) => NumberedKeeps(t, c, conv, delivered, n, found);
    case (Previewing(conv, placeholder), PreviewReady(body)) => PreviewedKeeps(t, c, conv, placeholder, body);
    case _ =>
  }

  lemma BlockedReadKeeps(t: Table, c: Chat, keys: set<string>)
    ensures Keeps(t, c, BlockedRead(c, keys))
  {
  }

  /** The only two ways back: allowGroupConversation, and another account's stored ids. */
  predicate Readmits(d: Direct, id: string) {
    (d.Allow? && d.conv == id) || d.SwitchAccount?
  }

  lemma FlagsKeep(t: Table, c: Chat, c': Chat)
    requires c' == c.(hidden := c'.hidden, blocked := c'.blocked, active := c'.active, subscribed := c'.subscribed)
    ensures Keeps(t, c, c')
  {
  }

  /** Most operations let no exited group back and leave the session alone. */
  lemma QuietKeeps(t: Table, c: Chat, d: Direct)
    requires !d.Allow? && !d.Reset? && !d.SwitchAccount?
    ensures Keeps(t, c, DirectStep(t, c, d))
  {
    hide Append, Upsert, ListArrived, MarkedRead, Cleared, Hidden, Exited, Revoked, ReadMarked, RemovedLocal, LeftRoom,
         BlockedRead, Unhide, Remember, Keeps;
    match d
    case Incoming(r) => AppendKeeps(t, c, r);
    case RowsChanged(items) => UpsertKeeps(t, c, items);
    case RowsListed(items) => ListArrivedKeeps(t, c, items);
    case MarkRead(conv) => MarkedReadKeeps(t, c, conv);
    case Clear(conv) => ClearedKeeps(t, c, conv);
    case Hide(conv) => HiddenKeeps(t, c, conv);
    case Exit(conv) => ExitedKeeps(t, c, conv);
    case Revoke(conv, id, tip) => RevokedKeeps(t, c, conv, id, tip);
    case Receipts(ids) => ReadMarkedKeeps(t, c, ids);
    case RemoveLocal(conv, id) => RemovedLocalKeeps(t, c, conv, id);
    case Enter(conv) => UnhideKeeps(t, c, conv);
    case Recall(r) =>
      RememberRawsOnly(t, c, r);
      RawsOnlyKeeps(t, c, Remember(t, c, r));
    case Leave(room) => LeftRoomKeeps(t, c, room);
    case BlockedSynced(keys) => BlockedReadKeeps(t, c, keys);
    case _ => FlagsKeep(t, c, DirectStep(t, c, d));
  }

  lemma DirectKeeps(t: Table, c: Chat, d: Direct)
    ensures KeepsThree(t, c, DirectStep(t, c, d))
    ensures forall id :: id in c.exited && !Readmits(d, id) ==> id in DirectStep(t, c, d).exited
    ensures DirectStep(t, c, d).session == if d.Reset? then c.session + 1 else c.session
  {
    match d
    case Allow(conv) => AllowedKeeps(t, c, conv);
    case Reset => WasResetKeeps(t, c);
    case SwitchAccount(hidden, exited, blocked) => AccountChangedKeeps(t, c, hidden, exited, blocked);
    case _ =>
      hide DirectStep, KeepsThree;
      QuietKeeps(t, c, d);
  }

  lemma BegunKeeps(t: Table, c: Chat, b: Begin)
    ensures Keeps(t, c, Begun(c, b).0)
    ensures Begun(c, b).1.Some? ==> IssuedCont(Begun(c, b).1.value, Begun(c, b).0.localCount)
    ensures Begun(c, b).1.Some? && AllTidy(c) ==> Tidy(CapturedOf(Begun(c, b).1.value), Begun(c, b).0.localCount)
  {
    match b
    case StartSend(conv, body, at) => PlacedKeeps(t, c, conv, body, at);
    case StartImage(conv, path, at) => PlacedKeeps(t, c, conv, path, at);
    case _ => ListTidy(c, b.conv);
  }

  lemma NextIssued(t: Table, c: Chat, k: Cont, reply: Reply)
    requires Next(t, c, k, reply).Some? && IssuedCont(k, c.localCount)
    ensures IssuedCont(Next(t, c, k, reply).value, c.localCount)
  {
    hide Visible, Shown;
  }

  lemma NextTidy(t: Table, c: Chat, k: Cont, reply: Reply)
    requires Next(t, c, k, reply).Some? && Tidy(CapturedOf(k), c.localCount)
    requires reply.Page? ==> PagePromise(k, reply.page)
    ensures Tidy(CapturedOf(Next(t, c, k, reply).value), c.localCount)
  {
    hide Visible, Shown;
    if k.Locating? && reply.Page? {
      var older := Shown(t, k.conv, reply.page);
      ShownTidy(t, k.conv, reply.page, c.localCount);
      ConcatTidy(older, k.captured, c.localCount);
      VisibleTidy(t, k.conv, older + k.captured, c.localCount);
    }
  }

  lemma NextKeeps(t: Table, c: Chat, k: Cont, reply: Reply)
    ensures Next(t, c, k, reply).Some? && IssuedCont(k, c.localCount) ==>
              IssuedCont(Next(t, c, k, reply).value, c.localCount)
    ensures Next(t, c, k, reply).Some? && Tidy(CapturedOf(k), c.localCount)
            && (reply.Page? ==> PagePromise(k, reply.page)) ==>
              Tidy(CapturedOf(Next(t, c, k, reply).value), c.localCount)
  {
    hide Next, IssuedCont, Tidy, CapturedOf, PagePromise;
    if Next(t, c, k, reply).Some? {
      if IssuedCont(k, c.localCount) { NextIssued(t, c, k, reply); }
      if Tidy(CapturedOf(k), c.localCount) && (reply.Page? ==> PagePromise(k, reply.page)) {
        NextTidy(t, c, k, reply);
      }
    }
  }

  lemma ContinuedConts(s: System, chat: Chat, next: Option<Cont>)
    requires s.chat.localCount <= chat.localCount
    requires ContsIssued(s) && (next.Some? ==> IssuedCont(next.value, chat.localCount))
    ensures ContsIssued(Continued(s, chat, next))
    ensures ContsTidy(s) && (next.Some? ==> Tidy(CapturedOf(next.value), chat.localCount)) ==>
              ContsTidy(Continued(s, chat, next))
  {
  }

  // ----- invariants over runs -----

  /** Steps under which agreement is promised: the account does not change under the store, and the
      listener is subscribed whenever an answer is merged. */
  predicate Covered(s: System, e: Event) {
    e.Client? ==>
      && (e.e.Own? ==> e.e.owner == s.world.client.owner)
      && (e.e.Answer? ==> s.chat.subscribed)
  }

  lemma ClientStepTable(s: System, e: Protocol.Event)
    requires e.Own? ==> e.owner == s.world.client.owner
    requires e.Answer? ==> s.chat.subscribed
    ensures Agree(TableOf(s), s.chat) ==> Agree(TableOf(ClientStep(s, e)), ClientStep(s, e).chat)
  {
    if e.Answer? && e.task in s.world.tasks && !s.world.tasks[e.task].answered
       && Protocol.Usable(s.world.client, s.world.tasks[e.task].ids, s.world.tasks[e.task].generation, e.reply) {
      var rows := Protocol.ValidRows(e.reply.rows);
      Protocol.PutAllTable(s.world.client.index, rows);
      CommittedKeeps(TableOf(s), rows, s.chat);
    }
  }

  lemma StepAgrees(s: System, e: Event)
    requires ContsIssued(s) && Covered(s, e)
    ensures Agree(TableOf(s), s.chat) ==> Agree(TableOf(Step(s, e)), Step(s, e).chat)
  {
    match e
    case Client(e) => ClientStepTable(s, e);
    case Now(d) => DirectKeeps(TableOf(s), s.chat, d);
    case Start(b) => BegunKeeps(TableOf(s), s.chat, b);
    case Resume(k, reply) =>
      if k in s.conts { ChatAfterKeeps(TableOf(s), s.chat, s.conts[k], reply); }
  }

  lemma StepIssued(s: System, e: Event)
    requires ContsIssued(s)
    ensures ContsIssued(Step(s, e))
  {
    match e
    case Client(_) =>
    case Now(d) => DirectKeeps(TableOf(s), s.chat, d);
    case Start(b) =>
      BegunKeeps(TableOf(s), s.chat, b);
      ContinuedConts(s, Begun(s.chat, b).0, Begun(s.chat, b).1);
    case Resume(k, reply) =>
      if k in s.conts {
        var chat, next := ChatAfter(TableOf(s), s.chat, s.conts[k], reply), Next(TableOf(s), s.chat, s.conts[k], reply);
        ChatAfterKeeps(TableOf(s), s.chat, s.conts[k], reply);
        NextKeeps(TableOf(s), s.chat, s.conts[k], reply);
        ContinuedConts(s.(conts := s.conts - {k}), chat, next);
      }
  }

  lemma {:induction false} RunIssued(s: System, events: seq<Event>)
    requires ContsIssued(s)
    ensures ContsIssued(Run(s, events))
  {
    if events != [] {
      RunIssued(s, events[..|events| - 1]);
      StepIssued(Run(s, events[..|events| - 1]), events[|events| - 1]);
    }
  }

  ghost predicate CoveredRun(s: System, events: seq<Event>) {
    forall i :: 0 <= i < |events| ==> Covered(Run(s, events[..i]), events[i])
  }

  lemma PrefixRuns(s: System, events: seq<Event>, n: nat)
    requires n < |events|
    ensures forall i {:trigger events[..i]} :: 0 <= i <= n ==> events[..n][..i] == events[..i]
  {
  }

  /** Tombstone agreement: in every run, whatever the order of pushes, history pages, send callbacks, late
      sequence numbers and retention answers, nothing below a boundary is in any of the three caches. */
  lemma {:induction false} TombstoneAgreement(s: System, events: seq<Event>)
    requires Agree(TableOf(s), s.chat) && ContsIssued(s) && CoveredRun(s, events)
    ensures Agree(TableOf(Run(s, events)), Run(s, events).chat)
  {
    if events != [] {
      var n := |events| - 1;
      PrefixRuns(s, events, n);
      TombstoneAgreement(s, events[..n]);
      RunIssued(s, events[..n]);
      StepAgrees(Run(s, events[..n]), events[n]);
    }
  }

  // ----- list integrity -----

  ghost predicate TidySystem(s: System) {
    AllTidy(s.chat) && ContsTidy(s) && ContsIssued(s)
  }

  lemma ClientStepTidy(s: System, e: Protocol.Event)
    ensures AllTidy(s.chat) ==> AllTidy(ClientStep(s, e).chat)
    ensures NoExited(s.chat) ==> NoExited(ClientStep(s, e).chat)
    ensures ClientStep(s, e).chat.localCount == s.chat.localCount
    ensures ClientStep(s, e).chat.exited == s.chat.exited
  {
    hide Protocol.Step, Protocol.Acceptable, Protocol.ValidRows, Protocol.MovedIds, MergeAll, AllTidy, NoExited, SanitizeAll,
         PrunedLists;
    if s.chat.subscribed && e.Answer? && e.reply.Items? {
      CommittedKeeps(TableOf(s), Protocol.ValidRows(e.reply.rows), s.chat);
    }
  }

  lemma StepTidy(s: System, e: Event)
    requires TidySystem(s) && SdkPromise(s, e)
    ensures TidySystem(Step(s, e))
  {
    StepIssued(s, e);
    match e
    case Client(e) => ClientStepTidy(s, e);
    case Now(d) => DirectKeeps(TableOf(s), s.chat, d);
    case Start(b) =>
      BegunKeeps(TableOf(s), s.chat, b);
      ContinuedConts(s, Begun(s.chat, b).0, Begun(s.chat, b).1);
    case Resume(k, reply) =>
      if k in s.conts {
        var chat, next := ChatAfter(TableOf(s), s.chat, s.conts[k], reply), Next(TableOf(s), s.chat, s.conts[k], reply);
        ChatAfterKeeps(TableOf(s), s.chat, s.conts[k], reply);
        NextKeeps(TableOf(s), s.chat, s.conts[k], reply);
        ContinuedConts(s.(conts := s.conts - {k}), chat, next);
      }
  }

  ghost predicate SdkKeepsPromise(s: System, events: seq<Event>) {
    forall i :: 0 <= i < |events| ==> SdkPromise(Run(s, events[..i]), events[i])
  }

  /** No list ever shows a message twice, through every interleaving, provided that history pages
      repeat nothing. */
  lemma {:induction false} ListIntegrity(s: System, events: seq<Event>)
    requires TidySystem(s) && SdkKeepsPromise(s, events)
    ensures TidySystem(Run(s, events))
  {
    if events != [] {
      var n := |events| - 1;
      PrefixRuns(s, events, n);
      ListIntegrity(s, events[..n]);
      StepTidy(Run(s, events[..n]), events[n]);
    }
  }

  // ----- exited groups -----

  lemma StepStaysExited(s: System, e: Event, id: string)
    requires ContsIssued(s) && NoExited(s.chat) && id in s.chat.exited
    requires e.Now? ==> !Readmits(e.d, id)
    ensures NoExited(Step(s, e).chat) && id in Step(s, e).chat.exited
  {
    match e
    case Client(e) => ClientStepTidy(s, e);
    case Now(d) => DirectKeeps(TableOf(s), s.chat, d);
    case Start(b) => BegunKeeps(TableOf(s), s.chat, b);
    case Resume(k, reply) =>
      if k in s.conts { ChatAfterKeeps(TableOf(s), s.chat, s.conts[k], reply); }
  }

  /** A group that was left stays out of the conversation list until it is allowed back. */
  lemma {:induction false} ExitedStaysGone(s: System, events: seq<Event>, id: string)
    requires ContsIssued(s) && NoExited(s.chat) && id in s.chat.exited
    requires forall e :: e in events && e.Now? ==> !Readmits(e.d, id)
    ensures id in Run(s, events).chat.exited
    ensures forall v :: v in Run(s, events).chat.convs ==> v.id != id
    ensures NoExited(Run(s, events).chat)
  {
    if events != [] {
      var n := |events| - 1;
      assert events[n] in events;
      ExitedStaysGone(s, events[..n], id);
      RunIssued(s, events[..n]);
      StepStaysExited(Run(s, events[..n]), events[n], id);
    }
  }
}

/** What the pages of a history and the boundaries of a retention response bring about in a running store. */
module ChatAnswers {
  import opened Options
  import opened RetentionTable
  import opened ChatModel
  import opened ChatInvariants
  import opened ChatRuns
  import opened ChatEffects
  import opened ChatActionEffects
  import opened ChatHistory
  import Protocol = RetentionProtocol
  import Retention = RetentionEffects

  // ----- history pages -----

  /** Loading captures what the room shows; loading more and looking for a message do so only where there is something
      to go on from. */
  lemma PagesAreAwaited(s: System, conv: string, target: MsgId)
    ensures var list := ListOf(s.chat, conv);
            var atEnd := conv in s.chat.ended && s.chat.ended[conv];
            && Step(s, Start(StartLoad(conv))) == s.(conts := s.conts[s.nextCont := Loading(conv, list)], nextCont := s.nextCont + 1)
            && Step(s, Start(StartMore(conv))) ==
               (if atEnd || list == [] then s
                else s.(conts := s.conts[s.nextCont := LoadingMore(conv, list)], nextCont := s.nextCont + 1))
            && Step(s, Start(StartLocate(conv, target))) ==
               (if conv == "" || HasId(list, target) || atEnd || list == [] then s
                else s.(conts := s.conts[s.nextCont := Locating(conv, target, list, 0)], nextCont := s.nextCont + 1))
  {
    hide ClientStep, DirectStep, ChatAfter, Next;
  }

  /** A page answers the request that awaited it: the effects on the store are those of PageIsShown and
      OlderPageIsShown. */
  lemma PageArrives(s: System, k: nat, page: seq<Raw>, isEnd: bool, now: int)
    requires k in s.conts
    ensures var s', l := Step(s, Resume(k, Page(page, isEnd, now))), s.conts[k];
            && (l.Loading? ==> s' == s.(chat := Loaded(TableOf(s), s.chat, l.conv, l.captured, page, isEnd, now), conts := s.conts - {k}))
            && (l.LoadingMore? ==> s' == s.(chat := LoadedMore(TableOf(s), s.chat, l.conv, l.captured, page, isEnd),
                                            conts := s.conts - {k}))
  {
    hide ClientStep, DirectStep, Begun, Loaded, LoadedMore, Located, SendReturned, SendFailed, Acknowledged, Numbered,
         Previewed;
  }

  /** The search goes on from the longer list until it has found its message, the history or the list ends, the list
      passes five hundred messages, or twenty pages were read. */
  lemma SearchGoesOn(s: System, k: nat, page: seq<Raw>, isEnd: bool, now: int)
    requires k in s.conts && s.conts[k].Locating?
    ensures var s', l := Step(s, Resume(k, Page(page, isEnd, now))), s.conts[k];
            var all := Shown(TableOf(s), l.conv, page) + Visible(TableOf(s), l.conv, l.captured);
            && s'.chat == Located(TableOf(s), s.chat, l.conv, l.target, l.captured, page, isEnd)
            && s'.conts == (if page != [] && all != [] && !isEnd && !HasId(all, l.target) && |all| <= 500 && l.pages < 19
                            then (s.conts - {k})[s.nextCont := Locating(l.conv, l.target, all, l.pages + 1)]
                            else s.conts - {k})
  {
    var l := s.conts[k];
    MergedPage(TableOf(s), l.conv, page, l.captured);
    SearchResumes(s, k, page, isEnd, now);
    hide Step, Located, Shown, Visible, HasId;
  }

  lemma SearchResumes(s: System, k: nat, page: seq<Raw>, isEnd: bool, now: int)
    requires k in s.conts && s.conts[k].Locating?
    ensures var s', l := Step(s, Resume(k, Page(page, isEnd, now))), s.conts[k];
            var all := Visible(TableOf(s), l.conv, Shown(TableOf(s), l.conv, page) + l.captured);
            && s'.chat == Located(TableOf(s), s.chat, l.conv, l.target, l.captured, page, isEnd)
            && s'.conts == (if page == [] || HasId(all, l.target) || isEnd || |all| > 500 || l.pages + 1 >= 20 || all == []
                            then s.conts - {k}
                            else (s.conts - {k})[s.nextCont := Locating(l.conv, l.target, all, l.pages + 1)])
  {
    hide ClientStep, DirectStep, Begun, Loaded, LoadedMore, Located, SendReturned, SendFailed, Acknowledged, Numbered,
         Previewed, Shown, Visible, HasId;
  }

  lemma MergedPage(t: Table, conv: string, page: seq<Raw>, captured: seq<Msg>)
    ensures Visible(t, conv, Shown(t, conv, page) + captured) == Shown(t, conv, page) + Visible(t, conv, captured)
  {
    SelectConcat(Shown(t, conv, page), captured, (m: Msg) => !Removed(t, conv, m.seqNo));
    ShownVisible(t, conv, page);
    SelectAll(Shown(t, conv, page), (m: Msg) => !Removed(t, conv, m.seqNo));
  }

  // ----- boundaries -----

  /** A retention response takes from a listening store exactly what its boundaries hide: the rooms whose boundary is
      new or higher lose the messages below it and keep the others in order, the other rooms stay as they are, and a
      response that moves no boundary changes nothing. */
  lemma ResponseTakesExactly(s: System, task: nat, reply: Protocol.Reply, now: int, conv: string)
    requires task in s.world.tasks && !s.world.tasks[task].answered && s.chat.subscribed
    requires Protocol.Usable(s.world.client, s.world.tasks[task].ids, s.world.tasks[task].generation, reply)
    ensures var s' := Step(s, Client(Protocol.Answer(task, reply, now, true)));
            var t, t' := TableOf(s), TableOf(s');
            && (conv in s'.chat.lists <==> conv in s.chat.lists)
            && (conv in s.chat.lists && conv in t' && (conv in t ==> t[conv].minVisibleSeq < t'[conv].minVisibleSeq) ==>
                  Filtered(s.chat.lists[conv], s'.chat.lists[conv], (m: Msg) => !Removed(t', conv, m.seqNo)))
            && (conv in s.chat.lists && !(conv in t' && (conv in t ==> t[conv].minVisibleSeq < t'[conv].minVisibleSeq)) ==>
                  s'.chat.lists[conv] == s.chat.lists[conv])
            && ((forall id <- t' :: id in t && t'[id].minVisibleSeq <= t[id].minVisibleSeq) ==> s'.chat == s.chat)
  {
    var t, rows := TableOf(s), Protocol.ValidRows(reply.rows);
    ResponseMerges(s, task, reply, now);
    Retention.AnnouncedExactly(t, rows, conv);
    var ids := Protocol.MovedIds(t, rows);
    if ids != [] {
      Retention.AnnouncedExactly(t, rows, ids[0]);
      PruneTakesExactly(MergeAll(t, rows), s.chat, ids, conv);
    }
    hide Step, Prune, Filtered, Removed, Protocol.MovedIds, MergeAll;
  }

  lemma ResponseMerges(s: System, task: nat, reply: Protocol.Reply, now: int)
    requires task in s.world.tasks && !s.world.tasks[task].answered && s.chat.subscribed
    requires Protocol.Usable(s.world.client, s.world.tasks[task].ids, s.world.tasks[task].generation, reply)
    ensures var s', rows := Step(s, Client(Protocol.Answer(task, reply, now, true))), Protocol.ValidRows(reply.rows);
            && TableOf(s') == MergeAll(TableOf(s), rows)
            && s'.chat == var ids := Protocol.MovedIds(TableOf(s), rows);
                          if ids != [] then Prune(MergeAll(TableOf(s), rows), s.chat, ids) else s.chat
  {
    Protocol.PutAllTable(s.world.client.index, Protocol.ValidRows(reply.rows));
    hide DirectStep, ChatAfter, Next, Begun, Protocol.Acceptable, Protocol.PutAll, Protocol.ValidRows, Protocol.Values,
         Protocol.AnyStored, Protocol.MovedIds, MergeAll, Prune;
  }
}

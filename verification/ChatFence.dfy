/**
 Logging out while something is awaited: which continuations of the old session can still write to
 the store of the next one.
 */
module ChatFence {
  import opened Options
  import opened RetentionTable
  import opened ChatModel
  import opened ChatInvariants
  import opened ChatWriters
  import opened ChatRuns
  import opened ChatHistory
  import Protocol = RetentionProtocol
  import RetentionFence

  predicate IsSend(k: Cont) { k.Delivering? || k.Acking? || k.Numbering? }

  /** Continuations are numbered, and no send belongs to a session that has not begun. */
  ghost predicate SessionsOk(s: System) {
    ContsIssued(s) && forall k :: k in s.conts ==>
      k < s.nextCont && (IsSend(s.conts[k]) ==> s.conts[k].session <= s.chat.session)
  }

  lemma BegunSession(c: Chat, b: Begin)
    ensures Begun(c, b).0.session == c.session
    ensures var next := Begun(c, b).1; next.Some? && IsSend(next.value) ==> next.value.session == c.session
  {
  }

  lemma NextSession(t: Table, c: Chat, k: Cont, reply: Reply)
    ensures var next := Next(t, c, k, reply);
            next.Some? && IsSend(next.value) ==> next.value.session == c.session
  {
  }

  /** Sessions only advance; a continuation keeps its number and its content until it runs. */
  ghost predicate Later(s: System, s': System) {
    && s.chat.session <= s'.chat.session && s.nextCont <= s'.nextCont
    && forall k :: k < s.nextCont && k in s'.conts ==> k in s.conts && s'.conts[k] == s.conts[k]
  }

  lemma ClientLater(s: System, e: Protocol.Event)
    ensures var s' := ClientStep(s, e);
            s'.chat.session == s.chat.session && s'.conts == s.conts && s'.nextCont == s.nextCont
  {
    hide Protocol.Step, Protocol.Usable, PrunedLists, SanitizeAll;
  }

  lemma StepLater(s: System, e: Event)
    requires SessionsOk(s)
    ensures SessionsOk(Step(s, e)) && Later(s, Step(s, e))
  {
    hide ChatAfter, Next, DirectStep, Begun, ClientStep, IssuedCont;
    StepIssued(s, e);
    match e
    case Client(e) => ClientLater(s, e);
    case Now(d) => DirectKeeps(TableOf(s), s.chat, d);
    case Start(b) => BegunSession(s.chat, b);
    case Resume(k, reply) =>
      if k in s.conts {
        ChatAfterKeeps(TableOf(s), s.chat, s.conts[k], reply);
        NextSession(TableOf(s), s.chat, s.conts[k], reply);
      }
  }

  lemma {:induction false} RunLater(s: System, events: seq<Event>)
    requires SessionsOk(s)
    ensures SessionsOk(Run(s, events)) && Later(s, Run(s, events))
  {
    if events != [] {
      RunLater(s, events[..|events| - 1]);
      StepLater(Run(s, events[..|events| - 1]), events[|events| - 1]);
    }
  }

  /** No send that was awaited at logout ever changes the store again, however the run goes on: not its
      lists, not its raw messages, not its previews, and it awaits nothing further. */
  lemma OldSendsNeverReturn(s: System, events: seq<Event>, k: nat, reply: Reply)
    requires SessionsOk(s) && k in s.conts && IsSend(s.conts[k])
    ensures var v := Run(Step(s, Now(Reset)), events);
            Step(v, Resume(k, reply)).chat == v.chat
            && (k in v.conts ==> Step(v, Resume(k, reply)).conts == v.conts - {k})
  {
    hide ChatAfter, Next, Begun, ClientStep, ContsIssued, Run;
    var s1 := Step(s, Now(Reset));
    StepLater(s, Now(Reset));
    RunLater(s1, events);
    var v := Run(s1, events);
    if k in v.conts {
      assert v.conts[k] == s.conts[k] && v.conts[k].session < v.chat.session;
      StaleSend(TableOf(v), v.chat, v.conts[k], reply);
    }
  }

  lemma StaleSend(t: Table, c: Chat, k: Cont, reply: Reply)
    requires IsSend(k) && k.session != c.session
    ensures ChatAfter(t, c, k, reply) == c && Next(t, c, k, reply) == None
  {
  }

  /** Whatever is answered, does the continuation leave every store of a later session alone? */
  ghost predicate Fenced(k: Cont) {
    forall t: Table, c: Chat, reply: Reply ::
      (IsSend(k) ==> k.session < c.session) ==> ChatAfter(t, c, k, reply) == c
  }

  function Blank(session: nat): Chat {
    Chat([], map[], map[], map[], {}, {}, {}, map[], "", session, 0, true)
  }

  const Leak: Raw := Raw("m", "", 0, Sent, 0, "", false, false, false, false, "")

  lemma LeakShown(conv: string)
    ensures Shown(map[], conv, [Leak]) == [ToMsg(Leak)]
  {
    assert [Leak][..0] == [];
  }

  lemma LoadingLeaks(conv: string, captured: seq<Msg>)
    ensures conv in Loaded(map[], Blank(1), conv, captured, [Leak], false, 0).lists
  {
    hide Reconciled, RememberAll;
    LeakShown(conv);
  }

  lemma PrependingLeaks(c: Chat, conv: string, captured: seq<Msg>)
    ensures conv in Prepended(map[], c, conv, captured, [Leak]).lists
  {
  }

  lemma LocatingLeaks(conv: string, target: MsgId, captured: seq<Msg>)
    ensures conv in Located(map[], Blank(1), conv, target, captured, [Leak], false).lists
  {
    hide Prepended;
    var c0 := Blank(1).(ended := map[conv := false]);
    PrependingLeaks(c0, conv, captured);
    assert c0 == Blank(1).(ended := Blank(1).ended[conv := false]);
  }

  lemma LoadingMoreLeaks(conv: string, captured: seq<Msg>)
    ensures conv in LoadedMore(map[], Blank(1), conv, captured, [Leak], false).lists
  {
    hide Prepended;
    LeakShown(conv);
    PrependingLeaks(Blank(1).(ended := Blank(1).ended[conv := false]), conv, captured);
  }

  lemma HistoryLeaks(k: Cont)
    requires k.Loading? || k.LoadingMore? || k.Locating?
    ensures !Fenced(k)
  {
    hide Loaded, LoadedMore, Located;
    var c, reply := Blank(1), Page([Leak], false, 0);
    match k {
      case Loading(conv, captured) => LoadingLeaks(conv, captured);
      case LoadingMore(conv, captured) => LoadingMoreLeaks(conv, captured);
      case Locating(conv, target, captured, _) => LocatingLeaks(conv, target, captured);
      case _ =>
    }
    assert k.conv in ChatAfter(map[], c, k, reply).lists;
  }

  lemma PreviewLeaks(k: Cont)
    requires k.Previewing?
    ensures !Fenced(k)
  {
    var c := Blank(1);
    var after := ChatAfter(map[], c, k, PreviewReady(k.placeholder.body + "!"));
    assert |k.placeholder.body + "!"| != |k.placeholder.body|;
    assert k.conv in after.lists;
  }

  /** Exactly the send callbacks are fenced. A late history page and a late image preview of the old session
      still write to the store after a logout: they carry no session. */
  lemma FencedExactlySends(k: Cont)
    ensures Fenced(k) <==> IsSend(k)
  {
    if IsSend(k) {
      forall t: Table, c: Chat, reply: Reply | k.session < c.session
        ensures ChatAfter(t, c, k, reply) == c
      {
        StaleSend(t, c, k, reply);
      }
    } else if k.Previewing? {
      PreviewLeaks(k);
    } else {
      HistoryLeaks(k);
    }
  }

  // ----- a store that is not subscribed -----

  /** A client without an account, an empty storage and an empty store. */
  function JustStarted(): System {
    System(Protocol.World(Protocol.Client("", 0, Protocol.EMPTY, map[], map[]), map[], 0, map[], 0, 0, [], {}, true),
           Blank(0), map[], 0)
  }

  function Boundary(id: string): Protocol.Reply {
    Protocol.Items([RawRow(Text(id), Number(10), Number(1), Instant(0))])
  }

  function Message5(id: string): Raw { Raw("m", id, 5, Sent, 0, "", false, false, false, false, "") }

  lemma RunTwo(s: System, e: Event, f: Event)
    ensures Run(s, [e, f]) == Step(Step(s, e), f)
  {
    assert [e, f][..1] == [e] && [e][..0] == [];
    assert Run(s, [e]) == Step(s, e);
  }

  lemma {:induction false} RunConcat(s: System, first: seq<Event>, second: seq<Event>)
    ensures Run(s, first + second) == Run(Run(s, first), second)
  {
    hide Step;
    if second == [] {
      assert first + second == first;
    } else {
      var n := |second| - 1;
      RunConcat(s, first, second[..n]);
      assert (first + second)[..|first| + n] == first + second[..n];
    }
  }

  lemma OneRowAnswer(id: string)
    requires IsRetentionGroup(id)
    ensures Protocol.ValidRows(Boundary(id).rows) == [Row(id, 10, 1, 0)]
    ensures Protocol.PutAll(Protocol.EMPTY, [Row(id, 10, 1, 0)]).table == map[id := Row(id, 10, 1, 0)]
    ensures Protocol.Acceptable([id], Boundary(id).rows)
  {
    hide Protocol.ValidRows, Protocol.PutAll, IsRetentionGroup;
    RetentionFence.OneValidRow(Boundary(id).rows[0]);
    RetentionFence.OnePut(Row(id, 10, 1, 0));
    assert Boundary(id).rows == [Boundary(id).rows[0]];
  }

  /** The account is set and a boundary is requested, */
  lemma AccountSet(id: string)
    ensures var s := Run(JustStarted(), [Client(Protocol.Own("u", true)), Client(Protocol.Request([id]))]);
            s.chat == Blank(0) && s.conts == map[] && s.nextCont == 0 && Asked(s, id)
  {
    RunTwo(JustStarted(), Client(Protocol.Own("u", true)), Client(Protocol.Request([id])));
    assert Protocol.ValidOwner("u");
    assert Protocol.ValidRows([]) == [] && Protocol.PutAll(Protocol.EMPTY, []) == Protocol.EMPTY;
    var s1 := Step(JustStarted(), Client(Protocol.Own("u", true)));
    assert s1.world.client.owner == "u" && s1.world.client.index == Protocol.EMPTY && s1.world.client.pending == map[];
  }

  lemma LoadStarts(s: System, id: string)
    requires s.chat == Blank(0) && s.conts == map[] && s.nextCont == 0
    ensures Step(s, Start(StartLoad(id))) == s.(conts := map[0 := Loading(id, [])], nextCont := 1)
  {
    hide ClientStep, DirectStep, ChatAfter, Next;
  }

  lemma ResetUnsubscribes(s: System)
    requires s.chat == Blank(0)
    ensures Step(s, Now(Reset)) == s.(chat := Blank(1).(subscribed := false))
  {
    hide ClientStep, Begun, ChatAfter, Next;
  }

  /** a history page is awaited and the user logs out, which unsubscribes the store, */
  lemma LoggedOut(s: System, id: string)
    requires s.chat == Blank(0) && s.conts == map[] && s.nextCont == 0
    ensures var s' := Run(s, [Start(StartLoad(id)), Now(Reset)]);
            && s'.chat == Blank(1).(subscribed := false) && s'.conts == map[0 := Loading(id, [])] && s'.world == s.world
  {
    hide Step, Run;
    LoadStarts(s, id);
    ResetUnsubscribes(Step(s, Start(StartLoad(id))));
    RunTwo(s, Start(StartLoad(id)), Now(Reset));
  }

  lemma PageShown(id: string)
    requires IsRetentionGroup(id)
    ensures var c := Loaded(map[], Blank(1).(subscribed := false), id, [], [Message5(id)], true, 0);
            id in c.lists && c.lists[id] == [ToMsg(Message5(id))] && !c.subscribed
  {
    var page := [Message5(id)];
    assert page[..0] == [];
    assert Shown(map[], id, page) == [ToMsg(Message5(id))];
    ReloadIsPageThenPending(map[], id, [], page, 0);
    assert Reconciled(map[], id, [], page, 0) == [ToMsg(Message5(id))];
    hide Reconciled, Shown;
    RememberAllRawsOnly(map[], Blank(1).(subscribed := false), page);
  }

  ghost predicate Asked(s: System, id: string) {
    && s.world.client.index == Protocol.EMPTY
    && 0 in s.world.tasks && s.world.tasks[0].ids == [id] && !s.world.tasks[0].answered
    && s.world.tasks[0].generation == s.world.client.generation
  }

  lemma LoadingResumes(s: System, id: string, page: seq<Raw>)
    requires s.conts == map[0 := Loading(id, [])]
    ensures Step(s, Resume(0, Page(page, true, 0)))
         == s.(chat := Loaded(TableOf(s), s.chat, id, [], page, true, 0), conts := map[])
  {
    hide Loaded, LoadedMore, Located, SendReturned, SendFailed, Acknowledged, Numbered, Previewed, DirectStep, Begun,
         ClientStep;
    assert s.conts - {0} == map[];
  }

  /** then the page arrives with message 5, */
  lemma PageArrives(s: System, id: string)
    requires IsRetentionGroup(id) && s.world.client.index == Protocol.EMPTY
    requires s.chat == Blank(1).(subscribed := false) && s.conts == map[0 := Loading(id, [])]
    ensures var s' := Step(s, Resume(0, Page([Message5(id)], true, 0)));
            s'.world == s.world && id in s'.chat.lists && s'.chat.lists[id] == [ToMsg(Message5(id))] && !s'.chat.subscribed
  {
    PageShown(id);
    LoadingResumes(s, id, [Message5(id)]);
    hide Step, Loaded, IsRetentionGroup;
  }

  /** and the boundary 10. */
  lemma BoundaryArrives(s: System, id: string)
    requires IsRetentionGroup(id) && Asked(s, id) && !s.chat.subscribed
    requires id in s.chat.lists && s.chat.lists[id] == [ToMsg(Message5(id))]
    ensures var s' := Step(s, Client(Protocol.Answer(0, Boundary(id), 0, true)));
            !Agree(TableOf(s'), s'.chat)
  {
    OneRowAnswer(id);
    hide Protocol.ValidRows, Protocol.PutAll, Protocol.Acceptable, Prune, IsRetentionGroup;
    var s' := Step(s, Client(Protocol.Answer(0, Boundary(id), 0, true)));
    assert TableOf(s') == map[id := Row(id, 10, 1, 0)];
    assert s'.chat == s.chat;
    assert ToMsg(Message5(id)) in s'.chat.lists[id] && Removed(TableOf(s'), id, 5);
  }

  lemma LateArrivals(s: System, id: string)
    requires IsRetentionGroup(id) && Asked(s, id)
    requires s.chat == Blank(1).(subscribed := false) && s.conts == map[0 := Loading(id, [])]
    ensures var s' := Run(s, [Resume(0, Page([Message5(id)], true, 0)), Client(Protocol.Answer(0, Boundary(id), 0, true))]);
            !Agree(TableOf(s'), s'.chat)
  {
    RunTwo(s, Resume(0, Page([Message5(id)], true, 0)), Client(Protocol.Answer(0, Boundary(id), 0, true)));
    PageArrives(s, id);
    hide Step, Run, IsRetentionGroup, Agree;
    BoundaryArrives(Step(s, Resume(0, Page([Message5(id)], true, 0))), id);
  }

  /** A run that leaves a hidden message in the store, from a fresh start and without a change of account. */
  lemma LateRunDisagrees(id: string)
    requires IsRetentionGroup(id)
    ensures var s := Run(JustStarted(),
                         [Client(Protocol.Own("u", true)), Client(Protocol.Request([id]))]
                         + [Start(StartLoad(id)), Now(Reset)]
                         + [Resume(0, Page([Message5(id)], true, 0)), Client(Protocol.Answer(0, Boundary(id), 0, true))]);
            !Agree(TableOf(s), s.chat)
  {
    var a := [Client(Protocol.Own("u", true)), Client(Protocol.Request([id]))];
    var b := [Start(StartLoad(id)), Now(Reset)];
    var c := [Resume(0, Page([Message5(id)], true, 0)), Client(Protocol.Answer(0, Boundary(id), 0, true))];
    AccountSet(id);
    LoggedOut(Run(JustStarted(), a), id);
    LateArrivals(Run(Run(JustStarted(), a), b), id);
    RunConcat(JustStarted(), a, b);
    RunConcat(JustStarted(), a + b, c);
  }
}

/**
 The reload that follows the end of a server sync. Sync ends may come at any moment; while a reload is
 running they only raise a flag, and the loop runs again when the flag is up at its end.
 */
module RefreshLoop {

  /** Where the loop is suspended: nowhere, on the conversation list, or on the open room's messages. */
  datatype Phase = Idle | ListPending | RoomPending

  /** `starts` are the times at which reloads began, `ends` how many have finished, `asked` the times of
      the sync ends. Only the first three fields exist in the program. */
  datatype Loop = Loop(refreshing: bool, again: bool, phase: Phase, clock: nat,
                       starts: seq<nat>, ends: nat, asked: seq<nat>)

  datatype Event = SyncFinished | ListLoaded(roomOpen: bool) | RoomLoaded

  const START := Loop(false, false, Idle, 0, [], 0, [])

  function Begin(l: Loop): Loop {
    l.(refreshing := true, again := false, phase := ListPending, starts := l.starts + [l.clock])
  }

  /** The end of one reload: again if the flag is up. */
  function Finish(l: Loop): Loop {
    var l1 := l.(ends := l.ends + 1);
    if l.again then Begin(l1) else l1.(refreshing := false, phase := Idle)
  }

  function Step(l: Loop, e: Event): Loop {
    var l1 := l.(clock := l.clock + 1);
    match e
    case SyncFinished =>
      var l2 := l1.(asked := l.asked + [l1.clock]);
      if l.refreshing then l2.(again := true) else Begin(l2)
    case ListLoaded(roomOpen) =>
      if l.phase != ListPending then l1 else if roomOpen then l1.(phase := RoomPending) else Finish(l1)
    case RoomLoaded =>
      if l.phase != RoomPending then l1 else Finish(l1)
  }

  function Run(l: Loop, events: seq<Event>): Loop {
    if events == [] then l else Step(Run(l, events[..|events| - 1]), events[|events| - 1])
  }

  /** The request made at `time` has been met by a reload that began no earlier and has finished. */
  ghost predicate Served(l: Loop, time: nat) {
    exists k :: 0 <= k < l.ends && k < |l.starts| && time <= l.starts[k]
  }

  ghost predicate Inv(l: Loop) {
    && (l.refreshing <==> l.phase != Idle)
    && |l.starts| == l.ends + (if l.refreshing then 1 else 0)
    && (l.again ==> l.refreshing)
    && (forall k :: 0 <= k < |l.starts| ==> l.starts[k] <= l.clock)
    && (forall time :: time in l.asked ==>
          && time <= l.clock
          && (Served(l, time) || (l.refreshing && (l.again || time <= l.starts[|l.starts| - 1]))))
  }

  lemma ServedStays(l: Loop, l': Loop, time: nat)
    requires Served(l, time) && l.ends <= l'.ends && |l.starts| <= |l'.starts|
    requires forall k :: 0 <= k < |l.starts| ==> l'.starts[k] == l.starts[k]
    ensures Served(l', time)
  {
    var k :| 0 <= k < l.ends && k < |l.starts| && time <= l.starts[k];
    assert time <= l'.starts[k];
  }

  lemma FinishKeeps(l: Loop)
    requires Inv(l) && l.refreshing
    ensures Inv(Finish(l))
  {
    var l' := Finish(l);
    forall time | time in l'.asked
      ensures time <= l'.clock
      ensures Served(l', time) || (l'.refreshing && (l'.again || time <= l'.starts[|l'.starts| - 1]))
    {
      if Served(l, time) {
        ServedStays(l, l', time);
      } else if !l.again {
        assert time <= l'.starts[l.ends];
      }
    }
  }

  lemma StepKeeps(l: Loop, e: Event)
    requires Inv(l)
    ensures Inv(Step(l, e))
  {
    var l1 := l.(clock := l.clock + 1);
    assert forall time :: Served(l, time) <==> Served(l1, time);
    assert Inv(l1);
    match e
    case SyncFinished =>
      var l' := Step(l, e);
      forall time | time in l'.asked
        ensures time <= l'.clock
        ensures Served(l', time) || (l'.refreshing && (l'.again || time <= l'.starts[|l'.starts| - 1]))
      {
        if Served(l, time) { ServedStays(l, l', time); }
      }
    case ListLoaded(roomOpen) =>
      if l.phase == ListPending {
        if roomOpen {
          var l' := Step(l, e);
          assert forall time :: Served(l1, time) <==> Served(l', time);
        } else {
          FinishKeeps(l1);
        }
      }
    case RoomLoaded =>
      if l.phase == RoomPending { FinishKeeps(l1); }
  }

  lemma {:induction false} RunKeeps(l: Loop, events: seq<Event>)
    requires Inv(l)
    ensures Inv(Run(l, events)) && l.ends <= Run(l, events).ends
  {
    if events != [] {
      RunKeeps(l, events[..|events| - 1]);
      StepKeeps(Run(l, events[..|events| - 1]), events[|events| - 1]);
    }
  }

  /** No lost wake-up: when the loop is idle again, every sync end has been followed by a complete reload
      that began no earlier than it; and reloads never overlap. */
  lemma NoLostWakeUp(events: seq<Event>)
    ensures var l := Run(START, events);
            && (l.phase == Idle ==> forall time :: time in l.asked ==> Served(l, time))
            && l.ends <= |l.starts| <= l.ends + 1
  {
    RunKeeps(START, events);
  }

  // ----- bursts and termination -----

  function SyncEnds(events: seq<Event>): nat {
    if events == [] then 0
    else SyncEnds(events[..|events| - 1]) + (if events[|events| - 1].SyncFinished? then 1 else 0)
  }

  ghost predicate OnlySyncEnds(events: seq<Event>) {
    forall e :: e in events ==> e.SyncFinished?
  }

  lemma {:induction false} BurstRaisesFlag(l: Loop, burst: seq<Event>)
    requires Inv(l) && l.refreshing && OnlySyncEnds(burst)
    ensures var l' := Run(l, burst);
            && l'.refreshing && l'.phase == l.phase && l'.starts == l.starts && l'.ends == l.ends
            && (l'.again <==> l.again || burst != [])
  {
    if burst != [] {
      var front := burst[..|burst| - 1];
      assert burst[|burst| - 1] in burst;
      assert forall e :: e in front ==> e in burst;
      BurstRaisesFlag(l, front);
      RunKeeps(l, front);
    }
  }

  /** From its start to its end: sync ends before the list has loaded, the list, sync ends while the room loads if
      one is open, and the room. */
  function WholeReload(l: Loop, before: seq<Event>, roomOpen: bool, after: seq<Event>): Loop {
    var listed := Step(Run(l, before), ListLoaded(roomOpen));
    if roomOpen then Step(Run(listed, after), RoomLoaded) else listed
  }

  /** However many sync ends fall into one reload, in whichever part of it, they cause exactly one further reload,
      and none if there were none and none was waiting. */
  lemma BurstCausesOneReload(l: Loop, before: seq<Event>, roomOpen: bool, after: seq<Event>)
    requires Inv(l) && l.phase == ListPending && OnlySyncEnds(before) && OnlySyncEnds(after)
    requires !roomOpen ==> after == []
    ensures var l' := WholeReload(l, before, roomOpen, after);
            var further := l.again || before != [] || after != [];
            && l'.ends == l.ends + 1
            && |l'.starts| == |l.starts| + (if further then 1 else 0)
            && (l'.phase == Idle <==> !further) && !l'.again
  {
    BurstRaisesFlag(l, before);
    RunKeeps(l, before);
    if roomOpen {
      var listed := Step(Run(l, before), ListLoaded(true));
      StepKeeps(Run(l, before), ListLoaded(true));
      BurstRaisesFlag(listed, after);
    }
  }

  function Rank(l: Loop): nat {
    (match l.phase case Idle => 0 case RoomPending => 1 case ListPending => 2) + (if l.again then 2 else 0)
  }

  /** Without further sync ends, every answer to an await brings the loop closer to idle. */
  lemma AnswersReachIdle(l: Loop, e: Event)
    requires Inv(l)
    requires (l.phase == ListPending && e.ListLoaded?) || (l.phase == RoomPending && e.RoomLoaded?)
    ensures Rank(Step(l, e)) < Rank(l)
    ensures Rank(Step(l, e)) == 0 <==> Step(l, e).phase == Idle
  {
    StepKeeps(l, e);
  }

  // ----- the program's own form -----

  class RefreshState {
    var syncRefreshing: bool
    var pendingSyncRefresh: bool
    var phase: Phase

    constructor ()
      ensures !syncRefreshing && !pendingSyncRefresh && phase == Idle
    {
      syncRefreshing, pendingSyncRefresh, phase := false, false, Idle;
    }

    ghost predicate Shows(l: Loop)
      reads this
    {
      syncRefreshing == l.refreshing && pendingSyncRefresh == l.again && phase == l.phase
    }

    method RefreshAfterServerSync(ghost l: Loop)
      requires Shows(l)
      modifies this
      ensures Shows(Step(l, SyncFinished))
    {
      if syncRefreshing {
        pendingSyncRefresh := true;
        return;
      }
      syncRefreshing := true;
      pendingSyncRefresh := false;
      phase := ListPending;
    }

    /** After the list has loaded or failed to: the open room, or the loop condition. */
    method AfterList(roomOpen: bool, ghost l: Loop)
      requires Shows(l) && syncRefreshing && phase == ListPending
      modifies this
      ensures Shows(Step(l, ListLoaded(roomOpen)))
    {
      if roomOpen { phase := RoomPending; } else { LoopCondition(); }
    }

    method AfterRoom(ghost l: Loop)
      requires Shows(l) && syncRefreshing && phase == RoomPending
      modifies this
      ensures Shows(Step(l, RoomLoaded))
    {
      LoopCondition();
    }

    method LoopCondition()
      modifies this
      ensures syncRefreshing == if old(pendingSyncRefresh) then old(syncRefreshing) else false
      ensures phase == if old(pendingSyncRefresh) then ListPending else Idle
      ensures !pendingSyncRefresh
    {
      if pendingSyncRefresh {
        pendingSyncRefresh := false;
        phase := ListPending;
      } else {
        syncRefreshing := false;
        phase := Idle;
      }
    }
  }
}

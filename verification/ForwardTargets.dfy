/** Filling a forward task with its targets: which identifiers are sent, in which calls, and what the server keeps. */
module ForwardTargets {
  import opened Sequences

  const TARGET_WRITE_BATCH: nat := 1000

  /** A friend selector is passed on as it is. */
  datatype Selector = AllFriends | Chosen(query: string)

  datatype Plan =
    | Everyone(excludeUserIds: seq<string>)
    | Generated(selector: Selector, extraUserIds: seq<string>)
    | Listed(userIds: seq<string>)

  datatype Call =
    | Create(targets: seq<string>)
    | Generate(which: Selector)
    | Add(added: seq<string>)
    | Remove(dropped: seq<string>)

  // ----- identifiers -----

  /** Without empty identifiers, each at its first occurrence. */
  function Unique(ids: seq<string>): seq<string> {
    if ids == [] then []
    else
      var front, last := Unique(ids[..|ids| - 1]), ids[|ids| - 1];
      if last == "" || last in front then front else front + [last]
  }

  function FirstIndex(ids: seq<string>, x: string): (i: nat)
    ensures i <= |ids| && forall k :: 0 <= k < i ==> ids[k] != x
    ensures x in ids ==> i < |ids| && ids[i] == x
  {
    if ids == [] || ids[0] == x then 0
    else
      assert ids == [ids[0]] + ids[1..];
      1 + FirstIndex(ids[1..], x)
  }

  lemma FirstIndexUnique(ids: seq<string>, x: string, i: nat)
    requires i < |ids| && ids[i] == x && forall k :: 0 <= k < i ==> ids[k] != x
    ensures FirstIndex(ids, x) == i
  {
  }

  /** Exactly the non-empty identifiers, each once, in the order of their first occurrences. */
  lemma {:induction false} UniqueKeepsEach(ids: seq<string>)
    ensures Distinct(Unique(ids))
    ensures Elements(Unique(ids)) == Elements(ids) - {""}
    ensures forall i, j :: 0 <= i < j < |Unique(ids)| ==> FirstIndex(ids, Unique(ids)[i]) < FirstIndex(ids, Unique(ids)[j])
  {
    if ids != [] {
      var n := |ids| - 1;
      var front, last := ids[..n], ids[n];
      UniqueKeepsEach(front);
      assert ids == front + [last];
      forall x | x in Unique(front) ensures FirstIndex(ids, x) == FirstIndex(front, x) {
        assert x in Elements(Unique(front));
        var f := FirstIndex(front, x);
        assert forall k :: 0 <= k < f ==> ids[k] == front[k];
        FirstIndexUnique(ids, x, f);
      }
      assert Elements(ids) == Elements(front) + {last};
      if last != "" && last !in Unique(front) {
        assert last !in Elements(Unique(front));
        FirstIndexUnique(ids, last, n);
        assert Elements(Unique(ids)) == Elements(Unique(front)) + {last};
        forall i | 0 <= i < |Unique(front)| ensures FirstIndex(ids, Unique(front)[i]) < n {
          assert Unique(front)[i] in Elements(Unique(front));
        }
      } else if last in Unique(front) {
        assert last in Elements(Unique(front));
      }
    }
  }

  method UniqueIds(ids: seq<string>) returns (r: seq<string>)
    ensures r == Unique(ids)
  {
    r := [];
    for i := 0 to |ids|
      invariant r == Unique(ids[..i])
    {
      assert ids[..i + 1][..i] == ids[..i];
      if ids[i] != "" && ids[i] !in r { r := r + [ids[i]]; }
    }
    assert ids[..|ids|] == ids;
  }

  /** `slice` stops at the end of the list. */
  function Slice(s: seq<string>, start: nat, end: nat): seq<string>
    requires start <= |s| && start <= end
  {
    if end <= |s| then s[start..end] else s[start..]
  }

  method ChunkIds(ids: seq<string>, size: nat) returns (batches: seq<seq<string>>)
    requires size > 0
    ensures batches == Chunks(ids, size)
  {
    batches := [];
    var i := 0;
    while i < |ids|
      invariant 0 <= i
      invariant Chunks(ids, size) == batches + Chunks(ids[if i < |ids| then i else |ids|..], size)
    {
      FirstChunk(ids[i..], size);
      assert Slice(ids, i, i + size) == ids[i..][..if |ids[i..]| < size then |ids[i..]| else size];
      batches := batches + [Slice(ids, i, i + size)];
      assert ids[i..][if |ids[i..]| < size then |ids[i..]| else size..] == ids[if i + size < |ids| then i + size else |ids|..];
      i := i + size;
    }
  }

  // ----- the calls of one task -----

  function InitialIds(plan: Plan): seq<string> {
    match plan
    case Listed(ids) => Unique(ids)
    case Generated(_, extras) => Unique(extras)
    case Everyone(_) => []
  }

  function FirstBatch(plan: Plan): seq<string> { Slice(InitialIds(plan), 0, TARGET_WRITE_BATCH) }

  function Adds(parts: seq<seq<string>>): seq<Call> { seq(|parts|, i requires 0 <= i < |parts| => Add(parts[i])) }

  function Removes(parts: seq<seq<string>>): seq<Call> { seq(|parts|, i requires 0 <= i < |parts| => Remove(parts[i])) }

  function Rest(plan: Plan): seq<seq<string>> {
    Chunks(InitialIds(plan)[|FirstBatch(plan)|..], TARGET_WRITE_BATCH)
  }

  function Calls(plan: Plan): seq<Call> {
    [Create(FirstBatch(plan))] +
    match plan
    case Everyone(excluded) => [Generate(AllFriends)] + Removes(Chunks(Unique(excluded), TARGET_WRITE_BATCH))
    case Generated(selector, _) => [Generate(selector)] + Adds(Rest(plan))
    case Listed(_) => Adds(Rest(plan))
  }

  function Payload(call: Call): seq<string> {
    match call case Create(ids) => ids case Add(ids) => ids case _ => []
  }

  /** The identifiers that create and add calls hand over. */
  function Sent(calls: seq<Call>): seq<string> {
    if calls == [] then [] else Sent(calls[..|calls| - 1]) + Payload(calls[|calls| - 1])
  }

  lemma SentAppend(a: seq<Call>, call: Call)
    ensures Sent(a + [call]) == Sent(a) + Payload(call)
  {
    assert (a + [call])[..|a|] == a;
  }

  lemma {:induction false} SentConcat(a: seq<Call>, b: seq<Call>)
    ensures Sent(a + b) == Sent(a) + Sent(b)
  {
    if b == [] {
      assert a + b == a;
    } else {
      var front, last := b[..|b| - 1], b[|b| - 1];
      SentConcat(a, front);
      SentAppend(a + front, last);
      SentAppend(front, last);
      hide Sent, Payload;
      Regroup(a, front, [last]);
      Regroup(Sent(a), Sent(front), Payload(last));
      assert b == front + [last];
    }
  }

  lemma {:induction false} SentAdds(parts: seq<seq<string>>)
    ensures Sent(Adds(parts)) == Flatten(parts)
  {
    if parts != [] {
      var n := |parts| - 1;
      SentAdds(parts[..n]);
      assert Adds(parts)[..n] == Adds(parts[..n]);
    }
  }

  lemma {:induction false} SentRemoves(parts: seq<seq<string>>)
    ensures Sent(Removes(parts)) == []
  {
    if parts != [] {
      SentRemoves(parts[..|parts| - 1]);
      assert Removes(parts)[..|parts| - 1] == Removes(parts[..|parts| - 1]);
    }
  }

  lemma SentTwo(first: Call, second: Call, rest: seq<Call>)
    ensures Sent([first] + rest) == Payload(first) + Sent(rest)
    ensures Sent([first] + ([second] + rest)) == Payload(first) + (Payload(second) + Sent(rest))
  {
    SentOne(first);
    SentOne(second);
    SentConcat([first], rest);
    SentConcat([second], rest);
    SentConcat([first], [second] + rest);
  }

  lemma SentByAdds(first: seq<string>, g: Selector, parts: seq<seq<string>>)
    ensures Sent([Create(first)] + Adds(parts)) == first + Flatten(parts)
    ensures Sent([Create(first)] + ([Generate(g)] + Adds(parts))) == first + Flatten(parts)
  {
    SentTwo(Create(first), Generate(g), Adds(parts));
    SentAdds(parts);
    assert [] + Flatten(parts) == Flatten(parts);
  }

  lemma SentByRemoves(g: Selector, parts: seq<seq<string>>)
    ensures Sent([Create([])] + ([Generate(g)] + Removes(parts))) == []
  {
    SentTwo(Create([]), Generate(g), Removes(parts));
    SentRemoves(parts);
  }

  lemma PartsCover(plan: Plan)
    ensures FirstBatch(plan) + Flatten(Rest(plan)) == InitialIds(plan)
    ensures forall part <- Rest(plan) :: 1 <= |part| <= TARGET_WRITE_BATCH
  {
    ChunksCover(InitialIds(plan)[|FirstBatch(plan)|..], TARGET_WRITE_BATCH);
  }

  /** Conservation: across the create call and all add calls every chosen identifier is sent, in order, once. */
  lemma EachIdSentOnce(plan: Plan)
    ensures Sent(Calls(plan)) == InitialIds(plan)
    ensures Distinct(Sent(Calls(plan)))
  {
    PartsCover(plan);
    match plan
    case Everyone(excluded) =>
      SentByRemoves(AllFriends, Chunks(Unique(excluded), TARGET_WRITE_BATCH));
    case Generated(selector, extras) =>
      SentByAdds(FirstBatch(plan), selector, Rest(plan));
      UniqueKeepsEach(extras);
    case Listed(userIds) =>
      SentByAdds(FirstBatch(plan), AllFriends, Rest(plan));
      UniqueKeepsEach(userIds);
  }

  lemma SentOne(call: Call)
    ensures Sent([call]) == Payload(call)
  {
    assert [call][..0] == [];
  }

  // ----- the server -----

  predicate Acceptable(call: Call) {
    match call
    case Create(ids) => |ids| <= 1000
    case Add(ids) => 1 <= |ids| <= 1000
    case Remove(ids) => 1 <= |ids| <= 1000
    case Generate(_) => true
  }

  /** Targets of a draft task: only friends can be added, by name or by selector, and any can be removed. */
  function Apply(friends: set<string>, select: Selector -> set<string>, targets: set<string>, call: Call): set<string> {
    match call
    case Create(ids) => targets + (Elements(ids) * friends)
    case Add(ids) => targets + (Elements(ids) * friends)
    case Generate(selector) => targets + select(selector)
    case Remove(ids) => targets - Elements(ids)
  }

  function ApplyAll(friends: set<string>, select: Selector -> set<string>, targets: set<string>,
                    calls: seq<Call>): set<string> {
    if calls == [] then targets
    else Apply(friends, select, ApplyAll(friends, select, targets, calls[..|calls| - 1]), calls[|calls| - 1])
  }

  lemma {:induction false} ApplyConcat(friends: set<string>, select: Selector -> set<string>, targets: set<string>,
                                       a: seq<Call>, b: seq<Call>)
    ensures ApplyAll(friends, select, targets, a + b) == ApplyAll(friends, select, ApplyAll(friends, select, targets, a), b)
  {
    if b == [] {
      assert a + b == a;
    } else {
      var n := |b| - 1;
      ApplyConcat(friends, select, targets, a, b[..n]);
      assert (a + b)[..|a| + n] == a + b[..n];
    }
  }

  lemma {:induction false} ApplyAdds(friends: set<string>, select: Selector -> set<string>, targets: set<string>,
                                     parts: seq<seq<string>>)
    ensures ApplyAll(friends, select, targets, Adds(parts)) == targets + (Elements(Flatten(parts)) * friends)
  {
    if parts != [] {
      var n := |parts| - 1;
      ApplyAdds(friends, select, targets, parts[..n]);
      assert Adds(parts)[..n] == Adds(parts[..n]);
      assert Elements(Flatten(parts)) == Elements(Flatten(parts[..n])) + Elements(parts[n]);
    }
  }

  lemma {:induction false} ApplyRemoves(friends: set<string>, select: Selector -> set<string>, targets: set<string>,
                                        parts: seq<seq<string>>)
    ensures ApplyAll(friends, select, targets, Removes(parts)) == targets - Elements(Flatten(parts))
  {
    if parts != [] {
      var n := |parts| - 1;
      ApplyRemoves(friends, select, targets, parts[..n]);
      assert Removes(parts)[..n] == Removes(parts[..n]);
      assert Elements(Flatten(parts)) == Elements(Flatten(parts[..n])) + Elements(parts[n]);
    }
  }

  /** What the user asked for. */
  function Wanted(friends: set<string>, select: Selector -> set<string>, plan: Plan): set<string> {
    match plan
    case Everyone(excluded) => select(AllFriends) - (Elements(excluded) - {""})
    case Generated(selector, extras) => select(selector) + ((Elements(extras) - {""}) * friends)
    case Listed(ids) => (Elements(ids) - {""}) * friends
  }

  lemma ApplyFirst(friends: set<string>, select: Selector -> set<string>, targets: set<string>, first: Call,
                   rest: seq<Call>)
    ensures ApplyAll(friends, select, targets, [first] + rest) ==
            ApplyAll(friends, select, Apply(friends, select, targets, first), rest)
  {
    ApplyOne(friends, select, targets, first);
    ApplyConcat(friends, select, targets, [first], rest);
  }

  lemma CreateThenAdds(friends: set<string>, select: Selector -> set<string>, first: seq<string>,
                       parts: seq<seq<string>>)
    ensures ApplyAll(friends, select, {}, [Create(first)] + Adds(parts)) == Elements(first + Flatten(parts)) * friends
  {
    ApplyFirst(friends, select, {}, Create(first), Adds(parts));
    ApplyAdds(friends, select, {} + (Elements(first) * friends), parts);
    assert Elements(first + Flatten(parts)) == Elements(first) + Elements(Flatten(parts));
  }

  lemma CreateGenerateAdds(friends: set<string>, select: Selector -> set<string>, first: seq<string>,
                           selector: Selector,
                           parts: seq<seq<string>>)
    ensures ApplyAll(friends, select, {}, [Create(first)] + ([Generate(selector)] + Adds(parts))) ==
            select(selector) + (Elements(first + Flatten(parts)) * friends)
  {
    var start := {} + (Elements(first) * friends);
    ApplyFirst(friends, select, {}, Create(first), [Generate(selector)] + Adds(parts));
    ApplyFirst(friends, select, start, Generate(selector), Adds(parts));
    ApplyAdds(friends, select, start + select(selector), parts);
    assert Elements(first + Flatten(parts)) == Elements(first) + Elements(Flatten(parts));
  }

  lemma CreateGenerateRemoves(friends: set<string>, select: Selector -> set<string>, selector: Selector,
                              parts: seq<seq<string>>)
    ensures ApplyAll(friends, select, {}, [Create([])] + ([Generate(selector)] + Removes(parts))) ==
            select(selector) - Elements(Flatten(parts))
  {
    var start := {} + (Elements<string>([]) * friends);
    ApplyFirst(friends, select, {}, Create([]), [Generate(selector)] + Removes(parts));
    ApplyFirst(friends, select, start, Generate(selector), Removes(parts));
    assert start == {};
    ApplyRemoves(friends, select, start + select(selector), parts);
  }

  /** No call carries more identifiers than a batch, and no add or remove call is empty. */
  lemma CallsAreAcceptable(plan: Plan)
    ensures forall call <- Calls(plan) :: Acceptable(call)
  {
    hide Chunks, Unique;
    PartsCover(plan);
    if plan.Everyone? { ChunksCover(Unique(plan.excludeUserIds), TARGET_WRITE_BATCH); }
  }

  /** The calls that follow the creation of a task, given how many identifiers went with it. */
  function FollowUps(plan: Plan): nat {
    match plan
    case Everyone(excluded) => 1 + (|Unique(excluded)| + 999) / 1000
    case Generated(_, extras) => if |Unique(extras)| <= 1000 then 1 else 1 + (|Unique(extras)| - 1) / 1000
    case Listed(ids) => if |Unique(ids)| <= 1000 then 0 else (|Unique(ids)| - 1) / 1000
  }

  /** No call is wasted: the task is created with the first thousand identifiers, and every further call is full but the
      last. */
  lemma CallsArePacked(plan: Plan)
    ensures var ids := InitialIds(plan);
            Calls(plan)[0] == Create(if |ids| <= 1000 then ids else ids[..1000])
    ensures |Calls(plan)| == 1 + FollowUps(plan)
  {
    var ids := InitialIds(plan);
    hide Chunks, Unique;
    ChunkCount(ids[|FirstBatch(plan)|..]);
    if plan.Everyone? { ChunkCount(Unique(plan.excludeUserIds)); }
  }

  lemma {:induction false} ChunkCount(ids: seq<string>)
    ensures |Chunks(ids, TARGET_WRITE_BATCH)| == (|ids| + 999) / 1000
    decreases |ids|
  {
    if |ids| > 1000 { ChunkCount(ids[1000..]); }
  }

  /** The calls leave the server with exactly what was asked for. */
  lemma TargetsAreWhatWasAsked(friends: set<string>, select: Selector -> set<string>, plan: Plan)
    ensures ApplyAll(friends, select, {}, Calls(plan)) == Wanted(friends, select, plan)
  {
    match plan
    case Everyone(excluded) => EveryoneIsApplied(friends, select, excluded);
    case Generated(selector, extras) =>
      UniqueKeepsEach(extras);
      PartsCover(plan);
      CreateGenerateAdds(friends, select, FirstBatch(plan), selector, Rest(plan));
    case Listed(ids) =>
      UniqueKeepsEach(ids);
      PartsCover(plan);
      CreateThenAdds(friends, select, FirstBatch(plan), Rest(plan));
  }

  lemma EveryoneIsApplied(friends: set<string>, select: Selector -> set<string>, excluded: seq<string>)
    ensures ApplyAll(friends, select, {}, Calls(Everyone(excluded))) == select(AllFriends) - (Elements(excluded) - {""})
  {
    ChunksCover(Unique(excluded), TARGET_WRITE_BATCH);
    UniqueKeepsEach(excluded);
    CreateGenerateRemoves(friends, select, AllFriends, Chunks(Unique(excluded), TARGET_WRITE_BATCH));
  }

  lemma ApplyOne(friends: set<string>, select: Selector -> set<string>, targets: set<string>, call: Call)
    ensures ApplyAll(friends, select, targets, [call]) == Apply(friends, select, targets, call)
  {
    assert [call][..0] == [];
  }

  /** The requests one task takes: its calls, the look at its targets, and the submission. */
  function Cost(plan: Plan): nat { |Calls(plan)| + 2 }

  // ----- the client -----

  /** The server as the client sees it: the accepted calls per task, the submitted tasks, and how many more
      requests get through before one fails. */
  class ForwardApi {
    var logs: map<nat, seq<Call>>
    var submitted: seq<nat>
    var remaining: nat

    constructor (remaining: nat)
      ensures logs == map[] && submitted == [] && this.remaining == remaining
    {
      logs, submitted := map[], [];
      this.remaining := remaining;
    }

    method Send(task: nat, call: Call) returns (ok: bool)
      modifies this`logs, this`remaining
      ensures ok == (old(remaining) > 0)
      ensures remaining == if ok then old(remaining) - 1 else 0
      ensures logs == if ok then old(logs)[task := (if task in old(logs) then old(logs)[task] else []) + [call]] else old(logs)
    {
      ok := remaining > 0;
      if ok {
        remaining := remaining - 1;
        logs := logs[task := (if task in logs then logs[task] else []) + [call]];
      }
    }

    /** A task that does not exist yet. */
    method NewTask() returns (task: nat)
      ensures task !in logs
    {
      task := 0;
      var seen := logs.Keys;
      while task in seen
        invariant seen <= logs.Keys
        invariant forall k :: k in logs && k !in seen ==> k < task
        decreases |seen|
      {
        seen := seen - {task};
        task := task + 1;
      }
    }

    /** Send the calls one after another, stopping at the first that fails. */
    method SendAll(task: nat, calls: seq<Call>) returns (ok: bool)
      requires task in logs
      modifies this`logs, this`remaining
      ensures ok == (old(remaining) >= |calls|)
      ensures task in logs && logs == old(logs)[task := logs[task]]
      ensures remaining == if ok then old(remaining) - |calls| else 0
      ensures logs[task] == old(logs[task]) + (if ok then calls else calls[..old(remaining)])
    {
      for i := 0 to |calls|
        invariant old(remaining) >= i && remaining == old(remaining) - i
        invariant task in logs && logs == old(logs)[task := logs[task]]
        invariant logs[task] == old(logs[task]) + calls[..i]
      {
        var sent := Send(task, calls[i]);
        if !sent { return false; }
        assert calls[..i + 1] == calls[..i] + [calls[i]];
      }
      assert calls[..|calls|] == calls;
      return true;
    }

    method FillRemaining(task: nat, plan: Plan, alreadySent: nat) returns (ok: bool)
      requires task in logs && alreadySent == |FirstBatch(plan)|
      modifies this`logs, this`remaining
      ensures var rest := Calls(plan)[1..];
              && ok == (old(remaining) >= |rest|)
              && task in logs && logs == old(logs)[task := logs[task]]
              && remaining == (if ok then old(remaining) - |rest| else 0)
              && logs[task] == old(logs[task]) + (if ok then rest else rest[..old(remaining)])
    {
      var rest: seq<Call>;
      match plan {
        case Everyone(excluded) =>
          var ids := UniqueIds(excluded);
          var parts := ChunkIds(ids, TARGET_WRITE_BATCH);
          rest := [Generate(AllFriends)] + Removes(parts);
        case Generated(selector, extras) =>
          var ids := UniqueIds(extras);
          var parts := ChunkIds(ids[alreadySent..], TARGET_WRITE_BATCH);
          rest := [Generate(selector)] + Adds(parts);
        case Listed(userIds) =>
          var ids := UniqueIds(userIds);
          var parts := ChunkIds(ids[alreadySent..], TARGET_WRITE_BATCH);
          rest := Adds(parts);
      }
      assert Calls(plan)[1..] == rest;
      ok := SendAll(task, rest);
    }

    /** A new task either has received exactly the planned calls, or a beginning of them. */
    method CreateAndFill(plan: Plan) returns (ok: bool, task: nat)
      modifies this`logs, this`remaining
      ensures task !in old(logs)
      ensures ok ==> logs == old(logs)[task := Calls(plan)]
      ensures !ok ==> logs == old(logs) || (task in logs && logs[task] <= Calls(plan) && logs == old(logs)[task := logs[task]])
      ensures ok <==> old(remaining) > |Calls(plan)|
      ensures ok ==> remaining == old(remaining) - |Calls(plan)| - 1
    {
      task := NewTask();
      var first := FirstBatch(plan);
      ok := Send(task, Create(first));
      if ok {
        assert Calls(plan) == [Create(first)] + Calls(plan)[1..];
        ok := FillRemaining(task, plan, |first|);
        if ok {
          assert [] + [Create(first)] + Calls(plan)[1..] == Calls(plan);
          ok := remaining > 0;
          remaining := if ok then remaining - 1 else 0;
        }
      }
    }

    method Submit(task: nat) returns (ok: bool)
      modifies this`submitted, this`remaining
      ensures ok == (old(remaining) > 0) && (ok ==> remaining == old(remaining) - 1)
      ensures submitted == if ok then old(submitted) + [task] else old(submitted)
    {
      ok := remaining > 0;
      if ok {
        remaining := remaining - 1;
        submitted := submitted + [task];
      }
    }
  }

  lemma TooFew(sources: nat, i: nat, cost: nat)
    requires i < sources
    ensures (i + 1) * cost <= sources * cost
  {
  }

  class ForwardStore {
    var lastTaskIds: seq<nat>

    constructor () ensures lastTaskIds == [] { lastTaskIds := []; }

    /** One source: a task is submitted only when it is filled and has a target. */
    method Deliver(api: ForwardApi, friends: set<string>, select: Selector -> set<string>, plan: Plan)
      returns (ok: bool, task: nat)
      modifies api
      ensures task !in old(api.logs)
      ensures ok <==> old(api.remaining) >= Cost(plan) && Wanted(friends, select, plan) != {}
      ensures ok ==> api.remaining == old(api.remaining) - Cost(plan)
      ensures api.submitted == if ok then old(api.submitted) + [task] else old(api.submitted)
      ensures ok ==> api.logs == old(api.logs)[task := Calls(plan)] && Wanted(friends, select, plan) != {}
      ensures forall t <- old(api.logs) :: t in api.logs && api.logs[t] == old(api.logs)[t]
    {
      ok, task := api.CreateAndFill(plan);
      if ok {
        TargetsAreWhatWasAsked(friends, select, plan);
        ok := |ApplyAll(friends, select, {}, api.logs[task])| > 0;
        if ok { ok := api.Submit(task); }
      }
    }

    /** Whatever fails on the way, the recorded tasks are exactly those submitted by this call; each of them holds
        all the targets asked for, and at least one. */
    method SubmitFriendPlan(api: ForwardApi, friends: set<string>, select: Selector -> set<string>, sources: nat,
                            plan: Plan)
      returns (ok: bool)
      modifies this, api
      ensures sources == 0 ==> !ok && lastTaskIds == old(lastTaskIds) && api.submitted == old(api.submitted)
      ensures sources > 0 ==> api.submitted == old(api.submitted) + lastTaskIds && |lastTaskIds| <= sources
      ensures sources > 0 ==> (ok <==> |lastTaskIds| == sources) && Distinct(lastTaskIds)
      ensures sources > 0 ==> (ok <==> old(api.remaining) >= sources * Cost(plan) && Wanted(friends, select, plan) != {})
      ensures sources > 0 && lastTaskIds != [] ==> Wanted(friends, select, plan) != {}
      ensures sources > 0 ==> forall t <- lastTaskIds ::
                (t !in old(api.logs) && t in api.logs
                 && ApplyAll(friends, select, {}, api.logs[t]) == Wanted(friends, select, plan))
      ensures forall t <- old(api.logs) :: t in api.logs && api.logs[t] == old(api.logs)[t]
    {
      if sources == 0 { return false; }
      lastTaskIds := [];
      TargetsAreWhatWasAsked(friends, select, plan);
      for i := 0 to sources
        invariant |lastTaskIds| == i && Distinct(lastTaskIds)
        invariant api.submitted == old(api.submitted) + lastTaskIds
        invariant forall t <- lastTaskIds :: t !in old(api.logs) && t in api.logs && api.logs[t] == Calls(plan)
        invariant i > 0 ==> Wanted(friends, select, plan) != {}
        invariant api.remaining + i * Cost(plan) == old(api.remaining)
        invariant forall t <- old(api.logs) :: t in api.logs && api.logs[t] == old(api.logs)[t]
      {
        assert (i + 1) * Cost(plan) == i * Cost(plan) + Cost(plan);
        ghost var left := api.remaining;
        var accepted, task := Deliver(api, friends, select, plan);
        if !accepted {
          if left < Cost(plan) { TooFew(sources, i, Cost(plan)); }
          return false;
        }
        lastTaskIds := lastTaskIds + [task];
      }
      return true;
    }
  }
}

/**
 The retention client in the form the application runs it: an object whose maps and counter are
 updated in place. Every method is proved against the step functions of RetentionProtocol.
 Storage, the network and the clock are parameters.
 */
module RetentionSync {
  import opened Options
  import opened Sequences
  import opened RetentionTable
  import opened RetentionProtocol

  class GroupRetentionSync {
    var owner: string
    var generation: nat
    var states: Table
    var order: seq<string>  // the insertion order of `states`
    var fetchedAt: map<string, int>
    var pending: map<seq<string>, nat>

    ghost predicate Valid()
      reads this
    {
      forall id :: id in order ==> id in states
    }

    ghost function State(): Client
      requires Valid()
      reads this
    {
      Client(owner, generation, Slots(states, order), fetchedAt, pending)
    }

    constructor ()
      ensures Valid() && State() == Client("", 0, EMPTY, map[], map[])
    {
      owner, generation, states, order, fetchedAt, pending := "", 0, map[], [], map[], map[];
    }

    method MergeRow(row: Row) returns (moved: bool)
      requires Valid()
      modifies this`states, this`order
      ensures Valid() && State() == old(State()).(index := Put(old(State()).index, row))
      ensures moved == Moves(old(states), row)
    {
      var id := row.conversationId;
      if id in states
         && (row.revision <= states[id].revision || row.minVisibleSeq < states[id].minVisibleSeq) {
        return false;
      }
      moved := id !in states || row.minVisibleSeq > states[id].minVisibleSeq;
      if id !in states { order := order + [id]; }
      states := states[id := row];
    }

    /** `stored` is the list read from the new owner's key, [] when the read throws or is no list. */
    method SetOwner(newOwner: string, stored: seq<RawRow>)
      requires Valid()
      modifies this
      ensures Valid() && State() == SwitchOwner(old(State()), newOwner, stored)
    {
      if newOwner == owner { return; }
      owner := if ValidOwner(newOwner) then newOwner else "";
      generation := generation + 1;
      states, order, fetchedAt, pending := map[], [], map[], map[];
      if owner == "" { return; }
      assert stored[..0] == [];
      for i := 0 to |stored|
        invariant Valid()
        invariant State() == Client(OwnerName(newOwner), old(generation) + 1, Load(stored[..i]), map[], map[])
      {
        assert stored[..i + 1][..i] == stored[..i];
        if ValidState(stored[i]) {
          var rows := ValidRows(stored[..i]);
          assert (rows + [AsRow(stored[i])])[..|rows|] == rows;
          var _ := MergeRow(AsRow(stored[i]));
        }
      }
      assert stored[..|stored|] == stored;
    }

    /** `newTask` names the request that will be sent if none is in flight for these ids. */
    method Batch(ids: seq<string>, newTask: nat) returns (task: nat, started: bool)
      requires Valid()
      modifies this`pending
      ensures Valid()
      ensures started <==> ids !in old(pending)
      ensures task == if started then newTask else old(pending)[ids]
      ensures State() == old(State()).(pending := if started then old(pending)[ids := newTask] else old(pending))
    {
      if ids in pending { return pending[ids], false; }
      pending := pending[ids := newTask];
      return newTask, true;
    }

    /** The validation loop: no row is committed unless all of them pass. */
    method CheckRows(ids: seq<string>, rows: seq<RawRow>) returns (ok: bool)
      ensures ok <==> Acceptable(ids, rows)
    {
      if |rows| > |ids| { return false; }
      var seen: set<string> := {};
      for i := 0 to |rows|
        invariant forall k :: 0 <= k < i ==> ValidState(rows[k]) && AsRow(rows[k]).conversationId in ids
        invariant forall id :: id in seen <==> exists k :: 0 <= k < i && rows[k].conversationId == Text(id)
        invariant forall k, l :: 0 <= k < l < i ==> AsRow(rows[k]).conversationId != AsRow(rows[l]).conversationId
      {
        if !ValidState(rows[i]) || AsRow(rows[i]).conversationId !in ids { return false; }
        var id := AsRow(rows[i]).conversationId;
        if id in seen {
          var k :| 0 <= k < i && rows[k].conversationId == Text(id);
          assert AsRow(rows[k]).conversationId == AsRow(rows[i]).conversationId;
          return false;
        }
        seen := seen + {id};
      }
      return true;
    }

    /** The commit loop: which boundaries moved, and whether any row was taken. */
    method MergeRows(rows: seq<RawRow>) returns (changed: seq<string>, accepted: bool)
      requires Valid() && forall i :: 0 <= i < |rows| ==> ValidState(rows[i])
      modifies this`states, this`order
      ensures Valid() && State() == old(State()).(index := PutAll(old(State()).index, ValidRows(rows)))
      ensures changed == MovedIds(old(states), ValidRows(rows))
      ensures accepted <==> states != old(states)
    {
      changed, accepted := [], false;
      ghost var t := states;
      assert rows[..0] == [];
      for i := 0 to |rows|
        invariant Valid()
        invariant State() == old(State()).(index := PutAll(old(State()).index, ValidRows(rows[..i])))
        invariant states == MergeAll(t, ValidRows(rows[..i]))
        invariant changed == MovedIds(t, ValidRows(rows[..i]))
        invariant accepted == AnyStored(t, ValidRows(rows[..i]))
      {
        var row := AsRow(rows[i]);
        ghost var front := ValidRows(rows[..i]);
        assert rows[..i + 1][..i] == rows[..i];
        assert (front + [row])[..|front|] == front;
        var before := states;
        var moved := MergeRow(row);
        if moved { changed := changed + [row.conversationId]; }
        accepted := accepted || !Blocks(before, row);
      }
      assert rows[..|rows|] == rows;
      StoredExactlyWhenMoved(t, ValidRows(rows));
    }

    /** What runs when the fetch settles: the generation fence, the check, the commit. */
    method Answer(ids: seq<string>, started: nat, reply: Reply, now: int)
      returns (changed: seq<string>, written: Option<seq<RawRow>>)
      requires Valid()
      modifies this
      ensures Valid() && State() == Answered(old(State()), ids, started, reply, now)
      ensures var c := old(State());
              && changed == (if Usable(c, ids, started, reply) then MovedIds(c.index.table, ValidRows(reply.rows)) else [])
              && written == if State().index.table != c.index.table then Some(Values(State().index)) else None
    {
      changed, written := [], None;
      if started != generation || !reply.Items? { return; }
      var ok := CheckRows(ids, reply.rows);
      if !ok { return; }
      var accepted;
      changed, accepted := MergeRows(reply.rows);
      fetchedAt := fetchedAt + map id | id in ids :: now;
      if accepted {
        written := Some(ValuesList());
      }
    }

    function ValuesList(): seq<RawRow>
      requires Valid()
      reads this
    {
      Values(Slots(states, order))
    }

    /** Runs after the answer: only the request's own registration is removed. */
    method Settle(ids: seq<string>, task: nat)
      requires Valid()
      modifies this`pending
      ensures Valid() && State() == Settled(old(State()), ids, task)
    {
      if ids in pending && pending[ids] == task {
        pending := pending - {ids};
      }
    }
  }

  // ----- which batches a sync asks for -----

  predicate LexLeq(a: string, b: string) {
    a == "" || (b != "" && (a[0] < b[0] || (a[0] == b[0] && LexLeq(a[1..], b[1..]))))
  }

  lemma {:induction false} LexTotal(a: string, b: string)
    ensures LexLeq(a, b) || LexLeq(b, a)
    ensures LexLeq(a, b) && LexLeq(b, a) ==> a == b
  {
    if a != "" && b != "" && a[0] == b[0] {
      LexTotal(a[1..], b[1..]);
      assert a == [a[0]] + a[1..] && b == [b[0]] + b[1..];
    }
  }

  lemma {:induction false} LexTransitive(a: string, b: string, c: string)
    requires LexLeq(a, b) && LexLeq(b, c)
    ensures LexLeq(a, c)
  {
    if a != "" && a[0] == b[0] == c[0] {
      LexTransitive(a[1..], b[1..], c[1..]);
    }
  }

  ghost predicate StrictlySorted(s: seq<string>) {
    forall i, j :: 0 <= i < j < |s| ==> LexLeq(s[i], s[j]) && s[i] != s[j]
  }

  function Insert(x: string, s: seq<string>): seq<string> {
    if s == [] || LexLeq(x, s[0]) then [x] + s else [s[0]] + Insert(x, s[1..])
  }

  lemma {:induction false} InsertSorted(x: string, s: seq<string>)
    requires StrictlySorted(s) && x !in s
    ensures StrictlySorted(Insert(x, s))
    ensures forall y :: y in Insert(x, s) <==> y == x || y in s
  {
    if s == [] {
    } else if LexLeq(x, s[0]) {
      forall k | 0 <= k < |s| ensures LexLeq(x, s[k]) {
        if k > 0 { LexTransitive(x, s[0], s[k]); }
      }
    } else {
      InsertSorted(x, s[1..]);
      LexTotal(x, s[0]);
      var rest := Insert(x, s[1..]);
      assert s == [s[0]] + s[1..];
      forall k | 0 <= k < |rest|
        ensures LexLeq(s[0], rest[k]) && s[0] != rest[k]
      {
        assert rest[k] in rest;
      }
    }
  }

  predicate Due(fetchedAt: map<string, int>, id: string, force: bool, now: int) {
    force || id !in fetchedAt || now - fetchedAt[id] >= 15000
  }

  /** Every wanted conversation once, in order, and no other. */
  method Wanted(fetchedAt: map<string, int>, ids: seq<string>, force: bool, now: int) returns (wanted: seq<string>)
    ensures StrictlySorted(wanted)
    ensures forall id :: id in wanted <==> id in ids && IsRetentionGroup(id) && Due(fetchedAt, id, force, now)
  {
    wanted := [];
    for i := 0 to |ids|
      invariant StrictlySorted(wanted)
      invariant forall id :: id in wanted <==> id in ids[..i] && IsRetentionGroup(id) && Due(fetchedAt, id, force, now)
    {
      if IsRetentionGroup(ids[i]) && Due(fetchedAt, ids[i], force, now) && ids[i] !in wanted {
        InsertSorted(ids[i], wanted);
        wanted := Insert(ids[i], wanted);
      }
    }
  }

  /** The batch loop of one sync. `seen[k]` is the generation found when the loop is about to send batch k.
      Until the generation changes it sends the chunks of fifty in order; if it never changes, all of them. */
  method SendBatches(wanted: seq<string>, started: nat, seen: seq<nat>) returns (sent: seq<seq<string>>)
    requires |seen| >= |Chunks(wanted, 50)|
    ensures sent <= Chunks(wanted, 50)
    ensures forall k :: 0 <= k < |sent| ==> seen[k] == started
    ensures |sent| < |Chunks(wanted, 50)| ==> seen[|sent|] != started
  {
    sent := [];
    var i := 0;
    ghost var rest := wanted;
    while i < |wanted|
      invariant 0 <= i
      invariant rest == if i < |wanted| then wanted[i..] else []
      invariant Chunks(wanted, 50) == sent + Chunks(rest, 50)
      invariant forall k :: 0 <= k < |sent| ==> seen[k] == started
    {
      FirstChunk(rest, 50);
      if seen[|sent|] != started { return; }
      var chunk := wanted[i..if |wanted| < i + 50 then |wanted| else i + 50];
      assert chunk == rest[..|chunk|];
      Regroup(sent, [chunk], Chunks(rest[|chunk|..], 50));
      sent, rest := sent + [chunk], rest[|chunk|..];
      i := i + 50;
    }
    assert sent + [] == sent;
  }

  /** So a sync that no change of account interrupts asks for every wanted conversation exactly once,
      in order, fifty at a time. */
  lemma UndisturbedSyncCoversAll(wanted: seq<string>, started: nat, seen: seq<nat>, sent: seq<seq<string>>)
    requires |seen| >= |Chunks(wanted, 50)| && sent <= Chunks(wanted, 50)
    requires |sent| < |Chunks(wanted, 50)| ==> seen[|sent|] != started
    requires forall k :: 0 <= k < |seen| ==> seen[k] == started
    ensures Flatten(sent) == wanted
    ensures forall batch :: batch in sent ==> 0 < |batch| <= 50
  {
    ChunksCover(wanted, 50);
    assert sent == Chunks(wanted, 50);
  }
}

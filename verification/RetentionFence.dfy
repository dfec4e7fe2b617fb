/**
 What every run of the retention protocol keeps: rows fetched for one account, or before the
 latest change of account, never reach the boundaries or the storage of another; what is
 written can be reloaded; and a stored boundary does not move back.
 */
module RetentionFence {
  import opened Sequences
  import opened RetentionTable
  import opened RetentionProtocol

  function LogRows(log: seq<Entry>): seq<Row> {
    seq(|log|, i requires 0 <= i < |log| => log[i].row)
  }

  /** The generation counter means exactly "sent after the latest change of owner". */
  ghost predicate TasksOk(w: World) {
    && w.ownedSince <= w.clock
    && forall n :: n in w.tasks ==>
         var t := w.tasks[n];
         && n < w.nextTask && t.owner != "" && t.startedAt <= w.clock && t.generation <= w.client.generation
         && (t.generation == w.client.generation <==> w.ownedSince < t.startedAt)
         && (t.generation == w.client.generation ==> t.owner == w.client.owner)
  }

  ghost predicate PendingOk(w: World) {
    forall ids :: ids in w.client.pending ==>
      && w.client.pending[ids] in w.tasks
      && w.tasks[w.client.pending[ids]].ids == ids
      && w.tasks[w.client.pending[ids]].generation == w.client.generation
  }

  /** A row of the log was read for this owner, or requested for it since it became the owner. */
  predicate Fresh(source: Source, owner: string, since: nat) {
    source.owner == owner && (source.FromServer? ==> since < source.startedAt)
  }

  ghost predicate LogOk(w: World) {
    && w.client.index.table == MergeAll(map[], LogRows(w.log))
    && forall e :: e in w.log ==> Fresh(e.source, w.client.owner, w.ownedSince)
  }

  ghost predicate StorageOk(w: World) {
    && (forall e :: e in w.log ==> (w.client.owner, e.row) in w.obtained)
    && (forall owner, row :: owner in w.disk && row in ValidRows(w.disk[owner]) ==> (owner, row) in w.obtained)
  }

  ghost predicate DurableOk(w: World) {
    && IndexOk(w.client.index)
    && (w.client.owner == "" || ValidOwner(w.client.owner))
    && (w.intact && w.client.owner != "" ==>
          Extends(Load(Stored(w.disk, w.client.owner)).table, w.client.index.table))
  }

  ghost predicate Inv(w: World) {
    TasksOk(w) && PendingOk(w) && LogOk(w) && StorageOk(w) && DurableOk(w)
  }

  /** A process that has just started: no owner, nothing in flight, storage as an earlier run left it. */
  ghost predicate Initial(w: World) {
    && w.client == Client("", 0, EMPTY, map[], map[])
    && w.tasks == map[] && w.log == [] && w.ownedSince <= w.clock && w.intact
    && forall owner, row :: owner in w.disk && row in ValidRows(w.disk[owner]) ==> (owner, row) in w.obtained
  }

  lemma EntriesRows(rows: seq<Row>, source: Source)
    ensures LogRows(Entries(rows, source)) == rows
    ensures forall e :: e in Entries(rows, source) ==> e.source == source && e.row in rows
  {
  }

  lemma LogRowsConcat(a: seq<Entry>, b: seq<Entry>)
    ensures LogRows(a + b) == LogRows(a) + LogRows(b)
  {
  }

  lemma OwnKeepsTasks(w: World, owner: string, readable: bool)
    requires TasksOk(w) && PendingOk(w)
    ensures TasksOk(Step(w, Own(owner, readable))) && PendingOk(Step(w, Own(owner, readable)))
  {
    hide RequestStep, AnswerStep, SettleStep, Load, ValidRows;
  }

  lemma OwnKeepsRows(w: World, owner: string, readable: bool)
    requires LogOk(w) && StorageOk(w)
    ensures var w' := Step(w, Own(owner, readable)); LogOk(w') && StorageOk(w')
  {
    hide RequestStep, AnswerStep, SettleStep;
    if owner != w.client.owner {
      var name := OwnerName(owner);
      var rows := ValidRows(if readable && name != "" then Stored(w.disk, name) else []);
      EntriesRows(rows, FromDisk(name));
      PutAllTable(EMPTY, rows);
    }
  }

  lemma OwnKeepsDurable(w: World, owner: string, readable: bool)
    requires DurableOk(w)
    ensures DurableOk(Step(w, Own(owner, readable)))
  {
    hide RequestStep, AnswerStep, SettleStep, ValidRows;
    if owner != w.client.owner {
      var name := OwnerName(owner);
      PutAllOk(EMPTY, ValidRows(if readable && name != "" then Stored(w.disk, name) else []));
    }
  }

  lemma OwnKeeps(w: World, owner: string, readable: bool)
    requires Inv(w)
    ensures Inv(Step(w, Own(owner, readable)))
  {
    hide Step, TasksOk, PendingOk, LogOk, StorageOk, DurableOk;
    OwnKeepsTasks(w, owner, readable);
    OwnKeepsRows(w, owner, readable);
    OwnKeepsDurable(w, owner, readable);
  }

  lemma RequestKeepsTasks(w: World, ids: seq<string>)
    requires TasksOk(w) && PendingOk(w)
    ensures TasksOk(Step(w, Request(ids))) && PendingOk(Step(w, Request(ids)))
  {
    hide OwnStep, AnswerStep, SettleStep;
  }

  lemma RequestKeeps(w: World, ids: seq<string>)
    requires Inv(w)
    ensures Inv(Step(w, Request(ids)))
  {
    RequestKeepsTasks(w, ids);
    var w' := Step(w, Request(ids));
    assert w'.client.owner == w.client.owner && w'.client.index == w.client.index;
    assert w'.log == w.log && w'.disk == w.disk && w'.obtained == w.obtained;
    assert w'.ownedSince == w.ownedSince && w'.intact == w.intact;
  }

  lemma SettleKeepsTasks(w: World, task: nat)
    requires TasksOk(w) && PendingOk(w)
    ensures TasksOk(Step(w, Settle(task))) && PendingOk(Step(w, Settle(task)))
  {
    hide OwnStep, AnswerStep, RequestStep;
  }

  lemma SettleKeeps(w: World, task: nat)
    requires Inv(w)
    ensures Inv(Step(w, Settle(task)))
  {
    SettleKeepsTasks(w, task);
    var w' := Step(w, Settle(task));
    assert w'.client.owner == w.client.owner && w'.client.index == w.client.index;
    assert w'.log == w.log && w'.disk == w.disk && w'.obtained == w.obtained;
    assert w'.ownedSince == w.ownedSince && w'.intact == w.intact;
  }

  /** An answer that the client uses extends the table by exactly its own rows. */
  lemma UsedAnswer(w: World, task: nat, reply: Reply, now: int, writable: bool)
    requires Inv(w) && task in w.tasks && !w.tasks[task].answered
    requires Usable(w.client, w.tasks[task].ids, w.tasks[task].generation, reply)
    ensures var w' := Step(w, Answer(task, reply, now, writable));
            && IndexOk(w'.client.index)
            && Extends(w.client.index.table, w'.client.index.table)
            && w'.client.index.table == MergeAll(w.client.index.table, ValidRows(reply.rows))
  {
    var rows := ValidRows(reply.rows);
    PutAllTable(w.client.index, rows);
    PutAllOk(w.client.index, rows);
    MergeAllExtends(w.client.index.table, rows);
  }

  lemma AnswerKeepsLog(w: World, task: nat, reply: Reply, now: int, writable: bool)
    requires Inv(w) && task in w.tasks && !w.tasks[task].answered
    requires Usable(w.client, w.tasks[task].ids, w.tasks[task].generation, reply)
    ensures LogOk(Step(w, Answer(task, reply, now, writable)))
  {
    var t := w.tasks[task];
    var rows := ValidRows(reply.rows);
    UsedAnswer(w, task, reply, now, writable);
    EntriesRows(rows, FromServer(t.owner, t.startedAt));
    LogRowsConcat(w.log, Entries(rows, FromServer(t.owner, t.startedAt)));
    MergeAllConcat(map[], LogRows(w.log), rows);
  }

  /** The rows written out are rows of the table, hence of the log. */
  lemma {:induction false} TableRows(rows: seq<Row>)
    ensures forall id :: id in MergeAll(map[], rows) ==> MergeAll(map[], rows)[id] in rows
  {
    if rows != [] {
      TableRows(rows[..|rows| - 1]);
    }
  }

  lemma {:induction false} WrittenRows(index: Index, n: nat)
    requires IndexOk(index) && n <= |index.order|
    ensures forall row :: row in ValidRows(Values(index)[..n]) ==>
              exists id :: id in index.table && index.table[id] == row
  {
    if n > 0 {
      WrittenRows(index, n - 1);
      var stored := Values(index)[..n];
      assert stored[..n - 1] == Values(index)[..n - 1];
      RowRoundTrip(index.table[index.order[n - 1]]);
    }
  }

  lemma AnswerKeepsObtained(w: World, task: nat, reply: Reply, now: int, writable: bool)
    requires Inv(w) && task in w.tasks && !w.tasks[task].answered
    requires Usable(w.client, w.tasks[task].ids, w.tasks[task].generation, reply)
    ensures var w' := Step(w, Answer(task, reply, now, writable));
            forall e :: e in w'.log ==> (w'.client.owner, e.row) in w'.obtained
  {
    hide OwnStep, SettleStep, RequestStep, Acceptable, AnyStored, PutAll;
    var w' := Step(w, Answer(task, reply, now, writable));
    var t := w.tasks[task];
    var rows := ValidRows(reply.rows);
    EntriesRows(rows, FromServer(t.owner, t.startedAt));
    forall e | e in w'.log
      ensures (w'.client.owner, e.row) in w'.obtained
    {
      assert e in w.log || e in Entries(rows, FromServer(t.owner, t.startedAt));
    }
  }

  lemma AnswerKeepsStorage(w: World, task: nat, reply: Reply, now: int, writable: bool)
    requires Inv(w) && task in w.tasks && !w.tasks[task].answered
    requires Usable(w.client, w.tasks[task].ids, w.tasks[task].generation, reply)
    requires LogOk(Step(w, Answer(task, reply, now, writable)))
    ensures StorageOk(Step(w, Answer(task, reply, now, writable)))
  {
    hide Usable;
    var w' := Step(w, Answer(task, reply, now, writable));
    AnswerKeepsObtained(w, task, reply, now, writable);
    UsedAnswer(w, task, reply, now, writable);
    hide Step;
    var index := w'.client.index;
    WrittenRows(index, |index.order|);
    assert Values(index)[..|index.order|] == Values(index);
    TableRows(LogRows(w'.log));
    forall id | id in index.table
      ensures (w'.client.owner, index.table[id]) in w'.obtained
    {
      var k :| 0 <= k < |LogRows(w'.log)| && LogRows(w'.log)[k] == index.table[id];
      assert w'.log[k] in w'.log;
    }
  }

  lemma UnusedAnswer(w: World, task: nat, reply: Reply, now: int, writable: bool)
    requires Inv(w) && task in w.tasks && !w.tasks[task].answered
    requires !Usable(w.client, w.tasks[task].ids, w.tasks[task].generation, reply)
    ensures var w' := Step(w, Answer(task, reply, now, writable));
            LogOk(w') && StorageOk(w') && DurableOk(w')
  {
  }

  lemma AnswerKeepsDurable(w: World, task: nat, reply: Reply, now: int, writable: bool)
    requires Inv(w) && task in w.tasks && !w.tasks[task].answered
    requires Usable(w.client, w.tasks[task].ids, w.tasks[task].generation, reply)
    ensures DurableOk(Step(w, Answer(task, reply, now, writable)))
  {
    UsedAnswer(w, task, reply, now, writable);
    var w' := Step(w, Answer(task, reply, now, writable));
    ReloadReproduces(w'.client.index);
  }

  /** An answer leaves ownership and the registered requests alone. */
  lemma AnswerFrame(w: World, task: nat, reply: Reply, now: int, writable: bool)
    ensures var w' := Step(w, Answer(task, reply, now, writable));
            && w'.client.owner == w.client.owner && w'.client.generation == w.client.generation
            && w'.client.pending == w.client.pending && w'.nextTask == w.nextTask
            && w'.ownedSince == w.ownedSince && w'.clock == w.clock + 1
            && (w'.tasks == w.tasks
                || (task in w.tasks && w'.tasks == w.tasks[task := w.tasks[task].(answered := true)]))
  {
    hide OwnStep, SettleStep, RequestStep, Acceptable, ValidRows, PutAll, Values, AnyStored;
  }

  lemma AnswerKeepsTasks(w: World, w': World, task: nat)
    requires TasksOk(w) && PendingOk(w)
    requires w'.client.owner == w.client.owner && w'.client.generation == w.client.generation
    requires w'.client.pending == w.client.pending && w'.nextTask == w.nextTask
    requires w'.ownedSince == w.ownedSince && w'.clock == w.clock + 1
    requires w'.tasks == w.tasks
             || (task in w.tasks && w'.tasks == w.tasks[task := w.tasks[task].(answered := true)])
    ensures TasksOk(w') && PendingOk(w')
  {
  }

  lemma AnswerKeeps(w: World, task: nat, reply: Reply, now: int, writable: bool)
    requires Inv(w)
    ensures Inv(Step(w, Answer(task, reply, now, writable)))
  {
    AnswerFrame(w, task, reply, now, writable);
    AnswerKeepsTasks(w, Step(w, Answer(task, reply, now, writable)), task);
    if task in w.tasks && !w.tasks[task].answered {
      if Usable(w.client, w.tasks[task].ids, w.tasks[task].generation, reply) {
        AnswerKeepsLog(w, task, reply, now, writable);
        AnswerKeepsStorage(w, task, reply, now, writable);
        AnswerKeepsDurable(w, task, reply, now, writable);
      } else {
        UnusedAnswer(w, task, reply, now, writable);
      }
    }
  }

  lemma StepKeeps(w: World, e: Event)
    requires Inv(w)
    ensures Inv(Step(w, e))
  {
    match e
    case Own(owner, readable) => OwnKeeps(w, owner, readable);
    case Request(ids) => RequestKeeps(w, ids);
    case Answer(task, reply, now, writable) => AnswerKeeps(w, task, reply, now, writable);
    case Settle(task) => SettleKeeps(w, task);
  }

  lemma {:induction false} RunKeeps(w: World, events: seq<Event>)
    requires Inv(w)
    ensures Inv(Run(w, events))
  {
    if events != [] {
      RunKeeps(w, events[..|events| - 1]);
      StepKeeps(Run(w, events[..|events| - 1]), events[|events| - 1]);
    }
  }

  // ----- the theorems -----

  /** In every reachable state, each boundary in memory is a row that was read from the owner's own
      storage or requested for the owner since it was last set, and each row in an account's storage
      was obtained for that account. */
  lemma OwnerFence(w: World, events: seq<Event>)
    requires Initial(w)
    ensures var v := Run(w, events);
            && (forall id :: id in v.client.index.table ==>
                  exists e :: e in v.log && e.row == v.client.index.table[id]
                              && Fresh(e.source, v.client.owner, v.ownedSince))
            && (forall owner, row :: owner in v.disk && row in ValidRows(v.disk[owner]) ==>
                  (owner, row) in v.obtained)
  {
    RunKeeps(w, events);
    var v := Run(w, events);
    TableRows(LogRows(v.log));
    forall id | id in v.client.index.table
      ensures exists e :: e in v.log && e.row == v.client.index.table[id]
                          && Fresh(e.source, v.client.owner, v.ownedSince)
    {
      var k :| 0 <= k < |LogRows(v.log)| && LogRows(v.log)[k] == v.client.index.table[id];
      assert v.log[k] in v.log;
    }
  }

  /** A response to a request from before the latest change of owner changes neither the client nor
      storage, and its completion leaves every newer request for the same batch registered. */
  lemma StaleTaskIsInert(w: World, task: nat, reply: Reply, now: int, writable: bool)
    requires Inv(w) && task in w.tasks && w.tasks[task].startedAt <= w.ownedSince
    ensures Step(w, Answer(task, reply, now, writable)).client == w.client
    ensures Step(w, Answer(task, reply, now, writable)).disk == w.disk
    ensures Step(w, Settle(task)).client == w.client
  {
    hide OwnStep, RequestStep, Acceptable, ValidRows, PutAll, Values, AnyStored;
  }

  /** An answer changes the client or storage exactly when it is the first answer to a request of the
      present ownership and every one of its rows is valid, requested and unrepeated; each response
      that fails the test leaves everything as it was. */
  lemma AllOrNothing(w: World, task: nat, reply: Reply, now: int, writable: bool)
    requires Inv(w) && task in w.tasks && !w.tasks[task].answered
    ensures var w' := Step(w, Answer(task, reply, now, writable));
            var t := w.tasks[task];
            if w.ownedSince < t.startedAt && reply.Items? && Acceptable(t.ids, reply.rows) then
              && w'.client.index.table == MergeAll(w.client.index.table, ValidRows(reply.rows))
              && (forall id :: id in t.ids ==> id in w'.client.fetchedAt && w'.client.fetchedAt[id] == now)
            else
              w'.client == w.client && w'.disk == w.disk && w'.log == w.log
  {
    var t := w.tasks[task];
    if Usable(w.client, t.ids, t.generation, reply) {
      PutAllTable(w.client.index, ValidRows(reply.rows));
    }
  }

  /** Storage only ever changes to the present owner's whole table, which has just grown. */
  ghost predicate Wrote(w: World, w': World) {
    && w.client.owner != "" && w'.client.owner == w.client.owner
    && IndexOk(w'.client.index) && Extends(w.client.index.table, w'.client.index.table)
    && w'.disk == w.disk[w.client.owner := Values(w'.client.index)]
  }

  /** What a used answer does to storage. */
  lemma UsedStep(w: World, task: nat, reply: Reply, now: int, writable: bool)
    requires task in w.tasks && !w.tasks[task].answered
    requires Usable(w.client, w.tasks[task].ids, w.tasks[task].generation, reply)
    ensures var w' := Step(w, Answer(task, reply, now, writable));
            && w'.client.owner == w.client.owner
            && w'.disk == if writable && AnyStored(w.client.index.table, ValidRows(reply.rows))
                          then w.disk[w.client.owner := Values(w'.client.index)] else w.disk
  {
    hide Acceptable, ValidRows, Values, PutAll, AnyStored;
  }

  lemma UsedOwner(w: World, task: nat, reply: Reply)
    requires Inv(w) && task in w.tasks
    requires Usable(w.client, w.tasks[task].ids, w.tasks[task].generation, reply)
    ensures w.client.owner != ""
  {
    hide Acceptable, ValidRows, Values, PutAll;
  }

  lemma UnusedStep(w: World, task: nat, reply: Reply, now: int, writable: bool)
    requires task in w.tasks && !w.tasks[task].answered ==>
               !Usable(w.client, w.tasks[task].ids, w.tasks[task].generation, reply)
    ensures Step(w, Answer(task, reply, now, writable)).disk == w.disk
  {
    hide Acceptable, ValidRows, Values, PutAll;
  }

  lemma AnswerDisk(w: World, task: nat, reply: Reply, now: int, writable: bool)
    requires Inv(w)
    ensures var w' := Step(w, Answer(task, reply, now, writable));
            w'.disk == w.disk || Wrote(w, w')
  {
    hide Step, Inv, Usable, IndexOk, Extends, Values, AnyStored, ValidRows;
    if task in w.tasks && !w.tasks[task].answered
       && Usable(w.client, w.tasks[task].ids, w.tasks[task].generation, reply) {
      UsedUsable(w, task, reply);
      UsedStep(w, task, reply, now, writable);
      UsedAnswer(w, task, reply, now, writable);
      UsedOwner(w, task, reply);
    } else {
      UnusedStep(w, task, reply, now, writable);
    }
  }

  lemma UsedUsable(w: World, task: nat, reply: Reply)
    requires task in w.tasks && Usable(w.client, w.tasks[task].ids, w.tasks[task].generation, reply)
    ensures reply.Items?
  {
  }

  lemma DiskAfter(w: World, e: Event)
    requires Inv(w)
    ensures Step(w, e).disk == w.disk || Wrote(w, Step(w, e))
  {
    if e.Answer? {
      AnswerDisk(w, e.task, e.reply, e.now, e.writable);
    }
  }

  /** An accepted answer whose rows moved something reaches storage when the write succeeds. */
  lemma AnswerWrites(w: World, task: nat, reply: Reply, now: int)
    requires Inv(w) && task in w.tasks && !w.tasks[task].answered
    requires Usable(w.client, w.tasks[task].ids, w.tasks[task].generation, reply)
    requires Step(w, Answer(task, reply, now, true)).client.index.table != w.client.index.table
    ensures Wrote(w, Step(w, Answer(task, reply, now, true)))
  {
    hide OwnStep, SettleStep, RequestStep, Acceptable, PutAll, AnyStored;
    UsedAnswer(w, task, reply, now, true);
    StoredExactlyWhenMoved(w.client.index.table, ValidRows(reply.rows));
  }

  lemma LoadAfterClearing(w: World)
    requires w.client.owner != "" && ValidOwner(w.client.owner) && IndexOk(w.client.index)
    requires w.client.owner in w.disk && w.disk[w.client.owner] == Values(w.client.index)
    ensures Step(Step(w, Own("", true)), Own(w.client.owner, true)).client.index == w.client.index
  {
    ReloadReproduces(w.client.index);
  }

  /** After an accepted answer that was written, clearing the client and reloading the owner's storage
      gives the same boundaries in the same order. */
  lemma WriteThenReload(w: World, task: nat, reply: Reply, now: int)
    requires Inv(w) && task in w.tasks && !w.tasks[task].answered
    requires Usable(w.client, w.tasks[task].ids, w.tasks[task].generation, reply)
    requires Step(w, Answer(task, reply, now, true)).client.index.table != w.client.index.table
    ensures var w' := Step(w, Answer(task, reply, now, true));
            Step(Step(w', Own("", true)), Own(w.client.owner, true)).client.index == w'.client.index
  {
    AnswerWrites(w, task, reply, now);
    LoadAfterClearing(Step(w, Answer(task, reply, now, true)));
  }

  // ----- stored boundaries do not move back -----

  function StoredMin(disk: map<string, seq<RawRow>>, owner: string, id: string): nat {
    MinSeq(Load(Stored(disk, owner)).table, id)
  }

  lemma WroteRaises(w: World, w': World, owner: string, id: string)
    requires Wrote(w, w')
    requires Extends(Load(Stored(w.disk, w.client.owner)).table, w.client.index.table)
    ensures StoredMin(w.disk, owner, id) <= StoredMin(w'.disk, owner, id)
  {
    ReloadReproduces(w'.client.index);
  }

  lemma IntactStep(w: World, e: Event)
    requires w.intact && (e.Own? ==> e.readable)
    ensures Step(w, e).intact
  {
  }

  ghost predicate AllReadable(events: seq<Event>) {
    forall e :: e in events && e.Own? ==> e.readable
  }

  /** As long as storage can be read whenever an account is set, no run lowers a stored boundary. */
  lemma {:induction false} StoredNeverRegresses(w: World, events: seq<Event>, owner: string, id: string)
    requires Inv(w) && w.intact && AllReadable(events)
    ensures Run(w, events).intact
    ensures StoredMin(w.disk, owner, id) <= StoredMin(Run(w, events).disk, owner, id)
  {
    if events != [] {
      var front, last := events[..|events| - 1], events[|events| - 1];
      assert last in events;
      StoredNeverRegresses(w, front, owner, id);
      RunKeeps(w, front);
      var v := Run(w, front);
      IntactStep(v, last);
      DiskAfter(v, last);
      if Step(v, last).disk != v.disk {
        WroteRaises(v, Step(v, last), owner, id);
      }
    }
  }

  // ----- what a failed read costs -----

  /** The account is set, asks for one batch, gets these rows and can write. */
  function SetAskStore(w: World, owner: string, readable: bool, ids: seq<string>, rows: seq<RawRow>): World {
    Step(Step(Step(w, Own(owner, readable)), Request(ids)), Answer(w.nextTask, Items(rows), 0, true))
  }

  ghost predicate NothingLost(w: World, owner: string, readable: bool) {
    forall ids, rows, id ::
      StoredMin(w.disk, owner, id) <= StoredMin(SetAskStore(w, owner, readable, ids, rows).disk, owner, id)
  }

  lemma ReadableLosesNothing(w: World, owner: string, ids: seq<string>, rows: seq<RawRow>, id: string)
    requires Inv(w) && owner != w.client.owner
    ensures StoredMin(w.disk, owner, id) <= StoredMin(SetAskStore(w, owner, true, ids, rows).disk, owner, id)
  {
    var w1 := Step(w, Own(owner, true));
    var ask, answer := Request(ids), Answer(w.nextTask, Items(rows), 0, true);
    StepKeeps(w, Own(owner, true));
    assert Run(w1, []) == w1;
    assert [ask][..0] == [];
    assert Run(w1, [ask]) == Step(w1, ask);
    assert [ask, answer][..1] == [ask];
    assert Run(w1, [ask, answer]) == Step(Step(w1, ask), answer);
    StoredNeverRegresses(w1, [ask, answer], owner, id);
  }

  function ZeroRow(id: string): RawRow {
    RawRow(Text(id), Number(0), Number(0), Instant(0))
  }

  lemma OneValidRow(raw: RawRow)
    requires ValidState(raw)
    ensures ValidRows([raw]) == [AsRow(raw)]
  {
    assert [raw][..0] == [];
    assert ValidRows([]) == [];
  }

  lemma OnePut(row: Row)
    ensures PutAll(EMPTY, [row]) == Slots(map[row.conversationId := row], [row.conversationId])
  {
    assert [row][..0] == [];
    assert PutAll(EMPTY, []) == EMPTY;
  }

  lemma OneRow(id: string)
    requires IsRetentionGroup(id)
    ensures ValidRows([ZeroRow(id)]) == [Row(id, 0, 0, 0)]
    ensures Load([ZeroRow(id)]) == Slots(map[id := Row(id, 0, 0, 0)], [id])
    ensures Values(Load([ZeroRow(id)])) == [ZeroRow(id)]
  {
    hide ValidRows, PutAll, IsRetentionGroup;
    OneValidRow(ZeroRow(id));
    OnePut(Row(id, 0, 0, 0));
  }

  lemma UnreadableOverwrites(w: World, owner: string, id: string)
    requires ValidOwner(owner) && owner != w.client.owner && IsRetentionGroup(id)
    ensures StoredMin(SetAskStore(w, owner, false, [id], [ZeroRow(id)]).disk, owner, id) == 0
  {
    OneRow(id);
    var w1 := Step(w, Own(owner, false));
    assert w1.client.index == EMPTY by {
      assert ValidRows([]) == [];
      assert PutAll(EMPTY, []) == EMPTY;
    }
    var w2 := Step(w1, Request([id]));
    assert w2.client.index == EMPTY && w.nextTask in w2.tasks && !w2.tasks[w.nextTask].answered;
    assert Acceptable([id], [ZeroRow(id)]);
    assert AnyStored(map[], [Row(id, 0, 0, 0)]) by {
      assert [Row(id, 0, 0, 0)][..0] == [];
      assert MergeAll(map[], []) == map[];
    }
    var w3 := Step(w2, Answer(w.nextTask, Items([ZeroRow(id)]), 0, true));
    assert w3.client.index == Load([ZeroRow(id)]);
    assert Stored(w3.disk, owner) == [ZeroRow(id)];
  }

  lemma StoredGroup(disk: map<string, seq<RawRow>>, owner: string, id: string)
    requires StoredMin(disk, owner, id) != 0
    ensures IsRetentionGroup(id)
  {
    PutAllOk(EMPTY, ValidRows(Stored(disk, owner)));
  }

  lemma UnreadableLoses(w: World, owner: string, id: string)
    requires ValidOwner(owner) && owner != w.client.owner && StoredMin(w.disk, owner, id) != 0
    ensures !NothingLost(w, owner, false)
  {
    hide SetAskStore, StoredMin, IsRetentionGroup, ValidOwner;
    StoredGroup(w.disk, owner, id);
    UnreadableOverwrites(w, owner, id);
  }

  /** Setting an account and storing the next response is safe for every response exactly when its storage
      could be read or holds no boundary. The failing side is real: the read error is ignored, the client
      starts empty, and the next accepted response replaces the stored list. */
  lemma SafeExactlyWhenReadable(w: World, owner: string, readable: bool)
    requires Inv(w) && ValidOwner(owner) && owner != w.client.owner
    ensures NothingLost(w, owner, readable)
            <==> readable || forall id :: StoredMin(w.disk, owner, id) == 0
  {
    if readable {
      forall ids, rows, id
        ensures StoredMin(w.disk, owner, id) <= StoredMin(SetAskStore(w, owner, true, ids, rows).disk, owner, id)
      {
        ReadableLosesNothing(w, owner, ids, rows, id);
      }
    } else if exists id :: StoredMin(w.disk, owner, id) != 0 {
      var id :| StoredMin(w.disk, owner, id) != 0;
      UnreadableLoses(w, owner, id);
    }
  }
}

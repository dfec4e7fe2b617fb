/**
 The retention client as an asynchronous protocol. Each function below is what runs
 between two awaits; a world adds the requests in flight, the durable storage and a
 trace that only the theorems look at.
 */
module RetentionProtocol {
  import opened Sequences
  import opened RetentionTable

  // ----- the client's own state -----

  /** A map that remembers insertion order, which is the order in which it is written out. */
  datatype Slots = Slots(table: Table, order: seq<string>)

  type Index = s: Slots | forall id :: id in s.order ==> id in s.table witness Slots(map[], [])

  const EMPTY: Index := Slots(map[], [])

  function Put(index: Index, row: Row): Index {
    if Blocks(index.table, row) then index
    else Slots(index.table[row.conversationId := row],
               if row.conversationId in index.table then index.order else index.order + [row.conversationId])
  }

  function PutAll(index: Index, rows: seq<Row>): Index {
    if rows == [] then index else Put(PutAll(index, rows[..|rows| - 1]), rows[|rows| - 1])
  }

  ghost predicate IndexOk(index: Index) {
    && Distinct(index.order)
    && (forall id :: id in index.order <==> id in index.table)
    && WellFormed(index.table)
  }

  function Values(index: Index): seq<RawRow> {
    seq(|index.order|, i requires 0 <= i < |index.order| => AsRaw(index.table[index.order[i]]))
  }

  /** The rows of a stored list that pass validation, in order. */
  function ValidRows(stored: seq<RawRow>): (r: seq<Row>)
    ensures forall row :: row in r ==> ValidRow(row)
  {
    if stored == [] then []
    else
      var front := ValidRows(stored[..|stored| - 1]);
      var last := stored[|stored| - 1];
      if ValidState(last) then front + [AsRow(last)] else front
  }

  function Load(stored: seq<RawRow>): Index {
    PutAll(EMPTY, ValidRows(stored))
  }

  lemma {:induction false} PutAllTable(index: Index, rows: seq<Row>)
    ensures PutAll(index, rows).table == MergeAll(index.table, rows)
  {
    if rows != [] {
      PutAllTable(index, rows[..|rows| - 1]);
    }
  }

  lemma PutOk(index: Index, row: Row)
    requires IndexOk(index) && ValidRow(row)
    ensures IndexOk(Put(index, row))
  {
    if !Blocks(index.table, row) && row.conversationId !in index.table {
      DistinctAppend(index.order, row.conversationId);
    }
  }

  lemma {:induction false} PutAllOk(index: Index, rows: seq<Row>)
    requires IndexOk(index)
    requires forall row :: row in rows ==> ValidRow(row)
    ensures IndexOk(PutAll(index, rows))
  {
    if rows != [] {
      var last := rows[|rows| - 1];
      assert last in rows;
      PutAllOk(index, rows[..|rows| - 1]);
      PutOk(PutAll(index, rows[..|rows| - 1]), last);
    }
  }

  // ----- what is written is what is read back -----

  function Restrict(index: Index, n: nat): Index
    requires n <= |index.order|
  {
    Slots(map id | id in index.order[..n] :: index.table[id], index.order[..n])
  }

  lemma LoadAppend(stored: seq<RawRow>, row: Row)
    requires ValidRow(row)
    ensures Load(stored + [AsRaw(row)]) == Put(Load(stored), row)
  {
    RowRoundTrip(row);
    var front := ValidRows(stored);
    assert (stored + [AsRaw(row)])[..|stored|] == stored;
    assert ValidRows(stored + [AsRaw(row)]) == front + [row];
    assert (front + [row])[..|front|] == front;
  }

  lemma RestrictNext(index: Index, n: nat)
    requires IndexOk(index) && n < |index.order|
    ensures Restrict(index, n + 1) == Put(Restrict(index, n), index.table[index.order[n]])
  {
    var id := index.order[n];
    DistinctPrefix(index.order, n);
    assert index.order[..n + 1] == index.order[..n] + [id];
    assert Restrict(index, n + 1).table == Restrict(index, n).table[id := index.table[id]];
  }

  lemma ValuesNext(index: Index, n: nat)
    requires IndexOk(index) && n < |index.order|
    ensures index.order[n] in index.table && ValidRow(index.table[index.order[n]])
    ensures Values(index)[..n + 1] == Values(index)[..n] + [AsRaw(index.table[index.order[n]])]
  {
  }

  lemma {:induction false} LoadPrefix(index: Index, n: nat)
    requires IndexOk(index) && n <= |index.order|
    ensures Load(Values(index)[..n]) == Restrict(index, n)
  {
    hide Load, Put, Restrict, IndexOk, ValidRow, ValidRows, PutAll;
    if n == 0 {
      LoadNothing(index);
    } else {
      LoadPrefix(index, n - 1);
      ValuesNext(index, n - 1);
      LoadAppend(Values(index)[..n - 1], index.table[index.order[n - 1]]);
      RestrictNext(index, n - 1);
    }
  }

  lemma LoadNothing(index: Index)
    ensures Load(Values(index)[..0]) == Restrict(index, 0)
  {
    assert Restrict(index, 0) == EMPTY;
  }

  /** Reloading the written list reproduces the same boundaries in the same order. */
  lemma ReloadReproduces(index: Index)
    requires IndexOk(index)
    ensures Load(Values(index)) == index
  {
    var n := |index.order|;
    LoadPrefix(index, n);
    assert Values(index)[..n] == Values(index);
    assert index.order[..n] == index.order;
    assert Restrict(index, n).table == index.table;
  }

  // ----- the steps of the client -----

  predicate IsOwnerChar(c: char) {
    'a' <= c <= 'z' || 'A' <= c <= 'Z' || IsDigit(c) || c == '_' || c == '-'
  }

  predicate ValidOwner(owner: string) {
    1 <= |owner| <= 96 && forall i :: 0 <= i < |owner| ==> IsOwnerChar(owner[i])
  }

  function OwnerName(owner: string): string {
    if ValidOwner(owner) then owner else ""
  }

  /** `pending` maps the ids of a batch to the request that is fetching them. */
  datatype Client = Client(owner: string, generation: nat, index: Index,
                           fetchedAt: map<string, int>, pending: map<seq<string>, nat>)

  /** `stored` is what storage holds under the new owner's key; [] when it cannot be read. */
  function SwitchOwner(c: Client, owner: string, stored: seq<RawRow>): Client {
    if owner == c.owner then c
    else Client(OwnerName(owner), c.generation + 1,
                if OwnerName(owner) == "" then EMPTY else Load(stored), map[], map[])
  }

  datatype Reply = Failed | NotAList | Items(rows: seq<RawRow>)

  /** All or nothing: every row valid, requested and named once. */
  predicate Acceptable(ids: seq<string>, rows: seq<RawRow>) {
    && |rows| <= |ids|
    && (forall i :: 0 <= i < |rows| ==> ValidState(rows[i]) && AsRow(rows[i]).conversationId in ids)
    && (forall i, j :: 0 <= i < j < |rows| ==> AsRow(rows[i]).conversationId != AsRow(rows[j]).conversationId)
  }

  predicate Usable(c: Client, ids: seq<string>, generation: nat, reply: Reply) {
    generation == c.generation && reply.Items? && Acceptable(ids, reply.rows)
  }

  /** The conversations whose boundary moves, in the order the rows are merged. */
  function MovedIds(t: Table, rows: seq<Row>): seq<string> {
    if rows == [] then []
    else
      var front, last := rows[..|rows| - 1], rows[|rows| - 1];
      MovedIds(t, front) + (if Moves(MergeAll(t, front), last) then [last.conversationId] else [])
  }

  predicate AnyStored(t: Table, rows: seq<Row>) {
    rows != [] &&
    var front, last := rows[..|rows| - 1], rows[|rows| - 1];
    AnyStored(t, front) || !Blocks(MergeAll(t, front), last)
  }

  /** Some row was stored exactly when the table is another one: a row that is stored has a higher revision. */
  lemma {:induction false} StoredExactlyWhenMoved(t: Table, rows: seq<Row>)
    ensures AnyStored(t, rows) <==> MergeAll(t, rows) != t
    ensures !AnyStored(t, rows) ==> forall index: Index :: index.table == t ==> PutAll(index, rows) == index
  {
    if rows != [] {
      var front, last := rows[..|rows| - 1], rows[|rows| - 1];
      StoredExactlyWhenMoved(t, front);
      MergeAllExtends(t, front);
      var u := MergeAll(t, front);
      if !Blocks(u, last) {
        var id := last.conversationId;
        assert MergeAll(t, rows)[id] == last;
        assert id in t ==> t[id].revision <= u[id].revision < last.revision;
      } else {
        assert MergeAll(t, rows) == u;
        forall index: Index | index.table == t && !AnyStored(t, rows) ensures PutAll(index, rows) == index {
          assert PutAll(index, front) == index;
        }
      }
    }
  }

  function Answered(c: Client, ids: seq<string>, generation: nat, reply: Reply, now: int): Client {
    if !Usable(c, ids, generation, reply) then c
    else c.(index := PutAll(c.index, ValidRows(reply.rows)),
            fetchedAt := c.fetchedAt + map id | id in ids :: now)
  }

  function Settled(c: Client, ids: seq<string>, task: nat): Client {
    if ids in c.pending && c.pending[ids] == task then c.(pending := c.pending - {ids}) else c
  }

  // ----- the world around it -----

  /** A request in flight. `owner` and `startedAt` are trace: the account and the moment it was sent for. */
  datatype Task = Task(ids: seq<string>, generation: nat, answered: bool, owner: string, startedAt: nat)

  datatype Source = FromDisk(owner: string) | FromServer(owner: string, startedAt: nat)
  datatype Entry = Entry(row: Row, source: Source)

  /** `clock` counts steps, `ownedSince` is the step of the latest change of owner, `log` lists the rows
      merged since then, `obtained` every row ever read from an account's storage or received for it,
      and `intact` says that storage was readable when the current owner was set. */
  datatype World = World(client: Client, tasks: map<nat, Task>, nextTask: nat, disk: map<string, seq<RawRow>>,
                         clock: nat, ownedSince: nat, log: seq<Entry>, obtained: set<(string, Row)>, intact: bool)

  datatype Event =
    | Own(owner: string, readable: bool)
    | Request(ids: seq<string>)
    | Answer(task: nat, reply: Reply, now: int, writable: bool)
    | Settle(task: nat)

  function Stored(disk: map<string, seq<RawRow>>, owner: string): seq<RawRow> {
    if owner in disk then disk[owner] else []
  }

  function Entries(rows: seq<Row>, source: Source): seq<Entry> {
    seq(|rows|, i requires 0 <= i < |rows| => Entry(rows[i], source))
  }

  function OwnStep(w: World, owner: string, readable: bool): World {
    if owner == w.client.owner then w
    else
      var name := OwnerName(owner);
      var stored := if readable && name != "" then Stored(w.disk, name) else [];
      w.(client := SwitchOwner(w.client, owner, stored), ownedSince := w.clock,
         log := Entries(ValidRows(stored), FromDisk(name)), intact := readable)
  }

  function RequestStep(w: World, ids: seq<string>): World {
    if w.client.owner == "" || ids in w.client.pending then w
    else
      w.(tasks := w.tasks[w.nextTask := Task(ids, w.client.generation, false, w.client.owner, w.clock)],
         nextTask := w.nextTask + 1,
         client := w.client.(pending := w.client.pending[ids := w.nextTask]))
  }

  function AnswerStep(w: World, task: nat, reply: Reply, now: int, writable: bool): World {
    if task !in w.tasks || w.tasks[task].answered then w
    else
      var t := w.tasks[task];
      var rows := if reply.Items? then ValidRows(reply.rows) else [];
      var w' := w.(tasks := w.tasks[task := t.(answered := true)],
                   obtained := w.obtained + set row | row in rows :: (t.owner, row));
      if !Usable(w.client, t.ids, t.generation, reply) then w'
      else
        var c := Answered(w.client, t.ids, t.generation, reply, now);
        w'.(client := c, log := w.log + Entries(rows, FromServer(t.owner, t.startedAt)),
            disk := if writable && AnyStored(w.client.index.table, rows) then w.disk[c.owner := Values(c.index)] else w.disk)
  }

  function SettleStep(w: World, task: nat): World {
    if task !in w.tasks || !w.tasks[task].answered then w
    else w.(tasks := w.tasks - {task}, client := Settled(w.client, w.tasks[task].ids, task))
  }

  function Step(w: World, e: Event): World {
    var w' := w.(clock := w.clock + 1);
    match e
    case Own(owner, readable) => OwnStep(w', owner, readable)
    case Request(ids) => RequestStep(w', ids)
    case Answer(task, reply, now, writable) => AnswerStep(w', task, reply, now, writable)
    case Settle(task) => SettleStep(w', task)
  }

  function Run(w: World, events: seq<Event>): World {
    if events == [] then w else Step(Run(w, events[..|events| - 1]), events[|events| - 1])
  }
}

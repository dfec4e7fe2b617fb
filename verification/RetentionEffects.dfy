/**
 What an answer, a request and a change of account do, said without the functions that compute it: every boundary
 that moves is announced and stored, so a restart finds what memory held.
 */
module RetentionEffects {
  import opened Sequences
  import opened RetentionTable
  import opened RetentionProtocol
  import opened RetentionFence
  import Sync = RetentionSync

  // ----- identifiers and numbers -----

  lemma GroupIdExactly(id: string)
    ensures IsRetentionGroup(id) <==>
            |id| == 35 && id[0] == 's' && id[1] == 'g' && id[2] == '_' && forall c <- id[3..] :: c in "0123456789abcdef"
  {
    if |id| == 35 {
      assert id[..3] == "sg_" <==> id[0] == 's' && id[1] == 'g' && id[2] == '_';
      HexDigits();
      forall i | 3 <= i < 35 ensures id[i] in id[3..] { assert id[3..][i - 3] == id[i]; }
    }
  }

  lemma HexDigits()
    ensures forall c: char :: IsHexDigit(c) <==> c in "0123456789abcdef"
  {
    forall c: char ensures IsHexDigit(c) <==> c in "0123456789abcdef" {
      var digits := "0123456789abcdef";
      if '0' <= c <= '9' { assert digits[(c - '0') as int] == c; }
      if 'a' <= c <= 'f' { assert digits[10 + (c - 'a') as int] == c; }
    }
  }

  /** A message is gone when its conversation is such a group with a boundary above its number; without a number, never. */
  lemma RemovedExactly(t: Table, id: string, seqNo: nat)
    ensures Removed(t, id, seqNo) <==> IsRetentionGroup(id) && id in t && 1 <= seqNo && seqNo + 1 <= t[id].minVisibleSeq
    ensures !Removed(t, id, 0)
  {
  }

  /** The decimal digits of a number. */
  function Decimal(n: nat): string {
    if n == 0 then "" else Decimal(n / 10) + ['0' + (n % 10) as char]
  }

  lemma DigitReads(s: string, d: nat)
    requires d < 10 && forall i :: 0 <= i < |s| ==> IsDigit(s[i])
    ensures var longer := s + ['0' + d as char];
            (forall i :: 0 <= i < |longer| ==> IsDigit(longer[i])) && DecimalValue(longer) == 10 * DecimalValue(s) + d
  {
    var c := '0' + d as char;
    assert IsDigit(c) && (c - '0') as nat == d;
    assert (s + [c])[..|s|] == s;
  }

  lemma {:induction false} DecimalReads(n: nat)
    ensures n > 0 ==> AllDigits(Decimal(n))
    ensures (forall i :: 0 <= i < |Decimal(n)| ==> IsDigit(Decimal(n)[i])) && DecimalValue(Decimal(n)) == n
  {
    if n > 0 {
      DecimalReads(n / 10);
      DigitReads(Decimal(n / 10), n % 10);
    }
  }

  /** A sequence number is read from a number or from its digits, up to 2^53 - 1, under either spelling. */
  lemma SequenceNumberRead(n: nat, other: Field)
    requires 0 < n < 0x20_0000_0000_0000
    ensures RetentionSeq(Number(n), other) == n && RetentionSeq(Text(Decimal(n)), other) == n
    ensures RetentionSeq(Absent, Number(n)) == n && RetentionSeq(Absent, Text(Decimal(n))) == n
    ensures RetentionSeq(Number(0x20_0000_0000_0000), Absent) == 0
  {
    DecimalReads(n);
  }

  // ----- merging -----

  /** Announced are exactly the conversations that are new or whose boundary is higher afterwards. */
  lemma {:induction false} AnnouncedExactly(t: Table, rows: seq<Row>, id: string)
    ensures id in MovedIds(t, rows) <==>
            var u := MergeAll(t, rows); id in u && (id in t ==> t[id].minVisibleSeq < u[id].minVisibleSeq)
  {
    if rows != [] {
      var front, last := rows[..|rows| - 1], rows[|rows| - 1];
      AnnouncedExactly(t, front, id);
      MergeAllExtends(t, front);
      hide MovedIds;
      MovedIdsLast(t, rows);
    }
  }

  lemma MovedIdsLast(t: Table, rows: seq<Row>)
    requires rows != []
    ensures var front, last := rows[..|rows| - 1], rows[|rows| - 1];
            MovedIds(t, rows) ==
            MovedIds(t, front) + if Moves(MergeAll(t, front), last) then [last.conversationId] else []
  {
  }

  /** An acceptable answer names no conversation twice, so each row is decided against what was known before: it
      replaces that exactly when it is new, or has a higher revision and no lower boundary. */
  lemma {:induction false} EachRowDecided(t: Table, rows: seq<Row>, id: string)
    requires forall i, j :: 0 <= i < j < |rows| ==> rows[i].conversationId != rows[j].conversationId
    ensures (forall i :: 0 <= i < |rows| ==> rows[i].conversationId != id) ==> Same(t, MergeAll(t, rows), id)
    ensures forall i :: 0 <= i < |rows| && rows[i].conversationId == id ==>
              id in MergeAll(t, rows)
              && MergeAll(t, rows)[id] ==
                 if id !in t || (rows[i].revision > t[id].revision && rows[i].minVisibleSeq >= t[id].minVisibleSeq)
                 then rows[i] else t[id]
  {
    if rows != [] {
      var n := |rows| - 1;
      var front := rows[..n];
      EachRowDecided(t, front, id);
      MergeLast(t, rows);
      hide MergeAll;
      forall i | 0 <= i < n ensures front[i] == rows[i] { }
    }
  }

  ghost predicate Same(t: Table, u: Table, id: string) { (id in u <==> id in t) && (id in t ==> u[id] == t[id]) }

  lemma MergeLast(t: Table, rows: seq<Row>)
    requires rows != []
    ensures var u, last := MergeAll(t, rows[..|rows| - 1]), rows[|rows| - 1];
            MergeAll(t, rows) ==
            if last.conversationId !in u || (last.revision > u[last.conversationId].revision
                                             && last.minVisibleSeq >= u[last.conversationId].minVisibleSeq)
            then u[last.conversationId := last] else u
  {
  }

  // ----- one answer -----

  /** Storage changes exactly when the write succeeds and some row in memory changed, and then it holds the whole
      index; otherwise nothing is written. */
  lemma WrittenExactlyWhenMoved(w: World, task: nat, reply: Reply, now: int, writable: bool)
    requires Inv(w)
    ensures var w' := Step(w, Answer(task, reply, now, writable));
            w'.disk == if writable && w'.client.index.table != w.client.index.table
                       then w.disk[w.client.owner := Values(w'.client.index)] else w.disk
    ensures var w' := Step(w, Answer(task, reply, now, writable));
            w'.client.owner == w.client.owner
            && (w'.client.index.table == w.client.index.table ==> w'.client.index == w.client.index)
  {
    hide Inv, OwnStep, RequestStep, SettleStep, Values, ValidRows, Acceptable;
    if task in w.tasks && !w.tasks[task].answered
       && Usable(w.client, w.tasks[task].ids, w.tasks[task].generation, reply) {
      PutAllTable(w.client.index, ValidRows(reply.rows));
      StoredExactlyWhenMoved(w.client.index.table, ValidRows(reply.rows));
      hide PutAll, MergeAll, AnyStored;
    }
  }

  /** Reads and writes of storage succeed. */
  predicate StorageWorks(e: Event) { (e.Own? ==> e.readable) && (e.Answer? ==> e.writable) }

  /** What a restart would load is what memory holds. */
  ghost predicate Mirrored(w: World) {
    w.client.owner != "" ==> Load(Stored(w.disk, w.client.owner)) == w.client.index
  }

  lemma OwnMirrors(w: World, owner: string, readable: bool)
    requires Mirrored(w) && readable
    ensures Mirrored(Step(w, Own(owner, readable)))
  {
    hide Load, RequestStep, AnswerStep, SettleStep;
  }

  lemma StepMirrors(w: World, e: Event)
    requires Inv(w) && Mirrored(w) && StorageWorks(e)
    ensures Mirrored(Step(w, e))
  {
    StepKeeps(w, e);
    match e
    case Own(owner, readable) => OwnMirrors(w, owner, readable);
    case Request(ids) =>
    case Settle(task) =>
    case Answer(task, reply, now, writable) =>
      WrittenExactlyWhenMoved(w, task, reply, now, writable);
      assert IndexOk(Step(w, e).client.index);
      ReloadReproduces(Step(w, e).client.index);
      hide Step, Load, Inv, IndexOk, Values;
  }

  /** Main result: as long as storage works, after every run the stored list loads to exactly the index in memory, in
      the same order. Nothing an answer moved is lost by a restart. */
  lemma {:induction false} RestartFindsMemory(w: World, events: seq<Event>)
    requires Inv(w) && Mirrored(w) && forall e <- events :: StorageWorks(e)
    ensures Mirrored(Run(w, events))
  {
    if events != [] {
      var front, last := events[..|events| - 1], events[|events| - 1];
      assert last in events;
      RestartFindsMemory(w, front);
      RunKeeps(w, front);
      StepMirrors(Run(w, front), last);
    }
  }

  // ----- who is asked, and when again -----

  /** A usable answer settles its conversations for fifteen seconds; any other answer leaves them due. */
  lemma AskedAgainAfterFifteenSeconds(w: World, task: nat, reply: Reply, now: int, id: string, later: int)
    requires task in w.tasks && !w.tasks[task].answered
    ensures var used := Usable(w.client, w.tasks[task].ids, w.tasks[task].generation, reply);
            var after := Step(w, Answer(task, reply, now, true)).client.fetchedAt;
            Sync.Due(after, id, false, later) <==>
            if used && id in w.tasks[task].ids then later - now >= 15000 else Sync.Due(w.client.fetchedAt, id, false, later)
  {
    hide Acceptable, ValidRows, PutAll, Values, AnyStored;
  }

  /** One request per batch: a batch in flight is not sent again; once its answer has been dealt with, it is. */
  lemma OneRequestPerBatch(w: World, ids: seq<string>)
    requires w.client.owner != ""
    ensures var w' := Step(w, Request(ids));
            if ids in w.client.pending then w'.tasks == w.tasks && w'.client == w.client
            else w'.tasks == w.tasks[w.nextTask := Task(ids, w.client.generation, false, w.client.owner, w.clock + 1)]
                 && w'.client == w.client.(pending := w.client.pending[ids := w.nextTask])
  {
  }

  lemma SettledIsAskedAgain(w: World, task: nat)
    requires task in w.tasks && w.tasks[task].answered && w.client.owner != ""
    requires w.tasks[task].ids in w.client.pending && w.client.pending[w.tasks[task].ids] == task
    ensures var ids := w.tasks[task].ids;
            var settled := Step(w, Settle(task));
            ids !in settled.client.pending && task !in settled.tasks
            && w.nextTask in Step(settled, Request(ids)).tasks && !Step(settled, Request(ids)).tasks[w.nextTask].answered
            && settled.client.index == w.client.index
            && forall other :: other != ids ==> (other in settled.client.pending <==> other in w.client.pending)
  {
  }

  /** Another account starts with what its own storage says and owes every conversation a fetch; an account that is
      no legal name has no boundaries at all. */
  lemma AccountStartsFromStorage(w: World, owner: string, id: string, now: int)
    requires owner != w.client.owner
    ensures var c := Step(w, Own(owner, true)).client;
            && c.generation == w.client.generation + 1 && c.pending == map[]
            && Sync.Due(c.fetchedAt, id, false, now)
            && (1 <= |owner| <= 96 && (forall i :: 0 <= i < |owner| ==> IsOwnerChar(owner[i])) ==>
                  c.owner == owner && c.index == Load(Stored(w.disk, owner)))
            && (owner == "" || |owner| > 96 || (exists i :: 0 <= i < |owner| && !IsOwnerChar(owner[i])) ==>
                  c.owner == "" && c.index.table == map[])
  {
    hide Load, RequestStep, AnswerStep, SettleStep;
  }
}

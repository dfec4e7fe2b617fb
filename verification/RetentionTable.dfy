/**
 The pure half of the group-retention tombstones: which stored or received rows are
 acceptable, how one row is merged into the table of boundaries, and what the table
 then says about messages and unread counts.
 */
module RetentionTable {

  const MAX_SAFE: int := 9007199254740991

  /** What a field of an untyped SDK or storage object may hold. */
  datatype Field = Absent | Number(n: int) | Fraction | Text(s: string) | Other

  predicate IsDigit(c: char) { '0' <= c <= '9' }

  predicate AllDigits(s: string) {
    |s| > 0 && forall i :: 0 <= i < |s| ==> IsDigit(s[i])
  }

  function DecimalValue(s: string): nat
    requires forall i :: 0 <= i < |s| ==> IsDigit(s[i])
  {
    if s == "" then 0
    else assert IsDigit(s[|s| - 1]); 10 * DecimalValue(s[..|s| - 1]) + (s[|s| - 1] - '0') as nat
  }

  function PositiveSafeInteger(raw: Field): nat {
    var n := match raw
             case Number(k) => k
             case Text(s) => if AllDigits(s) then DecimalValue(s) else 0
             case _ => 0;
    if 0 < n <= MAX_SAFE then n else 0
  }

  /** The sequence number of an item whose fields may be spelled `seq` or `Seq`. */
  function RetentionSeq(seqField: Field, pascalField: Field): nat {
    if PositiveSafeInteger(seqField) != 0 then PositiveSafeInteger(seqField)
    else PositiveSafeInteger(pascalField)
  }

  predicate IsHexDigit(c: char) { IsDigit(c) || 'a' <= c <= 'f' }

  predicate IsRetentionGroup(id: string) {
    |id| == 35 && id[..3] == "sg_" && forall i :: 3 <= i < 35 ==> IsHexDigit(id[i])
  }

  /** An untrusted row; `updatedAt` is the instant its text parses to, if it parses. */
  datatype RawRow = RawRow(conversationId: Field, minVisibleSeq: Field, revision: Field, updatedAt: Stamp)
  datatype Stamp = Instant(ms: int) | Unparsable

  datatype Row = Row(conversationId: string, minVisibleSeq: nat, revision: nat, updatedAt: int)

  type Table = map<string, Row>

  predicate SafeNumber(f: Field) {
    f.Number? && PositiveSafeInteger(f) == f.n
  }

  predicate ValidState(raw: RawRow) {
    && raw.conversationId.Text?
    && IsRetentionGroup(raw.conversationId.s)
    && SafeNumber(raw.minVisibleSeq)
    && SafeNumber(raw.revision)
    && raw.updatedAt.Instant?
  }

  function AsRow(raw: RawRow): Row
    requires ValidState(raw)
  {
    Row(raw.conversationId.s, raw.minVisibleSeq.n, raw.revision.n, raw.updatedAt.ms)
  }

  function AsRaw(row: Row): RawRow {
    RawRow(Text(row.conversationId), Number(row.minVisibleSeq), Number(row.revision), Instant(row.updatedAt))
  }

  predicate ValidRow(row: Row) {
    IsRetentionGroup(row.conversationId) && row.minVisibleSeq <= MAX_SAFE && row.revision <= MAX_SAFE
  }

  /** Every row is stored under its own conversation and could be written out and read back. */
  ghost predicate WellFormed(t: Table) {
    forall id :: id in t ==> t[id].conversationId == id && ValidRow(t[id])
  }

  /** Exactly the well-formed rows survive being written as plain data and validated again. */
  lemma RowRoundTrip(row: Row)
    ensures ValidState(AsRaw(row)) <==> ValidRow(row)
    ensures ValidRow(row) ==> AsRow(AsRaw(row)) == row
  {
    assert PositiveSafeInteger(Number(row.minVisibleSeq)) == row.minVisibleSeq <==> row.minVisibleSeq <= MAX_SAFE;
  }

  // ----- merging one row -----

  predicate Blocks(t: Table, row: Row) {
    row.conversationId in t &&
    var prev := t[row.conversationId];
    row.revision <= prev.revision || row.minVisibleSeq < prev.minVisibleSeq
  }

  function Merge(t: Table, row: Row): Table {
    if Blocks(t, row) then t else t[row.conversationId := row]
  }

  /** The value returned by merge: did the boundary of that conversation move? */
  predicate Moves(t: Table, row: Row) {
    !Blocks(t, row) &&
    (row.conversationId in t ==> row.minVisibleSeq > t[row.conversationId].minVisibleSeq)
  }

  function MergeAll(t: Table, rows: seq<Row>): Table {
    if rows == [] then t else Merge(MergeAll(t, rows[..|rows| - 1]), rows[|rows| - 1])
  }

  function MinSeq(t: Table, id: string): nat {
    if id in t then t[id].minVisibleSeq else 0
  }

  predicate Removed(t: Table, id: string, seqNo: nat) {
    IsRetentionGroup(id) && 0 < seqNo < MinSeq(t, id)
  }

  function Unread(t: Table, id: string, latest: nat, count: nat): nat {
    var boundary := MinSeq(t, id);
    if !IsRetentionGroup(id) || boundary == 0 || latest == 0 then count
    else if latest < boundary then 0
    else if count < latest - boundary + 1 then count else latest - boundary + 1
  }

  // ----- boundaries never move back -----

  ghost predicate Extends(t: Table, u: Table) {
    forall id :: id in t ==>
      id in u && t[id].revision <= u[id].revision && t[id].minVisibleSeq <= u[id].minVisibleSeq
  }

  /** For arbitrary rows, both components only grow and a removed message stays removed. */
  lemma {:induction false} MergeAllExtends(t: Table, rows: seq<Row>)
    ensures Extends(t, MergeAll(t, rows))
    ensures forall id, n :: Removed(t, id, n) ==> Removed(MergeAll(t, rows), id, n)
  {
    if rows != [] {
      MergeAllExtends(t, rows[..|rows| - 1]);
    }
  }

  lemma {:induction false} MergeAllWellFormed(t: Table, rows: seq<Row>)
    requires WellFormed(t)
    requires forall r :: r in rows ==> ValidRow(r)
    ensures WellFormed(MergeAll(t, rows))
  {
    if rows != [] {
      var last := rows[|rows| - 1];
      assert last in rows;
      MergeAllWellFormed(t, rows[..|rows| - 1]);
    }
  }

  lemma {:induction false} MergeAllConcat(t: Table, rows: seq<Row>, more: seq<Row>)
    ensures MergeAll(t, rows + more) == MergeAll(MergeAll(t, rows), more)
  {
    if more == [] {
      assert rows + more == rows;
    } else {
      var n := |more| - 1;
      MergeAllConcat(t, rows, more[..n]);
      assert (rows + more)[..|rows| + n] == rows + more[..n];
      assert (rows + more)[|rows| + n] == more[n];
    }
  }

  // ----- convergence -----

  /** Two server rows agree on order: the higher revision never has the lower boundary. */
  predicate CoherentPair(a: Row, b: Row) {
    a.conversationId != b.conversationId
    || a == b
    || (a.revision < b.revision && a.minVisibleSeq <= b.minVisibleSeq)
    || (b.revision < a.revision && b.minVisibleSeq <= a.minVisibleSeq)
  }

  ghost predicate Coherent(rows: set<Row>) {
    forall a, b :: a in rows && b in rows ==> CoherentPair(a, b)
  }

  /** `t` holds, for every conversation mentioned in `rows`, one of its rows with the greatest
      revision and the greatest boundary, and nothing else. */
  ghost predicate IsNewest(t: Table, rows: set<Row>) {
    && (forall id :: id in t ==> t[id] in rows && t[id].conversationId == id)
    && (forall r :: r in rows ==>
          && r.conversationId in t
          && r.revision <= t[r.conversationId].revision
          && r.minVisibleSeq <= t[r.conversationId].minVisibleSeq)
  }

  lemma NewestStep(t: Table, seen: set<Row>, last: Row)
    requires IsNewest(t, seen) && Coherent(seen + {last})
    ensures IsNewest(Merge(t, last), seen + {last})
  {
    if last.conversationId in t {
      assert t[last.conversationId] in seen + {last};
      assert CoherentPair(t[last.conversationId], last);
    }
  }

  /** Whatever the order and the repetitions, merging ends at the maximum. */
  lemma {:induction false} ConvergesToNewest(rows: seq<Row>)
    requires Coherent(set r | r in rows)
    ensures IsNewest(MergeAll(map[], rows), set r | r in rows)
  {
    if rows != [] {
      hide Merge, IsNewest;
      var front, last := rows[..|rows| - 1], rows[|rows| - 1];
      assert rows == front + [last];
      ConvergesToNewest(front);
      assert (set r | r in rows) == (set r | r in front) + {last};
      NewestStep(MergeAll(map[], front), (set r | r in front), last);
    }
  }

  /** Hence two histories with the same rows end in the same table. */
  lemma OrderIndependent(rows: seq<Row>, other: seq<Row>)
    requires (set r | r in rows) == (set r | r in other)
    requires Coherent(set r | r in rows)
    ensures MergeAll(map[], rows) == MergeAll(map[], other)
  {
    var all := set r | r in rows;
    ConvergesToNewest(rows);
    ConvergesToNewest(other);
    var t, u := MergeAll(map[], rows), MergeAll(map[], other);
    forall id | id in t || id in u
      ensures id in t && id in u && t[id] == u[id]
    {
      if id in t { assert t[id] in all; }
      if id in u { assert u[id] in all; }
      assert CoherentPair(t[id], u[id]);
    }
  }

  /** For two rows the order is irrelevant exactly when they are coherent. */
  lemma PairCommutes(a: Row, b: Row)
    ensures MergeAll(map[], [a, b]) == MergeAll(map[], [b, a]) <==> CoherentPair(a, b)
  {
    MergeTwo(a, b);
    MergeTwo(b, a);
    var t, u := MergeAll(map[], [a, b]), MergeAll(map[], [b, a]);
    if CoherentPair(a, b) {
      assert t == u;
    } else {
      assert t[a.conversationId] != u[a.conversationId];
    }
  }

  lemma MergeTwo(a: Row, b: Row)
    ensures MergeAll(map[], [a, b]) == Merge(map[a.conversationId := a], b)
  {
    assert [a, b][..1] == [a];
    assert [a][..0] == [];
    assert MergeAll(map[], [a]) == Merge(MergeAll(map[], []), a);
  }

  // ----- the unread cap -----

  /** How many of the last `count` sequence numbers up to `latest` are still visible. */
  function VisibleInTail(boundary: nat, latest: int, count: nat): nat
    decreases count
  {
    if count == 0 then 0
    else (if boundary <= latest then 1 else 0) + VisibleInTail(boundary, latest - 1, count - 1)
  }

  lemma {:induction false} VisibleInTailClosed(boundary: nat, latest: int, count: nat)
    ensures VisibleInTail(boundary, latest, count) ==
            if latest < boundary then 0
            else if count < latest - boundary + 1 then count else latest - boundary + 1
    decreases count
  {
    if count > 0 {
      VisibleInTailClosed(boundary, latest - 1, count - 1);
    }
  }

  /** With a known boundary and a known latest message, the cap counts the visible tail exactly. */
  lemma UnreadCountsVisible(t: Table, id: string, latest: nat, count: nat)
    requires IsRetentionGroup(id) && MinSeq(t, id) > 0 && latest > 0
    ensures Unread(t, id, latest, count) == VisibleInTail(MinSeq(t, id), latest, count)
  {
    VisibleInTailClosed(MinSeq(t, id), latest, count);
  }

  /** Moving the boundary forward never raises an unread count, and never exceeds the SDK's. */
  lemma UnreadAntitone(t: Table, u: Table, id: string, latest: nat, count: nat)
    requires MinSeq(t, id) <= MinSeq(u, id)
    ensures Unread(u, id, latest, count) <= Unread(t, id, latest, count) <= count
    ensures Removed(u, id, latest) ==> Unread(u, id, latest, count) == 0
  {
  }
}

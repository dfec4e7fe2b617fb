/** Which conversations are listed after conversation events, and what their rows say. */
module ChatRowEffects {
  import opened Options
  import opened RetentionTable
  import opened ChatModel
  import opened ChatInvariants
  import opened ChatHistory
  import opened ChatRuns
  import opened ChatEffects

  /** A row may be listed unless it is hidden, left, or a private conversation with somebody blocked. */
  predicate Listable(c: Chat, v: Conv) {
    v.id !in c.hidden && v.id !in c.exited && (v.isGroup || v.peer == "" || v.peer !in c.blocked)
  }

  /** The first row of a conversation in a list. */
  function FindIn(convs: seq<Conv>, id: string): Option<Conv> {
    var i := IndexOf(convs, id);
    if i < |convs| then Some(convs[i]) else None
  }

  lemma IndexUnique(convs: seq<Conv>, id: string, i: nat)
    requires i < |convs| && convs[i].id == id && forall k :: 0 <= k < i ==> convs[k].id != id
    ensures IndexOf(convs, id) == i
  {
  }

  lemma {:induction false} IndexAbsent(convs: seq<Conv>, id: string)
    ensures IndexOf(convs, id) == |convs| <==> forall k :: 0 <= k < |convs| ==> convs[k].id != id
  {
    if convs != [] && convs[0].id != id {
      IndexAbsent(convs[1..], id);
      assert forall k :: 1 <= k < |convs| ==> convs[k] == convs[1..][k - 1];
    }
  }

  // ----- one item -----

  /** What an item of the SDK says is taken over, with the other side filled in for a private conversation. */
  lemma ItemTaken(t: Table, c: Chat, item: Conv)
    ensures var v := Decorate(t, c, item);
            && v.id == item.id && v.isGroup == item.isGroup
            && v.peer == (if !item.isGroup && item.peer == "" && item.id in c.peers then c.peers[item.id] else item.peer)
            && Cleaned(t, item.(peer := v.peer), v)
  {
  }

  /** Of two versions of a conversation: the preview of the later message, the unread count of the new version unless
      it was read, and nothing else of the old one. */
  lemma NewerRowExactly(t: Table, active: string, prev: Conv, next: Conv)
    ensures var keeps := prev.text != "" && prev.at > next.at;
            var seen := (active != "" && next.id == active) || (prev.unread == 0 && next.unread > 0 && prev.at >= next.at);
            Cleaned(t, next.(text := if keeps then prev.text else next.text, at := if keeps then prev.at else next.at,
                             seqNo := if keeps then prev.seqNo else next.seqNo,
                             lastId := if keeps then prev.lastId else next.lastId,
                             unread := if seen then 0 else next.unread),
                    KeepNewer(t, active, prev, next))
  {
  }

  // ----- conversation events -----

  lemma MergedRowAt(t: Table, active: string, convs: seq<Conv>, v: Conv, id: string)
    ensures FindIn(MergeRow(t, active, convs, v), id) ==
            if id != v.id then FindIn(convs, id)
            else Some(match FindIn(convs, id) case Some(p) => KeepNewer(t, active, p, v) case None => v)
  {
    var merged := MergeRow(t, active, convs, v);
    var i, j := IndexOf(convs, v.id), IndexOf(convs, id);
    hide KeepNewer;
    NewerKeepsId(t, active, convs, v);
    if i < |convs| {
      if j < |convs| { IndexUnique(merged, id, j); }
      else { IndexAbsent(convs, id); IndexAbsent(merged, id); }
    } else {
      IndexAbsent(convs, v.id);
      if j < |convs| { IndexUnique(merged, id, j); }
      else if id == v.id { IndexUnique(merged, id, |convs|); }
      else { IndexAbsent(convs, id); IndexAbsent(merged, id); }
    }
  }

  lemma NewerKeepsId(t: Table, active: string, convs: seq<Conv>, v: Conv)
    ensures forall k :: 0 <= k < |convs| ==> KeepNewer(t, active, convs[k], v).id == v.id
  {
  }

  /** The row a sequence of versions leaves for `id`, if no two of them share an id. */
  lemma {:induction false} MergedRowsAt(t: Table, active: string, convs: seq<Conv>, incoming: seq<Conv>, id: string)
    requires RowsDistinct(incoming)
    ensures (forall v <- incoming :: v.id != id) ==> FindIn(MergeRows(t, active, convs, incoming), id) == FindIn(convs, id)
    ensures forall v <- incoming :: v.id == id ==>
              FindIn(MergeRows(t, active, convs, incoming), id) ==
              Some(match FindIn(convs, id) case Some(p) => KeepNewer(t, active, p, v) case None => v)
  {
    if incoming != [] {
      var front, last := incoming[..|incoming| - 1], incoming[|incoming| - 1];
      LastIsNew(incoming);
      hide RowsDistinct, FindIn, MergeRow, KeepNewer, IndexOf;
      MergedRowsAt(t, active, convs, front, id);
      MergedRowAt(t, active, MergeRows(t, active, convs, front), last, id);
      assert MergeRows(t, active, convs, incoming) == MergeRow(t, active, MergeRows(t, active, convs, front), last);
      hide MergeRows;
      assert incoming == front + [last];
    }
  }

  lemma LastIsNew(rows: seq<Conv>)
    requires RowsDistinct(rows) && rows != []
    ensures var front, last := rows[..|rows| - 1], rows[|rows| - 1];
            RowsDistinct(front) && forall v <- front :: v.id != last.id
  {
    var front := rows[..|rows| - 1];
    forall v | v in front ensures v.id != rows[|rows| - 1].id {
      var k :| 0 <= k < |front| && front[k] == v;
      assert rows[k].id != rows[|rows| - 1].id;
    }
  }

  lemma {:induction false} SelectRows(rows: seq<Conv>, p: Conv -> bool)
    requires RowsDistinct(rows)
    ensures RowsDistinct(Select(rows, p))
  {
    if rows != [] {
      var front, last := rows[..|rows| - 1], rows[|rows| - 1];
      LastIsNew(rows);
      SelectRows(front, p);
      SelectAppend(front, last, p);
      hide Select;
      assert rows == front + [last];
    }
  }

  lemma FoundIsIn(convs: seq<Conv>, id: string, v: Conv)
    requires FindIn(convs, id) == Some(v)
    ensures v in convs && v.id == id
  {
  }

  /** The version of an item that is merged, and the row it becomes. */
  function NewRow(t: Table, c: Chat, item: Conv): Conv {
    var v := Decorate(t, c, item);
    match FindRow(c, item.id) case Some(p) => KeepNewer(t, c.active, p, v) case None => v
  }

  lemma NewRowStaysListable(t: Table, c: Chat, item: Conv)
    requires Listable(c, Decorate(t, c, item))
    ensures Listable(c, NewRow(t, c, item))
  {
  }

  lemma DecoratedDistinct(t: Table, c: Chat, items: seq<Conv>)
    requires RowsDistinct(items)
    ensures RowsDistinct(DecorateAll(t, c, items))
    ensures forall item <- items :: Decorate(t, c, item) in DecorateAll(t, c, items)
    ensures forall v <- DecorateAll(t, c, items) :: exists item <- items :: v == Decorate(t, c, item)
  {
    var rows := DecorateAll(t, c, items);
    forall i | 0 <= i < |items| ensures rows[i].id == items[i].id { ItemTaken(t, c, items[i]); }
    hide Decorate;
    forall item | item in items ensures Decorate(t, c, item) in rows {
      var i :| 0 <= i < |items| && items[i] == item;
      assert rows[i] in rows;
    }
    forall v | v in rows ensures exists item <- items :: v == Decorate(t, c, item) {
      var i :| 0 <= i < |rows| && rows[i] == v;
      assert items[i] in items;
    }
  }

  lemma ShownExactly(c: Chat, convs: seq<Conv>, v: Conv)
    ensures v in ShownRows(c, convs) <==> v in convs && Listable(c, v)
  {
  }

  /** The versions that are merged. */
  function Incoming(t: Table, c: Chat, items: seq<Conv>): seq<Conv> { ShownRows(c, DecorateAll(t, c, items)) }

  lemma IncomingExactly(t: Table, c: Chat, items: seq<Conv>, id: string)
    requires RowsDistinct(items)
    ensures RowsDistinct(Incoming(t, c, items))
    ensures forall item <- items :: Listable(c, Decorate(t, c, item)) ==> Decorate(t, c, item) in Incoming(t, c, items)
    ensures (forall item <- items :: item.id != id) ==> forall v <- Incoming(t, c, items) :: v.id != id
  {
    var rows := DecorateAll(t, c, items);
    DecoratedDistinct(t, c, items);
    SelectRows(rows, (v: Conv) => ShouldShow(c, v));
    forall item | item in items ensures Decorate(t, c, item).id == item.id { ItemTaken(t, c, item); }
    hide DecorateAll, Decorate;
  }

  lemma MergedThenShown(t: Table, c: Chat, items: seq<Conv>, v: Conv)
    requires Incoming(t, c, items) != []
    ensures v in Upsert(t, c, items).convs <==> v in MergeRows(t, c.active, c.convs, Incoming(t, c, items)) && Listable(c, v)
  {
    ShownExactly(c, MergeRows(t, c.active, c.convs, Incoming(t, c, items)), v);
    hide ShownRows, DecorateAll, MergeRows;
  }

  /** Every item that may be listed has its row afterwards: the newer of the old row and the item. */
  lemma EventsListRows(t: Table, c: Chat, items: seq<Conv>, item: Conv)
    requires RowsDistinct(items) && item in items && Listable(c, Decorate(t, c, item))
    ensures NewRow(t, c, item) in DirectStep(t, c, RowsChanged(items)).convs
  {
    ItemTaken(t, c, item);
    IncomingExactly(t, c, items, item.id);
    NewRowStaysListable(t, c, item);
    hide Decorate, KeepNewer, MergeRows, IndexOf, Incoming, Upsert, Listable;
    var incoming := Incoming(t, c, items);
    assert Decorate(t, c, item) in incoming;
    MergedRowsAt(t, c.active, c.convs, incoming, item.id);
    FoundIsIn(MergeRows(t, c.active, c.convs, incoming), item.id, NewRow(t, c, item));
    MergedThenShown(t, c, items, NewRow(t, c, item));
  }

  /** Rows that no item names stay as they are, if they may still be listed. */
  lemma EventsKeepOtherRows(t: Table, c: Chat, items: seq<Conv>, v: Conv)
    requires RowsDistinct(items) && FindRow(c, v.id) == Some(v) && Listable(c, v)
    requires forall item <- items :: item.id != v.id
    ensures v in DirectStep(t, c, RowsChanged(items)).convs
  {
    IncomingExactly(t, c, items, v.id);
    hide Decorate, DecorateAll, KeepNewer, MergeRows, IndexOf, ShownRows, Listable;
    var incoming := Incoming(t, c, items);
    if incoming == [] {
      FoundIsIn(c.convs, v.id, v);
    } else {
      MergedRowsAt(t, c.active, c.convs, incoming, v.id);
      FoundIsIn(MergeRows(t, c.active, c.convs, incoming), v.id, v);
      MergedThenShown(t, c, items, v);
    }
  }

  /** Events change nothing but the rows; and if any item may be listed, only what may be listed is left. */
  lemma EventsListNothingElse(t: Table, c: Chat, items: seq<Conv>)
    requires RowsDistinct(items)
    ensures DirectStep(t, c, RowsChanged(items)) == c.(convs := DirectStep(t, c, RowsChanged(items)).convs)
    ensures (exists item <- items :: Listable(c, Decorate(t, c, item))) ==>
              forall v <- DirectStep(t, c, RowsChanged(items)).convs :: Listable(c, v)
  {
    IncomingExactly(t, c, items, "");
    forall v | Incoming(t, c, items) != [] && v in DirectStep(t, c, RowsChanged(items)).convs ensures Listable(c, v) {
      MergedThenShown(t, c, items, v);
    }
    hide Decorate, DecorateAll, MergeRows, ShownRows, Listable;
  }

  // ----- the reloaded list -----

  lemma {:induction false} PreviousIsFound(convs: seq<Conv>, id: string)
    requires RowsDistinct(convs)
    ensures Previous(convs, id) == FindIn(convs, id)
  {
    if convs == [] {
    } else {
      var n := |convs| - 1;
      var front := convs[..n];
      if convs[n].id == id {
        IndexUnique(convs, id, n);
      } else {
        PreviousIsFound(front, id);
        var i := IndexOf(front, id);
        if i < n { IndexUnique(convs, id, i); }
        else { IndexAbsent(front, id); IndexAbsent(convs, id); }
      }
    }
  }

  lemma ReloadedRow(t: Table, c: Chat, item: Conv)
    requires RowsDistinct(c.convs)
    ensures Reloaded(t, c, item) == NewRow(t, c, item)
  {
    ItemTaken(t, c, item);
    PreviousIsFound(c.convs, item.id);
    hide Decorate, KeepNewer, Previous;
  }

  lemma ReloadedRows(t: Table, c: Chat, items: seq<Conv>, v: Conv) returns (rows: seq<Conv>)
    requires RowsDistinct(c.convs)
    ensures ListArrived(t, c, items) == c.(convs := ShownRows(c, rows))
    ensures v in rows <==> exists item <- items :: v == NewRow(t, c, item)
  {
    rows := seq(|items|, i requires 0 <= i < |items| => Reloaded(t, c, items[i]));
    assert ListArrived(t, c, items) == c.(convs := ShownRows(c, rows));
    hide ListArrived, ShownRows;
    forall i | 0 <= i < |items| ensures rows[i] == NewRow(t, c, items[i]) { ReloadedRow(t, c, items[i]); }
    hide NewRow, Reloaded;
    if item :| item in items && v == NewRow(t, c, item) {
      var i :| 0 <= i < |items| && items[i] == item;
      assert rows[i] in rows;
    }
  }

  /** The reloaded list has a row for exactly the items that may be listed, each the newer of the old row and the item;
      conversations the SDK does not list any more go. */
  lemma ReloadListsExactly(t: Table, c: Chat, items: seq<Conv>, v: Conv)
    requires RowsDistinct(c.convs)
    ensures v in DirectStep(t, c, RowsListed(items)).convs <==> Listable(c, v) && exists item <- items :: v == NewRow(t, c, item)
    ensures DirectStep(t, c, RowsListed(items)) == c.(convs := DirectStep(t, c, RowsListed(items)).convs)
  {
    hide ListArrived, ShownRows, NewRow, Listable;
    var rows := ReloadedRows(t, c, items, v);
    ShownExactly(c, rows, v);
  }

  // ----- accounts and blocked peers -----

  /** A change of account, and a list of blocked peers that blocks somebody, leave exactly the rows that may be listed
      under the new sets. */
  lemma AccountListsExactly(t: Table, c: Chat, hidden: set<string>, exited: set<string>, blocked: set<string>, v: Conv)
    ensures var c' := DirectStep(t, c, SwitchAccount(hidden, exited, blocked));
            && c' == c.(convs := c'.convs, hidden := hidden, exited := exited, blocked := blocked)
            && (v in c'.convs <==> v in c.convs && Listable(c', v))
  {
  }

  lemma BlockingListsExactly(t: Table, c: Chat, keys: set<string>, v: Conv)
    ensures var c' := DirectStep(t, c, BlockedSynced(keys));
            && c' == c.(convs := c'.convs, blocked := keys)
            && (v in c'.convs <==> v in c.convs && (keys == {} || Listable(c', v)))
  {
  }
}

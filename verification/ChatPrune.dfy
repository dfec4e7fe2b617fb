/** What the retention listener does when boundaries move, and what happens when it is not there. */
module ChatPrune {
  import opened RetentionTable
  import opened RetentionProtocol
  import opened ChatModel
  import opened ChatInvariants
  import opened ChatWriters

  /** The ids handed to the listener cover every boundary that changed. */
  lemma {:induction false} MovedIdsCover(t: Table, rows: seq<RetentionTable.Row>, id: string)
    ensures id !in MovedIds(t, rows) ==> MinSeq(MergeAll(t, rows), id) == MinSeq(t, id)
    ensures MinSeq(t, id) <= MinSeq(MergeAll(t, rows), id)
  {
    if rows != [] {
      MovedIdsCover(t, rows[..|rows| - 1], id);
    }
  }

  lemma PruneKeeps(t: Table, t': Table, c: Chat, ids: seq<string>)
    requires forall id :: id !in ids ==> MinSeq(t', id) == MinSeq(t, id)
    ensures Agree(t, c) ==> Agree(t', Prune(t', c, ids))
    ensures AllTidy(c) ==> AllTidy(Prune(t', c, ids))
    ensures NoExited(c) ==> NoExited(Prune(t', c, ids))
  {
    var c' := Prune(t', c, ids);
    forall conv | conv in c.lists
      ensures Clean(t, conv, c.lists[conv]) ==> Clean(t', conv, c'.lists[conv])
      ensures Tidy(c.lists[conv], c.localCount) ==> Tidy(c'.lists[conv], c.localCount)
    {
      VisibleClean(t', conv, c.lists[conv]);
      if Tidy(c.lists[conv], c.localCount) { VisibleTidy(t', conv, c.lists[conv], c.localCount); }
    }
    forall v | v in c'.convs
      ensures RowAgrees(t', v) && exists o :: o in c.convs && o.id == v.id
    {
      var k :| 0 <= k < |c'.convs| && c'.convs[k] == v;
      SanitizedAgrees(t', c.convs[k]);
      assert c.convs[k] in c.convs;
    }
  }

  /** The store after a response has been merged: the listener runs when a boundary moved. */
  function Committed(t: Table, rows: seq<RetentionTable.Row>, c: Chat): Chat {
    var ids := MovedIds(t, rows);
    if c.subscribed && ids != [] then Prune(MergeAll(t, rows), c, ids) else c
  }

  lemma CommittedKeeps(t: Table, rows: seq<RetentionTable.Row>, c: Chat)
    requires c.subscribed
    ensures Agree(t, c) ==> Agree(MergeAll(t, rows), Committed(t, rows, c))
    ensures AllTidy(c) ==> AllTidy(Committed(t, rows, c))
    ensures NoExited(c) ==> NoExited(Committed(t, rows, c))
  {
    var t' := MergeAll(t, rows);
    forall id
      ensures id !in MovedIds(t, rows) ==> MinSeq(t', id) == MinSeq(t, id)
    {
      MovedIdsCover(t, rows, id);
    }
    PruneKeeps(t, t', c, MovedIds(t, rows));
  }

  /** Does some message become invisible that was visible? The first boundary, 1, hides nothing. */
  predicate Hides(t: Table, t': Table, id: string) {
    IsRetentionGroup(id) && MinSeq(t', id) > MinSeq(t, id) && MinSeq(t', id) > 1
  }

  ghost predicate HidesSome(t: Table, t': Table) {
    exists id :: Hides(t, t', id)
  }

  function OneMessage(conv: string, seqNo: nat, subscribed: bool): Chat {
    Chat([], map[conv := [Msg(Sdk("m"), seqNo, Sent, 0, "", false)]], map[], map[], {}, {}, {}, map[], "", 0, 0,
         subscribed)
  }

  ghost predicate SafeForEveryStore(t: Table, rows: seq<RetentionTable.Row>, subscribed: bool) {
    forall c: Chat :: c.subscribed == subscribed && Agree(t, c) ==> Agree(MergeAll(t, rows), Committed(t, rows, c))
  }

  lemma UnsubscribedFails(t: Table, rows: seq<RetentionTable.Row>, id: string)
    requires Hides(t, MergeAll(t, rows), id)
    ensures !SafeForEveryStore(t, rows, false)
  {
    var seqNo := if MinSeq(t, id) == 0 then 1 else MinSeq(t, id);
    var c := OneMessage(id, seqNo, false);
    assert Agree(t, c);
    assert Removed(MergeAll(t, rows), id, seqNo);
    assert c.lists[id][0] in c.lists[id];
    assert !Agree(MergeAll(t, rows), c);
  }

  lemma NothingHidden(t: Table, t': Table, c: Chat)
    requires !HidesSome(t, t') && forall id :: MinSeq(t, id) <= MinSeq(t', id)
    requires Agree(t, c)
    ensures Agree(t', c)
  {
    forall id, n: nat
      ensures Removed(t', id, n) ==> Removed(t, id, n)
    {
      assert !Hides(t, t', id);
    }
  }

  /** Merging a response is safe for every store exactly when the listener is subscribed or no visible
      message falls below a boundary. ChatFence.LateRunDisagrees is a run that ends on the failing side: boundaries
      advance from any page that asks for history, and nothing prunes when the listener is subscribed again. */
  lemma SafeExactlyWhenSubscribed(t: Table, rows: seq<RetentionTable.Row>, subscribed: bool)
    ensures SafeForEveryStore(t, rows, subscribed)
            <==> subscribed || !HidesSome(t, MergeAll(t, rows))
  {
    if subscribed {
      forall c: Chat | c.subscribed && Agree(t, c)
        ensures Agree(MergeAll(t, rows), Committed(t, rows, c))
      {
        CommittedKeeps(t, rows, c);
      }
    } else if HidesSome(t, MergeAll(t, rows)) {
      var id :| Hides(t, MergeAll(t, rows), id);
      UnsubscribedFails(t, rows, id);
    } else {
      forall c: Chat | !c.subscribed && Agree(t, c)
        ensures Agree(MergeAll(t, rows), Committed(t, rows, c))
      {
        forall id ensures MinSeq(t, id) <= MinSeq(MergeAll(t, rows), id) { MovedIdsCover(t, rows, id); }
        NothingHidden(t, MergeAll(t, rows), c);
      }
    }
  }
}

/** What a reload keeps of what was there, and which of two previews wins. */
module ChatHistory {
  import opened RetentionTable
  import opened ChatModel
  import opened ChatInvariants

  /** A captured message that a reload may not drop: still on its way, failed, or sent within the last minute. */
  predicate Kept(m: Msg, now: int) { m.status != Sent || 0 <= now - m.at < 60000 }

  lemma ShownVisible(t: Table, conv: string, page: seq<Raw>)
    ensures forall m <- Shown(t, conv, page) :: !Removed(t, conv, m.seqNo)
  {
    var kept := Select(page, (r: Raw) => !r.pin && !Removed(t, conv, r.seqNo));
    forall m | m in ToMsgs(kept) ensures !Removed(t, conv, m.seqNo) {
      var i :| 0 <= i < |kept| && ToMsgs(kept)[i] == m;
      assert kept[i] in kept;
    }
  }

  /** The reloaded list is the page, whole and in order, followed by the captured messages it has to keep. */
  lemma ReloadIsPageThenPending(t: Table, conv: string, captured: seq<Msg>, page: seq<Raw>, now: int)
    ensures var existing := Visible(t, conv, captured);
            var history := WithRead(Shown(t, conv, page), existing);
            && Reconciled(t, conv, captured, page, now) == history + Pending(history, existing, now)
            && |history| == |Shown(t, conv, page)|
            && forall i :: 0 <= i < |history| ==>
                 (history[i].id, history[i].body) == (Shown(t, conv, page)[i].id, Shown(t, conv, page)[i].body)
  {
    var existing := Visible(t, conv, captured);
    var history := WithRead(Shown(t, conv, page), existing);
    ShownVisible(t, conv, page);
    forall m | m in history + Pending(history, existing, now)
      ensures !Removed(t, conv, m.seqNo)
    {
      if m in history {
        var i :| 0 <= i < |history| && history[i] == m;
        assert Shown(t, conv, page)[i] in Shown(t, conv, page);
      }
    }
    SelectAll(history + Pending(history, existing, now), (m: Msg) => !Removed(t, conv, m.seqNo));
  }

  /** Exactly what is shown after a reload, before the list is cut to its window: what the page shows, and captured
      messages that must be kept. A message appended while the page was awaited is shown only if the page has it. */
  lemma ShownAfterReload(t: Table, conv: string, captured: seq<Msg>, page: seq<Raw>, now: int, id: MsgId)
    ensures HasId(Reconciled(t, conv, captured, page, now), id) <==>
            HasId(Shown(t, conv, page), id)
            || exists m <- captured :: m.id == id && !Removed(t, conv, m.seqNo) && Kept(m, now)
  {
    hide Reconciled, WithRead, Shown;
    var existing := Visible(t, conv, captured);
    var history := WithRead(Shown(t, conv, page), existing);
    ReloadIsPageThenPending(t, conv, captured, page, now);
    SameIds(history, Shown(t, conv, page), id);
    assert forall m <- captured :: !Removed(t, conv, m.seqNo) ==> m in existing;
    if m :| m in captured && m.id == id && !Removed(t, conv, m.seqNo) && Kept(m, now) && !HasId(history, id) {
      assert m in Pending(history, existing, now);
    }
  }

  lemma SameIds(a: seq<Msg>, b: seq<Msg>, id: MsgId)
    requires |a| == |b| && forall i :: 0 <= i < |a| ==> a[i].id == b[i].id
    ensures HasId(a, id) <==> HasId(b, id)
  {
    if HasId(a, id) {
      var m :| m in a && m.id == id;
      var i :| 0 <= i < |a| && a[i] == m;
      assert b[i] in b;
    }
    if HasId(b, id) {
      var m :| m in b && m.id == id;
      var i :| 0 <= i < |b| && b[i] == m;
      assert a[i] in a;
    }
  }

  /** A read mark that was set before the reload is not lost to a page that does not know it yet. */
  lemma ReadMarksStay(t: Table, conv: string, captured: seq<Msg>, page: seq<Raw>, now: int, m: Msg, read: Msg)
    requires DistinctIds(captured)
    requires m in Reconciled(t, conv, captured, page, now)
    requires read in captured && read.hasRead && !Removed(t, conv, read.seqNo) && read.id == m.id
    ensures m.hasRead
  {
    var existing := Visible(t, conv, captured);
    var history := WithRead(Shown(t, conv, page), existing);
    ReloadIsPageThenPending(t, conv, captured, page, now);
    assert read in existing;
    if m in history {
      var i :| 0 <= i < |history| && history[i] == m;
    } else {
      assert m in captured;
      var i :| 0 <= i < |captured| && captured[i] == m;
      var j :| 0 <= j < |captured| && captured[j] == read;
    }
  }

  /** Older pages go in front, and nothing of the captured list is lost that is still visible. */
  lemma OlderGoesInFront(t: Table, c: Chat, conv: string, captured: seq<Msg>, page: seq<Raw>)
    ensures ListOf(Prepended(t, c, conv, captured, page), conv) == Shown(t, conv, page) + Visible(t, conv, captured)
  {
    SelectConcat(Shown(t, conv, page), captured, (m: Msg) => !Removed(t, conv, m.seqNo));
    ShownVisible(t, conv, page);
    SelectAll(Shown(t, conv, page), (m: Msg) => !Removed(t, conv, m.seqNo));
  }

  lemma {:induction false} FirstIndexFinds(list: seq<Msg>, id: MsgId)
    requires HasId(list, id)
    ensures FirstIndex(list, id) < |list| && list[FirstIndex(list, id)].id == id
  {
    if list[0].id != id {
      var m :| m in list && m.id == id;
      assert m in list[1..];
      FirstIndexFinds(list[1..], id);
    }
  }

  /** A message that was looked for and found is the first of the list afterwards, and all later ones follow it. */
  lemma LocatedStartsAtTarget(t: Table, c: Chat, conv: string, target: MsgId, captured: seq<Msg>, page: seq<Raw>,
                              isEnd: bool)
    requires page != [] && HasId(Shown(t, conv, page) + Visible(t, conv, captured), target)
    ensures var all, list := Shown(t, conv, page) + Visible(t, conv, captured),
                             ListOf(Located(t, c, conv, target, captured, page, isEnd), conv);
            && list != [] && list[0].id == target
            && |list| <= |all| && list == all[|all| - |list|..]
  {
    var c0 := c.(ended := c.ended[conv := isEnd]);
    OlderGoesInFront(t, c0, conv, captured, page);
    FirstIndexFinds(Shown(t, conv, page) + Visible(t, conv, captured), target);
  }

  // ----- previews -----

  /** Of two versions of a conversation the later message is shown, a count that was read stays read, and nothing
      is invented. */
  lemma LaterPreviewWins(t: Table, active: string, prev: Conv, next: Conv)
    ensures var v := KeepNewer(t, active, prev, next);
            && v.id == next.id && v.peer == next.peer && v.isGroup == next.isGroup
            && ((v.seqNo, v.lastId) == (prev.seqNo, prev.lastId) || (v.seqNo, v.lastId) == (next.seqNo, next.lastId))
            && (!Removed(t, v.id, v.seqNo) ==>
                  && ((v.text, v.at) == (prev.text, prev.at) || (v.text, v.at) == (next.text, next.at))
                  && v.at >= next.at && (prev.text != "" ==> v.at >= prev.at))
            && v.unread <= next.unread
            && (active != "" && next.id == active ==> v.unread == 0)
            && (prev.unread == 0 && prev.at >= next.at ==> v.unread == 0)
  {
    UnreadAntitone(t, t, next.id, prev.seqNo, next.unread);
    UnreadAntitone(t, t, next.id, next.seqNo, next.unread);
  }

  function RowIds(convs: seq<Conv>): set<string> { set v <- convs :: v.id }

  ghost predicate RowsDistinct(convs: seq<Conv>) {
    forall i, j :: 0 <= i < j < |convs| ==> convs[i].id != convs[j].id
  }

  lemma MergeRowIds(t: Table, active: string, convs: seq<Conv>, v: Conv)
    requires RowsDistinct(convs)
    ensures RowsDistinct(MergeRow(t, active, convs, v))
    ensures RowIds(MergeRow(t, active, convs, v)) == RowIds(convs) + {v.id}
  {
    var i := IndexOf(convs, v.id);
    var merged := MergeRow(t, active, convs, v);
    if i < |convs| {
      LaterPreviewWins(t, active, convs[i], v);
      assert merged[i].id == v.id && convs[i].id == v.id;
      forall id ensures id in RowIds(merged) <==> id in RowIds(convs) {
        if id in RowIds(convs) {
          var k :| 0 <= k < |convs| && convs[k].id == id;
          assert merged[k] in merged && merged[k].id == id;
        }
        if id in RowIds(merged) {
          var k :| 0 <= k < |merged| && merged[k].id == id;
          assert convs[k] in convs && convs[k].id == id;
        }
      }
      assert convs[i] in convs;
    } else {
      forall k | 0 <= k < |convs| ensures merged[k] == convs[k] {
      }
      assert v in merged;
    }
  }

  lemma RowIdsAppend(convs: seq<Conv>, v: Conv)
    ensures RowIds(convs + [v]) == RowIds(convs) + {v.id}
  {
    assert forall x <- convs :: x in convs + [v];
    assert v in convs + [v];
  }

  /** No conversation is listed twice, and each one that was there or arrives is there afterwards. */
  lemma {:induction false} MergedRowIds(t: Table, active: string, convs: seq<Conv>, incoming: seq<Conv>)
    requires RowsDistinct(convs)
    ensures RowsDistinct(MergeRows(t, active, convs, incoming))
    ensures RowIds(MergeRows(t, active, convs, incoming)) == RowIds(convs) + RowIds(incoming)
  {
    if incoming != [] {
      var n := |incoming| - 1;
      var front, last := incoming[..n], incoming[n];
      MergedRowIds(t, active, convs, front);
      MergeRowIds(t, active, MergeRows(t, active, convs, front), last);
      RowIdsAppend(front, last);
      hide RowIds, RowsDistinct, MergeRow;
      assert incoming == front + [last];
    }
  }
}

/**
 What each writer of the chat store brings about, besides the invariants it keeps: what is shown, what a row says,
 and what stays as it was. The statements name messages, rows and positions, not the functions that compute them.
 */
module ChatEffects {
  import opened Options
  import opened RetentionTable
  import opened ChatModel
  import opened ChatInvariants
  import opened ChatHistory
  import opened ChatRuns

  // ----- filtered lists -----

  /** `r` holds exactly the elements of `s` that pass, in their order; `f` tells where each comes from. */
  ghost predicate Traces<T(!new)>(f: seq<nat>, s: seq<T>, r: seq<T>, p: T -> bool) {
    && |f| == |r|
    && (forall k :: 0 <= k < |f| ==> f[k] < |s| && r[k] == s[f[k]])
    && (forall j, k :: 0 <= j < k < |f| ==> f[j] < f[k])
    && (forall i :: 0 <= i < |s| ==> (p(s[i]) <==> i in f))
  }

  lemma {:induction false} SelectTraces<T(!new)>(s: seq<T>, p: T -> bool) returns (f: seq<nat>)
    ensures Traces(f, s, Select(s, p), p)
  {
    hide Select;
    if s == [] {
      SelectNone(p);
      f := [];
    } else {
      var n := |s| - 1;
      var front, last := s[..n], s[n];
      var g := SelectTraces(front, p);
      assert s == front + [last];
      SelectAppend(front, last, p);
      f := if p(last) then g + [n] else g;
      TracesAppend(g, front, Select(front, p), p, last);
    }
  }

  lemma TracesAppend<T(!new)>(f: seq<nat>, s: seq<T>, r: seq<T>, p: T -> bool, x: T)
    requires Traces(f, s, r, p)
    ensures p(x) ==> Traces(f + [|s|], s + [x], r + [x], p)
    ensures !p(x) ==> Traces(f, s + [x], r, p)
  {
    var f' := if p(x) then f + [|s|] else f;
    forall i | 0 <= i < |s| + 1 ensures p((s + [x])[i]) <==> i in f' {
    }
  }

  ghost predicate Filtered<T(!new)>(s: seq<T>, r: seq<T>, p: T -> bool) { exists f: seq<nat> :: Traces(f, s, r, p) }

  lemma SelectFilters<T(!new)>(s: seq<T>, p: T -> bool)
    ensures Filtered(s, Select(s, p), p)
  {
    var f := SelectTraces(s, p);
  }

  /** What is filtered are exactly the visible messages, in their order. */
  lemma VisibleExactly(t: Table, conv: string, list: seq<Msg>)
    ensures Filtered(list, Visible(t, conv, list), (m: Msg) => !Removed(t, conv, m.seqNo))
  {
    SelectFilters(list, (m: Msg) => !Removed(t, conv, m.seqNo));
  }

  /** A history page shows its messages in order, except pins and what is below the boundary. */
  lemma PageShownExactly(t: Table, conv: string, page: seq<Raw>)
    ensures exists f: seq<nat> ::
              && |f| == |Shown(t, conv, page)|
              && (forall k :: 0 <= k < |f| ==> f[k] < |page| && Shows(Shown(t, conv, page)[k], page[f[k]]))
              && (forall j, k :: 0 <= j < k < |f| ==> f[j] < f[k])
              && (forall i :: 0 <= i < |page| ==> (i in f <==> !page[i].pin && !Removed(t, conv, page[i].seqNo)))
  {
    var f := SelectTraces(page, (r: Raw) => !r.pin && !Removed(t, conv, r.seqNo));
    assert |f| == |Shown(t, conv, page)|;
    assert forall k :: 0 <= k < |f| ==> Shows(Shown(t, conv, page)[k], page[f[k]]);
  }

  /** The bubble says what the message says. */
  predicate Shows(m: Msg, r: Raw) {
    m.id == Sdk(r.id) && m.seqNo == r.seqNo && m.status == r.status && m.at == r.at && m.body == r.body && m.hasRead == r.read
  }

  // ----- rows -----

  /** Exactly one row differs, and it is the first of its conversation. */
  ghost predicate OneRow(convs: seq<Conv>, convs': seq<Conv>, before: Conv, after: Conv) {
    exists i :: 0 <= i < |convs| && convs[i] == before && after.id == before.id
                && (forall k :: 0 <= k < i ==> convs[k].id != before.id) && convs' == convs[i := after]
  }

  lemma PutRowExactly(c: Chat, before: Conv, after: Conv)
    requires FindRow(c, after.id) == Some(before) && before.id == after.id
    ensures PutRow(c, after) == c.(convs := PutRow(c, after).convs)
    ensures OneRow(c.convs, PutRow(c, after).convs, before, after)
  {
    var i := IndexOf(c.convs, after.id);
    assert c.convs[i] == before;
  }

  /** A row whose latest message is gone says nothing; any other keeps its words, and its count loses what is gone. */
  predicate Cleaned(t: Table, v: Conv, v': Conv) {
    if IsRetentionGroup(v.id) && 0 < v.seqNo < MinSeq(t, v.id) then v' == v.(text := "", at := 0, unread := 0)
    else v' == v.(unread := v'.unread)
         && v'.unread == if IsRetentionGroup(v.id) && MinSeq(t, v.id) > 0 && v.seqNo > 0 && v.seqNo - MinSeq(t, v.id) + 1 < v.unread
                         then v.seqNo - MinSeq(t, v.id) + 1 else v.unread
  }

  lemma SanitizedIsCleaned(t: Table, v: Conv)
    ensures Cleaned(t, v, Sanitize(t, v))
  {
  }

  // ----- an incoming message -----

  /** The messages that reach the room: identified, not below the boundary, of a group that was not left, no pin, not
      shown yet; a hidden conversation comes back only for an ordinary message of somebody not blocked. */
  predicate Reaches(t: Table, c: Chat, r: Raw) {
    && r.id != "" && !(IsRetentionGroup(r.conv) && 0 < r.seqNo < MinSeq(t, r.conv))
    && r.conv != "" && r.conv !in c.exited && !r.pin
    && (r.conv in c.hidden ==> !r.notice && r.peer !in c.blocked)
  }

  predicate Appears(t: Table, c: Chat, r: Raw) {
    Reaches(t, c, r) && forall m <- ListOf(c, r.conv) :: m.id != Sdk(r.id)
  }

  lemma RememberChangesRaws(t: Table, c: Chat, r: Raw)
    ensures Remember(t, c, r) == c.(raws := Remember(t, c, r).raws)
    ensures r.id != "" && !Removed(t, r.conv, r.seqNo) && (r.conv == c.active || |ListOf(c, r.conv)| <= 300) ==>
              Remember(t, c, r).raws == c.raws[r.id := r]
  {
  }

  /** The room after a push of `m`: at most two hundred messages unless it is open. */
  function ShownWith(before: seq<Msg>, m: Msg, open: bool): seq<Msg> {
    if open || |before| < 200 then before + [m] else before[|before| - 199..] + [m]
  }

  /** The message stands at the end of its room, and no other room changes. */
  ghost predicate RoomFollows(c: Chat, c': Chat, r: Raw) {
    && ListOf(c', r.conv) == ShownWith(ListOf(c, r.conv), Msg(Sdk(r.id), r.seqNo, r.status, r.at, r.body, r.read),
                                       r.conv == c.active)
    && c'.lists == c.lists[r.conv := ListOf(c', r.conv)]
  }

  /** The row of its conversation, if there is one, says its words, time, number and id, and counts it as unread
      unless it is read at once, own or a notice. */
  ghost predicate RowFollows(c: Chat, c': Chat, r: Raw) {
    match FindRow(c, r.conv)
    case None => c'.convs == c.convs
    case Some(v) =>
      OneRow(c.convs, c'.convs, v,
             v.(text := r.body, at := r.at, seqNo := r.seqNo, lastId := Some(Sdk(r.id)),
                unread := if (c.active != "" && r.conv == c.active) || r.mine then 0
                          else if r.notice then v.unread else v.unread + 1))
  }

  lemma CutRoom(c: Chat, r: Raw)
    requires forall m <- ListOf(c, r.conv) :: m.id != Sdk(r.id)
    ensures var c1 := Push(c, r.conv, ToMsg(r));
            var c' := if r.conv != c.active then TrimWindow(c1, r.conv) else c1;
            && RoomFollows(c, c', r)
            && (r.id in c.raws ==> r.id in c'.raws && c'.raws[r.id] == c.raws[r.id])
            && c' == c.(lists := c'.lists, raws := c'.raws, ended := c'.ended)
  {
    var list, m := ListOf(c, r.conv), ToMsg(r);
    if r.conv != c.active && |list| >= 200 {
      var all := list + [m];
      assert all[|all| - 200..] == list[|list| - 199..] + [m];
      assert all[..|all| - 200] == list[..|list| - 199];
      assert forall x <- list[..|list| - 199] :: x in list;
    }
  }

  lemma PreviewMovesRow(c: Chat, r: Raw)
    ensures RowFollows(c, Preview(c, r), r) && Preview(c, r) == c.(convs := Preview(c, r).convs)
  {
    if FindRow(c, r.conv).Some? {
      var v := FindRow(c, r.conv).value;
      RowHasId(c, r.conv);
      var viewing := c.active != "" && r.conv == c.active;
      PutRowExactly(c, v, v.(text := r.body, at := r.at, seqNo := r.seqNo, lastId := Some(Sdk(r.id)),
                             unread := if viewing || r.mine then 0 else v.unread + (if r.notice then 0 else 1)));
      hide PutRow, OneRow;
    }
  }

  lemma SameRowFollows(c: Chat, d: Chat, c': Chat, r: Raw)
    requires d.convs == c.convs && d.active == c.active && RowFollows(d, c', r)
    ensures RowFollows(c, c', r)
  {
  }

  lemma ShownInRoom(c: Chat, r: Raw)
    requires forall m <- ListOf(c, r.conv) :: m.id != Sdk(r.id)
    ensures var c' := AppendToList(c, r);
            && RoomFollows(c, c', r) && RowFollows(c, c', r)
            && (r.id in c.raws ==> r.id in c'.raws && c'.raws[r.id] == c.raws[r.id])
            && c' == c.(convs := c'.convs, lists := c'.lists, raws := c'.raws, ended := c'.ended)
  {
    CutRoom(c, r);
    var c1 := Push(c, r.conv, ToMsg(r));
    var c2 := if r.conv != c.active then TrimWindow(c1, r.conv) else c1;
    PreviewMovesRow(c2, r);
    hide Push, TrimWindow, Preview, RowFollows;
    SameRowFollows(c, c2, Preview(c2, r), r);
  }

  lemma RowHasId(c: Chat, conv: string)
    requires FindRow(c, conv).Some?
    ensures FindRow(c, conv).value.id == conv && FindRow(c, conv).value in c.convs
  {
  }

  lemma AlreadyThere(c: Chat, r: Raw)
    requires exists m <- ListOf(c, r.conv) :: m.id == Sdk(r.id)
    ensures AppendToList(c, r) == c
  {
  }

  /** A hidden conversation is unhidden unless its other side is blocked. */
  lemma UnhideChangesHidden(c: Chat, conv: string)
    ensures Unhide(c, conv) == c.(hidden := Unhide(c, conv).hidden)
    ensures conv in Unhide(c, conv).hidden <==> conv in c.hidden && (conv == "" || OtherSide(c, conv) in c.blocked)
    ensures forall id :: id != conv ==> (id in Unhide(c, conv).hidden <==> id in c.hidden)
  {
  }

  /** The other side of a private conversation, from its row or else from what is known about its id. */
  function OtherSide(c: Chat, conv: string): string {
    if FindRow(c, conv).Some? && FindRow(c, conv).value.peer != "" then FindRow(c, conv).value.peer
    else if conv in c.peers then c.peers[conv] else ""
  }

  /** The store in which the room of a message is found: the raw message stored, the conversation unhidden. */
  function Reached(t: Table, c: Chat, r: Raw): Chat {
    var c1 := Remember(t, c, r);
    if r.conv in c.hidden then Unhide(c1, r.conv) else c1
  }

  lemma AppendCases(t: Table, c: Chat, r: Raw)
    ensures Append(t, c, r) ==
            if r.id == "" || Removed(t, r.conv, r.seqNo) || (r.conv != "" && r.conv in c.exited) then c
            else if Reaches(t, c, r) then AppendToList(Reached(t, c, r), r) else Remember(t, c, r)
  {
    RememberChangesRaws(t, c, r);
    hide AppendToList, Unhide, Remember;
  }

  lemma ReachedChanges(t: Table, c: Chat, r: Raw)
    ensures var d := Reached(t, c, r);
            && d == c.(raws := d.raws, hidden := d.hidden)
            && (r.conv in d.hidden <==> r.conv in c.hidden && (r.conv == "" || OtherSide(c, r.conv) in c.blocked))
            && (forall id :: id != r.conv ==> (id in d.hidden <==> id in c.hidden))
            && d.raws == Remember(t, c, r).raws
  {
    RememberChangesRaws(t, c, r);
    UnhideChangesHidden(Remember(t, c, r), r.conv);
    hide Remember, Unhide;
    assert OtherSide(Remember(t, c, r), r.conv) == OtherSide(c, r.conv);
  }

  /** Main result: an incoming message is shown, at the end of its room and nowhere else, exactly when it reaches the
      room and is not there yet; and exactly then the row of its conversation follows. The raw message is kept. */
  lemma IncomingIsShown(t: Table, c: Chat, r: Raw)
    ensures var c' := DirectStep(t, c, Incoming(r));
            && (Appears(t, c, r) ==> RoomFollows(c, c', r) && RowFollows(c, c', r))
            && (!Appears(t, c, r) ==> c'.lists == c.lists && c'.convs == c.convs)
            && (Appears(t, c, r) && (r.conv == c.active || |ListOf(c, r.conv)| <= 300) ==>
                  r.id in c'.raws && c'.raws[r.id] == r)
  {
    AppendCases(t, c, r);
    ReachedChanges(t, c, r);
    RememberChangesRaws(t, c, r);
    hide Append, AppendToList, Reached, Remember, RowFollows;
    var d := Reached(t, c, r);
    if Appears(t, c, r) {
      ShownInRoom(d, r);
      SameRowFollows(c, d, Append(t, c, r), r);
    } else if Reaches(t, c, r) {
      AlreadyThere(d, r);
    }
  }

  /** A hidden conversation comes back exactly when such a message reaches it and its other side is not blocked. */
  lemma IncomingUnhides(t: Table, c: Chat, r: Raw)
    ensures var c' := DirectStep(t, c, Incoming(r));
            && (r.conv in c'.hidden <==> r.conv in c.hidden && (!Reaches(t, c, r) || OtherSide(c, r.conv) in c.blocked))
            && (forall id :: id != r.conv ==> (id in c'.hidden <==> id in c.hidden))
            && c'.exited == c.exited && c'.blocked == c.blocked && c'.active == c.active
  {
    AppendCases(t, c, r);
    ReachedChanges(t, c, r);
    RememberChangesRaws(t, c, r);
    hide Append, AppendToList, Reached, Remember;
    var d := Reached(t, c, r);
    if Appears(t, c, r) { ShownInRoom(d, r); } else if Reaches(t, c, r) { AlreadyThere(d, r); }
  }
}

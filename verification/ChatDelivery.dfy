/**
 A send from its placeholder to its numbered message, step by step and as a whole: what the room and the row show
 after each answer.
 */
module ChatDelivery {
  import opened Options
  import opened RetentionTable
  import opened ChatModel
  import opened ChatInvariants
  import opened ChatRuns
  import opened ChatEffects
  import opened ChatActionEffects

  // ----- replacing in place -----

  lemma {:induction false} SwapAbsent(list: seq<Msg>, temp: MsgId, m: Msg)
    requires !HasId(list, temp) && !HasId(list, m.id)
    ensures Swap(list, temp, m) == list
  {
    if list != [] {
      var front, last := list[..|list| - 1], list[|list| - 1];
      assert list == front + [last];
      SwapAbsent(front, temp, m);
    }
  }

  lemma {:induction false} SwapInPlace(list: seq<Msg>, temp: MsgId, m: Msg, i: nat)
    requires DistinctIds(list) && i < |list| && list[i].id == temp
    requires m.id == temp || !HasId(list, m.id)
    ensures Swap(list, temp, m) == list[i := m]
  {
    var n := |list| - 1;
    var front, last := list[..n], list[n];
    assert list == front + [last];
    if i == n {
      forall x | x in front ensures x.id != temp {
        var k :| 0 <= k < n && front[k] == x;
        assert list[k].id != list[n].id;
      }
      SwapAbsent(front, temp, m);
    } else {
      SwapInPlace(front, temp, m, i);
      assert front[i := m] + [last] == list[i := m];
      assert last.id != temp && last.id != m.id;
    }
  }

  /** With the placeholder in the room, the new version takes its place. */
  lemma ReplacesInPlace(t: Table, c: Chat, conv: string, temp: MsgId, m: Msg, i: nat)
    requires var list := ListOf(c, conv);
             && DistinctIds(list) && Clean(t, conv, list) && i < |list| && list[i].id == temp
             && (m.id == temp || !HasId(list, m.id))
    requires !Removed(t, conv, m.seqNo)
    ensures Replace(t, c, conv, temp, m) == c.(lists := c.lists[conv := ListOf(c, conv)[i := m]])
  {
    var list := ListOf(c, conv);
    SwapInPlace(list, temp, m, i);
    assert list[i] in list && HasId(list, temp);
    SelectAll(list[i := m], (x: Msg) => !Removed(t, conv, x.seqNo));
  }

  /** If a reload dropped the placeholder, the message is appended. */
  lemma ReplacementIsAppended(t: Table, c: Chat, conv: string, temp: MsgId, m: Msg)
    requires var list := ListOf(c, conv); Clean(t, conv, list) && !HasId(list, temp) && !HasId(list, m.id)
    requires !Removed(t, conv, m.seqNo)
    ensures Replace(t, c, conv, temp, m) == c.(lists := c.lists[conv := ListOf(c, conv) + [m]])
  {
    var list := ListOf(c, conv);
    SwapAbsent(list, temp, m);
    SelectAll(list + [m], (x: Msg) => !Removed(t, conv, x.seqNo));
  }

  // ----- the steps -----

  lemma DeliveringResumes(s: System, k: nat, r: Raw)
    requires k in s.conts && s.conts[k].Delivering? && s.conts[k].session == s.chat.session
    requires FindRow(s.chat, s.conts[k].conv).Some? && s.conts[k].conv !in s.chat.exited
    ensures var d := s.conts[k];
            Step(s, Resume(k, Returned(r))) ==
            s.(chat := SendReturned(TableOf(s), s.chat, d.conv, d.placeholder, r),
               conts := (s.conts - {k})[s.nextCont := Acking(d.conv, d.placeholder, ToMsg(r), d.session,
                                                             FindRow(s.chat, d.conv).value.isGroup)],
               nextCont := s.nextCont + 1)
  {
    hide ClientStep, DirectStep, Begun, Loaded, LoadedMore, Located, SendReturned, SendFailed, Acknowledged, Numbered,
         Previewed, FindRow;
  }

  lemma AckingResumes(s: System, k: nat)
    requires k in s.conts && s.conts[k].Acking? && s.conts[k].session == s.chat.session
    requires FindRow(s.chat, s.conts[k].conv).Some?
    ensures var a, s' := s.conts[k], Step(s, Resume(k, Resumed));
            && s'.chat == Acknowledged(TableOf(s), s.chat, a.conv, a.placeholder, a.delivered) && s'.world == s.world
            && s'.conts == (if a.isGroup && a.delivered.seqNo == 0
                            then (s.conts - {k})[s.nextCont := Numbering(a.conv, a.delivered, a.session)] else s.conts - {k})
  {
    hide ClientStep, DirectStep, Begun, Loaded, LoadedMore, Located, SendReturned, SendFailed, Acknowledged, Numbered,
         Previewed, FindRow;
  }

  lemma PreviewingResumes(s: System, k: nat, body: string)
    requires k in s.conts && s.conts[k].Previewing? && FindRow(s.chat, s.conts[k].conv).Some?
    ensures var d, s' := s.conts[k], Step(s, Resume(k, PreviewReady(body)));
            && s'.chat == Previewed(TableOf(s), s.chat, d.conv, d.placeholder, body)
            && s'.conts == (s.conts - {k})[s.nextCont := Delivering(d.conv, d.placeholder.(body := body), s.chat.session)]
  {
    hide ClientStep, DirectStep, Begun, Loaded, LoadedMore, Located, SendReturned, SendFailed, Acknowledged, Numbered,
         Previewed, FindRow;
  }

  lemma NumberingResumes(s: System, k: nat, n: nat, found: Option<Raw>)
    requires k in s.conts && s.conts[k].Numbering? && s.conts[k].session == s.chat.session
    ensures Step(s, Resume(k, SeqKnown(n, found))) ==
            s.(chat := Numbered(TableOf(s), s.chat, s.conts[k].conv, s.conts[k].delivered, n, found), conts := s.conts - {k})
  {
    hide ClientStep, DirectStep, Begun, Loaded, LoadedMore, Located, SendReturned, SendFailed, Acknowledged, Numbered,
         Previewed;
  }

  lemma RefusalResumes(s: System, k: nat, gone: bool)
    requires k in s.conts && s.conts[k].Delivering? && s.conts[k].session == s.chat.session
    ensures Step(s, Resume(k, Refused(gone))) ==
            s.(chat := SendFailed(TableOf(s), s.chat, s.conts[k].conv, s.conts[k].placeholder, gone), conts := s.conts - {k})
  {
    hide ClientStep, DirectStep, Begun, Loaded, LoadedMore, Located, SendReturned, SendFailed, Acknowledged, Numbered,
         Previewed;
  }

  /** A send to a listed conversation shows its placeholder at the end of the room and awaits the SDK. */
  lemma SendStarts(s: System, conv: string, body: string, at: int)
    ensures var s' := Step(s, Start(StartSend(conv, body, at)));
            var placeholder := Msg(Local(s.chat.localCount + 1), 0, Sending, at, body, false);
            if FindRow(s.chat, conv).None? then s' == s
            else && s'.chat == s.chat.(lists := s.chat.lists[conv := ListOf(s.chat, conv) + [placeholder]],
                                       localCount := s.chat.localCount + 1)
                 && s'.conts == s.conts[s.nextCont := Delivering(conv, placeholder, s.chat.session)]
                 && s'.nextCont == s.nextCont + 1 && s'.world == s.world
  {
    hide ClientStep, DirectStep, ChatAfter, Next;
  }

  /** An image shows the same placeholder, with its path, and awaits its preview. */
  lemma ImageStarts(s: System, conv: string, path: string, at: int)
    requires FindRow(s.chat, conv).Some?
    ensures var s' := Step(s, Start(StartImage(conv, path, at)));
            var placeholder := Msg(Local(s.chat.localCount + 1), 0, Sending, at, path, false);
            && s'.chat == s.chat.(lists := s.chat.lists[conv := ListOf(s.chat, conv) + [placeholder]],
                                  localCount := s.chat.localCount + 1)
            && s'.conts == s.conts[s.nextCont := Previewing(conv, placeholder)]
  {
    hide ClientStep, DirectStep, ChatAfter, Next;
  }

  ghost predicate InRoom(t: Table, c: Chat, conv: string, id: MsgId, i: nat) {
    DistinctIds(ListOf(c, conv)) && Clean(t, conv, ListOf(c, conv)) && i < |ListOf(c, conv)| && ListOf(c, conv)[i].id == id
  }

  /** The preview of an image takes the place of its path, and the send goes on with it. */
  lemma PreviewIsShown(s: System, k: nat, i: nat, body: string)
    requires k in s.conts && s.conts[k].Previewing? && s.conts[k].placeholder.seqNo == 0
    requires InRoom(TableOf(s), s.chat, s.conts[k].conv, s.conts[k].placeholder.id, i)
    requires ListOf(s.chat, s.conts[k].conv)[i] == s.conts[k].placeholder && FindRow(s.chat, s.conts[k].conv).Some?
    ensures var s' := Step(s, Resume(k, PreviewReady(body)));
            var conv, p := s.conts[k].conv, s.conts[k].placeholder.(body := body);
            && s'.chat == s.chat.(lists := s.chat.lists[conv := ListOf(s.chat, conv)[i := p]])
            && s'.conts == (s.conts - {k})[s.nextCont := Delivering(conv, p, s.chat.session)]
  {
    var conv, p := s.conts[k].conv, s.conts[k].placeholder;
    PreviewingResumes(s, k, body);
    ReplacesInPlace(TableOf(s), s.chat, conv, p.id, p.(body := body), i);
    hide Step, Replace, Clean, DistinctIds, FindRow;
    assert ListOf(s.chat, conv)[i := p] == ListOf(s.chat, conv);
    assert conv in s.chat.lists && s.chat.lists[conv := s.chat.lists[conv]] == s.chat.lists;
  }

  /** What the SDK may return for a send: a new visible message of this conversation. */
  ghost predicate FreshRaw(t: Table, c: Chat, conv: string, r: Raw) {
    r.conv == conv && r.id != "" && !Removed(t, conv, r.seqNo) && !HasId(ListOf(c, conv), Sdk(r.id))
  }

  lemma ReturnedShows(t: Table, c: Chat, conv: string, p: Msg, r: Raw, i: nat)
    requires InRoom(t, c, conv, p.id, i) && FreshRaw(t, c, conv, r) && conv !in c.exited && FindRow(c, conv).Some?
    ensures var c' := SendReturned(t, c, conv, p, r);
            && c'.lists == c.lists[conv := ListOf(c, conv)[i := Msg(Sdk(r.id), r.seqNo, r.status, r.at, r.body, r.read)]]
            && c' == c.(lists := c'.lists, raws := c'.raws, hidden := c'.hidden)
            && (conv in c'.hidden <==> conv in c.hidden && (conv == "" || OtherSide(c, conv) in c.blocked))
            && (conv == c.active || |ListOf(c, conv)| <= 300 ==> c'.raws == c.raws[r.id := r])
  {
    RememberChangesRaws(t, c, r);
    var c1 := Remember(t, c, r);
    ReplacesInPlace(t, c1, conv, p.id, ToMsg(r), i);
    hide Remember, Replace, Unhide, Clean, DistinctIds;
    var c2 := Replace(t, c1, conv, p.id, ToMsg(r));
    UnhideChangesHidden(c2, conv);
    assert OtherSide(c2, conv) == OtherSide(c, conv);
  }

  /** The message returned by the SDK takes the place of the placeholder, its raw form is kept, and a hidden
      conversation comes back; the preview of its row is next. */
  lemma SendArrives(s: System, k: nat, i: nat, r: Raw)
    requires k in s.conts && s.conts[k].Delivering? && s.conts[k].session == s.chat.session
    requires InRoom(TableOf(s), s.chat, s.conts[k].conv, s.conts[k].placeholder.id, i)
    requires FreshRaw(TableOf(s), s.chat, s.conts[k].conv, r) && s.conts[k].conv !in s.chat.exited
    requires FindRow(s.chat, s.conts[k].conv).Some?
    ensures var s' := Step(s, Resume(k, Returned(r)));
            var conv := s.conts[k].conv;
            var m := Msg(Sdk(r.id), r.seqNo, r.status, r.at, r.body, r.read);
            && s'.chat.lists == s.chat.lists[conv := ListOf(s.chat, conv)[i := m]]
            && s'.chat == s.chat.(lists := s'.chat.lists, raws := s'.chat.raws, hidden := s'.chat.hidden)
            && (conv == s.chat.active || |ListOf(s.chat, conv)| <= 300 ==> s'.chat.raws == s.chat.raws[r.id := r])
            && s'.conts == (s.conts - {k})[s.nextCont := Acking(conv, s.conts[k].placeholder, m, s.chat.session,
                                                                FindRow(s.chat, conv).value.isGroup)]
            && s'.nextCont == s.nextCont + 1 && s'.world == s.world
  {
    ReturnedShows(TableOf(s), s.chat, s.conts[k].conv, s.conts[k].placeholder, r, i);
    DeliveringResumes(s, k, r);
    hide Step, SendReturned, InRoom, FreshRaw, FindRow;
  }

  /** Is the row already about a later message? */
  predicate AboutLater(v: Conv, m: Msg) {
    v.text != "" && ((v.seqNo > 0 && m.seqNo > 0 && v.seqNo > m.seqNo) || v.at > m.at)
  }

  /** The row then says what was sent, unless it is about a later message. A group message without a number waits for
      one. */
  lemma SentMovesRow(s: System, k: nat)
    requires k in s.conts && s.conts[k].Acking? && s.conts[k].session == s.chat.session
    requires FindRow(s.chat, s.conts[k].conv).Some?
    ensures var s', a := Step(s, Resume(k, Resumed)), s.conts[k];
            var v := FindRow(s.chat, a.conv).value;
            && s'.chat == s.chat.(convs := s'.chat.convs) && s'.world == s.world
            && (AboutLater(v, a.delivered) ==> s'.chat.convs == s.chat.convs)
            && (!AboutLater(v, a.delivered) ==>
                  exists v' :: OneRow(s.chat.convs, s'.chat.convs, v, v')
                               && Cleaned(TableOf(s), v.(text := a.delivered.body, at := a.delivered.at, seqNo := a.delivered.seqNo,
                                                         lastId := Some(a.delivered.id)), v'))
            && s'.conts == (if a.isGroup && a.delivered.seqNo == 0
                            then (s.conts - {k})[s.nextCont := Numbering(a.conv, a.delivered, a.session)] else s.conts - {k})
  {
    var a := s.conts[k];
    var v := FindRow(s.chat, a.conv).value;
    RowHasId(s.chat, a.conv);
    var v' := AckedRow(TableOf(s), v, a.delivered);
    SanitizedIsCleaned(TableOf(s), v.(text := a.delivered.body, at := a.delivered.at, seqNo := a.delivered.seqNo,
                                      lastId := Some(a.delivered.id)));
    PutRowExactly(s.chat, v, v');
    AckingResumes(s, k);
    hide Step, PutRow, OneRow, Cleaned, Sanitize;
  }

  /** A send that is refused stays in its place, marked as failed. */
  lemma RefusalMarksFailed(t: Table, c: Chat, conv: string, p: Msg, i: nat)
    requires InRoom(t, c, conv, p.id, i) && p.seqNo == 0
    ensures SendFailed(t, c, conv, p, false) == c.(lists := c.lists[conv := ListOf(c, conv)[i := p.(status := Failed)]])
    ensures conv != "" ==> conv in SendFailed(t, c, conv, p, true).exited && ListOf(SendFailed(t, c, conv, p, true), conv) == []
  {
    ReplacesInPlace(t, c, conv, p.id, p.(status := Failed), i);
    hide Replace;
  }

  // ----- the late number -----

  /** A number that arrives late is put on the message, its raw form and its preview. */
  lemma LateNumberIsShown(t: Table, c: Chat, conv: string, m: Msg, n: nat, i: nat, found: Option<Raw>)
    requires InRoom(t, c, conv, m.id, i) && n > 0 && !Removed(t, conv, n) && m.id.Sdk? && m.id.id != ""
    requires found.Some? ==> found.value.id == m.id.id && found.value.conv == conv
    requires m.id.id in c.raws ==> c.raws[m.id.id].id == m.id.id && c.raws[m.id.id].conv == conv
    ensures var c' := Numbered(t, c, conv, m, n, found);
            && c'.lists == c.lists[conv := ListOf(c, conv)[i := m.(seqNo := n)]]
            && (conv == c.active || |ListOf(c, conv)| <= 300 ==>
                  && (found.Some? ==> c'.raws == c.raws[m.id.id := found.value.(seqNo := n)])
                  && (found.None? && m.id.id in c.raws ==> c'.raws == c.raws[m.id.id := c.raws[m.id.id].(seqNo := n)])
                  && (found.None? && m.id.id !in c.raws ==> c'.raws == c.raws))
            && RowNumbered(t, c, c', conv, m.id, n)
  {
    assert ListOf(c, conv)[i] in ListOf(c, conv);
    var c1 := NumberedRaws(t, c, conv, m, n, found);
    NumberedRawsChange(t, c, conv, m, n, found);
    ReplacesInPlace(t, c1, conv, m.id, m.(seqNo := n), i);
    var c2 := Replace(t, c1, conv, m.id, m.(seqNo := n));
    hide Replace, NumberedRaws, Clean, DistinctIds;
    assert Numbered(t, c, conv, m, n, found) == NumberedRow(t, c2, conv, m, n);
    hide Numbered;
    NumberedRowExactly(t, c2, conv, m, n);
    hide NumberedRow;
    SameRowNumbered(t, c, c2, NumberedRow(t, c2, conv, m, n), conv, m.id, n);
  }

  /** The row carries the number if its last message is this one. */
  ghost predicate RowNumbered(t: Table, c: Chat, c': Chat, conv: string, id: MsgId, n: nat) {
    match FindRow(c, conv)
    case None => c'.convs == c.convs
    case Some(v) =>
      if v.lastId != Some(id) then c'.convs == c.convs
      else exists v' :: OneRow(c.convs, c'.convs, v, v') && Cleaned(t, v.(seqNo := n), v')
  }

  lemma SameRowNumbered(t: Table, c: Chat, d: Chat, c': Chat, conv: string, id: MsgId, n: nat)
    requires d.convs == c.convs && RowNumbered(t, d, c', conv, id, n)
    ensures RowNumbered(t, c, c', conv, id, n)
  {
  }

  lemma NumberedRowExactly(t: Table, c: Chat, conv: string, m: Msg, n: nat)
    ensures var c' := NumberedRow(t, c, conv, m, n); RowNumbered(t, c, c', conv, m.id, n) && c' == c.(convs := c'.convs)
  {
    if FindRow(c, conv).Some? {
      var v := FindRow(c, conv).value;
      RowHasId(c, conv);
      SanitizedIsCleaned(t, v.(seqNo := n));
      PutRowExactly(c, v, Sanitize(t, v.(seqNo := n)));
      hide PutRow, OneRow, Cleaned, Sanitize;
    }
  }

  lemma NumberedRawsChange(t: Table, c: Chat, conv: string, m: Msg, n: nat, found: Option<Raw>)
    requires !Removed(t, conv, n) && m.id.Sdk? && m.id.id != ""
    requires found.Some? ==> found.value.id == m.id.id && found.value.conv == conv
    requires m.id.id in c.raws ==> c.raws[m.id.id].id == m.id.id && c.raws[m.id.id].conv == conv
    ensures var c' := NumberedRaws(t, c, conv, m, n, found);
            && c' == c.(raws := c'.raws)
            && (conv == c.active || |ListOf(c, conv)| <= 300 ==>
                  && (found.Some? ==> c'.raws == c.raws[m.id.id := found.value.(seqNo := n)])
                  && (found.None? && m.id.id in c.raws ==> c'.raws == c.raws[m.id.id := c.raws[m.id.id].(seqNo := n)])
                  && (found.None? && m.id.id !in c.raws ==> c'.raws == c.raws))
  {
    if found.Some? { RememberChangesRaws(t, c, found.value.(seqNo := n)); }
    else if m.id.id in c.raws { RememberChangesRaws(t, c, c.raws[m.id.id].(seqNo := n)); }
    hide Remember;
  }

  /** A number below the boundary takes the message away again, with its raw form. */
  lemma LateNumberMayRemove(t: Table, c: Chat, conv: string, m: Msg, n: nat, found: Option<Raw>)
    requires HasId(ListOf(c, conv), m.id) && n > 0 && Removed(t, conv, n)
    ensures var c' := Numbered(t, c, conv, m, n, found);
            (m.id.Sdk? ==> m.id.id !in c'.raws) && !HasId(ListOf(c', conv), m.id)
  {
    var c1 := NumberedRaws(t, c, conv, m, n, found);
    var c2 := Replace(t, c1, conv, m.id, m.(seqNo := n));
    assert c2.raws == c1.raws;
    SwappedIsOnly(ListOf(c1, conv), m.id, m.(seqNo := n));
    NumberedRowExactly(t, c2, conv, m, n);
    assert ListOf(c2, conv) == Visible(t, conv, Swap(ListOf(c1, conv), m.id, m.(seqNo := n)));
    hide NumberedRow, Swap, Visible;
    forall x | x in ListOf(c2, conv) ensures x.id != m.id { VisibleIn(t, conv, Swap(ListOf(c1, conv), m.id, m.(seqNo := n)), x); }
  }

  lemma VisibleIn(t: Table, conv: string, list: seq<Msg>, x: Msg)
    requires x in Visible(t, conv, list)
    ensures x in list && !Removed(t, conv, x.seqNo)
  {
  }

  lemma {:induction false} SwappedIsOnly(list: seq<Msg>, temp: MsgId, m: Msg)
    requires m.id == temp
    ensures forall x <- Swap(list, temp, m) :: x.id == temp ==> x == m
  {
    if list != [] { SwappedIsOnly(list[..|list| - 1], temp, m); }
  }

  // ----- the whole send -----

  lemma PlaceholderIsLast(t: Table, c: Chat, conv: string, body: string, at: int)
    requires Tidy(ListOf(c, conv), c.localCount) && Clean(t, conv, ListOf(c, conv))
    ensures var c' := Placed(c, conv, body, at);
            InRoom(t, c', conv, Local(c.localCount + 1), |ListOf(c, conv)|)
  {
    var list := ListOf(c, conv);
    var all := list + [Placeholder(c, body, at)];
    forall i, j | 0 <= i < j < |all| ensures all[i].id != all[j].id {
      if j == |list| { assert list[i] in list; }
    }
  }

  /** A conversation to which a message can be sent, and what the SDK returns for it. */
  ghost predicate CanSend(s: System, conv: string, r: Raw) {
    && FindRow(s.chat, conv).Some? && conv !in s.chat.exited
    && Tidy(ListOf(s.chat, conv), s.chat.localCount) && Clean(TableOf(s), conv, ListOf(s.chat, conv))
    && FreshRaw(TableOf(s), s.chat, conv, r) && s.nextCont !in s.conts && s.nextCont + 1 !in s.conts
  }

  lemma StartedState(s: System, s1: System, conv: string, body: string, at: int, r: Raw)
    requires CanSend(s, conv, r) && s1 == Step(s, Start(StartSend(conv, body, at)))
    ensures s.nextCont in s1.conts && s1.conts[s.nextCont].Delivering? && s1.conts[s.nextCont].conv == conv
    ensures s1.conts[s.nextCont].session == s1.chat.session && s1.nextCont == s.nextCont + 1
    ensures s1.chat.convs == s.chat.convs && s1.chat.exited == s.chat.exited && s1.chat.session == s.chat.session
    ensures TableOf(s1) == TableOf(s) && FreshRaw(TableOf(s1), s1.chat, conv, r)
    ensures InRoom(TableOf(s1), s1.chat, conv, s1.conts[s.nextCont].placeholder.id, |ListOf(s.chat, conv)|)
    ensures s1.conts - {s.nextCont} == s.conts
    ensures forall m :: s1.chat.lists[conv := ListOf(s1.chat, conv)[|ListOf(s.chat, conv)| := m]]
                        == s.chat.lists[conv := ListOf(s.chat, conv) + [m]]
  {
    SendStarts(s, conv, body, at);
    StartedIsReady(TableOf(s), s.chat, conv, body, at, r);
    hide Step, Clean, Tidy, FreshRaw, InRoom, FindRow, ListOf;
  }

  /** Main result: a send to a listed conversation that is not interrupted ends with the sent message at the end of the
      room, where the placeholder stood, and nothing else changed in any room; what it awaits is gone unless it is a
      group message that still lacks its number. */
  lemma SendCompletes(s: System, s1: System, s2: System, s3: System, conv: string, body: string, at: int, r: Raw)
    requires CanSend(s, conv, r)
    requires s1 == Step(s, Start(StartSend(conv, body, at)))
    requires s2 == Step(s1, Resume(s.nextCont, Returned(r))) && s3 == Step(s2, Resume(s.nextCont + 1, Resumed))
    ensures s3.chat.lists == s.chat.lists[conv := ListOf(s.chat, conv) + [Msg(Sdk(r.id), r.seqNo, r.status, r.at, r.body, r.read)]]
    ensures !FindRow(s.chat, conv).value.isGroup || r.seqNo > 0 ==> s3.conts == s.conts
  {
    StartedState(s, s1, conv, body, at, r);
    SameRow(s.chat, s1.chat, conv);
    hide Step, Clean, Tidy, FreshRaw, InRoom, FindRow, ListOf, OneRow, Cleaned;
    SendArrives(s1, s.nextCont, |ListOf(s.chat, conv)|, r);
    SameRow(s1.chat, s2.chat, conv);
    SentMovesRow(s2, s.nextCont + 1);
    DroppedAgain(s.conts, s.nextCont + 1, s2.conts[s.nextCont + 1]);
  }

  lemma StartedIsReady(t: Table, c: Chat, conv: string, body: string, at: int, r: Raw)
    requires Tidy(ListOf(c, conv), c.localCount) && Clean(t, conv, ListOf(c, conv)) && FreshRaw(t, c, conv, r)
    ensures var p := Msg(Local(c.localCount + 1), 0, Sending, at, body, false);
            var c' := c.(lists := c.lists[conv := ListOf(c, conv) + [p]], localCount := c.localCount + 1);
            && InRoom(t, c', conv, p.id, |ListOf(c, conv)|) && FreshRaw(t, c', conv, r)
            && forall m :: c'.lists[conv := ListOf(c', conv)[|ListOf(c, conv)| := m]] == c.lists[conv := ListOf(c, conv) + [m]]
  {
    PlaceholderIsLast(t, c, conv, body, at);
    var list, p := ListOf(c, conv), Msg(Local(c.localCount + 1), 0, Sending, at, body, false);
    forall m ensures (list + [p])[|list| := m] == list + [m] { }
  }

  lemma SameRow(c: Chat, d: Chat, conv: string)
    requires c.convs == d.convs
    ensures FindRow(c, conv) == FindRow(d, conv)
  {
  }

  lemma DroppedAgain(conts: map<nat, Cont>, n: nat, k: Cont)
    requires n !in conts
    ensures conts[n := k] - {n} == conts
  {
  }
}

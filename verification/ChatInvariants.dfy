/**
 What every writer of the chat store keeps: nothing below a tombstone in any of the three caches,
 no message twice in a list, and no exited group among the conversations.
 */
module ChatInvariants {
  import opened RetentionTable
  import opened ChatModel

  // ----- the three properties -----

  ghost predicate Clean(t: Table, conv: string, list: seq<Msg>) {
    forall m :: m in list ==> !Removed(t, conv, m.seqNo)
  }

  ghost predicate ListsAgree(t: Table, lists: map<string, seq<Msg>>) {
    forall conv :: conv in lists ==> Clean(t, conv, lists[conv])
  }

  ghost predicate RawsAgree(t: Table, raws: map<string, Raw>) {
    forall k :: k in raws ==> !Removed(t, raws[k].conv, raws[k].seqNo)
  }

  predicate RowAgrees(t: Table, v: Conv) {
    Removed(t, v.id, v.seqNo) ==> v.text == "" && v.unread == 0
  }

  ghost predicate RowsAgree(t: Table, convs: seq<Conv>) {
    forall v :: v in convs ==> RowAgrees(t, v)
  }

  /** Tombstone agreement of the whole store. */
  ghost predicate Agree(t: Table, c: Chat) {
    ListsAgree(t, c.lists) && RawsAgree(t, c.raws) && RowsAgree(t, c.convs)
  }

  ghost predicate DistinctIds(list: seq<Msg>) {
    forall i, j :: 0 <= i < j < |list| ==> list[i].id != list[j].id
  }

  /** Placeholders carry numbers that have been handed out. */
  ghost predicate Issued(list: seq<Msg>, localCount: nat) {
    forall m :: m in list && m.id.Local? ==> m.id.n <= localCount
  }

  ghost predicate Tidy(list: seq<Msg>, localCount: nat) {
    DistinctIds(list) && Issued(list, localCount)
  }

  ghost predicate AllTidy(c: Chat) {
    forall conv :: conv in c.lists ==> Tidy(c.lists[conv], c.localCount)
  }

  ghost predicate NoExited(c: Chat) {
    forall v :: v in c.convs ==> v.id !in c.exited
  }

  // ----- lists -----

  lemma {:induction false} SelectAll<T(!new)>(s: seq<T>, p: T -> bool)
    requires forall x <- s :: p(x)
    ensures Select(s, p) == s
  {
    hide Select;
    if s == [] {
      SelectNone(p);
    } else {
      var front, last := s[..|s| - 1], s[|s| - 1];
      SelectAll(front, p);
      SelectAppend(front, last, p);
      assert s == front + [last];
    }
  }

  lemma SelectAppend<T>(s: seq<T>, x: T, p: T -> bool)
    ensures Select(s + [x], p) == Select(s, p) + (if p(x) then [x] else [])
  {
    assert (s + [x])[..|s|] == s;
  }

  lemma {:induction false} SelectConcat<T>(a: seq<T>, b: seq<T>, p: T -> bool)
    ensures Select(a + b, p) == Select(a, p) + Select(b, p)
  {
    hide Select;
    if b == [] {
      SelectNone(p);
      assert a + b == a;
    } else {
      var front, last := b[..|b| - 1], b[|b| - 1];
      SelectConcat(a, front, p);
      SelectAppend(a + front, last, p);
      SelectAppend(front, last, p);
      assert a + b == (a + front) + [last] && b == front + [last];
    }
  }

  lemma SelectNone<T>(p: T -> bool)
    ensures Select([], p) == []
  {
  }

  lemma {:induction false} SelectDistinct(list: seq<Msg>, p: Msg -> bool)
    requires DistinctIds(list)
    ensures DistinctIds(Select(list, p))
  {
    if list != [] {
      var front, last := list[..|list| - 1], list[|list| - 1];
      SelectDistinct(front, p);
      SelectAppend(front, last, p);
      hide Select;
      assert list == front + [last];
      forall m | m in Select(front, p) ensures m.id != last.id {
        var k :| 0 <= k < |front| && front[k] == m;
        assert list[k].id != list[|list| - 1].id;
      }
    }
  }

  lemma VisibleTidy(t: Table, conv: string, list: seq<Msg>, n: nat)
    requires Tidy(list, n)
    ensures Tidy(Visible(t, conv, list), n)
    ensures Clean(t, conv, Visible(t, conv, list))
  {
    SelectDistinct(list, (m: Msg) => !Removed(t, conv, m.seqNo));
  }

  lemma VisibleClean(t: Table, conv: string, list: seq<Msg>)
    ensures Clean(t, conv, Visible(t, conv, list))
  {
  }

  lemma SliceTidy(list: seq<Msg>, i: nat, n: nat)
    requires Tidy(list, n) && i <= |list|
    ensures Tidy(list[i..], n)
  {
    assert forall m :: m in list[i..] ==> m in list;
  }

  lemma ConcatTidy(a: seq<Msg>, b: seq<Msg>, n: nat)
    requires Tidy(a, n) && Tidy(b, n)
    requires forall x, y :: x in a && y in b ==> x.id != y.id
    ensures Tidy(a + b, n)
  {
    forall i, j | 0 <= i < j < |a + b|
      ensures (a + b)[i].id != (a + b)[j].id
    {
      if i < |a| <= j {
        assert a[i] in a && b[j - |a|] in b;
      }
    }
  }

  // ----- replaceMessage -----

  function Without(list: seq<Msg>, gone: set<MsgId>): seq<Msg> {
    Select(list, (m: Msg) => m.id !in gone)
  }

  function Count(list: seq<Msg>, id: MsgId): nat {
    if list == [] then 0
    else Count(list[..|list| - 1], id) + (if list[|list| - 1].id == id then 1 else 0)
  }

  lemma {:induction false} CountPositive(list: seq<Msg>, id: MsgId)
    ensures Count(list, id) > 0 <==> HasId(list, id)
  {
    if list != [] {
      var front, last := list[..|list| - 1], list[|list| - 1];
      CountPositive(front, id);
      assert list == front + [last];
    }
  }

  lemma CountAppend(list: seq<Msg>, m: Msg, id: MsgId)
    ensures Count(list + [m], id) == Count(list, id) + (if m.id == id then 1 else 0)
  {
    assert (list + [m])[..|list|] == list;
  }

  lemma WithoutAppend(list: seq<Msg>, m: Msg, gone: set<MsgId>)
    ensures Without(list + [m], gone) == Without(list, gone) + (if m.id in gone then [] else [m])
  {
    assert (list + [m])[..|list|] == list;
  }

  lemma {:induction false} SwapCounts(list: seq<Msg>, temp: MsgId, m: Msg)
    ensures Count(Swap(list, temp, m), m.id) == Count(list, temp)
    ensures temp != m.id ==> Count(Swap(list, temp, m), temp) == 0
    ensures Without(Swap(list, temp, m), {temp, m.id}) == Without(list, {temp, m.id})
  {
    hide Select;
    if list != [] {
      var front, last := list[..|list| - 1], list[|list| - 1];
      var rest := Swap(front, temp, m);
      SwapCounts(front, temp, m);
      assert list == front + [last];
      WithoutAppend(front, last, {temp, m.id});
      if last.id == temp {
        CountAppend(rest, m, m.id);
        CountAppend(rest, m, temp);
        WithoutAppend(rest, m, {temp, m.id});
      } else if last.id != m.id {
        CountAppend(rest, last, m.id);
        CountAppend(rest, last, temp);
        WithoutAppend(rest, last, {temp, m.id});
      }
    }
  }

  /** Replacing leaves the temporary id nowhere and everything else in place and in order; the delivered
      message occurs exactly once, also when a reload dropped the placeholder or a push was faster. The
      one exception is a list that already held the placeholder twice. */
  lemma ReplacedExactly(list: seq<Msg>, temp: MsgId, m: Msg)
    ensures Without(Replaced(list, temp, m), {temp, m.id}) == Without(list, {temp, m.id})
    ensures temp != m.id ==> !HasId(Replaced(list, temp, m), temp)
    ensures Count(Replaced(list, temp, m), m.id) == 1 <==> Count(list, temp) <= 1
    ensures m in Replaced(list, temp, m)
  {
    var swapped := Swap(list, temp, m);
    SwapCounts(list, temp, m);
    CountPositive(list, temp);
    CountPositive(Replaced(list, temp, m), temp);
    if !HasId(list, temp) {
      CountAppend(swapped, m, m.id);
      CountAppend(swapped, m, temp);
      WithoutAppend(swapped, m, {temp, m.id});
    } else {
      SwapHolds(list, temp, m);
    }
  }

  lemma {:induction false} SwapHolds(list: seq<Msg>, temp: MsgId, m: Msg)
    requires HasId(list, temp)
    ensures m in Swap(list, temp, m)
  {
    var front, last := list[..|list| - 1], list[|list| - 1];
    assert list == front + [last];
    if last.id != temp {
      SwapHolds(front, temp, m);
    }
  }

  lemma {:induction false} SwapDistinct(list: seq<Msg>, temp: MsgId, m: Msg)
    requires DistinctIds(list)
    ensures DistinctIds(Swap(list, temp, m))
    ensures forall x :: x in Swap(list, temp, m) ==> (x in list && x.id != temp && x.id != m.id) || (x == m && HasId(list, temp))
  {
    if list != [] {
      var front, last := list[..|list| - 1], list[|list| - 1];
      assert list == front + [last];
      SwapDistinct(front, temp, m);
      forall x | x in front ensures x.id != last.id {
        var k :| 0 <= k < |front| && front[k] == x;
        assert list[k].id != list[|list| - 1].id;
      }
    }
  }

  lemma ReplacedTidy(list: seq<Msg>, temp: MsgId, m: Msg, n: nat)
    requires Tidy(list, n) && (m.id.Local? ==> m.id.n <= n)
    ensures Tidy(Replaced(list, temp, m), n)
  {
    SwapDistinct(list, temp, m);
  }

  // ----- history pages -----

  /** What the SDK promises of one page: no message twice. */
  ghost predicate PageDistinct(page: seq<Raw>) {
    forall i, j :: 0 <= i < j < |page| ==> page[i].id != page[j].id
  }

  lemma {:induction false} SelectRawDistinct(page: seq<Raw>, p: Raw -> bool)
    requires PageDistinct(page)
    ensures PageDistinct(Select(page, p))
  {
    if page != [] {
      var front := page[..|page| - 1];
      SelectRawDistinct(front, p);
      forall r | r in front ensures r.id != page[|page| - 1].id {
        var k :| 0 <= k < |front| && front[k] == r;
        assert page[k].id != page[|page| - 1].id;
      }
    }
  }

  lemma ShownTidy(t: Table, conv: string, page: seq<Raw>, n: nat)
    requires PageDistinct(page)
    ensures Tidy(Shown(t, conv, page), n)
    ensures forall m :: m in Shown(t, conv, page) ==> exists r :: r in page && m == ToMsg(r)
  {
    var kept := Select(page, (r: Raw) => !r.pin && !Removed(t, conv, r.seqNo));
    SelectRawDistinct(page, (r: Raw) => !r.pin && !Removed(t, conv, r.seqNo));
    forall m | m in Shown(t, conv, page)
      ensures exists r :: r in page && m == ToMsg(r)
    {
      var k :| 0 <= k < |kept| && Shown(t, conv, page)[k] == m;
      assert kept[k] in page;
    }
  }

  lemma WithReadIds(mapped: seq<Msg>, existing: seq<Msg>, n: nat)
    requires Tidy(mapped, n)
    ensures Tidy(WithRead(mapped, existing), n)
    ensures |WithRead(mapped, existing)| == |mapped|
    ensures forall i :: 0 <= i < |mapped| ==> WithRead(mapped, existing)[i].id == mapped[i].id
  {
    var r := WithRead(mapped, existing);
    forall m | m in r && m.id.Local? ensures m.id.n <= n {
      var k :| 0 <= k < |r| && r[k] == m;
      assert mapped[k] in mapped && mapped[k].id == m.id;
    }
  }

  lemma MergedTidy(history: seq<Msg>, existing: seq<Msg>, now: int, n: nat)
    requires Tidy(history, n) && Tidy(existing, n)
    ensures Tidy(history + Pending(history, existing, now), n)
  {
    SelectDistinct(existing, (m: Msg) => !HasId(history, m.id) && (m.status != Sent || 0 <= now - m.at < 60000));
    var extra := Pending(history, existing, now);
    forall x, y | x in history && y in extra ensures x.id != y.id {
      assert !HasId(history, y.id);
    }
    ConcatTidy(history, extra, n);
  }
}

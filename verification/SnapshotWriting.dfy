/** What writing a snapshot into a message does to the fields that are read again later. */
module SnapshotWriting {
  import opened Options
  import opened Json
  import opened ForwardSnapshot

  predicate LowerFirst(key: string) { key != "" && 'a' <= key[0] <= 'z' }

  /** A capitalised spelling is never one of the lower-case keys. */
  lemma PascalIsUpper(key: string)
    requires LowerFirst(key)
    ensures Pascal(key) != key && !LowerFirst(Pascal(key))
  {
    assert Pascal(key)[0] == (key[0] as int - 32) as char;
  }

  lemma IdentityKeys()
    ensures forall k <- IDENTITY_KEYS :: LowerFirst(k) && k != "contentType" && k != "content"
  {
    assert IDENTITY_KEYS[0][0] == 'c' && IDENTITY_KEYS[0][1] == 'l';
    assert "contentType"[0] == 'c' && "content"[0] == 'c' && "contentType"[1] == 'o' && "content"[1] == 'o';
    assert IDENTITY_KEYS[6][0] == 'c' && IDENTITY_KEYS[6][1] == 'r';
  }

  /** The key of a typed element is a field of its own. */
  lemma ElemKeys(ct: int)
    requires ElemKey(ct).Some?
    ensures LowerFirst(ElemKey(ct).value)
    ensures ElemKey(ct).value != "contentType" && ElemKey(ct).value != "content"
    ensures Pascal(ElemKey(ct).value) != "ContentType" && Pascal(ElemKey(ct).value) != "Content"
  {
    var key := ElemKey(ct).value;
    assert key[0] in ['t', 'p', 's', 'v', 'f', 'a', 'm', 'q'];
    assert "contentType"[0] == 'c' && "content"[0] == 'c' && "ContentType"[0] == 'C' && "Content"[0] == 'C';
    assert Pascal(key)[0] as int == key[0] as int - 32;
  }

  /** Every field that was there is kept; only missing identity fields are added. */
  lemma {:induction false} AliasedKeeps(o: map<string, Json>, keys: seq<string>)
    ensures forall k <- o :: k in Aliased(o, keys) && Aliased(o, keys)[k] == o[k]
    ensures forall k <- Aliased(o, keys) :: k in o || k in keys
  {
    if keys != [] { AliasedKeeps(o, keys[..|keys| - 1]); }
  }

  /** Afterwards no identity field is missing under its own name while present under its alias. */
  lemma {:induction false} AliasedComplete(o: map<string, Json>, keys: seq<string>)
    requires forall k <- keys :: LowerFirst(k)
    ensures forall k <- keys :: k in Aliased(o, keys) || Pascal(k) !in Aliased(o, keys)
  {
    if keys != [] {
      var front, last := keys[..|keys| - 1], keys[|keys| - 1];
      assert keys == front + [last];
      AliasedComplete(o, front);
      AliasedKeeps(o, front);
      forall k <- keys ensures k in Aliased(o, keys) || Pascal(k) !in Aliased(o, keys) {
        PascalIsUpper(k);
        PascalIsUpper(last);
      }
    }
  }

  lemma {:induction false} AliasedFixed(o: map<string, Json>, keys: seq<string>)
    requires forall k <- keys :: k in o || Pascal(k) !in o
    ensures Aliased(o, keys) == o
  {
    if keys != [] {
      assert keys[|keys| - 1] in keys;
      AliasedFixed(o, keys[..|keys| - 1]);
    }
  }

  /** Both spellings of the type and of the content say what the snapshot says. */
  ghost predicate Carries(o: map<string, Json>, contentType: Json, content: Json) {
    && "contentType" in o && o["contentType"] == contentType
    && "content" in o && o["content"] == content
    && ("ContentType" in o ==> o["ContentType"] == contentType)
    && ("Content" in o ==> o["Content"] == content)
  }

  ghost predicate CarriesElem(o: map<string, Json>, s: Snapshot) {
    match ElemKey(s.contentType)
    case None => true
    case Some(key) => key in o && o[key] == s.content && (Pascal(key) in o ==> o[Pascal(key)] == s.content)
  }

  lemma TypedCarries(item: map<string, Json>, contentType: Json, content: Json)
    ensures Carries(SetBoth(SetBoth(item, "contentType", contentType), "content", content), contentType, content)
  {
    Spellings();
  }

  lemma KnownCarries(item: map<string, Json>, contentType: Json, content: Json)
    ensures var known := Aliased(SetBoth(SetBoth(item, "contentType", contentType), "content", content), IDENTITY_KEYS);
            && Carries(known, contentType, content)
            && (forall k <- IDENTITY_KEYS :: k in known || Pascal(k) !in known)
  {
    var typed := SetBoth(SetBoth(item, "contentType", contentType), "content", content);
    TypedCarries(item, contentType, content);
    AliasedKeeps(typed, IDENTITY_KEYS);
    IdentityKeys();
    AliasedComplete(typed, IDENTITY_KEYS);
    NotIdentity();
  }

  lemma NotIdentity()
    ensures "ContentType" !in IDENTITY_KEYS && "Content" !in IDENTITY_KEYS
  {
    IdentityKeys();
    assert !LowerFirst("ContentType") && !LowerFirst("Content");
  }

  /** Writing the element disturbs neither the type nor the content, */
  lemma ElemKeepsCarries(known: map<string, Json>, key: string, value: Json, contentType: Json, content: Json)
    requires Carries(known, contentType, content)
    requires key != "contentType" && key != "content" && Pascal(key) != "ContentType" && Pascal(key) != "Content"
    requires Pascal(key) != "contentType" && Pascal(key) != "content" && key != "ContentType" && key != "Content"
    ensures Carries(SetBoth(known, key, value), contentType, content)
  {
  }

  /** nor does it uncover an alias. */
  lemma ElemKeepsComplete(known: map<string, Json>, key: string, value: Json, k: string)
    requires LowerFirst(key) && LowerFirst(k)
    requires k in known || Pascal(k) !in known
    ensures k in SetBoth(known, key, value) || Pascal(k) !in SetBoth(known, key, value)
  {
    PascalIsUpper(k);
  }

  /** All aliases of type, content and element denote the same value after writing. */
  lemma WrittenCarries(rt: Runtime, item: map<string, Json>, s: Snapshot)
    ensures Carries(WithSnapshot(rt, item, s), Num(s.contentType), Str(rt.stringify(s.content)))
    ensures CarriesElem(WithSnapshot(rt, item, s), s)
  {
    var contentType, content := Num(s.contentType), Str(rt.stringify(s.content));
    KnownCarries(item, contentType, content);
    if ElemKey(s.contentType).Some? {
      var key := ElemKey(s.contentType).value;
      ElemKeys(s.contentType);
      PascalIsUpper(key);
      CapitalIsUpper();
      ElemKeepsCarries(Aliased(SetBoth(SetBoth(item, "contentType", contentType), "content", content), IDENTITY_KEYS),
                       key, s.content, contentType, content);
    }
  }

  lemma WrittenComplete(rt: Runtime, item: map<string, Json>, s: Snapshot)
    ensures forall k <- IDENTITY_KEYS :: k in WithSnapshot(rt, item, s) || Pascal(k) !in WithSnapshot(rt, item, s)
  {
    var contentType, content := Num(s.contentType), Str(rt.stringify(s.content));
    KnownCarries(item, contentType, content);
    if ElemKey(s.contentType).Some? {
      ElemKeys(s.contentType);
      IdentityKeys();
      forall k <- IDENTITY_KEYS
        ensures k in WithSnapshot(rt, item, s) || Pascal(k) !in WithSnapshot(rt, item, s)
      {
        ElemKeepsComplete(Aliased(SetBoth(SetBoth(item, "contentType", contentType), "content", content), IDENTITY_KEYS),
                          ElemKey(s.contentType).value, s.content, k);
      }
    }
  }

  lemma CapitalIsUpper()
    ensures LowerFirst("content") && LowerFirst("contentType") && !LowerFirst("Content") && !LowerFirst("ContentType")
  {
  }

  /** Nothing else is lost: the remaining fields of the message are untouched. */
  lemma WrittenKeepsRest(rt: Runtime, item: map<string, Json>, s: Snapshot, k: string)
    requires k in item
    requires k != "contentType" && k != "ContentType" && k != "content" && k != "Content"
    requires ElemKey(s.contentType).Some? ==> k != ElemKey(s.contentType).value && k != Pascal(ElemKey(s.contentType).value)
    ensures k in WithSnapshot(rt, item, s) && WithSnapshot(rt, item, s)[k] == item[k]
  {
    Spellings();
    var typed := SetBoth(SetBoth(item, "contentType", Num(s.contentType)), "content", Str(rt.stringify(s.content)));
    assert k in typed && typed[k] == item[k];
    AliasedKeeps(typed, IDENTITY_KEYS);
    hide Aliased, ElemKey, Pascal;
  }

  // ----- the identity of the message -----

  lemma {:induction false} AliasedCopies(o: map<string, Json>, keys: seq<string>, k: string)
    requires forall x <- keys :: LowerFirst(x)
    requires k in keys && k !in o && Pascal(k) in o
    ensures k in Aliased(o, keys) && Aliased(o, keys)[k] == o[Pascal(k)]
  {
    var front, last := keys[..|keys| - 1], keys[|keys| - 1];
    assert keys == front + [last];
    AliasedKeeps(o, front);
    if k in front { AliasedCopies(o, front, k); }
    PascalIsUpper(k);
    PascalIsUpper(last);
  }

  /** The twelve fields that identify a message and describe its sender, with the spelling of native objects. */
  const IDENTITY: seq<(string, string)> :=
    [("clientMsgID", "ClientMsgID"), ("serverMsgID", "ServerMsgID"), ("sendID", "SendID"), ("recvID", "RecvID"),
     ("groupID", "GroupID"), ("sendTime", "SendTime"), ("createTime", "CreateTime"), ("sessionType", "SessionType"),
     ("seq", "Seq"), ("status", "Status"), ("senderNickname", "SenderNickname"), ("senderFaceUrl", "SenderFaceUrl")]

  lemma PascalIs(key: string, capital: string)
    requires LowerFirst(key) && |capital| == |key| && capital[0] as int == key[0] as int - 32
    requires forall k :: 1 <= k < |key| ==> capital[k] == key[k]
    ensures Pascal(key) == capital
  {
  }

  lemma IdentitySpelled(i: nat)
    requires i < 12
    ensures IDENTITY[i].0 in IDENTITY_KEYS && Pascal(IDENTITY[i].0) == IDENTITY[i].1
  {
    assert IDENTITY_KEYS[i] == IDENTITY[i].0;
    if i < 4 { FirstSpelled(i); } else if i < 8 { MiddleSpelled(i); } else { LastSpelled(i); }
  }

  lemma FirstSpelled(i: nat)
    requires i < 4
    ensures Pascal(IDENTITY[i].0) == IDENTITY[i].1
  {
    PascalIs(IDENTITY[i].0, IDENTITY[i].1);
  }

  lemma MiddleSpelled(i: nat)
    requires 4 <= i < 8
    ensures Pascal(IDENTITY[i].0) == IDENTITY[i].1
  {
    PascalIs(IDENTITY[i].0, IDENTITY[i].1);
  }

  lemma LastSpelled(i: nat)
    requires 8 <= i < 12
    ensures Pascal(IDENTITY[i].0) == IDENTITY[i].1
  {
    PascalIs(IDENTITY[i].0, IDENTITY[i].1);
  }

  /** Each of them is there under its own name if it was there under the other, with the same value. */
  lemma IdentityIsCopied(rt: Runtime, item: map<string, Json>, s: Snapshot, i: nat)
    requires i < 12 && IDENTITY[i].0 !in item && IDENTITY[i].1 in item
    ensures var w := WithSnapshot(rt, item, s); IDENTITY[i].0 in w && w[IDENTITY[i].0] == item[IDENTITY[i].1]
  {
    var k := IDENTITY[i].0;
    var typed := SetBoth(SetBoth(item, "contentType", Num(s.contentType)), "content", Str(rt.stringify(s.content)));
    IdentitySpelled(i);
    IdentityKeys();
    PascalIsUpper(k);
    CapitalIsUpper();
    Spellings();
    CapitalsDiffer(k);
    assert k !in typed && Pascal(k) in typed && typed[Pascal(k)] == item[Pascal(k)];
    AliasedCopies(typed, IDENTITY_KEYS, k);
    if ElemKey(s.contentType).Some? {
      ElemKeys(s.contentType);
      ElemIsNoIdentity(s.contentType, k);
    }
    hide Aliased, ElemKey;
  }

  lemma CapitalsDiffer(k: string)
    requires k in IDENTITY_KEYS
    ensures Pascal(k) != "ContentType" && Pascal(k) != "Content"
  {
    IdentityKeys();
    Spellings();
    if Pascal(k) == "ContentType" { PascalInjective(k, "contentType"); }
    if Pascal(k) == "Content" { PascalInjective(k, "content"); }
  }

  lemma PascalInjective(a: string, b: string)
    requires LowerFirst(a) && LowerFirst(b) && Pascal(a) == Pascal(b)
    ensures a == b
  {
    assert Pascal(a)[0] as int == a[0] as int - 32 && Pascal(b)[0] as int == b[0] as int - 32;
    assert a == [a[0]] + Pascal(a)[1..] && b == [b[0]] + Pascal(b)[1..];
  }

  lemma ElemIsNoIdentity(ct: int, k: string)
    requires ElemKey(ct).Some? && k in IDENTITY_KEYS
    ensures ElemKey(ct).value != k && Pascal(ElemKey(ct).value) != k
  {
    var key := ElemKey(ct).value;
    IdentityKeys();
    ElemKeys(ct);
    PascalIsUpper(key);
    assert |key| >= 8 && key[|key| - 1] == 'm' && key[|key| - 4] == 'E';
    var i :| 0 <= i < 12 && IDENTITY_KEYS[i] == k;
    assert k[|k| - 1] != 'm';
  }

  /** Writing the same snapshot a second time changes nothing, whatever the message was. */
  lemma WritingIsIdempotent(rt: Runtime, item: map<string, Json>, s: Snapshot)
    ensures WithSnapshot(rt, WithSnapshot(rt, item, s), s) == WithSnapshot(rt, item, s)
  {
    var w := WithSnapshot(rt, item, s);
    WrittenCarries(rt, item, s);
    WrittenComplete(rt, item, s);
    Spellings();
    assert SetBoth(w, "contentType", Num(s.contentType)) == w;
    assert SetBoth(w, "content", Str(rt.stringify(s.content))) == w;
    AliasedFixed(w, IDENTITY_KEYS);
  }

  /** A message shows which snapshot was written into it. */
  lemma WritingIsInjective(rt: Runtime, item: map<string, Json>, s: Snapshot, other: map<string, Json>, t: Snapshot)
    requires Lawful(rt)
    requires WithSnapshot(rt, item, s) == WithSnapshot(rt, other, t)
    ensures s == t
  {
    WrittenCarries(rt, item, s);
    WrittenCarries(rt, other, t);
    assert rt.parse(rt.stringify(s.content)) == Some(s.content);
    assert rt.parse(rt.stringify(t.content)) == Some(t.content);
  }
}

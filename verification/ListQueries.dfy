/** The three searches of the administration: their filters, the conditions they ask for and the queries they run. */
module ListQueries {
  import opened Options
  import opened FilterWhere

  /** Zero values ask for nothing. */
  datatype MessageFilter = MessageFilter(contentType: int, sender: string, peerType: string, since: Option<int>, until: Option<int>)
  datatype FailureFilter = FailureFilter(contentType: int, failCode: string, sender: string, source: string,
                                         since: Option<int>, until: Option<int>)
  datatype AuditFilter = AuditFilter(keyword: string, result: string, resource: string)

  function Pattern(keyword: string): Value { Text("%" + keyword + "%") }

  function If(asked: bool, c: Condition): seq<Condition> { if asked then [c] else [] }

  function Timed(column: string, test: Test, t: Option<int>): seq<Condition> {
    match t case None => [] case Some(at) => [Given([column], test, Time(at))]
  }

  // ----- what is asked for -----

  function MessageConditions(f: MessageFilter): seq<Condition> {
    If(f.contentType > 0, Given(["a.content_type"], Equal, Int(f.contentType)))
    + If(f.peerType == "group", Fixed("a.group_im_id", Differs, Text("")))
    + If(f.peerType == "c2c", Fixed("a.group_im_id", Equal, Text("")))
    + If(f.sender != "", Given(["su.nickname", "a.sender_im_id"], Like, Pattern(f.sender)))
    + Timed("a.created_at", AtLeast, f.since)
    + Timed("a.created_at", AtMost, f.until)
  }

  function FailureConditions(f: FailureFilter): seq<Condition> {
    If(f.contentType > 0, Given(["f.content_type"], Equal, Int(f.contentType)))
    + If(f.failCode != "", Given(["f.fail_code"], Equal, Text(f.failCode)))
    + If(f.source != "", Given(["f.source"], Equal, Text(f.source)))
    + If(f.sender != "", Given(["su.nickname", "f.sender_im_id"], Like, Pattern(f.sender)))
    + Timed("f.created_at", AtLeast, f.since)
    + Timed("f.created_at", AtMost, f.until)
  }

  function AuditConditions(f: AuditFilter): seq<Condition> {
    If(f.keyword != "", Given(["a.nickname", "l.action", "l.resource_id", "l.ip"], Like, Pattern(f.keyword)))
    + If(f.result != "", Given(["l.result"], Equal, Text(f.result)))
    + If(f.resource != "", Given(["l.resource"], Equal, Text(f.resource)))
  }

  // ----- and what that means -----

  type Matcher = (string, string) -> bool

  predicate Contains(like: Matcher, row: Row, column: string, keyword: string) {
    column in row && row[column].Text? && like(row[column].s, "%" + keyword + "%")
  }

  predicate Is(row: Row, column: string, v: Value) { column in row && row[column] == v }

  predicate Between(row: Row, column: string, since: Option<int>, until: Option<int>) {
    && (since.Some? ==> column in row && row[column].Time? && since.value <= row[column].at)
    && (until.Some? ==> column in row && row[column].Time? && row[column].at <= until.value)
  }

  predicate MessageWanted(like: Matcher, row: Row, f: MessageFilter) {
    && (f.contentType > 0 ==> Is(row, "a.content_type", Int(f.contentType)))
    && (f.peerType == "group" ==> "a.group_im_id" in row && row["a.group_im_id"] != Text(""))
    && (f.peerType == "c2c" ==> Is(row, "a.group_im_id", Text("")))
    && (f.sender != "" ==> Contains(like, row, "su.nickname", f.sender) || Contains(like, row, "a.sender_im_id", f.sender))
    && Between(row, "a.created_at", f.since, f.until)
  }

  predicate FailureWanted(like: Matcher, row: Row, f: FailureFilter) {
    && (f.contentType > 0 ==> Is(row, "f.content_type", Int(f.contentType)))
    && (f.failCode != "" ==> Is(row, "f.fail_code", Text(f.failCode)))
    && (f.source != "" ==> Is(row, "f.source", Text(f.source)))
    && (f.sender != "" ==> Contains(like, row, "su.nickname", f.sender) || Contains(like, row, "f.sender_im_id", f.sender))
    && Between(row, "f.created_at", f.since, f.until)
  }

  predicate AuditWanted(like: Matcher, row: Row, f: AuditFilter) {
    && (f.keyword != "" ==> Contains(like, row, "a.nickname", f.keyword) || Contains(like, row, "l.action", f.keyword)
                            || Contains(like, row, "l.resource_id", f.keyword) || Contains(like, row, "l.ip", f.keyword))
    && (f.result != "" ==> Is(row, "l.result", Text(f.result)))
    && (f.resource != "" ==> Is(row, "l.resource", Text(f.resource)))
  }

  lemma AllHoldConcat(like: Matcher, row: Row, a: seq<Condition>, b: seq<Condition>)
    ensures AllHold(like, row, a + b) <==> AllHold(like, row, a) && AllHold(like, row, b)
  {
    assert forall c <- a :: c in a + b;
    assert forall c <- b :: c in a + b;
  }

  lemma IfHolds(like: Matcher, row: Row, asked: bool, c: Condition)
    ensures AllHold(like, row, If(asked, c)) <==> (asked ==> Holds(like, row, c))
  {
    if asked { assert c in If(asked, c); }
  }

  lemma TimesHold(like: Matcher, row: Row, column: string, since: Option<int>, until: Option<int>)
    ensures AllHold(like, row, Timed(column, AtLeast, since)) && AllHold(like, row, Timed(column, AtMost, until))
            <==> Between(row, column, since, until)
  {
    if since.Some? {
      IfHolds(like, row, true, Given([column], AtLeast, Time(since.value)));
      assert column in [column];
    }
    if until.Some? {
      IfHolds(like, row, true, Given([column], AtMost, Time(until.value)));
      assert column in [column];
    }
  }

  lemma OneOf(like: Matcher, row: Row, column: string, v: Value)
    ensures Holds(like, row, Given([column], Equal, v)) <==> Is(row, column, v)
  {
    assert column in [column];
  }

  lemma TwoOf(like: Matcher, row: Row, a: string, b: string, keyword: string)
    ensures Holds(like, row, Given([a, b], Like, Pattern(keyword))) <==>
            Contains(like, row, a, keyword) || Contains(like, row, b, keyword)
  {
    assert a in [a, b] && b in [a, b];
  }

  lemma FourOf(like: Matcher, row: Row, a: string, b: string, c: string, d: string, keyword: string)
    ensures Holds(like, row, Given([a, b, c, d], Like, Pattern(keyword))) <==>
            Contains(like, row, a, keyword) || Contains(like, row, b, keyword)
            || Contains(like, row, c, keyword) || Contains(like, row, d, keyword)
  {
    assert a in [a, b, c, d] && b in [a, b, c, d] && c in [a, b, c, d] && d in [a, b, c, d];
  }

  lemma MessageConditionsMean(like: Matcher, row: Row, f: MessageFilter)
    ensures AllHold(like, row, MessageConditions(f)) <==> MessageWanted(like, row, f)
  {
    hide AllHold, Holds;
    var c1 := Given(["a.content_type"], Equal, Int(f.contentType));
    var c2, c3 := Fixed("a.group_im_id", Differs, Text("")), Fixed("a.group_im_id", Equal, Text(""));
    var c4 := Given(["su.nickname", "a.sender_im_id"], Like, Pattern(f.sender));
    var p1, p2 := If(f.contentType > 0, c1), If(f.peerType == "group", c2);
    var p3, p4 := If(f.peerType == "c2c", c3), If(f.sender != "", c4);
    var p5, p6 := Timed("a.created_at", AtLeast, f.since), Timed("a.created_at", AtMost, f.until);
    assert MessageConditions(f) == p1 + p2 + p3 + p4 + p5 + p6;
    AllHoldConcat(like, row, p1 + p2 + p3 + p4 + p5, p6);
    AllHoldConcat(like, row, p1 + p2 + p3 + p4, p5);
    AllHoldConcat(like, row, p1 + p2 + p3, p4);
    AllHoldConcat(like, row, p1 + p2, p3);
    AllHoldConcat(like, row, p1, p2);
    IfHolds(like, row, f.contentType > 0, c1);
    IfHolds(like, row, f.peerType == "group", c2);
    IfHolds(like, row, f.peerType == "c2c", c3);
    IfHolds(like, row, f.sender != "", c4);
    OneOf(like, row, "a.content_type", Int(f.contentType));
    FixedHolds(like, row, c2);
    FixedHolds(like, row, c3);
    TwoOf(like, row, "su.nickname", "a.sender_im_id", f.sender);
    TimesHold(like, row, "a.created_at", f.since, f.until);
  }

  lemma FixedHolds(like: Matcher, row: Row, c: Condition)
    requires c.Fixed?
    ensures Holds(like, row, c) <==> Passes(like, row, c.only, c.how, c.literal)
  {
  }

  lemma FailureConditionsMean(like: Matcher, row: Row, f: FailureFilter)
    ensures AllHold(like, row, FailureConditions(f)) <==> FailureWanted(like, row, f)
  {
    hide AllHold, Holds;
    var c1, c2 := Given(["f.content_type"], Equal, Int(f.contentType)), Given(["f.fail_code"], Equal, Text(f.failCode));
    var c3 := Given(["f.source"], Equal, Text(f.source));
    var c4 := Given(["su.nickname", "f.sender_im_id"], Like, Pattern(f.sender));
    var p1, p2 := If(f.contentType > 0, c1), If(f.failCode != "", c2);
    var p3, p4 := If(f.source != "", c3), If(f.sender != "", c4);
    var p5, p6 := Timed("f.created_at", AtLeast, f.since), Timed("f.created_at", AtMost, f.until);
    assert FailureConditions(f) == p1 + p2 + p3 + p4 + p5 + p6;
    AllHoldConcat(like, row, p1 + p2 + p3 + p4 + p5, p6);
    AllHoldConcat(like, row, p1 + p2 + p3 + p4, p5);
    AllHoldConcat(like, row, p1 + p2 + p3, p4);
    AllHoldConcat(like, row, p1 + p2, p3);
    AllHoldConcat(like, row, p1, p2);
    IfHolds(like, row, f.contentType > 0, c1);
    IfHolds(like, row, f.failCode != "", c2);
    IfHolds(like, row, f.source != "", c3);
    IfHolds(like, row, f.sender != "", c4);
    OneOf(like, row, "f.content_type", Int(f.contentType));
    OneOf(like, row, "f.fail_code", Text(f.failCode));
    OneOf(like, row, "f.source", Text(f.source));
    TwoOf(like, row, "su.nickname", "f.sender_im_id", f.sender);
    TimesHold(like, row, "f.created_at", f.since, f.until);
  }

  lemma AuditConditionsMean(like: Matcher, row: Row, f: AuditFilter)
    ensures AllHold(like, row, AuditConditions(f)) <==> AuditWanted(like, row, f)
  {
    hide AllHold, Holds;
    var c1 := Given(["a.nickname", "l.action", "l.resource_id", "l.ip"], Like, Pattern(f.keyword));
    var c2, c3 := Given(["l.result"], Equal, Text(f.result)), Given(["l.resource"], Equal, Text(f.resource));
    var p1, p2, p3 := If(f.keyword != "", c1), If(f.result != "", c2), If(f.resource != "", c3);
    assert AuditConditions(f) == p1 + p2 + p3;
    AllHoldConcat(like, row, p1 + p2, p3);
    AllHoldConcat(like, row, p1, p2);
    IfHolds(like, row, f.keyword != "", c1);
    IfHolds(like, row, f.result != "", c2);
    IfHolds(like, row, f.resource != "", c3);
    FourOf(like, row, "a.nickname", "l.action", "l.resource_id", "l.ip", f.keyword);
    OneOf(like, row, "l.result", Text(f.result));
    OneOf(like, row, "l.resource", Text(f.resource));
  }

  // ----- the builders -----

  lemma CompileAppend(cs: seq<Condition>, c: Condition)
    ensures Compile(cs + [c]) == Added(Compile(cs), c)
  {
    assert (cs + [c])[..|cs|] == cs;
  }

  lemma CompileIf(cs: seq<Condition>, asked: bool, c: Condition)
    ensures Compile(cs + If(asked, c)) == if asked then Added(Compile(cs), c) else Compile(cs)
  {
    if asked { CompileAppend(cs, c); } else { assert cs + If(asked, c) == cs; }
  }

  /** ` AND column op $n`, once per column, for the argument just appended. */
  method Bind(columns: seq<string>, test: Test, n: nat) returns (clause: Clause)
    requires IsInt(n)
    ensures clause == Bound(columns, test, Repeat(Placeholder(n), |columns|))
  {
    var placeholders: seq<string> := [];
    for i := 0 to |columns|
      invariant placeholders == Repeat(Placeholder(n), i)
    {
      var digits := ItoaLoop(n);
      placeholders := placeholders + ["$" + digits];
    }
    clause := Bound(columns, test, placeholders);
  }

  lemma CompileTimed(cs: seq<Condition>, column: string, test: Test, t: Option<int>)
    ensures Compile(cs + Timed(column, test, t)) ==
            match t case None => Compile(cs) case Some(at) => Added(Compile(cs), Given([column], test, Time(at)))
  {
    match t
    case None => assert cs + Timed(column, test, t) == cs;
    case Some(at) => CompileAppend(cs, Given([column], test, Time(at)));
  }

  lemma CompileNothing()
    ensures Compile([]) == Query([], [])
  {
  }

  /** Append one argument and the clause that uses it. */
  method Push(where: seq<Clause>, args: seq<Value>, columns: seq<string>, test: Test, operand: Value)
    returns (longer: seq<Clause>, more: seq<Value>)
    requires |args| < 100
    ensures Query(longer, more) == Added(Query(where, args), Given(columns, test, operand)) && |more| == |args| + 1
  {
    more := args + [operand];
    var clause := Bind(columns, test, |more|);
    longer := where + [clause];
  }

  method PushLiteral(where: seq<Clause>, ghost args: seq<Value>, column: string, how: Test, literal: Value)
    returns (longer: seq<Clause>)
    ensures Query(longer, args) == Added(Query(where, args), Fixed(column, how, literal))
  {
    longer := where + [Literal(column, how, literal)];
  }

  method PushTime(where: seq<Clause>, args: seq<Value>, column: string, test: Test, t: Option<int>)
    returns (longer: seq<Clause>, more: seq<Value>)
    requires |args| < 100
    ensures |args| <= |more| <= |args| + 1
    ensures Query(longer, more) == match t
                                   case None => Query(where, args)
                                   case Some(at) => Added(Query(where, args), Given([column], test, Time(at)))
  {
    longer, more := where, args;
    if t.Some? { longer, more := Push(where, args, [column], test, Time(t.value)); }
  }

  method BuildMessageAuditWhere(f: MessageFilter) returns (where: seq<Clause>, args: seq<Value>)
    ensures Query(where, args) == Compile(MessageConditions(f)) && |args| <= 6
  {
    hide Compile, Added, If, Timed;
    CompileNothing();
    where, args := [], [];
    ghost var cs: seq<Condition> := [];
    CompileIf(cs, f.contentType > 0, Given(["a.content_type"], Equal, Int(f.contentType)));
    if f.contentType > 0 { where, args := Push(where, args, ["a.content_type"], Equal, Int(f.contentType)); }
    cs := cs + If(f.contentType > 0, Given(["a.content_type"], Equal, Int(f.contentType)));
    CompileIf(cs, f.peerType == "group", Fixed("a.group_im_id", Differs, Text("")));
    if f.peerType == "group" { where := PushLiteral(where, args, "a.group_im_id", Differs, Text("")); }
    cs := cs + If(f.peerType == "group", Fixed("a.group_im_id", Differs, Text("")));
    CompileIf(cs, f.peerType == "c2c", Fixed("a.group_im_id", Equal, Text("")));
    if f.peerType == "c2c" { where := PushLiteral(where, args, "a.group_im_id", Equal, Text("")); }
    cs := cs + If(f.peerType == "c2c", Fixed("a.group_im_id", Equal, Text("")));
    CompileIf(cs, f.sender != "", Given(["su.nickname", "a.sender_im_id"], Like, Pattern(f.sender)));
    if f.sender != "" { where, args := Push(where, args, ["su.nickname", "a.sender_im_id"], Like, Pattern(f.sender)); }
    cs := cs + If(f.sender != "", Given(["su.nickname", "a.sender_im_id"], Like, Pattern(f.sender)));
    CompileTimed(cs, "a.created_at", AtLeast, f.since);
    where, args := PushTime(where, args, "a.created_at", AtLeast, f.since);
    cs := cs + Timed("a.created_at", AtLeast, f.since);
    CompileTimed(cs, "a.created_at", AtMost, f.until);
    where, args := PushTime(where, args, "a.created_at", AtMost, f.until);
    cs := cs + Timed("a.created_at", AtMost, f.until);
    assert cs == MessageConditions(f);
  }

  method BuildMessageFailureWhere(f: FailureFilter) returns (where: seq<Clause>, args: seq<Value>)
    ensures Query(where, args) == Compile(FailureConditions(f)) && |args| <= 6
  {
    hide Compile, Added, If, Timed;
    CompileNothing();
    where, args := [], [];
    ghost var cs: seq<Condition> := [];
    CompileIf(cs, f.contentType > 0, Given(["f.content_type"], Equal, Int(f.contentType)));
    if f.contentType > 0 { where, args := Push(where, args, ["f.content_type"], Equal, Int(f.contentType)); }
    cs := cs + If(f.contentType > 0, Given(["f.content_type"], Equal, Int(f.contentType)));
    CompileIf(cs, f.failCode != "", Given(["f.fail_code"], Equal, Text(f.failCode)));
    if f.failCode != "" { where, args := Push(where, args, ["f.fail_code"], Equal, Text(f.failCode)); }
    cs := cs + If(f.failCode != "", Given(["f.fail_code"], Equal, Text(f.failCode)));
    CompileIf(cs, f.source != "", Given(["f.source"], Equal, Text(f.source)));
    if f.source != "" { where, args := Push(where, args, ["f.source"], Equal, Text(f.source)); }
    cs := cs + If(f.source != "", Given(["f.source"], Equal, Text(f.source)));
    CompileIf(cs, f.sender != "", Given(["su.nickname", "f.sender_im_id"], Like, Pattern(f.sender)));
    if f.sender != "" { where, args := Push(where, args, ["su.nickname", "f.sender_im_id"], Like, Pattern(f.sender)); }
    cs := cs + If(f.sender != "", Given(["su.nickname", "f.sender_im_id"], Like, Pattern(f.sender)));
    CompileTimed(cs, "f.created_at", AtLeast, f.since);
    where, args := PushTime(where, args, "f.created_at", AtLeast, f.since);
    cs := cs + Timed("f.created_at", AtLeast, f.since);
    CompileTimed(cs, "f.created_at", AtMost, f.until);
    where, args := PushTime(where, args, "f.created_at", AtMost, f.until);
    cs := cs + Timed("f.created_at", AtMost, f.until);
    assert cs == FailureConditions(f);
  }

  method BuildAuditWhere(f: AuditFilter) returns (where: seq<Clause>, args: seq<Value>)
    ensures Query(where, args) == Compile(AuditConditions(f)) && |args| <= 6
  {
    hide Compile, Added, If, Timed;
    CompileNothing();
    where, args := [], [];
    ghost var cs: seq<Condition> := [];
    CompileIf(cs, f.keyword != "", Given(["a.nickname", "l.action", "l.resource_id", "l.ip"], Like, Pattern(f.keyword)));
    if f.keyword != "" { where, args := Push(where, args, ["a.nickname", "l.action", "l.resource_id", "l.ip"], Like, Pattern(f.keyword)); }
    cs := cs + If(f.keyword != "", Given(["a.nickname", "l.action", "l.resource_id", "l.ip"], Like, Pattern(f.keyword)));
    CompileIf(cs, f.result != "", Given(["l.result"], Equal, Text(f.result)));
    if f.result != "" { where, args := Push(where, args, ["l.result"], Equal, Text(f.result)); }
    cs := cs + If(f.result != "", Given(["l.result"], Equal, Text(f.result)));
    CompileIf(cs, f.resource != "", Given(["l.resource"], Equal, Text(f.resource)));
    if f.resource != "" { where, args := Push(where, args, ["l.resource"], Equal, Text(f.resource)); }
    cs := cs + If(f.resource != "", Given(["l.resource"], Equal, Text(f.resource)));
    assert cs == AuditConditions(f);
  }

  // ----- the pages -----

  /** A page query: the condition, all arguments, and the numbers given for LIMIT and OFFSET. */
  datatype Page = Page(where: seq<Clause>, args: seq<Value>, limit: string, offset: string)

  ghost predicate PageOf(page: Page, q: Query, limit: int, offset: int) {
    && page.where == q.clauses
    && page.args == q.args + [Int(limit), Int(offset)]
    && page.limit == Placeholder(|q.args| + 1) && page.offset == Placeholder(|q.args| + 2)
  }

  /** Limit and offset are found under their numbers, and appending them changes no condition: the page shows
      exactly the rows that the total counts. */
  lemma PageMeans(like: Matcher, row: Row, page: Page, cs: seq<Condition>, limit: int, offset: int)
    requires |cs| <= 6 && PageOf(page, Compile(cs), limit, offset)
    ensures Lookup(page.limit, page.args) == Some(Int(limit)) && Lookup(page.offset, page.args) == Some(Int(offset))
    ensures Matches(like, row, page.where, page.args) <==> AllHold(like, row, cs)
    ensures Matches(like, row, Compile(cs).clauses, Compile(cs).args) <==> AllHold(like, row, cs)
  {
    var args := Compile(cs).args;
    CompiledWithin(cs);
    hide Matches, AllHold, Compile, Lookup, Placeholder;
    PlaceholderFinds(|args| + 1, page.args);
    PlaceholderFinds(|args| + 2, page.args);
    CompiledMeansRequested(like, row, cs, [Int(limit), Int(offset)]);
    CompiledMeansRequested(like, row, cs, []);
    assert args + [] == args;
  }

  /** Message and failure lists number from the end of the extended argument list, */
  method ListMessages(f: MessageFilter, limit: int, offset: int) returns (page: Page)
    ensures PageOf(page, Compile(MessageConditions(f)), limit, offset)
  {
    var where, args := BuildMessageAuditWhere(f);
    page := FromTheEnd(where, args, limit, offset);
  }

  method ListMessageFailures(f: FailureFilter, limit: int, offset: int) returns (page: Page)
    ensures PageOf(page, Compile(FailureConditions(f)), limit, offset)
  {
    var where, args := BuildMessageFailureWhere(f);
    page := FromTheEnd(where, args, limit, offset);
  }

  method FromTheEnd(where: seq<Clause>, args: seq<Value>, limit: int, offset: int) returns (page: Page)
    requires |args| <= 6
    ensures PageOf(page, Query(where, args), limit, offset)
  {
    var qargs := args + [Int(limit)] + [Int(offset)];
    var l := ItoaLoop(|qargs| - 1);
    var o := ItoaLoop(|qargs|);
    page := Page(where, qargs, "$" + l, "$" + o);
  }

  /** the audit list from the beginning. */
  method ListAuditLogs(f: AuditFilter, limit: int, offset: int) returns (page: Page)
    ensures PageOf(page, Compile(AuditConditions(f)), limit, offset)
  {
    var where, args := BuildAuditWhere(f);
    var l := ItoaLoop(|args| + 1);
    var o := ItoaLoop(|args| + 2);
    page := Page(where, args + [Int(limit), Int(offset)], "$" + l, "$" + o);
  }

  /** The three searches return the rows their filters ask for. */
  lemma MessageSearch(like: Matcher, row: Row, f: MessageFilter, page: Page, limit: int, offset: int)
    requires PageOf(page, Compile(MessageConditions(f)), limit, offset)
    ensures Matches(like, row, page.where, page.args) <==> MessageWanted(like, row, f)
  {
    PageMeans(like, row, page, MessageConditions(f), limit, offset);
    MessageConditionsMean(like, row, f);
  }

  lemma FailureSearch(like: Matcher, row: Row, f: FailureFilter, page: Page, limit: int, offset: int)
    requires PageOf(page, Compile(FailureConditions(f)), limit, offset)
    ensures Matches(like, row, page.where, page.args) <==> FailureWanted(like, row, f)
  {
    PageMeans(like, row, page, FailureConditions(f), limit, offset);
    FailureConditionsMean(like, row, f);
  }

  lemma AuditSearch(like: Matcher, row: Row, f: AuditFilter, page: Page, limit: int, offset: int)
    requires PageOf(page, Compile(AuditConditions(f)), limit, offset)
    ensures Matches(like, row, page.where, page.args) <==> AuditWanted(like, row, f)
  {
    PageMeans(like, row, page, AuditConditions(f), limit, offset);
    AuditConditionsMean(like, row, f);
  }
}

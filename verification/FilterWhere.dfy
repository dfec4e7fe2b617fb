/** Search filters compiled to numbered placeholders: what the generated condition means under its arguments. */
module FilterWhere {
  import opened Options

  // ----- decimal text -----

  const MIN_INT: int := -0x8000_0000_0000_0000
  const MAX_INT: int := 0x7FFF_FFFF_FFFF_FFFF

  predicate IsInt(n: int) { MIN_INT <= n <= MAX_INT }

  function Digit(d: nat): char
    requires d < 10
  {
    '0' + d as char
  }

  function Digits(n: nat): string {
    if n == 0 then "" else Digits(n / 10) + [Digit(n % 10)]
  }

  /** The most negative integer is its own negation, so its digits are never produced. */
  function Itoa(n: int): string {
    if n == 0 then "0" else if n > 0 then Digits(n) else if n == MIN_INT then "-" else "-" + Digits(-n)
  }

  method ItoaLoop(number: int) returns (s: string)
    requires IsInt(number)
    ensures s == Itoa(number)
  {
    if number == 0 { return "0"; }
    var n := number;
    var neg := n < 0;
    if neg { n := if n == MIN_INT then n else -n; }
    ghost var start := n;
    s := "";
    while n > 0
      invariant start > 0 ==> n >= 0 && Digits(start) == Digits(n) + s
      invariant start <= 0 ==> n == start && s == ""
      decreases n
    {
      assert Digits(n) + s == Digits(n / 10) + ([Digit(n % 10)] + s);
      s := [Digit(n % 10)] + s;
      n := n / 10;
    }
    if neg { s := "-" + s; }
  }

  predicate AllDigits(s: string) { forall i :: 0 <= i < |s| ==> '0' <= s[i] <= '9' }

  function DigitsValue(s: string): nat
    requires AllDigits(s)
  {
    if s == "" then 0 else 10 * DigitsValue(s[..|s| - 1]) + (s[|s| - 1] - '0') as nat
  }

  function Decode(s: string): Option<int> {
    var digits := if s != "" && s[0] == '-' then s[1..] else s;
    if digits == "" || !AllDigits(digits) then None
    else
      var value: int := DigitsValue(digits);
      Some(if digits == s then value else -value)
  }

  lemma {:induction false} DigitsDecode(n: nat)
    ensures AllDigits(Digits(n)) && DigitsValue(Digits(n)) == n && (n > 0 ==> Digits(n) != "")
  {
    if n > 0 {
      DigitsDecode(n / 10);
      assert Digits(n)[..|Digits(n)| - 1] == Digits(n / 10);
    }
  }

  lemma PositiveDecodes(n: nat)
    requires n > 0
    ensures Decode(Digits(n)) == Some(n)
  {
    DigitsDecode(n);
    assert '0' <= Digits(n)[0];
  }

  lemma NegativeDecodes(n: int)
    requires n > 0
    ensures Decode("-" + Digits(n)) == Some(-n)
  {
    DigitsDecode(n);
    assert ("-" + Digits(n))[1..] == Digits(n);
  }

  lemma SmallDecodes()
    ensures Decode("0") == Some(0) && Decode("-") == None
  {
    assert "0"[..0] == "" && "-"[1..] == "";
  }

  /** Every machine integer but the most negative one can be read back from its text. */
  lemma ItoaDecodes(n: int)
    requires IsInt(n)
    ensures Decode(Itoa(n)) == Some(n) <==> n != MIN_INT
  {
    hide Decode, Digits;
    SmallDecodes();
    if n > 0 { PositiveDecodes(n); }
    if n < 0 && n != MIN_INT { NegativeDecodes(-n); }
  }

  // ----- conditions -----

  datatype Value = Int(n: int) | Text(s: string) | Time(at: int)
  datatype Test = Equal | Differs | AtLeast | AtMost | Like

  type Row = map<string, Value>

  /** `like(text, pattern)` is the case-insensitive pattern match of the database. A column named here stands for the
      value the query compares, so for `COALESCE(nickname, '')` of a missing nickname the row holds the empty text. */
  predicate Passes(like: (string, string) -> bool, row: Row, column: string, test: Test, operand: Value) {
    column in row &&
    match test
    case Equal => row[column] == operand
    case Differs => row[column] != operand
    case AtLeast => row[column].Time? && operand.Time? && operand.at <= row[column].at
    case AtMost => row[column].Time? && operand.Time? && row[column].at <= operand.at
    case Like => row[column].Text? && operand.Text? && like(row[column].s, operand.s)
  }

  /** One ` AND (...)` of the generated text: its alternatives compare columns with a placeholder or a literal. */
  datatype Clause =
    | Bound(columns: seq<string>, test: Test, placeholders: seq<string>)
    | Literal(column: string, how: Test, constant: Value)

  /** The value a placeholder such as `$3` stands for. */
  function Lookup(placeholder: string, args: seq<Value>): Option<Value> {
    if placeholder == "" || placeholder[0] != '$' then None
    else match Decode(placeholder[1..])
         case Some(n) => if 1 <= n <= |args| then Some(args[n - 1]) else None
         case None => None
  }

  predicate Satisfies(like: (string, string) -> bool, row: Row, c: Clause, args: seq<Value>) {
    match c
    case Literal(column, how, constant) => Passes(like, row, column, how, constant)
    case Bound(columns, test, placeholders) =>
      exists i :: 0 <= i < |columns| && i < |placeholders| && Lookup(placeholders[i], args).Some?
                  && Passes(like, row, columns[i], test, Lookup(placeholders[i], args).value)
  }

  predicate Matches(like: (string, string) -> bool, row: Row, clauses: seq<Clause>, args: seq<Value>) {
    forall c <- clauses :: Satisfies(like, row, c, args)
  }

  /** A condition as it is asked for: some column passes the test against a given operand, or against a fixed one. */
  datatype Condition =
    | Given(among: seq<string>, test: Test, operand: Value)
    | Fixed(only: string, how: Test, literal: Value)

  predicate Holds(like: (string, string) -> bool, row: Row, c: Condition) {
    match c
    case Given(among, test, operand) => exists column <- among :: Passes(like, row, column, test, operand)
    case Fixed(column, how, literal) => Passes(like, row, column, how, literal)
  }

  predicate AllHold(like: (string, string) -> bool, row: Row, cs: seq<Condition>) {
    forall c <- cs :: Holds(like, row, c)
  }

  // ----- compiling a list of conditions -----

  datatype Query = Query(clauses: seq<Clause>, args: seq<Value>)

  const EMPTY := Query([], [])

  function Repeat(s: string, n: nat): seq<string> { seq(n, i => s) }

  function Placeholder(n: int): string { "$" + Itoa(n) }

  /** Add one condition: a fixed one as it is, any other as a new argument and its number. */
  function Added(q: Query, c: Condition): Query {
    match c
    case Fixed(column, how, literal) => Query(q.clauses + [Literal(column, how, literal)], q.args)
    case Given(among, test, operand) =>
      Query(q.clauses + [Bound(among, test, Repeat(Placeholder(|q.args| + 1), |among|))], q.args + [operand])
  }

  function Compile(cs: seq<Condition>): Query {
    if cs == [] then EMPTY else Added(Compile(cs[..|cs| - 1]), cs[|cs| - 1])
  }

  lemma PlaceholderFinds(n: int, args: seq<Value>)
    requires 1 <= n <= |args| && IsInt(n)
    ensures Lookup(Placeholder(n), args) == Some(args[n - 1])
  {
    ItoaDecodes(n);
    assert Placeholder(n)[1..] == Itoa(n);
  }

  /** More arguments at the end change nothing for what is numbered already. */
  ghost predicate Within(c: Clause, n: nat) {
    c.Bound? ==> forall p <- c.placeholders :: exists k :: 1 <= k <= n && p == Placeholder(k)
  }

  lemma {:induction false} CompiledWithin(cs: seq<Condition>)
    ensures forall c <- Compile(cs).clauses :: Within(c, |Compile(cs).args|)
    ensures |Compile(cs).args| <= |cs|
  {
    if cs != [] {
      CompiledWithin(cs[..|cs| - 1]);
      var q := Compile(cs[..|cs| - 1]);
      forall c | c in q.clauses ensures Within(c, |Compile(cs).args|) {
        assert Within(c, |q.args|);
      }
      assert Placeholder(|q.args| + 1) == Placeholder(|q.args| + 1);
    }
  }

  lemma SatisfiesExtended(like: (string, string) -> bool, row: Row, c: Clause, args: seq<Value>, more: seq<Value>)
    requires Within(c, |args|) && IsInt(|args|)
    ensures Satisfies(like, row, c, args + more) <==> Satisfies(like, row, c, args)
  {
    if c.Bound? {
      forall i | 0 <= i < |c.placeholders|
        ensures Lookup(c.placeholders[i], args + more) == Lookup(c.placeholders[i], args)
      {
        assert c.placeholders[i] in c.placeholders;
        var k :| 1 <= k <= |args| && c.placeholders[i] == Placeholder(k);
        PlaceholderFinds(k, args);
        PlaceholderFinds(k, args + more);
      }
    }
  }

  lemma AddedMeans(like: (string, string) -> bool, row: Row, q: Query, c: Condition)
    requires IsInt(|q.args| + 1)
    ensures var added := Added(q, c);
            |added.clauses| == |q.clauses| + 1 && added.clauses[..|q.clauses|] == q.clauses
            && (Satisfies(like, row, added.clauses[|q.clauses|], added.args) <==> Holds(like, row, c))
  {
    var added := Added(q, c);
    var clause := added.clauses[|q.clauses|];
    if c.Given? {
      PlaceholderFinds(|q.args| + 1, added.args);
      if Holds(like, row, c) {
        var column :| column in c.among && Passes(like, row, column, c.test, c.operand);
        var i :| 0 <= i < |c.among| && c.among[i] == column;
        assert Lookup(clause.placeholders[i], added.args) == Some(c.operand);
      }
    }
  }

  lemma MatchesSplit(like: (string, string) -> bool, row: Row, clauses: seq<Clause>, last: Clause, args: seq<Value>)
    ensures Matches(like, row, clauses + [last], args) <==> Matches(like, row, clauses, args) && Satisfies(like, row, last, args)
  {
    assert last in clauses + [last];
  }

  lemma AllHoldSplit(like: (string, string) -> bool, row: Row, cs: seq<Condition>, last: Condition)
    ensures AllHold(like, row, cs + [last]) <==> AllHold(like, row, cs) && Holds(like, row, last)
  {
    assert last in cs + [last];
  }

  lemma AddedMatches(like: (string, string) -> bool, row: Row, q: Query, c: Condition, more: seq<Value>)
    requires IsInt(|q.args| + 1) && forall clause <- Added(q, c).clauses :: Within(clause, |Added(q, c).args|)
    ensures q.args <= Added(q, c).args
    ensures Matches(like, row, Added(q, c).clauses, Added(q, c).args + more) <==>
            Matches(like, row, q.clauses, q.args + (Added(q, c).args[|q.args|..] + more)) && Holds(like, row, c)
  {
    var all := Added(q, c);
    var clause := all.clauses[|q.clauses|];
    AddedMeans(like, row, q, c);
    assert clause in all.clauses;
    SatisfiesExtended(like, row, clause, all.args, more);
    assert all.clauses == q.clauses + [clause];
    assert all.args + more == q.args + (all.args[|q.args|..] + more);
    MatchesSplit(like, row, q.clauses, clause, all.args + more);
  }

  /** Main result: under its own arguments - and whatever is appended to them - the generated condition holds of
      exactly the rows that meet every requested condition. */
  lemma {:induction false} CompiledMeansRequested(like: (string, string) -> bool, row: Row, cs: seq<Condition>,
                                                  more: seq<Value>)
    requires IsInt(|cs|)
    ensures Matches(like, row, Compile(cs).clauses, Compile(cs).args + more) <==> AllHold(like, row, cs)
  {
    if cs != [] {
      var front, c := cs[..|cs| - 1], cs[|cs| - 1];
      CompiledWithin(front);
      CompiledWithin(cs);
      hide Matches, Holds, Within, Added;
      AddedMatches(like, row, Compile(front), c, more);
      CompiledMeansRequested(like, row, front, Compile(cs).args[|Compile(front).args|..] + more);
      assert cs == front + [c];
      AllHoldSplit(like, row, front, c);
    }
  }

  /** The numbers used, clause by clause: 1, 2, ... up to the number of arguments, each in one clause. */
  function Numbers(clauses: seq<Clause>): seq<string> {
    if clauses == [] then []
    else
      var last := clauses[|clauses| - 1];
      Numbers(clauses[..|clauses| - 1]) + (if last.Bound? && last.placeholders != [] then [last.placeholders[0]] else [])
  }

  lemma NumbersAppend(clauses: seq<Clause>, c: Clause)
    ensures Numbers(clauses + [c]) ==
            Numbers(clauses) + if c.Bound? && c.placeholders != [] then [c.placeholders[0]] else []
  {
    assert (clauses + [c])[..|clauses|] == clauses;
  }

  lemma {:induction false} NumbersInOrder(cs: seq<Condition>)
    requires forall c <- cs :: c.Given? ==> c.among != []
    ensures |Numbers(Compile(cs).clauses)| == |Compile(cs).args|
    ensures forall k :: 0 <= k < |Compile(cs).args| ==> Numbers(Compile(cs).clauses)[k] == Placeholder(k + 1)
  {
    hide Placeholder, Numbers;
    if cs == [] {
      NoNumbers();
    } else {
      var front, c := cs[..|cs| - 1], cs[|cs| - 1];
      assert c in cs;
      NumbersInOrder(front);
      var q := Compile(front);
      NumbersAppend(q.clauses, Added(q, c).clauses[|q.clauses|]);
      assert Compile(cs) == Added(q, c);
    }
  }

  lemma NoNumbers()
    ensures Numbers([]) == []
  {
  }

  /** Within one clause every column is compared with the same argument. */
  lemma {:induction false} OneArgumentPerClause(cs: seq<Condition>)
    ensures forall c <- Compile(cs).clauses :: c.Bound? ==> forall p <- c.placeholders :: p == c.placeholders[0]
  {
    if cs != [] { OneArgumentPerClause(cs[..|cs| - 1]); }
  }
}

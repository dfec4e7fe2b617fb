/**
 A runtime that keeps every law the snapshot theorems rely on: JSON values can be printed so that the text determines
 the value, so the laws contradict neither each other nor the other theorems.
 */
module LawfulRuntime {
  import opened Options
  import opened Json

  // ----- a printer whose texts are never the beginning of one another -----

  ghost function PrintNat(n: nat): string { if n == 0 then "0" else ['1'] + PrintNat(n - 1) }

  ghost function PrintText(s: string): string { if s == "" then "0" else ['1'] + ([s[0]] + PrintText(s[1..])) }

  ghost function Print(j: Json): string
    decreases j, 1, 0
  {
    match j
    case Null => ['n'] + ""
    case Bool(b) => (if b then ['t'] else ['f']) + ""
    case Num(n) => if n >= 0 then ['p'] + PrintNat(n) else ['m'] + PrintNat(-n)
    case Str(s) => ['s'] + PrintText(s)
    case Arr(items) => ['a'] + PrintAll(j, items)
    case Obj(fields) => ['o'] + PrintFields(j, fields)
  }

  ghost function PrintAll(parent: Json, items: seq<Json>): string
    requires forall i :: 0 <= i < |items| ==> items[i] < parent
    decreases parent, 0, |items|
  {
    if items == [] then "0" else ['1'] + (Print(items[0]) + PrintAll(parent, items[1..]))
  }

  ghost function PrintFields(parent: Json, fields: map<string, Json>): string
    requires forall k <- fields :: fields[k] < parent
    decreases parent, 0, |fields|
  {
    if fields == map[] then "0"
    else
      var k :| k in fields;
      ['1'] + (PrintText(k) + (Print(fields[k]) + PrintFields(parent, fields - {k})))
  }

  lemma Head(c: char, u: string, d: char, v: string)
    requires [c] + u == [d] + v
    ensures c == d && u == v
  {
    assert c == ([c] + u)[0] && d == ([d] + v)[0];
    assert u == ([c] + u)[1..] && v == ([d] + v)[1..];
  }

  lemma Assoc(a: string, b: string, c: string)
    ensures (a + b) + c == a + (b + c)
  {
  }

  lemma {:induction false} NatDetermined(n: nat, m: nat, x: string, y: string)
    requires PrintNat(n) + x == PrintNat(m) + y
    ensures n == m && x == y
  {
    var u := if n == 0 then "" else PrintNat(n - 1);
    var v := if m == 0 then "" else PrintNat(m - 1);
    assert PrintNat(n) == [if n == 0 then '0' else '1'] + u && PrintNat(m) == [if m == 0 then '0' else '1'] + v;
    Assoc([if n == 0 then '0' else '1'], u, x);
    Assoc([if m == 0 then '0' else '1'], v, y);
    Head(if n == 0 then '0' else '1', u + x, if m == 0 then '0' else '1', v + y);
    if n > 0 { NatDetermined(n - 1, m - 1, x, y); }
    else { assert u + x == x && v + y == y; }
  }

  lemma {:induction false} TextDetermined(s: string, t: string, x: string, y: string)
    requires PrintText(s) + x == PrintText(t) + y
    ensures s == t && x == y
  {
    var u := if s == "" then "" else [s[0]] + PrintText(s[1..]);
    var v := if t == "" then "" else [t[0]] + PrintText(t[1..]);
    assert PrintText(s) == [if s == "" then '0' else '1'] + u && PrintText(t) == [if t == "" then '0' else '1'] + v;
    Assoc([if s == "" then '0' else '1'], u, x);
    Assoc([if t == "" then '0' else '1'], v, y);
    Head(if s == "" then '0' else '1', u + x, if t == "" then '0' else '1', v + y);
    if s != "" {
      Assoc([s[0]], PrintText(s[1..]), x);
      Assoc([t[0]], PrintText(t[1..]), y);
      Head(s[0], PrintText(s[1..]) + x, t[0], PrintText(t[1..]) + y);
      TextDetermined(s[1..], t[1..], x, y);
      assert s == [s[0]] + s[1..] && t == [t[0]] + t[1..];
    } else { assert u + x == x && v + y == y; }
  }

  /** The first letter, and the rest. */
  ghost function Tag(j: Json): char {
    match j
    case Null => 'n'
    case Bool(b) => if b then 't' else 'f'
    case Num(n) => if n >= 0 then 'p' else 'm'
    case Str(_) => 's'
    case Arr(_) => 'a'
    case Obj(_) => 'o'
  }

  ghost function Body(j: Json): string {
    match j
    case Null => ""
    case Bool(_) => ""
    case Num(n) => if n >= 0 then PrintNat(n) else PrintNat(-n)
    case Str(s) => PrintText(s)
    case Arr(items) => PrintAll(j, items)
    case Obj(fields) => PrintFields(j, fields)
  }

  lemma TagAndBody(j: Json)
    ensures Print(j) == [Tag(j)] + Body(j)
  {
  }

  lemma {:induction false} Determined(j: Json, k: Json, x: string, y: string)
    requires Print(j) + x == Print(k) + y
    ensures j == k && x == y
    decreases j, 1, 0
  {
    TagAndBody(j);
    TagAndBody(k);
    Assoc([Tag(j)], Body(j), x);
    Assoc([Tag(k)], Body(k), y);
    Head(Tag(j), Body(j) + x, Tag(k), Body(k) + y);
    match j
    case Null => assert Body(j) + x == x && Body(k) + y == y;
    case Bool(_) => assert Body(j) + x == x && Body(k) + y == y;
    case Num(n) => NatDetermined(if n >= 0 then n else -n, if n >= 0 then k.n else -k.n, x, y);
    case Str(s) => TextDetermined(s, k.s, x, y);
    case Arr(items) => AllDetermined(j, items, k, k.items, x, y);
    case Obj(fields) => FieldsDetermined(j, fields, k, k.fields, x, y);
  }

  lemma {:induction false} AllDetermined(j: Json, items: seq<Json>, k: Json, others: seq<Json>, x: string, y: string)
    requires forall i :: 0 <= i < |items| ==> items[i] < j
    requires forall i :: 0 <= i < |others| ==> others[i] < k
    requires PrintAll(j, items) + x == PrintAll(k, others) + y
    ensures items == others && x == y
    decreases j, 0, |items|
  {
    var u := if items == [] then "" else Print(items[0]) + PrintAll(j, items[1..]);
    var v := if others == [] then "" else Print(others[0]) + PrintAll(k, others[1..]);
    var c, d := if items == [] then '0' else '1', if others == [] then '0' else '1';
    assert PrintAll(j, items) == [c] + u && PrintAll(k, others) == [d] + v;
    Assoc([c], u, x);
    Assoc([d], v, y);
    Head(c, u + x, d, v + y);
    if items != [] {
      Assoc(Print(items[0]), PrintAll(j, items[1..]), x);
      Assoc(Print(others[0]), PrintAll(k, others[1..]), y);
      Determined(items[0], others[0], PrintAll(j, items[1..]) + x, PrintAll(k, others[1..]) + y);
      AllDetermined(j, items[1..], k, others[1..], x, y);
      assert items == [items[0]] + items[1..] && others == [others[0]] + others[1..];
    } else { assert u + x == x && v + y == y; }
  }

  /** One field after another, in whatever order the printer picks them. */
  lemma FieldsUnfold(j: Json, fields: map<string, Json>) returns (key: string)
    requires fields != map[] && forall k <- fields :: fields[k] < j
    ensures key in fields
    ensures PrintFields(j, fields) == ['1'] + (PrintText(key) + (Print(fields[key]) + PrintFields(j, fields - {key})))
  {
    key :| key in fields && PrintFields(j, fields) ==
                              ['1'] + (PrintText(key) + (Print(fields[key]) + PrintFields(j, fields - {key})));
  }

  lemma {:induction false} FieldsDetermined(j: Json, fields: map<string, Json>, k: Json, others: map<string, Json>,
                                           x: string, y: string)
    requires (forall i <- fields :: fields[i] < j) && (forall i <- others :: others[i] < k)
    requires PrintFields(j, fields) + x == PrintFields(k, others) + y
    ensures fields == others && x == y
    decreases j, 0, |fields|, 1
  {
    var a, b, u, v := "", "", "", "";
    if fields != map[] {
      a := FieldsUnfold(j, fields);
      u := PrintText(a) + (Print(fields[a]) + PrintFields(j, fields - {a}));
    }
    if others != map[] {
      b := FieldsUnfold(k, others);
      v := PrintText(b) + (Print(others[b]) + PrintFields(k, others - {b}));
    }
    var c, d := if fields == map[] then '0' else '1', if others == map[] then '0' else '1';
    assert PrintFields(j, fields) == [c] + u && PrintFields(k, others) == [d] + v;
    Assoc([c], u, x);
    Assoc([d], v, y);
    Head(c, u + x, d, v + y);
    if fields != map[] {
      FieldDetermined(j, fields, a, k, others, b, x, y);
    } else { assert u + x == x && v + y == y; }
  }

  lemma FieldDetermined(j: Json, fields: map<string, Json>, a: string, k: Json, others: map<string, Json>, b: string,
                        x: string, y: string)
    requires (forall i <- fields :: fields[i] < j) && (forall i <- others :: others[i] < k)
    requires a in fields && b in others
    requires (PrintText(a) + (Print(fields[a]) + PrintFields(j, fields - {a}))) + x ==
             (PrintText(b) + (Print(others[b]) + PrintFields(k, others - {b}))) + y
    ensures fields == others && x == y
    decreases j, 0, |fields|, 0
  {
    var r, q := PrintFields(j, fields - {a}), PrintFields(k, others - {b});
    Assoc(PrintText(a), Print(fields[a]) + r, x);
    Assoc(PrintText(b), Print(others[b]) + q, y);
    TextDetermined(a, b, (Print(fields[a]) + r) + x, (Print(others[b]) + q) + y);
    Assoc(Print(fields[a]), r, x);
    Assoc(Print(others[b]), q, y);
    Determined(fields[a], others[b], r + x, q + y);
    FieldsDetermined(j, fields - {a}, k, others - {b}, x, y);
    assert fields == (fields - {a})[a := fields[a]] && others == (others - {b})[b := others[b]];
  }

  // ----- the runtime -----

  ghost function Parse(s: string): Option<Json> {
    if exists j :: Print(j) == s then
      var j :| Print(j) == s;
      Some(j)
    else None
  }

  lemma ParsePrints(j: Json)
    ensures Parse(Print(j)) == Some(j)
  {
    var k :| Parse(Print(j)) == Some(k) && Print(k) == Print(j);
    assert Print(j) + "" == Print(k) + "";
    Determined(j, k, "", "");
  }

  lemma NothingPrintsEmpty()
    ensures Parse("") == None
  {
    forall j ensures Print(j) != "" { TagAndBody(j); }
  }

  ghost function Sample(): Runtime {
    Runtime(Parse, Print, (j: Json) => if j.Num? then Some(j.n) else None, Print, s => s,
            (s: string) => |s| >= 7 && s[..7] == "http://")
  }

  /** The laws can be kept. */
  lemma SampleIsLawful()
    ensures Lawful(Sample())
  {
    forall j { ParsePrints(j); }
    NothingPrintsEmpty();
  }
}

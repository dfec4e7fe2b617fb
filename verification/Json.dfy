/**
 JSON values as the message objects are made of, and the primitives that depend on the JavaScript
 runtime: text of a value, value of a text, numeric and textual coercion.
 */
module Json {
  import opened Options

  /** Objects are finite maps; a key that is absent reads as `undefined`. Numbers are integers. */
  datatype Json =
    | Null
    | Bool(b: bool)
    | Num(n: int)
    | Str(s: string)
    | Arr(items: seq<Json>)
    | Obj(fields: map<string, Json>)

  datatype Result<+T> = Ok(value: T) | Err(reason: Reason) {
    predicate IsFailure() { Err? }
    function PropagateFailure<U>(): Result<U>
      requires Err?
    {
      Err(reason)
    }
    function Extract(): T
      requires Ok?
    {
      value
    }
  }

  datatype Reason = TooDeep | NotForwardable | Unreadable | BadReference | NoVideoUrl | BadMerge

  /** `number` is Number(x): None stands for NaN. `text` is the text of a value in a template string,
      `trim` removes surrounding white space, `isHttp` tests for an http or https address. */
  datatype Runtime = Runtime(parse: string -> Option<Json>, stringify: Json -> string, number: Json -> Option<int>,
                             text: Json -> string, trim: string -> string, isHttp: string -> bool)

  /** What the language promises of them. */
  ghost predicate Lawful(rt: Runtime) {
    && (forall j {:trigger rt.stringify(j)} :: rt.parse(rt.stringify(j)) == Some(j))
    && rt.parse("") == None
    && (forall n {:trigger Num(n)} :: rt.number(Num(n)) == Some(n))
    && (forall s {:trigger rt.trim(s)} :: rt.trim(rt.trim(s)) == rt.trim(s))
    && rt.trim("") == ""
    && rt.trim("image/jpeg") == "image/jpeg"
    && !rt.isHttp("")
  }

  function Get(o: map<string, Json>, key: string): Option<Json> {
    if key in o then Some(o[key]) else None
  }

  /** `a ?? b`: null and undefined fall through. */
  function Coalesce(a: Option<Json>, b: Option<Json>): Option<Json> {
    if a.Some? && a.value != Null then a else b
  }

  function Either(o: map<string, Json>, key: string, alias: string): Option<Json> {
    Coalesce(Get(o, key), Get(o, alias))
  }

  function OrElse(a: Option<Json>, default: Json): Json {
    if a.Some? && a.value != Null then a.value else default
  }

  predicate Truthy(j: Json) {
    match j
    case Null => false
    case Bool(b) => b
    case Num(n) => n != 0
    case Str(s) => s != ""
    case _ => true
  }

  /** Parse a text up to `rounds` times; None when one of the parses throws. */
  function Unwrap(rt: Runtime, j: Json, rounds: nat): Option<Json>
    decreases rounds
  {
    if rounds == 0 || !j.Str? || j.s == "" then Some(j)
    else match rt.parse(j.s)
         case Some(inner) => Unwrap(rt, inner, rounds - 1)
         case None => None
  }

  /** A plain object, given directly or as (possibly nested) JSON text. */
  function AsObject(rt: Runtime, raw: Option<Json>): Option<map<string, Json>> {
    if raw.None? then None
    else match Unwrap(rt, raw.value, 4)
         case Some(Obj(fields)) => Some(fields)
         case _ => None
  }

  lemma AsObjectOfObject(rt: Runtime, o: map<string, Json>)
    ensures AsObject(rt, Some(Obj(o))) == Some(o)
  {
  }

  /** The first key that holds a non-empty string. */
  function StringOf(o: map<string, Json>, keys: seq<string>): string {
    if keys == [] then ""
    else if keys[0] in o && o[keys[0]].Str? && o[keys[0]].s != "" then o[keys[0]].s
    else StringOf(o, keys[1..])
  }

  /** The first key whose value is a finite non-negative number. */
  function NumberOf(rt: Runtime, o: map<string, Json>, keys: seq<string>): nat {
    if keys == [] then 0
    else if keys[0] in o && rt.number(o[keys[0]]).Some? && rt.number(o[keys[0]]).value >= 0
    then rt.number(o[keys[0]]).value
    else NumberOf(rt, o, keys[1..])
  }

  lemma StringOfFirst(o: map<string, Json>, keys: seq<string>)
    requires keys != [] && keys[0] in o && o[keys[0]].Str?
    requires forall k :: 1 <= k < |keys| ==> keys[k] !in o
    ensures StringOf(o, keys) == o[keys[0]].s
  {
    NoString(o, keys[1..]);
  }

  lemma {:induction false} NoString(o: map<string, Json>, keys: seq<string>)
    requires forall k :: 0 <= k < |keys| ==> keys[k] !in o
    ensures StringOf(o, keys) == ""
  {
    if keys != [] { NoString(o, keys[1..]); }
  }

  lemma NumberOfFirst(rt: Runtime, o: map<string, Json>, keys: seq<string>)
    requires Lawful(rt) && keys != [] && keys[0] in o && o[keys[0]].Num? && o[keys[0]].n >= 0
    ensures NumberOf(rt, o, keys) == o[keys[0]].n
  {
  }

  /** The loops of the helper functions. */
  method StringOfLoop(o: map<string, Json>, keys: seq<string>) returns (r: string)
    ensures r == StringOf(o, keys)
  {
    for i := 0 to |keys|
      invariant StringOf(o, keys) == StringOf(o, keys[i..])
    {
      if keys[i] in o && o[keys[i]].Str? && o[keys[i]].s != "" { return o[keys[i]].s; }
    }
    return "";
  }

  method NumberOfLoop(rt: Runtime, o: map<string, Json>, keys: seq<string>) returns (r: nat)
    ensures r == NumberOf(rt, o, keys)
  {
    for i := 0 to |keys|
      invariant NumberOf(rt, o, keys) == NumberOf(rt, o, keys[i..])
    {
      if keys[i] in o {
        var value := rt.number(o[keys[i]]);
        if value.Some? && value.value >= 0 { return value.value; }
      }
    }
    return 0;
  }

  method AsObjectLoop(rt: Runtime, given: Option<Json>) returns (r: Option<map<string, Json>>)
    ensures r == AsObject(rt, given)
  {
    if given.None? { return None; }
    var raw, depth := given.value, 0;
    while raw.Str? && raw.s != "" && depth < 4
      invariant 0 <= depth <= 4
      invariant Unwrap(rt, given.value, 4) == Unwrap(rt, raw, 4 - depth)
    {
      var parsed := rt.parse(raw.s);
      if parsed.None? { return None; }
      raw := parsed.value;
      depth := depth + 1;
    }
    return if raw.Obj? then Some(raw.fields) else None;
  }
}

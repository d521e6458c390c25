/** The values `json.loads` can produce, and the few Python operations the bot
    applies to them: truthiness, `d.get(k, default)`, `x[0]` and `a or b`.
    An operation that would raise in Python (`.get` on a list, `[0]` on an
    empty list) yields `None`. */
module Json {
  import opened Text

  datatype Json =
    | JNull
    | JBool(b: bool)
    | JNum(n: int)
    | JStr(s: string)
    | JArr(items: seq<Json>)
    | JObj(fields: map<string, Json>)

  const EmptyObject: Json := JObj(map[])

  /** Python's `bool(x)` for a decoded JSON value. */
  predicate Truthy(j: Json) {
    match j
    case JNull => false
    case JBool(b) => b
    case JNum(n) => n != 0
    case JStr(s) => s != []
    case JArr(items) => items != []
    case JObj(fields) => fields != map[]
  }

  /** `a or b` */
  function Or(a: Json, b: Json): (r: Json)
    ensures Truthy(a) ==> r == a
    ensures !Truthy(a) ==> r == b
  {
    if Truthy(a) then a else b
  }

  /** `j.get(key, default)`: `None` when `j` is not a dict (AttributeError). */
  function Get(j: Json, key: string, default: Json): (r: Option<Json>)
    ensures r.Some? <==> j.JObj?
    ensures j.JObj? && key in j.fields ==> r == Some(j.fields[key])
    ensures j.JObj? && key !in j.fields ==> r == Some(default)
  {
    match j
    case JObj(fields) => Some(if key in fields then fields[key] else default)
    case _ => None
  }

  /** The message of an exception Python raises on the way is represented by
      the exception's class name. */
  const AttributeErrorText: string := "AttributeError"
  const TypeErrorText: string := "TypeError"
  const IndexErrorText: string := "IndexError"
  const KeyErrorText: string := "KeyError"

  /** `j[0]`: the first item of a list or the first character of a string;
      IndexError on an empty one, KeyError on a dict (its keys are strings)
      and TypeError on anything else. */
  function First(j: Json): (r: Result<Json, string>)
    ensures r.Ok? <==> (j.JArr? || j.JStr?) && Truthy(j)
    ensures j.JArr? && j.items != [] ==> r == Ok(j.items[0])
    ensures j.JStr? && j.s != [] ==> r == Ok(JStr([j.s[0]]))
    ensures (j.JArr? || j.JStr?) && !Truthy(j) ==> r == Err(IndexErrorText)
    ensures j.JObj? ==> r == Err(KeyErrorText)
    ensures (j.JNull? || j.JBool? || j.JNum?) ==> r == Err(TypeErrorText)
  {
    match j
    case JArr(items) => if items == [] then Err(IndexErrorText) else Ok(items[0])
    case JStr(s) => if s == [] then Err(IndexErrorText) else Ok(JStr([s[0]]))
    case JObj(_) => Err(KeyErrorText)
    case _ => Err(TypeErrorText)
  }

  /** `Get` followed by a further step, threading the failure. */
  function GetThen(j: Option<Json>, key: string, default: Json): Option<Json> {
    if j.None? then None else Get(j.value, key, default)
  }

  function FirstThen(j: Option<Json>): Option<Json> {
    if j.None? || First(j.value).Err? then None else Some(First(j.value).value)
  }

  /** `json.dumps` turns the int keys of a Python dict into strings; this is
      that conversion for a count map keyed by the digits 0..9. */
  function DigitKeyed(m: map<int, int>): (r: Json)
    ensures r.JObj?
    ensures forall k :: k in m && 0 <= k <= 9 ==> [DigitChar(k)] in r.fields && r.fields[[DigitChar(k)]] == JNum(m[k])
  {
    JObj(map k | k in m.Keys && 0 <= k <= 9 :: [DigitChar(k)] := JNum(m[k]))
  }

  function IntList(xs: seq<int>): (r: Json)
    ensures r.JArr? && |r.items| == |xs|
    ensures forall i :: 0 <= i < |xs| ==> r.items[i] == JNum(xs[i])
  {
    JArr(seq(|xs|, i requires 0 <= i < |xs| => JNum(xs[i])))
  }

  function OptStr(s: Option<string>): (r: Json)
    ensures s.None? <==> r == JNull
  {
    if s.Some? then JStr(s.value) else JNull
  }
}

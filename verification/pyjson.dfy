/**
 * A webhook payload as the handler sees it after JSON decoding, and the Python
 * operations the handler applies to it: truthiness, `or`, `dict.get` with and
 * without a default, and `str()`.
 */
module PyJson {
  import opened Wrappers
  import opened Text

  /** A decoded JSON value: Python's None, bool, int, str, list and dict. */
  datatype Json =
    | Null
    | Bool(b: bool)
    | Int(i: int)
    | Str(s: string)
    | Arr(items: seq<Json>)
    | Obj(fields: map<string, Json>)

  /** Python truthiness: None, False, 0, "", [] and {} are false, everything else is true. */
  predicate Truthy(v: Json)
    ensures !Truthy(v) <==> v in {Null, Bool(false), Int(0), Str(""), Arr([]), Obj(map[])}
  {
    match v
    case Null => false
    case Bool(b) => b
    case Int(i) => i != 0
    case Str(s) => s != []
    case Arr(items) => items != []
    case Obj(fields) => fields != map[]
  }

  /** Python's `a or b`: the first operand when it is truthy, the second otherwise. */
  function Or(a: Json, b: Json): (r: Json)
    ensures r == a || r == b
    ensures Truthy(a) ==> r == a
    ensures Truthy(r) <==> Truthy(a) || Truthy(b)
  {
    if Truthy(a) then a else b
  }

  /** `d.get(k, default)` on a dict: the member `k` when present, else the default. */
  function GetOr(v: Json, k: string, default: Json): (r: Json)
    requires v.Obj?
    ensures Path(v, [k]) == Some(r) || (Path(v, [k]) == None && r == default)
  {
    assert [k][1..] == [] && Path(v, [k]) == if k in v.fields then Some(v.fields[k]) else None;
    if k in v.fields then v.fields[k] else default
  }

  /** `d.get(k)`: an absent key reads as None, as in a plain member lookup. */
  function Get(v: Json, k: string): (r: Json)
    requires v.Obj?
    ensures r == Field(v, [k])
  {
    assert [k][1..] == [] && Path(v, [k]) == if k in v.fields then Some(v.fields[k]) else None;
    GetOr(v, k, Null)
  }

  /**
   * `d.get(k, {})`: an absent key reads as an empty dict.  It differs from a
   * plain member lookup only there, and the two are equally falsy.
   */
  function Child(v: Json, k: string): (r: Json)
    requires v.Obj?
    ensures r == Field(v, [k]) || (k !in v.fields && r == Obj(map[]))
    ensures Truthy(r) <==> Truthy(Field(v, [k]))
  {
    assert [k][1..] == [] && Path(v, [k]) == if k in v.fields then Some(v.fields[k]) else None;
    GetOr(v, k, Obj(map[]))
  }

  /**
   * The chain `d.get(k1, {}).get(k2, {})...get(kn)` can be evaluated without
   * an AttributeError: `d` is a dict and every intermediate member that is
   * present is a dict too.  A present `null` is not replaced by the default.
   */
  predicate Chainable(v: Json, path: seq<string>)
  {
    v.Obj? && (|path| <= 1 || path[0] !in v.fields || Chainable(v.fields[path[0]], path[1..]))
  }

  /**
   * The value of `d.get(k1, {}).get(k2, {})...get(kn)`: the same as a plain
   * lookup of the member path in which a member missing at any depth reads as
   * None.
   */
  function ChainGet(v: Json, path: seq<string>): (r: Json)
    requires |path| >= 1 && Chainable(v, path)
    ensures r == Field(v, path)
    decreases |path|
  {
    if |path| == 1 then assert path == [path[0]]; Get(v, path[0]) else ChainGet(Child(v, path[0]), path[1..])
  }

  /** Plain lookup of a member path: None as soon as a step is missing or not an object. */
  function Path(v: Json, path: seq<string>): Option<Json>
    decreases |path|
  {
    if path == [] then Some(v)
    else if v.Obj? && path[0] in v.fields then Path(v.fields[path[0]], path[1..])
    else None
  }

  /** The member at `path`, with "missing at any depth" read as None. */
  function Field(v: Json, path: seq<string>): Json
  {
    match Path(v, path)
    case Some(x) => x
    case None => Null
  }

  /** Every chain of `get`s on an empty dict reads None. */
  lemma {:induction false} EmptyChain(path: seq<string>)
    requires |path| >= 1
    ensures Chainable(Obj(map[]), path) && ChainGet(Obj(map[]), path) == Null
    decreases |path|
  {
    if |path| > 1 {
      EmptyChain(path[1..]);
    }
  }

  /** The values whose `str()` is modelled: None, booleans, integers and strings. */
  predicate Printable(v: Json)
  {
    !v.Arr? && !v.Obj?
  }

  /** Python's `str(v)`. */
  function PyStr(v: Json): (s: string)
    requires Printable(v)
    ensures v.Int? ==> IsIntLiteral(s) && ParseInt(s) == v.i
    ensures v.Str? ==> s == v.s
  {
    match v
    case Null => "None"
    case Bool(b) => if b then "True" else "False"
    case Int(i) => IntToStringRoundTrip(i); IntToString(i)
    case Str(s) => s
  }
}

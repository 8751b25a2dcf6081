/**
 * Parsed-JSON values as the Python NFR scripts see them, and the few
 * language operations those scripts rely on: truthiness, `a or b`,
 * `dict.get`, `isinstance(v, (int, float))` and `int(v)` on a number.
 * Floats are modelled as exact reals; infinities and NaN are not modelled.
 */
module PyValues {
  import opened Wrappers

  datatype PyValue =
    | PNone
    | PBool(b: bool)
    | PInt(n: int)
    | PFloat(x: real)
    | PStr(s: string)
    | PList(items: seq<PyValue>)
    | PDict(entries: map<string, PyValue>)

  /** Python truthiness: `None`, `False`, zero and empty containers are falsy. */
  predicate Truthy(v: PyValue) {
    match v
    case PNone => false
    case PBool(b) => b
    case PInt(n) => n != 0
    case PFloat(x) => x != 0.0
    case PStr(s) => |s| > 0
    case PList(items) => |items| > 0
    case PDict(entries) => |entries| > 0
  }

  /** `a or b`. */
  function Or(a: PyValue, b: PyValue): (r: PyValue)
    ensures Truthy(a) ==> r == a
    ensures !Truthy(a) ==> r == b
  {
    if Truthy(a) then a else b
  }

  /** `d.get(key)` on a dict: the stored value, or `None` when the key is absent. */
  function Get(d: map<string, PyValue>, key: string): (r: PyValue)
    ensures key !in d ==> r == PNone
    ensures key in d ==> r == d[key]
  {
    if key in d then d[key] else PNone
  }

  /** `d.get(key, default)`. */
  function GetOr(d: map<string, PyValue>, key: string, default: PyValue): (r: PyValue)
    ensures key !in d ==> r == default
    ensures key in d ==> r == d[key]
  {
    if key in d then d[key] else default
  }

  /**
   * `isinstance(v, (int, float))`. A Python `bool` is an `int`, so booleans
   * count as numbers here.
   */
  predicate IsNumber(v: PyValue) {
    v.PBool? || v.PInt? || v.PFloat?
  }

  /** `int(x)` on a float: truncation toward zero. */
  function Truncate(x: real): (r: int)
    ensures 0.0 <= x ==> r as real <= x < r as real + 1.0
    ensures x < 0.0 ==> r as real - 1.0 < x <= r as real
  {
    if 0.0 <= x then x.Floor else -((-x).Floor)
  }

  /** `int(v)` on a number: `True` is 1, `False` is 0, floats truncate. */
  function IntOf(v: PyValue): (r: int)
    requires IsNumber(v)
    ensures v.PInt? ==> r == v.n
    ensures v.PBool? ==> (r == 1 <==> v.b) && (r == 0 <==> !v.b)
    ensures v.PFloat? ==> r == Truncate(v.x)
  {
    match v
    case PBool(b) => if b then 1 else 0
    case PInt(n) => n
    case PFloat(x) => Truncate(x)
  }

  // ---------------------------------------------------------------------------
  // Key paths
  // ---------------------------------------------------------------------------

  type Path = seq<string>

  /**
   * Following a key path through nested dicts: `None` as soon as a step
   * meets something that is not a dict or lacks the key.
   */
  function Resolve(cur: PyValue, path: Path): (r: Option<PyValue>)
    decreases |path|
  {
    if |path| == 0 then Some(cur)
    else if cur.PDict? && path[0] in cur.entries then Resolve(cur.entries[path[0]], path[1..])
    else None
  }

  /** Resolving a longer path resolves its first step and then the rest. */
  lemma {:induction false} ResolveAppend(cur: PyValue, p: Path, q: Path)
    ensures Resolve(cur, p + q) == (match Resolve(cur, p) case Some(v) => Resolve(v, q) case None => None)
    decreases |p|
  {
    if |p| > 0 {
      assert (p + q)[0] == p[0];
      assert (p + q)[1..] == p[1..] + q;
      if cur.PDict? && p[0] in cur.entries {
        ResolveAppend(cur.entries[p[0]], p[1..], q);
      }
    } else {
      assert p + q == q;
    }
  }

  /** A one-level path into a dict literal. */
  lemma ResolveKey(entries: map<string, PyValue>, key: string)
    ensures Resolve(PDict(entries), [key]) == if key in entries then Some(entries[key]) else None
  {
    if key in entries {
      assert [key][1..] == [];
    }
  }

  /** A two-level path into a dict literal whose first step is a dict literal. */
  lemma ResolveKeys(entries: map<string, PyValue>, outer: string, inner: map<string, PyValue>, key: string)
    requires outer in entries && entries[outer] == PDict(inner)
    ensures Resolve(PDict(entries), [outer, key]) == if key in inner then Some(inner[key]) else None
  {
    assert [outer, key][1..] == [key];
    ResolveKey(inner, key);
  }
}

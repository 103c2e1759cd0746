/** Decoded JSON values as the Python code sees them after `json.loads`:
    truthiness, `or`, `dict.get`, `str()`, iteration and hashability. */
module PyJson {
  import opened Wrappers
  import opened Text

  /** A decoded JSON value. Objects keep their fields in document order. */
  datatype Json =
    | JNull
    | JBool(b: bool)
    | JNum(n: int)
    | JStr(s: string)
    | JArr(items: seq<Json>)
    | JObj(fields: seq<(string, Json)>)

  /** Python truthiness (`if v:`). */
  predicate Truthy(j: Json) {
    match j
    case JNull => false
    case JBool(b) => b
    case JNum(n) => n != 0
    case JStr(s) => s != []
    case JArr(xs) => xs != []
    case JObj(fs) => fs != []
  }

  /** Python's `a or b`: the first operand when truthy, else the second. */
  function Or(a: Json, b: Json): (r: Json)
    ensures Truthy(r) <==> Truthy(a) || Truthy(b)
    ensures Truthy(a) ==> r == a
  {
    if Truthy(a) then a else b
  }

  /** `d.get(key)` on a decoded object: the value of the last field with that key
      (a later duplicate key wins in `json.loads`), or None (`JNull`) when absent. */
  function Get(fields: seq<(string, Json)>, key: string): (r: Json)
    ensures r != JNull ==> exists k :: 0 <= k < |fields| && fields[k] == (key, r)
  {
    if fields == [] then JNull
    else if fields[|fields| - 1].0 == key then fields[|fields| - 1].1
    else Get(fields[..|fields| - 1], key)
  }

  /** `key in d` on a decoded object. */
  predicate HasKey(fields: seq<(string, Json)>, key: string) {
    exists k :: 0 <= k < |fields| && fields[k].0 == key
  }

  /** `d[key]` on a decoded object: the value, or KeyError when the key is absent. */
  function Index(fields: seq<(string, Json)>, key: string): (r: Result<Json>)
    ensures r.Ok? <==> HasKey(fields, key)
    ensures r.Ok? ==> exists k :: 0 <= k < |fields| && fields[k] == (key, r.value)
    ensures r.Ok? ==> r.value == Get(fields, key)
  {
    if fields == [] then Err("KeyError")
    else if fields[|fields| - 1].0 == key then Ok(fields[|fields| - 1].1)
    else
      var r := Index(fields[..|fields| - 1], key);
      assert HasKey(fields, key) ==> HasKey(fields[..|fields| - 1], key) by {
        if HasKey(fields, key) {
          var k :| 0 <= k < |fields| && fields[k].0 == key;
          assert fields[..|fields| - 1][k].0 == key;
        }
      }
      r
  }

  /** `d.get(key, default)` on a decoded object: the value of the key when it is
      present (even a null one), else the default. */
  function GetDefault(fields: seq<(string, Json)>, key: string, default: Json): (r: Json)
    ensures HasKey(fields, key) ==> Index(fields, key) == Ok(r)
    ensures !HasKey(fields, key) ==> r == default
  {
    match Index(fields, key)
    case Ok(v) => v
    case Err(_) => default
  }

  /** `isinstance(v, (list, dict))`: the values `in` on a set cannot hash. */
  predicate Unhashable(j: Json) {
    j.JArr? || j.JObj?
  }

  /** `repr(s)` of a string: single quotes unless the text holds a single quote
      and no double quote. */
  function ReprString(s: string): string {
    if '\'' in s && '"' !in s then "\"" + s + "\"" else "'" + s + "'"
  }

  /** `repr(v)`, as used inside the `str()` of a list or dict. */
  function Repr(j: Json): string
    decreases j, 1
  {
    match j
    case JStr(s) => ReprString(s)
    case _ => PyStr(j)
  }

  /** `str(v)` (and `f"{v}"`). */
  function PyStr(j: Json): string
    decreases j, 0
  {
    match j
    case JNull => "None"
    case JBool(b) => if b then "True" else "False"
    case JNum(n) => IntToString(n)
    case JStr(s) => s
    case JArr(xs) =>
      "[" + Join(", ", seq(|xs|, i requires 0 <= i < |xs| => Repr(xs[i]))) + "]"
    case JObj(fs) =>
      "{" + Join(", ", seq(|fs|, i requires 0 <= i < |fs| =>
        ReprString(fs[i].0) + ": " + Repr(fs[i].1))) + "}"
  }

  /** `for x in v`: the elements a Python loop visits, or None when `v` is not
      iterable (None, a bool or a number raises TypeError). A dict yields its keys,
      a string its characters. */
  function Iterate(j: Json): (r: Option<seq<Json>>)
    ensures r.Some? ==> (Truthy(j) <==> r.value != [])
  {
    match j
    case JArr(xs) => Some(xs)
    case JObj(fs) => Some(seq(|fs|, i requires 0 <= i < |fs| => JStr(fs[i].0)))
    case JStr(s) => Some(seq(|s|, i requires 0 <= i < |s| => JStr([s[i]])))
    case _ => None
  }

  /** The objects a loop `for d in v: d.get(...)` reads, or an error when Python
      raises: `v` is not iterable, or one of its elements has no `.get` (it is not
      a dict). */
  function DictElements(j: Json): (r: Result<seq<seq<(string, Json)>>>)
    ensures r.Ok? ==> Iterate(j).Some? && |r.value| == |Iterate(j).value|
    ensures r.Ok? ==> forall i :: 0 <= i < |r.value| ==> Iterate(j).value[i] == JObj(r.value[i])
  {
    match Iterate(j)
    case None => Err("TypeError")
    case Some(xs) =>
      if forall i :: 0 <= i < |xs| ==> xs[i].JObj? then
        Ok(seq(|xs|, i requires 0 <= i < |xs| => xs[i].fields))
      else Err("AttributeError")
  }

  /** A list iterates to its own elements; only a list of objects is readable. */
  lemma DictElementsOfList(xs: seq<Json>)
    ensures DictElements(JArr(xs)).Ok? <==> forall i :: 0 <= i < |xs| ==> xs[i].JObj?
  {
  }

  /** A non-empty dict or string, or any scalar, cannot be read as details. */
  lemma DictElementsRejects(j: Json)
    requires !j.JArr? && Truthy(j)
    ensures DictElements(j).Err?
  {
    match j
    case JObj(fs) => assert Iterate(j).value[0] == JStr(fs[0].0);
    case JStr(s) => assert Iterate(j).value[0] == JStr([s[0]]);
    case _ =>
  }
}

/**
 The parsed JSON tree that both filters walk, and Python's truth test on it.

 An object is a sequence of (key, value) entries. The parser that produces the
 tree yields objects whose keys are unique (WellFormed); the order of entries
 carries no meaning (Python 2 dictionaries are unordered).
 */
module JsonValue {

  datatype Option<T> = None | Some(value: T)

  datatype Json =
    | Obj(fields: seq<(string, Json)>)
    | Arr(items: seq<Json>)
    | Str(str: string)
    | Num(num: int)
    | Bool(b: bool)
    | Null

  /** A value that is neither an object nor an array. */
  predicate IsLeaf(v: Json)
  {
    !v.Obj? && !v.Arr?
  }

  /** `not bool(v)` in Python: an empty container, "", 0, False or None. */
  predicate Falsy(v: Json)
    ensures Falsy(v) <==> v in {Obj([]), Arr([]), Str(""), Num(0), Bool(false), Null}
  {
    match v
    case Obj(fs) => fs == []
    case Arr(xs) => xs == []
    case Str(s) => s == []
    case Num(n) => n == 0
    case Bool(b) => !b
    case Null => true
  }

  /** The keys of an object's entries. */
  function KeySet(fs: seq<(string, Json)>): set<string>
  {
    if fs == [] then {} else KeySet(fs[..|fs| - 1]) + {fs[|fs| - 1].0}
  }

  /** No key occurs twice among the entries. */
  predicate DistinctKeys(fs: seq<(string, Json)>)
  {
    fs == [] || (DistinctKeys(fs[..|fs| - 1]) && fs[|fs| - 1].0 !in KeySet(fs[..|fs| - 1]))
  }

  /** Every object in the tree has distinct keys, as a parsed document does. */
  predicate WellFormed(v: Json)
  {
    match v
    case Obj(fs) => DistinctKeys(fs) && forall i :: 0 <= i < |fs| ==> WellFormed(fs[i].1)
    case Arr(xs) => forall i :: 0 <= i < |xs| ==> WellFormed(xs[i])
    case _ => true
  }

  /** `d.get(k)`: the value stored under k; the entry written last wins, as a
      dictionary assignment would leave it. */
  function Get(fs: seq<(string, Json)>, k: string): (r: Option<Json>)
    ensures r.None? <==> k !in KeySet(fs)
    ensures r.Some? ==> (k, r.value) in fs
  {
    if fs == [] then None
    else if fs[|fs| - 1].0 == k then Some(fs[|fs| - 1].1)
    else Get(fs[..|fs| - 1], k)
  }
}

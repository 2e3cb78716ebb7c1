/**
 The value-substring filter, `dict_value_filter` (jsontool.py:159-197), and the
 loop over an object's entries that both it and `json_tool.filter_values` run.

 Objects are filtered entry by entry. In an array only the elements that are
 objects are examined, each under the array's own key, and the last truthy
 result replaces every earlier one, so an array yields an object. A leaf is
 kept when the pattern occurs in its Python 2 text, and otherwise replaced by
 the empty object.
 */
module ValueFilter {
  import opened JsonValue
  import opened Text

  /** `dict_value_filter(key, data, dfilter)`. */
  function DictValueFilter(key: string, data: Json, pattern: string): (r: Json)
    ensures !IsLeaf(data) ==> r.Obj?
    ensures IsLeaf(data) ==> r == data || r == Obj([])
    decreases data, 1
  {
    match data
    case Obj(fs) => Obj(ValueFilterPrefix(fs, |fs|, pattern))
    case Arr(xs) => ArrayScan(key, xs, |xs|, pattern)
    case _ => if Substring(pattern, Unicode(data)) then data else Obj([])
  }

  /** The entries the loop over `fs[..n]` builds: every key whose
      DictValueFilter result is truthy, paired with that result. */
  function ValueFilterPrefix(fs: seq<(string, Json)>, n: nat, pattern: string): (r: seq<(string, Json)>)
    requires n <= |fs|
    ensures |r| <= n
    decreases Obj(fs), 0, n
  {
    if n == 0 then []
    else
      var r := DictValueFilter(fs[n - 1].0, fs[n - 1].1, pattern);
      if Falsy(r) then ValueFilterPrefix(fs, n - 1, pattern)
      else ValueFilterPrefix(fs, n - 1, pattern) + [(fs[n - 1].0, r)]
  }

  /** The result of the loop over `xs[..n]` in the array branch: starts as
      the empty object and is replaced by each truthy result of an object
      element, filtered under the array's key. */
  function ArrayScan(key: string, xs: seq<Json>, n: nat, pattern: string): (r: Json)
    requires n <= |xs|
    ensures r.Obj?
    ensures r == Obj([]) || !Falsy(r)
    decreases Arr(xs), 0, n
  {
    if n == 0 then Obj([])
    else
      var prev := ArrayScan(key, xs, n - 1, pattern);
      if xs[n - 1].Obj? then
        var r := DictValueFilter(key, xs[n - 1], pattern);
        if Falsy(r) then prev else r
      else prev
  }

  /** The loop over a whole object (jsontool.py:91-96 and 175-179). */
  function ValueFilterFields(fs: seq<(string, Json)>, pattern: string): (r: seq<(string, Json)>)
    ensures |r| <= |fs|
    ensures forall i :: 0 <= i < |r| ==> !Falsy(r[i].1)
  {
    ValueFilterPrefixShape(fs, |fs|, pattern);
    ValueFilterPrefix(fs, |fs|, pattern)
  }

  /** What the loop leaves under k: the filtered value of k's entry, if truthy. */
  function ValueFilterAt(fs: seq<(string, Json)>, k: string, pattern: string): Option<Json>
  {
    match Get(fs, k)
    case None => None
    case Some(v) =>
      var r := DictValueFilter(k, v, pattern);
      if Falsy(r) then None else Some(r)
  }

  /** An array element that replaces the running result: an object whose
      filtered value is truthy. */
  predicate Hit(key: string, x: Json, pattern: string)
  {
    x.Obj? && !Falsy(DictValueFilter(key, x, pattern))
  }

  // ---------------------------------------------------------------------------
  // The key argument

  /** The key argument never affects the result: it is only passed down to
      array elements, where it is ignored again. */
  lemma {:induction false} KeyIrrelevant(k1: string, k2: string, data: Json, pattern: string)
    ensures DictValueFilter(k1, data, pattern) == DictValueFilter(k2, data, pattern)
    decreases data, 1
  {
    if data.Arr? {
      ArrayScanKeyIrrelevant(k1, k2, data.items, |data.items|, pattern);
    }
  }

  lemma {:induction false} ArrayScanKeyIrrelevant(k1: string, k2: string, xs: seq<Json>, n: nat, pattern: string)
    requires n <= |xs|
    ensures ArrayScan(k1, xs, n, pattern) == ArrayScan(k2, xs, n, pattern)
    decreases Arr(xs), 0, n
  {
    if n > 0 {
      ArrayScanKeyIrrelevant(k1, k2, xs, n - 1, pattern);
      KeyIrrelevant(k1, k2, xs[n - 1], pattern);
    }
  }

  // ---------------------------------------------------------------------------
  // Arrays: the last hit wins

  /** The array result is the filtered value of the last hit ... */
  lemma {:induction false} ArrayScanLastHit(key: string, xs: seq<Json>, n: nat, pattern: string, i: int)
    requires 0 <= i < n <= |xs|
    requires Hit(key, xs[i], pattern)
    requires forall j :: i < j < n ==> !Hit(key, xs[j], pattern)
    ensures ArrayScan(key, xs, n, pattern) == DictValueFilter(key, xs[i], pattern)
  {
    if i < n - 1 {
      assert !Hit(key, xs[n - 1], pattern);
      ArrayScanLastHit(key, xs, n - 1, pattern, i);
    }
  }

  /** ... and the empty object when no element is a hit. */
  lemma {:induction false} ArrayScanNoHit(key: string, xs: seq<Json>, n: nat, pattern: string)
    requires n <= |xs|
    requires forall j :: 0 <= j < n ==> !Hit(key, xs[j], pattern)
    ensures ArrayScan(key, xs, n, pattern) == Obj([])
  {
    if n > 0 {
      assert !Hit(key, xs[n - 1], pattern);
      ArrayScanNoHit(key, xs, n - 1, pattern);
    }
  }

  /** Filtering an array yields the filtered value of its last hit, earlier
      hits being discarded, or the empty object when there is none; elements
      that are not objects are never hits. */
  lemma LastHitWins(key: string, xs: seq<Json>, pattern: string)
    ensures (forall j :: 0 <= j < |xs| ==> !Hit(key, xs[j], pattern)) ==>
              DictValueFilter(key, Arr(xs), pattern) == Obj([])
    ensures forall i :: 0 <= i < |xs| && Hit(key, xs[i], pattern) && (forall j :: i < j < |xs| ==> !Hit(key, xs[j], pattern)) ==>
              DictValueFilter(key, Arr(xs), pattern) == DictValueFilter(key, xs[i], pattern)
  {
    if forall j :: 0 <= j < |xs| ==> !Hit(key, xs[j], pattern) {
      ArrayScanNoHit(key, xs, |xs|, pattern);
    }
    forall i | 0 <= i < |xs| && Hit(key, xs[i], pattern) && (forall j :: i < j < |xs| ==> !Hit(key, xs[j], pattern))
      ensures DictValueFilter(key, Arr(xs), pattern) == DictValueFilter(key, xs[i], pattern)
    {
      ArrayScanLastHit(key, xs, |xs|, pattern, i);
    }
  }

  /** Objects and arrays filter to objects, never to arrays; a leaf filters to
      itself when the pattern occurs in its text and to {} otherwise. */
  lemma ResultShape(key: string, data: Json, pattern: string)
    ensures !IsLeaf(data) ==> DictValueFilter(key, data, pattern).Obj?
    ensures IsLeaf(data) ==>
              DictValueFilter(key, data, pattern) == (if Substring(pattern, Unicode(data)) then data else Obj([]))
    ensures !DictValueFilter(key, data, pattern).Arr?
  {
  }

  // ---------------------------------------------------------------------------
  // The loop over an object's entries

  /** The loop keeps only keys of its input, each at most once when the input's
      keys are distinct, and only truthy values. */
  lemma {:induction false} ValueFilterPrefixShape(fs: seq<(string, Json)>, n: nat, pattern: string)
    requires n <= |fs|
    ensures KeySet(ValueFilterPrefix(fs, n, pattern)) <= KeySet(fs[..n])
    ensures DistinctKeys(fs[..n]) ==> DistinctKeys(ValueFilterPrefix(fs, n, pattern))
    ensures forall i :: 0 <= i < |ValueFilterPrefix(fs, n, pattern)| ==> !Falsy(ValueFilterPrefix(fs, n, pattern)[i].1)
  {
    if n > 0 {
      ValueFilterPrefixShape(fs, n - 1, pattern);
      assert fs[..n][..n - 1] == fs[..n - 1];
    }
  }

  lemma ValueFilterFieldsShape(fs: seq<(string, Json)>, pattern: string)
    ensures KeySet(ValueFilterFields(fs, pattern)) <= KeySet(fs)
    ensures DistinctKeys(fs) ==> DistinctKeys(ValueFilterFields(fs, pattern))
    ensures forall i :: 0 <= i < |ValueFilterFields(fs, pattern)| ==> !Falsy(ValueFilterFields(fs, pattern)[i].1)
  {
    ValueFilterPrefixShape(fs, |fs|, pattern);
    assert fs[..|fs|] == fs;
  }

  lemma {:induction false} ValueFilterPrefixGet(fs: seq<(string, Json)>, n: nat, pattern: string, k: string)
    requires n <= |fs|
    requires DistinctKeys(fs[..n])
    ensures Get(ValueFilterPrefix(fs, n, pattern), k) == ValueFilterAt(fs[..n], k, pattern)
  {
    if n > 0 {
      var init := fs[..n][..n - 1];
      assert init == fs[..n - 1];
      var prev := ValueFilterPrefix(fs, n - 1, pattern);
      var r := DictValueFilter(fs[n - 1].0, fs[n - 1].1, pattern);
      ValueFilterPrefixGet(fs, n - 1, pattern, k);
      ValueFilterPrefixShape(fs, n - 1, pattern);
      if k == fs[n - 1].0 {
        assert Get(fs[..n], k) == Some(fs[n - 1].1);
        if Falsy(r) {
          assert k !in KeySet(prev);
        }
      } else {
        assert Get(fs[..n], k) == Get(init, k);
      }
    }
  }

  /** Under each key the filtered object holds exactly the truthy filtered
      value of that key's entry, and nothing for any other key. */
  lemma ValueFilterFieldsGet(fs: seq<(string, Json)>, pattern: string, k: string)
    requires DistinctKeys(fs)
    ensures Get(ValueFilterFields(fs, pattern), k) == ValueFilterAt(fs, k, pattern)
  {
    assert fs[..|fs|] == fs;
    ValueFilterPrefixGet(fs, |fs|, pattern, k);
  }

  /** A leaf entry survives exactly when the pattern occurs in its text and the
      leaf is truthy: a matching 0, "" or False is still dropped. */
  lemma LeafEntry(fs: seq<(string, Json)>, pattern: string, k: string, v: Json)
    requires DistinctKeys(fs) && Get(fs, k) == Some(v) && IsLeaf(v)
    ensures Get(ValueFilterFields(fs, pattern), k) ==
              (if Substring(pattern, Unicode(v)) && !Falsy(v) then Some(v) else None)
  {
    ValueFilterFieldsGet(fs, pattern, k);
  }

  // ---------------------------------------------------------------------------
  // Well-formedness

  /** Filtering a well-formed tree yields a well-formed tree. */
  lemma {:induction false} ValueFilterWellFormed(key: string, data: Json, pattern: string)
    requires WellFormed(data)
    ensures WellFormed(DictValueFilter(key, data, pattern))
    decreases data, 1
  {
    match data
    case Obj(fs) =>
      assert fs[..|fs|] == fs;
      ValueFilterPrefixWellFormed(fs, |fs|, pattern);
    case Arr(xs) =>
      ArrayScanWellFormed(key, xs, |xs|, pattern);
    case _ =>
  }

  lemma {:induction false} ValueFilterPrefixWellFormed(fs: seq<(string, Json)>, n: nat, pattern: string)
    requires n <= |fs|
    requires DistinctKeys(fs[..n])
    requires forall i :: 0 <= i < |fs| ==> WellFormed(fs[i].1)
    ensures DistinctKeys(ValueFilterPrefix(fs, n, pattern))
    ensures forall i :: 0 <= i < |ValueFilterPrefix(fs, n, pattern)| ==> WellFormed(ValueFilterPrefix(fs, n, pattern)[i].1)
    decreases Obj(fs), 0, n
  {
    if n > 0 {
      assert fs[..n][..n - 1] == fs[..n - 1];
      ValueFilterPrefixShape(fs, n - 1, pattern);
      ValueFilterPrefixWellFormed(fs, n - 1, pattern);
      ValueFilterWellFormed(fs[n - 1].0, fs[n - 1].1, pattern);
      var prev := ValueFilterPrefix(fs, n - 1, pattern);
      var r := DictValueFilter(fs[n - 1].0, fs[n - 1].1, pattern);
      if !Falsy(r) {
        var out := prev + [(fs[n - 1].0, r)];
        assert ValueFilterPrefix(fs, n, pattern) == out;
        assert out[..|out| - 1] == prev;
        assert fs[n - 1].0 !in KeySet(prev);
        assert DistinctKeys(out);
        assert forall i :: 0 <= i < |out| ==> WellFormed(out[i].1) by {
          forall i | 0 <= i < |out| ensures WellFormed(out[i].1) {
            if i < |prev| { assert out[i] == prev[i]; }
          }
        }
      }
    }
  }

  lemma {:induction false} ArrayScanWellFormed(key: string, xs: seq<Json>, n: nat, pattern: string)
    requires n <= |xs|
    requires forall i :: 0 <= i < |xs| ==> WellFormed(xs[i])
    ensures WellFormed(ArrayScan(key, xs, n, pattern))
    decreases Arr(xs), 0, n
  {
    if n > 0 {
      ArrayScanWellFormed(key, xs, n - 1, pattern);
      ValueFilterWellFormed(key, xs[n - 1], pattern);
    }
  }
}

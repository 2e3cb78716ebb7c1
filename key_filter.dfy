/**
 The key-path filter, `dict_key_filter` (jsontool.py:112-157), and the loop
 over an object's entries that both it and `json_tool.filter_keys` run.

 A pattern is a sequence of tokens, one per nesting level. A token matches a
 key when it is a substring of the key; "*" becomes "", which matches every
 key. On a match the filter either descends into an object with the remaining
 tokens, or accepts the entry wholesale by returning the one-entry object
 {key: data}; the caller then stores that object under key once more.
 */
module KeyFilter {
  import opened JsonValue
  import opened Text

  /** The token the filter compares: "*" is rewritten to the empty string. */
  function Token(t: string): (r: string)
    ensures r == "" <==> t == "*" || t == ""
    ensures r != "" ==> r == t
  {
    if t == "*" then "" else t
  }

  /** `dict_key_filter(key, data, filters)`. */
  function DictKeyFilter(key: string, data: Json, filters: seq<string>): (r: Json)
    ensures filters != [] ==> r.Obj?
    ensures filters != [] && !Falsy(r) ==> Substring(Token(filters[0]), key)
    decreases data, 1
  {
    if filters == [] then data
    else if !Substring(Token(filters[0]), key) then Obj([])
    else if data.Obj? && filters[1..] != [] then Obj(KeyFilterPrefix(data.fields, |data.fields|, filters[1..]))
    else Obj([(key, data)])
  }

  /** The entries the loop over `fs[..n]` builds: every key whose
      DictKeyFilter result is truthy, paired with that result. */
  function KeyFilterPrefix(fs: seq<(string, Json)>, n: nat, filters: seq<string>): (r: seq<(string, Json)>)
    requires n <= |fs|
    ensures |r| <= n
    decreases Obj(fs), 0, n
  {
    if n == 0 then []
    else
      var r := DictKeyFilter(fs[n - 1].0, fs[n - 1].1, filters);
      if Falsy(r) then KeyFilterPrefix(fs, n - 1, filters)
      else KeyFilterPrefix(fs, n - 1, filters) + [(fs[n - 1].0, r)]
  }

  /** The loop over a whole object (jsontool.py:75-79 and 146-152). */
  function KeyFilterFields(fs: seq<(string, Json)>, filters: seq<string>): (r: seq<(string, Json)>)
    ensures |r| <= |fs|
    ensures forall i :: 0 <= i < |r| ==> !Falsy(r[i].1)
  {
    KeyFilterPrefixShape(fs, |fs|, filters);
    KeyFilterPrefix(fs, |fs|, filters)
  }

  /** What the loop leaves under k: the filtered value of k's entry, if truthy. */
  function KeyFilterAt(fs: seq<(string, Json)>, k: string, filters: seq<string>): Option<Json>
  {
    match Get(fs, k)
    case None => None
    case Some(v) =>
      var r := DictKeyFilter(k, v, filters);
      if Falsy(r) then None else Some(r)
  }

  // ---------------------------------------------------------------------------
  // The four cases of one call

  /** With no tokens left the value passes through unchanged. */
  lemma NoTokensPassThrough(key: string, data: Json)
    ensures DictKeyFilter(key, data, []) == data
  {
  }

  /** A key that does not contain the first token yields the empty object,
      which every caller drops as falsy. */
  lemma MissYieldsEmpty(key: string, data: Json, filters: seq<string>)
    requires filters != [] && !Substring(Token(filters[0]), key)
    ensures DictKeyFilter(key, data, filters) == Obj([])
    ensures Falsy(DictKeyFilter(key, data, filters))
  {
  }

  /** A "*" token matches every key. */
  lemma WildcardMatches(key: string)
    ensures Substring(Token("*"), key)
  {
    EmptySubstring(key);
  }

  /** A matching key whose value is not an object, or that consumes the last
      token, is accepted wholesale as the one-entry object {key: data} — a
      truthy value even when data itself is falsy. */
  lemma AcceptWholesale(key: string, data: Json, filters: seq<string>)
    requires filters != [] && Substring(Token(filters[0]), key)
    requires !data.Obj? || |filters| == 1
    ensures DictKeyFilter(key, data, filters) == Obj([(key, data)])
    ensures !Falsy(DictKeyFilter(key, data, filters))
  {
  }

  /** A matching key whose value is an object, with tokens left, is replaced
      by the object of its entries filtered with the remaining tokens: one
      token is consumed per level, only keys of data survive, and exactly
      those whose filtered value is truthy. */
  lemma Descend(key: string, data: Json, filters: seq<string>, k: string)
    requires |filters| > 1 && Substring(Token(filters[0]), key)
    requires data.Obj? && DistinctKeys(data.fields)
    ensures DictKeyFilter(key, data, filters).Obj?
    ensures KeySet(DictKeyFilter(key, data, filters).fields) <= KeySet(data.fields)
    ensures Get(DictKeyFilter(key, data, filters).fields, k) == KeyFilterAt(data.fields, k, filters[1..])
  {
    KeyFilterFieldsGet(data.fields, filters[1..], k);
    KeyFilterFieldsShape(data.fields, filters[1..]);
  }

  /** With tokens to apply the result is always an object, never a bare leaf. */
  lemma AlwaysObject(key: string, data: Json, filters: seq<string>)
    requires filters != []
    ensures DictKeyFilter(key, data, filters).Obj?
  {
  }

  // ---------------------------------------------------------------------------
  // The loop over an object's entries

  /** The loop keeps only keys of its input, keeps each at most once when the
      input's keys are distinct, and keeps only truthy values. */
  lemma {:induction false} KeyFilterPrefixShape(fs: seq<(string, Json)>, n: nat, filters: seq<string>)
    requires n <= |fs|
    ensures KeySet(KeyFilterPrefix(fs, n, filters)) <= KeySet(fs[..n])
    ensures DistinctKeys(fs[..n]) ==> DistinctKeys(KeyFilterPrefix(fs, n, filters))
    ensures forall i :: 0 <= i < |KeyFilterPrefix(fs, n, filters)| ==> !Falsy(KeyFilterPrefix(fs, n, filters)[i].1)
  {
    if n > 0 {
      KeyFilterPrefixShape(fs, n - 1, filters);
      assert fs[..n][..n - 1] == fs[..n - 1];
    }
  }

  lemma KeyFilterFieldsShape(fs: seq<(string, Json)>, filters: seq<string>)
    ensures KeySet(KeyFilterFields(fs, filters)) <= KeySet(fs)
    ensures DistinctKeys(fs) ==> DistinctKeys(KeyFilterFields(fs, filters))
    ensures forall i :: 0 <= i < |KeyFilterFields(fs, filters)| ==> !Falsy(KeyFilterFields(fs, filters)[i].1)
  {
    KeyFilterPrefixShape(fs, |fs|, filters);
    assert fs[..|fs|] == fs;
  }

  lemma {:induction false} KeyFilterPrefixGet(fs: seq<(string, Json)>, n: nat, filters: seq<string>, k: string)
    requires n <= |fs|
    requires DistinctKeys(fs[..n])
    ensures Get(KeyFilterPrefix(fs, n, filters), k) == KeyFilterAt(fs[..n], k, filters)
  {
    if n > 0 {
      var init := fs[..n][..n - 1];
      assert init == fs[..n - 1];
      var prev := KeyFilterPrefix(fs, n - 1, filters);
      var r := DictKeyFilter(fs[n - 1].0, fs[n - 1].1, filters);
      KeyFilterPrefixGet(fs, n - 1, filters, k);
      KeyFilterPrefixShape(fs, n - 1, filters);
      if k == fs[n - 1].0 {
        assert Get(fs[..n], k) == Some(fs[n - 1].1);
        if Falsy(r) {
          assert k !in KeySet(prev);
        }
      } else {
        assert Get(fs[..n], k) == Get(init, k);
      }
    }
  }

  /** Under each key the filtered object holds exactly the truthy filtered
      value of that key's entry, and nothing for any other key. */
  lemma KeyFilterFieldsGet(fs: seq<(string, Json)>, filters: seq<string>, k: string)
    requires DistinctKeys(fs)
    ensures Get(KeyFilterFields(fs, filters), k) == KeyFilterAt(fs, k, filters)
  {
    assert fs[..|fs|] == fs;
    KeyFilterPrefixGet(fs, |fs|, filters, k);
  }

  /** A key that survives the loop contains the loop's first token. */
  lemma {:induction false} KeptKeysMatch(fs: seq<(string, Json)>, n: nat, filters: seq<string>, k: string)
    requires n <= |fs| && filters != []
    requires k in KeySet(KeyFilterPrefix(fs, n, filters))
    ensures Substring(Token(filters[0]), k)
  {
    var r := DictKeyFilter(fs[n - 1].0, fs[n - 1].1, filters);
    if !Falsy(r) && k == fs[n - 1].0 {
      assert Substring(Token(filters[0]), fs[n - 1].0);
    } else {
      KeptKeysMatch(fs, n - 1, filters, k);
    }
  }

  /** The quirk of the last level: a matched leaf ends up nested under its own
      key twice. Filtering {k: v} with one matching token stores {k: v} under k. */
  lemma NestedTwice(fs: seq<(string, Json)>, t: string, k: string, v: Json)
    requires DistinctKeys(fs) && Get(fs, k) == Some(v)
    requires Substring(Token(t), k)
    ensures Get(KeyFilterFields(fs, [t]), k) == Some(Obj([(k, v)]))
  {
    KeyFilterFieldsGet(fs, [t], k);
    AcceptWholesale(k, v, [t]);
  }

  // ---------------------------------------------------------------------------
  // Well-formedness

  /** Filtering a well-formed tree yields a well-formed tree. */
  lemma {:induction false} KeyFilterWellFormed(key: string, data: Json, filters: seq<string>)
    requires WellFormed(data)
    ensures WellFormed(DictKeyFilter(key, data, filters))
    decreases data, 1
  {
    if filters != [] && Substring(Token(filters[0]), key) {
      if data.Obj? && filters[1..] != [] {
        assert data.fields[..|data.fields|] == data.fields;
        KeyFilterPrefixWellFormed(data.fields, |data.fields|, filters[1..]);
      } else {
        var r := Obj([(key, data)]);
        assert r.fields[..0] == [];
        assert WellFormed(r.fields[0].1);
      }
    }
  }

  lemma {:induction false} KeyFilterPrefixWellFormed(fs: seq<(string, Json)>, n: nat, filters: seq<string>)
    requires n <= |fs|
    requires DistinctKeys(fs[..n])
    requires forall i :: 0 <= i < |fs| ==> WellFormed(fs[i].1)
    ensures DistinctKeys(KeyFilterPrefix(fs, n, filters))
    ensures forall i :: 0 <= i < |KeyFilterPrefix(fs, n, filters)| ==> WellFormed(KeyFilterPrefix(fs, n, filters)[i].1)
    decreases Obj(fs), 0, n
  {
    KeyFilterPrefixShape(fs, n, filters);
    if n > 0 {
      assert fs[..n][..n - 1] == fs[..n - 1];
      KeyFilterPrefixWellFormed(fs, n - 1, filters);
      KeyFilterWellFormed(fs[n - 1].0, fs[n - 1].1, filters);
      var prev := KeyFilterPrefix(fs, n - 1, filters);
      var r := DictKeyFilter(fs[n - 1].0, fs[n - 1].1, filters);
      if !Falsy(r) {
        var out := prev + [(fs[n - 1].0, r)];
        assert out[..|out| - 1] == prev;
        assert forall i :: 0 <= i < |out| ==> WellFormed(out[i].1) by {
          forall i | 0 <= i < |out| ensures WellFormed(out[i].1) {
            if i < |prev| { assert out[i] == prev[i]; }
          }
        }
      }
    }
  }
}

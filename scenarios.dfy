/**
 Worked documents run through the pipeline, as the code behaves on them.
 */
module Scenarios {
  import opened JsonValue
  import opened Text
  import opened KeyFilter
  import opened ValueFilter
  import opened Tool

  /** Key matching is by substring: "od" selects "mode" but not "other", and
      the kept leaf is nested under its key twice:
      {"mode": 1, "other": 2} becomes {"mode": {"mode": 1}}. */
  lemma KeySubstring()
    ensures Pipeline(Obj([("mode", Num(1)), ("other", Num(2))]), "od", "")
         == Obj([("mode", Obj([("mode", Num(1))]))])
  {
    assert Split("od") == ["od"] by { SplitNoDot("od"); }
    assert Substring("od", "mode") by { SubstringSplit("od", "m", "e"); }
    assert !Substring("od", "other");
  }

  /** A falsy leaf under a matching key is still kept, because the filter
      returns the truthy one-entry object around it:
      {"a": 0, "b": 1} with "*" becomes {"a": {"a": 0}, "b": {"b": 1}}. */
  lemma FalsyLeafWrapped()
    ensures Pipeline(Obj([("a", Num(0)), ("b", Num(1))]), "*", "")
         == Obj([("a", Obj([("a", Num(0))])), ("b", Obj([("b", Num(1))]))])
  {
    var fs := [("a", Num(0)), ("b", Num(1))];
    assert Split("*") == ["*"] by { SplitNoDot("*"); }
    AcceptWholesale("a", Num(0), ["*"]) by { EmptySubstring("a"); }
    AcceptWholesale("b", Num(1), ["*"]) by { EmptySubstring("b"); }
    assert KeyFilterPrefix(fs, 1, ["*"]) == [("a", Obj([("a", Num(0))]))];
    assert KeyFilterPrefix(fs, 2, ["*"]) == [("a", Obj([("a", Num(0))])), ("b", Obj([("b", Num(1))]))];
  }

  /** Two levels: {"a": {"b": 1}} with "*.b" becomes {"a": {"b": {"b": 1}}}. */
  lemma TwoLevelsMatch()
    ensures Pipeline(Obj([("a", Obj([("b", Num(1))]))]), "*.b", "")
         == Obj([("a", Obj([("b", Obj([("b", Num(1))]))]))])
  {
    var inner := [("b", Num(1))];
    var fs := [("a", Obj(inner))];
    SplitNoDot("*");
    SplitAfterDot("*", "b");
    assert "*" + "." + "b" == "*.b";
    EmptySubstring("a");
    AcceptWholesale("b", Num(1), ["b"]) by { SubstringSplit("b", "", ""); }
    assert KeyFilterPrefix(inner, 1, ["b"]) == [("b", Obj([("b", Num(1))]))];
    assert DictKeyFilter("a", Obj(inner), ["*", "b"]) == Obj([("b", Obj([("b", Num(1))]))]);
    assert KeyFilterPrefix(fs, 1, ["*", "b"]) == [("a", Obj([("b", Obj([("b", Num(1))]))]))];
  }

  /** With "*.z" nothing survives: "b" misses "z", so "a" is left empty. */
  lemma TwoLevelsMiss()
    ensures Pipeline(Obj([("a", Obj([("b", Num(1))]))]), "*.z", "") == Obj([])
  {
    var inner := [("b", Num(1))];
    var fs := [("a", Obj(inner))];
    SplitNoDot("*");
    SplitAfterDot("*", "z");
    assert "*" + "." + "z" == "*.z";
    EmptySubstring("a");
    MissYieldsEmpty("b", Num(1), ["z"]) by { AbsentFirstChar("z", "b"); }
    assert KeyFilterPrefix(inner, 1, ["z"]) == [];
    assert DictKeyFilter("a", Obj(inner), ["*", "z"]) == Obj([]);
    assert KeyFilterPrefix(fs, 1, ["*", "z"]) == [];
  }

  /** Value matching on a leaf: {"x": "hello world"} survives "world". */
  lemma ValueOnLeafMatch()
    ensures Pipeline(Obj([("x", Str("hello world"))]), "", "world") == Obj([("x", Str("hello world"))])
  {
    var fs := [("x", Str("hello world"))];
    assert Substring("world", "hello world") by { SubstringSplit("world", "hello ", ""); }
    assert DictValueFilter("x", Str("hello world"), "world") == Str("hello world");
    assert ValueFilterPrefix(fs, 1, "world") == fs;
  }

  /** ... and vanishes under "zzz". */
  lemma ValueOnLeafMiss()
    ensures Pipeline(Obj([("x", Str("hello world"))]), "", "zzz") == Obj([])
  {
    var fs := [("x", Str("hello world"))];
    AbsentFirstChar("zzz", "hello world");
    assert DictValueFilter("x", Str("hello world"), "zzz") == Obj([]);
    assert ValueFilterPrefix(fs, 1, "zzz") == [];
  }

  /** In an array only objects are searched, and the last matching one wins:
      {"x": [{"v": "a match"}, 7, {"v": "yes match"}, "match"]} with "match"
      becomes {"x": {"v": "yes match"}}; the trailing "match" text matches
      the pattern but is not an object, so it is passed over. */
  lemma ArrayLastMatch()
    ensures Pipeline(Obj([("x", Arr([Obj([("v", Str("a match"))]), Num(7), Obj([("v", Str("yes match"))]), Str("match")]))]), "", "match")
         == Obj([("x", Obj([("v", Str("yes match"))]))])
  {
    assert Substring("match", "yes match") by { SubstringSplit("match", "yes ", ""); }
    var first := Obj([("v", Str("a match"))]);
    var last := Obj([("v", Str("yes match"))]);
    var xs := [first, Num(7), last, Str("match")];
    assert DictValueFilter("v", Str("yes match"), "match") == Str("yes match");
    assert DictValueFilter("x", last, "match") == last;
    assert ArrayScan("x", xs, 3, "match") == last;
    assert ArrayScan("x", xs, 4, "match") == last;
    assert DictValueFilter("x", Arr(xs), "match") == last;
    assert ValueFilterPrefix([("x", Arr(xs))], 1, "match") == [("x", last)];
  }

  /** Leaves are compared by their Python 2 text: true reads "True", so "true"
      misses it, and null's text "None" does not contain "True". */
  lemma PythonLeafText()
    ensures Pipeline(Obj([("t", Bool(true)), ("n", Null)]), "", "True") == Obj([("t", Bool(true))])
    ensures Pipeline(Obj([("t", Bool(true))]), "", "true") == Obj([])
  {
    assert Substring("True", "True") by { SubstringSplit("True", "", ""); }
    AbsentFirstChar("True", "None");
    AbsentFirstChar("true", "True");
    var fs := [("t", Bool(true)), ("n", Null)];
    assert DictValueFilter("t", Bool(true), "True") == Bool(true);
    assert DictValueFilter("n", Null, "True") == Obj([]);
    assert ValueFilterPrefix(fs, 1, "True") == [("t", Bool(true))];
    assert ValueFilterPrefix(fs, 2, "True") == [("t", Bool(true))];
    assert DictValueFilter("t", Bool(true), "true") == Obj([]);
    assert ValueFilterPrefix([("t", Bool(true))], 1, "true") == [];
  }

  /** A null whose text "None" matches the pattern is returned by the filter
      but then dropped, because None is falsy: {"n": null} with "None"
      becomes {}. */
  lemma MatchingNullDropped()
    ensures DictValueFilter("n", Null, "None") == Null
    ensures Pipeline(Obj([("n", Null)]), "", "None") == Obj([])
  {
    assert Substring("None", "None") by { SubstringSplit("None", "", ""); }
    assert ValueFilterPrefix([("n", Null)], 1, "None") == [];
  }
}

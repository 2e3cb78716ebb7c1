# jsontool filtering engine in Dafny

This project models the filtering core of `jsontool.py`, a command-line JSON
filter. The tool reads a JSON document whose top level is an object. It can
narrow that object by a dotted key-path pattern (`-k`) and then by a substring
of leaf values (`-d`), and it writes what remains.

The model has three parts.

- **Key filter** (`KeyFilter.DictKeyFilter`, `dict_key_filter`). It consumes one
  dot-separated token per nesting level. A token matches a key when it is a
  case-sensitive substring of the key. `*` is rewritten to `""`, which every
  key contains. A key that does not match yields `{}`. A matched object with
  tokens left is filtered entry by entry with the remaining tokens. Any other
  match returns the one-entry object `{key: data}`, and the caller stores that
  under `key` again.
- **Value filter** (`ValueFilter.DictValueFilter`, `dict_value_filter`). Objects
  are filtered entry by entry. In an array only object elements are examined,
  each under the array's own key, and the last truthy result wins. A leaf is
  kept when the pattern occurs in its Python 2 `unicode()` text
  (`Text.Unicode`), and is replaced by `{}` otherwise.
- **The `json_tool` object** (`Tool.JsonTool`). It is a class with the fields
  `inputdata` and `outputdata`. `ImportFile` sets both to the parsed document.
  `FilterKeys` reads `inputdata` and writes `outputdata`. `FilterValues` reads
  and writes `outputdata`. `ExportFile` runs the key stage only when a key
  pattern is given, then the value stage only when a value pattern is given.
  `Tool.Pipeline` states what `main` computes.

Inclusion at every level follows Python's `bool(...)`, written as
`JsonValue.Falsy`: an empty object or array, `""`, `0`, `false` and `null` are
falsy. Objects are sequences of `(key, value)` entries. A parsed document has
distinct keys in every object (`JsonValue.WellFormed`). Lookups go through
`JsonValue.Get`. The order of entries carries no meaning, and no property
here depends on it.

The two recursive filters are pure functions. The loops over an object's
entries are the index-based functions `KeyFilterPrefix` and
`ValueFilterPrefix`, where the result for `fs[..n]` is the loop's state after
`n` iterations. The loop over an array's items is `ArrayScan`, where the result
for `xs[..n]` is likewise the state after `n` iterations. `JsonTool.FilterKeys` and `JsonTool.FilterValues` run those loops
as `while` loops, and their invariants are exactly these functions.

### Behaviour worth knowing

- `dict_key_filter` returns `{key: data}` on a match, and `filter_keys` stores
  that under `key` again (jsontool.py:79, 154). So `{"mode": 1, "other": 2}`
  filtered with `od` gives `{"mode": {"mode": 1}}`. See `KeyFilter.NestedTwice`
  and `Scenarios.KeySubstring`.
- For the same reason a falsy leaf under a matching key is kept: it is wrapped
  in the truthy `{"a": 0}`. So `{"a": 0, "b": 1}` filtered with `*` gives
  `{"a": {"a": 0}, "b": {"b": 1}}`. See `Scenarios.FalsyLeafWrapped`.
- Leaf values are matched against their Python 2 `unicode()` text, which is
  `None`, `True` and `False` for `null`, `true` and `false`. See
  `Scenarios.PythonLeafText` and `Scenarios.MatchingNullDropped`.

## Model

| member | source | states |
|---|---|---|
| `JsonValue.Falsy` | jsontool.py:178 | `bool(...)`, used in the same way at lines 78, 95, 151 and 190: a value is falsy exactly when it is `{}`, `[]`, `""`, `0`, `false` or `null` |
| `Text.Substring` | jsontool.py:142 | `p in s`, also used at line 192, implies `p` is no longer than `s`, and for equal lengths it holds exactly when `p == s`; `Text.SubstringAt` and `Text.SubstringOffset` characterise it as an occurrence at some offset |
| `Text.Unicode` | jsontool.py:192 | the text of an integer reads back as that integer (`Text.IntTextRoundTrip`), and the text of a boolean or null is `True`, `False` or `None` |
| `Text.SubstringAt` | jsontool.py:142 | an occurrence of the pattern at any offset of the key makes `curfilter in key` true |
| `Text.SubstringOffset` | jsontool.py:192 | conversely, when `dfilter in unicode(data)` holds, the pattern occurs at some offset of the text |
| `Text.EmptySubstring` | jsontool.py:137-139 | the empty string that replaces `*` is a substring of every key |
| `Text.AbsentFirstChar` | jsontool.py:142 | a pattern whose first character does not occur in a string is no substring of it |
| `Text.SubstringSplit` | jsontool.py:192 | a pattern is a substring of any text that contains it between a prefix and a suffix |
| `Text.NatText` | jsontool.py:192 | `unicode()` of a non-negative integer is a non-empty run of decimal digits with no leading zero, except for 0 itself |
| `Text.IntText` | jsontool.py:192 | `unicode()` of an integer is never empty and starts with `-` exactly when the integer is negative; `Text.IntTextRoundTrip` shows the text reads back as the integer |
| `Text.IntTextRoundTrip` | jsontool.py:192 | the decimal text that value matching searches reads back as the same integer, so the text determines the value |
| `Text.Split` | jsontool.py:71 | `keyfilter.split('.')` yields at least one token and no token contains a dot |
| `Text.SplitJoin` | jsontool.py:71 | joining the split tokens with dots gives the key pattern back |
| `Text.JoinSplit` | jsontool.py:71 | splitting dot-joined, dot-free tokens gives the same tokens back |
| `KeyFilter.Token` | jsontool.py:137-139 | `*` becomes `''`, and every other token is compared as written (the empty token stays empty); `KeyFilter.WildcardMatches` shows `*` matches every key |
| `KeyFilter.DictKeyFilter` | jsontool.py:112-157 | with at least one token the result is an object, and a truthy result means the first token (after rewriting `*`) occurs in the key; `KeyFilter.NoTokensPassThrough`, `MissYieldsEmpty`, `AcceptWholesale` and `Descend` characterise each branch |
| `KeyFilter.KeyFilterPrefix` | jsontool.py:146-152 | the loop over `fs[..n]` builds at most `n` entries; `KeyFilter.KeyFilterPrefixShape` and `KeyFilter.KeyFilterPrefixGet` state what it holds |
| `KeyFilter.NoTokensPassThrough` | jsontool.py:128-132 | with an empty token list `dict_key_filter` returns `data` unchanged |
| `KeyFilter.MissYieldsEmpty` | jsontool.py:136-142 | when the first token, after rewriting `*`, is not a substring of the key, the result is `{}`, which is falsy |
| `KeyFilter.WildcardMatches` | jsontool.py:137-139 | a `*` token matches every key |
| `KeyFilter.AcceptWholesale` | jsontool.py:142-154 | on a match where `data` is not an object or no tokens remain, the result is exactly `{key: data}`, which is truthy even when `data` is falsy |
| `KeyFilter.Descend` | jsontool.py:144-152 | on a match where `data` is an object with tokens left, the result is an object whose keys are keys of `data`; under each key it holds exactly that entry's result filtered with the remaining tokens when that result is truthy, and nothing otherwise |
| `KeyFilter.AlwaysObject` | jsontool.py:136-157 | with a non-empty token list the result is always an object, never a bare leaf |
| `KeyFilter.KeyFilterPrefixShape` | jsontool.py:146-152 | the entry loop keeps only keys of its input, keeps distinct keys distinct, and keeps only truthy values |
| `KeyFilter.KeyFilterFields` | jsontool.py:75-79 | the whole-object loop of `filter_keys` keeps at most one entry per input entry, and only truthy values; `KeyFilter.KeyFilterFieldsShape` and `KeyFilter.KeyFilterFieldsGet` state which keys and values it keeps |
| `KeyFilter.KeyFilterFieldsShape` | jsontool.py:75-79 | the same three facts for the loop over a whole object |
| `KeyFilter.KeyFilterPrefixGet` | jsontool.py:146-152 | after `n` iterations, the loop holds under each key exactly the truthy filtered value of that key among the first `n` entries |
| `KeyFilter.KeyFilterFieldsGet` | jsontool.py:75-79 | the filtered object holds under each key exactly the truthy `dict_key_filter` result of that key's entry, and nothing for other keys |
| `KeyFilter.KeptKeysMatch` | jsontool.py:77-79 | every key that survives the loop contains the first token |
| `KeyFilter.NestedTwice` | jsontool.py:77-79 | with one matching token, a key's value `v` comes out as `{k: v}` stored under `k`: nested under its own key twice |
| `KeyFilter.KeyFilterWellFormed` | jsontool.py:112-157 | key filtering a tree whose objects have distinct keys yields such a tree |
| `KeyFilter.KeyFilterPrefixWellFormed` | jsontool.py:146-152 | the entry loop yields distinct keys and well-formed values |
| `ValueFilter.DictValueFilter` | jsontool.py:159-197 | objects and arrays filter to objects, and a leaf filters to itself or to `{}`; `ValueFilter.ResultShape`, `LastHitWins` and `LeafEntry` characterise each branch |
| `ValueFilter.ValueFilterPrefix` | jsontool.py:175-179 | the loop over `fs[..n]` builds at most `n` entries; `ValueFilter.ValueFilterPrefixShape` and `ValueFilter.ValueFilterPrefixGet` state what it holds |
| `ValueFilter.ArrayScan` | jsontool.py:183-191 | the array loop yields an object that is either `{}` or truthy; `ValueFilter.ArrayScanLastHit` and `ValueFilter.ArrayScanNoHit` say which |
| `ValueFilter.KeyIrrelevant` | jsontool.py:159-197 | the `key` argument never affects the result of `dict_value_filter` |
| `ValueFilter.ArrayScanKeyIrrelevant` | jsontool.py:183-191 | the array loop's result does not depend on the key it passes down |
| `ValueFilter.ArrayScanLastHit` | jsontool.py:183-191 | when no later element is an object with a truthy result, the array loop's result is the filtered value of the last such element |
| `ValueFilter.ArrayScanNoHit` | jsontool.py:173-191 | with no object element whose result is truthy, the array loop leaves `{}` |
| `ValueFilter.LastHitWins` | jsontool.py:180-191 | filtering an array gives the filtered value of its last hit, earlier hits discarded, or `{}` when there is none; non-object elements are never hits |
| `ValueFilter.ResultShape` | jsontool.py:173-197 | objects and arrays filter to objects and never to arrays; a leaf filters to itself when the pattern occurs in its text and to `{}` otherwise |
| `ValueFilter.ValueFilterPrefixShape` | jsontool.py:175-179 | the entry loop keeps only keys of its input, keeps distinct keys distinct, and keeps only truthy values |
| `ValueFilter.ValueFilterFields` | jsontool.py:91-96 | the whole-object loop of `filter_values` keeps at most one entry per input entry, and only truthy values; `ValueFilter.ValueFilterFieldsShape` and `ValueFilter.ValueFilterFieldsGet` state which keys and values it keeps |
| `ValueFilter.ValueFilterFieldsShape` | jsontool.py:91-96 | the same three facts for the loop over a whole object |
| `ValueFilter.ValueFilterPrefixGet` | jsontool.py:175-179 | after `n` iterations, the loop holds under each key exactly the truthy filtered value of that key among the first `n` entries |
| `ValueFilter.ValueFilterFieldsGet` | jsontool.py:91-96 | the filtered object holds under each key exactly the truthy `dict_value_filter` result of that key's entry, and nothing for other keys |
| `ValueFilter.LeafEntry` | jsontool.py:192-197 | a leaf entry survives exactly when the pattern occurs in its text and the leaf is truthy, so a matching `0`, `""`, `False` or `None` is still dropped |
| `ValueFilter.ValueFilterWellFormed` | jsontool.py:159-197 | value filtering a well-formed tree yields a well-formed tree |
| `ValueFilter.ValueFilterPrefixWellFormed` | jsontool.py:175-179 | the entry loop yields distinct keys and well-formed values |
| `ValueFilter.ArrayScanWellFormed` | jsontool.py:183-191 | the array loop yields a well-formed value |
| `Tool.Export` | jsontool.py:101-108 | with neither pattern the output document is unchanged; when a filter runs the result is an object whose keys are keys of the document the first running stage read |
| `Tool.Pipeline` | jsontool.py:12-15 | with neither pattern the parsed document is written unchanged, whatever its shape; with a pattern the output is an object with a subset of the input's keys |
| `Tool.JsonTool.constructor` | jsontool.py:23-28 | a new tool holds `{}` as both input and output, and the given patterns |
| `Tool.JsonTool.ImportFile` | jsontool.py:58-63 | the parsed document becomes both `inputdata` and `outputdata` |
| `Tool.JsonTool.FilterKeys` | jsontool.py:67-81 | `outputdata` becomes the key-filtered `inputdata` under the split key pattern, and the tree stays well-formed |
| `Tool.JsonTool.FilterValues` | jsontool.py:83-99 | `outputdata` becomes the value-filtered previous `outputdata`, and the tree stays well-formed |
| `Tool.JsonTool.ExportFile` | jsontool.py:101-108 | the key stage runs on `inputdata` only when a key pattern is set, then the value stage runs on its output only when a value pattern is set |
| `Tool.RunTool` | jsontool.py:12-15 | `main` (construct, import, export) writes `Pipeline` of the parsed document, and the output is well-formed |
| `Tool.Identity` | jsontool.py:101-108 | with neither pattern the output equals the input, for any parsed document |
| `Tool.KeyStage` | jsontool.py:73-81 | after the key stage the output holds under each key exactly the truthy key-filtered value of that key's input entry |
| `Tool.ValueStage` | jsontool.py:89-99 | the value stage works on the key stage's output: under each key the result holds exactly the truthy value-filtered value of that key there |
| `Tool.NoResurrection` | jsontool.py:105-108 | the final keys are a subset of the key stage's keys, which are a subset of the input's keys, so a dropped key never reappears; with a key pattern, every kept key contains its first token |
| `Tool.OnlyTruthy` | jsontool.py:78-96 | whenever a filter runs, every value written is truthy |
| `Tool.PipelineWellFormed` | jsontool.py:101-108 | a well-formed document produces a well-formed output |
| `Scenarios.KeySubstring` | jsontool.py:142-154 | `{"mode": 1, "other": 2}` with `od` gives `{"mode": {"mode": 1}}` |
| `Scenarios.FalsyLeafWrapped` | jsontool.py:77-79 | `{"a": 0, "b": 1}` with `*` gives `{"a": {"a": 0}, "b": {"b": 1}}` |
| `Scenarios.TwoLevelsMatch` | jsontool.py:144-154 | `{"a": {"b": 1}}` with `*.b` gives `{"a": {"b": {"b": 1}}}` |
| `Scenarios.TwoLevelsMiss` | jsontool.py:144-152 | `{"a": {"b": 1}}` with `*.z` gives `{}` |
| `Scenarios.ValueOnLeafMatch` | jsontool.py:192-193 | `{"x": "hello world"}` survives `world` |
| `Scenarios.ValueOnLeafMiss` | jsontool.py:192-197 | `{"x": "hello world"}` vanishes under `zzz` |
| `Scenarios.ArrayLastMatch` | jsontool.py:180-191 | in `[{"v": "a match"}, 7, {"v": "yes match"}, "match"]` under `match`, the last matching object wins, and the trailing matching string is passed over because it is not an object |
| `Scenarios.PythonLeafText` | jsontool.py:192 | `true` is matched as `True`, not `true`, and `null` (text `None`) does not match `True` |
| `Scenarios.MatchingNullDropped` | jsontool.py:94-96 | `null` under `None` is returned by `dict_value_filter` (line 192-193) and then dropped by `filter_values` because it is falsy |

## Left out

- Reading the input (`open`, stdin, `json.load`) and writing the output (`json.dump` with the indent width, the trailing newline). These are I/O and a foreign parser and serializer. `ImportFile` takes the parsed document as a parameter, and `ExportFile` stops before the write.
- Argument parsing in `get_args` (`-f`, `-o`, `-i`, `-v`). The two patterns are constructor parameters. An absent pattern is written `""`, because `None` and `""` are both falsy.
- The logger (`set_logger` and every `logger.info`/`logger.debug` call). It has no effect on results.
- Floating-point leaves and their `unicode()` formatting. Numbers are integers.
- Non-ASCII patterns. Python 2 decodes a byte-string pattern implicitly when it meets a `unicode` value, which can raise. Patterns and text are modelled as already-decoded character sequences.
- Order of entries. Python 2 dictionaries are unordered. The sequences here keep input order, but no property claims an order.
- Non-object top-level input when a pattern is given. `data.items()` raises on it. `FilterKeys` and `FilterValues` require an object instead of modelling the exception; with neither pattern any document passes through (`Tool.Identity`).
- Duplicate keys in the parsed input. `json.load` already merges them. `ImportFile` requires distinct keys (`WellFormed`), so appending an entry models the dictionary store `newdata[key] = ...`.

/**
 The `json_tool` object (jsontool.py:17-110): it holds the parsed document in
 `inputdata` and the document to write in `outputdata`, and chains the key
 filter and the value filter between reading and writing.

 The command-line patterns are strings; an absent pattern and an empty one are
 both written "" (both are falsy, so neither runs a filter).
 */
module Tool {
  import opened JsonValue
  import opened Text
  import opened KeyFilter
  import opened ValueFilter

  /** What `export_file` leaves in `outputdata`, given the tool's input and
      output documents before it: the key filter reads the input, the value
      filter the output of the stage before it. */
  function Export(input: Json, output: Json, keyfilter: string, datafilter: string): (r: Json)
    requires keyfilter != "" ==> input.Obj?
    requires keyfilter == "" && datafilter != "" ==> output.Obj?
    ensures keyfilter == "" && datafilter == "" ==> r == output
    ensures keyfilter != "" || datafilter != "" ==> r.Obj?
    ensures keyfilter != "" ==> KeySet(r.fields) <= KeySet(input.fields)
    ensures keyfilter == "" && datafilter != "" ==> KeySet(r.fields) <= KeySet(output.fields)
  {
    KeyFilterFieldsShape(if input.Obj? then input.fields else [], Split(keyfilter));
    var afterKeys := if keyfilter != "" then Obj(KeyFilterFields(input.fields, Split(keyfilter))) else output;
    ValueFilterFieldsShape(if afterKeys.Obj? then afterKeys.fields else [], datafilter);
    if datafilter != "" then Obj(ValueFilterFields(afterKeys.fields, datafilter)) else afterKeys
  }

  /** What `main` writes for a parsed document: import, then export. */
  function Pipeline(data: Json, keyfilter: string, datafilter: string): (r: Json)
    requires keyfilter != "" || datafilter != "" ==> data.Obj?
    ensures keyfilter == "" && datafilter == "" ==> r == data
    ensures keyfilter != "" || datafilter != "" ==> r.Obj? && KeySet(r.fields) <= KeySet(data.fields)
  {
    Export(data, data, keyfilter, datafilter)
  }

  class JsonTool {
    var inputdata: Json
    var outputdata: Json
    const keyfilter: string
    const datafilter: string

    /** Both documents have distinct keys in every object, as parsed ones do. */
    ghost predicate Valid()
      reads this
    {
      WellFormed(inputdata) && WellFormed(outputdata)
    }

    constructor (keyfilter: string, datafilter: string)
      ensures Valid()
      ensures inputdata == Obj([]) && outputdata == Obj([])
      ensures this.keyfilter == keyfilter && this.datafilter == datafilter
    {
      inputdata := Obj([]);
      outputdata := Obj([]);
      this.keyfilter := keyfilter;
      this.datafilter := datafilter;
    }

    /** `import_file`: the parsed document becomes both input and output. */
    method ImportFile(parsed: Json)
      requires WellFormed(parsed)
      modifies this
      ensures Valid()
      ensures inputdata == parsed && outputdata == parsed
    {
      inputdata := parsed;
      outputdata := inputdata;
    }

    /** `filter_keys`: filters the INPUT document by the dotted key pattern. */
    method FilterKeys()
      requires Valid() && inputdata.Obj?
      modifies this`outputdata
      ensures Valid()
      ensures outputdata == Obj(KeyFilterFields(inputdata.fields, Split(keyfilter)))
    {
      var filters := Split(keyfilter);
      var data := inputdata.fields;
      var newdata: seq<(string, Json)> := [];
      var i := 0;
      while i < |data|
        invariant 0 <= i <= |data|
        invariant newdata == KeyFilterPrefix(data, i, filters)
      {
        var (key, value) := data[i];
        var returned := DictKeyFilter(key, value, filters);
        assert KeyFilterPrefix(data, i + 1, filters) ==
                 if Falsy(returned) then newdata else newdata + [(key, returned)];
        if !Falsy(returned) {
          newdata := newdata + [(key, returned)];
        }
        i := i + 1;
      }
      assert data[..|data|] == data;
      KeyFilterPrefixWellFormed(data, |data|, filters);
      outputdata := Obj(newdata);
    }

    /** `filter_values`: filters the OUTPUT document by the value pattern. */
    method FilterValues()
      requires Valid() && outputdata.Obj?
      modifies this`outputdata
      ensures Valid()
      ensures outputdata == Obj(ValueFilterFields(old(outputdata).fields, datafilter))
    {
      var data := outputdata.fields;
      var newdata: seq<(string, Json)> := [];
      var i := 0;
      while i < |data|
        invariant 0 <= i <= |data|
        invariant newdata == ValueFilterPrefix(data, i, datafilter)
      {
        var (key, value) := data[i];
        var returned := DictValueFilter(key, value, datafilter);
        assert ValueFilterPrefix(data, i + 1, datafilter) ==
                 if Falsy(returned) then newdata else newdata + [(key, returned)];
        if !Falsy(returned) {
          newdata := newdata + [(key, returned)];
        }
        i := i + 1;
      }
      assert data[..|data|] == data;
      ValueFilterPrefixWellFormed(data, |data|, datafilter);
      outputdata := Obj(newdata);
    }

    /** `export_file` without the final write: the key filter runs when a key
        pattern was given, then the value filter when a value pattern was. */
    method ExportFile()
      requires Valid()
      requires keyfilter != "" ==> inputdata.Obj?
      requires keyfilter == "" && datafilter != "" ==> outputdata.Obj?
      modifies this`outputdata
      ensures Valid()
      ensures outputdata == Export(inputdata, old(outputdata), keyfilter, datafilter)
    {
      if keyfilter != "" {
        FilterKeys();
      }
      if datafilter != "" {
        FilterValues();
      }
    }
  }

  /** `main`: a fresh tool imports the parsed document and exports it. */
  method RunTool(parsed: Json, keyfilter: string, datafilter: string) returns (result: Json)
    requires keyfilter != "" || datafilter != "" ==> parsed.Obj?
    requires WellFormed(parsed)
    ensures result == Pipeline(parsed, keyfilter, datafilter)
    ensures WellFormed(result)
  {
    var tool := new JsonTool(keyfilter, datafilter);
    tool.ImportFile(parsed);
    tool.ExportFile();
    result := tool.outputdata;
  }

  // ---------------------------------------------------------------------------
  // Properties of the pipeline

  /** With neither pattern the document is written as it was read. */
  lemma Identity(data: Json)
    ensures Pipeline(data, "", "") == data
  {
  }

  /** The key stage alone: under each key the output holds exactly the truthy
      key-filtered value of that key's entry. */
  lemma KeyStage(data: Json, keyfilter: string, k: string)
    requires data.Obj? && DistinctKeys(data.fields) && keyfilter != ""
    ensures Pipeline(data, keyfilter, "").Obj?
    ensures Get(Pipeline(data, keyfilter, "").fields, k) == KeyFilterAt(data.fields, k, Split(keyfilter))
  {
    KeyFilterFieldsGet(data.fields, Split(keyfilter), k);
  }

  /** The value stage works on what the key stage produced: under each key the
      output holds exactly the truthy value-filtered value of that key in the
      key stage's output. */
  lemma ValueStage(data: Json, keyfilter: string, datafilter: string, k: string)
    requires data.Obj? && DistinctKeys(data.fields) && datafilter != ""
    ensures Pipeline(data, keyfilter, "").Obj?
    ensures Get(Pipeline(data, keyfilter, datafilter).fields, k) ==
              ValueFilterAt(Pipeline(data, keyfilter, "").fields, k, datafilter)
  {
    var afterKeys := Pipeline(data, keyfilter, "");
    KeyFilterFieldsShape(data.fields, Split(keyfilter));
    ValueFilterFieldsGet(afterKeys.fields, datafilter, k);
  }

  /** Each stage keeps only keys of its input, so a key dropped by the key
      filter never reappears, and every key kept by the key filter contains
      the pattern's first token. */
  lemma NoResurrection(data: Json, keyfilter: string, datafilter: string)
    requires data.Obj?
    ensures Pipeline(data, keyfilter, "").Obj? && Pipeline(data, keyfilter, datafilter).Obj?
    ensures KeySet(Pipeline(data, keyfilter, datafilter).fields) <= KeySet(Pipeline(data, keyfilter, "").fields)
    ensures KeySet(Pipeline(data, keyfilter, "").fields) <= KeySet(data.fields)
    ensures keyfilter != "" ==>
              forall k :: k in KeySet(Pipeline(data, keyfilter, datafilter).fields) ==> Substring(Token(Split(keyfilter)[0]), k)
  {
    var filters := Split(keyfilter);
    KeyFilterFieldsShape(data.fields, filters);
    var afterKeys := Pipeline(data, keyfilter, "");
    ValueFilterFieldsShape(afterKeys.fields, datafilter);
    if keyfilter != "" {
      forall k | k in KeySet(Pipeline(data, keyfilter, datafilter).fields)
        ensures Substring(Token(filters[0]), k)
      {
        KeptKeysMatch(data.fields, |data.fields|, filters, k);
      }
    }
  }

  /** Whenever a filter runs, every value written is truthy. */
  lemma OnlyTruthy(data: Json, keyfilter: string, datafilter: string)
    requires keyfilter != "" || datafilter != ""
    requires data.Obj?
    ensures forall i :: 0 <= i < |Pipeline(data, keyfilter, datafilter).fields| ==>
              !Falsy(Pipeline(data, keyfilter, datafilter).fields[i].1)
  {
    KeyFilterFieldsShape(data.fields, Split(keyfilter));
    ValueFilterFieldsShape(Pipeline(data, keyfilter, "").fields, datafilter);
  }

  /** A well-formed document is written as a well-formed document. */
  lemma PipelineWellFormed(data: Json, keyfilter: string, datafilter: string)
    requires keyfilter != "" || datafilter != "" ==> data.Obj?
    requires WellFormed(data)
    ensures WellFormed(Pipeline(data, keyfilter, datafilter))
  {
    if keyfilter == "" && datafilter == "" {
      return;
    }
    var fs := data.fields;
    assert fs[..|fs|] == fs;
    KeyFilterPrefixWellFormed(fs, |fs|, Split(keyfilter));
    var afterKeys := Pipeline(data, keyfilter, "");
    assert afterKeys.fields[..|afterKeys.fields|] == afterKeys.fields;
    ValueFilterPrefixWellFormed(afterKeys.fields, |afterKeys.fields|, datafilter);
  }
}

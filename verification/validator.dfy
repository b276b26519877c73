/**
 * `XMLValidator`: checking a document against every configured XSD schema.
 * The schemas are compiled lazily into a cache the first time a document is
 * checked; every cached schema is then tried in turn and each failure adds
 * one message.
 *
 * Compiling a schema, parsing a document and checking a document against a
 * schema are outside the model: they are the functions `load`, `parse` and
 * `check`, whose results are taken as given.
 */
module Validator {
  import opened Wrappers
  import opened Document

  /** A compiled schema, known by the file it was compiled from. */
  datatype Schema = Schema(path: string)

  /** What checking a document against one schema gives: success, a validation error, or any other error. */
  datatype Verdict = Pass | Invalid(reason: string) | Failure(reason: string)

  datatype ValidatorError = NoSchemaPaths | LoadFailed(name: string, path: string, reason: string)

  /** The result of a validation: the flag and the messages, or the flag alone. */
  datatype Outcome = Detailed(valid: bool, messages: seq<string>) | Brief(valid: bool)

  /** The messages one schema's verdict contributes: none when it passes, one otherwise. */
  function Complaint(name: string, v: Verdict): (m: seq<string>)
    ensures v.Pass? <==> m == []
    ensures |m| <= 1
  {
    match v
    case Pass => []
    case Invalid(reason) => ["Validation against " + name + " schema failed: " + reason]
    case Failure(reason) => ["Error during validation against " + name + " schema: " + reason]
  }

  /** The messages of all schemas, in cache order. */
  function Messages(schemas: seq<(string, Schema)>, doc: Element, check: (Schema, Element) -> Verdict): seq<string> {
    if schemas == [] then []
    else Complaint(schemas[0].0, check(schemas[0].1, doc)) + Messages(schemas[1..], doc, check)
  }

  /** The document passes every schema. */
  predicate AllPass(schemas: seq<(string, Schema)>, doc: Element, check: (Schema, Element) -> Verdict) {
    forall i :: 0 <= i < |schemas| ==> check(schemas[i].1, doc).Pass?
  }

  /** The number of schemas the document fails. */
  function FailCount(schemas: seq<(string, Schema)>, doc: Element, check: (Schema, Element) -> Verdict): nat {
    if schemas == [] then 0
    else (if check(schemas[0].1, doc).Pass? then 0 else 1) + FailCount(schemas[1..], doc, check)
  }

  /** A later schema is tried whatever an earlier one gave: the messages of two runs of schemas concatenate. */
  lemma {:induction false} MessagesAppend(a: seq<(string, Schema)>, b: seq<(string, Schema)>, doc: Element,
                                          check: (Schema, Element) -> Verdict)
    ensures Messages(a + b, doc, check) == Messages(a, doc, check) + Messages(b, doc, check)
    decreases |a|
  {
    if a == [] {
      assert a + b == b;
    } else {
      assert (a + b)[0] == a[0] && (a + b)[1..] == a[1..] + b;
      MessagesAppend(a[1..], b, doc, check);
    }
  }

  /** One message per failing schema; no message exactly when every schema passes. */
  lemma {:induction false} MessagesCount(schemas: seq<(string, Schema)>, doc: Element, check: (Schema, Element) -> Verdict)
    ensures |Messages(schemas, doc, check)| == FailCount(schemas, doc, check)
    ensures Messages(schemas, doc, check) == [] <==> AllPass(schemas, doc, check)
    decreases |schemas|
  {
    if schemas != [] {
      MessagesCount(schemas[1..], doc, check);
      if AllPass(schemas[1..], doc, check) && check(schemas[0].1, doc).Pass? {
        forall i | 0 <= i < |schemas| ensures check(schemas[i].1, doc).Pass? {
          if i > 0 {
            assert schemas[i] == schemas[1..][i - 1];
          }
        }
      }
      if !AllPass(schemas[1..], doc, check) {
        var i :| 0 <= i < |schemas[1..]| && !check(schemas[1..][i].1, doc).Pass?;
        assert schemas[1..][i] == schemas[i + 1];
      }
    }
  }

  /** Every failing schema has its message among the messages, naming it and its reason. */
  lemma {:induction false} FailureReported(schemas: seq<(string, Schema)>, doc: Element,
                                           check: (Schema, Element) -> Verdict, i: nat)
    requires i < |schemas| && !check(schemas[i].1, doc).Pass?
    ensures Complaint(schemas[i].0, check(schemas[i].1, doc))[0] in Messages(schemas, doc, check)
    decreases i
  {
    if i > 0 {
      assert schemas[1..][i - 1] == schemas[i];
      FailureReported(schemas[1..], doc, check, i - 1);
    }
  }

  /** The outcome for a flag and its messages, in the requested form. */
  function Report(detailed: bool, valid: bool, messages: seq<string>): (o: Outcome)
    ensures o.valid == valid
    ensures detailed <==> o.Detailed?
  {
    if detailed then Detailed(valid, messages) else Brief(valid)
  }

  /** The flag and messages for a parsed document: valid exactly when no schema complained. */
  function Verdicts(schemas: seq<(string, Schema)>, doc: Element, check: (Schema, Element) -> Verdict): (bool, seq<string>) {
    (AllPass(schemas, doc, check), Messages(schemas, doc, check))
  }

  /** The flag and messages for a document file: a document that does not parse gets one message and no schema is consulted. */
  function Validation(schemas: seq<(string, Schema)>, path: string, parse: string -> Result<Element, string>,
                      check: (Schema, Element) -> Verdict): (bool, seq<string>) {
    match parse(path)
    case Err(e) => (false, ["Error parsing XML document: " + e])
    case Ok(doc) => Verdicts(schemas, doc, check)
  }

  /** The flag is set exactly when there is no message. */
  lemma ValidationFlag(schemas: seq<(string, Schema)>, path: string, parse: string -> Result<Element, string>,
                       check: (Schema, Element) -> Verdict)
    ensures Validation(schemas, path, parse, check).0 <==> Validation(schemas, path, parse, check).1 == []
  {
    if parse(path).Ok? {
      MessagesCount(schemas, parse(path).value, check);
    }
  }

  /** A document that does not parse is rejected with one message whatever the schemas say. */
  lemma ParseFailureIgnoresSchemas(schemas: seq<(string, Schema)>, path: string, parse: string -> Result<Element, string>,
                                   check: (Schema, Element) -> Verdict, other: (Schema, Element) -> Verdict)
    requires parse(path).Err?
    ensures Validation(schemas, path, parse, check) == Validation(schemas, path, parse, other)
    ensures !Validation(schemas, path, parse, check).0 && |Validation(schemas, path, parse, check).1| == 1
  {
  }

  /** The schemas `_load_schemas` caches: those before the first one that fails to compile. */
  function Loaded(paths: seq<(string, string)>, load: string -> Result<Schema, string>): (cache: seq<(string, Schema)>)
    ensures |cache| <= |paths|
  {
    if paths == [] then []
    else match load(paths[0].1)
      case Err(_) => []
      case Ok(s) => [(paths[0].0, s)] + Loaded(paths[1..], load)
  }

  /** What `_load_schemas` raises, if anything. */
  function LoadOutcome(paths: seq<(string, string)>, load: string -> Result<Schema, string>): Result<(), ValidatorError> {
    if paths == [] then Err(NoSchemaPaths)
    else FirstLoadFailure(paths, load)
  }

  function FirstLoadFailure(paths: seq<(string, string)>, load: string -> Result<Schema, string>): Result<(), ValidatorError> {
    if paths == [] then Ok(())
    else match load(paths[0].1)
      case Err(e) => Err(LoadFailed(paths[0].0, paths[0].1, "Error loading " + paths[0].0 + " schema from " + paths[0].1 + ": " + e))
      case Ok(_) => FirstLoadFailure(paths[1..], load)
  }

  /**
   * The cache holds, in configuration order, each schema before the first
   * that fails to compile; loading succeeds exactly when every schema
   * compiles, and otherwise names the first failure, the one just past the
   * cached prefix.
   */
  lemma {:induction false} LoadedSpec(paths: seq<(string, string)>, load: string -> Result<Schema, string>)
    ensures var cache := Loaded(paths, load);
      (forall i :: 0 <= i < |cache| ==> cache[i].0 == paths[i].0 && load(paths[i].1) == Ok(cache[i].1)) &&
      (FirstLoadFailure(paths, load).Ok? <==> |cache| == |paths|) &&
      (|cache| < |paths| ==>
        load(paths[|cache|].1).Err? && FirstLoadFailure(paths, load).Err? &&
        FirstLoadFailure(paths, load).error.LoadFailed? &&
        FirstLoadFailure(paths, load).error.name == paths[|cache|].0 &&
        FirstLoadFailure(paths, load).error.path == paths[|cache|].1)
    decreases |paths|
  {
    if paths != [] && load(paths[0].1).Ok? {
      LoadedSpec(paths[1..], load);
    }
  }

  /** Loading raises unless paths are configured, and a failure after a first success leaves a partial cache. */
  lemma LoadFailures(paths: seq<(string, string)>, load: string -> Result<Schema, string>)
    ensures paths == [] <==> LoadOutcome(paths, load) == Err(NoSchemaPaths)
    ensures LoadOutcome(paths, load).Ok? ==> |Loaded(paths, load)| == |paths| > 0
    ensures LoadOutcome(paths, load).Err? && paths != [] && load(paths[0].1).Ok? ==>
      0 < |Loaded(paths, load)| < |paths|
  {
    LoadedSpec(paths, load);
    if paths != [] && load(paths[0].1).Ok? {
      assert Loaded(paths, load)[0].0 == paths[0].0;
    }
  }

  /** The configured schemas come from a dictionary: no name appears twice. */
  predicate DistinctNames(paths: seq<(string, string)>) {
    forall i, j :: 0 <= i < j < |paths| ==> paths[i].0 != paths[j].0
  }

  /** Trying one more schema adds its complaint to the messages and its verdict to the flag. */
  lemma MessagesStep(schemas: seq<(string, Schema)>, i: nat, doc: Element, check: (Schema, Element) -> Verdict)
    requires i < |schemas|
    ensures Messages(schemas[..i + 1], doc, check) ==
      Messages(schemas[..i], doc, check) + Complaint(schemas[i].0, check(schemas[i].1, doc))
    ensures AllPass(schemas[..i + 1], doc, check) <==>
      AllPass(schemas[..i], doc, check) && check(schemas[i].1, doc).Pass?
  {
    assert schemas[..i + 1] == schemas[..i] + [schemas[i]];
    MessagesAppend(schemas[..i], [schemas[i]], doc, check);
    assert [schemas[i]][1..] == [];
  }

  class XmlValidator {
    /** The configuration's `validation.schema_paths`, as (name, path) pairs in order. */
    const schemaPaths: seq<(string, string)>
    /** Compiling the schema at a path. */
    const load: string -> Result<Schema, string>
    /** The compiled schemas by name, in the order they were added. */
    var schemas: seq<(string, Schema)>

    /** The configured names are distinct, and the cache is empty or holds what one load left in it. */
    predicate Valid()
      reads this
    {
      DistinctNames(schemaPaths) && (schemas == [] || schemas == Loaded(schemaPaths, load))
    }

    constructor(schemaPaths: seq<(string, string)>, load: string -> Result<Schema, string>)
      requires DistinctNames(schemaPaths)
      ensures this.schemaPaths == schemaPaths && this.load == load
      ensures schemas == []
      ensures Valid()
    {
      this.schemaPaths := schemaPaths;
      this.load := load;
      schemas := [];
    }

    /** `_load_schemas`, called only on an empty cache. */
    method LoadSchemas() returns (r: Result<(), ValidatorError>)
      requires Valid() && schemas == []
      modifies this
      ensures r == LoadOutcome(schemaPaths, load)
      ensures schemas == Loaded(schemaPaths, load)
      ensures Valid()
    {
      if schemaPaths == [] {
        return Err(NoSchemaPaths);
      }
      var i := 0;
      while i < |schemaPaths|
        invariant i <= |schemaPaths|
        invariant schemas + Loaded(schemaPaths[i..], load) == Loaded(schemaPaths, load)
        invariant FirstLoadFailure(schemaPaths[i..], load) == FirstLoadFailure(schemaPaths, load)
      {
        var (name, path) := schemaPaths[i];
        assert schemaPaths[i..][0] == schemaPaths[i] && schemaPaths[i..][1..] == schemaPaths[i + 1..];
        match load(path)
        case Err(e) =>
          assert Loaded(schemaPaths[i..], load) == [];
          assert schemas + [] == schemas;
          return Err(LoadFailed(name, path, "Error loading " + name + " schema from " + path + ": " + e));
        case Ok(s) =>
          schemas := schemas + [(name, s)];
          i := i + 1;
      }
      assert schemaPaths[i..] == [];
      assert schemas + [] == schemas;
      r := Ok(());
    }

    /** The loop of `validate` and `validate_element`: every cached schema is tried and each failure adds a message. */
    method Aggregate(doc: Element, check: (Schema, Element) -> Verdict) returns (valid: bool, messages: seq<string>)
      ensures valid <==> AllPass(schemas, doc, check)
      ensures messages == Messages(schemas, doc, check)
      ensures valid <==> messages == []
    {
      valid := true;
      messages := [];
      for i := 0 to |schemas|
        invariant valid <==> AllPass(schemas[..i], doc, check)
        invariant messages == Messages(schemas[..i], doc, check)
      {
        var (name, schema) := schemas[i];
        var verdict := check(schema, doc);
        MessagesStep(schemas, i, doc, check);
        match verdict
        case Pass =>
        case Invalid(reason) =>
          valid := false;
          messages := messages + ["Validation against " + name + " schema failed: " + reason];
        case Failure(reason) =>
          valid := false;
          messages := messages + ["Error during validation against " + name + " schema: " + reason];
      }
      assert schemas[..|schemas|] == schemas;
      MessagesCount(schemas, doc, check);
    }

    /**
     * `validate`: the cache is filled first if it is empty, and a load
     * failure is raised; otherwise the document file is parsed and checked.
     */
    method Validate(path: string, detailed: bool, parse: string -> Result<Element, string>,
                    check: (Schema, Element) -> Verdict) returns (r: Result<Outcome, ValidatorError>)
      requires Valid()
      modifies this
      ensures Valid()
      ensures old(schemas) != [] ==> schemas == old(schemas)
      ensures old(schemas) == [] ==> schemas == Loaded(schemaPaths, load)
      ensures old(schemas) == [] && LoadOutcome(schemaPaths, load).Err? ==> r == Err(LoadOutcome(schemaPaths, load).error)
      ensures old(schemas) != [] || LoadOutcome(schemaPaths, load).Ok? ==>
        var (valid, messages) := Validation(schemas, path, parse, check);
        r == Ok(Report(detailed, valid, messages))
    {
      if schemas == [] {
        var loaded := LoadSchemas();
        if loaded.Err? {
          return Err(loaded.error);
        }
      }
      match parse(path)
      case Err(e) =>
        var message := "Error parsing XML document: " + e;
        return Ok(if detailed then Detailed(false, [message]) else Brief(false));
      case Ok(doc) =>
        var valid, messages := Aggregate(doc, check);
        return Ok(if detailed then Detailed(valid, messages) else Brief(valid));
    }

    /** `validate_element`: as `validate`, on a document already in hand. */
    method ValidateElement(doc: Element, detailed: bool, check: (Schema, Element) -> Verdict)
      returns (r: Result<Outcome, ValidatorError>)
      requires Valid()
      modifies this
      ensures Valid()
      ensures old(schemas) != [] ==> schemas == old(schemas)
      ensures old(schemas) == [] ==> schemas == Loaded(schemaPaths, load)
      ensures old(schemas) == [] && LoadOutcome(schemaPaths, load).Err? ==> r == Err(LoadOutcome(schemaPaths, load).error)
      ensures old(schemas) != [] || LoadOutcome(schemaPaths, load).Ok? ==>
        var (valid, messages) := Verdicts(schemas, doc, check);
        r == Ok(Report(detailed, valid, messages))
    {
      if schemas == [] {
        var loaded := LoadSchemas();
        if loaded.Err? {
          return Err(loaded.error);
        }
      }
      var valid, messages := Aggregate(doc, check);
      return Ok(if detailed then Detailed(valid, messages) else Brief(valid));
    }
  }
}

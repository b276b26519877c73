/**
 * `DataLoader`: reading the three input tables and checking their structure.
 * Reading a file and decoding its JSON are outside the model: each table
 * arrives as a `Source`, which says whether its file was there, whether its
 * contents decoded, and if so the table they make.
 */
module Loader {
  import opened Wrappers
  import opened Tables

  /** What the file for one table turned out to hold. */
  datatype Source = NotFound(path: string) | BadJson(path: string, reason: string) | Decoded(table: Table)

  datatype LoadError =
    | FileNotFound(path: string)
    | InvalidJson(path: string, reason: string)
    | EmptyTable(table: string)
    | MissingColumn(table: string, column: string)
    | MissingColumns(table: string, columns: seq<string>)

  /** `df.empty`: no rows or no columns. */
  predicate IsEmpty(t: Table) {
    |t.rows| == 0 || |t.columns| == 0
  }

  /** The columns a table of this name must have, in the order the check lists them. */
  function RequiredColumns(name: string): seq<string> {
    if name == "dmdSec" then ["dmd_id"]
    else if name == "file" then ["file_id", "dmd_id"]
    else if name == "structMap" then ["struct_id", "dmd_id", "parent_id"]
    else []
  }

  /** `[col for col in required if col not in df.columns]`. */
  function Missing(required: seq<string>, columns: seq<string>): seq<string> {
    if required == [] then []
    else (if required[0] in columns then [] else [required[0]]) + Missing(required[1..], columns)
  }

  /** The missing columns are exactly the required ones absent from the table, each in its place in the required list. */
  lemma {:induction false} MissingSpec(required: seq<string>, columns: seq<string>)
    ensures forall c :: c in Missing(required, columns) <==> c in required && c !in columns
    ensures |Missing(required, columns)| <= |required|
    decreases |required|
  {
    if required != [] {
      MissingSpec(required[1..], columns);
    }
  }

  /** `_validate_dataframe`: `None` when the table passes, else the error it raises. */
  function ValidateTable(t: Table, name: string): Option<LoadError> {
    if IsEmpty(t) then Some(EmptyTable(name))
    else if name == "dmdSec" then
      if "dmd_id" !in t.columns then Some(MissingColumn(name, "dmd_id")) else None
    else if name == "file" || name == "structMap" then
      var missing := Missing(RequiredColumns(name), t.columns);
      if missing != [] then Some(MissingColumns(name, missing)) else None
    else None
  }

  /** `_load_and_validate_json`: a missing file fails before anything is decoded. */
  function LoadTable(src: Source, name: string): Result<Table, LoadError> {
    match src
    case NotFound(path) => Err(FileNotFound(path))
    case BadJson(path, reason) => Err(InvalidJson(path, reason))
    case Decoded(t) =>
      match ValidateTable(t, name)
      case Some(e) => Err(e)
      case None => Ok(t)
  }

  /** `load_data`: `dmdSec`, then `file`, then `structMap`; the first failure is the one raised. */
  function LoadData(dmdSec: Source, file: Source, structMap: Source): Result<(Table, Table, Table), LoadError> {
    var d :- LoadTable(dmdSec, "dmdSec");
    var f :- LoadTable(file, "file");
    var s :- LoadTable(structMap, "structMap");
    Ok((d, f, s))
  }

  /** The text of the error `_validate_dataframe` raises. */
  function Message(e: LoadError): (m: string)
    requires !e.FileNotFound? && !e.InvalidJson?
    ensures HasPrefix(m, e.table)
  {
    match e
    case EmptyTable(table) => table + " data is empty"
    case MissingColumn(table, column) => table + " missing required column: " + column
    case MissingColumns(table, columns) => table + " missing required columns: " + JoinComma(columns)
  }

  /** `', '.join(columns)`. */
  function JoinComma(columns: seq<string>): string {
    if columns == [] then ""
    else if |columns| == 1 then columns[0]
    else columns[0] + ", " + JoinComma(columns[1..])
  }

  /**
   * A table passes exactly when it is not empty and has every required
   * column; an empty table is rejected first, whatever its name.
   */
  lemma ValidateSpec(t: Table, name: string)
    ensures ValidateTable(t, name).None? <==> !IsEmpty(t) && forall c :: c in RequiredColumns(name) ==> c in t.columns
    ensures IsEmpty(t) ==> ValidateTable(t, name) == Some(EmptyTable(name))
  {
    var missing := Missing(RequiredColumns(name), t.columns);
    MissingSpec(RequiredColumns(name), t.columns);
    if missing != [] {
      assert missing[0] in missing;
    }
  }

  /** `dmdSec` names its one missing column; `file` and `structMap` list theirs in the required order. */
  lemma MissingReported(t: Table, name: string)
    requires !IsEmpty(t) && ValidateTable(t, name).Some?
    ensures name == "dmdSec" || name == "file" || name == "structMap"
    ensures name == "dmdSec" ==> ValidateTable(t, name) == Some(MissingColumn("dmdSec", "dmd_id"))
    ensures name == "file" ==> ValidateTable(t, name) == Some(MissingColumns("file",
      (if "file_id" in t.columns then [] else ["file_id"]) + (if "dmd_id" in t.columns then [] else ["dmd_id"])))
    ensures name == "structMap" ==> ValidateTable(t, name) == Some(MissingColumns("structMap",
      (if "struct_id" in t.columns then [] else ["struct_id"]) +
      (if "dmd_id" in t.columns then [] else ["dmd_id"]) +
      (if "parent_id" in t.columns then [] else ["parent_id"])))
  {
    FileMissing(t.columns);
    StructMapMissing(t.columns);
  }

  lemma FileMissing(c: seq<string>)
    ensures Missing(RequiredColumns("file"), c) ==
      (if "file_id" in c then [] else ["file_id"]) + (if "dmd_id" in c then [] else ["dmd_id"])
  {
    MissingCons("dmd_id", [], c);
    MissingCons("file_id", ["dmd_id"], c);
    assert ["file_id", "dmd_id"] == ["file_id"] + ["dmd_id"];
    assert ["dmd_id"] == ["dmd_id"] + [];
  }

  lemma StructMapMissing(c: seq<string>)
    ensures Missing(RequiredColumns("structMap"), c) ==
      (if "struct_id" in c then [] else ["struct_id"]) +
      (if "dmd_id" in c then [] else ["dmd_id"]) +
      (if "parent_id" in c then [] else ["parent_id"])
  {
    MissingCons("parent_id", [], c);
    MissingCons("dmd_id", ["parent_id"], c);
    MissingCons("struct_id", ["dmd_id", "parent_id"], c);
    assert ["dmd_id", "parent_id"] == ["dmd_id"] + ["parent_id"];
    assert ["struct_id", "dmd_id", "parent_id"] == ["struct_id"] + ["dmd_id", "parent_id"];
    assert ["parent_id"] == ["parent_id"] + [];
    var a := if "struct_id" in c then [] else ["struct_id"];
    var b := if "dmd_id" in c then [] else ["dmd_id"];
    var d := if "parent_id" in c then [] else ["parent_id"];
    assert a + (b + (d + [])) == a + b + d;
  }

  lemma MissingCons(x: string, rest: seq<string>, columns: seq<string>)
    ensures Missing([x] + rest, columns) == (if x in columns then [] else [x]) + Missing(rest, columns)
  {
    assert ([x] + rest)[1..] == rest;
  }

  /** The tables are loaded in order: an earlier table's failure hides any later one's. */
  lemma LoadOrder(dmdSec: Source, file: Source, structMap: Source)
    ensures LoadTable(dmdSec, "dmdSec").Err? ==>
      LoadData(dmdSec, file, structMap) == Err(LoadTable(dmdSec, "dmdSec").error)
    ensures LoadTable(dmdSec, "dmdSec").Ok? && LoadTable(file, "file").Err? ==>
      LoadData(dmdSec, file, structMap) == Err(LoadTable(file, "file").error)
    ensures LoadTable(dmdSec, "dmdSec").Ok? && LoadTable(file, "file").Ok? && LoadTable(structMap, "structMap").Err? ==>
      LoadData(dmdSec, file, structMap) == Err(LoadTable(structMap, "structMap").error)
    ensures LoadData(dmdSec, file, structMap).Ok? <==>
      LoadTable(dmdSec, "dmdSec").Ok? && LoadTable(file, "file").Ok? && LoadTable(structMap, "structMap").Ok?
  {
  }
}

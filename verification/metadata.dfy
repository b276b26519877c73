/**
 * `MetadataBuilder.build_metadata`: the relational metadata handed to the
 * generator. Each of the three tables gets its columns, each with a semantic
 * type chosen by a fixed first-match rule, and a fixed primary key; two
 * foreign-key relationships link `dmdSec` to `file` and to `structMap`.
 * The `structMap.parent_id` self-reference is deliberately not a
 * relationship.
 *
 * A data frame is seen through its columns only: each column's name and
 * whether pandas infers a numeric dtype for it.
 */
module Metadata {
  import opened Wrappers
  import opened Tables

  /** A column of a data frame: its name and whether its dtype is numeric. */
  datatype Column = Column(name: string, numeric: bool)

  type Frame = seq<Column>

  datatype SdType = Id | Datetime | Numerical | Categorical

  datatype ColumnMeta = ColumnMeta(name: string, sdtype: SdType)

  datatype TableMeta = TableMeta(name: string, columns: seq<ColumnMeta>, primaryKey: Option<string>)

  datatype Relationship = Relationship(parentTable: string, parentKey: string, childTable: string, childKey: string)

  datatype Graph = Graph(tables: seq<TableMeta>, relationships: seq<Relationship>)

  /** The semantic type of a column: the first rule that matches wins. */
  function Classify(c: Column): SdType {
    if HasSuffix(c.name, "_id") then Id
    else if Contains(Lower(c.name), "date") then Datetime
    else if c.numeric then Numerical
    else Categorical
  }

  /** A name ending in `_id` is an identifier whatever else holds for it. */
  lemma IdSuffixWins(c: Column)
    requires HasSuffix(c.name, "_id")
    ensures Classify(c) == Id
    ensures Classify(c.(numeric := !c.numeric)) == Id
  {
  }

  /** Past the `_id` rule, the test for dates ignores letter case. */
  lemma DateIgnoresCase(a: Column, b: Column)
    requires !HasSuffix(a.name, "_id") && !HasSuffix(b.name, "_id")
    requires Lower(a.name) == Lower(b.name) && a.numeric == b.numeric
    ensures Classify(a) == Classify(b)
    ensures Classify(a) == Datetime <==> Contains(Lower(a.name), "date")
  {
  }

  /** The dtype decides only for columns that neither end in `_id` nor mention a date. */
  lemma NumericDecidesLast(c: Column)
    ensures Classify(c) != Classify(c.(numeric := !c.numeric)) <==>
      !HasSuffix(c.name, "_id") && !Contains(Lower(c.name), "date")
    ensures Classify(c) == Numerical ==> c.numeric
    ensures Classify(c) == Categorical ==> !c.numeric
  {
  }

  /** The primary key `build_metadata` sets for each of its tables. */
  function PrimaryKey(table: string): Option<string> {
    if table == "dmdSec" then Some("dmd_id")
    else if table == "file" then Some("file_id")
    else if table == "structMap" then Some("struct_id")
    else None
  }

  function ColumnsOf(frame: Frame): (cs: seq<ColumnMeta>)
    ensures |cs| == |frame|
    ensures forall i :: 0 <= i < |frame| ==> cs[i] == ColumnMeta(frame[i].name, Classify(frame[i]))
  {
    seq(|frame|, i requires 0 <= i < |frame| => ColumnMeta(frame[i].name, Classify(frame[i])))
  }

  function TableOf(name: string, frame: Frame): TableMeta {
    TableMeta(name, ColumnsOf(frame), PrimaryKey(name))
  }

  /** The two relationships, both from `dmdSec.dmd_id`. */
  function Relationships(): seq<Relationship> {
    [Relationship("dmdSec", "dmd_id", "file", "dmd_id"),
     Relationship("dmdSec", "dmd_id", "structMap", "dmd_id")]
  }

  /** The metadata `build_metadata` produces for the three frames. */
  function MetadataOf(dmdSec: Frame, file: Frame, structMap: Frame): Graph {
    Graph([TableOf("dmdSec", dmdSec), TableOf("file", file), TableOf("structMap", structMap)], Relationships())
  }

  /**
   * `build_metadata`: the tables are added in order, each column of a table
   * with its type, then the table's primary key; then the relationships.
   */
  method BuildMetadata(dmdSec: Frame, file: Frame, structMap: Frame) returns (g: Graph)
    ensures g == MetadataOf(dmdSec, file, structMap)
  {
    var names := ["dmdSec", "file", "structMap"];
    var frames := [dmdSec, file, structMap];
    var tables := [];
    for t := 0 to 3
      invariant |tables| == t
      invariant forall k :: 0 <= k < t ==> tables[k] == TableOf(names[k], frames[k])
    {
      var frame := frames[t];
      var columns := [];
      for i := 0 to |frame|
        invariant columns == ColumnsOf(frame[..i])
      {
        columns := columns + [ColumnMeta(frame[i].name, Classify(frame[i]))];
      }
      assert frame[..|frame|] == frame;
      var key := None;
      if names[t] == "dmdSec" {
        key := Some("dmd_id");
      } else if names[t] == "file" {
        key := Some("file_id");
      } else if names[t] == "structMap" {
        key := Some("struct_id");
      }
      tables := tables + [TableMeta(names[t], columns, key)];
    }
    var relationships := [];
    relationships := relationships + [Relationship("dmdSec", "dmd_id", "file", "dmd_id")];
    relationships := relationships + [Relationship("dmdSec", "dmd_id", "structMap", "dmd_id")];
    g := Graph(tables, relationships);
  }

  /** The tables come in the order `dmdSec`, `file`, `structMap`, each with its fixed primary key. */
  lemma TablesAndKeys(dmdSec: Frame, file: Frame, structMap: Frame)
    ensures var g := MetadataOf(dmdSec, file, structMap);
      |g.tables| == 3 &&
      g.tables[0].name == "dmdSec" && g.tables[0].primaryKey == Some("dmd_id") &&
      g.tables[1].name == "file" && g.tables[1].primaryKey == Some("file_id") &&
      g.tables[2].name == "structMap" && g.tables[2].primaryKey == Some("struct_id")
  {
  }

  /** Every column of a frame is listed exactly once under its table, in order, with its type. */
  lemma ColumnsListed(frame: Frame, name: string)
    ensures |TableOf(name, frame).columns| == |frame|
    ensures forall i :: 0 <= i < |frame| ==>
      TableOf(name, frame).columns[i].name == frame[i].name &&
      TableOf(name, frame).columns[i].sdtype == Classify(frame[i])
  {
  }

  /**
   * The relationship graph: exactly two edges, both from the primary key of
   * `dmdSec` to a `dmd_id` column of another table; no table is its own
   * parent, and `parent_id` takes part in no edge.
   */
  lemma RelationshipShape(dmdSec: Frame, file: Frame, structMap: Frame)
    ensures var g := MetadataOf(dmdSec, file, structMap);
      |g.relationships| == 2 &&
      g.relationships[0].childTable == "file" && g.relationships[1].childTable == "structMap" &&
      forall r :: r in g.relationships ==>
        r.parentTable == "dmdSec" && Some(r.parentKey) == PrimaryKey(r.parentTable) &&
        r.childKey == "dmd_id" && r.parentTable != r.childTable &&
        r.parentKey != "parent_id" && r.childKey != "parent_id"
  {
  }

  /** A `parent_id` column stays in `structMap` as an identifier column, not a key of an edge. */
  lemma ParentIdKept(dmdSec: Frame, file: Frame, structMap: Frame, i: nat)
    requires i < |structMap| && structMap[i].name == "parent_id"
    ensures var t := MetadataOf(dmdSec, file, structMap).tables[2];
      t.columns[i] == ColumnMeta("parent_id", Id) && t.primaryKey != Some("parent_id")
  {
    assert "parent_id"[|"parent_id"| - 3..] == "_id";
  }
}

/**
 * `GenerativeModel`: the bookkeeping around the synthesizer. Training stores
 * the metadata and a synthesizer fitted on the cleaned tables; sampling
 * refuses to run before training, chooses how many rows each table keeps,
 * and cuts each sampled table down to that many rows.
 *
 * The synthesizer itself is not modelled: a fitted synthesizer is recorded
 * as the metadata and data it was fitted on, and what it generates is an
 * input of `Sample`.
 */
module Sampling {
  import opened Wrappers
  import opened Tables
  import opened Metadata

  /** A fitted synthesizer, known by the metadata it was built from and the tables it was fitted on. */
  datatype Synthesizer = Synthesizer(metadata: Graph, trainingData: map<string, Table>)

  datatype SampleError = NotTrained

  /** The non-null values of a column. */
  function KeyValues(t: Table, col: string): set<string> {
    set i | 0 <= i < |t.rows| && Present(t.rows[i], col).Some? :: Present(t.rows[i], col).value
  }

  /** A row whose foreign key is not null and names a key of the parent table. */
  predicate References(row: Row, key: string, parentKeys: set<string>) {
    Present(row, key).Some? && Present(row, key).value in parentKeys
  }

  /** Every row of the child table of `rel` references a row of its parent table. */
  predicate Holds(tables: map<string, Table>, rel: Relationship) {
    rel.childTable in tables && rel.parentTable in tables ==>
      forall i :: 0 <= i < |tables[rel.childTable].rows| ==>
        References(tables[rel.childTable].rows[i], rel.childKey, KeyValues(tables[rel.parentTable], rel.parentKey))
  }

  /** No parent table of a relationship is itself the child of one. */
  predicate ParentsAreRoots(g: Graph) {
    forall r, s :: r in g.relationships && s in g.relationships ==> r.parentTable != s.childTable
  }

  /** A row of table `name` survives cleaning when it references a parent row through every relationship. */
  predicate Keep(tables: map<string, Table>, g: Graph, name: string, row: Row) {
    forall rel :: rel in g.relationships && rel.childTable == name && rel.parentTable in tables ==>
      References(row, rel.childKey, KeyValues(tables[rel.parentTable], rel.parentKey))
  }

  /** `xs` is `ys` with some elements left out: order and repetitions are kept. */
  predicate Subsequence(xs: seq<Row>, ys: seq<Row>)
    decreases |ys|
  {
    xs == [] || (ys != [] && ((xs[0] == ys[0] && Subsequence(xs[1..], ys[1..])) || Subsequence(xs, ys[1..])))
  }

  function KeepRows(tables: map<string, Table>, g: Graph, name: string, rows: seq<Row>): (kept: seq<Row>)
    ensures forall row :: row in kept <==> row in rows && Keep(tables, g, name, row)
    ensures Subsequence(kept, rows)
  {
    if rows == [] then []
    else
      var rest := KeepRows(tables, g, name, rows[1..]);
      if Keep(tables, g, name, rows[0]) then
        assert ([rows[0]] + rest)[1..] == rest;
        [rows[0]] + rest
      else rest
  }

  /**
   * `drop_unknown_references`, given a stand-in body: each table keeps its
   * columns and the rows that reference a parent row through every
   * relationship it is the child of. Only the contract is claimed for the
   * library function: rows are only dropped, never added or reordered, and
   * when no parent table is itself a child every relationship holds
   * afterwards.
   */
  function DropUnknownReferences(tables: map<string, Table>, g: Graph): (r: map<string, Table>)
    ensures r.Keys == tables.Keys
    ensures forall t :: t in r ==> r[t].columns == tables[t].columns
    ensures forall t, row :: t in r && row in r[t].rows ==> row in tables[t].rows
    ensures forall t :: t in r ==> Subsequence(r[t].rows, tables[t].rows)
    ensures ParentsAreRoots(g) ==> forall rel :: rel in g.relationships ==> Holds(r, rel)
  {
    var r := map t | t in tables :: Table(tables[t].columns, KeepRows(tables, g, t, tables[t].rows));
    if ParentsAreRoots(g) then
      CleanedHolds(tables, g, r);
      r
    else r
  }

  lemma CleanedHolds(tables: map<string, Table>, g: Graph, r: map<string, Table>)
    requires ParentsAreRoots(g)
    requires r == map t | t in tables :: Table(tables[t].columns, KeepRows(tables, g, t, tables[t].rows))
    ensures forall rel :: rel in g.relationships ==> Holds(r, rel)
  {
    forall rel | rel in g.relationships && rel.childTable in r && rel.parentTable in r
      ensures forall i :: 0 <= i < |r[rel.childTable].rows| ==>
        References(r[rel.childTable].rows[i], rel.childKey, KeyValues(r[rel.parentTable], rel.parentKey))
    {
      var p := rel.parentTable;
      var rows := tables[p].rows;
      assert forall row :: row in rows ==> Keep(tables, g, p, row);
      KeepAll(tables, g, p, rows);
      assert r[p] == tables[p];
      forall i | 0 <= i < |r[rel.childTable].rows|
        ensures References(r[rel.childTable].rows[i], rel.childKey, KeyValues(r[p], rel.parentKey))
      {
        assert r[rel.childTable].rows[i] in r[rel.childTable].rows;
      }
    }
  }

  lemma {:induction false} KeepAll(tables: map<string, Table>, g: Graph, name: string, rows: seq<Row>)
    requires forall row :: row in rows ==> Keep(tables, g, name, row)
    ensures KeepRows(tables, g, name, rows) == rows
    decreases |rows|
  {
    if rows != [] {
      assert rows[0] in rows;
      assert forall row :: row in rows[1..] ==> row in rows;
      KeepAll(tables, g, name, rows[1..]);
    }
  }

  /** The metadata `build_metadata` produces has no parent table that is also a child. */
  lemma BuiltMetadataParentsAreRoots(dmdSec: Frame, file: Frame, structMap: Frame)
    ensures ParentsAreRoots(MetadataOf(dmdSec, file, structMap))
  {
    RelationshipShape(dmdSec, file, structMap);
  }

  /**
   * Trained on the metadata `build_metadata` produces, the synthesizer sees
   * only `file` and `structMap` rows whose `dmd_id` names a `dmdSec` row.
   */
  lemma TrainingDataClean(tables: map<string, Table>, dmdSec: Frame, file: Frame, structMap: Frame)
    ensures var g := MetadataOf(dmdSec, file, structMap);
      forall rel :: rel in g.relationships ==> Holds(DropUnknownReferences(tables, g), rel)
  {
    BuiltMetadataParentsAreRoots(dmdSec, file, structMap);
  }

  /** The names of the tables the metadata describes. */
  function TableNames(g: Graph): set<string> {
    set i | 0 <= i < |g.tables| :: g.tables[i].name
  }

  /** How many rows each table keeps: the argument, else the configured counts, else 100 per described table. */
  function RowCounts(numRows: Option<map<string, int>>, configured: map<string, int>, g: Graph): (counts: map<string, int>)
    ensures numRows.Some? ==> counts == numRows.value
    ensures numRows.None? && configured != map[] ==> counts == configured
    ensures numRows.None? && configured == map[] ==>
      counts.Keys == TableNames(g) && forall t :: t in counts ==> counts[t] == 100
  {
    if numRows.Some? then numRows.value
    else if configured != map[] then configured
    else map t | t in TableNames(g) :: 100
  }

  /** pandas `head(n)`: the first `n` rows, or all but the last `-n` when `n` is negative. */
  function Head(t: Table, n: int): (h: Table)
    ensures h.columns == t.columns
    ensures |h.rows| <= |t.rows| && h.rows == t.rows[..|h.rows|]
  {
    var keep := if n >= 0 then (if n < |t.rows| then n else |t.rows|)
                else (if |t.rows| + n > 0 then |t.rows| + n else 0);
    Table(t.columns, t.rows[..keep])
  }

  /** The truncation applied to one sampled table with its count. */
  function Truncate(t: Table, count: int): Table {
    if |t.rows| > count then Head(t, count) else t
  }

  /** The sampled tables after truncation. */
  function Truncated(data: map<string, Table>, counts: map<string, int>): map<string, Table> {
    map t | t in data :: if t in counts then Truncate(data[t], counts[t]) else data[t]
  }

  /**
   * Truncation keeps the set of tables; a table with a count `n >= 0` keeps
   * its first `min(len, n)` rows, a table with a negative count loses that
   * many rows from its end, and a table without a count is unchanged.
   */
  lemma TruncatedSpec(data: map<string, Table>, counts: map<string, int>)
    ensures Truncated(data, counts).Keys == data.Keys
    ensures forall t :: t in data && t !in counts ==> Truncated(data, counts)[t] == data[t]
    ensures forall t :: t in data && t in counts && counts[t] >= 0 ==>
      var n := if counts[t] < |data[t].rows| then counts[t] else |data[t].rows|;
      Truncated(data, counts)[t] == Table(data[t].columns, data[t].rows[..n])
    ensures forall t :: t in data && t in counts && counts[t] < 0 ==>
      var n := if |data[t].rows| + counts[t] > 0 then |data[t].rows| + counts[t] else 0;
      Truncated(data, counts)[t] == Table(data[t].columns, data[t].rows[..n])
  {
  }

  /** With counts that are not negative, truncating a second time changes nothing. */
  lemma TruncatedIdempotent(data: map<string, Table>, counts: map<string, int>)
    requires forall t :: t in counts ==> counts[t] >= 0
    ensures Truncated(Truncated(data, counts), counts) == Truncated(data, counts)
  {
    var once := Truncated(data, counts);
    forall t | t in once && t in counts ensures Truncate(once[t], counts[t]) == once[t] {
      assert |once[t].rows| <= counts[t];
    }
  }

  /** The truncation loop of `sample`: each table named in the counts and longer than its count is cut with `head`. */
  method TruncateTables(generated: map<string, Table>, counts: map<string, int>) returns (data: map<string, Table>)
    ensures data == Truncated(generated, counts)
  {
    data := generated;
    var pending := counts.Keys;
    while pending != {}
      invariant pending <= counts.Keys
      invariant data.Keys == generated.Keys
      invariant forall t :: t in data ==>
        data[t] == if t in counts && t !in pending then Truncate(generated[t], counts[t]) else generated[t]
      decreases pending
    {
      var t :| t in pending;
      if t in data && |data[t].rows| > counts[t] {
        data := data[t := Head(data[t], counts[t])];
      }
      pending := pending - {t};
    }
  }

  class GenerativeModel {
    var model: Option<Synthesizer>
    var metadata: Option<Graph>
    /** The configuration's `sampling.num_rows`; empty when it is missing. */
    const configuredRows: map<string, int>

    /** A fitted synthesizer is always accompanied by the metadata it was built from. */
    predicate Valid()
      reads this
    {
      model.Some? ==> metadata == Some(model.value.metadata)
    }

    constructor(configuredRows: map<string, int>)
      ensures model == None && metadata == None && this.configuredRows == configuredRows
      ensures Valid()
    {
      model := None;
      metadata := None;
      this.configuredRows := configuredRows;
    }

    /** `train`: store the metadata, clean the tables, fit a new synthesizer on them. */
    method Train(tables: map<string, Table>, g: Graph)
      modifies this
      ensures metadata == Some(g)
      ensures model == Some(Synthesizer(g, DropUnknownReferences(tables, g)))
      ensures Valid()
    {
      metadata := Some(g);
      var cleaned := DropUnknownReferences(tables, g);
      model := Some(Synthesizer(g, cleaned));
    }

    /**
     * `sample`: refused before training; otherwise every table named in the
     * row counts and longer than its count is cut with `head`.
     */
    method Sample(numRows: Option<map<string, int>>, generated: map<string, Table>)
      returns (r: Result<map<string, Table>, SampleError>)
      requires Valid()
      ensures model.None? ==> r == Err(NotTrained)
      ensures model.Some? ==> r == Ok(Truncated(generated, RowCounts(numRows, configuredRows, metadata.value)))
    {
      if model.None? {
        return Err(NotTrained);
      }
      var counts: map<string, int>;
      if numRows.Some? {
        counts := numRows.value;
      } else {
        counts := configuredRows;
        if counts == map[] {
          counts := map t | t in TableNames(metadata.value) :: 100;
        }
      }
      assert counts == RowCounts(numRows, configuredRows, metadata.value);
      var data := TruncateTables(generated, counts);
      r := Ok(data);
    }
  }
}

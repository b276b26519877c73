/**
 * `XMLReassembler.reassemble`: the three synthetic tables `dmdSec`, `file`
 * and `structMap` become one METS document. The root holds, in order, the
 * header, one `dmdSec` per description row, the fixed `amdSec`, the
 * `fileSec` and the `structMap`.
 *
 * pandas and lxml failures are modelled as an `Error`: reading a column the
 * row does not have (`row['col']`, a KeyError) is `MissingColumn`, and
 * handing lxml a null where it needs a string attribute (a TypeError) is
 * `NullAttribute`. The first failure in the source's evaluation order is the
 * one reported.
 */
module Reassembler {
  import opened Wrappers
  import opened Tables
  import opened Document
  import opened FileIds
  import opened StructMap

  datatype Error =
    | MissingTables
    | MissingColumn(table: string, column: string)
    | NullAttribute(table: string, column: string)

  /** `row['col']`: a KeyError when the row has no such column; the value may be null. */
  function Field(table: string, row: Row, col: string): (r: Result<Option<string>, Error>)
    ensures r.Err? <==> col !in row
    ensures r.Ok? ==> r.value == row[col]
  {
    if col in row then Ok(row[col]) else Err(MissingColumn(table, col))
  }

  /** A value read with `row['col']` that lxml then needs as a string. */
  function NotNull(table: string, col: string, o: Option<string>): (r: Result<string, Error>)
    ensures r.Err? <==> o.None?
    ensures r.Ok? ==> o == Some(r.value)
  {
    if o.Some? then Ok(o.value) else Err(NullAttribute(table, col))
  }

  /** `row.get('col', default)` used as an attribute: the default only when the column is absent. */
  function Defaulted(table: string, row: Row, col: string, default: string): (r: Result<string, Error>)
    ensures r.Err? <==> Lookup(row, col).Null?
    ensures r.Ok? ==> r.value == (if col in row then row[col].value else default)
  {
    match Lookup(row, col)
    case Absent => Ok(default)
    case Null => Err(NullAttribute(table, col))
    case Value(v) => Ok(v)
  }

  // ----- Iterating over the rows of a table -----

  /** Handling rows `0..n-1` of `t` in order with `f`, stopping at the first failure. */
  function EachRow<T>(f: (seq<string>, Row) -> Result<T, Error>, t: Table, n: nat): Result<seq<T>, Error>
    requires n <= |t.rows|
  {
    if n == 0 then Ok([])
    else
      var prev :- EachRow(f, t, n - 1);
      var x :- f(t.columns, t.rows[n - 1]);
      Ok(prev + [x])
  }

  /** Every row succeeds exactly when the whole succeeds, and then the results are the rows', in order. */
  lemma {:induction false} EachRowOk<T>(f: (seq<string>, Row) -> Result<T, Error>, t: Table, n: nat)
    requires n <= |t.rows|
    ensures EachRow(f, t, n).Ok? <==> forall i :: 0 <= i < n ==> f(t.columns, t.rows[i]).Ok?
    ensures EachRow(f, t, n).Ok? ==>
      |EachRow(f, t, n).value| == n &&
      forall i :: 0 <= i < n ==> EachRow(f, t, n).value[i] == f(t.columns, t.rows[i]).value
  {
    if n > 0 {
      EachRowOk(f, t, n - 1);
    }
  }

  /** A failure is the failure of the first row that fails. */
  lemma {:induction false} EachRowFirstError<T>(f: (seq<string>, Row) -> Result<T, Error>, t: Table, n: nat)
    requires n <= |t.rows| && EachRow(f, t, n).Err?
    ensures exists i :: (0 <= i < n && f(t.columns, t.rows[i]) == Err(EachRow(f, t, n).error) &&
                         forall j :: 0 <= j < i ==> f(t.columns, t.rows[j]).Ok?)
  {
    EachRowOk(f, t, n - 1);
    if EachRow(f, t, n - 1).Err? {
      EachRowFirstError(f, t, n - 1);
    } else {
      var i := n - 1;
      assert f(t.columns, t.rows[i]) == Err(EachRow(f, t, n).error);
    }
  }

  /** Once a row has failed, later rows change nothing. */
  lemma {:induction false} EachRowErrStays<T>(f: (seq<string>, Row) -> Result<T, Error>, t: Table, k: nat, n: nat)
    requires k <= n <= |t.rows| && EachRow(f, t, k).Err?
    ensures EachRow(f, t, n) == EachRow(f, t, k)
    decreases n - k
  {
    if k < n {
      EachRowErrStays(f, t, k + 1, n);
    }
  }

  // ----- The header and the fixed administrative section -----

  /** `_create_mets_root`'s `metsHdr`: one CREATOR agent of type OTHER, named after the generator. */
  function Header(): (e: Element)
    ensures e.name == MetsName("metsHdr") && |e.children| == 1 && |e.children[0].children| == 1
    ensures e.children[0].name == MetsName("agent")
    ensures e.children[0].attrs == map[Attr("ROLE") := "CREATOR", Attr("TYPE") := "OTHER"]
    ensures e.children[0].children[0].name == MetsName("name")
    ensures e.children[0].children[0].text == Some("SDV Synthetic Data Generator")
  {
    Element(MetsName("metsHdr"), map[], None, [
      Element(MetsName("agent"), map[Attr("ROLE") := "CREATOR", Attr("TYPE") := "OTHER"], None, [
        Element(MetsName("name"), map[], Some("SDV Synthetic Data Generator"), [])])])
  }

  /** `_create_amdsec_elements`: a single DNX placeholder record, whatever the tables hold. */
  function AmdSection(): (e: Element)
    ensures e.name == MetsName("amdSec") && |e.children| == 1
    ensures e.children[0].name == MetsName("techMD") && e.children[0].attrs == map[Attr("ID") := "AMD1"]
    ensures |e.children[0].children| == 1 && e.children[0].children[0].name == MetsName("mdWrap")
    ensures e.children[0].children[0].attrs == map[Attr("MDTYPE") := "OTHER", Attr("OTHERMDTYPE") := "DNX"]
  {
    var key := Element(Name(Dnx, "key"), map[Attr("id") := "preservationType"], Some("PRESERVATION_MASTER"), []);
    var record := Element(Name(Dnx, "record"), map[], None, [key]);
    var section := Element(Name(Dnx, "section"), map[Attr("id") := "generalRepCharacteristics"], None, [record]);
    var dnx := Element(Name(Dnx, "dnx"), map[], None, [section]);
    var xmlData := Element(MetsName("xmlData"), map[], None, [dnx]);
    var mdWrap := Element(MetsName("mdWrap"), map[Attr("MDTYPE") := "OTHER", Attr("OTHERMDTYPE") := "DNX"], None, [xmlData]);
    Element(MetsName("amdSec"), map[], None, [Element(MetsName("techMD"), map[Attr("ID") := "AMD1"], None, [mdWrap])])
  }

  // ----- dmdSec -----

  /** A column that becomes a Dublin Core element: not `dmd_id`, prefixed `dc_`, not null in this row. */
  predicate IsDcField(col: string, row: Row) {
    col != "dmd_id" && Present(row, col).Some? && HasPrefix(col, "dc_")
  }

  /** The Dublin Core element for such a column: the prefix dropped, the value as text. */
  function DcElement(col: string, row: Row): Element
    requires IsDcField(col, row)
  {
    Element(Name(DC, col[3..]), map[], Present(row, col), [])
  }

  /** The Dublin Core elements of a row, in column order. */
  function DcChildren(cols: seq<string>, row: Row): seq<Element>
    decreases |cols|
  {
    if cols == [] then []
    else (if IsDcField(cols[0], row) then [DcElement(cols[0], row)] else []) + DcChildren(cols[1..], row)
  }

  /** Going through the columns in two parts gives the elements of each part, in order. */
  lemma {:induction false} DcChildrenAppend(a: seq<string>, b: seq<string>, row: Row)
    ensures DcChildren(a + b, row) == DcChildren(a, row) + DcChildren(b, row)
    decreases |a|
  {
    if a == [] {
      assert a + b == b;
    } else {
      var head := if IsDcField(a[0], row) then [DcElement(a[0], row)] else [];
      assert (a + b)[0] == a[0];
      assert (a + b)[1..] == a[1..] + b;
      assert DcChildren(a + b, row) == head + DcChildren(a[1..] + b, row);
      assert DcChildren(a, row) == head + DcChildren(a[1..], row);
      DcChildrenAppend(a[1..], b, row);
    }
  }

  /** Each Dublin Core element comes from a qualifying column, and every qualifying column gives one. */
  lemma {:induction false} DcChildrenMembers(cols: seq<string>, row: Row, e: Element)
    ensures e in DcChildren(cols, row) <==>
      exists i :: 0 <= i < |cols| && IsDcField(cols[i], row) && e == DcElement(cols[i], row)
    decreases |cols|
  {
    if cols != [] {
      DcChildrenMembers(cols[1..], row, e);
      if exists i :: 0 <= i < |cols| && IsDcField(cols[i], row) && e == DcElement(cols[i], row) {
        var i :| 0 <= i < |cols| && IsDcField(cols[i], row) && e == DcElement(cols[i], row);
        if i > 0 {
          assert cols[1..][i - 1] == cols[i];
        }
      }
      if e in DcChildren(cols[1..], row) {
        var i :| 0 <= i < |cols[1..]| && IsDcField(cols[1..][i], row) && e == DcElement(cols[1..][i], row);
        assert cols[i + 1] == cols[1..][i];
      }
    }
  }

  /** A column that is not a Dublin Core field, wherever it stands, adds nothing. */
  lemma OtherColumnIgnored(a: seq<string>, col: string, b: seq<string>, row: Row)
    requires !IsDcField(col, row)
    ensures DcChildren(a + [col] + b, row) == DcChildren(a + b, row)
  {
    DcChildrenAppend(a + [col], b, row);
    DcChildrenAppend(a, [col], row);
    DcChildrenAppend(a, b, row);
  }

  /** One `dmdSec` element: ID from `dmd_id`, then a Dublin Core record wrapped as MDTYPE="DC". */
  function DmdSection(cols: seq<string>, row: Row): Result<Element, Error> {
    var cell :- Field("dmdSec", row, "dmd_id");
    var id :- NotNull("dmdSec", "dmd_id", cell);
    var dc := Element(Name(DC, "dc"), map[], None, DcChildren(cols, row));
    var xmlData := Element(MetsName("xmlData"), map[], None, [dc]);
    var mdWrap := Element(MetsName("mdWrap"), map[Attr("MDTYPE") := "DC"], None, [xmlData]);
    Ok(Element(MetsName("dmdSec"), map[Attr("ID") := id], None, [mdWrap]))
  }

  /** The Dublin Core record of a built `dmdSec` element. */
  function DcRecord(e: Element): Option<Element> {
    if |e.children| == 1 && |e.children[0].children| == 1 && |e.children[0].children[0].children| == 1
    then Some(e.children[0].children[0].children[0])
    else None
  }

  /** A `dmdSec` element is built exactly when `dmd_id` is present and not null, and it carries that ID and those fields. */
  lemma DmdSectionShape(cols: seq<string>, row: Row)
    ensures DmdSection(cols, row).Ok? <==> Lookup(row, "dmd_id").Value?
    ensures "dmd_id" !in row ==> DmdSection(cols, row) == Err(MissingColumn("dmdSec", "dmd_id"))
    ensures DmdSection(cols, row).Ok? ==>
      var e := DmdSection(cols, row).value;
      e.name == MetsName("dmdSec") && e.attrs == map[Attr("ID") := Lookup(row, "dmd_id").v] &&
      |e.children| == 1 && e.children[0].name == MetsName("mdWrap") &&
      e.children[0].attrs == map[Attr("MDTYPE") := "DC"] &&
      DcRecord(e) == Some(Element(Name(DC, "dc"), map[], None, DcChildren(cols, row)))
  {
  }

  /** `_create_dmdsec_elements`: one `dmdSec` per row, in row order. */
  method CreateDmdSections(t: Table) returns (r: Result<seq<Element>, Error>)
    ensures r == EachRow(DmdSection, t, |t.rows|)
  {
    var secs := [];
    for i := 0 to |t.rows|
      invariant EachRow(DmdSection, t, i) == Ok(secs)
    {
      var sec := DmdSection(t.columns, t.rows[i]);
      if sec.Err? {
        EachRowErrStays(DmdSection, t, i + 1, |t.rows|);
        return Err(sec.error);
      }
      secs := secs + [sec.value];
    }
    r := Ok(secs);
  }

  // ----- fileSec -----

  /** The attributes of one `file` element and its `FLocat`, read from a row. */
  datatype FileEntry = FileEntry(
    fileId: string, mimetype: string, dmdId: string,
    size: Option<string>, checksum: Option<string>, checksumType: Option<string>,
    href: string, loctype: string)

  /**
   * Reading one `file` row: the two KeyErrors come first, then the attribute
   * values in the order lxml receives them.
   */
  function FileRow(cols: seq<string>, row: Row): Result<FileEntry, Error> {
    var idCell :- Field("file", row, "file_id");
    var dmdCell :- Field("file", row, "dmd_id");
    var id :- NotNull("file", "file_id", idCell);
    var mimetype :- Defaulted("file", row, "mimetype", "application/octet-stream");
    var dmdId :- NotNull("file", "dmd_id", dmdCell);
    var size := Present(row, "size");
    var checksum := Present(row, "checksum");
    var checksumType :- if checksum.Some? then
        var ct :- Defaulted("file", row, "checksumtype", "MD5"); Ok(Some(ct))
      else Ok(None);
    var href :- Defaulted("file", row, "href", "file://" + id);
    var loctype :- Defaulted("file", row, "loctype", "URL");
    Ok(FileEntry(id, mimetype, dmdId, size, checksum, checksumType, href, loctype))
  }

  function FileElement(f: FileEntry): Element {
    var attrs := map[Attr("ID") := f.fileId, Attr("MIMETYPE") := f.mimetype, Attr("DMDID") := f.dmdId]
      + (if f.size.Some? then map[Attr("SIZE") := f.size.value] else map[])
      + (if f.checksum.Some? then map[Attr("CHECKSUM") := f.checksum.value] else map[])
      + (if f.checksumType.Some? then map[Attr("CHECKSUMTYPE") := f.checksumType.value] else map[]);
    var flocat := Element(MetsName("FLocat"), map[Name(XLink, "href") := f.href, Attr("LOCTYPE") := f.loctype], None, []);
    Element(MetsName("file"), attrs, None, [flocat])
  }

  /** `fileSec` with one `fileGrp USE="CONTENT"` holding the file elements in row order. */
  function FileSection(entries: seq<FileEntry>): (e: Element)
    ensures e.name == MetsName("fileSec") && |e.children| == 1
    ensures e.children[0].name == MetsName("fileGrp") && e.children[0].attrs == map[Attr("USE") := "CONTENT"]
    ensures |e.children[0].children| == |entries|
    ensures forall i :: 0 <= i < |entries| ==> e.children[0].children[i] == FileElement(entries[i])
  {
    var files := seq(|entries|, i requires 0 <= i < |entries| => FileElement(entries[i]));
    Element(MetsName("fileSec"), map[], None, [Element(MetsName("fileGrp"), map[Attr("USE") := "CONTENT"], None, files)])
  }

  /**
   * A `file` element always has ID and DMDID from the row; MIMETYPE, the
   * checksum type, href and LOCTYPE fall back to their defaults only when the
   * column is absent; SIZE and CHECKSUM appear only when not null, and
   * CHECKSUMTYPE exactly with CHECKSUM; there is exactly one `FLocat`.
   */
  lemma FileEntryShape(cols: seq<string>, row: Row)
    requires FileRow(cols, row).Ok?
    ensures var e := FileElement(FileRow(cols, row).value);
      var id := row["file_id"].value;
      "file_id" in row && row["file_id"].Some? && "dmd_id" in row && row["dmd_id"].Some? &&
      e.name == MetsName("file") &&
      e.attrs[Attr("ID")] == id && e.attrs[Attr("DMDID")] == row["dmd_id"].value &&
      e.attrs[Attr("MIMETYPE")] == (if "mimetype" in row then row["mimetype"].value else "application/octet-stream") &&
      (Attr("SIZE") in e.attrs <==> Present(row, "size").Some?) &&
      (Attr("SIZE") in e.attrs ==> e.attrs[Attr("SIZE")] == Present(row, "size").value) &&
      (Attr("CHECKSUM") in e.attrs <==> Present(row, "checksum").Some?) &&
      (Attr("CHECKSUMTYPE") in e.attrs <==> Attr("CHECKSUM") in e.attrs) &&
      (Attr("CHECKSUMTYPE") in e.attrs ==>
        e.attrs[Attr("CHECKSUMTYPE")] == (if "checksumtype" in row then row["checksumtype"].value else "MD5")) &&
      |e.children| == 1 && e.children[0].name == MetsName("FLocat") &&
      e.children[0].attrs[Name(XLink, "href")] == (if "href" in row then row["href"].value else "file://" + id) &&
      e.children[0].attrs[Attr("LOCTYPE")] == (if "loctype" in row then row["loctype"].value else "URL")
  {
    var f := FileRow(cols, row).value;
    FileEntryFields(cols, row);
    FileElementShape(f);
  }

  /** The entry read from a `file` row, field by field. */
  lemma FileEntryFields(cols: seq<string>, row: Row)
    requires FileRow(cols, row).Ok?
    ensures var f := FileRow(cols, row).value;
      "file_id" in row && row["file_id"] == Some(f.fileId) && "dmd_id" in row && row["dmd_id"] == Some(f.dmdId) &&
      f.mimetype == (if "mimetype" in row then row["mimetype"].value else "application/octet-stream") &&
      f.size == Present(row, "size") && f.checksum == Present(row, "checksum") &&
      (f.checksumType.Some? <==> f.checksum.Some?) &&
      (f.checksumType.Some? ==> f.checksumType.value == (if "checksumtype" in row then row["checksumtype"].value else "MD5")) &&
      f.href == (if "href" in row then row["href"].value else "file://" + f.fileId) &&
      f.loctype == (if "loctype" in row then row["loctype"].value else "URL")
  {
  }

  /** The `file` element of an entry: its attributes and its one `FLocat`. */
  lemma FileElementShape(f: FileEntry)
    ensures var e := FileElement(f);
      e.name == MetsName("file") &&
      e.attrs[Attr("ID")] == f.fileId && e.attrs[Attr("DMDID")] == f.dmdId && e.attrs[Attr("MIMETYPE")] == f.mimetype &&
      (Attr("SIZE") in e.attrs <==> f.size.Some?) && (f.size.Some? ==> e.attrs[Attr("SIZE")] == f.size.value) &&
      (Attr("CHECKSUM") in e.attrs <==> f.checksum.Some?) &&
      (Attr("CHECKSUMTYPE") in e.attrs <==> f.checksumType.Some?) &&
      (f.checksumType.Some? ==> e.attrs[Attr("CHECKSUMTYPE")] == f.checksumType.value) &&
      |e.children| == 1 && e.children[0].name == MetsName("FLocat") &&
      e.children[0].attrs[Name(XLink, "href")] == f.href && e.children[0].attrs[Attr("LOCTYPE")] == f.loctype
  {
  }

  /** A `file` row fails on a missing column exactly when it lacks `file_id` or `dmd_id`. */
  lemma FileRowMissing(cols: seq<string>, row: Row)
    ensures FileRow(cols, row).Err? && FileRow(cols, row).error.MissingColumn? <==>
      "file_id" !in row || "dmd_id" !in row
    ensures "file_id" !in row ==> FileRow(cols, row) == Err(MissingColumn("file", "file_id"))
  {
  }

  /** `_create_filesec_elements`, reading the rows in order. */
  method ReadFileRows(t: Table) returns (r: Result<seq<FileEntry>, Error>)
    ensures r == EachRow(FileRow, t, |t.rows|)
  {
    var entries := [];
    for i := 0 to |t.rows|
      invariant EachRow(FileRow, t, i) == Ok(entries)
    {
      var entry := FileRow(t.columns, t.rows[i]);
      if entry.Err? {
        EachRowErrStays(FileRow, t, i + 1, |t.rows|);
        return Err(entry.error);
      }
      entries := entries + [entry.value];
    }
    r := Ok(entries);
  }

  /** The `file_id` of each row, as `_build_file_id_mapping` reads them. */
  function FileIdsOf(entries: seq<FileEntry>): (ids: seq<string>)
    ensures |ids| == |entries|
    ensures forall i :: 0 <= i < |entries| ==> ids[i] == entries[i].fileId
  {
    seq(|entries|, i requires 0 <= i < |entries| => entries[i].fileId)
  }

  // ----- structMap -----

  /**
   * First-pass reading of one `structMap` row: KeyErrors for `struct_id` and
   * `dmd_id`, then the ID and DMDID attributes must not be null; LABEL,
   * ORDER, TYPE and the file pointer are taken when present and not null.
   * `parent_id` is read here but only checked for presence by the second pass.
   */
  function DivisionRow(cols: seq<string>, row: Row): Result<StructRow, Error> {
    var idCell :- Field("structMap", row, "struct_id");
    var dmdCell :- Field("structMap", row, "dmd_id");
    var id :- NotNull("structMap", "struct_id", idCell);
    var dmdId :- NotNull("structMap", "dmd_id", dmdCell);
    Ok(StructRow(id, dmdId, Present(row, "parent_id"), Present(row, "label"), Present(row, "order"),
                 Present(row, "type"), Present(row, "file_id")))
  }

  /** The two passes' reading of `structMap`: every first-pass failure comes before a missing `parent_id`. */
  function StructRows(t: Table): Result<seq<StructRow>, Error> {
    var rows :- EachRow(DivisionRow, t, |t.rows|);
    if forall i :: 0 <= i < |t.rows| ==> "parent_id" in t.rows[i] then Ok(rows)
    else Err(MissingColumn("structMap", "parent_id"))
  }

  /** `_create_structmap_elements` reading its rows: the first pass, then the `parent_id` column of the second. */
  method ReadStructRows(t: Table) returns (r: Result<seq<StructRow>, Error>)
    ensures r == StructRows(t)
  {
    var rows := [];
    for i := 0 to |t.rows|
      invariant EachRow(DivisionRow, t, i) == Ok(rows)
    {
      var div := DivisionRow(t.columns, t.rows[i]);
      if div.Err? {
        EachRowErrStays(DivisionRow, t, i + 1, |t.rows|);
        return Err(div.error);
      }
      rows := rows + [div.value];
    }
    for i := 0 to |t.rows|
      invariant forall j :: 0 <= j < i ==> "parent_id" in t.rows[j]
    {
      if "parent_id" !in t.rows[i] {
        return Err(MissingColumn("structMap", "parent_id"));
      }
    }
    r := Ok(rows);
  }

  // ----- The whole document -----

  predicate HasTables(data: map<string, Table>) {
    "dmdSec" in data && "file" in data && "structMap" in data
  }

  /** The structure rows, once read, have unique `struct_id`s and parent chains without cycles. */
  predicate WellLinked(data: map<string, Table>) {
    "structMap" in data && StructRows(data["structMap"]).Ok? ==>
      UniqueIds(StructRows(data["structMap"]).value) && Acyclic(StructRows(data["structMap"]).value)
  }

  /** The root element built from the sections' rows once they have all been read. */
  function Root(dmds: seq<Element>, entries: seq<FileEntry>, rows: seq<StructRow>): Element
    requires UniqueIds(rows) && Acyclic(rows)
  {
    Element(MetsName("mets"), map[], None,
            [Header()] + dmds + [AmdSection(), FileSection(entries), StructMapElement(rows, Mapping(FileIdsOf(entries)))])
  }

  /** What `reassemble` returns for the synthetic tables, or the error it raises. */
  function Reassembled(data: map<string, Table>): Result<Element, Error>
    requires WellLinked(data)
  {
    if !HasTables(data) then Err(MissingTables)
    else
      var dmds :- EachRow(DmdSection, data["dmdSec"], |data["dmdSec"].rows|);
      var entries :- EachRow(FileRow, data["file"], |data["file"].rows|);
      var rows :- StructRows(data["structMap"]);
      Ok(Root(dmds, entries, rows))
  }

  /** The root's children added one section after the other, as `reassemble` does with `SubElement`. */
  method BuildRoot(dmds: seq<Element>, entries: seq<FileEntry>, rows: seq<StructRow>) returns (root: Element)
    requires UniqueIds(rows) && Acyclic(rows)
    ensures root == Root(dmds, entries, rows)
  {
    var children := [Header()];
    children := children + dmds;
    children := children + [AmdSection()];
    children := children + [FileSection(entries)];
    var mapping := BuildFileIdMapping(FileIdsOf(entries));
    var structMap := CreateStructMap(rows, mapping);
    children := children + [structMap];
    root := Element(MetsName("mets"), map[], None, children);
  }

  /**
   * `XMLReassembler.reassemble`: the three tables must all be there; then
   * each section is read in turn and the first failure ends the construction.
   */
  method Reassemble(data: map<string, Table>) returns (r: Result<Element, Error>)
    requires WellLinked(data)
    ensures r == Reassembled(data)
    ensures !HasTables(data) ==> r == Err(MissingTables)
  {
    if "dmdSec" !in data || "file" !in data || "structMap" !in data {
      return Err(MissingTables);
    }
    var dmds :- CreateDmdSections(data["dmdSec"]);
    var entries :- ReadFileRows(data["file"]);
    var rows :- ReadStructRows(data["structMap"]);
    var root := BuildRoot(dmds, entries, rows);
    r := Ok(root);
  }

  /** `reassemble` succeeds exactly when the tables are all there and every row of each can be read. */
  lemma ReassembledOk(data: map<string, Table>)
    requires WellLinked(data)
    ensures Reassembled(data).Ok? <==>
      HasTables(data) &&
      (forall i :: 0 <= i < |data["dmdSec"].rows| ==> DmdSection(data["dmdSec"].columns, data["dmdSec"].rows[i]).Ok?) &&
      (forall i :: 0 <= i < |data["file"].rows| ==> FileRow(data["file"].columns, data["file"].rows[i]).Ok?) &&
      StructRows(data["structMap"]).Ok?
  {
    if HasTables(data) {
      EachRowOk(DmdSection, data["dmdSec"], |data["dmdSec"].rows|);
      EachRowOk(FileRow, data["file"], |data["file"].rows|);
    }
  }

  /** The result of a successful `reassemble`, with the rows it was read from. */
  lemma Parts(data: map<string, Table>)
    returns (dmds: seq<Element>, entries: seq<FileEntry>, rows: seq<StructRow>)
    requires WellLinked(data) && Reassembled(data).Ok?
    ensures HasTables(data)
    ensures EachRow(DmdSection, data["dmdSec"], |data["dmdSec"].rows|) == Ok(dmds)
    ensures EachRow(FileRow, data["file"], |data["file"].rows|) == Ok(entries)
    ensures StructRows(data["structMap"]) == Ok(rows) && UniqueIds(rows) && Acyclic(rows)
    ensures Reassembled(data) == Ok(Root(dmds, entries, rows))
  {
    dmds := EachRow(DmdSection, data["dmdSec"], |data["dmdSec"].rows|).value;
    entries := EachRow(FileRow, data["file"], |data["file"].rows|).value;
    rows := StructRows(data["structMap"]).value;
  }

  lemma RootLayout(dmds: seq<Element>, entries: seq<FileEntry>, rows: seq<StructRow>)
    requires UniqueIds(rows) && Acyclic(rows)
    requires forall i :: 0 <= i < |dmds| ==> dmds[i].name == MetsName("dmdSec")
    ensures var root := Root(dmds, entries, rows);
      var n := |dmds|;
      root.name == MetsName("mets") && |root.children| == n + 4 &&
      root.children[0] == Header() &&
      root.children[1..n + 1] == dmds &&
      root.children[n + 1] == AmdSection() &&
      root.children[n + 2] == FileSection(entries) &&
      root.children[n + 3] == StructMapElement(rows, Mapping(FileIdsOf(entries))) &&
      forall i :: 0 <= i < |root.children| ==>
        (root.children[i].name == MetsName("dmdSec") <==> 1 <= i <= n) &&
        (root.children[i].name == MetsName("amdSec") <==> i == n + 1)
  {
    var root := Root(dmds, entries, rows);
    var n := |dmds|;
    assert root.children[1..n + 1] == dmds;
    forall i | 0 <= i < |root.children|
      ensures root.children[i].name == MetsName("dmdSec") <==> 1 <= i <= n
      ensures root.children[i].name == MetsName("amdSec") <==> i == n + 1
    {
      if 1 <= i <= n {
        assert root.children[i] == dmds[i - 1];
      }
    }
  }

  /**
   * The root's children: the header, then one `dmdSec` per description row
   * in row order, then exactly one `amdSec`, then `fileSec` and `structMap`.
   */
  lemma SectionLayout(data: map<string, Table>)
    requires WellLinked(data) && Reassembled(data).Ok?
    ensures HasTables(data)
    ensures var root := Reassembled(data).value;
      var n := |data["dmdSec"].rows|;
      root.name == MetsName("mets") && |root.children| == n + 4 &&
      root.children[0] == Header() &&
      (forall i :: 0 <= i < n ==>
        DmdSection(data["dmdSec"].columns, data["dmdSec"].rows[i]) == Ok(root.children[i + 1])) &&
      root.children[n + 1] == AmdSection() &&
      forall i :: 0 <= i < |root.children| ==>
        (root.children[i].name == MetsName("dmdSec") <==> 1 <= i <= n) &&
        (root.children[i].name == MetsName("amdSec") <==> i == n + 1)
  {
    var dmds, entries, rows := Parts(data);
    var t := data["dmdSec"];
    EachRowOk(DmdSection, t, |t.rows|);
    forall i | 0 <= i < |dmds| ensures dmds[i].name == MetsName("dmdSec") {
      DmdSectionShape(t.columns, t.rows[i]);
    }
    RootLayout(dmds, entries, rows);
    var root := Root(dmds, entries, rows);
    forall i | 0 <= i < |dmds| ensures DmdSection(t.columns, t.rows[i]) == Ok(root.children[i + 1]) {
      assert root.children[1..|dmds| + 1][i] == dmds[i];
    }
  }

  /** The `fileGrp` holds one `file` element per `file` row, in row order. */
  lemma FileLayout(data: map<string, Table>)
    requires WellLinked(data) && Reassembled(data).Ok?
    ensures HasTables(data) && |Reassembled(data).value.children| == |data["dmdSec"].rows| + 4
    ensures var sec := Reassembled(data).value.children[|data["dmdSec"].rows| + 2];
      var t := data["file"];
      sec.name == MetsName("fileSec") && |sec.children| == 1 &&
      sec.children[0].name == MetsName("fileGrp") && sec.children[0].attrs == map[Attr("USE") := "CONTENT"] &&
      |sec.children[0].children| == |t.rows| &&
      forall i :: 0 <= i < |t.rows| ==>
        FileRow(t.columns, t.rows[i]).Ok? &&
        sec.children[0].children[i] == FileElement(FileRow(t.columns, t.rows[i]).value)
  {
    var dmds, entries, rows := Parts(data);
    EachRowOk(DmdSection, data["dmdSec"], |data["dmdSec"].rows|);
    EachRowOk(FileRow, data["file"], |data["file"].rows|);
    RootLayoutSizes(dmds, entries, rows);
  }

  lemma RootLayoutSizes(dmds: seq<Element>, entries: seq<FileEntry>, rows: seq<StructRow>)
    requires UniqueIds(rows) && Acyclic(rows)
    ensures var root := Root(dmds, entries, rows);
      |root.children| == |dmds| + 4 &&
      root.children[|dmds| + 2] == FileSection(entries) &&
      root.children[|dmds| + 3] == StructMapElement(rows, Mapping(FileIdsOf(entries)))
  {
  }

  /** The `structMap` section is the division forest of the `structMap` rows, pointing through the file-id mapping. */
  lemma StructMapLayout(data: map<string, Table>)
    requires WellLinked(data) && Reassembled(data).Ok?
    ensures HasTables(data)
    ensures StructRows(data["structMap"]).Ok? && EachRow(FileRow, data["file"], |data["file"].rows|).Ok?
    ensures var root := Reassembled(data).value;
      var rows := StructRows(data["structMap"]).value;
      var ids := FileIdsOf(EachRow(FileRow, data["file"], |data["file"].rows|).value);
      |root.children| == |data["dmdSec"].rows| + 4 &&
      root.children[|data["dmdSec"].rows| + 3] == StructMapElement(rows, Mapping(ids))
  {
    var dmds, entries, rows := Parts(data);
    EachRowOk(DmdSection, data["dmdSec"], |data["dmdSec"].rows|);
    RootLayoutSizes(dmds, entries, rows);
  }
}
